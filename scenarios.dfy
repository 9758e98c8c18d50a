/**
 The concrete tables the statistics functions are exercised on, with the
 values each function yields for them.
 */
module Scenarios {
  import opened Series
  import opened Frames
  import opened Models

  /** Rows [1, 5, 3], [7, 8, 9], [3, 4, 1] under columns a, b, c. */
  function Positives(): Table
  {
    Table(map["a" := [1.0, 7.0, 3.0], "b" := [5.0, 8.0, 4.0], "c" := [3.0, 9.0, 1.0]], 3)
  }

  /** A 3 x 3 table of zeros under columns a, b, c. */
  function Zeros(): Table
  {
    Table(map["a" := [0.0, 0.0, 0.0], "b" := [0.0, 0.0, 0.0], "c" := [0.0, 0.0, 0.0]], 3)
  }

  /** Rows [-7, -7, -3], [-4, -3, -1], [-1, -5, -3] under columns a, b, c. */
  function Negatives(): Table
  {
    Table(map["a" := [-7.0, -4.0, -1.0], "b" := [-7.0, -3.0, -5.0], "c" := [-3.0, -1.0, -3.0]], 3)
  }

  lemma MaxMagExamples()
    ensures MaxMag(Frame(Positives()), "a") == Ok(7.0)
    ensures MaxMag(Frame(Zeros()), "b") == Ok(0.0)
  {
  }

  lemma MinMagExamples()
    ensures MinMag(Frame(Positives()), "a") == Ok(1.0)
    ensures MinMag(Frame(Zeros()), "b") == Ok(0.0)
    ensures MinMag(Frame(Negatives()), "b") == Ok(-7.0)
  {
  }

  /** The mean of column a is 11/3, within a relative 1% of 3.66. */
  lemma MeanMagExamples()
    ensures MeanMag(Frame(Positives()), "a") == Ok(11.0 / 3.0)
    ensures 3.66 - 0.01 * 3.66 <= 11.0 / 3.0 <= 3.66 + 0.01 * 3.66
    ensures MeanMag(Frame(Zeros()), "b") == Ok(0.0)
  {
    var a := [1.0, 7.0, 3.0];
    assert Positives().columns["a"] == a;
    assert Sum(a) == 11.0 by {
      assert a[1..][1..][1..] == [];
    }
    var z := [0.0, 0.0, 0.0];
    assert Zeros().columns["b"] == z;
    assert Sum(z) == 0.0 by {
      assert z[1..][1..][1..] == [];
    }
  }

  /** Indexing a plain string by a column name is a TypeError. */
  lemma MaxMagOfString()
    ensures MaxMag(Str("string"), "b") == Err(TypeError)
  {
  }

  /** A constant column normalises to zeros. */
  lemma NormalizeZerosExample()
    ensures NormalizeLc(Frame(Zeros()), "b") == Ok([Finite(0.0), Finite(0.0), Finite(0.0)])
  {
    var z := [0.0, 0.0, 0.0];
    assert Zeros().columns["b"] == z;
    assert Min(z) == 0.0 && Max(z) == 0.0;
    assert Rescale(z) == [0.0, 0.0, 0.0];
    assert Finites(Rescale(z)) == [Finite(0.0), Finite(0.0), Finite(0.0)];
  }

  /** Asking for bands g and r when only g has a table fails with a KeyError on r. */
  method CalcStatsMissingBand() returns (r: Result<map<string, Stats>>)
    ensures r == Err(KeyError("r"))
  {
    var lc := map["g" := Frame(Positives())];
    assert BandStats(lc, "g", "a").Ok? by {
      assert Positives().columns["a"] == [1.0, 7.0, 3.0];
    }
    assert BandStats(lc, "r", "a") == Err(KeyError("r"));
    r := CalcStats(lc, ["g", "r"], "a");
  }
}
