/**
 Properties of the lightcurve statistics that relate several calls:
 the ordering of the three reductions, their independence of row order,
 what a constant lightcurve yields, and the behaviour of the normalisation
 at its extremes and in its degenerate case.
 */
module ModelProperties {
  import opened Series
  import opened Frames
  import opened Models

  /** For any non-empty numeric column: min_mag <= mean_mag <= max_mag. */
  lemma ReductionsOrdered(data: Data, magCol: string)
    requires Reducible(data, magCol) && data.Frame? && magCol in data.table.columns
    ensures MinMag(data, magCol).Ok? && MeanMag(data, magCol).Ok? && MaxMag(data, magCol).Ok?
    ensures MinMag(data, magCol).value <= MeanMag(data, magCol).value <= MaxMag(data, magCol).value
  {
  }

  /** Each entry `calc_stats` records is ordered min <= mean <= max and bounds the band's column. */
  lemma BandStatsOrdered(lc: map<string, Data>, b: string, magCol: string, st: Stats)
    requires b in lc ==> Reducible(lc[b], magCol)
    requires BandStats(lc, b, magCol) == Ok(st)
    ensures b in lc && lc[b].Frame? && magCol in lc[b].table.columns
    ensures st.min <= st.mean <= st.max
    ensures st.max in lc[b].table.columns[magCol] && st.min in lc[b].table.columns[magCol]
  {
  }

  /**
   Two tables whose magnitude columns hold the same values, in any order,
   have the same maximum, minimum and mean.
   */
  lemma ReductionsIgnoreRowOrder(d1: Data, d2: Data, magCol: string)
    requires Reducible(d1, magCol) && Reducible(d2, magCol)
    requires d1.Frame? && d2.Frame? && magCol in d1.table.columns && magCol in d2.table.columns
    requires multiset(d1.table.columns[magCol]) == multiset(d2.table.columns[magCol])
    ensures MaxMag(d1, magCol) == MaxMag(d2, magCol)
    ensures MinMag(d1, magCol) == MinMag(d2, magCol)
    ensures MeanMag(d1, magCol) == MeanMag(d2, magCol)
  {
    var a, b := d1.table.columns[magCol], d2.table.columns[magCol];
    ExtremesPermutation(a, b);
    SumPermutation(a, b);
    assert |a| == |multiset(a)| == |b|;
    assert MaxMag(d1, magCol) == Ok(Max(a)) && MaxMag(d2, magCol) == Ok(Max(b));
    assert MinMag(d1, magCol) == Ok(Min(a)) && MinMag(d2, magCol) == Ok(Min(b));
    assert MeanMag(d1, magCol) == Ok(Mean(a)) && MeanMag(d2, magCol) == Ok(Mean(b));
  }

  /** Exchanging two rows of a table changes none of the three reductions of any column. */
  lemma SwapRowsKeepsReductions(t: Table, i: nat, j: nat, magCol: string)
    requires Valid(t) && i < t.rows && j < t.rows && magCol in t.columns
    ensures MaxMag(Frame(SwapRows(t, i, j)), magCol) == MaxMag(Frame(t), magCol)
    ensures MinMag(Frame(SwapRows(t, i, j)), magCol) == MinMag(Frame(t), magCol)
    ensures MeanMag(Frame(SwapRows(t, i, j)), magCol) == MeanMag(Frame(t), magCol)
  {
    ReductionsIgnoreRowOrder(Frame(SwapRows(t, i, j)), Frame(t), magCol);
  }

  /** A column whose every entry is `v` has maximum, minimum and mean exactly `v`. */
  lemma ConstantColumnReductions(data: Data, magCol: string, v: real)
    requires Reducible(data, magCol) && data.Frame? && magCol in data.table.columns
    requires forall x :: x in data.table.columns[magCol] ==> x == v
    ensures MaxMag(data, magCol) == Ok(v)
    ensures MinMag(data, magCol) == Ok(v)
    ensures MeanMag(data, magCol) == Ok(v)
  {
    ReductionsOrdered(data, magCol);
    assert MaxMag(data, magCol).value in data.table.columns[magCol];
    assert MinMag(data, magCol).value in data.table.columns[magCol];
  }

  /**
   The denominator `normalize_lc` computes, the maximum of the magnitude
   column after the minimum is subtracted from the whole table, equals the
   maximum of the column minus its minimum.
   */
  lemma NormalizeDenominator(df: Data, magCol: string)
    requires Reducible(df, magCol) && df.Frame? && magCol in df.table.columns
    ensures Subtract(df, MinMag(df, magCol).value).Ok?
    ensures Reducible(Subtract(df, MinMag(df, magCol).value).value, magCol)
    ensures MaxMag(Subtract(df, MinMag(df, magCol).value).value, magCol)
         == Ok(MaxMag(df, magCol).value - MinMag(df, magCol).value)
    ensures MaxMag(df, magCol).value - MinMag(df, magCol).value >= 0.0
  {
    var s := df.table.columns[magCol];
    ReductionsOrdered(df, magCol);
    assert MinMag(df, magCol).value == Min(s);
    assert MaxMag(df, magCol).value == Max(s);
    var shifted := Subtract(df, Min(s)).value;
    assert shifted.table.columns[magCol] == Minus(s, Min(s));
    MaxMinus(s, Min(s));
  }

  /**
   On a column that is not constant, every row normalises to
   (x - min) / (max - min) (see `ScaledEnds`), the row holding the minimum to
   0 and the row holding the maximum to 1.
   */
  lemma NormalizeSpread(df: Data, magCol: string)
    requires Reducible(df, magCol) && df.Frame? && magCol in df.table.columns
    requires MinMag(df, magCol).value < MaxMag(df, magCol).value
    ensures NormalizeLc(df, magCol).Ok?
    ensures
      var s, lo, hi, out := df.table.columns[magCol], MinMag(df, magCol).value,
                            MaxMag(df, magCol).value, NormalizeLc(df, magCol).value;
      && |out| == |s|
      && (forall i :: 0 <= i < |s| ==> out[i] == Finite(Scaled(s[i], lo, hi)))
      && (forall i :: 0 <= i < |s| && s[i] == lo ==> out[i] == Finite(0.0))
      && (forall i :: 0 <= i < |s| && s[i] == hi ==> out[i] == Finite(1.0))
  {
    var s := df.table.columns[magCol];
    ReductionsOrdered(df, magCol);
    assert MinMag(df, magCol).value == Min(s);
    assert MaxMag(df, magCol).value == Max(s);
    forall i | 0 <= i < |s|
      ensures s[i] == Min(s) ==> Scaled(s[i], Min(s), Max(s)) == 0.0
      ensures s[i] == Max(s) ==> Scaled(s[i], Min(s), Max(s)) == 1.0
    {
      ScaledEnds(s[i], Min(s), Max(s));
    }
  }

  /**
   Scaling by a positive spread is (x - lo) / (hi - lo): the lower end goes
   to 0 and the upper end to 1.
   */
  lemma ScaledEnds(x: real, lo: real, hi: real)
    requires lo < hi
    ensures Scaled(x, lo, hi) == (x - lo) / (hi - lo)
    ensures x == lo ==> Scaled(x, lo, hi) == 0.0
    ensures x == hi ==> Scaled(x, lo, hi) == 1.0
  {
    DivSelf(hi - lo);
  }

  lemma DivSelf(d: real)
    requires d != 0.0
    ensures d / d == 1.0
  {
  }

  /** Below the top of a range, only the lower end scales to 0. */
  lemma ScaledZero(x: real, lo: real, hi: real)
    requires lo <= x <= hi
    ensures Scaled(x, lo, hi) == 0.0 <==> x == lo
  {
  }

  /**
   `normalize_lc` yields 0 on every row exactly when the magnitude column is
   constant: then every quotient is 0/0, which `fillna(0)` turns into 0.
   */
  lemma NormalizeZeroIffConstant(df: Data, magCol: string)
    requires Reducible(df, magCol) && df.Frame? && magCol in df.table.columns
    ensures NormalizeLc(df, magCol).Ok?
    ensures
      var s, out := df.table.columns[magCol], NormalizeLc(df, magCol).value;
      (forall i :: 0 <= i < |out| ==> out[i] == Finite(0.0))
      <==> (forall i, j :: 0 <= i < |s| && 0 <= j < |s| ==> s[i] == s[j])
  {
    var s := df.table.columns[magCol];
    var out := NormalizeLc(df, magCol).value;
    assert |out| == |s|;
    if forall i, j :: 0 <= i < |s| && 0 <= j < |s| ==> s[i] == s[j] {
      var k :| 0 <= k < |s| && s[k] == Max(s);
      var m :| 0 <= m < |s| && s[m] == Min(s);
      assert Max(s) == Min(s);
      forall i | 0 <= i < |out|
        ensures out[i] == Finite(0.0)
      {
        assert out[i] == Finite(Rescale(s)[i]);
      }
    }
    if forall i :: 0 <= i < |out| ==> out[i] == Finite(0.0) {
      var k :| 0 <= k < |s| && s[k] == Max(s);
      assert out[k] == Finite(Rescale(s)[k]);
      ScaledZero(s[k], Min(s), Max(s));
      assert Max(s) == Min(s);
    }
  }
}
