/**
 The statistics layer of a lightcurve analyser: the minimum, maximum and
 mean of one magnitude column, those three gathered per photometric band,
 and the min-max normalisation of one band's lightcurve.

 Each operation takes either a table or some other value (`Data`); indexing
 anything but a table raises a TypeError, and a missing column or band a
 KeyError. Both are returned as `Err` instead of being raised.
 */
module Models {
  import opened Series
  import opened Frames

  /** `max_mag`: the largest value of the named column. */
  function MaxMag(data: Data, magCol: string): (r: Result<real>)
    requires Reducible(data, magCol)
    ensures data.Str? ==> r == Err(TypeError)
    ensures data.Frame? && magCol !in data.table.columns ==> r == Err(KeyError(magCol))
    ensures data.Frame? && magCol in data.table.columns ==>
      && r.Ok?
      && r.value in data.table.columns[magCol]
      && forall x :: x in data.table.columns[magCol] ==> x <= r.value
  {
    var s :- Column(data, magCol);
    Ok(Max(s))
  }

  /** `min_mag`: the smallest value of the named column. */
  function MinMag(data: Data, magCol: string): (r: Result<real>)
    requires Reducible(data, magCol)
    ensures data.Str? ==> r == Err(TypeError)
    ensures data.Frame? && magCol !in data.table.columns ==> r == Err(KeyError(magCol))
    ensures data.Frame? && magCol in data.table.columns ==>
      && r.Ok?
      && r.value in data.table.columns[magCol]
      && forall x :: x in data.table.columns[magCol] ==> r.value <= x
  {
    var s :- Column(data, magCol);
    Ok(Min(s))
  }

  /** `mean_mag`: the sum of the named column divided by the number of rows. */
  function MeanMag(data: Data, magCol: string): (r: Result<real>)
    requires Reducible(data, magCol)
    ensures data.Str? ==> r == Err(TypeError)
    ensures data.Frame? && magCol !in data.table.columns ==> r == Err(KeyError(magCol))
    ensures data.Frame? && magCol in data.table.columns ==>
      && r.Ok?
      && Min(data.table.columns[magCol]) <= r.value <= Max(data.table.columns[magCol])
      && AverageOf(r.value, data.table.columns[magCol], data.table.rows)
  {
    match Column(data, magCol)
    case Err(e) => Err(e)
    case Ok(s) =>
      MeanWithinBounds(s);
      MeanOfRows(s, data.table.rows);
      Ok(Mean(s))
  }

  /** `m` is the average of the `n` entries of `s`: `m` times `n` is their sum. */
  predicate AverageOf(m: real, s: seq<real>, n: nat)
  {
    m * (n as real) == Sum(s)
  }

  lemma MeanOfRows(s: seq<real>, n: nat)
    requires |s| == n > 0
    ensures AverageOf(Mean(s), s, n)
  {
  }

  /** `mean_mag` is the sum of the column divided by the number of rows. */
  lemma MeanMagIsAverage(data: Data, magCol: string)
    requires Reducible(data, magCol) && data.Frame? && magCol in data.table.columns
    ensures MeanMag(data, magCol).value * (data.table.rows as real) == Sum(data.table.columns[magCol])
  {
    var s := data.table.columns[magCol];
    assert MeanMag(data, magCol) == Ok(Mean(s));
  }

  /** The summary `calc_stats` keeps for one band. */
  datatype Stats = Stats(max: real, mean: real, min: real)

  /**
   What `calc_stats` computes for band `b` on its own: a KeyError when the
   band is absent, otherwise the three reductions of that band's table. All
   three index the table by the same column, so only the first can fail.
   */
  function BandStats(lc: map<string, Data>, b: string, magCol: string): (r: Result<Stats>)
    requires b in lc ==> Reducible(lc[b], magCol)
    ensures b !in lc ==> r == Err(KeyError(b))
    ensures b in lc && lc[b].Str? ==> r == Err(TypeError)
    ensures b in lc && lc[b].Frame? && magCol !in lc[b].table.columns ==> r == Err(KeyError(magCol))
    ensures r.Ok? <==> b in lc && lc[b].Frame? && magCol in lc[b].table.columns
    ensures r.Ok? ==>
      r.value == Stats(MaxMag(lc[b], magCol).value, MeanMag(lc[b], magCol).value, MinMag(lc[b], magCol).value)
  {
    if b !in lc then Err(KeyError(b))
    else
      match MaxMag(lc[b], magCol)
      case Err(e) => Err(e)
      case Ok(max) => Ok(Stats(max, MeanMag(lc[b], magCol).value, MinMag(lc[b], magCol).value))
  }

  /**
   `calc_stats`: for every band in `bands`, in order, look up its table and
   record the maximum, mean and minimum of the magnitude column under the
   band's name. The first band that fails stops the loop with its error.
   */
  method CalcStats(lc: map<string, Data>, bands: seq<string>, magCol: string)
    returns (r: Result<map<string, Stats>>)
    requires forall b :: b in bands && b in lc ==> Reducible(lc[b], magCol)
    ensures r.Ok? <==> forall i :: 0 <= i < |bands| ==> BandStats(lc, bands[i], magCol).Ok?
    ensures r.Ok? ==> r.value.Keys == set b | b in bands
    ensures r.Ok? ==> forall b :: b in r.value ==> b in bands && BandStats(lc, b, magCol) == Ok(r.value[b])
    ensures r.Err? ==>
      exists i :: && 0 <= i < |bands|
                  && BandStats(lc, bands[i], magCol) == Err(r.error)
                  && forall j :: 0 <= j < i ==> BandStats(lc, bands[j], magCol).Ok?
  {
    var stats: map<string, Stats> := map[];
    for i := 0 to |bands|
      invariant forall j :: 0 <= j < i ==> BandStats(lc, bands[j], magCol).Ok?
      invariant stats.Keys == set j | 0 <= j < i :: bands[j]
      invariant forall b :: b in stats ==> b in bands && BandStats(lc, b, magCol) == Ok(stats[b])
    {
      var b := bands[i];
      if b !in lc {
        return Err(KeyError(b));
      }
      var max :- MaxMag(lc[b], magCol);
      var mean := MeanMag(lc[b], magCol).value;
      var min := MinMag(lc[b], magCol).value;
      stats := stats[b := Stats(max, mean, min)];
    }
    assert (set j | 0 <= j < |bands| :: bands[j]) == set b | b in bands;
    return Ok(stats);
  }

  /**
   Min-max scaling written the usual way: (x - min) / (max - min) for every
   entry, and zero everywhere when the column is constant.
   */
  function Rescale(s: seq<real>): (r: seq<real>)
    requires |s| > 0
    ensures |r| == |s|
  {
    seq(|s|, i requires 0 <= i < |s| => Scaled(s[i], Min(s), Max(s)))
  }

  function Scaled(x: real, lo: real, hi: real): real
  {
    if hi == lo then 0.0 else (x - lo) / (hi - lo)
  }

  /** Every rescaled entry lies in [0, 1]. */
  lemma RescaleInUnitRange(s: seq<real>)
    requires |s| > 0
    ensures forall i :: 0 <= i < |s| ==> 0.0 <= Rescale(s)[i] <= 1.0
  {
    var lo, hi := Min(s), Max(s);
    forall i | 0 <= i < |s|
      ensures 0.0 <= Rescale(s)[i] <= 1.0
    {
      if hi != lo {
        QuotientBounds(s[i] - lo, hi - lo, 0.0, 1.0);
      }
    }
  }

  /** Every entry of a real series, as a finite cell. */
  function Finites(s: seq<real>): (r: seq<Float>)
    ensures |r| == |s|
  {
    seq(|s|, i requires 0 <= i < |s| => Finite(s[i]))
  }

  /**
   The series part of `normalize_lc`: subtract `lo` (the column's minimum),
   divide by `hi` (the maximum of the shifted column) and fill NaN with 0.
   It agrees with the usual min-max scaling entry for entry, so no NaN or
   infinity survives.
   */
  lemma ShiftedQuotients(s: seq<real>)
    requires |s| > 0
    ensures FillNa(DivideBy(Minus(s, Min(s)), Max(Minus(s, Min(s)))), 0.0) == Finites(Rescale(s))
  {
    var lo, top := Min(s), Max(s);
    var hi := Max(Minus(s, lo));
    MaxMinus(s, lo);
    forall i | 0 <= i < |s|
      ensures FillNa(DivideBy(Minus(s, lo), hi), 0.0)[i] == Finites(Rescale(s))[i]
    {
      ShiftedQuotientAt(s, i, lo, top, hi);
    }
  }

  /** Entry `i` of a column with minimum `lo` and maximum `top`, shifted by `lo` and divided by `hi`. */
  lemma ShiftedQuotientAt(s: seq<real>, i: nat, lo: real, top: real, hi: real)
    requires i < |s| && lo <= s[i] <= top && hi == top - lo
    ensures FillNa(DivideBy(Minus(s, lo), hi), 0.0)[i] == Finite(Scaled(s[i], lo, top))
  {
  }

  /**
   `normalize_lc`: take the minimum of the column, subtract it from the whole
   table, take the maximum of the column of that shifted table, divide the
   shifted column by it, and replace the NaN of 0/0 by 0.
   */
  function NormalizeLc(df: Data, magCol: string): (r: Result<seq<Float>>)
    requires Reducible(df, magCol)
    ensures df.Str? ==> r == Err(TypeError)
    ensures df.Frame? && magCol !in df.table.columns ==> r == Err(KeyError(magCol))
    ensures df.Frame? && magCol in df.table.columns ==>
      && r == Ok(Finites(Rescale(df.table.columns[magCol])))
      && |r.value| == df.table.rows
      && forall i :: 0 <= i < |r.value| ==> r.value[i].Finite? && 0.0 <= r.value[i].v <= 1.0
  {
    match MinMag(df, magCol)
    case Err(e) => Err(e)
    case Ok(min) =>
      var shifted := Subtract(df, min).value;
      var max := MaxMag(shifted, magCol).value;
      var s := df.table.columns[magCol];
      ShiftedQuotients(s);
      RescaleInUnitRange(s);
      Ok(FillNa(DivideBy(Minus(s, min), max), 0.0))
  }
}
