/**
 A one-dimensional numeric column, the value a table yields when it is indexed
 by a column name, and the reductions and elementwise operations the
 lightcurve statistics apply to it.

 Magnitudes are modelled as exact `real` numbers. The only place where the
 floating-point special values matter is an elementwise division, whose
 result can be NaN or an infinity; `Float` keeps those apart so that the
 effect of filling NaN with zero is visible.
 */
module Series {

  /** One cell of a series produced by division: a number, NaN, or a signed infinity. */
  datatype Float = Finite(v: real) | NaN | PosInf | NegInf

  /** Largest entry of a non-empty series. */
  function Max(s: seq<real>): (m: real)
    requires |s| > 0
    ensures m in s
    ensures forall i :: 0 <= i < |s| ==> s[i] <= m
  {
    if |s| == 1 then s[0]
    else
      var rest := Max(s[1..]);
      if s[0] < rest then rest else s[0]
  }

  /** Smallest entry of a non-empty series. */
  function Min(s: seq<real>): (m: real)
    requires |s| > 0
    ensures m in s
    ensures forall i :: 0 <= i < |s| ==> m <= s[i]
  {
    if |s| == 1 then s[0]
    else
      var rest := Min(s[1..]);
      if rest < s[0] then rest else s[0]
  }

  function Sum(s: seq<real>): real
  {
    if s == [] then 0.0 else s[0] + Sum(s[1..])
  }

  /** Arithmetic mean: the sum divided by the number of entries. */
  function Mean(s: seq<real>): (r: real)
    requires |s| > 0
    ensures r * (|s| as real) == Sum(s)
  {
    Sum(s) / (|s| as real)
  }

  /** `s - c`: the scalar subtracted from every entry. */
  function Minus(s: seq<real>, c: real): (r: seq<real>)
    ensures |r| == |s|
    ensures forall i :: 0 <= i < |s| ==> r[i] + c == s[i]
  {
    seq(|s|, i requires 0 <= i < |s| => s[i] - c)
  }

  /** Division of two numbers under the floating-point rules: 0/0 is NaN, x/0 an infinity. */
  function Divide(a: real, b: real): (r: Float)
    ensures r.Finite? <==> b != 0.0
    ensures r.Finite? ==> r.v * b == a
    ensures r.NaN? <==> a == 0.0 && b == 0.0
    ensures r.PosInf? <==> a > 0.0 && b == 0.0
    ensures r.NegInf? <==> a < 0.0 && b == 0.0
  {
    if b != 0.0 then Finite(a / b)
    else if a == 0.0 then NaN
    else if a > 0.0 then PosInf
    else NegInf
  }

  /** `s / c`: every entry divided by the scalar. */
  function DivideBy(s: seq<real>, c: real): (r: seq<Float>)
    ensures |r| == |s|
    ensures c != 0.0 ==> forall i :: 0 <= i < |s| ==> r[i].Finite? && r[i].v * c == s[i]
    ensures c == 0.0 ==> forall i :: 0 <= i < |s| ==> (r[i].NaN? <==> s[i] == 0.0)
    ensures c == 0.0 ==> forall i :: 0 <= i < |s| ==> !r[i].Finite?
  {
    seq(|s|, i requires 0 <= i < |s| => Divide(s[i], c))
  }

  /** One cell after `fillna(fill)`: NaN becomes `fill`, anything else is kept. */
  function FillCell(c: Float, fill: real): (r: Float)
    ensures !r.NaN?
    ensures c.NaN? ==> r == Finite(fill)
    ensures !c.NaN? ==> r == c
  {
    if c.NaN? then Finite(fill) else c
  }

  /** `s.fillna(fill)`: every NaN replaced by `fill`, every other cell kept. */
  function FillNa(s: seq<Float>, fill: real): (r: seq<Float>)
    ensures |r| == |s|
    ensures forall i :: 0 <= i < |s| ==> !r[i].NaN?
    ensures forall i :: 0 <= i < |s| && s[i].NaN? ==> r[i] == Finite(fill)
    ensures forall i :: 0 <= i < |s| && !s[i].NaN? ==> r[i] == s[i]
  {
    seq(|s|, i requires 0 <= i < |s| => FillCell(s[i], fill))
  }

  /** Sum distributes over concatenation. */
  lemma {:induction false} SumConcat(a: seq<real>, b: seq<real>)
    ensures Sum(a + b) == Sum(a) + Sum(b)
  {
    if a == [] {
      assert a + b == b;
    } else {
      assert (a + b)[1..] == a[1..] + b;
      SumConcat(a[1..], b);
    }
  }

  /** The sum does not depend on the order of the entries. */
  lemma {:induction false} SumPermutation(a: seq<real>, b: seq<real>)
    requires multiset(a) == multiset(b)
    ensures Sum(a) == Sum(b)
  {
    if a == [] {
      assert |b| == |multiset(b)| == 0;
    } else {
      assert a == [a[0]] + a[1..];
      assert a[0] in multiset(b);
      var k :| 0 <= k < |b| && b[k] == a[0];
      var rest := b[..k] + b[k + 1..];
      assert b == b[..k] + ([b[k]] + b[k + 1..]);
      assert multiset(b) == multiset(b[..k]) + multiset{b[k]} + multiset(b[k + 1..]);
      assert multiset(a) == multiset{a[0]} + multiset(a[1..]);
      assert multiset(rest) == multiset(b[..k]) + multiset(b[k + 1..]);
      assert multiset(rest) == multiset(b) - multiset{b[k]};
      assert multiset(a[1..]) == multiset(a) - multiset{a[0]};
      SumPermutation(a[1..], rest);
      SumConcat(b[..k], [b[k]] + b[k + 1..]);
      assert ([b[k]] + b[k + 1..])[1..] == b[k + 1..];
      SumConcat(b[..k], b[k + 1..]);
      assert Sum(b) == Sum(b[..k]) + b[k] + Sum(b[k + 1..]);
    }
  }

  /** A sum of entries none above `m` is at most `m` times their number. */
  lemma {:induction false} SumAtMost(s: seq<real>, m: real)
    requires forall i :: 0 <= i < |s| ==> s[i] <= m
    ensures Sum(s) <= (|s| as real) * m
  {
    if s != [] {
      SumAtMost(s[1..], m);
      assert (|s| as real) * m == m + ((|s| - 1) as real) * m;
    }
  }

  /** A sum of entries none below `m` is at least `m` times their number. */
  lemma {:induction false} SumAtLeast(s: seq<real>, m: real)
    requires forall i :: 0 <= i < |s| ==> m <= s[i]
    ensures (|s| as real) * m <= Sum(s)
  {
    if s != [] {
      SumAtLeast(s[1..], m);
      assert (|s| as real) * m == m + ((|s| - 1) as real) * m;
    }
  }

  /** The mean of entries that all lie in [lo, hi] lies in [lo, hi] too. */
  lemma MeanBetween(s: seq<real>, lo: real, hi: real)
    requires |s| > 0
    requires forall i :: 0 <= i < |s| ==> lo <= s[i] <= hi
    ensures lo <= Mean(s) <= hi
  {
    SumAtMost(s, hi);
    SumAtLeast(s, lo);
    QuotientBounds(Sum(s), |s| as real, lo, hi);
  }

  lemma QuotientBounds(x: real, n: real, lo: real, hi: real)
    requires n > 0.0 && n * lo <= x <= n * hi
    ensures lo <= x / n <= hi
  {
  }

  /** The mean lies between the smallest and the largest entry. */
  lemma MeanWithinBounds(s: seq<real>)
    requires |s| > 0
    ensures Min(s) <= Mean(s) <= Max(s)
  {
    MeanBetween(s, Min(s), Max(s));
  }

  /** Max and Min depend only on the multiset of entries. */
  lemma ExtremesPermutation(a: seq<real>, b: seq<real>)
    requires |a| > 0 && multiset(a) == multiset(b)
    ensures |b| > 0
    ensures Max(a) == Max(b) && Min(a) == Min(b)
  {
    assert |b| == |multiset(b)| == |a|;
    assert Max(a) in multiset(b) && Max(b) in multiset(a);
    assert Min(a) in multiset(b) && Min(b) in multiset(a);
  }

  /** Subtracting a scalar from every entry lowers the maximum by that scalar. */
  lemma MaxMinus(s: seq<real>, c: real)
    requires |s| > 0
    ensures Max(Minus(s, c)) == Max(s) - c
  {
    var t := Minus(s, c);
    var k :| 0 <= k < |s| && s[k] == Max(s);
    assert t[k] == Max(s) - c;
    var j :| 0 <= j < |t| && t[j] == Max(t);
    assert s[j] <= Max(s);
  }
}
