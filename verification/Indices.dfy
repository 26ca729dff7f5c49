/** Vegetation-index arithmetic over certificates: means, trend, health index.
    Go's float64 is modelled by real. */
module Indices {
  import opened Borsh

  datatype Certificate = Certificate(ndvi: real, ndwi: Option<real>, evi: Option<real>, lai: Option<real>)

  datatype Trend = Improving | Declining | Stable

  function Sum(xs: seq<real>): real {
    if xs == [] then 0.0 else Sum(xs[..|xs| - 1]) + xs[|xs| - 1]
  }

  function Mean(xs: seq<real>): real {
    if xs == [] then 0.0 else Sum(xs) / |xs| as real
  }

  method Avg(vals: seq<real>) returns (m: real)
    ensures m == Mean(vals)
  {
    if |vals| == 0 { return 0.0; }
    var sum := 0.0;
    for i := 0 to |vals|
      invariant sum == Sum(vals[..i])
    {
      assert vals[..i + 1][..i] == vals[..i];
      sum := sum + vals[i];
    }
    assert vals[..|vals|] == vals;
    m := sum / |vals| as real;
  }

  // ------------------------------------------------------------------ trend

  const THRESHOLD := 0.03

  function Third(n: nat): nat {
    if n / 3 == 0 then 1 else n / 3
  }

  function ComputeIndexTrend(values: seq<real>): Trend {
    if |values| < 2 then Stable
    else
      var third := Third(|values|);
      var diff := Mean(values[|values| - third..]) - Mean(values[..third]);
      if diff > THRESHOLD then Improving
      else if diff < -THRESHOLD then Declining
      else Stable
  }

  function Reverse(xs: seq<real>): (r: seq<real>)
    ensures |r| == |xs| && forall i :: 0 <= i < |xs| ==> r[i] == xs[|xs| - 1 - i]
  {
    seq(|xs|, i requires 0 <= i < |xs| => xs[|xs| - 1 - i])
  }

  function Shift(xs: seq<real>, c: real): (r: seq<real>)
    ensures |r| == |xs| && forall i :: 0 <= i < |xs| ==> r[i] == xs[i] + c
  {
    seq(|xs|, i requires 0 <= i < |xs| => xs[i] + c)
  }

  function Opposite(t: Trend): Trend {
    match t case Improving => Declining case Declining => Improving case Stable => Stable
  }

  lemma {:induction false} SumAppend(xs: seq<real>, ys: seq<real>)
    ensures Sum(xs + ys) == Sum(xs) + Sum(ys)
  {
    if ys == [] {
      assert xs + ys == xs;
    } else {
      SumAppend(xs, ys[..|ys| - 1]);
      assert (xs + ys)[..|xs + ys| - 1] == xs + ys[..|ys| - 1];
    }
  }

  lemma {:induction false} SumReverse(xs: seq<real>)
    ensures Sum(Reverse(xs)) == Sum(xs)
  {
    if xs != [] {
      var init, last := xs[..|xs| - 1], [xs[|xs| - 1]];
      SumReverse(init);
      assert Reverse(xs) == last + Reverse(init);
      SumAppend(last, Reverse(init));
      assert last[..0] == [];
    }
  }

  lemma {:induction false} SumShift(xs: seq<real>, c: real)
    ensures Sum(Shift(xs, c)) == Sum(xs) + c * |xs| as real
  {
    if xs != [] {
      SumShift(xs[..|xs| - 1], c);
      assert Shift(xs, c)[..|xs| - 1] == Shift(xs[..|xs| - 1], c);
    }
  }

  lemma MeanShift(xs: seq<real>, c: real)
    requires xs != []
    ensures Mean(Shift(xs, c)) == Mean(xs) + c
  {
    SumShift(xs, c);
    var n := |xs| as real;
    assert (Sum(xs) + c * n) / n == Sum(xs) / n + c;
  }

  /** Reading the series backwards turns an improvement into a decline and back,
      and leaves a stable series stable. */
  lemma ReversedTrend(values: seq<real>)
    ensures ComputeIndexTrend(Reverse(values)) == Opposite(ComputeIndexTrend(values))
  {
    if |values| >= 2 {
      var third, r := Third(|values|), Reverse(values);
      assert r[..third] == Reverse(values[|values| - third..]);
      assert r[|values| - third..] == Reverse(values[..third]);
      SumReverse(values[|values| - third..]);
      SumReverse(values[..third]);
    }
  }

  /** Adding a constant to every value never changes the trend. */
  lemma ShiftedTrend(values: seq<real>, c: real)
    ensures ComputeIndexTrend(Shift(values, c)) == ComputeIndexTrend(values)
  {
    if |values| >= 2 {
      var third, s := Third(|values|), Shift(values, c);
      assert s[..third] == Shift(values[..third], c);
      assert s[|values| - third..] == Shift(values[|values| - third..], c);
      MeanShift(values[..third], c);
      MeanShift(values[|values| - third..], c);
    }
  }

  /** A series whose last third is its first third, every value c higher, improves
      exactly when c is above 0.03 and declines exactly when it is below -0.03. */
  lemma ShiftedEndsTrend(values: seq<real>, third: nat, c: real)
    requires |values| >= 2 && third == (if |values| < 3 then 1 else |values| / 3)
    requires values[|values| - third..] == Shift(values[..third], c)
    ensures ComputeIndexTrend(values) == Improving <==> c > 0.03
    ensures ComputeIndexTrend(values) == Declining <==> c < -0.03
  {
    MeanShift(values[..third], c);
  }

  /** The i-th value of a straight line. */
  function Line(start: real, slope: real, i: int): real {
    start + slope * i as real
  }

  lemma LineShift(start: real, slope: real, i: int, k: int)
    ensures Line(start, slope, k + i) == Line(start, slope, i) + slope * k as real
  {
  }

  ghost predicate OnLine(values: seq<real>, start: real, slope: real) {
    forall i :: PointOnLine(values, start, slope, i)
  }

  predicate PointOnLine(values: seq<real>, start: real, slope: real, i: int) {
    0 <= i < |values| ==> values[i] == Line(start, slope, i)
  }

  /** A straight line rises or falls by its slope over all values but a third. */
  lemma LinearTrend(values: seq<real>, start: real, slope: real, third: nat, rise: real)
    requires |values| >= 2 && third == (if |values| < 3 then 1 else |values| / 3)
    requires OnLine(values, start, slope) && rise == slope * (|values| - third) as real
    ensures ComputeIndexTrend(values) == Improving <==> rise > 0.03
    ensures ComputeIndexTrend(values) == Declining <==> rise < -0.03
  {
    LineEnds(values, start, slope, third, rise);
    ShiftedEndsTrend(values, third, rise);
  }

  lemma LineEnds(values: seq<real>, start: real, slope: real, third: nat, rise: real)
    requires third <= |values| && OnLine(values, start, slope) && rise == slope * (|values| - third) as real
    ensures values[|values| - third..] == Shift(values[..third], rise)
  {
    forall i | 0 <= i < third
      ensures values[|values| - third + i] == values[i] + rise
    {
      LineRises(values, start, slope, i, |values| - third);
    }
  }

  lemma LineRises(values: seq<real>, start: real, slope: real, i: nat, k: nat)
    requires k + i < |values| && OnLine(values, start, slope)
    ensures values[k + i] == values[i] + slope * k as real
  {
    assert PointOnLine(values, start, slope, i) && PointOnLine(values, start, slope, k + i);
    LineShift(start, slope, i, k);
  }

  // ----------------------------------------------------------- certificates

  function Ndvi(c: Certificate): Option<real> { Some(c.ndvi) }
  function Ndwi(c: Certificate): Option<real> { c.ndwi }
  function Evi(c: Certificate): Option<real> { c.evi }
  function Lai(c: Certificate): Option<real> { c.lai }

  type Reading = Certificate -> Option<real>

  /** How many certificates have the reading, and what the readings add up to. */
  function Count(certs: seq<Certificate>, f: Reading): nat {
    if certs == [] then 0
    else Count(certs[..|certs| - 1], f) + (if f(certs[|certs| - 1]).Some? then 1 else 0)
  }

  function Total(certs: seq<Certificate>, f: Reading): real {
    if certs == [] then 0.0
    else
      var last := f(certs[|certs| - 1]);
      Total(certs[..|certs| - 1], f) + (if last.Some? then last.value else 0.0)
  }

  lemma TallyStep(certs: seq<Certificate>, i: nat, f: Reading)
    requires i < |certs|
    ensures Count(certs[..i + 1], f) == Count(certs[..i], f) + (if f(certs[i]).Some? then 1 else 0)
    ensures Total(certs[..i + 1], f)
            == Total(certs[..i], f) + (if f(certs[i]).Some? then f(certs[i]).value else 0.0)
  {
    assert certs[..i + 1][..i] == certs[..i];
  }

  function Average(certs: seq<Certificate>, f: Reading): Option<real> {
    if Count(certs, f) == 0 then None else Some(Total(certs, f) / Count(certs, f) as real)
  }

  function NdviValues(certs: seq<Certificate>): seq<real> {
    if certs == [] then [] else NdviValues(certs[..|certs| - 1]) + [certs[|certs| - 1].ndvi]
  }

  predicate ComputeWaterStressRisk(avgNdwi: real) {
    avgNdwi < -0.3
  }

  /** The scoring input's fields derived from certificates. */
  datatype Enriched = Enriched(trend: Option<Trend>, avgNdwi: Option<real>, avgEvi: Option<real>, waterStress: bool)

  method EnrichScoringFromCerts(certs: seq<Certificate>) returns (e: Enriched)
    ensures e.trend == if certs == [] then None else Some(ComputeIndexTrend(NdviValues(certs)))
    ensures e.avgNdwi == Average(certs, Ndwi) && e.avgEvi == Average(certs, Evi)
    ensures e.waterStress <==> e.avgNdwi.Some? && e.avgNdwi.value < -0.3
  {
    e := Enriched(None, None, None, false);
    if |certs| == 0 { return; }
    var ndviVals: seq<real> := [];
    var ndwiSum, eviSum := 0.0, 0.0;
    var ndwiCount, eviCount := 0, 0;
    for i := 0 to |certs|
      invariant ndviVals == NdviValues(certs[..i])
      invariant ndwiSum == Total(certs[..i], Ndwi) && ndwiCount == Count(certs[..i], Ndwi)
      invariant eviSum == Total(certs[..i], Evi) && eviCount == Count(certs[..i], Evi)
    {
      assert certs[..i + 1][..i] == certs[..i];
      TallyStep(certs, i, Ndwi);
      TallyStep(certs, i, Evi);
      var c := certs[i];
      ndviVals := ndviVals + [c.ndvi];
      if c.ndwi.Some? {
        ndwiSum := ndwiSum + c.ndwi.value;
        ndwiCount := ndwiCount + 1;
      }
      if c.evi.Some? {
        eviSum := eviSum + c.evi.value;
        eviCount := eviCount + 1;
      }
    }
    assert certs[..|certs|] == certs;
    e := e.(trend := Some(ComputeIndexTrend(ndviVals)));
    if ndwiCount > 0 {
      var avgNdwi := ndwiSum / ndwiCount as real;
      e := e.(avgNdwi := Some(avgNdwi), waterStress := ComputeWaterStressRisk(avgNdwi));
    }
    if eviCount > 0 {
      e := e.(avgEvi := Some(eviSum / eviCount as real));
    }
  }

  // ------------------------------------------------- agricultural health index

  datatype HealthIndex = HealthIndex(composite: real, ndvi: real, ndwiNorm: real, eviNorm: real, laiNorm: real,
                                     waterStress: bool)

  function NormalizeNdwi(sum: real, count: nat): real {
    if count == 0 then 0.5 else (sum / count as real + 1.0) / 2.0
  }

  function NormalizeCapped(sum: real, count: nat, cap: real): real
    requires cap > 0.0
  {
    if count == 0 then 0.5
    else
      var norm := sum / count as real / cap;
      if norm > 1.0 then 1.0 else norm
  }

  function NormalizeEvi(sum: real, count: nat): real {
    NormalizeCapped(sum, count, 0.8)
  }

  function NormalizeLai(sum: real, count: nat): real {
    NormalizeCapped(sum, count, 8.0)
  }

  function Composite(ndvi: real, evi: real, ndwi: real, lai: real): real {
    0.40 * ndvi + 0.25 * evi + 0.20 * ndwi + 0.15 * lai
  }

  /** The index of a non-empty list, as a function of its tallies. */
  function Health(certs: seq<Certificate>): HealthIndex
    requires certs != []
  {
    var avgNdvi := Total(certs, Ndvi) / |certs| as real;
    var ndwiNorm := NormalizeNdwi(Total(certs, Ndwi), Count(certs, Ndwi));
    var eviNorm := NormalizeEvi(Total(certs, Evi), Count(certs, Evi));
    var laiNorm := NormalizeLai(Total(certs, Lai), Count(certs, Lai));
    var avgNdwi := Average(certs, Ndwi);
    HealthIndex(Composite(avgNdvi, eviNorm, ndwiNorm, laiNorm), avgNdvi, ndwiNorm, eviNorm, laiNorm,
                avgNdwi.Some? && ComputeWaterStressRisk(avgNdwi.value))
  }

  method ComputeAHI(certs: seq<Certificate>) returns (h: Option<HealthIndex>)
    ensures h == if certs == [] then None else Some(Health(certs))
  {
    if |certs| == 0 { return None; }
    var ndviSum, ndwiSum, eviSum, laiSum := 0.0, 0.0, 0.0, 0.0;
    var ndwiCount, eviCount, laiCount := 0, 0, 0;
    for i := 0 to |certs|
      invariant ndviSum == Total(certs[..i], Ndvi)
      invariant ndwiSum == Total(certs[..i], Ndwi) && ndwiCount == Count(certs[..i], Ndwi)
      invariant eviSum == Total(certs[..i], Evi) && eviCount == Count(certs[..i], Evi)
      invariant laiSum == Total(certs[..i], Lai) && laiCount == Count(certs[..i], Lai)
    {
      TallyStep(certs, i, Ndvi);
      TallyStep(certs, i, Ndwi);
      TallyStep(certs, i, Evi);
      TallyStep(certs, i, Lai);
      var c := certs[i];
      ndviSum := ndviSum + c.ndvi;
      if c.ndwi.Some? {
        ndwiSum := ndwiSum + c.ndwi.value;
        ndwiCount := ndwiCount + 1;
      }
      if c.evi.Some? {
        eviSum := eviSum + c.evi.value;
        eviCount := eviCount + 1;
      }
      if c.lai.Some? {
        laiSum := laiSum + c.lai.value;
        laiCount := laiCount + 1;
      }
    }
    assert certs[..|certs|] == certs;
    var avgNdvi := ndviSum / |certs| as real;
    var ndwiNorm := NormalizeNdwi(ndwiSum, ndwiCount);
    var eviNorm := NormalizeEvi(eviSum, eviCount);
    var laiNorm := NormalizeLai(laiSum, laiCount);
    var composite := 0.40 * avgNdvi + 0.25 * eviNorm + 0.20 * ndwiNorm + 0.15 * laiNorm;
    return Some(HealthIndex(composite, avgNdvi, ndwiNorm, eviNorm, laiNorm,
                            ndwiCount > 0 && ComputeWaterStressRisk(ndwiSum / ndwiCount as real)));
  }

  /** Each normalizer is the linear map of its index's range onto [0, 1]: a list of
      n readings whose mean lies the fraction x along the range gives x; above the
      range the vegetation and leaf indexes stay at 1; a missing index gives one
      half. */
  lemma NormalizersInterpolate(n: nat, x: real, sum: real)
    requires n > 0
    ensures NormalizeNdwi((2.0 * x - 1.0) * n as real, n) == x
    ensures NormalizeEvi(0.8 * x * n as real, n) == if x <= 1.0 then x else 1.0
    ensures NormalizeLai(8.0 * x * n as real, n) == if x <= 1.0 then x else 1.0
    ensures NormalizeNdwi(sum, 0) == NormalizeEvi(sum, 0) == NormalizeLai(sum, 0) == 0.5
  {
    MeanOf(2.0 * x - 1.0, n);
    MeanOf(0.8 * x, n);
    MeanOf(8.0 * x, n);
  }

  lemma MeanOf(mean: real, n: nat)
    requires n > 0
    ensures mean * n as real / n as real == mean
  {
  }

  // Uniform lists.

  function Capped(x: real): real {
    if x > 1.0 then 1.0 else x
  }

  /** What one certificate is worth: of its vegetation index 40 percent, of the
      others, each mapped to [0, 1], 25, 20 and 15; one half where one is missing. */
  function Worth(c: Certificate): real {
    0.40 * c.ndvi
    + 0.25 * (if c.evi.Some? then Capped(c.evi.value / 0.8) else 0.5)
    + 0.20 * (if c.ndwi.Some? then (c.ndwi.value + 1.0) / 2.0 else 0.5)
    + 0.15 * (if c.lai.Some? then Capped(c.lai.value / 8.0) else 0.5)
  }

  lemma {:induction false} UniformTally(certs: seq<Certificate>, c: Certificate, f: Reading)
    requires forall i :: 0 <= i < |certs| ==> certs[i] == c
    ensures Count(certs, f) == if f(c).Some? then |certs| else 0
    ensures Total(certs, f) == if f(c).Some? then f(c).value * |certs| as real else 0.0
  {
    if certs != [] {
      UniformTally(certs[..|certs| - 1], c, f);
    }
  }

  /** The health index of any number of copies of one certificate is that
      certificate's worth, under water stress exactly when its reading is below
      -0.3. */
  lemma UniformHealth(certs: seq<Certificate>, c: Certificate)
    requires certs != [] && forall i :: 0 <= i < |certs| ==> certs[i] == c
    ensures Health(certs).composite == Worth(c)
    ensures Health(certs).waterStress <==> c.ndwi.Some? && c.ndwi.value < -0.3
  {
    UniformMean(certs, c, Ndvi);
    UniformMean(certs, c, Ndwi);
    UniformCapped(certs, c, Evi, 0.8);
    UniformCapped(certs, c, Lai, 8.0);
    EveryNdvi(certs);
  }

  lemma UniformMean(certs: seq<Certificate>, c: Certificate, f: Reading)
    requires certs != [] && forall i :: 0 <= i < |certs| ==> certs[i] == c
    ensures Average(certs, f) == f(c)
  {
    UniformTally(certs, c, f);
    if f(c).Some? {
      MeanOf(f(c).value, |certs|);
      assert Total(certs, f) / Count(certs, f) as real == f(c).value;
    }
  }

  lemma UniformCapped(certs: seq<Certificate>, c: Certificate, f: Reading, cap: real)
    requires certs != [] && (forall i :: 0 <= i < |certs| ==> certs[i] == c) && cap > 0.0
    ensures NormalizeCapped(Total(certs, f), Count(certs, f), cap)
            == if f(c).Some? then Capped(f(c).value / cap) else 0.5
  {
    UniformTally(certs, c, f);
    if f(c).Some? {
      MeanOf(f(c).value, |certs|);
    }
  }

  // Permutation.

  lemma {:induction false} TallyAppend(a: seq<Certificate>, b: seq<Certificate>, f: Reading)
    ensures Count(a + b, f) == Count(a, f) + Count(b, f) && Total(a + b, f) == Total(a, f) + Total(b, f)
  {
    if b == [] {
      assert a + b == a;
    } else {
      TallyAppend(a, b[..|b| - 1], f);
      assert (a + b)[..|a + b| - 1] == a + b[..|b| - 1];
    }
  }

  /** The same multiset, with one occurrence taken out on each side. */
  lemma RemoveOne<T>(a: seq<T>, b: seq<T>, i: nat)
    requires a != [] && i < |b| && b[i] == a[|a| - 1] && multiset(a) == multiset(b)
    ensures multiset(a[..|a| - 1]) == multiset(b[..i] + b[i + 1..])
  {
    var init, x, l, r := a[..|a| - 1], b[i], b[..i], b[i + 1..];
    assert a == init + [x];
    assert b == l + [x] + r;
    assert multiset(init) == multiset(a) - multiset{x};
    assert multiset(l + r) == multiset(b) - multiset{x};
  }

  lemma {:induction false} TallyPermuted(a: seq<Certificate>, b: seq<Certificate>, f: Reading)
    requires multiset(a) == multiset(b)
    ensures Count(a, f) == Count(b, f) && Total(a, f) == Total(b, f)
  {
    if a == [] {
      assert |multiset(b)| == 0;
    } else {
      var n := |a| - 1;
      assert a[n] in multiset(b);
      var i :| 0 <= i < |b| && b[i] == a[n];
      RemoveOne(a, b, i);
      TallyPermuted(a[..n], b[..i] + b[i + 1..], f);
      TallyAppend(b[..i], b[i + 1..], f);
      TallyAppend(b[..i + 1], b[i + 1..], f);
      TallyStep(b, i, f);
      assert b == b[..i + 1] + b[i + 1..];
    }
  }

  /** The health index does not depend on the order of the certificates. */
  lemma HealthPermuted(a: seq<Certificate>, b: seq<Certificate>)
    requires a != [] && multiset(a) == multiset(b)
    ensures b != [] && Health(a) == Health(b)
  {
    assert |multiset(a)| == |a| && |multiset(b)| == |b|;
    TallyPermuted(a, b, Ndvi);
    TallyPermuted(a, b, Ndwi);
    TallyPermuted(a, b, Evi);
    TallyPermuted(a, b, Lai);
  }

  // Monotonicity.

  predicate NoWorse(x: Option<real>, y: Option<real>) {
    (x.Some? <==> y.Some?) && (x.Some? ==> x.value <= y.value)
  }

  ghost predicate AllNoWorse(a: seq<Certificate>, b: seq<Certificate>, f: Reading) {
    |a| == |b| && forall i :: 0 <= i < |a| ==> NoWorse(f(a[i]), f(b[i]))
  }

  lemma {:induction false} TallyMonotone(a: seq<Certificate>, b: seq<Certificate>, f: Reading)
    requires AllNoWorse(a, b, f)
    ensures Count(a, f) == Count(b, f) && Total(a, f) <= Total(b, f)
  {
    if a != [] {
      var n := |a| - 1;
      TallyMonotone(a[..n], b[..n], f);
      assert NoWorse(f(a[n]), f(b[n]));
    }
  }

  lemma DivideMonotone(x: real, y: real, n: real)
    requires x <= y && n > 0.0
    ensures x / n <= y / n
  {
    assert y / n - x / n == (y - x) / n;
  }

  lemma CappedMonotone(x: real, y: real, n: nat, cap: real)
    requires x <= y && cap > 0.0
    ensures NormalizeCapped(x, n, cap) <= NormalizeCapped(y, n, cap)
  {
    if n > 0 {
      DivideMonotone(x, y, n as real);
      DivideMonotone(x / n as real, y / n as real, cap);
    }
  }

  lemma NdwiMonotone(x: real, y: real, n: nat)
    requires x <= y
    ensures NormalizeNdwi(x, n) <= NormalizeNdwi(y, n)
  {
    if n > 0 {
      DivideMonotone(x, y, n as real);
    }
  }

  lemma CompositeMonotone(x1: real, x2: real, x3: real, x4: real, y1: real, y2: real, y3: real, y4: real)
    requires x1 <= y1 && x2 <= y2 && x3 <= y3 && x4 <= y4
    ensures Composite(x1, x2, x3, x4) <= Composite(y1, y2, y3, y4)
  {
  }

  /** Raising any readings, with the same ones present, never lowers the index. */
  lemma HealthMonotone(a: seq<Certificate>, b: seq<Certificate>)
    requires a != []
    requires AllNoWorse(a, b, Ndvi) && AllNoWorse(a, b, Ndwi) && AllNoWorse(a, b, Evi) && AllNoWorse(a, b, Lai)
    ensures Health(a).composite <= Health(b).composite
  {
    TallyMonotone(a, b, Ndvi);
    TallyMonotone(a, b, Ndwi);
    TallyMonotone(a, b, Evi);
    TallyMonotone(a, b, Lai);
    DivideMonotone(Total(a, Ndvi), Total(b, Ndvi), |a| as real);
    NdwiMonotone(Total(a, Ndwi), Total(b, Ndwi), Count(a, Ndwi));
    CappedMonotone(Total(a, Evi), Total(b, Evi), Count(a, Evi), 0.8);
    CappedMonotone(Total(a, Lai), Total(b, Lai), Count(a, Lai), 8.0);
    var x, y := Health(a), Health(b);
    CompositeMonotone(x.ndvi, x.eviNorm, x.ndwiNorm, x.laiNorm, y.ndvi, y.eviNorm, y.ndwiNorm, y.laiNorm);
  }

  // Range.

  ghost predicate AllAtLeast(certs: seq<Certificate>, f: Reading, lo: real) {
    forall i :: 0 <= i < |certs| && f(certs[i]).Some? ==> f(certs[i]).value >= lo
  }

  ghost predicate AllAtMost(certs: seq<Certificate>, f: Reading, hi: real) {
    forall i :: 0 <= i < |certs| && f(certs[i]).Some? ==> f(certs[i]).value <= hi
  }

  lemma {:induction false} TotalNonNegative(certs: seq<Certificate>, f: Reading)
    requires AllAtLeast(certs, f, 0.0)
    ensures Total(certs, f) >= 0.0
  {
    if certs != [] {
      TotalNonNegative(certs[..|certs| - 1], f);
    }
  }

  lemma {:induction false} TotalAtLeast(certs: seq<Certificate>, f: Reading)
    requires AllAtLeast(certs, f, -1.0)
    ensures Total(certs, f) >= -(Count(certs, f) as real)
  {
    if certs != [] {
      TotalAtLeast(certs[..|certs| - 1], f);
    }
  }

  lemma {:induction false} TotalAtMost(certs: seq<Certificate>, f: Reading)
    requires AllAtMost(certs, f, 1.0)
    ensures Total(certs, f) <= Count(certs, f) as real
  {
    if certs != [] {
      TotalAtMost(certs[..|certs| - 1], f);
    }
  }

  lemma {:induction false} EveryNdvi(certs: seq<Certificate>)
    ensures Count(certs, Ndvi) == |certs|
  {
    if certs != [] {
      EveryNdvi(certs[..|certs| - 1]);
    }
  }

  lemma QuotientInUnit(sum: real, n: real)
    requires n > 0.0 && 0.0 <= sum <= n
    ensures 0.0 <= sum / n <= 1.0
  {
    DivideMonotone(0.0, sum, n);
    DivideMonotone(sum, n, n);
  }

  lemma NdwiInUnit(sum: real, n: nat)
    requires -(n as real) <= sum <= n as real
    ensures 0.0 <= NormalizeNdwi(sum, n) <= 1.0
  {
    if n > 0 {
      DivideMonotone(-(n as real), sum, n as real);
      DivideMonotone(sum, n as real, n as real);
      assert -(n as real) / n as real == -1.0;
    }
  }

  lemma CappedInUnit(sum: real, n: nat, cap: real)
    requires sum >= 0.0 && cap > 0.0
    ensures 0.0 <= NormalizeCapped(sum, n, cap) <= 1.0
  {
    if n > 0 {
      DivideMonotone(0.0, sum, n as real);
      DivideMonotone(0.0, sum / n as real, cap);
    }
  }

  /** The composite is a number in [0, 1] whatever optional readings are missing. */
  lemma HealthInUnit(certs: seq<Certificate>)
    requires certs != []
    requires AllAtLeast(certs, Ndvi, 0.0) && AllAtMost(certs, Ndvi, 1.0)
    requires AllAtLeast(certs, Ndwi, -1.0) && AllAtMost(certs, Ndwi, 1.0)
    requires AllAtLeast(certs, Evi, 0.0) && AllAtLeast(certs, Lai, 0.0)
    ensures 0.0 <= Health(certs).composite <= 1.0
  {
    EveryNdvi(certs);
    TotalNonNegative(certs, Ndvi);
    TotalAtMost(certs, Ndvi);
    QuotientInUnit(Total(certs, Ndvi), |certs| as real);
    TotalAtLeast(certs, Ndwi);
    TotalAtMost(certs, Ndwi);
    NdwiInUnit(Total(certs, Ndwi), Count(certs, Ndwi));
    TotalNonNegative(certs, Evi);
    TotalNonNegative(certs, Lai);
    CappedInUnit(Total(certs, Evi), Count(certs, Evi), 0.8);
    CappedInUnit(Total(certs, Lai), Count(certs, Lai), 8.0);
    var h := Health(certs);
    CompositeMonotone(0.0, 0.0, 0.0, 0.0, h.ndvi, h.eviNorm, h.ndwiNorm, h.laiNorm);
    CompositeMonotone(h.ndvi, h.eviNorm, h.ndwiNorm, h.laiNorm, 1.0, 1.0, 1.0, 1.0);
  }
}
