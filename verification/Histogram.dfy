// Bucketed samples and their percentiles (crates/nya-core/src/metrics.rs).
// Percentages and interpolation are exact reals and fractions here.
module Histogram {
  import opened Common

  // Raw counts per bucket; no buckets at all is the default, which merges as
  // nothing.
  datatype Snap = Snap(buckets: seq<nat>, sum: nat, count: nat)

  predicate Increasing(bounds: seq<nat>) {
    forall i, j :: 0 <= i < j < |bounds| ==> bounds[i] < bounds[j]
  }

  // Samples up to a limit.
  function CountUpTo(xs: seq<nat>, limit: nat): nat {
    if xs == [] then 0 else (if xs[0] <= limit then 1 else 0) + CountUpTo(xs[1..], limit)
  }

  function Total(xs: seq<nat>): nat {
    if xs == [] then 0 else xs[0] + Total(xs[1..])
  }

  function Below(xs: seq<nat>, bounds: seq<nat>, i: nat): nat
    requires i <= |bounds| + 1
  {
    if i == 0 then 0 else if i <= |bounds| then CountUpTo(xs, bounds[i - 1]) else |xs|
  }

  // What a histogram that observed these samples holds: bucket i counts those
  // above bound i - 1 and up to bound i.
  ghost predicate Holds(s: Snap, xs: seq<nat>, bounds: seq<nat>) {
    && |s.buckets| == |bounds| + 1 && s.sum == Total(xs) && s.count == |xs|
    && forall i :: 0 <= i <= |bounds| ==> Below(xs, bounds, i) + s.buckets[i] == Below(xs, bounds, i + 1)
  }

  // ---------------------------------------------------------------- observing

  function FirstAtLeast(bounds: seq<nat>, v: nat): (i: nat)
    ensures i <= |bounds|
    ensures forall j :: 0 <= j < i ==> bounds[j] < v
    ensures i < |bounds| ==> v <= bounds[i]
  {
    if bounds == [] || v <= bounds[0] then 0 else 1 + FirstAtLeast(bounds[1..], v)
  }

  lemma {:induction false} CountAppend(xs: seq<nat>, ys: seq<nat>, limit: nat)
    ensures CountUpTo(xs + ys, limit) == CountUpTo(xs, limit) + CountUpTo(ys, limit)
    ensures Total(xs + ys) == Total(xs) + Total(ys)
  {
    if xs == [] {
      assert xs + ys == ys;
    } else {
      assert (xs + ys)[1..] == xs[1..] + ys;
      CountAppend(xs[1..], ys, limit);
    }
  }

  function Bumped(s: Snap, i: nat, v: nat): Snap
    requires i < |s.buckets|
  {
    Snap(s.buckets[i := s.buckets[i] + 1], s.sum + v, s.count + 1)
  }

  lemma BumpHolds(s: Snap, xs: seq<nat>, bounds: seq<nat>, v: nat)
    requires Holds(s, xs, bounds) && Increasing(bounds)
    ensures Holds(Bumped(s, FirstAtLeast(bounds, v), v), xs + [v], bounds)
  {
    var at := FirstAtLeast(bounds, v);
    CountAppend(xs, [v], 0);
    forall i | 0 <= i <= |bounds| + 1
      ensures Below(xs + [v], bounds, i) == Below(xs, bounds, i) + if i > at then 1 else 0
    {
      if 0 < i <= |bounds| {
        CountAppend(xs, [v], bounds[i - 1]);
        assert CountUpTo([v], bounds[i - 1]) == if v <= bounds[i - 1] then 1 else 0;
      }
    }
  }

  class Counter {
    const bounds: seq<nat>
    const buckets: array<nat>
    var sum: nat
    var count: nat
    ghost var samples: seq<nat>

    ghost predicate Valid()
      reads this, buckets
    {
      Increasing(bounds) && buckets.Length == |bounds| + 1 && Holds(State(), samples, bounds)
    }

    ghost function State(): Snap
      reads this, buckets
    {
      Snap(buckets[..], sum, count)
    }

    constructor (bounds: seq<nat>)
      requires Increasing(bounds)
      ensures Valid() && samples == [] && this.bounds == bounds && fresh(buckets)
    {
      this.bounds := bounds;
      buckets := new nat[|bounds| + 1](_ => 0);
      sum, count, samples := 0, 0, [];
    }

    method Observe(v: nat)
      requires Valid()
      modifies this, buckets
      ensures Valid() && samples == old(samples) + [v]
      ensures State() == Bumped(old(State()), FirstAtLeast(bounds, v), v)
    {
      var i := |bounds|;
      var idx := 0;
      while idx < |bounds|
        invariant idx <= |bounds| && i == |bounds|
        invariant forall j :: 0 <= j < idx ==> bounds[j] < v
        invariant State() == old(State()) && samples == old(samples)
      {
        if v <= bounds[idx] {
          i := idx;
          break;
        }
        idx := idx + 1;
      }
      assert i == FirstAtLeast(bounds, v);
      BumpHolds(State(), samples, bounds, v);
      buckets[i] := buckets[i] + 1;
      sum, count, samples := sum + v, count + 1, samples + [v];
      assert State() == Bumped(old(State()), i, v);
    }
  }

  // ------------------------------------------------------------------ merging

  function AddEach(a: seq<nat>, b: seq<nat>): (r: seq<nat>)
    requires |a| == |b|
    ensures |r| == |a| && forall i :: 0 <= i < |a| ==> r[i] == a[i] + b[i]
  {
    seq(|a|, i requires 0 <= i < |a| => a[i] + b[i])
  }

  function Merged(a: Snap, b: Snap): Snap {
    if b.buckets == [] then a
    else if a.buckets == [] then b
    else if |a.buckets| != |b.buckets| then a
    else Snap(AddEach(a.buckets, b.buckets), a.sum + b.sum, a.count + b.count)
  }

  class Accumulator {
    var buckets: array<nat>
    var sum: nat
    var count: nat

    ghost function State(): Snap
      reads this, buckets
    {
      Snap(buckets[..], sum, count)
    }

    constructor ()
      ensures State() == Snap([], 0, 0) && fresh(buckets)
    {
      buckets := new nat[0];
      sum, count := 0, 0;
    }

    method MergeAdd(other: Snap)
      modifies this, buckets
      ensures State() == Merged(old(State()), other)
      ensures fresh(buckets) || buckets == old(buckets)
    {
      if other.buckets == [] {
        return;
      }
      if buckets.Length == 0 {
        buckets := new nat[|other.buckets|](i requires 0 <= i < |other.buckets| => other.buckets[i]);
        sum, count := other.sum, other.count;
        assert buckets[..] == other.buckets;
        return;
      }
      if buckets.Length != |other.buckets| {
        return;
      }
      for i := 0 to buckets.Length
        invariant buckets == old(buckets) && sum == old(sum) && count == old(count)
        invariant forall j :: 0 <= j < i ==> buckets[j] == old(buckets[j]) + other.buckets[j]
        invariant forall j :: i <= j < buckets.Length ==> buckets[j] == old(buckets[j])
        modifies buckets
      {
        buckets[i] := buckets[i] + other.buckets[i];
      }
      sum, count := sum + other.sum, count + other.count;
      assert buckets[..] == AddEach(old(buckets[..]), other.buckets);
    }
  }

  // Merging two histograms is observing the samples of both, and the default
  // snapshot changes nothing on either side.
  lemma MergeIsConcatenation(a: Snap, xs: seq<nat>, b: Snap, ys: seq<nat>, bounds: seq<nat>)
    requires Holds(a, xs, bounds) && Holds(b, ys, bounds)
    ensures Holds(Merged(a, b), xs + ys, bounds)
    ensures Merged(a, Snap([], 0, 0)) == a && Merged(Snap([], 0, 0), a) == a
  {
    CountAppend(xs, ys, 0);
    forall i | 0 <= i <= |bounds| + 1
      ensures Below(xs + ys, bounds, i) == Below(xs, bounds, i) + Below(ys, bounds, i)
    {
      if 0 < i <= |bounds| {
        CountAppend(xs, ys, bounds[i - 1]);
      }
    }
  }

  // --------------------------------------------------------------- percentiles

  // At most 100 percent, as a fraction.
  function Fraction(p: real): (f: real)
    requires p > 0.0
    ensures 0.0 < f <= 1.0
  {
    if p >= 100.0 then 1.0 else p / 100.0
  }

  lemma RealTimes(a: real, b: real, c: real)
    requires a <= b && c >= 0.0
    ensures a * c <= b * c
  {
  }

  function Ceiling(x: real): int {
    if x == x.Floor as real then x.Floor else x.Floor + 1
  }

  lemma CeilingMonotone(x: real, y: real)
    requires x <= y
    ensures Ceiling(x) <= Ceiling(y)
  {
  }

  lemma ShareFits(f: real, count: nat)
    requires 0.0 < f <= 1.0
    ensures Ceiling(f * count as real) <= count
  {
    RealTimes(f, 1.0, count as real);
    CeilingMonotone(f * count as real, count as real);
  }

  // The rank asked for: p hundredths of the count, rounded up, at least 1.
  function Target(p: real, count: nat): (t: nat)
    requires p > 0.0
    ensures 1 <= t <= Max(count, 1)
  {
    ShareFits(Fraction(p), count);
    Max(Ceiling(Fraction(p) * count as real), 1)
  }

  // The first bucket where the running count reaches the rank, and the count
  // before it.
  function Hit(buckets: seq<nat>, target: nat, acc: nat): (r: Option<(nat, nat)>)
    ensures r.Some? ==> r.value.0 < |buckets|
    decreases |buckets|
  {
    if buckets == [] then None
    else if acc + buckets[0] >= target then Some((0, acc))
    else
      var r := Hit(buckets[1..], target, acc + buckets[0]);
      if r.None? then None else Some((r.value.0 + 1, r.value.1))
  }

  function Last(bounds: seq<nat>): Option<nat> {
    if bounds == [] then None else Some(bounds[|bounds| - 1])
  }

  // Nearest whole number to a / c, halves up.
  function Round(a: nat, c: nat): nat
    requires c > 0
  {
    (2 * a + c) / (2 * c)
  }

  function Within(lower: nat, upper: nat, need: nat, c: nat): nat
    requires c > 0
  {
    lower + Round(SatSub(upper, lower) * Min(need, c), c)
  }

  function InBucket(s: Snap, bounds: seq<nat>, target: nat, i: nat, before: nat): Option<nat>
    requires i < |s.buckets|
  {
    if i >= |bounds| then Last(bounds)
    else if s.buckets[i] == 0 then Some(bounds[i])
    else Some(Within(Floor(bounds, i), bounds[i], Max(SatSub(target, before), 1), s.buckets[i]))
  }

  function Percentile(s: Snap, bounds: seq<nat>, p: real): Option<nat> {
    if s.count == 0 || s.buckets == [] || p <= 0.0 then None
    else
      var target := Target(p, s.count);
      var hit := Hit(s.buckets, target, 0);
      if hit.None? then Last(bounds) else InBucket(s, bounds, target, hit.value.0, hit.value.1)
  }

  method FindPercentile(s: Snap, bounds: seq<nat>, p: real) returns (r: Option<nat>)
    ensures r == Percentile(s, bounds, p)
  {
    if s.count == 0 || |s.buckets| == 0 || p <= 0.0 {
      return None;
    }
    var target := Target(p, s.count);
    var acc := 0;
    for i := 0 to |s.buckets|
      invariant Hit(s.buckets, target, 0) ==
                match Hit(s.buckets[i..], target, acc)
                case None => None
                case Some((k, before)) => Some((k + i, before))
    {
      var c := s.buckets[i];
      assert s.buckets[i..][1..] == s.buckets[i + 1..];
      acc := acc + c;
      if acc >= target {
        if i >= |bounds| {
          return Last(bounds);
        }
        var lower := if i == 0 then 0 else bounds[i - 1];
        var upper := bounds[i];
        var need := Max(SatSub(target, acc - c), 1);
        if c == 0 {
          return Some(upper);
        }
        return Some(Within(lower, upper, need, c));
      }
    }
    r := Last(bounds);
  }

  // ------------------------------------------------------ what it comes close to

  predicate Sorted(xs: seq<nat>) {
    forall i, j :: 0 <= i < j < |xs| ==> xs[i] <= xs[j]
  }

  // In sorted samples, the k-th is within a limit exactly when k of them are.
  lemma {:induction false} RankUpTo(xs: seq<nat>, k: nat, limit: nat)
    requires Sorted(xs) && k < |xs|
    ensures xs[k] <= limit <==> CountUpTo(xs, limit) > k
  {
    if xs[0] > limit {
      NoneUpTo(xs, limit);
    } else if k > 0 {
      RankUpTo(xs[1..], k - 1, limit);
    }
  }

  lemma {:induction false} NoneUpTo(xs: seq<nat>, limit: nat)
    requires forall i :: 0 <= i < |xs| ==> xs[i] > limit
    ensures CountUpTo(xs, limit) == 0
  {
    if xs != [] {
      NoneUpTo(xs[1..], limit);
    }
  }

  lemma CountRemoved(ys: seq<nat>, k: nat, limit: nat)
    requires k < |ys|
    ensures CountUpTo(ys, limit) == CountUpTo(ys[..k] + ys[k + 1..], limit) + if ys[k] <= limit then 1 else 0
  {
    assert ys == ys[..k] + ys[k..];
    assert ys[k..][1..] == ys[k + 1..];
    CountAppend(ys[..k], ys[k..], limit);
    CountAppend(ys[..k], ys[k + 1..], limit);
  }

  lemma BagRemoved(ys: seq<nat>, k: nat)
    requires k < |ys|
    ensures multiset(ys[..k] + ys[k + 1..]) == multiset(ys) - multiset{ys[k]}
  {
    assert ys == ys[..k] + [ys[k]] + ys[k + 1..];
  }

  // Counting does not depend on order.
  lemma {:induction false} SameCounts(xs: seq<nat>, ys: seq<nat>, limit: nat)
    requires multiset(xs) == multiset(ys)
    ensures CountUpTo(xs, limit) == CountUpTo(ys, limit)
    decreases |xs|
  {
    assert |xs| == |multiset(xs)| == |ys|;
    if xs != [] {
      assert xs[0] in multiset(ys);
      var k :| 0 <= k < |ys| && ys[k] == xs[0];
      var fewer := SameWithout(xs, ys, k);
      SameCounts(xs[1..], fewer, limit);
      CountRemoved(ys, k, limit);
    }
  }

  lemma SameWithout(xs: seq<nat>, ys: seq<nat>, k: nat) returns (fewer: seq<nat>)
    requires multiset(xs) == multiset(ys) && xs != [] && k < |ys| && ys[k] == xs[0]
    ensures fewer == ys[..k] + ys[k + 1..] && multiset(xs[1..]) == multiset(fewer)
  {
    fewer := ys[..k] + ys[k + 1..];
    HeadRemoved(xs);
    BagRemoved(ys, k);
  }

  lemma HeadRemoved(xs: seq<nat>)
    requires xs != []
    ensures multiset(xs[1..]) == multiset(xs) - multiset{xs[0]}
  {
    assert xs == [xs[0]] + xs[1..];
  }

  // The hit bucket is the one whose running count first reaches the rank.
  lemma {:induction false} HitIsFirst(s: Snap, xs: seq<nat>, bounds: seq<nat>, target: nat, i: nat)
    requires Holds(s, xs, bounds) && i <= |bounds| + 1 && Below(xs, bounds, i) < target <= |xs|
    ensures var r := Hit(s.buckets[i..], target, Below(xs, bounds, i));
            && r.Some? && var at := i + r.value.0;
            && at <= |bounds| && r.value.1 == Below(xs, bounds, at) < target <= Below(xs, bounds, at + 1)
    decreases |bounds| + 1 - i
  {
    if i <= |bounds| {
      assert Below(xs, bounds, i) + s.buckets[i] == Below(xs, bounds, i + 1);
      assert s.buckets[i..][1..] == s.buckets[i + 1..];
      if Below(xs, bounds, i + 1) < target {
        HitIsFirst(s, xs, bounds, target, i + 1);
      }
    }
  }

  lemma SmallerQuotient(c: nat, q: nat, r: nat, w: nat, t: nat)
    requires r < c && t < c && c * q + r <= c * w + t
    ensures q <= w
  {
    if w < q {
      Times(c, w + 1, q);
    }
  }

  lemma DivideMonotone(a: nat, b: nat, c: nat)
    requires a <= b && c > 0
    ensures a / c <= b / c
  {
    SmallerQuotient(c, a / c, a % c, b / c, b % c);
  }

  lemma RoundMonotone(a: nat, b: nat, c: nat)
    requires a <= b && c > 0
    ensures Round(a, c) <= Round(b, c)
  {
    DivideMonotone(2 * a + c, 2 * b + c, 2 * c);
  }

  lemma RoundWhole(w: nat, c: nat)
    requires c > 0
    ensures Round(w * c, c) == w
  {
    var a := 2 * (w * c) + c;
    assert a == w * (2 * c) + c;
    DivideExact(w, c, 2 * c);
  }

  lemma DivideExact(w: nat, r: nat, c: nat)
    requires r < c
    ensures (w * c + r) / c == w
  {
    var n := w * c + r;
    SmallerQuotient(c, n / c, n % c, w, r);
    SmallerQuotient(c, w, r, n / c, n % c);
  }

  lemma WithinGrows(lower: nat, upper: nat, m: nat, n: nat, c: nat)
    requires lower <= upper && c > 0 && m <= n
    ensures lower <= Within(lower, upper, m, c) <= Within(lower, upper, n, c) <= upper
  {
    var w := upper - lower;
    var a, b := Min(m, c), Min(n, c);
    assert w * a <= w * b <= w * c by {
      Times(w, a, b);
      Times(w, b, c);
    }
    RoundMonotone(w * a, w * b, c);
    RoundMonotone(w * b, w * c, c);
    RoundWhole(w, c);
  }

  lemma Times(w: nat, a: nat, b: nat)
    requires a <= b
    ensures w * a <= w * b
  {
  }

  // The percentile of observed samples lies in the same bucket, bounds
  // included, as the sample of that rank in sorted order; above the last bound
  // it is the last bound.
  lemma PercentileNearRank(s: Snap, xs: seq<nat>, sorted: seq<nat>, bounds: seq<nat>, p: real)
    requires Holds(s, xs, bounds) && Increasing(bounds) && xs != [] && p > 0.0
    requires Sorted(sorted) && multiset(sorted) == multiset(xs)
    ensures |sorted| == |xs|
    ensures var i := FirstAtLeast(bounds, sorted[Target(p, s.count) - 1]);
            var r := Percentile(s, bounds, p);
            if i == |bounds| then r == Last(bounds) else r.Some? && Floor(bounds, i) <= r.value <= bounds[i]
  {
    var k := Target(p, s.count);
    var i, before := RankFound(s, xs, sorted, bounds, k);
    if bounds != [] {
      InBucketRange(s, bounds, k, i, before);
    }
  }

  lemma RankFound(s: Snap, xs: seq<nat>, sorted: seq<nat>, bounds: seq<nat>, k: nat) returns (i: nat, before: nat)
    requires Holds(s, xs, bounds) && Increasing(bounds) && Sorted(sorted) && multiset(sorted) == multiset(xs) && 0 < k <= |xs|
    ensures |sorted| == |xs| && i == FirstAtLeast(bounds, sorted[k - 1])
    ensures Hit(s.buckets, k, 0) == Some((i, before)) && before == Below(xs, bounds, i) < k <= Below(xs, bounds, i + 1)
    ensures s.buckets[i] == Below(xs, bounds, i + 1) - before > 0
  {
    assert |sorted| == |multiset(sorted)| == |xs|;
    i, before := HitBucket(s, xs, bounds, k);
    RankInBucket(xs, sorted, bounds, k, i);
  }

  function Floor(bounds: seq<nat>, i: nat): nat
    requires i <= |bounds|
  {
    if i == 0 then 0 else bounds[i - 1]
  }

  lemma HitBucket(s: Snap, xs: seq<nat>, bounds: seq<nat>, k: nat) returns (i: nat, before: nat)
    requires Holds(s, xs, bounds) && 0 < k <= |xs|
    ensures Hit(s.buckets, k, 0) == Some((i, before)) && i <= |bounds|
    ensures before == Below(xs, bounds, i) < k <= Below(xs, bounds, i + 1)
    ensures s.buckets[i] > 0
  {
    HitIsFirst(s, xs, bounds, k, 0);
    assert s.buckets[0..] == s.buckets;
    i, before := Hit(s.buckets, k, 0).value.0, Hit(s.buckets, k, 0).value.1;
  }

  lemma RankInBucket(xs: seq<nat>, sorted: seq<nat>, bounds: seq<nat>, k: nat, i: nat)
    requires Sorted(sorted) && multiset(sorted) == multiset(xs) && 0 < k <= |sorted| && i <= |bounds|
    requires Below(xs, bounds, i) < k <= Below(xs, bounds, i + 1) && Increasing(bounds)
    ensures FirstAtLeast(bounds, sorted[k - 1]) == i
  {
    var x := sorted[k - 1];
    if i > 0 {
      SameCounts(sorted, xs, bounds[i - 1]);
      RankUpTo(sorted, k - 1, bounds[i - 1]);
    }
    if i < |bounds| {
      SameCounts(sorted, xs, bounds[i]);
      RankUpTo(sorted, k - 1, bounds[i]);
    }
  }

  lemma TargetMonotone(p: real, q: real, count: nat)
    requires 0.0 < p <= q
    ensures Target(p, count) <= Target(q, count)
  {
    assert Fraction(p) <= Fraction(q);
    RealTimes(Fraction(p), Fraction(q), count as real);
    CeilingMonotone(Fraction(p) * count as real, Fraction(q) * count as real);
  }

  // A higher percentage never gives a lower value.
  lemma PercentileMonotone(s: Snap, xs: seq<nat>, bounds: seq<nat>, p: real, q: real)
    requires Holds(s, xs, bounds) && Increasing(bounds) && xs != [] && bounds != [] && 0.0 < p <= q
    ensures var a, b := Percentile(s, bounds, p), Percentile(s, bounds, q);
            a.Some? && b.Some? && a.value <= b.value
  {
    TargetMonotone(p, q, s.count);
    var k, l := Target(p, s.count), Target(q, s.count);
    var i, before := HitBucket(s, xs, bounds, k);
    var j, before2 := HitBucket(s, xs, bounds, l);
    BelowGrows(s, xs, bounds);
    assert i <= j;
    InBucketRange(s, bounds, k, i, before);
    InBucketRange(s, bounds, l, j, before2);
    if i == j && i < |bounds| {
      WithinGrows(Floor(bounds, i), bounds[i], Max(SatSub(k, before), 1),
                  Max(SatSub(l, before), 1), s.buckets[i]);
    }
  }

  lemma InBucketRange(s: Snap, bounds: seq<nat>, k: nat, i: nat, before: nat)
    requires i < |s.buckets| == |bounds| + 1 && Increasing(bounds) && bounds != []
    ensures var r := InBucket(s, bounds, k, i, before);
            && r.Some?
            && (i < |bounds| ==> Floor(bounds, i) <= r.value <= bounds[i])
            && (i == |bounds| ==> r.value == bounds[i - 1])
  {
    if i < |bounds| && s.buckets[i] > 0 {
      WithinGrows(Floor(bounds, i), bounds[i], Max(SatSub(k, before), 1),
                  Max(SatSub(k, before), 1), s.buckets[i]);
    }
  }

  lemma BelowGrows(s: Snap, xs: seq<nat>, bounds: seq<nat>)
    requires Holds(s, xs, bounds)
    ensures forall i, j :: 0 <= i <= j <= |bounds| + 1 ==> Below(xs, bounds, i) <= Below(xs, bounds, j)
  {
    forall i, j | 0 <= i <= j <= |bounds| + 1
      ensures Below(xs, bounds, i) <= Below(xs, bounds, j)
    {
      BelowGrowsTo(s, xs, bounds, i, j);
    }
  }

  lemma {:induction false} BelowGrowsTo(s: Snap, xs: seq<nat>, bounds: seq<nat>, i: nat, j: nat)
    requires Holds(s, xs, bounds) && i <= j <= |bounds| + 1
    ensures Below(xs, bounds, i) <= Below(xs, bounds, j)
    decreases j
  {
    if i < j {
      BelowGrowsTo(s, xs, bounds, i, j - 1);
      assert Below(xs, bounds, j - 1) + s.buckets[j - 1] == Below(xs, bounds, j - 1 + 1);
    }
  }

  lemma {:induction false} CountAtMost(xs: seq<nat>, limit: nat)
    ensures CountUpTo(xs, limit) <= |xs|
  {
    if xs != [] {
      CountAtMost(xs[1..], limit);
    }
  }

  lemma AllAsked(p: real, count: nat)
    requires p >= 100.0 && count > 0
    ensures Target(p, count) == count
  {
    assert Fraction(p) * count as real == count as real;
  }

  // The whole count asks for the upper bound of the largest sample's bucket.
  lemma TopPercentileIsTopBound(s: Snap, xs: seq<nat>, sorted: seq<nat>, bounds: seq<nat>, p: real)
    requires Holds(s, xs, bounds) && Increasing(bounds) && xs != [] && p >= 100.0
    requires Sorted(sorted) && multiset(sorted) == multiset(xs)
    ensures |sorted| == |xs|
    ensures var i := FirstAtLeast(bounds, sorted[|sorted| - 1]);
            Percentile(s, bounds, p) == if i < |bounds| then Some(bounds[i]) else Last(bounds)
  {
    assert |sorted| == |multiset(sorted)| == |xs|;
    AllAsked(p, s.count);
    var k := |xs|;
    var i, before := HitBucket(s, xs, bounds, k);
    RankInBucket(xs, sorted, bounds, k, i);
    if i < |bounds| {
      CountAtMost(xs, bounds[i]);
      assert s.buckets[i] == k - before;
      RoundWhole(bounds[i] - Floor(bounds, i), k - before);
    }
  }

  // The rank asked for: the least one that is at least p hundredths of the
  // count, and never the zeroth.
  predicate IsRank(p: real, count: nat, k: nat) {
    && 1 <= k
    && 100.0 * k as real >= (if p >= 100.0 then 100.0 else p) * count as real
    && (k > 1 ==> 100.0 * (k - 1) as real < (if p >= 100.0 then 100.0 else p) * count as real)
  }

  lemma CeilingIs(x: real)
    ensures Ceiling(x) as real >= x && (Ceiling(x) - 1) as real < x
  {
  }

  lemma TargetIsRank(p: real, count: nat)
    requires p > 0.0 && count > 0
    ensures IsRank(p, count, Target(p, count))
  {
    var f, n := Fraction(p), count as real;
    var x := f * n;
    CeilingIs(x);
    var q := if p >= 100.0 then 100.0 else p;
    assert f == q / 100.0;
    Hundredths(q, n);
    assert 100.0 * x == q * n;
  }

  lemma Hundredths(q: real, n: real)
    ensures 100.0 * (q / 100.0 * n) == q * n
  {
    assert 100.0 * (q / 100.0) == q;
  }

  lemma OneRank(p: real, count: nat, k: nat, l: nat)
    requires IsRank(p, count, k) && IsRank(p, count, l)
    ensures k == l
  {
  }

  // Between a and b the way is shared out evenly: rank `need` of the c samples
  // there is at need / c of it, to the nearest whole number, halves up.
  predicate Interpolates(r: nat, lower: nat, upper: nat, need: nat, c: nat) {
    r >= lower && (2 * (r - lower)) * c <= 2 * ((upper - lower) * need) + c < (2 * (r - lower) + 2) * c
  }

  lemma RoundIs(a: nat, c: nat)
    requires c > 0
    ensures (2 * Round(a, c)) * c <= 2 * a + c < (2 * Round(a, c) + 2) * c
  {
    var n, d := 2 * a + c, 2 * c;
    var q := n / d;
    assert n == d * q + n % d;
    assert d * q == (2 * q) * c;
    assert d * q + d == (2 * q + 2) * c;
  }

  lemma WithinInterpolates(lower: nat, upper: nat, need: nat, c: nat)
    requires lower <= upper && need <= c && c > 0
    ensures Interpolates(Within(lower, upper, need, c), lower, upper, need, c)
  {
    assert Min(need, c) == need;
    RoundIs((upper - lower) * need, c);
  }

  lemma InBucketIs(s: Snap, bounds: seq<nat>, k: nat, i: nat, before: nat, c: nat)
    requires i < |bounds| < |s.buckets| && Increasing(bounds) && c == s.buckets[i] && before < k <= before + c
    ensures var r := InBucket(s, bounds, k, i, before);
            r.Some? && Interpolates(r.value, Floor(bounds, i), bounds[i], k - before, c)
  {
    WithinInterpolates(Floor(bounds, i), bounds[i], k - before, c);
  }

  lemma RankIsTarget(p: real, count: nat, k: nat)
    requires p > 0.0 && count > 0 && IsRank(p, count, k)
    ensures k == Target(p, count) <= count
  {
    TargetIsRank(p, count);
    OneRank(p, count, k, Target(p, count));
  }

  lemma PercentileIs(s: Snap, bounds: seq<nat>, p: real, k: nat, i: nat, before: nat)
    requires s.count > 0 && p > 0.0 && k == Target(p, s.count) && Hit(s.buckets, k, 0) == Some((i, before))
    ensures Percentile(s, bounds, p) == InBucket(s, bounds, k, i, before)
  {
  }

  // The percentile of observed samples, from the samples alone: take the sample
  // of that rank; above the last bound it is the last bound, else it is shared
  // out over its bucket by the rank among the samples there.
  lemma PercentileOfSamples(s: Snap, xs: seq<nat>, sorted: seq<nat>, bounds: seq<nat>, p: real, k: nat)
    requires Holds(s, xs, bounds) && Increasing(bounds) && xs != [] && p > 0.0
    requires Sorted(sorted) && multiset(sorted) == multiset(xs) && IsRank(p, |xs|, k)
    ensures |sorted| == |xs| && k <= |xs|
    ensures var i := FirstAtLeast(bounds, sorted[k - 1]);
            var before := Below(xs, bounds, i);
            var r := Percentile(s, bounds, p);
            if i == |bounds| then r == Last(bounds)
            else r.Some? && before < k
                 && Interpolates(r.value, Floor(bounds, i), bounds[i], k - before, Below(xs, bounds, i + 1) - before)
  {
    RankIsTarget(p, |xs|, k);
    var i, before := RankFound(s, xs, sorted, bounds, k);
    PercentileIs(s, bounds, p, k, i, before);
    if i < |bounds| {
      InBucketIs(s, bounds, k, i, before, Below(xs, bounds, i + 1) - before);
    }
  }

  // Nothing is reported of no samples, or of none asked for.
  lemma NoPercentileIff(s: Snap, xs: seq<nat>, bounds: seq<nat>, p: real)
    requires Holds(s, xs, bounds) && Increasing(bounds) && bounds != []
    ensures Percentile(s, bounds, p).None? <==> xs == [] || p <= 0.0
  {
    if xs != [] && p > 0.0 {
      var k := Target(p, s.count);
      var i, before := HitBucket(s, xs, bounds, k);
      InBucketRange(s, bounds, k, i, before);
    }
  }
}
