// Three RTT estimates of a path (crates/nya-core/src/path.rs): a fast average,
// a slow-to-rise one for timeouts, and the class used to compare paths.
module RttClass {
  import opened Common

  const RAISE_MULT: nat := 2
  const RAISE_ADD: nat := 15000
  const DROP_ABS: nat := 8000
  const INIT_SAMPLES: nat := 8

  // Microseconds, 0 for not known yet. `low` is when the present stretch of low
  // samples began and `accum` what earlier stretches added up to.
  datatype Class = Class(
    rtt: nat,
    samples: nat,
    high: Option<nat>,
    low: Option<nat>,
    accum: nat,
    permit: bool)

  datatype Estimates = Estimates(fast: nat, stable: nat, highSince: Option<nat>, classRtt: Class)

  function NewClass(): Class {
    Class(0, 0, None, None, 0, false)
  }

  function NewEstimates(): Estimates {
    Estimates(0, 0, None, NewClass())
  }

  predicate Raises(base: nat, fast: nat) {
    fast > base * RAISE_MULT && fast > base + RAISE_ADD
  }

  predicate ShouldDrop(rtt: nat, fast: nat) {
    SatSub(rtt, fast) >= Max(DROP_ABS, rtt / 4)
  }

  function Fast(before: nat, sample: nat): nat {
    if before == 0 then sample else (before * 8 + sample * 2) / 10
  }

  function Since(start: Option<nat>, now: nat): nat {
    if start.Some? then start.value else now
  }

  function Blend(base: nat, fast: nat): nat {
    (base * 7 + fast) / 8
  }

  // What the fast estimate is to the class: nothing yet, above, below, neither.
  datatype Zone = Init | High | Low | Dead

  function ZoneOf(c: Class, fast: nat): Zone {
    if c.rtt == 0 then Init
    else if Raises(c.rtt, fast) then High
    else if ShouldDrop(c.rtt, fast) || (c.permit && fast < c.rtt) then Low
    else Dead
  }

  function OnInit(c: Class, fast: nat): Class {
    var c := c.(samples := c.samples + 1);
    if c.samples >= INIT_SAMPLES then c.(rtt := fast, permit := true) else c
  }

  function OnHigh(c: Class, fast: nat, now: nat, hold: nat): Class {
    var start := Since(c.high, now);
    var c := c.(low := None, accum := 0, high := Some(start));
    if SatSub(now, start) >= hold then c.(rtt := Blend(c.rtt, fast), high := None, permit := true) else c
  }

  function OnLow(c: Class, fast: nat, now: nat, hold: nat): Class {
    var start := Since(c.low, now);
    var c := c.(high := None, low := Some(start));
    if SatSub(now, start) + c.accum >= hold then
      var rtt := Blend(c.rtt, fast);
      c.(rtt := rtt, low := None, accum := 0, permit := c.permit && rtt > fast)
    else c
  }

  function OnDead(c: Class, now: nat): Class {
    var c := c.(high := None);
    if c.low.Some? then c.(low := None, accum := c.accum + SatSub(now, c.low.value)) else c
  }

  function UpdateClass(c: Class, fast: nat, now: nat, hold: nat): Class {
    match ZoneOf(c, fast)
    case Init => OnInit(c, fast)
    case High => OnHigh(c, fast, now, hold)
    case Low => OnLow(c, fast, now, hold)
    case Dead => OnDead(c, now)
  }

  function UpdateStable(e: Estimates, sample: nat, fast: nat, now: nat, hold: nat): Estimates {
    if e.stable == 0 then e.(stable := sample)
    else if sample < e.stable then e.(stable := (e.stable * 3 + sample) / 4, highSince := None)
    else if !Raises(e.stable, fast) then e.(highSince := None)
    else
      var start := Since(e.highSince, now);
      e.(highSince := Some(start), stable := if SatSub(now, start) >= hold then Blend(e.stable, fast) else e.stable)
  }

  function Record(e: Estimates, sample: nat, now: nat, hold: nat): Estimates {
    var fast := Fast(e.fast, sample);
    UpdateStable(e, sample, fast, now, hold).(fast := fast, classRtt := UpdateClass(e.classRtt, fast, now, hold))
  }

  class PathRtt {
    var fast: nat
    var stable: nat
    var highSince: Option<nat>
    var rtt: nat
    var samples: nat
    var high: Option<nat>
    var low: Option<nat>
    var accum: nat
    var permit: bool

    ghost function ClassState(): Class
      reads this
    {
      Class(rtt, samples, high, low, accum, permit)
    }

    ghost function State(): Estimates
      reads this
    {
      Estimates(fast, stable, highSince, ClassState())
    }

    constructor ()
      ensures State() == NewEstimates()
    {
      fast, stable, highSince := 0, 0, None;
      rtt, samples, high, low, accum, permit := 0, 0, None, None, 0, false;
    }

    method UpdateClassRtt(newFast: nat, now: nat, hold: nat)
      modifies `rtt, `samples, `high, `low, `accum, `permit
      ensures ClassState() == UpdateClass(old(ClassState()), newFast, now, hold)
    {
      var before := rtt;
      if before == 0 {
        samples := samples + 1;
        if samples >= INIT_SAMPLES {
          rtt := newFast;
          permit := true;
        }
        return;
      }
      if newFast > before * RAISE_MULT && newFast > before + RAISE_ADD {
        low, accum := None, 0;
        var start := if high.Some? then high.value else now;
        high := Some(start);
        if SatSub(now, start) >= hold {
          rtt := (before * 7 + newFast) / 8;
          high := None;
          permit := true;
        }
        return;
      }
      high := None;
      if ShouldDrop(before, newFast) || (permit && newFast < before) {
        var start := if low.Some? then low.value else now;
        low := Some(start);
        if SatSub(now, start) + accum >= hold {
          rtt := (before * 7 + newFast) / 8;
          low, accum := None, 0;
          if rtt <= newFast {
            permit := false;
          }
        }
        return;
      }
      if low.Some? {
        accum := accum + SatSub(now, low.value);
        low := None;
      }
    }

    method RecordRtt(sample: nat, now: nat, hold: nat)
      modifies this
      ensures State() == Record(old(State()), sample, now, hold)
    {
      fast := if fast == 0 then sample else (fast * 8 + sample * 2) / 10;
      if stable == 0 {
        stable := sample;
      } else if sample < stable {
        stable := (stable * 3 + sample) / 4;
        highSince := None;
      } else if !(fast > stable * RAISE_MULT && fast > stable + RAISE_ADD) {
        highSince := None;
      } else {
        var start := if highSince.Some? then highSince.value else now;
        highSince := Some(start);
        if SatSub(now, start) >= hold {
          stable := (stable * 7 + fast) / 8;
        }
      }
      UpdateClassRtt(fast, now, hold);
    }
  }

  // ---------------------------------------------------- within the samples

  datatype Sample = Sample(rtt: nat, now: nat, hold: nat)

  function RecordAll(e: Estimates, samples: seq<Sample>): Estimates
    decreases |samples|
  {
    if samples == [] then e
    else
      var x := samples[|samples| - 1];
      Record(RecordAll(e, samples[..|samples| - 1]), x.rtt, x.now, x.hold)
  }

  predicate Within(e: Estimates, lo: nat, hi: nat) {
    && lo <= e.fast <= hi
    && lo <= e.stable <= hi
    && (e.classRtt.rtt != 0 ==> lo <= e.classRtt.rtt <= hi)
  }

  lemma UpdateClassWithin(c: Class, fast: nat, now: nat, hold: nat, lo: nat, hi: nat)
    requires lo <= fast <= hi && (c.rtt != 0 ==> lo <= c.rtt <= hi)
    ensures var r := UpdateClass(c, fast, now, hold).rtt; r != 0 ==> lo <= r <= hi
  {
  }

  lemma RecordWithin(e: Estimates, x: Sample, lo: nat, hi: nat)
    requires lo <= x.rtt <= hi && (e.fast == 0 || lo <= e.fast <= hi) && (e.stable == 0 || lo <= e.stable <= hi)
    requires e.classRtt.rtt != 0 ==> lo <= e.classRtt.rtt <= hi
    ensures Within(Record(e, x.rtt, x.now, x.hold), lo, hi)
  {
    UpdateClassWithin(e.classRtt, Fast(e.fast, x.rtt), x.now, x.hold, lo, hi);
  }

  // All three estimates stay between the least and the greatest sample ever.
  lemma {:induction false} EstimatesStayWithinSamples(samples: seq<Sample>, lo: nat, hi: nat)
    requires samples != [] && forall i :: 0 <= i < |samples| ==> lo <= samples[i].rtt <= hi
    ensures Within(RecordAll(NewEstimates(), samples), lo, hi)
    decreases |samples|
  {
    var n := |samples| - 1;
    if n > 0 {
      EstimatesStayWithinSamples(samples[..n], lo, hi);
    }
    RecordWithin(RecordAll(NewEstimates(), samples[..n]), samples[n], lo, hi);
  }

  // -------------------------------------------------------------- unwinding

  // The same fast value again and again, at the given times.
  function Feed(c: Class, fast: nat, times: seq<nat>, hold: nat): Class
    decreases |times|
  {
    if times == [] then c else Feed(UpdateClass(c, fast, times[0], hold), fast, times[1..], hold)
  }

  // How many of those updates move the class.
  function Stores(c: Class, fast: nat, times: seq<nat>, hold: nat): nat
    decreases |times|
  {
    if times == [] then 0
    else
      var d := UpdateClass(c, fast, times[0], hold);
      (if d.rtt != c.rtt then 1 else 0) + Stores(d, fast, times[1..], hold)
  }

  // A class above the fast value falls by an eighth of the way, on the permit as
  // long as it is above, and without it only from far above.
  predicate Falls(rtt: nat, permit: bool, fast: nat) {
    ShouldDrop(rtt, fast) || (permit && fast < rtt)
  }

  function Walk(rtt: nat, permit: bool, fast: nat, n: nat): nat {
    if n == 0 || !Falls(rtt, permit, fast) then rtt else Walk(Blend(rtt, fast), permit, fast, n - 1)
  }

  // The holds that the times complete from `i` on, whatever the class: each
  // begins with the first sample after the one before, and ends with the first
  // sample a hold later.
  function Holds(low: Option<nat>, accum: nat, times: seq<nat>, i: nat, hold: nat): nat
    requires i <= |times|
    decreases |times| - i
  {
    if i == |times| then 0
    else if SatSub(times[i], Since(low, times[i])) + accum >= hold then 1 + Holds(None, 0, times, i + 1, hold)
    else Holds(Some(Since(low, times[i])), accum, times, i + 1, hold)
  }

  // How many stores a class this far above the fast value needs to meet it.
  function StoresToMeet(above: nat): (n: nat)
    ensures n <= above && (n == 0 <==> above == 0)
  {
    if above == 0 then 0 else 1 + StoresToMeet(above * 7 / 8)
  }

  lemma BlendAbove(rtt: nat, fast: nat)
    requires rtt >= fast
    ensures Blend(rtt, fast) == fast + (rtt - fast) * 7 / 8
  {
  }

  lemma WalkStaysAbove(rtt: nat, fast: nat)
    requires rtt > fast && ShouldDrop(rtt, fast)
    ensures rtt > Blend(rtt, fast) > fast
  {
    BlendAbove(rtt, fast);
  }

  // With the permit a walk arrives exactly after so many stores.
  lemma {:induction false} WalkMeetsIff(rtt: nat, fast: nat, n: nat)
    requires rtt >= fast
    ensures Walk(rtt, true, fast, n) >= fast
    ensures Walk(rtt, true, fast, n) == fast <==> n >= StoresToMeet(rtt - fast)
  {
    BlendAbove(rtt, fast);
    if n > 0 && rtt > fast {
      WalkMeetsIff(Blend(rtt, fast), fast, n - 1);
    }
  }

  // Without it a walk stops above, once it is no longer far above.
  lemma {:induction false} WalkStops(rtt: nat, fast: nat, n: nat)
    requires rtt > fast
    ensures Walk(rtt, false, fast, n) > fast
    ensures n >= rtt - fast ==> !ShouldDrop(Walk(rtt, false, fast, n), fast)
  {
    if n > 0 && ShouldDrop(rtt, fast) {
      WalkStaysAbove(rtt, fast);
      WalkStops(Blend(rtt, fast), fast, n - 1);
    }
  }

  // What one update does to a class not below the fast value.
  lemma FallOne(c: Class, fast: nat, now: nat, hold: nat)
    requires c.rtt >= fast > 0
    ensures var d := UpdateClass(c, fast, now, hold);
            if !Falls(c.rtt, c.permit, fast) then d.rtt == c.rtt && d.permit == c.permit
            else if SatSub(now, Since(c.low, now)) + c.accum >= hold then
              && d.rtt == Blend(c.rtt, fast) && fast <= d.rtt < c.rtt && d.permit == (c.permit && d.rtt > fast)
              && d.low == None && d.accum == 0
            else d.rtt == c.rtt && d.permit == c.permit && d.low == Some(Since(c.low, now)) && d.accum == c.accum
  {
    BlendAbove(c.rtt, fast);
  }

  lemma WalkOnceMet(rtt: nat, permit: bool, fast: nat, n: nat)
    requires rtt == fast
    ensures Walk(rtt, permit, fast, n) == fast
  {
  }

  // A class that does not fall stays as it is.
  lemma {:induction false} AtRestStays(c: Class, fast: nat, times: seq<nat>, hold: nat)
    requires c.rtt >= fast > 0 && !Falls(c.rtt, c.permit, fast)
    ensures Feed(c, fast, times, hold).rtt == c.rtt && Feed(c, fast, times, hold).permit == c.permit
    ensures Stores(c, fast, times, hold) == 0
    decreases |times|
  {
    if times != [] {
      FallOne(c, fast, times[0], hold);
      AtRestStays(UpdateClass(c, fast, times[0], hold), fast, times[1..], hold);
    }
  }

  // Under a steady fast value, at any times whatever, the class walks one store
  // for every hold the times complete, and keeps its permit until it arrives.
  lemma {:induction false} ClassWalks(c: Class, fast: nat, times: seq<nat>, i: nat, hold: nat)
    requires c.rtt >= fast > 0 && i <= |times|
    ensures var d := Feed(c, fast, times[i..], hold);
            && d.rtt == Walk(c.rtt, c.permit, fast, Holds(c.low, c.accum, times, i, hold))
            && d.rtt >= fast && (d.permit <==> c.permit && (d.rtt > fast || c.rtt == fast))
            && Stores(c, fast, times[i..], hold) <= c.rtt - d.rtt
    decreases |times| - i
  {
    if !Falls(c.rtt, c.permit, fast) {
      AtRestStays(c, fast, times[i..], hold);
    } else if i < |times| {
      var d := UpdateClass(c, fast, times[i], hold);
      assert times[i..][0] == times[i] && times[i..][1..] == times[i + 1..];
      FallOne(c, fast, times[i], hold);
      if d.rtt == fast {
        WalkOnceMet(d.rtt, c.permit, fast, Holds(c.low, c.accum, times, i, hold) - 1);
      }
      ClassWalks(d, fast, times, i + 1, hold);
    }
  }

  lemma OneStoreNearer(rtt: nat, fast: nat)
    requires rtt > fast
    ensures Blend(rtt, fast) >= fast && StoresToMeet(rtt - fast) == 1 + StoresToMeet(Blend(rtt, fast) - fast)
  {
    BlendAbove(rtt, fast);
  }

  lemma StoresOnce(c: Class, fast: nat, times: seq<nat>, i: nat, hold: nat)
    requires i < |times|
    ensures var d := UpdateClass(c, fast, times[i], hold);
            Stores(c, fast, times[i..], hold) == (if d.rtt != c.rtt then 1 else 0) + Stores(d, fast, times[i + 1..], hold)
  {
    assert times[i..][0] == times[i] && times[i..][1..] == times[i + 1..];
  }

  // One store for every completed hold, until the class meets the fast value.
  predicate OneStoreAHold(c: Class, fast: nat, times: seq<nat>, i: nat, hold: nat)
    requires c.rtt >= fast && i <= |times|
  {
    Stores(c, fast, times[i..], hold) == Min(Holds(c.low, c.accum, times, i, hold), StoresToMeet(c.rtt - fast))
  }

  lemma NothingToStore(c: Class, fast: nat, times: seq<nat>, i: nat, hold: nat)
    requires c.rtt >= fast > 0 && i <= |times| && (c.rtt == fast || i == |times|)
    ensures OneStoreAHold(c, fast, times, i, hold)
  {
    if i < |times| {
      AtRestStays(c, fast, times[i..], hold);
    }
  }

  lemma StoreOrHoldOn(c: Class, fast: nat, times: seq<nat>, i: nat, hold: nat)
    requires c.rtt > fast > 0 && c.permit && i < |times|
    ensures var d := UpdateClass(c, fast, times[i], hold);
            && d.rtt >= fast && (d.permit || d.rtt == fast)
            && (OneStoreAHold(d, fast, times, i + 1, hold) ==> OneStoreAHold(c, fast, times, i, hold))
  {
    StoresOnce(c, fast, times, i, hold);
    FallOne(c, fast, times[i], hold);
    OneStoreNearer(c.rtt, fast);
  }

  lemma {:induction false} HoldsAreStores(c: Class, fast: nat, times: seq<nat>, i: nat, hold: nat)
    requires c.rtt >= fast > 0 && (c.permit || c.rtt == fast) && i <= |times|
    ensures OneStoreAHold(c, fast, times, i, hold)
    decreases |times| - i
  {
    if c.rtt == fast || i == |times| {
      NothingToStore(c, fast, times, i, hold);
    } else {
      StoreOrHoldOn(c, fast, times, i, hold);
      HoldsAreStores(UpdateClass(c, fast, times[i], hold), fast, times, i + 1, hold);
    }
  }

  // The class meets a lower fast value exactly when it has the permit and the
  // times complete as many holds as it needs stores; then, and only then, the
  // permit is gone. Every store lowers it, so there are no more of them than
  // microseconds on the way; with the permit there is one for every completed
  // hold until it meets.
  lemma UnwindReachesFastIff(c: Class, fast: nat, times: seq<nat>, hold: nat)
    requires c.rtt > fast > 0
    ensures var d := Feed(c, fast, times, hold);
            && (d.rtt == fast <==> c.permit && Holds(c.low, c.accum, times, 0, hold) >= StoresToMeet(c.rtt - fast))
            && (d.permit <==> c.permit && d.rtt > fast) && d.rtt >= fast
            && Stores(c, fast, times, hold) <= c.rtt - d.rtt <= c.rtt - fast
            && (c.permit ==> Stores(c, fast, times, hold) == Min(Holds(c.low, c.accum, times, 0, hold), StoresToMeet(c.rtt - fast)))
  {
    var n := Holds(c.low, c.accum, times, 0, hold);
    assert times[0..] == times;
    ClassWalks(c, fast, times, 0, hold);
    if c.permit {
      HoldsAreStores(c, fast, times, 0, hold);
      WalkMeetsIff(c.rtt, fast, n);
    } else {
      WalkStops(c.rtt, fast, n);
    }
  }

  // A class without the permit never meets it; given holds enough it stops
  // where it is no longer both 8 ms and a quarter above.
  lemma WithoutPermitItStops(c: Class, fast: nat, times: seq<nat>, hold: nat)
    requires c.rtt > fast > 0 && !c.permit
    ensures var d := Feed(c, fast, times, hold);
            && d.rtt > fast
            && (Holds(c.low, c.accum, times, 0, hold) >= c.rtt - fast ==> !ShouldDrop(d.rtt, fast))
  {
    assert times[0..] == times;
    ClassWalks(c, fast, times, 0, hold);
    WalkStops(c.rtt, fast, Holds(c.low, c.accum, times, 0, hold));
  }

  // Once met, the class stays put.
  lemma MetStaysMet(c: Class, fast: nat, times: seq<nat>, hold: nat)
    requires !c.permit && c.rtt == fast && fast > 0
    ensures Feed(c, fast, times, hold).rtt == fast && !Feed(c, fast, times, hold).permit
  {
    AtRestStays(c, fast, times, hold);
  }

  // ------------------------------------------------------- how many holds

  predicate InOrder(times: seq<nat>) {
    forall i, j :: 0 <= i < j < |times| ==> times[i] <= times[j]
  }

  // Stretches of samples, one after another, each a hold long at least.
  datatype Stretch = Stretch(first: nat, last: nat)

  ghost predicate Stretches(ps: seq<Stretch>, times: seq<nat>, from: nat, hold: nat) {
    && (forall k :: 0 <= k < |ps| ==> from <= ps[k].first <= ps[k].last < |times|)
    && (forall k :: 0 <= k < |ps| ==> times[ps[k].last] - times[ps[k].first] >= hold)
    && (forall k, m :: 0 <= k < m < |ps| ==> ps[k].last < ps[m].first)
  }

  function Credit(low: Option<nat>, accum: nat, now: nat): nat {
    SatSub(now, Since(low, now)) + accum
  }

  predicate Begun(low: Option<nat>, now: nat) {
    low.Some? ==> low.value <= now
  }

  // More low time to begin with is worth no less, and at most one hold.
  lemma {:induction false} MoreCredit(low: Option<nat>, accum: nat, low': Option<nat>, accum': nat, times: seq<nat>, i: nat, hold: nat)
    requires InOrder(times) && i <= |times|
    requires i < |times| ==> Begun(low, times[i]) && Begun(low', times[i]) && Credit(low, accum, times[i]) >= Credit(low', accum', times[i])
    ensures Holds(low, accum, times, i, hold) >= Holds(low', accum', times, i, hold)
    decreases |times| - i, 0
  {
    if i < |times| {
      var t := times[i];
      if Credit(low', accum', t) >= hold {
      } else if Credit(low, accum, t) >= hold {
        OneHoldAtMost(Some(Since(low', t)), accum', times, i + 1, hold);
      } else {
        MoreCredit(Some(Since(low, t)), accum, Some(Since(low', t)), accum', times, i + 1, hold);
      }
    }
  }

  lemma {:induction false} OneHoldAtMost(low: Option<nat>, accum: nat, times: seq<nat>, i: nat, hold: nat)
    requires InOrder(times) && i <= |times| && (i < |times| ==> Begun(low, times[i]))
    ensures Holds(low, accum, times, i, hold) <= 1 + Holds(None, 0, times, i, hold)
    decreases |times| - i, 1
  {
    if i < |times| {
      var t := times[i];
      MoreCredit(Some(t), 0, None, 0, times, i + 1, hold);
      if Credit(low, accum, t) < hold {
        OneHoldAtMost(Some(Since(low, t)), accum, times, i + 1, hold);
      }
    }
  }

  lemma FreshIsLeast(low: Option<nat>, accum: nat, times: seq<nat>, i: nat, hold: nat)
    requires InOrder(times) && i <= |times| && (i < |times| ==> Begun(low, times[i]))
    ensures Holds(None, 0, times, i, hold) <= Holds(low, accum, times, i, hold) <= 1 + Holds(None, 0, times, i, hold)
  {
    MoreCredit(low, accum, None, 0, times, i, hold);
    OneHoldAtMost(low, accum, times, i, hold);
  }

  // Stretches found anywhere among the samples are completed holds ...
  lemma {:induction false} StretchesAreHolds(ps: seq<Stretch>, times: seq<nat>, i: nat, hold: nat)
    requires InOrder(times) && i <= |times| && Stretches(ps, times, i, hold)
    ensures Holds(None, 0, times, i, hold) >= |ps|
    decreases |times| - i, 1
  {
    if ps != [] {
      assert i <= ps[0].first <= ps[0].last < |times|;
      var t := times[i];
      if ps[0].first == i {
        FirstStretchEnds(Some(t), ps[0].last, ps[1..], times, i, hold);
      } else {
        StretchesAreHolds(ps, times, i + 1, hold);
        if hold > 0 {
          MoreCredit(Some(t), 0, None, 0, times, i + 1, hold);
        }
      }
    }
  }

  lemma {:induction false} FirstStretchEnds(low: Option<nat>, last: nat, ps: seq<Stretch>, times: seq<nat>, i: nat, hold: nat)
    requires InOrder(times) && i <= last < |times| && low.Some? && low.value <= times[i] && times[last] - low.value >= hold
    requires Stretches(ps, times, last + 1, hold)
    ensures Holds(low, 0, times, i, hold) >= 1 + |ps|
    decreases |times| - i, 0
  {
    if times[i] - low.value >= hold {
      StretchesAreHolds(ps, times, i + 1, hold);
    } else {
      FirstStretchEnds(low, last, ps, times, i + 1, hold);
    }
  }

  // ... and the completed holds are stretches.
  lemma {:induction false} HoldsAreStretches(times: seq<nat>, i: nat, hold: nat) returns (ps: seq<Stretch>)
    requires InOrder(times) && i <= |times|
    ensures |ps| == Holds(None, 0, times, i, hold) && Stretches(ps, times, i, hold)
    decreases |times| - i, 1
  {
    if i == |times| {
      return [];
    }
    ps := HoldRunning(times, i, i, hold);
  }

  lemma {:induction false} HoldRunning(times: seq<nat>, first: nat, i: nat, hold: nat) returns (ps: seq<Stretch>)
    requires InOrder(times) && first <= i <= |times| && first < |times|
    ensures |ps| == Holds(Some(times[first]), 0, times, i, hold) && Stretches(ps, times, first, hold)
    decreases |times| - i, 0
  {
    if i == |times| {
      return [];
    }
    if times[i] - times[first] >= hold {
      var rest := HoldsAreStretches(times, i + 1, hold);
      ps := [Stretch(first, i)] + rest;
    } else {
      ps := HoldRunning(times, first, i + 1, hold);
    }
  }

  lemma Dropped(ps: seq<Stretch>, n: nat, times: seq<nat>, hold: nat)
    requires n <= |ps| && Stretches(ps, times, 0, hold)
    ensures |ps[..n]| == n && Stretches(ps[..n], times, 0, hold)
  {
  }

  // In terms of the samples alone: as many stretches of a hold as stores are
  // needed are enough, wherever they lie, and with fresh timers they must be there.
  lemma UnwindNeedsStretches(c: Class, fast: nat, times: seq<nat>, hold: nat)
    requires c.rtt > fast > 0 && c.permit && InOrder(times) && (times != [] ==> Begun(c.low, times[0]))
    ensures var n := StoresToMeet(c.rtt - fast);
            var met := Feed(c, fast, times, hold).rtt == fast;
            && ((exists ps :: |ps| == n && Stretches(ps, times, 0, hold)) ==> met)
            && (met ==> exists ps :: |ps| == (if c.low.None? && c.accum == 0 then n else n - 1) && Stretches(ps, times, 0, hold))
  {
    var n := StoresToMeet(c.rtt - fast);
    UnwindReachesFastIff(c, fast, times, hold);
    FreshIsLeast(c.low, c.accum, times, 0, hold);
    if ps :| |ps| == n && Stretches(ps, times, 0, hold) {
      StretchesAreHolds(ps, times, 0, hold);
    }
    if Feed(c, fast, times, hold).rtt == fast {
      var all := HoldsAreStretches(times, 0, hold);
      Dropped(all, if c.low.None? && c.accum == 0 then n else n - 1, times, hold);
    }
  }

  // ---------------------------------------------------- samples close together

  ghost predicate Dense(times: seq<nat>, gap: nat) {
    forall i, j :: 0 <= i && j == i + 1 && j < |times| ==> times[j] <= times[i] + gap
  }

  // n steps laid end to end.
  function Span(n: nat, step: nat): nat {
    if n == 0 then 0 else step + Span(n - 1, step)
  }

  lemma {:induction false} LongEnough(start: nat, times: seq<nat>, i: nat, hold: nat, gap: nat, n: nat)
    requires InOrder(times) && Dense(times, gap) && gap > 0 && i < |times| && n > 0
    requires start <= times[i] <= start + hold + gap
    requires times[|times| - 1] - start >= Span(n, hold + 2 * gap)
    ensures Holds(Some(start), 0, times, i, hold) >= n
    decreases |times| - i
  {
    if times[i] - start < hold {
      LongEnough(start, times, i + 1, hold, gap, n);
    } else if n > 1 {
      var next := times[i + 1];
      assert next <= times[i] + gap;
      LongEnough(next, times, i + 1, hold, gap, n - 1);
    }
  }

  lemma {:induction false} SpanGrows(n: nat, m: nat, step: nat)
    requires n <= m
    ensures Span(n, step) <= Span(m, step)
  {
    if n > 0 {
      SpanGrows(n - 1, m - 1, step);
    }
  }

  // Samples never further apart than `gap`, over a hold and two gaps for every
  // microsecond on the way, or for every store the way takes: they meet.
  lemma UnwindReachesFast(c: Class, fast: nat, times: seq<nat>, hold: nat, gap: nat)
    requires fast > 0 && c.permit && c.rtt > fast
    requires times != [] && InOrder(times) && Dense(times, gap) && gap > 0 && Begun(c.low, times[0])
    requires times[|times| - 1] - times[0] >= Span(StoresToMeet(c.rtt - fast), hold + 2 * gap)
             || times[|times| - 1] - times[0] >= Span(c.rtt - fast, hold + 2 * gap)
    ensures Feed(c, fast, times, hold).rtt == fast && !Feed(c, fast, times, hold).permit
  {
    var n := StoresToMeet(c.rtt - fast);
    SpanGrows(n, c.rtt - fast, hold + 2 * gap);
    LongEnough(times[0], times, 0, hold, gap, n);
    FreshIsLeast(c.low, c.accum, times, 0, hold);
    UnwindReachesFastIff(c, fast, times, hold);
  }

  // ------------------------------------------------------- how many stores

  lemma {:induction false} FewerFromNearer(a: nat, b: nat)
    requires a <= b
    ensures StoresToMeet(a) <= StoresToMeet(b)
    decreases b
  {
    if a > 0 {
      FewerFromNearer(a * 7 / 8, b * 7 / 8);
    }
  }

  function Doubled(n: nat, k: nat): nat {
    if k == 0 then n else 2 * Doubled(n, k - 1)
  }

  lemma OneStore(above: nat)
    ensures 8 * (above * 7 / 8) <= 7 * above && StoresToMeet(above) <= 1 + StoresToMeet(above * 7 / 8)
  {
  }

  lemma ThreeStores(above: nat) returns (left: nat)
    ensures 512 * left <= 343 * above && StoresToMeet(above) <= 3 + StoresToMeet(left)
  {
    OneStore(above);
    left := above * 7 / 8;
    OneStore(left);
    left := left * 7 / 8;
    OneStore(left);
    left := left * 7 / 8;
  }

  // Six stores more than halve the way.
  lemma SixHalve(above: nat)
    ensures StoresToMeet(2 * above) <= 6 + StoresToMeet(above)
  {
    var middle := ThreeStores(2 * above);
    var left := ThreeStores(middle);
    FewerFromNearer(left, above);
  }

  // So a class 8 * 2^k microseconds above takes at most 8 + 6k stores.
  lemma {:induction false} StoresAreLogarithmic(above: nat, k: nat)
    requires above <= Doubled(8, k)
    ensures StoresToMeet(above) <= 8 + 6 * k
    decreases k
  {
    if k > 0 {
      var half := Doubled(8, k - 1);
      FewerFromNearer(above, 2 * half);
      SixHalve(half);
      StoresAreLogarithmic(half, k - 1);
    }
  }

  // -------------------------------------------------- the class by its history

  datatype Fed = Fed(fast: nat, now: nat, hold: nat)

  // What one update saw and whether it moved the class.
  datatype Seen = Seen(now: nat, zone: Zone, stored: bool)

  // Low time up to `now`: from every low sample to the next sample, whatever it
  // is, since the last store, raise-zone sample or start. Neither pauses for
  // neutral samples nor counts them.
  function LowTime(log: seq<Seen>, now: nat): nat
    decreases |log|
  {
    if log == [] then 0
    else
      var p := log[|log| - 1];
      if p.zone == Init || p.zone == High || p.stored then 0
      else LowTime(log[..|log| - 1], p.now) + if p.zone == Low then SatSub(now, p.now) else 0
  }

  // High time up to `now`: since the first of the unbroken row of high samples
  // that were not stores.
  function HighTime(log: seq<Seen>, now: nat): nat
    decreases |log|
  {
    if log == [] then 0
    else
      var p := log[|log| - 1];
      if p.zone != High || p.stored then 0
      else HighTime(log[..|log| - 1], p.now) + SatSub(now, p.now)
  }

  // The class told from the history alone, without timers.
  datatype Reference = Reference(rtt: nat, samples: nat, permit: bool, log: seq<Seen>)

  function RefStep(r: Reference, x: Fed): Reference {
    var zone := ZoneOf(Class(r.rtt, 0, None, None, 0, r.permit), x.fast);
    match zone
    case Init =>
      var known := r.samples + 1 >= INIT_SAMPLES;
      Reference(if known then x.fast else 0, r.samples + 1, known || r.permit, r.log + [Seen(x.now, Init, known)])
    case High =>
      var stored := HighTime(r.log, x.now) >= x.hold;
      Reference(if stored then Blend(r.rtt, x.fast) else r.rtt, r.samples, stored || r.permit, r.log + [Seen(x.now, High, stored)])
    case Low =>
      var stored := LowTime(r.log, x.now) >= x.hold;
      var rtt := if stored then Blend(r.rtt, x.fast) else r.rtt;
      Reference(rtt, r.samples, r.permit && (stored ==> rtt > x.fast), r.log + [Seen(x.now, Low, stored)])
    case Dead => r.(log := r.log + [Seen(x.now, Dead, false)])
  }

  function RefRun(xs: seq<Fed>): Reference
    decreases |xs|
  {
    if xs == [] then Reference(0, 0, false, [])
    else RefStep(RefRun(xs[..|xs| - 1]), xs[|xs| - 1])
  }

  function ClassRun(xs: seq<Fed>): Class
    decreases |xs|
  {
    if xs == [] then NewClass()
    else
      var x := xs[|xs| - 1];
      UpdateClass(ClassRun(xs[..|xs| - 1]), x.fast, x.now, x.hold)
  }

  function LastTime(log: seq<Seen>): nat {
    if log == [] then 0 else log[|log| - 1].now
  }

  // The timers hold exactly the low and high time of the history.
  predicate Agree(c: Class, r: Reference) {
    && c.rtt == r.rtt && c.samples == r.samples && c.permit == r.permit
    && (c.rtt == 0 ==> c.low.None? && c.high.None? && c.accum == 0)
    && TimersTell(c, r.log)
  }

  predicate TimersTell(c: Class, log: seq<Seen>) {
    var last := LastTime(log);
    && (c.low.Some? ==> c.low.value <= last)
    && (c.high.Some? ==> c.high.value <= last)
    && LowTime(log, last) == c.accum + SatSub(last, Since(c.low, last))
    && HighTime(log, last) == SatSub(last, Since(c.high, last))
    && (c.low.Some? <==> log != [] && log[|log| - 1].zone == Low && !log[|log| - 1].stored)
    && (c.high.Some? <==> log != [] && log[|log| - 1].zone == High && !log[|log| - 1].stored)
  }

  lemma TimersTellLater(c: Class, log: seq<Seen>, now: nat)
    requires TimersTell(c, log) && now >= LastTime(log)
    ensures LowTime(log, now) == c.accum + SatSub(now, Since(c.low, now))
    ensures HighTime(log, now) == SatSub(now, Since(c.high, now))
  {
  }

  lemma LogGrows(log: seq<Seen>, s: Seen)
    ensures LastTime(log + [s]) == s.now
    ensures LowTime(log + [s], s.now) == if s.zone == Init || s.zone == High || s.stored then 0 else LowTime(log, s.now)
    ensures HighTime(log + [s], s.now) == if s.zone != High || s.stored then 0 else HighTime(log, s.now)
  {
    assert (log + [s])[..|log|] == log;
  }

  lemma HighTimers(c: Class, log: seq<Seen>, x: Fed)
    requires TimersTell(c, log) && x.now >= LastTime(log)
    ensures TimersTell(OnHigh(c, x.fast, x.now, x.hold), log + [Seen(x.now, High, HighTime(log, x.now) >= x.hold)])
  {
    TimersTellLater(c, log, x.now);
    LogGrows(log, Seen(x.now, High, HighTime(log, x.now) >= x.hold));
  }

  lemma LowTimers(c: Class, log: seq<Seen>, x: Fed)
    requires TimersTell(c, log) && x.now >= LastTime(log)
    ensures TimersTell(OnLow(c, x.fast, x.now, x.hold), log + [Seen(x.now, Low, LowTime(log, x.now) >= x.hold)])
  {
    TimersTellLater(c, log, x.now);
    LogGrows(log, Seen(x.now, Low, LowTime(log, x.now) >= x.hold));
  }

  lemma DeadTimers(c: Class, log: seq<Seen>, now: nat)
    requires TimersTell(c, log) && now >= LastTime(log)
    ensures TimersTell(OnDead(c, now), log + [Seen(now, Dead, false)])
  {
    TimersTellLater(c, log, now);
    LogGrows(log, Seen(now, Dead, false));
  }

  lemma InitTimers(c: Class, log: seq<Seen>, s: Seen)
    requires c.low.None? && c.high.None? && c.accum == 0 && s.zone == Init
    ensures TimersTell(c, log + [s])
  {
    LogGrows(log, s);
  }

  lemma StepAgrees(c: Class, r: Reference, x: Fed)
    requires Agree(c, r) && x.now >= LastTime(r.log)
    ensures Agree(UpdateClass(c, x.fast, x.now, x.hold), RefStep(r, x))
    ensures LastTime(RefStep(r, x).log) == x.now
  {
    TimersTellLater(c, r.log, x.now);
    match ZoneOf(c, x.fast)
    case Init => InitTimers(OnInit(c, x.fast), r.log, Seen(x.now, Init, r.samples + 1 >= INIT_SAMPLES));
    case High => HighTimers(c, r.log, x);
    case Low => LowTimers(c, r.log, x);
    case Dead => DeadTimers(c, r.log, x.now);
  }

  predicate InTimeOrder(xs: seq<Fed>) {
    forall i, j :: 0 <= i < j < |xs| ==> xs[i].now <= xs[j].now
  }

  // The running class is the one its history tells: it falls exactly after a
  // hold of low time since the last store or raise-zone sample, and rises
  // exactly after a hold of unbroken high time.
  lemma {:induction false} ClassFollowsHistory(xs: seq<Fed>)
    requires InTimeOrder(xs)
    ensures Agree(ClassRun(xs), RefRun(xs))
    ensures LastTime(RefRun(xs).log) == if xs == [] then 0 else xs[|xs| - 1].now
    decreases |xs|
  {
    if xs != [] {
      var n := |xs| - 1;
      ClassFollowsHistory(xs[..n]);
      StepAgrees(ClassRun(xs[..n]), RefRun(xs[..n]), xs[n]);
    }
  }

  // ------------------------------------------------- the stable RTT likewise

  // The timeout RTT by its history: it follows lower samples down by a quarter,
  // and rises only while samples stay high for at least the hold.
  datatype StableRef = StableRef(fast: nat, stable: nat, log: seq<Seen>)

  function StableStep(r: StableRef, x: Sample): StableRef {
    var fast := Fast(r.fast, x.rtt);
    if r.stable == 0 then StableRef(fast, x.rtt, r.log + [Seen(x.now, Init, true)])
    else if x.rtt < r.stable then StableRef(fast, (r.stable * 3 + x.rtt) / 4, r.log + [Seen(x.now, Low, true)])
    else if !Raises(r.stable, fast) then StableRef(fast, r.stable, r.log + [Seen(x.now, Dead, false)])
    else
      var held := HighTime(r.log, x.now) >= x.hold;
      StableRef(fast, if held then Blend(r.stable, fast) else r.stable, r.log + [Seen(x.now, High, false)])
  }

  function StableRun(samples: seq<Sample>): StableRef
    decreases |samples|
  {
    if samples == [] then StableRef(0, 0, []) else StableStep(StableRun(samples[..|samples| - 1]), samples[|samples| - 1])
  }

  predicate StableTells(e: Estimates, r: StableRef) {
    var last := LastTime(r.log);
    && e.fast == r.fast && e.stable == r.stable
    && (e.stable == 0 ==> e.highSince.None?)
    && (e.highSince.Some? ==> e.highSince.value <= last)
    && HighTime(r.log, last) == SatSub(last, Since(e.highSince, last))
    && (e.highSince.Some? <==> r.log != [] && r.log[|r.log| - 1].zone == High && !r.log[|r.log| - 1].stored)
  }

  lemma StableStepTells(e: Estimates, r: StableRef, x: Sample)
    requires StableTells(e, r) && x.now >= LastTime(r.log)
    ensures StableTells(Record(e, x.rtt, x.now, x.hold), StableStep(r, x))
    ensures LastTime(StableStep(r, x).log) == x.now
  {
    var seen := StableStep(r, x).log[|r.log|];
    assert StableStep(r, x).log == r.log + [seen];
    LogGrows(r.log, seen);
    assert HighTime(r.log, x.now) == SatSub(x.now, Since(e.highSince, x.now));
  }

  lemma {:induction false} StableFollowsHistory(samples: seq<Sample>)
    requires forall i, j :: 0 <= i < j < |samples| ==> samples[i].now <= samples[j].now
    ensures StableTells(RecordAll(NewEstimates(), samples), StableRun(samples))
    ensures LastTime(StableRun(samples).log) == if samples == [] then 0 else samples[|samples| - 1].now
    decreases |samples|
  {
    if samples != [] {
      var n := |samples| - 1;
      StableFollowsHistory(samples[..n]);
      StableStepTells(RecordAll(NewEstimates(), samples[..n]), StableRun(samples[..n]), samples[n]);
    }
  }

  // The fast value after each sample, as the class sees them.
  function FastValues(samples: seq<Sample>): seq<Fed>
    decreases |samples|
  {
    if samples == [] then []
    else
      var front, x := samples[..|samples| - 1], samples[|samples| - 1];
      var before := FastValues(front);
      before + [Fed(Fast(if before == [] then 0 else before[|before| - 1].fast, x.rtt), x.now, x.hold)]
  }

  // Every sample moves the fast value, and every fast value reaches the class: so
  // the class of a path is the one its samples' history tells.
  lemma {:induction false} ClassSeesEveryFast(samples: seq<Sample>)
    ensures var e, xs := RecordAll(NewEstimates(), samples), FastValues(samples);
            && |xs| == |samples| && e.classRtt == ClassRun(xs)
            && e.fast == if xs == [] then 0 else xs[|xs| - 1].fast
    decreases |samples|
  {
    if samples != [] {
      var n := |samples| - 1;
      ClassSeesEveryFast(samples[..n]);
      var xs := FastValues(samples);
      assert xs[..n] == FastValues(samples[..n]);
    }
  }

  // ------------------------------------------------------- in microseconds

  // n parts of the old value and m of the new one, rounded down.
  predicate Mixes(r: nat, n: nat, old_: nat, m: nat, new_: nat) {
    (n + m) * r <= n * old_ + m * new_ < (n + m) * (r + 1)
  }

  // More than double, and more than 15 ms over it.
  predicate FarAbove(fast: nat, base: nat) {
    fast > 2 * base && fast > base + 15000
  }

  // Below it by 8 ms and a quarter of it.
  predicate FarBelow(fast: nat, base: nat) {
    fast + 8000 <= base && fast + base / 4 <= base
  }

  // The fast estimate takes the first sample as it is, then a fifth of each.
  lemma FastTakesAFifth(before: nat, sample: nat)
    ensures before == 0 ==> Fast(before, sample) == sample
    ensures before != 0 ==> Mixes(Fast(before, sample), 8, before, 2, sample)
  {
  }

  // The stable one takes a quarter of a lower sample at once; of a higher fast
  // value it takes an eighth, but only far above it and only after a hold there.
  lemma StableMoves(e: Estimates, sample: nat, now: nat, hold: nat)
    ensures var t := Record(e, sample, now, hold);
            var since := if e.highSince.Some? then e.highSince.value else now;
            && t.fast == Fast(e.fast, sample)
            && (if e.stable == 0 then t.stable == sample && t.highSince == e.highSince
                else if sample < e.stable then Mixes(t.stable, 3, e.stable, 1, sample) && t.highSince.None?
                else if FarAbove(t.fast, e.stable) then
                  && t.highSince == Some(since)
                  && (if hold == 0 || now - since >= hold then Mixes(t.stable, 7, e.stable, 1, t.fast) else t.stable == e.stable)
                else t.stable == e.stable && t.highSince.None?)
  {
  }

  // What a fast value is to a known class: far above it, or far below it or just
  // below it with the permit, or neither.
  lemma ZonesAre(c: Class, fast: nat)
    requires c.rtt != 0
    ensures ZoneOf(c, fast) == High <==> FarAbove(fast, c.rtt)
    ensures ZoneOf(c, fast) == Low <==> FarBelow(fast, c.rtt) || (c.permit && fast < c.rtt)
    ensures ZoneOf(c, fast) == Init <==> false
  {
  }

  // A store takes an eighth of the fast value; one from below gives the permit,
  // one from above takes it away when the class has come down to the fast value.
  lemma StoreTakesAnEighth(c: Class, fast: nat, now: nat, hold: nat)
    requires c.rtt != 0 && UpdateClass(c, fast, now, hold).rtt != c.rtt
    ensures var t := UpdateClass(c, fast, now, hold);
            && Mixes(t.rtt, 7, c.rtt, 1, fast)
            && (if fast > c.rtt then FarAbove(fast, c.rtt) && t.permit else t.permit == (c.permit && t.rtt > fast))
  {
  }

  // The class is unknown for seven samples and the eighth fast value is it, with
  // the permit to come down again.
  lemma {:induction false} EighthSampleFreezes(xs: seq<Fed>)
    requires |xs| <= 8 && forall i :: 0 <= i < |xs| ==> xs[i].fast > 0
    ensures var c := ClassRun(xs);
            if |xs| < 8 then c == Class(0, |xs|, None, None, 0, false)
            else c == Class(xs[7].fast, 8, None, None, 0, true)
    decreases |xs|
  {
    if xs != [] {
      EighthSampleFreezes(xs[..|xs| - 1]);
    }
  }
}
