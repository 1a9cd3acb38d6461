// The shared rate limit in front of a link and the ordered wire behind it
// (crates/nya-e2e/src/packet_wan.rs). Times are nanoseconds, rates bits per second.
module Bottleneck {
  import opened Common

  const NANOS: nat := 1_000_000_000

  // A packet handed to the bottleneck: when, how long, and the link's settings
  // at that moment.
  datatype Arrival = Arrival(now: nat, bytes: nat, rate: nat, queueMax: nat)

  datatype Verdict =
    | Unlimited
    | Departs(at: nat)
    | Dropped

  function SerTime(bytes: nat, rate: nat): nat
    requires rate > 0
  {
    bytes * 8 * NANOS / rate
  }

  function Start(nextFree: Option<nat>, now: nat): (t: nat)
    ensures t >= now && (nextFree.Some? ==> t >= nextFree.value)
  {
    if nextFree.Some? && nextFree.value > now then nextFree.value else now
  }

  // Bytes still to be serialised before a packet that arrives now.
  function Backlog(nextFree: Option<nat>, a: Arrival): nat {
    (Start(nextFree, a.now) - a.now) * a.rate / 8 / NANOS
  }

  function Depart(nextFree: Option<nat>, a: Arrival): (Option<nat>, Verdict) {
    if a.rate == 0 then (nextFree, Unlimited)
    else if a.queueMax != 0 && Backlog(nextFree, a) + a.bytes > a.queueMax then (nextFree, Dropped)
    else
      var at := Start(nextFree, a.now) + SerTime(a.bytes, a.rate);
      (Some(at), Departs(at))
  }

  class Queue {
    var nextFree: Option<nat>

    constructor ()
      ensures nextFree == None
    {
      nextFree := None;
    }

    method Admit(a: Arrival) returns (v: Verdict)
      modifies this
      ensures (nextFree, v) == Depart(old(nextFree), a)
    {
      if a.rate == 0 {
        return Unlimited;
      }
      var start := if nextFree.Some? && nextFree.value > a.now then nextFree.value else a.now;
      var backlog := (start - a.now) * a.rate / 8 / NANOS;
      if a.queueMax != 0 && backlog + a.bytes > a.queueMax {
        return Dropped;
      }
      var at := start + SerTime(a.bytes, a.rate);
      nextFree := Some(at);
      return Departs(at);
    }
  }

  // ----------------------------------------------------------- whole runs

  function Verdicts(nextFree: Option<nat>, arrivals: seq<Arrival>): (r: seq<Verdict>)
    ensures |r| == |arrivals|
    decreases |arrivals|
  {
    if arrivals == [] then []
    else
      var (q, v) := Depart(nextFree, arrivals[0]);
      [v] + Verdicts(q, arrivals[1..])
  }

  // Line time of the k-th packet, if it was accepted under a limit.
  function Service(arrivals: seq<Arrival>, verdicts: seq<Verdict>, k: nat): nat
    requires k < |arrivals| == |verdicts|
  {
    if verdicts[k].Departs? && arrivals[k].rate > 0 then SerTime(arrivals[k].bytes, arrivals[k].rate) else 0
  }

  // Line time of the accepted packets lo, ..., hi - 1.
  function LineTime(arrivals: seq<Arrival>, verdicts: seq<Verdict>, lo: nat, hi: nat): nat
    requires lo <= hi <= |arrivals| == |verdicts|
    decreases hi - lo
  {
    if lo == hi then 0 else Service(arrivals, verdicts, lo) + LineTime(arrivals, verdicts, lo + 1, hi)
  }

  lemma {:induction false} LineTimeShift(arrivals: seq<Arrival>, verdicts: seq<Verdict>, lo: nat, hi: nat)
    requires 1 <= lo <= hi <= |arrivals| == |verdicts|
    ensures LineTime(arrivals, verdicts, lo, hi) == LineTime(arrivals[1..], verdicts[1..], lo - 1, hi - 1)
    decreases hi - lo
  {
    if lo < hi {
      LineTimeShift(arrivals, verdicts, lo + 1, hi);
    }
  }

  lemma {:induction false} ServedAfter(free: nat, arrivals: seq<Arrival>, j: nat)
    requires j < |arrivals| && Verdicts(Some(free), arrivals)[j].Departs?
    ensures Verdicts(Some(free), arrivals)[j].at >=
            free + LineTime(arrivals, Verdicts(Some(free), arrivals), 0, j + 1)
    decreases j
  {
    var (q, v) := Depart(Some(free), arrivals[0]);
    var vs := Verdicts(Some(free), arrivals);
    assert vs[1..] == Verdicts(q, arrivals[1..]);
    LineTimeShift(arrivals, vs, 1, j + 1);
    if j > 0 {
      ServedAfter(q.value, arrivals[1..], j - 1);
    }
  }

  // The bottleneck shapes every run: two accepted packets leave at least as far
  // apart as the line needs for everything accepted after the first.
  lemma {:induction false} DeparturesAreSpaced(nextFree: Option<nat>, arrivals: seq<Arrival>, i: nat, j: nat)
    requires i < j < |arrivals|
    requires Verdicts(nextFree, arrivals)[i].Departs? && Verdicts(nextFree, arrivals)[j].Departs?
    ensures var vs := Verdicts(nextFree, arrivals);
            vs[j].at >= vs[i].at + LineTime(arrivals, vs, i + 1, j + 1)
    decreases i
  {
    var (q, v) := Depart(nextFree, arrivals[0]);
    var vs := Verdicts(nextFree, arrivals);
    var tail := Verdicts(q, arrivals[1..]);
    assert vs[1..] == tail && vs[j] == tail[j - 1];
    LineTimeShift(arrivals, vs, i + 1, j + 1);
    if i == 0 {
      ServedAfter(q.value, arrivals[1..], j - 1);
    } else {
      assert vs[i] == tail[i - 1];
      DeparturesAreSpaced(q, arrivals[1..], i - 1, j - 1);
    }
  }

  // The byte limit is a delay limit: an accepted packet has left before
  // `queueMax + 1` bytes of line time have passed.
  lemma QueueLimitBoundsDelay(nextFree: Option<nat>, a: Arrival)
    requires a.queueMax != 0 && Depart(nextFree, a).1.Departs?
    ensures (Depart(nextFree, a).1.at - a.now) * a.rate < (a.queueMax + 1) * 8 * NANOS
  {
    var wait, ser := Start(nextFree, a.now) - a.now, SerTime(a.bytes, a.rate);
    assert wait * a.rate < (Backlog(nextFree, a) + 1) * 8 * NANOS;
    assert ser * a.rate <= a.bytes * 8 * NANOS by {
      var w := a.bytes * 8 * NANOS;
      assert w == a.rate * (w / a.rate) + w % a.rate;
    }
    assert (wait + ser) * a.rate == wait * a.rate + ser * a.rate;
  }

  // The bits still to go out before a packet that arrives now, and the packet
  // itself, must fit the queue to the byte; then it leaves as soon as the line
  // has sent both. Without a rate, nothing is held back.
  lemma AdmittedIff(nextFree: Option<nat>, a: Arrival)
    ensures var (q, v) := Depart(nextFree, a);
            var wait := if nextFree.Some? && nextFree.value > a.now then nextFree.value - a.now else 0;
            && (v.Unlimited? <==> a.rate == 0)
            && (a.rate > 0 ==>
                  (v.Departs? <==> a.queueMax == 0 || (a.bytes <= a.queueMax && wait * a.rate < (a.queueMax - a.bytes + 1) * 8_000_000_000)))
            && (v.Departs? ==> q == Some(v.at) && v.at >= a.now + wait
                               && (v.at - a.now - wait) * a.rate <= a.bytes * 8_000_000_000 < (v.at - a.now - wait + 1) * a.rate)
            && (!v.Departs? ==> q == nextFree)
  {
    var wait := Start(nextFree, a.now) - a.now;
    if a.rate > 0 {
      BytesIn(wait * a.rate);
      WholeTimes(a.bytes * 8 * NANOS, a.rate);
    }
  }

  lemma BytesIn(bits: nat)
    ensures forall n: nat :: bits / 8 / NANOS >= n <==> bits >= n * 8 * NANOS
  {
  }

  lemma WholeTimes(a: nat, d: nat)
    requires d > 0
    ensures a / d * d <= a < (a / d + 1) * d
  {
    assert a == d * (a / d) + a % d;
  }

  // ----------------------------------------------------------------- the wire

  // Packets queued as (arrival time, insertion number); the least one is next.
  datatype Wire = Wire(heap: set<(nat, nat)>, inserted: nat, emitted: seq<nat>)

  datatype WireEvent = Insert(at: nat) | Emit

  predicate Before(a: (nat, nat), b: (nat, nat)) {
    a.0 < b.0 || (a.0 == b.0 && a.1 <= b.1)
  }

  ghost predicate IsFirst(heap: set<(nat, nat)>, x: (nat, nat)) {
    x in heap && forall y :: y in heap ==> Before(x, y)
  }

  lemma {:induction false} FirstExists(heap: set<(nat, nat)>)
    requires heap != {}
    ensures exists x :: IsFirst(heap, x)
  {
    var x :| x in heap;
    if heap == {x} {
      assert IsFirst(heap, x);
    } else {
      FirstExists(heap - {x});
      var y :| IsFirst(heap - {x}, y);
      assert heap == {x} + (heap - {x});
      assert IsFirst(heap, if Before(x, y) then x else y);
    }
  }

  ghost function WireStep(w: Wire, e: WireEvent): Wire {
    match e
    case Insert(at) => Wire(w.heap + {(at, w.inserted)}, w.inserted + 1, w.emitted)
    case Emit =>
      if w.heap == {} then w
      else
        FirstExists(w.heap);
        var x :| IsFirst(w.heap, x);
        Wire(w.heap - {x}, w.inserted, w.emitted + [x.1])
  }

  ghost function WireRun(events: seq<WireEvent>): Wire {
    if events == [] then Wire({}, 0, [])
    else WireStep(WireRun(events[..|events| - 1]), events[|events| - 1])
  }

  function Times(events: seq<WireEvent>): seq<nat> {
    if events == [] then []
    else
      var last := events[|events| - 1];
      Times(events[..|events| - 1]) + (if last.Insert? then [last.at] else [])
  }

  predicate Nondecreasing(ts: seq<nat>) {
    forall i, j :: 0 <= i < j < |ts| ==> ts[i] <= ts[j]
  }

  ghost predicate InOrder(w: Wire, ts: seq<nat>) {
    && w.inserted == |ts| && |w.emitted| <= |ts|
    && (forall i :: 0 <= i < |w.emitted| ==> w.emitted[i] == i)
    && w.heap == set i | |w.emitted| <= i < |ts| :: (ts[i], i)
  }

  // When arrival times never go backwards (a FIFO bottleneck followed by a
  // constant delay), the wire hands packets over in the order they were sent.
  lemma {:induction false} WireKeepsOrder(events: seq<WireEvent>)
    requires Nondecreasing(Times(events))
    ensures InOrder(WireRun(events), Times(events))
  {
    if events != [] {
      var before := events[..|events| - 1];
      var ts := Times(before);
      assert Times(events)[..|ts|] == ts;
      assert Nondecreasing(ts) by {
        forall i, j | 0 <= i < j < |ts|
          ensures ts[i] <= ts[j]
        {
          assert Times(events)[i] <= Times(events)[j];
        }
      }
      WireKeepsOrder(before);
      var w := WireRun(before);
      if events[|events| - 1].Emit? && w.heap != {} {
        var m := |w.emitted|;
        assert (ts[m], m) in w.heap;
      }
    }
  }

  // When the packets handed to the wire are due at the far end.
  function DueTimes(nextFree: Option<nat>, arrivals: seq<Arrival>, delay: nat): seq<nat>
    decreases |arrivals|
  {
    if arrivals == [] then []
    else
      var (q, v) := Depart(nextFree, arrivals[0]);
      var due :=
        match v
        case Unlimited => [arrivals[0].now + delay]
        case Departs(at) => [at + delay]
        case Dropped => [];
      due + DueTimes(q, arrivals[1..], delay)
  }

  lemma {:induction false} LimitedTimesNeverDecrease(nextFree: Option<nat>, arrivals: seq<Arrival>, delay: nat)
    requires forall a :: a in arrivals ==> a.rate > 0
    ensures Nondecreasing(DueTimes(nextFree, arrivals, delay))
    ensures nextFree.Some? ==> forall t :: t in DueTimes(nextFree, arrivals, delay) ==> t >= nextFree.value + delay
    decreases |arrivals|
  {
    if arrivals != [] {
      var (q, v) := Depart(nextFree, arrivals[0]);
      LimitedTimesNeverDecrease(q, arrivals[1..], delay);
      if v.Departs? {
        var rest := DueTimes(q, arrivals[1..], delay);
        assert forall k :: 0 <= k < |rest| ==> rest[k] in rest;
        assert DueTimes(nextFree, arrivals, delay) == [v.at + delay] + rest;
      }
    }
  }

  // A rate-limited link with a constant one-way delay never reorders.
  lemma LimitedLinkKeepsOrder(arrivals: seq<Arrival>, delay: nat, events: seq<WireEvent>)
    requires forall a :: a in arrivals ==> a.rate > 0
    requires Times(events) == DueTimes(None, arrivals, delay)
    ensures InOrder(WireRun(events), DueTimes(None, arrivals, delay))
  {
    LimitedTimesNeverDecrease(None, arrivals, delay);
    WireKeepsOrder(events);
  }
}
