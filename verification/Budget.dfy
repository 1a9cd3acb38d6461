// The per-path send budget (crates/nya-core/src/path.rs).
//
// The float factors are exact fractions: a step is bw >= 23/20 full, a sag is
// bw < 17/20 full, a kept probe is bw >= 43/40 full, growth is 3/2, a probe 5/4.
module Budget {
  import opened Common
  import opened MinMax

  const MIN_RTT_WIN: nat := 10_000_000
  const FULL_ROUNDS: nat := 3
  const PROBE_EVERY: nat := 4
  const IDLE_SHRINK: nat := 8
  const CAP_GAIN: nat := 3
  const UNKNOWN_RTT: nat := 20_000
  const INFLIGHT_BIAS: nat := 65_536

  // `full` is bw_full, `pending` the rate of an as yet unconfirmed step round.
  datatype State = State(
    floor: nat,
    ceil: nat,
    budget: nat,
    roundStart: nat,
    roundDelivered: nat,
    full: nat,
    pending: nat,
    lastBw: nat,
    limited: bool,
    flat: nat,
    sag: nat,
    idle: nat,
    probeFrom: nat,
    bwMax: Slots,
    bwFilter: Slots)

  // What one acknowledgement sample brings: its rate and filter window, the
  // clock, the bytes delivered so far, the fresh loop time and the floor RTT.
  datatype Sample = Sample(rate: nat, win: nat, now: nat, delivered: nat, loop: Option<nat>, minRtt: Option<nat>)

  function Init(floor: nat, ceil: nat): State {
    State(floor, ceil, INFLIGHT_BIAS, 0, 0, 0, 0, 0, false, 0, 0, 0, 0, EMPTY, EMPTY)
  }

  // Average rate of `bytes` over the time since `start`.
  function Rate(bytes: nat, start: nat, now: nat): nat {
    bytes * 1_000_000 / Max(SatSub(now, start), 1)
  }

  // Bytes a rate carries in one loop.
  function PerLoop(rate: nat, loop: nat): nat {
    rate * loop / 1_000_000
  }

  // The allowance ceiling: three loops of the best confirmed rate, within the fixed one.
  function Lid(floor: nat, ceil: nat, best: nat, minRtt: Option<nat>): (lid: nat)
    ensures floor <= lid <= Max(ceil, floor)
    ensures minRtt.Some? && best > 0 ==> lid <= Max(floor, PerLoop(best, minRtt.value) * CAP_GAIN)
  {
    var top := Max(ceil, floor);
    var cap := if minRtt.Some? && best > 0 then Max(PerLoop(best, minRtt.value) * CAP_GAIN, floor) else top;
    Max(Min(top, cap), floor)
  }

  function RoundRate(s: State, x: Sample): nat {
    Rate(SatSub(x.delivered, s.roundDelivered), s.roundStart, x.now)
  }

  // The ceiling filter is fed the lower of two consecutive rounds.
  function Confirmed(s: State, x: Sample): nat {
    if s.lastBw == 0 then RoundRate(s, x) else Min(RoundRate(s, x), s.lastBw)
  }

  function NewBwMax(s: State, x: Sample): Slots {
    Update(s.bwMax, Confirmed(s, x), x.now, MIN_RTT_WIN)
  }

  function RoundCeil(s: State, x: Sample): nat {
    Lid(s.floor, s.ceil, NewBwMax(s, x).s0.v, x.minRtt)
  }

  function LoopOf(x: Sample): nat {
    if x.loop.Some? then x.loop.value else 0
  }

  function Carried(s: State, x: Sample): nat {
    PerLoop(RoundRate(s, x), LoopOf(x))
  }

  predicate StepNow(full: nat, bw: nat) {
    20 * bw >= 23 * full
  }

  predicate ProbeKept(full: nat, bw: nat) {
    40 * bw >= 43 * full
  }

  // How a round's rate compares with bw_full; a step needs two rounds in a row.
  datatype Verdict = Step | FirstStep | Sag | Flat

  function Judge(full: nat, pending: nat, bw: nat): Verdict {
    if StepNow(full, bw) then if pending != 0 then Step else FirstStep
    else if full > 0 && 20 * bw < 17 * full then Sag
    else Flat
  }

  function VerdictOf(s: State, x: Sample): Verdict {
    Judge(s.full, s.pending, RoundRate(s, x))
  }

  // The bookkeeping every round does before it decides.
  function Opened(s: State, x: Sample): State {
    s.(roundStart := x.now, roundDelivered := x.delivered, lastBw := RoundRate(s, x), limited := false,
       pending := if VerdictOf(s, x) == FirstStep then RoundRate(s, x) else 0,
       probeFrom := 0, bwMax := NewBwMax(s, x))
  }

  // Three sagging rounds in a row: start again from the level seen now.
  function Rearmed(o: State, bw: nat, cur: nat, carried: nat): State {
    o.(full := bw, pending := 0, flat := 0, sag := 0, idle := 0, budget := Max(Min(cur, carried * 2), o.floor))
  }

  function Judged(o: State, v: Verdict, bw: nat, waiting: nat): State {
    match v
    case Step => o.(full := Min(bw, waiting), flat := 0, sag := 0)
    case FirstStep => o.(sag := 0)
    case Sag => o.(sag := o.sag + 1)
    case Flat => o.(sag := 0)
  }

  // A round in which a sender found no room here; `tried` is the allowance to
  // fall back to when the round before was a probe.
  function LimitedRound(j: State, v: Verdict, tried: nat, kept: bool, bw: nat, cur: nat): State {
    if tried != 0 then
      if kept then j.(idle := 0, full := bw, flat := 0, budget := cur)
      else j.(idle := 0, budget := tried)
    else if v == Step then j.(idle := 0, budget := cur * 3 / 2)
    else if v == FirstStep then j.(idle := 0, budget := cur)
    else if j.flat + 1 >= FULL_ROUNDS && (j.flat + 1 - FULL_ROUNDS) % PROBE_EVERY == 0 then
      j.(idle := 0, flat := j.flat + 1, probeFrom := cur, budget := cur * 5 / 4)
    else
      j.(idle := 0, flat := j.flat + 1, budget := cur)
  }

  function IdleRound(j: State, cur: nat, carried: nat): State {
    j.(idle := j.idle + 1, budget := if j.idle + 1 >= IDLE_SHRINK then Max(Min(cur, carried * 2), j.floor) else cur)
  }

  // What the opened round `o` decides, given what the round before left behind.
  function Decided(o: State, v: Verdict, limited: bool, waiting: nat, tried: nat, kept: bool,
                   bw: nat, cur: nat, carried: nat): State {
    if v == Sag && o.sag + 1 >= FULL_ROUNDS then Rearmed(o, bw, cur, carried)
    else
      var j := Judged(o, v, bw, waiting);
      if limited then LimitedRound(j, v, tried, kept, bw, cur) else IdleRound(j, cur, carried)
  }

  function Unclamped(s: State, x: Sample): State {
    var bw := RoundRate(s, x);
    Decided(Opened(s, x), VerdictOf(s, x), s.limited, s.pending, s.probeFrom, ProbeKept(s.full, bw), bw,
            Clamp(s.budget, s.floor, RoundCeil(s, x)), Carried(s, x))
  }

  function EndRound(s: State, x: Sample): State {
    var u := Unclamped(s, x);
    u.(budget := Clamp(u.budget, s.floor, RoundCeil(s, x)))
  }

  // The filter had run empty: restart from the floor.
  function Restarted(s: State, x: Sample): State {
    s.(budget := s.floor, roundStart := x.now, roundDelivered := x.delivered, full := 0, pending := 0,
       lastBw := 0, limited := false, flat := 0, sag := 0, idle := 0, probeFrom := 0)
  }

  function RoundLength(x: Sample): nat {
    Max(if x.loop.Some? then x.loop.value else if x.minRtt.Some? then x.minRtt.value else UNKNOWN_RTT, 1)
  }

  datatype Kind = Restart | WithinRound | RoundEnd

  function KindOf(s: State, x: Sample): Kind {
    if Get(s.bwFilter, x.now, x.win) == 0 then Restart
    else if SatSub(x.now, s.roundStart) < RoundLength(x) then WithinRound
    else RoundEnd
  }

  function NoteSample(s: State, x: Sample): State {
    var f := s.(bwFilter := Update(s.bwFilter, x.rate, x.now, x.win));
    match KindOf(s, x)
    case Restart => Restarted(f, x)
    case WithinRound => f
    case RoundEnd => EndRound(f, x)
  }

  class Controller {
    const floor: nat
    const ceil: nat
    var budget: nat
    var roundStart: nat
    var roundDelivered: nat
    var full: nat
    var pending: nat
    var lastBw: nat
    var limited: bool
    var flat: nat
    var sag: nat
    var idle: nat
    var probeFrom: nat
    const bwMax: MinMax3
    const bwFilter: MinMax3

    ghost predicate Valid()
    {
      bwMax != bwFilter
    }

    ghost function View(): State
      reads this, bwMax, bwFilter
    {
      State(floor, ceil, budget, roundStart, roundDelivered, full, pending, lastBw, limited, flat, sag, idle,
            probeFrom, bwMax.State(), bwFilter.State())
    }

    constructor (floor: nat, ceil: nat)
      ensures Valid() && fresh(bwMax) && fresh(bwFilter) && View() == Init(floor, ceil)
    {
      this.floor, this.ceil := floor, ceil;
      budget := INFLIGHT_BIAS;
      roundStart, roundDelivered, full, pending, lastBw := 0, 0, 0, 0, 0;
      limited, flat, sag, idle, probeFrom := false, 0, 0, 0, 0;
      bwMax := new MinMax3();
      bwFilter := new MinMax3();
    }

    method NoteLimited()
      modifies `limited
      ensures View() == old(View()).(limited := true)
    {
      limited := true;
    }

    method Note(x: Sample)
      requires Valid()
      modifies this, bwMax, bwFilter
      ensures View() == NoteSample(old(View()), x)
    {
      var was := bwFilter.Read(x.now, x.win);
      var _ := bwFilter.Record(x.rate, x.now, x.win);
      if was == 0 {
        budget, roundStart, roundDelivered := floor, x.now, x.delivered;
        pending, lastBw, full := 0, 0, 0;
        limited, flat, sag, idle, probeFrom := false, 0, 0, 0, 0;
      } else if SatSub(x.now, roundStart) >= RoundLength(x) {
        FinishRound(x);
      }
    }

    // The bookkeeping every round does first: its rate, and the lid it sets.
    method OpenRound(x: Sample) returns (bw: nat, lid: nat)
      requires Valid()
      modifies this, bwMax
      ensures Valid() && View() == Opened(old(View()), x) && bw == RoundRate(old(View()), x) && lid == RoundCeil(old(View()), x)
    {
      bw := Rate(SatSub(x.delivered, roundDelivered), roundStart, x.now);
      var confirmed := if lastBw == 0 then bw else Min(bw, lastBw);
      var best := bwMax.Record(confirmed, x.now, MIN_RTT_WIN);
      lid := Lid(floor, ceil, best, x.minRtt);
      var v := Judge(full, pending, bw);
      roundStart, roundDelivered, lastBw, limited, probeFrom := x.now, x.delivered, bw, false, 0;
      pending := if v == FirstStep then bw else 0;
    }

    method FinishRound(x: Sample)
      requires Valid()
      modifies this, bwMax
      ensures View() == EndRound(old(View()), x)
    {
      var wasLimited, waiting, tried := limited, pending, probeFrom;
      var before, reference := budget, full;
      var bw, lid := OpenRound(x);
      var v := Judge(reference, waiting, bw);
      Decide(v, wasLimited, waiting, tried, ProbeKept(reference, bw), bw, Clamp(before, floor, lid), PerLoop(bw, LoopOf(x)));
      budget := Clamp(budget, floor, lid);
    }

    method Decide(v: Verdict, wasLimited: bool, waiting: nat, tried: nat, kept: bool, bw: nat, cur: nat, carried: nat)
      modifies `full, `pending, `flat, `sag, `idle, `budget, `probeFrom
      ensures View() == Decided(old(View()), v, wasLimited, waiting, tried, kept, bw, cur, carried)
    {
      if v == Sag && sag + 1 >= FULL_ROUNDS {
        full := bw;
        pending, flat, sag, idle := 0, 0, 0, 0;
        budget := Max(Min(cur, carried * 2), floor);
        return;
      }
      ApplyVerdict(v, bw, waiting);
      if wasLimited {
        FinishLimited(v, tried, kept, bw, cur);
      } else {
        idle := idle + 1;
        budget := if idle >= IDLE_SHRINK then Max(Min(cur, carried * 2), floor) else cur;
      }
    }

    method ApplyVerdict(v: Verdict, bw: nat, waiting: nat)
      modifies `full, `flat, `sag
      ensures View() == Judged(old(View()), v, bw, waiting)
    {
      match v
      case Step =>
        full := Min(bw, waiting);
        flat, sag := 0, 0;
      case FirstStep => sag := 0;
      case Sag => sag := sag + 1;
      case Flat => sag := 0;
    }

    method FinishLimited(v: Verdict, tried: nat, kept: bool, bw: nat, cur: nat)
      modifies `idle, `full, `flat, `probeFrom, `budget
      ensures View() == LimitedRound(old(View()), v, tried, kept, bw, cur)
    {
      idle := 0;
      if tried != 0 {
        if kept {
          full := bw;
          flat := 0;
          budget := cur;
        } else {
          budget := tried;
        }
      } else if v == Step {
        budget := cur * 3 / 2;
      } else if v == FirstStep {
        budget := cur;
      } else {
        flat := flat + 1;
        if flat >= FULL_ROUNDS && (flat - FULL_ROUNDS) % PROBE_EVERY == 0 {
          probeFrom := cur;
          budget := cur * 5 / 4;
        } else {
          budget := cur;
        }
      }
    }
  }
}
