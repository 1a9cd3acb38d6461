// What the budget controller keeps over whole runs of acknowledgement samples.
module BudgetRuns {
  import opened Common
  import opened MinMax
  import opened Budget

  datatype Event = FoundNoRoom | Sampled(x: Sample)

  function Next(s: State, e: Event): State {
    match e
    case FoundNoRoom => s.(limited := true)
    case Sampled(x) => NoteSample(s, x)
  }

  function After(s: State, events: seq<Event>): State {
    if events == [] then s
    else Next(After(s, events[..|events| - 1]), events[|events| - 1])
  }

  predicate EndsRound(s: State, e: Event) {
    e.Sampled? && KindOf(s, e.x) == RoundEnd
  }

  predicate Restarts(s: State, e: Event) {
    e.Sampled? && KindOf(s, e.x) == Restart
  }

  predicate Ok(s: State) {
    && s.floor <= s.budget
    && (s.pending != 0 ==> s.pending >= s.full)
    && s.probeFrom <= s.budget
    && (s.probeFrom != 0 ==> s.floor <= s.probeFrom && s.idle == 0)
  }

  // The session gives every path a floor equal to the initial budget.
  lemma InitOk(floor: nat, ceil: nat)
    requires floor <= INFLIGHT_BIAS
    ensures Ok(Init(floor, ceil))
  {
  }

  lemma OpenedOk(s: State, x: Sample)
    ensures var o := Opened(s, x);
            && o.floor == s.floor && o.full == s.full && o.probeFrom == 0
            && (VerdictOf(s, x) == FirstStep ==> o.pending == RoundRate(s, x) >= s.full)
            && (VerdictOf(s, x) != FirstStep ==> o.pending == 0)
  {
  }

  lemma DecidedOk(o: State, v: Verdict, limited: bool, waiting: nat, tried: nat, kept: bool, bw: nat, cur: nat, carried: nat)
    requires o.probeFrom == 0 && (v != FirstStep ==> o.pending == 0)
    requires v == FirstStep ==> o.pending == bw >= o.full
    ensures var d := Decided(o, v, limited, waiting, tried, kept, bw, cur, carried);
            && d.floor == o.floor && (d.pending != 0 ==> d.pending >= d.full)
            && (d.probeFrom != 0 ==> d.probeFrom == cur <= d.budget && d.idle == 0)
  {
  }

  lemma EndRoundOk(s: State, x: Sample)
    requires Ok(s)
    ensures Ok(EndRound(s, x))
  {
    var bw := RoundRate(s, x);
    var cur := Clamp(s.budget, s.floor, RoundCeil(s, x));
    OpenedOk(s, x);
    DecidedOk(Opened(s, x), VerdictOf(s, x), s.limited, s.pending, s.probeFrom, ProbeKept(s.full, bw), bw, cur, Carried(s, x));
  }

  lemma NextOk(s: State, e: Event)
    requires Ok(s)
    ensures Ok(Next(s, e))
  {
    if EndsRound(s, e) {
      EndRoundOk(s.(bwFilter := Update(s.bwFilter, e.x.rate, e.x.now, e.x.win)), e.x);
    }
  }

  // A pending step rate is never below bw_full, the budget never below its
  // floor, and a probe never falls back to more than it raised.
  lemma {:induction false} RunOk(s: State, events: seq<Event>)
    requires Ok(s)
    ensures Ok(After(s, events))
  {
    if events != [] {
      RunOk(s, events[..|events| - 1]);
      NextOk(After(s, events[..|events| - 1]), events[|events| - 1]);
    }
  }

  lemma RunOkFromStart(floor: nat, ceil: nat, events: seq<Event>)
    requires floor <= INFLIGHT_BIAS
    ensures Ok(After(Init(floor, ceil), events))
  {
    InitOk(floor, ceil);
    RunOk(Init(floor, ceil), events);
  }

  // ------------------------------------------------- when bw_full may fall

  // The rounds that ended since the last restart: bw_full before, and the rate.
  ghost function Rounds(s: State, events: seq<Event>): seq<(nat, nat)> {
    if events == [] then []
    else
      var front, e := events[..|events| - 1], events[|events| - 1];
      var t := After(s, front);
      if Restarts(t, e) then []
      else if EndsRound(t, e) then Rounds(s, front) + [(t.full, RoundRate(t, e.x))]
      else Rounds(s, front)
  }

  predicate SagOf(full: nat, round: (nat, nat)) {
    round.0 == full && 20 * round.1 < 17 * full
  }

  ghost predicate SagsCounted(s: State, rounds: seq<(nat, nat)>) {
    s.sag <= |rounds| && forall i :: |rounds| - s.sag <= i < |rounds| ==> SagOf(s.full, rounds[i])
  }

  lemma EndRoundSags(s: State, x: Sample, rounds: seq<(nat, nat)>)
    requires Ok(s) && SagsCounted(s, rounds)
    ensures SagsCounted(EndRound(s, x), rounds + [(s.full, RoundRate(s, x))])
    ensures EndRound(s, x).full < s.full ==> VerdictOf(s, x) == Sag && s.sag >= 2
  {
    var v, bw := VerdictOf(s, x), RoundRate(s, x);
    if v == Sag && s.sag + 1 >= FULL_ROUNDS {
    } else if v == Sag {
      assert !ProbeKept(s.full, bw);
      assert EndRound(s, x).full == s.full && EndRound(s, x).sag == s.sag + 1;
    } else {
      assert EndRound(s, x).sag == 0;
    }
  }

  lemma {:induction false} RunSags(s: State, events: seq<Event>)
    requires Ok(s) && s.sag == 0
    ensures SagsCounted(After(s, events), Rounds(s, events))
  {
    if events != [] {
      var front, e := events[..|events| - 1], events[|events| - 1];
      RunSags(s, front);
      RunOk(s, front);
      var t := After(s, front);
      if EndsRound(t, e) {
        EndRoundSags(t.(bwFilter := Update(t.bwFilter, e.x.rate, e.x.now, e.x.win)), e.x, Rounds(s, front));
      }
    }
  }

  // bw_full falls only by an idle restart or after three rounds in a row, with
  // no restart between them, each below 0.85 of the same bw_full.
  lemma FullFallsOnlyAfterThreeSags(s: State, events: seq<Event>, e: Event)
    requires Ok(s) && s.sag == 0
    requires var t := After(s, events); Next(t, e).full < t.full && !Restarts(t, e)
    ensures var t := After(s, events);
            var r := Rounds(s, events);
            && EndsRound(t, e)
            && SagOf(t.full, (t.full, RoundRate(t, e.x)))
            && |r| >= 2 && SagOf(t.full, r[|r| - 1]) && SagOf(t.full, r[|r| - 2])
  {
    var t := After(s, events);
    RunSags(s, events);
    RunOk(s, events);
    if EndsRound(t, e) {
      EndRoundSags(t.(bwFilter := Update(t.bwFilter, e.x.rate, e.x.now, e.x.win)), e.x, Rounds(s, events));
    }
  }

  // -------------------------------------------------- how fast it may grow

  predicate SameRound(a: State, b: State) {
    a == b.(limited := a.limited, bwFilter := a.bwFilter)
  }

  lemma {:induction false} QuietEventsKeepRound(s: State, events: seq<Event>)
    requires forall i :: 0 <= i < |events| ==>
               !EndsRound(After(s, events[..i]), events[i]) && !Restarts(After(s, events[..i]), events[i])
    ensures SameRound(After(s, events), s)
  {
    if events != [] {
      var front := events[..|events| - 1];
      assert forall i :: 0 <= i < |front| ==> front[..i] == events[..i] && front[i] == events[i];
      QuietEventsKeepRound(s, front);
      assert events[..|front|] == front;
    }
  }

  lemma DecidedIsBounded(o: State, v: Verdict, limited: bool, waiting: nat, tried: nat, kept: bool, bw: nat, cur: nat, carried: nat)
    requires o.floor <= cur && tried <= o.budget && cur <= o.budget
    ensures var d := Decided(o, v, limited, waiting, tried, kept, bw, cur, carried);
            && 2 * d.budget <= 3 * o.budget
            && (d.budget > o.budget ==> limited && tried == 0 && (v == Step || d.probeFrom != 0 || cur == 0))
  {
  }

  lemma RaiseIsBounded(s: State, x: Sample)
    requires Ok(s)
    ensures 2 * EndRound(s, x).budget <= 3 * s.budget
    ensures EndRound(s, x).budget > s.budget ==>
              && s.limited && s.probeFrom == 0
              && (VerdictOf(s, x) == Step || EndRound(s, x).probeFrom != 0)
  {
    var cur := Clamp(s.budget, s.floor, RoundCeil(s, x));
    assert cur <= s.budget;
    var bw := RoundRate(s, x);
    DecidedIsBounded(Opened(s, x), VerdictOf(s, x), s.limited, s.pending, s.probeFrom, ProbeKept(s.full, bw), bw, cur, Carried(s, x));
    assert s.floor <= Unclamped(s, x).budget || EndRound(s, x).budget == s.floor;
  }

  lemma NoRaiseRightAfterRaise(s: State, x: Sample, t: State, y: Sample)
    requires Ok(s) && EndRound(s, x).budget > s.budget && SameRound(t, EndRound(s, x))
    ensures EndRound(t, y).budget <= t.budget
  {
    RaiseIsBounded(s, x);
    EndRoundOk(s, x);
    RaiseIsBounded(t, y);
    if VerdictOf(s, x) == Step {
      assert t.pending == 0 && t.flat == 0;
    }
  }

  lemma NextIsEndRound(s: State, e: Event) returns (f: State)
    requires EndsRound(s, e)
    ensures SameRound(f, s) && f.limited == s.limited && Next(s, e) == EndRound(f, e.x)
  {
    f := s.(bwFilter := Update(s.bwFilter, e.x.rate, e.x.now, e.x.win));
  }

  lemma NextIsBounded(s: State, e: Event)
    requires Ok(s)
    ensures 2 * Next(s, e).budget <= 3 * s.budget
    ensures !EndsRound(s, e) ==> Next(s, e).budget <= s.budget
  {
    if EndsRound(s, e) {
      var f := NextIsEndRound(s, e);
      RaiseIsBounded(f, e.x);
    }
  }

  lemma NextAfterRaise(s: State, first: Event, b: State, second: Event)
    requires Ok(s) && EndsRound(s, first) && Next(s, first).budget > s.budget
    requires Ok(b) && SameRound(b, Next(s, first))
    ensures Next(b, second).budget <= b.budget
  {
    if EndsRound(b, second) {
      var f := NextIsEndRound(s, first);
      var g := NextIsEndRound(b, second);
      NoRaiseRightAfterRaise(f, first.x, g, second.x);
    } else {
      NextIsBounded(b, second);
    }
  }

  // No two consecutive rounds both raise the budget, so it grows by at most a
  // half over any two rounds, whatever happens between them.
  lemma AtMostHalfMorePerTwoRounds(s: State, first: Event, quiet: seq<Event>, second: Event)
    requires Ok(s) && EndsRound(s, first)
    requires forall i :: 0 <= i < |quiet| ==>
               !EndsRound(After(Next(s, first), quiet[..i]), quiet[i]) &&
               !Restarts(After(Next(s, first), quiet[..i]), quiet[i])
    ensures var a := Next(s, first);
            var b := After(a, quiet);
            var c := Next(b, second);
            && !(a.budget > s.budget && c.budget > b.budget)
            && 2 * c.budget <= 3 * s.budget
  {
    var a := Next(s, first);
    var b := After(a, quiet);
    NextOk(s, first);
    RunOk(a, quiet);
    QuietEventsKeepRound(a, quiet);
    NextIsBounded(s, first);
    NextIsBounded(b, second);
    if a.budget > s.budget {
      NextAfterRaise(s, first, b, second);
    }
  }

  // What becomes of a probe that bought nothing, within the lid of its round: it
  // is undone exactly when the round after it was limited again, and kept when
  // it was not. Only a third sagging round in a row overrules both.
  lemma FailedProbeUndoneIffLimited(s: State, x: Sample)
    requires Ok(s) && s.probeFrom != 0 && !ProbeKept(s.full, RoundRate(s, x))
    ensures var lid, after := RoundCeil(s, x), EndRound(s, x);
            && after.probeFrom == 0
            && (if VerdictOf(s, x) == Sag && s.sag + 1 >= FULL_ROUNDS
                then after.budget == Max(Min(Min(s.budget, lid), Carried(s, x) * 2), s.floor)
                else && after.budget == Min(if s.limited then s.probeFrom else s.budget, lid)
                     && (after.budget <= s.probeFrom <==> s.limited || Min(s.budget, lid) <= s.probeFrom))
  {
  }

  // ------------------------------------------------ a probe kept for nothing

  const FLOOR: nat := 65536
  const CEIL: nat := 64 * MAX_STREAM_PAYLOAD
  const RATE: nat := 655_360
  const LOOP: nat := 100_000

  // A path with a loop of 100 ms that delivers 65536 bytes in each.
  function Loop(k: nat): Sample {
    Sample(RATE, 10 * LOOP, LOOP * k + 1, 65536 * k, Some(LOOP), Some(LOOP))
  }

  // The books after k such loops.
  predicate Books(s: State, k: nat, budget: nat, full: nat, pending: nat, flat: nat, probeFrom: nat, limited: bool) {
    && s.floor == FLOOR && s.ceil == CEIL && s.roundStart == LOOP * k + 1 && s.roundDelivered == 65536 * k
    && s.bwFilter.s0 == Slot(RATE, LOOP * k + 1) && s.bwFilter.s2 == s.bwFilter.s0
    && s.bwMax.s0.v <= RATE && (s.lastBw == 0 || s.lastBw == RATE)
    && s.budget == budget && s.full == full && s.pending == pending && s.flat == flat && s.sag == 0
    && s.probeFrom == probeFrom && s.limited == limited && s.idle <= k
  }

  lemma SteadyRound(s: State, k: nat, budget: nat, full: nat, pending: nat, flat: nat, probeFrom: nat, limited: bool)
    requires Books(s, k, budget, full, pending, flat, probeFrom, limited)
    ensures KindOf(s, Loop(k + 1)) == RoundEnd && RoundRate(s, Loop(k + 1)) == RATE
    ensures NewBwMax(s, Loop(k + 1)).s0.v == RATE && RoundCeil(s, Loop(k + 1)) == 3 * 65536
    ensures var f := Update(s.bwFilter, RATE, LOOP * (k + 1) + 1, 10 * LOOP);
            f.s0 == f.s2 == Slot(RATE, LOOP * (k + 1) + 1)
  {
    assert Rate(65536, LOOP * k + 1, LOOP * (k + 1) + 1) == RATE;
    assert PerLoop(RATE, LOOP) == 65536;
  }

  lemma Began(s: State)
    requires s == Init(FLOOR, CEIL)
    ensures Books(Next(s, Sampled(Loop(0))), 0, 65536, 0, 0, 0, 0, false)
  {
  }

  lemma Parked(s: State, k: nat, budget: nat, full: nat, pending: nat, flat: nat, probeFrom: nat)
    requires Books(s, k, budget, full, pending, flat, probeFrom, false)
    ensures Books(Next(s, FoundNoRoom), k, budget, full, pending, flat, probeFrom, true)
  {
  }

  lemma FirstRound(s: State, k: nat)
    requires Books(s, k, 65536, 0, 0, 0, 0, false) && s.idle + 1 < IDLE_SHRINK
    ensures Books(Next(s, Sampled(Loop(k + 1))), k + 1, 65536, 0, RATE, 0, 0, false)
  {
    SteadyRound(s, k, 65536, 0, 0, 0, 0, false);
  }

  lemma StepRound(s: State, k: nat)
    requires Books(s, k, 65536, 0, RATE, 0, 0, false) && s.idle + 1 < IDLE_SHRINK
    ensures Books(Next(s, Sampled(Loop(k + 1))), k + 1, 65536, RATE, 0, 0, 0, false)
  {
    SteadyRound(s, k, 65536, 0, RATE, 0, 0, false);
  }

  lemma FlatRound(s: State, k: nat, flat: nat)
    requires Books(s, k, 65536, RATE, 0, flat, 0, true) && flat < 3
    ensures var t := Next(s, Sampled(Loop(k + 1)));
            if flat < 2 then Books(t, k + 1, 65536, RATE, 0, flat + 1, 0, false)
            else Books(t, k + 1, 81920, RATE, 0, 3, 65536, false)
  {
    SteadyRound(s, k, 65536, RATE, 0, flat, 0, true);
  }

  lemma QuietRound(s: State, k: nat)
    requires Books(s, k, 81920, RATE, 0, 3, 65536, false) && s.idle + 1 < IDLE_SHRINK
    ensures Books(Next(s, Sampled(Loop(k + 1))), k + 1, 81920, RATE, 0, 3, 0, false)
    ensures !ProbeKept(s.full, RoundRate(s, Loop(k + 1)))
  {
    SteadyRound(s, k, 81920, RATE, 0, 3, 65536, false);
  }

  ghost predicate Reached(s: State, t: State) {
    exists events :: After(s, events) == t
  }

  lemma ReachedMore(s: State, t: State, e: Event)
    requires Reached(s, t)
    ensures Reached(s, Next(t, e))
  {
    var events :| After(s, events) == t;
    assert (events + [e])[..|events|] == events;
    assert After(s, events + [e]) == Next(t, e);
  }

  lemma ReachBegun(s: State) returns (t: State)
    requires Books(Next(s, Sampled(Loop(0))), 0, 65536, 0, 0, 0, 0, false)
    ensures Reached(s, t) && Books(t, 0, 65536, 0, 0, 0, 0, false)
  {
    assert After(s, []) == s;
    t := Next(s, Sampled(Loop(0)));
    ReachedMore(s, s, Sampled(Loop(0)));
  }

  lemma ReachFirst(s: State, t: State) returns (u: State)
    requires Reached(s, t) && Books(t, 0, 65536, 0, 0, 0, 0, false)
    ensures Reached(s, u) && Books(u, 1, 65536, 0, RATE, 0, 0, false)
  {
    FirstRound(t, 0);
    ReachedMore(s, t, Sampled(Loop(1)));
    u := Next(t, Sampled(Loop(1)));
  }

  lemma ReachStepped(s: State, t: State) returns (u: State)
    requires Reached(s, t) && Books(t, 1, 65536, 0, RATE, 0, 0, false)
    ensures Reached(s, u) && Books(u, 2, 65536, RATE, 0, 0, 0, false)
  {
    StepRound(t, 1);
    ReachedMore(s, t, Sampled(Loop(2)));
    u := Next(t, Sampled(Loop(2)));
  }

  lemma ParkedRound(s: State, t: State, k: nat, flat: nat) returns (u: State)
    requires Reached(s, t) && Books(t, k, 65536, RATE, 0, flat, 0, false) && flat < 3
    ensures Reached(s, u)
    ensures if flat < 2 then Books(u, k + 1, 65536, RATE, 0, flat + 1, 0, false)
            else Books(u, k + 1, 81920, RATE, 0, 3, 65536, false)
  {
    Parked(t, k, 65536, RATE, 0, flat, 0);
    ReachedMore(s, t, FoundNoRoom);
    var p := Next(t, FoundNoRoom);
    FlatRound(p, k, flat);
    ReachedMore(s, p, Sampled(Loop(k + 1)));
    u := Next(p, Sampled(Loop(k + 1)));
  }

  // A run into a probe, and a round after it that found room: the probe bought
  // nothing, and its raise of a quarter stays.
  lemma FailedProbeCanStay(s: State)
    requires s == Init(FLOOR, CEIL)
    ensures exists t, x :: Reached(s, t) && t.probeFrom == 65536 && t.budget == 81920 && EndsRound(t, Sampled(x))
                           && !ProbeKept(t.full, RoundRate(t, x))
                           && Next(t, Sampled(x)).budget == 81920 && Next(t, Sampled(x)).probeFrom == 0
  {
    Began(s);
    var s0 := ReachBegun(s);
    var s1 := ReachFirst(s, s0);
    var s2 := ReachStepped(s, s1);
    var s3 := ParkedRound(s, s2, 2, 0);
    var s4 := ParkedRound(s, s3, 3, 1);
    var s5 := ParkedRound(s, s4, 4, 2);
    SteadyRound(s5, 5, 81920, RATE, 0, 3, 65536, false);
    QuietRound(s5, 5);
    assert EndsRound(s5, Sampled(Loop(6)));
  }

  // ---------------------------------------- the ceiling and the filter behind it

  // Every confirmed rate that ever fed the ceiling filter, with its time.
  ghost function ConfirmedHistory(s: State, events: seq<Event>): seq<Slot> {
    if events == [] then []
    else
      var front, e := events[..|events| - 1], events[|events| - 1];
      var t := After(s, front);
      if EndsRound(t, e) then ConfirmedHistory(s, front) + [Slot(Confirmed(t, e.x), Max(e.x.now, 1))]
      else ConfirmedHistory(s, front)
  }

  // Time does not run backwards over the run.
  predicate Clocked(events: seq<Event>) {
    forall i, j :: 0 <= i < j < |events| && events[i].Sampled? && events[j].Sampled? ==>
      events[i].x.now <= events[j].x.now
  }

  lemma {:induction false} HistoryNotAfter(s: State, events: seq<Event>, now: nat)
    requires forall i :: 0 <= i < |events| && events[i].Sampled? ==> events[i].x.now <= now
    ensures var h := ConfirmedHistory(s, events); h != [] ==> h[|h| - 1].t <= Max(now, 1)
  {
    if events != [] {
      HistoryNotAfter(s, events[..|events| - 1], now);
    }
  }

  lemma NextBwMax(s: State, e: Event)
    ensures Next(s, e).bwMax ==
            if EndsRound(s, e) then Update(s.bwMax, Confirmed(s, e.x), e.x.now, MIN_RTT_WIN) else s.bwMax
  {
  }

  lemma {:induction false} HistoryIsTracked(s: State, events: seq<Event>)
    requires s.bwMax == EMPTY && Clocked(events)
    ensures Tracks(ConfirmedHistory(s, events), After(s, events).bwMax)
  {
    if events != [] {
      var front, e := events[..|events| - 1], events[|events| - 1];
      assert forall i :: 0 <= i < |front| ==> front[i] == events[i];
      HistoryIsTracked(s, front);
      var t, h := After(s, front), ConfirmedHistory(s, front);
      NextBwMax(t, e);
      if EndsRound(t, e) {
        HistoryNotAfter(s, front, e.x.now);
        UpdateBracketsWindowMax(h, t.bwMax, Confirmed(t, e.x), e.x.now, MIN_RTT_WIN);
      }
    }
  }

  lemma PerLoopMonotone(a: nat, b: nat, m: nat)
    requires a <= b
    ensures PerLoop(a, m) <= PerLoop(b, m)
  {
    assert a * m <= b * m;
  }

  lemma BudgetUnderLid(s: State, e: Event)
    requires EndsRound(s, e)
    ensures s.floor <= Next(s, e).budget <= Max(s.ceil, s.floor)
    ensures e.x.minRtt.Some? && Next(s, e).bwMax.s0.v > 0 ==>
              Next(s, e).budget <= Max(s.floor, CAP_GAIN * PerLoop(Next(s, e).bwMax.s0.v, e.x.minRtt.value))
  {
    NextBwMax(s, e);
    assert Next(s, e).budget <= Lid(s.floor, s.ceil, Next(s, e).bwMax.s0.v, e.x.minRtt);
  }

  ghost predicate CeilingHolds(s: State, e: Event, g: seq<Slot>)
    requires e.Sampled?
  {
    var t := Next(s, e);
    && s.floor <= t.budget <= Max(s.ceil, s.floor)
    && Confirmed(s, e.x) <= RoundRate(s, e.x)
    && (s.lastBw != 0 ==> Confirmed(s, e.x) <= s.lastBw)
    && Tracks(g, t.bwMax)
    && (e.x.minRtt.Some? && t.bwMax.s0.v > 0 ==>
          t.budget <= Max(s.floor, CAP_GAIN * PerLoop(WindowMax(g, Max(e.x.now, 1), MIN_RTT_WIN), e.x.minRtt.value)))
  }

  lemma RoundWithinCeiling(s: State, h: seq<Slot>, e: Event)
    requires EndsRound(s, e) && Tracks(h, s.bwMax)
    requires h != [] ==> h[|h| - 1].t <= Max(e.x.now, 1)
    ensures CeilingHolds(s, e, h + [Slot(Confirmed(s, e.x), Max(e.x.now, 1))])
  {
    NextBwMax(s, e);
    BudgetUnderLid(s, e);
    UpdateBracketsWindowMax(h, s.bwMax, Confirmed(s, e.x), e.x.now, MIN_RTT_WIN);
    if e.x.minRtt.Some? {
      var g := h + [Slot(Confirmed(s, e.x), Max(e.x.now, 1))];
      PerLoopMonotone(Next(s, e).bwMax.s0.v, WindowMax(g, Max(e.x.now, 1), MIN_RTT_WIN), e.x.minRtt.value);
    }
  }

  // After every round of every run the budget is between its floor and its
  // ceiling; with a known floor RTT it is also at most three loops of the
  // ten-second windowed maximum of the confirmed round rates, each of which is
  // at most its own round's rate and the rate of the round before.
  lemma BudgetWithinConfirmedCeiling(floor: nat, ceil: nat, events: seq<Event>, e: Event)
    requires Clocked(events + [e])
    requires EndsRound(After(Init(floor, ceil), events), e)
    ensures CeilingHolds(After(Init(floor, ceil), events), e, ConfirmedHistory(Init(floor, ceil), events + [e]))
  {
    var s0 := Init(floor, ceil);
    assert (events + [e])[..|events|] == events;
    assert forall i :: 0 <= i < |events| ==> (events + [e])[i] == events[i];
    assert (events + [e])[|events|] == e;
    HistoryIsTracked(s0, events);
    HistoryNotAfter(s0, events, e.x.now);
    RoundWithinCeiling(After(s0, events), ConfirmedHistory(s0, events), e);
  }
}
