// What one round does to the budget, in rates, flags and counts
// (crates/nya-core/src/path.rs).
module BudgetRounds {
  import opened Common
  import opened MinMax
  import opened Budget
  import opened BudgetRuns

  // ------------------------------------------------------------- when it ends

  // A sample ends the round exactly when the filter still had a rate before it
  // and the round has lasted a loop: the fresh one, else the floor, else 20 ms.
  lemma RoundEndsIff(s: State, x: Sample)
    ensures KindOf(s, x) == RoundEnd <==>
              && Get(s.bwFilter, x.now, x.win) != 0 && x.now - s.roundStart >= 1
              && x.now - s.roundStart >= (if x.loop.Some? then x.loop.value else if x.minRtt.Some? then x.minRtt.value else 20_000)
    ensures KindOf(s, x) == Restart <==> Get(s.bwFilter, x.now, x.win) == 0
  {
  }

  // With no rate in the filter everything starts afresh from the floor, except
  // the two filters.
  lemma RestartForgets(s: State, x: Sample)
    requires KindOf(s, x) == Restart
    ensures NoteSample(s, x) ==
            Init(s.floor, s.ceil).(budget := s.floor, roundStart := x.now, roundDelivered := x.delivered,
                                   bwMax := s.bwMax, bwFilter := Update(s.bwFilter, x.rate, x.now, x.win))
  {
  }

  lemma OpenRoundOnlyFilters(s: State, x: Sample)
    requires KindOf(s, x) == WithinRound
    ensures NoteSample(s, x) == s.(bwFilter := Update(s.bwFilter, x.rate, x.now, x.win))
  {
  }

  // ------------------------------------------------------------ what it starts from

  // Bytes per second over the round, and never a whole byte more.
  lemma RateIsAverage(s: State, x: Sample)
    requires x.now > s.roundStart
    ensures var bytes := if x.delivered > s.roundDelivered then x.delivered - s.roundDelivered else 0;
            RoundRate(s, x) * (x.now - s.roundStart) <= bytes * 1_000_000 < (RoundRate(s, x) + 1) * (x.now - s.roundStart)
  {
    var bytes := SatSub(x.delivered, s.roundDelivered);
    var d := x.now - s.roundStart;
    assert Max(SatSub(x.now, s.roundStart), 1) == d;
    DivBounds(bytes * 1_000_000, d);
  }

  lemma DivBounds(a: nat, d: nat)
    requires d > 0
    ensures (a / d) * d <= a < (a / d + 1) * d
  {
    assert a == (a / d) * d + a % d;
  }

  // The rate that may lift the ceiling is the lower of two rounds in a row.
  lemma ConfirmedByTwoRounds(s: State, x: Sample)
    ensures s.lastBw == 0 ==> Confirmed(s, x) == RoundRate(s, x)
    ensures s.lastBw != 0 ==> Confirmed(s, x) <= RoundRate(s, x) && Confirmed(s, x) <= s.lastBw
    ensures Confirmed(s, x) == RoundRate(s, x) || Confirmed(s, x) == s.lastBw
    ensures EndRound(s, x).lastBw == RoundRate(s, x)
  {
  }

  // The lid: three floor loops of the best confirmed rate when both are known,
  // and never outside floor and ceiling.
  lemma LidIs(s: State, x: Sample)
    ensures var best := EndRound(s, x).bwMax.s0.v;
            RoundCeil(s, x) ==
            if x.minRtt.None? || best == 0 then Max(s.ceil, s.floor)
            else Max(s.floor, Min(s.ceil, 3 * (best * x.minRtt.value / 1_000_000)))
  {
  }

  // The allowance the round starts from: the budget within floor and lid.
  function Allowance(s: State, x: Sample): nat {
    Clamp(s.budget, s.floor, RoundCeil(s, x))
  }

  // Twice what the round carried in a loop, but no more than now and no less
  // than the floor.
  function Settled(s: State, x: Sample): nat {
    var loop := if x.loop.Some? then x.loop.value else 0;
    Max(s.floor, Min(Allowance(s, x), 2 * (RoundRate(s, x) * loop / 1_000_000)))
  }

  // Rate over bw_full: more by 15 percent, more by 7.5, less by 15.
  predicate ClearsBar(full: nat, rate: nat) {
    100 * rate >= 115 * full
  }

  predicate ClearsHalfBar(full: nat, rate: nat) {
    1000 * rate >= 1075 * full
  }

  predicate Sags(full: nat, rate: nat) {
    full > 0 && 100 * rate < 85 * full
  }

  // The third sagging round in a row.
  predicate Rearms(s: State, x: Sample) {
    Sags(s.full, RoundRate(s, x)) && s.sag >= 2
  }

  // ------------------------------------------------------------------ the cases

  // Three sags: everything starts again from the level seen now.
  lemma ThirdSagRearms(s: State, x: Sample)
    requires Rearms(s, x)
    ensures var t := EndRound(s, x);
            && t.full == RoundRate(s, x) && t.budget == Settled(s, x)
            && t.pending == t.flat == t.sag == t.idle == t.probeFrom == 0 && !t.limited
  {
  }

  // A limited round after a probe: kept when half the bar was cleared, else back
  // to the allowance from before.
  lemma ProbeIsJudged(s: State, x: Sample)
    requires !Rearms(s, x) && s.limited && s.probeFrom != 0
    ensures var t := EndRound(s, x);
            && t.probeFrom == 0 && t.idle == 0
            && if ClearsHalfBar(s.full, RoundRate(s, x)) then
                 t.budget == Allowance(s, x) && t.full == RoundRate(s, x) && t.flat == 0
               else t.budget == Clamp(s.probeFrom, s.floor, RoundCeil(s, x)) && t.full == s.full && t.flat == s.flat
  {
  }

  // A confirmed step, the second round in a row over the bar, raises the budget
  // by half and bw_full to the lower of the two rates.
  lemma StepRaisesByHalf(s: State, x: Sample)
    requires s.limited && s.probeFrom == 0 && s.pending != 0 && ClearsBar(s.full, RoundRate(s, x))
    ensures var t := EndRound(s, x);
            && t.budget == Min(RoundCeil(s, x), Allowance(s, x) * 3 / 2)
            && t.full == Min(RoundRate(s, x), s.pending) && t.pending == t.flat == t.sag == t.idle == t.probeFrom == 0
  {
  }

  // The first round over the bar only waits for the next.
  lemma FirstStepWaits(s: State, x: Sample)
    requires s.limited && s.probeFrom == 0 && s.pending == 0 && ClearsBar(s.full, RoundRate(s, x))
    ensures var t := EndRound(s, x);
            && t.budget == Allowance(s, x) && t.full == s.full && t.flat == s.flat
            && t.pending == RoundRate(s, x) && t.sag == t.idle == t.probeFrom == 0
  {
  }

  // Limited rounds that do not clear it are counted: the third and every fourth
  // after it probes with a quarter more, the others hold.
  lemma FlatRoundsProbe(s: State, x: Sample)
    requires !Rearms(s, x) && s.limited && s.probeFrom == 0 && !ClearsBar(s.full, RoundRate(s, x))
    ensures var t := EndRound(s, x);
            var n := s.flat + 1;
            && t.flat == n && t.full == s.full && t.pending == 0 && t.idle == 0
            && t.sag == (if Sags(s.full, RoundRate(s, x)) then s.sag + 1 else 0)
            && if n >= 3 && n % 4 == 3 then
                 t.probeFrom == Allowance(s, x) && t.budget == Min(RoundCeil(s, x), Allowance(s, x) * 5 / 4)
               else t.probeFrom == 0 && t.budget == Allowance(s, x)
  {
    EveryFourth(s.flat + 1);
    assert VerdictOf(s, x) == Sag || VerdictOf(s, x) == Flat;
  }

  lemma EveryFourth(n: nat)
    ensures n >= 3 && n % 4 == 3 <==> n >= FULL_ROUNDS && (n - FULL_ROUNDS) % PROBE_EVERY == 0
  {
  }

  // Rounds that found room are counted too: up to the seventh they hold, from
  // the eighth on they settle. What they learn of bw_full they keep.
  lemma IdleRoundsSettle(s: State, x: Sample)
    requires !Rearms(s, x) && !s.limited
    ensures var t := EndRound(s, x);
            var rate := RoundRate(s, x);
            && t.idle == s.idle + 1 && t.probeFrom == 0
            && t.budget == (if s.idle + 1 >= 8 then Settled(s, x) else Allowance(s, x))
            && t.full == (if ClearsBar(s.full, rate) && s.pending != 0 then Min(rate, s.pending) else s.full)
            && t.flat == (if ClearsBar(s.full, rate) && s.pending != 0 then 0 else s.flat)
            && t.pending == (if ClearsBar(s.full, rate) && s.pending == 0 then rate else 0)
            && t.sag == (if Sags(s.full, rate) then s.sag + 1 else 0)
  {
  }

  // Every round starts the next one where it ended.
  lemma NextRoundStarts(s: State, x: Sample)
    ensures var t := EndRound(s, x);
            && t.roundStart == x.now && t.roundDelivered == x.delivered && !t.limited && t.bwFilter == s.bwFilter
            && t.bwMax == Update(s.bwMax, Confirmed(s, x), x.now, 10_000_000)
            && t.floor == s.floor && t.ceil == s.ceil
  {
    DecisionKeeps(Opened(s, x), VerdictOf(s, x), s.limited, s.pending, s.probeFrom, ProbeKept(s.full, RoundRate(s, x)),
                  RoundRate(s, x), Allowance(s, x), Carried(s, x));
  }

  lemma DecisionKeeps(o: State, v: Verdict, limited: bool, waiting: nat, tried: nat, kept: bool, bw: nat, cur: nat, carried: nat)
    ensures var d := Decided(o, v, limited, waiting, tried, kept, bw, cur, carried);
            && d.roundStart == o.roundStart && d.roundDelivered == o.roundDelivered && d.lastBw == o.lastBw
            && d.limited == o.limited && d.bwFilter == o.bwFilter && d.bwMax == o.bwMax && d.floor == o.floor && d.ceil == o.ceil
  {
  }

  // ----------------------------------------------------------------- two rounds

  // Growth comes no slower than it may: two limited rounds in a row over the bar
  // raise the budget by half, up to the lid of the second.
  lemma TwoLimitedStepsGrow(s: State, x: Sample, t: State, y: Sample)
    requires s.limited && s.probeFrom == 0 && s.pending == 0 && ClearsBar(s.full, RoundRate(s, x)) && RoundRate(s, x) > 0
    requires SameRound(t, EndRound(s, x)) && t.limited && ClearsBar(s.full, RoundRate(t, y))
    ensures var held := Clamp(s.budget, s.floor, Min(RoundCeil(s, x), RoundCeil(t, y)));
            && EndRound(t, y).budget == Min(RoundCeil(t, y), held * 3 / 2)
            && EndRound(t, y).full == Min(RoundRate(s, x), RoundRate(t, y))
  {
    FirstStepWaits(s, x);
    NextRoundStarts(s, x);
    assert t.floor == s.floor && s.floor <= RoundCeil(t, y) && s.floor <= RoundCeil(s, x);
    StepRaisesByHalf(t, y);
  }
}
