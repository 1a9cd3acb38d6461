// Whole dial races, over every order of lookups, connect results and timers.
module DialRaceRuns {
  import opened Common
  import opened DialRace

  datatype Timed = Timed(event: Event, now: nat)

  function Start(seed4: seq<Addr>, seed6: seq<Addr>, now: nat): Race {
    Settle(New(seed4, seed6), now)
  }

  function Step(r: Race, x: Timed, cad: nat): Option<Race> {
    if Enabled(r, x.event, x.now, cad) then Some(Settle(On(r, x.event, x.now), x.now)) else None
  }

  function Run(r: Race, xs: seq<Timed>, cad: nat): Option<Race>
    decreases |xs|
  {
    if xs == [] then Some(r)
    else
      match Step(r, xs[0], cad)
      case None => None
      case Some(t) => Run(t, xs[1..], cad)
  }

  // ----------------------------------------------------- what one start does

  function Queued(r: Race): nat {
    |r.q4| + |r.q6|
  }

  function Addresses(r: Race): set<Addr> {
    AddrSet(r.q4) + AddrSet(r.q6) + r.started
  }

  predicate SameRest(r: Race, t: Race) {
    && t.v4Pending == r.v4Pending && t.v6Pending == r.v6Pending && t.phase == r.phase && t.lastErr == r.lastErr
    && t.known == r.known && t.failed == r.failed
  }

  predicate OneStarted(r: Race, t: Race, a: Attempt) {
    && a.addr !in r.started
    && t.started == r.started + {a.addr} && t.inflight == r.inflight + {a.addr}
    && t.attempts == r.attempts + [a] && t.lastStart == Some(a.at) && t.lastFamily == Some(a.family)
  }

  predicate NoneStarted(r: Race, t: Race) {
    && t.started == r.started && t.inflight == r.inflight && t.attempts == r.attempts
    && t.lastStart == r.lastStart && t.lastFamily == r.lastFamily && !t.More()
  }

  lemma PoppedAddresses(r: Race, f: Family)
    requires r.Queue(f) != []
    ensures var p := Popped(r, f);
            && SameRest(r, p) && p.started == r.started && Queued(p) == Queued(r) - 1
            && AddrSet(r.q4) + AddrSet(r.q6) == AddrSet(p.q4) + AddrSet(p.q6) + {r.Queue(f)[0]}
  {
    var q, addr := r.Queue(f), r.Queue(f)[0];
    assert AddrSet(q) == AddrSet(q[1..]) + {addr} by {
      assert q == [addr] + q[1..];
    }
  }

  // A start either takes one address never tried, or finds none left.
  lemma {:induction false} NextAttemptFacts(r: Race, now: nat, cause: Cause)
    ensures var (t, ok) := NextAttempt(r, now, cause);
            && SameRest(r, t) && Addresses(t) == Addresses(r) && Queued(t) <= Queued(r)
            && (r.More() ==> Queued(t) < Queued(r))
            && (if ok then t.attempts != [] && OneStarted(r, t, t.attempts[|t.attempts| - 1]) &&
                           t.attempts[|t.attempts| - 1].at == now && t.attempts[|t.attempts| - 1].cause == cause
                else NoneStarted(r, t))
            && (ok ==> r.More())
    decreases Queued(r)
  {
    if Turn(r).Some? {
      var f := Turn(r).value;
      PoppedAddresses(r, f);
      if r.Queue(f)[0] in r.started {
        NextAttemptFacts(Popped(r, f), now, cause);
      }
    }
  }

  // ------------------------------------------------------------- invariant

  predicate Once(r: Race) {
    && (forall i, j :: 0 <= i < j < |r.attempts| ==> r.attempts[i].addr != r.attempts[j].addr)
    && (forall i :: 0 <= i < |r.attempts| ==> r.attempts[i].addr in r.started)
    && r.lastStart == if r.attempts == [] then None else Some(r.attempts[|r.attempts| - 1].at)
  }

  predicate Accounted(r: Race) {
    && Addresses(r) == r.known
    && (!r.phase.Connected? ==> r.failed + r.inflight == r.started && r.failed !! r.inflight)
    && r.inflight <= r.started
  }

  // After the head of the loop: something is under way, or a lookup is.
  predicate Settled(r: Race) {
    && (r.phase == Racing && r.inflight == {} ==> !r.More() && (r.v4Pending || r.v6Pending))
    && (r.phase.Failed? ==> !r.v4Pending && !r.v6Pending && !r.More() && r.inflight == {})
  }

  predicate SpacedOut(r: Race, cad: nat) {
    forall i, j :: 0 <= i < |r.attempts| && 0 <= j < |r.attempts| && j == i + 1 && r.attempts[j].cause == Spaced ==>
      r.attempts[j].at >= r.attempts[i].at + cad
  }

  predicate Kept(r: Race, cad: nat) {
    Once(r) && Accounted(r) && SpacedOut(r, cad)
  }

  lemma NextAttemptKeeps(r: Race, now: nat, cause: Cause, cad: nat)
    requires Kept(r, cad) && !r.phase.Connected?
    requires cause == Spaced && r.lastStart.Some? ==> now >= r.lastStart.value + cad
    ensures Kept(NextAttempt(r, now, cause).0, cad)
  {
    NextAttemptFacts(r, now, cause);
  }

  lemma SettleKeeps(r: Race, now: nat, cad: nat)
    requires Kept(r, cad) && !r.phase.Failed?
    ensures Kept(Settle(r, now), cad) && Settled(Settle(r, now))
  {
    if r.phase == Racing && r.inflight == {} {
      NextAttemptKeeps(r, now, Idle, cad);
      NextAttemptFacts(r, now, Idle);
    }
  }

  lemma ArriveKeeps(r: Race, f: Family, addrs: seq<Addr>, cad: nat)
    requires Kept(r, cad)
    ensures Kept(Arrive(r, f, addrs), cad) && Arrive(r, f, addrs).phase == r.phase
  {
    assert AddrSet(r.q4 + addrs) == AddrSet(r.q4) + AddrSet(addrs);
    assert AddrSet(r.q6 + addrs) == AddrSet(r.q6) + AddrSet(addrs);
  }

  lemma LookupKeeps(r: Race, f: Family, found: Result<seq<Addr>, Error>, now: nat, cad: nat)
    requires Kept(r, cad) && r.phase == Racing
    ensures Kept(Lookup(r, f, found, now), cad) && Lookup(r, f, found, now).phase == Racing
  {
    var p := if f == V4 then r.(v4Pending := false) else r.(v6Pending := false);
    assert Kept(p, cad);
    match found
    case Err(_) =>
    case Ok(addrs) =>
      ArriveKeeps(p, f, addrs, cad);
      NextAttemptKeeps(Arrive(p, f, addrs), now, Arrived, cad);
      NextAttemptFacts(Arrive(p, f, addrs), now, Arrived);
  }

  lemma JoinKeeps(r: Race, addr: Addr, ending: Ending, now: nat, cad: nat)
    requires Kept(r, cad) && r.phase == Racing && addr in r.inflight
    ensures Kept(Join(r, addr, ending, now), cad) && !Join(r, addr, ending, now).phase.Failed?
  {
    if ending.Refuse? {
      var t := r.(inflight := r.inflight - {addr}, failed := r.failed + {addr}, lastErr := Some(ending.error));
      assert Kept(t, cad);
      NextAttemptKeeps(t, now, Refused, cad);
      NextAttemptFacts(t, now, Refused);
    }
  }

  lemma OnKeeps(r: Race, x: Timed, cad: nat)
    requires Kept(r, cad) && Enabled(r, x.event, x.now, cad)
    ensures Kept(On(r, x.event, x.now), cad) && !On(r, x.event, x.now).phase.Failed?
  {
    match x.event
    case LookedUp(f, found) => LookupKeeps(r, f, found, x.now, cad);
    case Joined(a, ending) => JoinKeeps(r, a, ending, x.now, cad);
    case Timer =>
      NextAttemptKeeps(r, x.now, Spaced, cad);
      NextAttemptFacts(r, x.now, Spaced);
  }

  lemma StepKeeps(r: Race, x: Timed, cad: nat)
    requires Kept(r, cad) && Step(r, x, cad).Some?
    ensures Kept(Step(r, x, cad).value, cad) && Settled(Step(r, x, cad).value)
  {
    OnKeeps(r, x, cad);
    SettleKeeps(On(r, x.event, x.now), x.now, cad);
  }

  lemma {:induction false} RunKeeps(r: Race, xs: seq<Timed>, cad: nat)
    requires Kept(r, cad) && Settled(r) && Run(r, xs, cad).Some?
    ensures Kept(Run(r, xs, cad).value, cad) && Settled(Run(r, xs, cad).value)
    decreases |xs|
  {
    if xs != [] {
      StepKeeps(r, xs[0], cad);
      RunKeeps(Step(r, xs[0], cad).value, xs[1..], cad);
    }
  }

  lemma StartKept(seed4: seq<Addr>, seed6: seq<Addr>, now: nat, cad: nat)
    ensures Kept(Start(seed4, seed6, now), cad) && Settled(Start(seed4, seed6, now))
  {
    SettleKeeps(New(seed4, seed6), now, cad);
  }

  // ------------------------------------------------------------ main results

  // In every reachable state: no address is connected twice, only addresses
  // seeded or looked up are, and an attempt the timer started came at least the
  // delay after the one before.
  lemma EachAddressOnce(seed4: seq<Addr>, seed6: seq<Addr>, now: nat, xs: seq<Timed>, cad: nat)
    requires Run(Start(seed4, seed6, now), xs, cad).Some?
    ensures var r := Run(Start(seed4, seed6, now), xs, cad).value;
            && (forall i, j :: 0 <= i < j < |r.attempts| ==> r.attempts[i].addr != r.attempts[j].addr)
            && (forall i :: 0 <= i < |r.attempts| ==> r.attempts[i].addr in r.known)
            && SpacedOut(r, cad)
  {
    StartKept(seed4, seed6, now, cad);
    RunKeeps(Start(seed4, seed6, now), xs, cad);
  }

  // While racing there is always something that can happen: a lookup still out
  // or a connect still in flight.
  lemma RaceNeverStalls(seed4: seq<Addr>, seed6: seq<Addr>, now: nat, xs: seq<Timed>, cad: nat)
    requires Run(Start(seed4, seed6, now), xs, cad).Some?
    ensures var r := Run(Start(seed4, seed6, now), xs, cad).value;
            r.phase == Racing ==> exists e: Event :: !e.Timer? && Enabled(r, e, now, cad)
  {
    StartKept(seed4, seed6, now, cad);
    RunKeeps(Start(seed4, seed6, now), xs, cad);
    var r := Run(Start(seed4, seed6, now), xs, cad).value;
    if r.phase == Racing {
      if r.v4Pending {
        assert Enabled(r, LookedUp(V4, Ok([])), now, cad);
      } else if r.v6Pending {
        assert Enabled(r, LookedUp(V6, Ok([])), now, cad);
      } else {
        var a :| a in r.inflight;
        assert Enabled(r, Joined(a, Stream), now, cad);
      }
    }
  }

  // An unconnected race is over, with an error, exactly when both lookups are
  // done and every address seeded or found was tried and failed.
  lemma ErrorIffAllTriedAndFailed(seed4: seq<Addr>, seed6: seq<Addr>, now: nat, xs: seq<Timed>, cad: nat)
    requires Run(Start(seed4, seed6, now), xs, cad).Some?
    requires !Run(Start(seed4, seed6, now), xs, cad).value.phase.Connected?
    ensures var r := Run(Start(seed4, seed6, now), xs, cad).value;
            r.phase.Failed? <==> !r.v4Pending && !r.v6Pending && r.failed == r.known
  {
    StartKept(seed4, seed6, now, cad);
    RunKeeps(Start(seed4, seed6, now), xs, cad);
    var r := Run(Start(seed4, seed6, now), xs, cad).value;
    if r.phase.Failed? {
      assert AddrSet(r.q4) == {} && AddrSet(r.q6) == {};
    }
    if r.failed == r.known {
      assert r.inflight == {} by {
        assert r.inflight <= r.known;
      }
    }
  }

  // ------------------------------------------------------------- termination

  function Bit(b: bool): nat {
    if b then 1 else 0
  }

  function Pending(r: Race): nat {
    Bit(r.v4Pending) + Bit(r.v6Pending)
  }

  function Work(r: Race): nat {
    2 * Queued(r) + |r.inflight|
  }

  lemma NextAttemptWork(r: Race, now: nat, cause: Cause)
    ensures var (t, ok) := NextAttempt(r, now, cause);
            && Pending(t) == Pending(r) && Work(t) <= Work(r)
            && (r.More() ==> Work(t) < Work(r))
  {
    NextAttemptFacts(r, now, cause);
    var (t, ok) := NextAttempt(r, now, cause);
    if ok {
      assert |t.inflight| <= |r.inflight| + 1;
    }
  }

  // Addresses an event brings in.
  function Brought(e: Event): nat {
    if e.LookedUp? && e.found.Ok? then |e.found.value| else 0
  }

  lemma SettleWork(r: Race, now: nat)
    ensures Pending(Settle(r, now)) == Pending(r) && Work(Settle(r, now)) <= Work(r)
  {
    NextAttemptWork(r, now, Idle);
  }

  lemma LookupWork(r: Race, f: Family, found: Result<seq<Addr>, Error>, now: nat)
    requires if f == V4 then r.v4Pending else r.v6Pending
    ensures var t := Lookup(r, f, found, now);
            Pending(t) == Pending(r) - 1 && Work(t) <= Work(r) + 2 * Brought(LookedUp(f, found))
  {
    if found.Ok? {
      var p := if f == V4 then r.(v4Pending := false) else r.(v6Pending := false);
      var t := Arrive(p, f, found.value);
      assert Queued(t) == Queued(r) + |found.value| && t.inflight == r.inflight;
      NextAttemptWork(t, now, Arrived);
    }
  }

  lemma JoinWork(r: Race, a: Addr, ending: Ending, now: nat)
    requires a in r.inflight
    ensures Pending(Join(r, a, ending, now)) == Pending(r) && Work(Join(r, a, ending, now)) < Work(r)
  {
    if ending.Refuse? {
      var t := r.(inflight := r.inflight - {a}, failed := r.failed + {a}, lastErr := Some(ending.error));
      assert |t.inflight| == |r.inflight| - 1;
      NextAttemptWork(t, now, Refused);
    } else {
      assert |r.inflight - {a}| == |r.inflight| - 1;
    }
  }

  // Every event uses something up: a lookup, or queued and running attempts.
  lemma StepDecreases(r: Race, x: Timed, cad: nat)
    requires Step(r, x, cad).Some?
    ensures var t := Step(r, x, cad).value;
            && (Pending(t) < Pending(r) || (Pending(t) == Pending(r) && Work(t) < Work(r)))
            && Pending(t) + Work(t) + 1 <= Pending(r) + Work(r) + 2 * Brought(x.event)
  {
    match x.event {
      case LookedUp(f, found) => LookupWork(r, f, found, x.now);
      case Joined(a, ending) => JoinWork(r, a, ending, x.now);
      case Timer => NextAttemptWork(r, x.now, Spaced);
    }
    SettleWork(On(r, x.event, x.now), x.now);
  }

  function AllBrought(xs: seq<Timed>): nat {
    if xs == [] then 0 else Brought(xs[0].event) + AllBrought(xs[1..])
  }

  // A race takes at most two events per lookup and per address: it cannot go on
  // for ever.
  lemma {:induction false} RunIsBounded(r: Race, xs: seq<Timed>, cad: nat)
    requires Run(r, xs, cad).Some?
    ensures |xs| <= Pending(r) + Work(r) + 2 * AllBrought(xs)
    decreases |xs|
  {
    if xs != [] {
      StepDecreases(r, xs[0], cad);
      RunIsBounded(Step(r, xs[0], cad).value, xs[1..], cad);
    }
  }

  lemma RaceIsBounded(seed4: seq<Addr>, seed6: seq<Addr>, now: nat, xs: seq<Timed>, cad: nat)
    requires Run(Start(seed4, seed6, now), xs, cad).Some?
    ensures |xs| <= 2 + 2 * (|seed4| + |seed6| + AllBrought(xs))
  {
    SettleWork(New(seed4, seed6), now);
    RunIsBounded(Start(seed4, seed6, now), xs, cad);
  }

  // ------------------------------------------------------------ first attempts

  // While a family is preferred and has an address never tried, its first such
  // address is next.
  lemma {:induction false} PreferredGoesFirst(r: Race, f: Family, k: nat, now: nat, cause: Cause)
    requires r.prefer == Some(f) && k < |r.Queue(f)| && r.Queue(f)[k] !in r.started
    requires forall i :: 0 <= i < k ==> r.Queue(f)[i] in r.started
    ensures var (t, ok) := NextAttempt(r, now, cause);
            ok && t.attempts == r.attempts + [Attempt(f, r.Queue(f)[k], now, cause)]
    decreases k
  {
    if k > 0 {
      var p := Popped(r, f);
      assert p.Queue(f) == r.Queue(f)[1..];
      PreferredGoesFirst(p, f, k - 1, now, cause);
    }
  }

  // The preference lasts exactly as long as its queue.
  lemma {:induction false} PreferenceLasts(r: Race, f: Family, now: nat, cause: Cause)
    requires r.prefer == Some(f) && r.Queue(f) != [] && r.Queue(f)[0] !in r.started
    ensures var t := NextAttempt(r, now, cause).0;
            && t.Queue(f) == r.Queue(f)[1..] && t.Queue(Other(f)) == r.Queue(Other(f))
            && t.prefer == if |r.Queue(f)| > 1 then Some(f) else None
  {
  }

  predicate AllNew(q: seq<Addr>, started: set<Addr>) {
    && (forall i :: 0 <= i < |q| ==> q[i] !in started)
    && (forall i, j :: 0 <= i < j < |q| ==> q[i] != q[j])
  }

  // n attempts one after the other, with nothing else happening.
  function Attempts(r: Race, n: nat, now: nat, cause: Cause): Race {
    if n == 0 then r else NextAttempt(Attempts(r, n - 1, now, cause), now, cause).0
  }

  function TriedInTurn(q: seq<Addr>, f: Family, n: nat, now: nat, cause: Cause): seq<Attempt>
    requires n <= |q|
  {
    if n == 0 then [] else TriedInTurn(q, f, n - 1, now, cause) + [Attempt(f, q[n - 1], now, cause)]
  }

  // `t` is `r` with the first n addresses of the preferred queue tried.
  ghost predicate TriedFirst(r: Race, t: Race, f: Family, n: nat, now: nat, cause: Cause)
    requires n <= |r.Queue(f)|
  {
    && t.Queue(f) == r.Queue(f)[n..] && t.Queue(Other(f)) == r.Queue(Other(f))
    && t.attempts == r.attempts + TriedInTurn(r.Queue(f), f, n, now, cause)
    && (forall a :: a in t.started <==> a in r.started || a in r.Queue(f)[..n])
    && (if n < |r.Queue(f)| then t.prefer == Some(f) else n > 0 ==> t.prefer.None?)
  }

  lemma PreferredStep(t: Race, f: Family, now: nat, cause: Cause)
    requires t.prefer == Some(f) && t.Queue(f) != [] && t.Queue(f)[0] !in t.started
    ensures var u := NextAttempt(t, now, cause).0;
            && u.Queue(f) == t.Queue(f)[1..] && u.Queue(Other(f)) == t.Queue(Other(f))
            && u.attempts == t.attempts + [Attempt(f, t.Queue(f)[0], now, cause)]
            && u.started == t.started + {t.Queue(f)[0]}
            && u.prefer == if |t.Queue(f)| > 1 then Some(f) else None
  {
    PreferenceLasts(t, f, now, cause);
    PreferredGoesFirst(t, f, 0, now, cause);
    NextAttemptFacts(t, now, cause);
    var u := NextAttempt(t, now, cause).0;
    assert u.attempts[|u.attempts| - 1] == Attempt(f, t.Queue(f)[0], now, cause);
  }

  lemma TriedOneMore(r: Race, t: Race, f: Family, n: nat, now: nat, cause: Cause)
    requires n < |r.Queue(f)| && AllNew(r.Queue(f), r.started) && TriedFirst(r, t, f, n, now, cause)
    ensures TriedFirst(r, NextAttempt(t, now, cause).0, f, n + 1, now, cause)
  {
    var q := r.Queue(f);
    HeadOfRest(q, n);
    assert q[n] !in q[..n];
    PreferredStep(t, f, now, cause);
    var u := NextAttempt(t, now, cause).0;
    TurnAppends(r.attempts, q, f, n, now, cause);
    assert forall a :: a in u.started <==> a in t.started || a == q[n];
  }

  lemma HeadOfRest(q: seq<Addr>, n: nat)
    requires n < |q|
    ensures q[n..] != [] && q[n..][0] == q[n] && q[n..][1..] == q[n + 1..]
    ensures forall a :: a in q[..n + 1] <==> a in q[..n] || a == q[n]
  {
    assert q[..n + 1] == q[..n] + [q[n]];
  }

  lemma TurnAppends(before: seq<Attempt>, q: seq<Addr>, f: Family, n: nat, now: nat, cause: Cause)
    requires n < |q|
    ensures before + TriedInTurn(q, f, n + 1, now, cause) == (before + TriedInTurn(q, f, n, now, cause)) + [Attempt(f, q[n], now, cause)]
  {
  }

  // So a preferred family is tried to its end before the other gets a turn.
  lemma {:induction false} PreferredRunsToItsEnd(r: Race, f: Family, n: nat, now: nat, cause: Cause)
    requires r.prefer == Some(f) && n <= |r.Queue(f)| && AllNew(r.Queue(f), r.started)
    ensures TriedFirst(r, Attempts(r, n, now, cause), f, n, now, cause)
    decreases n
  {
    if n > 0 {
      PreferredRunsToItsEnd(r, f, n - 1, now, cause);
      TriedOneMore(r, Attempts(r, n - 1, now, cause), f, n - 1, now, cause);
    }
  }

  // A run in which both IPv6 addresses arriving late go before the IPv4 address
  // that was waiting.
  lemma LateFamilyGoesTwice(cad: nat)
    ensures var r := Run(Start([1, 2], [], 0), [Timed(LookedUp(V6, Ok([10, 11])), 5), Timed(Timer, 5 + cad)], cad);
            && r.Some? && r.value.q4 == [2]
            && r.value.attempts == [Attempt(V4, 1, 0, Idle), Attempt(V6, 10, 5, Arrived), Attempt(V6, 11, 5 + cad, Spaced)]
  {
    var x, y := Timed(LookedUp(V6, Ok([10, 11])), 5), Timed(Timer, 5 + cad);
    var s0 := Start([1, 2], [], 0);
    FirstStarts();
    var s1 := Step(s0, x, cad).value;
    ThenTheLate(s0, s1, cad);
    assert [x, y][1..] == [y] && [y][1..] == [];
    assert Run(s1, [y], cad) == Run(Step(s1, y, cad).value, [], cad);
  }

  lemma FirstStarts()
    ensures var r := Start([1, 2], [], 0);
            && r.phase == Racing && r.v6Pending && r.q4 == [2] && r.q6 == [] && r.prefer.None? && r.lastFamily == Some(V4)
            && r.started == {1} && r.inflight == {1} && r.attempts == [Attempt(V4, 1, 0, Idle)]
  {
    var n := New([1, 2], []);
    assert Turn(n) == Some(V4) && n.Queue(V4)[0] == 1 && n.q4[1..] == [2];
  }

  lemma TheLateArrive(r: Race, t: Race, cad: nat)
    requires r.phase == Racing && r.v6Pending && r.q4 == [2] && r.q6 == [] && r.lastFamily == Some(V4)
    requires r.started == {1} && r.inflight == {1}
    requires Step(r, Timed(LookedUp(V6, Ok([10, 11])), 5), cad) == Some(t)
    ensures t.attempts == r.attempts + [Attempt(V6, 10, 5, Arrived)] && t.phase == Racing && t.inflight == {1, 10}
    ensures t.q4 == [2] && t.q6 == [11] && t.prefer == Some(V6) && t.started == {1, 10} && t.lastStart == Some(5)
  {
    var a := Arrive(r.(v6Pending := false), V6, [10, 11]);
    assert a.q6 == [10, 11] && a.prefer == Some(V6);
    PreferredStep(a, V6, 5, Arrived);
    NextAttemptFacts(a, 5, Arrived);
    assert {1} + {10} == {1, 10};
    assert [10, 11][1..] == [11];
  }

  lemma ThenTheLate(r: Race, t: Race, cad: nat)
    requires r.phase == Racing && r.v6Pending && r.q4 == [2] && r.q6 == [] && r.lastFamily == Some(V4)
    requires r.started == {1} && r.inflight == {1}
    requires Step(r, Timed(LookedUp(V6, Ok([10, 11])), 5), cad) == Some(t)
    ensures t.attempts == r.attempts + [Attempt(V6, 10, 5, Arrived)]
    ensures var u := Step(t, Timed(Timer, 5 + cad), cad);
            u.Some? && u.value.q4 == [2] && u.value.attempts == t.attempts + [Attempt(V6, 11, 5 + cad, Spaced)]
  {
    TheLateArrive(r, t, cad);
    PreferredStep(t, V6, 5 + cad, Spaced);
    NextAttemptFacts(t, 5 + cad, Spaced);
  }

  // A family arriving after the other was tried last starts at once with its
  // first new address, seeded or found, not waiting for the delay.
  lemma ArrivingFamilyStartsAtOnce(r: Race, f: Family, addrs: seq<Addr>, k: nat, now: nat)
    requires r.phase == Racing && r.started != {} && r.lastFamily != Some(f) && addrs != []
    requires var q := r.Queue(f) + addrs;
             k < |q| && q[k] !in r.started && forall i :: 0 <= i < k ==> q[i] in r.started
    ensures Lookup(r, f, Ok(addrs), now).attempts == r.attempts + [Attempt(f, (r.Queue(f) + addrs)[k], now, Arrived)]
  {
    var p := if f == V4 then r.(v4Pending := false) else r.(v6Pending := false);
    var t := Arrive(p, f, addrs);
    assert t.Queue(f) == r.Queue(f) + addrs;
    PreferredGoesFirst(t, f, k, now, Arrived);
  }

  // With no preference and new addresses heading both queues, attempts
  // alternate between the families.
  lemma FamiliesAlternate(r: Race, f: Family, now: nat, cause: Cause)
    requires r.prefer.None? && r.lastFamily == Some(f) && r.q4 != [] && r.q6 != []
    requires r.q4[0] !in r.started && r.q6[0] !in r.started
    ensures var (t, ok) := NextAttempt(r, now, cause);
            ok && t.attempts == r.attempts + [Attempt(Other(f), r.Queue(Other(f))[0], now, cause)]
  {
  }
}
