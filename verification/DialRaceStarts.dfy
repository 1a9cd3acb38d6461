// Which address a dial race starts next, and on which events
// (crates/nya-core/src/hop.rs).
module DialRaceStarts {
  import opened Common
  import opened DialRace
  import opened DialRaceRuns

  // ------------------------------------------------------------ the next one

  predicate AnyNew(q: seq<Addr>, started: set<Addr>) {
    exists a :: a in q && a !in started
  }

  predicate Left(r: Race) {
    AnyNew(r.q4, r.started) || AnyNew(r.q6, r.started)
  }

  function FirstNew(q: seq<Addr>, started: set<Addr>): (a: Addr)
    requires AnyNew(q, started)
    ensures a in q && a !in started
  {
    if q[0] !in started then q[0] else FirstNew(q[1..], started)
  }

  // The preferred family while it has a new address, then the one not tried
  // last, then IPv4, then IPv6.
  function NextFamily(r: Race): Family {
    if r.prefer.Some? && AnyNew(r.Queue(r.prefer.value), r.started) then r.prefer.value
    else if r.lastFamily.Some? && AnyNew(r.Queue(Other(r.lastFamily.value)), r.started) then Other(r.lastFamily.value)
    else if AnyNew(r.q4, r.started) then V4
    else V6
  }

  lemma RepeatIsSkipped(q: seq<Addr>, started: set<Addr>)
    requires q != [] && q[0] in started
    ensures AnyNew(q[1..], started) <==> AnyNew(q, started)
    ensures AnyNew(q, started) ==> FirstNew(q[1..], started) == FirstNew(q, started)
  {
    assert q == [q[0]] + q[1..];
  }

  lemma PoppedRepeat(r: Race, f: Family)
    requires Turn(r) == Some(f) && r.Queue(f)[0] in r.started
    ensures var p := Popped(r, f);
            && Left(p) == Left(r) && p.started == r.started
            && (Left(r) ==> NextFamily(p) == NextFamily(r)
                            && FirstNew(p.Queue(NextFamily(p)), p.started) == FirstNew(r.Queue(NextFamily(r)), r.started))
  {
    RepeatIsSkipped(r.Queue(f), r.started);
    if r.prefer.Some? && Popped(r, f).prefer.None? {
      assert r.Queue(r.prefer.value) == [] || (f == r.prefer.value && r.Queue(f)[1..] == []);
      assert !AnyNew(r.Queue(r.prefer.value), r.started);
    }
  }

  // A start takes the first address of the next family that was never started,
  // and there is one exactly when any queued address is new.
  lemma {:induction false} NextIsFirstNew(r: Race, now: nat, cause: Cause)
    ensures var (t, ok) := NextAttempt(r, now, cause);
            && (ok <==> Left(r))
            && (ok ==> t.attempts == r.attempts + [Attempt(NextFamily(r), FirstNew(r.Queue(NextFamily(r)), r.started), now, cause)])
            && (!ok ==> t.attempts == r.attempts)
    decreases Queued(r)
  {
    if Turn(r).Some? {
      var f := Turn(r).value;
      if r.Queue(f)[0] in r.started {
        PoppedRepeat(r, f);
        PoppedAddresses(r, f);
        NextIsFirstNew(Popped(r, f), now, cause);
      } else {
        assert r.Queue(f)[0] in r.Queue(f);
      }
    } else {
      assert r.q4 == [] && r.q6 == [];
    }
  }

  // ------------------------------------------------------------ on which events

  function Starts(r: Race, now: nat, cause: Cause): seq<Attempt> {
    if Left(r) then [Attempt(NextFamily(r), FirstNew(r.Queue(NextFamily(r)), r.started), now, cause)] else []
  }

  // A refused connect starts the next attempt at once, whatever else is in
  // flight, and its error is the one to report.
  lemma RefusedStartsNext(r: Race, a: Addr, e: Error, now: nat)
    ensures var t := On(r, Joined(a, Refuse(e)), now);
            && t.attempts == r.attempts + Starts(r, now, Refused) && t.lastErr == Some(e)
            && t.inflight == r.inflight - {a} + (t.started - r.started) && t.failed == r.failed + {a} && t.phase == r.phase
  {
    var p := r.(inflight := r.inflight - {a}, failed := r.failed + {a}, lastErr := Some(e));
    NextIsFirstNew(p, now, Refused);
    NextAttemptFacts(p, now, Refused);
  }

  // A connect that died without an answer starts nothing by itself.
  lemma PanicOnlyEnds(r: Race, a: Addr, now: nat)
    ensures On(r, Joined(a, Panic), now) == r.(inflight := r.inflight - {a}, failed := r.failed + {a})
  {
  }

  // The first stream wins: every other connect is dropped.
  lemma StreamWins(r: Race, a: Addr, now: nat)
    ensures var t := Settle(On(r, Joined(a, Stream), now), now);
            t == r.(phase := Connected(a), inflight := {})
  {
  }

  // The timer starts the next attempt.
  lemma TimerStartsNext(r: Race, now: nat)
    ensures On(r, Timer, now).attempts == r.attempts + Starts(r, now, Spaced)
  {
    NextIsFirstNew(r, now, Spaced);
  }

  // The queues as a lookup leaves them.
  function Arrived(r: Race, f: Family, addrs: seq<Addr>): Race {
    r.(q4 := if f == V4 then r.q4 + addrs else r.q4, q6 := if f == V6 then r.q6 + addrs else r.q6,
       prefer := if r.started != {} && r.lastFamily != Some(f) && addrs != [] then Some(f) else r.prefer)
  }

  // A lookup that found addresses starts an attempt when none was started yet or
  // its family is preferred, as it is when the other was tried last.
  lemma LookupStartsIff(r: Race, f: Family, addrs: seq<Addr>, now: nat)
    ensures var t := On(r, LookedUp(f, Ok(addrs)), now);
            var q := Arrived(r, f, addrs);
            && t.attempts == r.attempts + (if r.started == {} || q.prefer == Some(f) then Starts(q, now, Cause.Arrived) else [])
            && (if f == V4 then !t.v4Pending && t.v6Pending == r.v6Pending else !t.v6Pending && t.v4Pending == r.v4Pending)
            && t.lastErr == r.lastErr && t.known == r.known + AddrSet(addrs)
  {
    var p := Arrive(if f == V4 then r.(v4Pending := false) else r.(v6Pending := false), f, addrs);
    NextIsFirstNew(p, now, Cause.Arrived);
    NextAttemptFacts(p, now, Cause.Arrived);
    SameStarts(p, Arrived(r, f, addrs), now, Cause.Arrived);
  }

  lemma SameStarts(p: Race, q: Race, now: nat, cause: Cause)
    requires p.q4 == q.q4 && p.q6 == q.q6 && p.prefer == q.prefer && p.lastFamily == q.lastFamily && p.started == q.started
    ensures Starts(p, now, cause) == Starts(q, now, cause)
  {
  }

  lemma FailedLookupOnlyNoted(r: Race, f: Family, e: Error, now: nat)
    ensures On(r, LookedUp(f, Err(e)), now) ==
            if f == V4 then r.(v4Pending := false, lastErr := Some(e)) else r.(v6Pending := false, lastErr := Some(e))
  {
  }

  // With nothing in flight the head of the loop starts an attempt, and with
  // nothing to start and no lookup out the race fails with the last error.
  lemma HeadStartsOrFails(r: Race, now: nat)
    requires r.phase == Racing
    ensures var t := Settle(r, now);
            && t.attempts == r.attempts + (if r.inflight == {} then Starts(r, now, Idle) else [])
            && t.phase == if r.inflight == {} && !Left(r) && !r.v4Pending && !r.v6Pending
                          then Failed(if r.lastErr.Some? then r.lastErr.value else NO_ADDRESSES) else Racing
  {
    NextIsFirstNew(r, now, Idle);
    NextAttemptFacts(r, now, Idle);
  }

  // A race begins with both lookups out and the first seeded address, IPv4 first.
  lemma RaceBegins(seed4: seq<Addr>, seed6: seq<Addr>, now: nat)
    ensures var r := Start(seed4, seed6, now);
            && r.phase == Racing && r.v4Pending && r.v6Pending && r.known == AddrSet(seed4) + AddrSet(seed6)
            && r.attempts == if seed4 != [] then [Attempt(V4, seed4[0], now, Idle)]
                             else if seed6 != [] then [Attempt(V6, seed6[0], now, Idle)] else []
  {
    var n := New(seed4, seed6);
    HeadStartsOrFails(n, now);
    NextAttemptFacts(n, now, Idle);
    if seed4 != [] {
      assert seed4[0] in seed4 && AnyNew(n.q4, n.started);
    } else if seed6 != [] {
      assert seed6[0] in seed6 && AnyNew(n.q6, n.started);
    }
  }

  // ------------------------------------------------------- the error reported

  // The last lookup or connect that failed with an error.
  function LastError(xs: seq<Timed>, before: Option<Error>): Option<Error> {
    if xs == [] then before
    else
      match xs[0].event
      case LookedUp(_, Err(e)) => LastError(xs[1..], Some(e))
      case Joined(_, Refuse(e)) => LastError(xs[1..], Some(e))
      case _ => LastError(xs[1..], before)
  }

  function ErrorOf(e: Event, before: Option<Error>): Option<Error> {
    match e
    case LookedUp(_, Err(x)) => Some(x)
    case Joined(_, Refuse(x)) => Some(x)
    case _ => before
  }

  lemma StepErrors(r: Race, x: Timed, cad: nat)
    requires Step(r, x, cad).Some?
    ensures var t := Step(r, x, cad).value;
            && t.lastErr == ErrorOf(x.event, r.lastErr)
            && (t.phase.Failed? ==> t.phase.error == if t.lastErr.Some? then t.lastErr.value else NO_ADDRESSES)
  {
    var u := On(r, x.event, x.now);
    match x.event {
      case LookedUp(f, Ok(addrs)) => LookupStartsIff(r, f, addrs, x.now);
      case LookedUp(f, Err(e)) => FailedLookupOnlyNoted(r, f, e, x.now);
      case Joined(a, Refuse(e)) => RefusedStartsNext(r, a, e, x.now);
      case Joined(a, _) =>
      case Timer => NextAttemptFacts(r, x.now, Spaced);
    }
    NextAttemptFacts(u, x.now, Idle);
    UnfailedSoFar(r, x);
  }

  lemma UnfailedSoFar(r: Race, x: Timed)
    requires r.phase == Racing
    ensures !On(r, x.event, x.now).phase.Failed?
  {
    match x.event {
      case LookedUp(f, Ok(addrs)) =>
        NextAttemptFacts(Arrive(if f == V4 then r.(v4Pending := false) else r.(v6Pending := false), f, addrs), x.now, Cause.Arrived);
      case LookedUp(f, Err(e)) =>
      case Joined(a, Refuse(e)) => RefusedStartsNext(r, a, e, x.now);
      case Joined(a, _) =>
      case Timer => NextAttemptFacts(r, x.now, Spaced);
    }
  }

  lemma {:induction false} RunErrors(r: Race, xs: seq<Timed>, cad: nat)
    requires Run(r, xs, cad).Some?
    requires r.phase.Failed? ==> r.phase.error == if r.lastErr.Some? then r.lastErr.value else NO_ADDRESSES
    ensures var t := Run(r, xs, cad).value;
            && t.lastErr == LastError(xs, r.lastErr)
            && (t.phase.Failed? ==> t.phase.error == if t.lastErr.Some? then t.lastErr.value else NO_ADDRESSES)
    decreases |xs|
  {
    if xs != [] {
      StepErrors(r, xs[0], cad);
      RunErrors(Step(r, xs[0], cad).value, xs[1..], cad);
    }
  }

  // A failed race reports the last error of its run, and that there were no
  // addresses only when nothing failed.
  lemma FailureReportsLastError(seed4: seq<Addr>, seed6: seq<Addr>, now: nat, xs: seq<Timed>, cad: nat)
    requires Run(Start(seed4, seed6, now), xs, cad).Some? && Run(Start(seed4, seed6, now), xs, cad).value.phase.Failed?
    ensures var last := LastError(xs, None);
            Run(Start(seed4, seed6, now), xs, cad).value.phase.error == if last.Some? then last.value else NO_ADDRESSES
  {
    var n := New(seed4, seed6);
    HeadStartsOrFails(n, now);
    NextAttemptFacts(n, now, Idle);
    RunErrors(Start(seed4, seed6, now), xs, cad);
  }
}
