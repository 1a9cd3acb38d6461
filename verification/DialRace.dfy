// Racing the addresses of an origin host (crates/nya-core/src/hop.rs): two
// family lookups, two queues, connects in flight and a spacing timer.
module DialRace {
  import opened Common

  type Addr = nat
  type Error = nat

  const NO_ADDRESSES: Error := 0

  datatype Family = V4 | V6

  datatype Cause = Idle | Arrived | Refused | Spaced

  // An attempt, with what triggered it: history only.
  datatype Attempt = Attempt(family: Family, addr: Addr, at: nat, cause: Cause)

  datatype Phase = Racing | Connected(addr: Addr) | Failed(error: Error)

  // `known` and `failed` are history: every address seeded or looked up, and
  // those whose connect ended without a stream.
  datatype Race = Race(
    v4Pending: bool,
    v6Pending: bool,
    q4: seq<Addr>,
    q6: seq<Addr>,
    prefer: Option<Family>,
    lastFamily: Option<Family>,
    lastStart: Option<nat>,
    lastErr: Option<Error>,
    started: set<Addr>,
    inflight: set<Addr>,
    phase: Phase,
    attempts: seq<Attempt>,
    known: set<Addr>,
    failed: set<Addr>)
  {
    function Queue(f: Family): seq<Addr> {
      if f == V4 then q4 else q6
    }

    predicate More() {
      q4 != [] || q6 != []
    }
  }

  function AddrSet(s: seq<Addr>): set<Addr> {
    set a | a in s
  }

  function Other(f: Family): Family {
    if f == V4 then V6 else V4
  }

  // ------------------------------------------------------------ one attempt

  // The family to take from next: the preferred one while it has addresses,
  // else the one not tried last, else whichever has any, IPv4 first.
  function Turn(r: Race): Option<Family> {
    if r.prefer.Some? && r.Queue(r.prefer.value) != [] then r.prefer
    else if r.lastFamily.Some? && r.Queue(Other(r.lastFamily.value)) != [] then Some(Other(r.lastFamily.value))
    else if r.q4 != [] then Some(V4)
    else if r.q6 != [] then Some(V6)
    else None
  }

  // The preference ends with the queue it points at.
  function Preferred(prefer: Option<Family>, q4: seq<Addr>, q6: seq<Addr>): Option<Family> {
    if prefer == Some(V4) && q4 == [] then None
    else if prefer == Some(V6) && q6 == [] then None
    else prefer
  }

  function Popped(r: Race, f: Family): Race
    requires r.Queue(f) != []
  {
    var q4 := if f == V4 then r.q4[1..] else r.q4;
    var q6 := if f == V6 then r.q6[1..] else r.q6;
    r.(q4 := q4, q6 := q6, prefer := Preferred(r.prefer, q4, q6))
  }

  function Connecting(r: Race, f: Family, addr: Addr, now: nat, cause: Cause): Race {
    r.(started := r.started + {addr}, inflight := r.inflight + {addr}, lastFamily := Some(f), lastStart := Some(now),
       attempts := r.attempts + [Attempt(f, addr, now, cause)])
  }

  // Starts the next address never started before, dropping repeats.
  function NextAttempt(r: Race, now: nat, cause: Cause): (Race, bool)
    decreases |r.q4| + |r.q6|
  {
    if Turn(r).None? then (r.(prefer := None), false)
    else
      var f := Turn(r).value;
      var addr := r.Queue(f)[0];
      var p := Popped(r, f);
      if addr in r.started then NextAttempt(p, now, cause) else (Connecting(p, f, addr, now, cause), true)
  }

  // The head of the loop: with nothing in flight another attempt starts, and
  // with nothing left to wait for the race is over.
  function Settle(r: Race, now: nat): Race {
    if r.phase != Racing || r.inflight != {} then r
    else
      var (t, ok) := NextAttempt(r, now, Idle);
      if ok || t.v4Pending || t.v6Pending then t
      else t.(phase := Failed(if t.lastErr.Some? then t.lastErr.value else NO_ADDRESSES))
  }

  // ------------------------------------------------------------------ events

  datatype Ending = Stream | Refuse(error: Error) | Panic

  datatype Event =
    | LookedUp(family: Family, found: Result<seq<Addr>, Error>)
    | Joined(addr: Addr, ending: Ending)
    | Timer

  predicate Enabled(r: Race, e: Event, now: nat, cad: nat) {
    && r.phase == Racing
    && match e
       case LookedUp(V4, _) => r.v4Pending
       case LookedUp(V6, _) => r.v6Pending
       case Joined(a, _) => a in r.inflight
       case Timer => r.More() && (r.lastStart.Some? ==> now >= r.lastStart.value + cad)
  }

  // A family's addresses join its queue, and are preferred when attempts of
  // the other family were started last.
  function Arrive(r: Race, f: Family, addrs: seq<Addr>): Race {
    r.(prefer := if r.started != {} && r.lastFamily != Some(f) && addrs != [] then Some(f) else r.prefer,
       q4 := if f == V4 then r.q4 + addrs else r.q4,
       q6 := if f == V6 then r.q6 + addrs else r.q6,
       known := r.known + AddrSet(addrs))
  }

  function Lookup(r: Race, f: Family, found: Result<seq<Addr>, Error>, now: nat): Race {
    var r := if f == V4 then r.(v4Pending := false) else r.(v6Pending := false);
    match found
    case Err(e) => r.(lastErr := Some(e))
    case Ok(addrs) =>
      var t := Arrive(r, f, addrs);
      if r.started == {} || t.prefer == Some(f) then NextAttempt(t, now, Arrived).0 else t
  }

  function Join(r: Race, addr: Addr, ending: Ending, now: nat): Race {
    match ending
    case Stream => r.(phase := Connected(addr), inflight := {})
    case Refuse(e) =>
      NextAttempt(r.(inflight := r.inflight - {addr}, failed := r.failed + {addr}, lastErr := Some(e)), now, Refused).0
    case Panic => r.(inflight := r.inflight - {addr}, failed := r.failed + {addr})
  }

  function On(r: Race, e: Event, now: nat): Race {
    match e
    case LookedUp(f, found) => Lookup(r, f, found, now)
    case Joined(a, ending) => Join(r, a, ending, now)
    case Timer => NextAttempt(r, now, Spaced).0
  }

  function New(seed4: seq<Addr>, seed6: seq<Addr>): Race {
    Race(true, true, seed4, seed6, None, None, None, None, {}, {}, Racing, [], AddrSet(seed4) + AddrSet(seed6), {})
  }

  class OriginRace {
    var v4Pending: bool
    var v6Pending: bool
    var q4: seq<Addr>
    var q6: seq<Addr>
    var prefer: Option<Family>
    var lastFamily: Option<Family>
    var lastStart: Option<nat>
    var lastErr: Option<Error>
    var started: set<Addr>
    var inflight: set<Addr>
    var phase: Phase
    ghost var attempts: seq<Attempt>
    ghost var known: set<Addr>
    ghost var failed: set<Addr>

    ghost function State(): Race
      reads this
    {
      Race(v4Pending, v6Pending, q4, q6, prefer, lastFamily, lastStart, lastErr, started, inflight, phase, attempts, known, failed)
    }

    constructor (seed4: seq<Addr>, seed6: seq<Addr>)
      ensures State() == New(seed4, seed6)
    {
      v4Pending, v6Pending, q4, q6 := true, true, seed4, seed6;
      prefer, lastFamily, lastStart, lastErr := None, None, None, None;
      started, inflight, phase := {}, {}, Racing;
      attempts, known, failed := [], AddrSet(seed4) + AddrSet(seed6), {};
    }

    // Takes the head of the queue whose turn it is; the preference ends with
    // the queue it points at.
    method Pop() returns (pick: Option<(Family, Addr)>)
      modifies `q4, `q6, `prefer
      ensures pick.None? <==> Turn(old(State())).None?
      ensures pick.None? ==> State() == old(State()).(prefer := None)
      ensures pick.Some? ==> Turn(old(State())) == Some(pick.value.0) && pick.value.1 == old(State()).Queue(pick.value.0)[0]
      ensures pick.Some? ==> State() == Popped(old(State()), pick.value.0)
    {
      pick := None;
      if prefer == Some(V4) {
        if q4 != [] {
          pick, q4 := Some((V4, q4[0])), q4[1..];
        }
        if q4 == [] {
          prefer := None;
        }
      } else if prefer == Some(V6) {
        if q6 != [] {
          pick, q6 := Some((V6, q6[0])), q6[1..];
        }
        if q6 == [] {
          prefer := None;
        }
      }
      if pick.None? {
        if lastFamily == Some(V4) && q6 != [] {
          pick, q6 := Some((V6, q6[0])), q6[1..];
        } else if lastFamily == Some(V6) && q4 != [] {
          pick, q4 := Some((V4, q4[0])), q4[1..];
        } else if q4 != [] {
          pick, q4 := Some((V4, q4[0])), q4[1..];
        } else if q6 != [] {
          pick, q6 := Some((V6, q6[0])), q6[1..];
        }
      }
    }

    method Spawn(family: Family, addr: Addr, now: nat, cause: Cause)
      modifies `started, `inflight, `attempts, `lastStart, `lastFamily
      ensures State() == Connecting(old(State()), family, addr, now, cause)
    {
      started, inflight := started + {addr}, inflight + {addr};
      attempts := attempts + [Attempt(family, addr, now, cause)];
      lastStart, lastFamily := Some(now), Some(family);
    }

    method StartOne(now: nat, cause: Cause) returns (ok: bool)
      modifies this
      ensures (State(), ok) == NextAttempt(old(State()), now, cause)
    {
      while true
        invariant NextAttempt(State(), now, cause) == NextAttempt(old(State()), now, cause)
        decreases |q4| + |q6|
      {
        ghost var r := State();
        var pick := Pop();
        if pick.None? {
          return false;
        }
        var (family, addr) := pick.value;
        if addr !in started {
          Spawn(family, addr, now, cause);
          return true;
        }
        assert NextAttempt(r, now, cause) == NextAttempt(State(), now, cause);
      }
    }

    method Head(now: nat)
      modifies this
      ensures State() == Settle(old(State()), now)
    {
      if phase == Racing && inflight == {} {
        var ok := StartOne(now, Idle);
        if !ok && !v4Pending && !v6Pending {
          phase := Failed(if lastErr.Some? then lastErr.value else NO_ADDRESSES);
        }
      }
    }

    method Enqueue(f: Family, addrs: seq<Addr>)
      modifies `prefer, `q4, `q6, `known
      ensures State() == Arrive(old(State()), f, addrs)
    {
      if started != {} && lastFamily != Some(f) && addrs != [] {
        prefer := Some(f);
      }
      if f == V4 {
        q4 := q4 + addrs;
      } else {
        q6 := q6 + addrs;
      }
      known := known + AddrSet(addrs);
    }

    method LookupDone(f: Family, found: Result<seq<Addr>, Error>, now: nat)
      modifies this
      ensures State() == Lookup(old(State()), f, found, now)
    {
      if f == V4 {
        v4Pending := false;
      } else {
        v6Pending := false;
      }
      match found
      case Err(e) => lastErr := Some(e);
      case Ok(addrs) =>
        var first := started == {};
        Enqueue(f, addrs);
        if first || prefer == Some(f) {
          var _ := StartOne(now, Arrived);
        }
    }

    method ConnectDone(addr: Addr, ending: Ending, now: nat)
      modifies this
      ensures State() == Join(old(State()), addr, ending, now)
    {
      match ending
      case Stream =>
        phase, inflight := Connected(addr), {};
      case Refuse(e) =>
        inflight, failed, lastErr := inflight - {addr}, failed + {addr}, Some(e);
        var _ := StartOne(now, Refused);
      case Panic =>
        inflight, failed := inflight - {addr}, failed + {addr};
    }

    method Tick(now: nat)
      modifies this
      ensures State() == NextAttempt(old(State()), now, Spaced).0
    {
      var _ := StartOne(now, Spaced);
    }
  }
}
