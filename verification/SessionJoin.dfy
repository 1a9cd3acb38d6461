// How the link tasks of one client agree on a session
// (crates/nya-client/src/lib.rs): one creates, the others join.
module SessionJoin {
  import opened Common

  type Id = nat

  // The shared cell: a mutex-protected id and an atomic flag.
  datatype Cell = Cell(id: Option<Id>, creating: bool)

  function Forgotten(c: Cell, sid: Id): Cell {
    if c.id == Some(sid) then Cell(None, false) else c
  }

  // What a link task goes on to do.
  datatype Role = Create | Join(sid: Id) | Wait

  class Cells {
    var id: Option<Id>
    var creating: bool

    ghost function State(): Cell
      reads this
    {
      Cell(id, creating)
    }

    constructor ()
      ensures State() == Cell(None, false)
    {
      id, creating := None, false;
    }

    method GetId() returns (sid: Option<Id>)
      ensures sid == State().id
    {
      sid := id;
    }

    method SetId(sid: Id)
      modifies `id
      ensures State() == old(State()).(id := Some(sid))
    {
      id := Some(sid);
    }

    // Compare-exchange of the flag from false to true.
    method Claim() returns (won: bool)
      modifies `creating
      ensures won == !old(creating) && State() == old(State()).(creating := true)
    {
      won := !creating;
      creating := true;
    }

    // With no other task between the steps: a stored id is joined; else the flag
    // decides, and whoever sets it creates.
    method TakeRole() returns (role: Role)
      modifies `creating
      ensures match old(id)
              case Some(sid) => role == Join(sid) && State() == old(State())
              case None => role == (if old(creating) then Wait else Create) && State() == Cell(None, true)
    {
      var sid := GetId();
      if sid.Some? {
        return Join(sid.value);
      }
      var won := Claim();
      if !won {
        return Wait;
      }
      sid := GetId();
      match sid
      case Some(x) => role := Join(x);
      case None => role := Create;
    }

    // A create publishes its id, or gives the flag back.
    method Settle(made: Option<Id>)
      modifies this
      ensures State() == if made.Some? then old(State()).(id := made) else old(State()).(creating := false)
    {
      if made.Some? {
        SetId(made.value);
      } else {
        creating := false;
      }
    }

    method ClearIf(sid: Id) returns (cleared: bool)
      modifies this
      ensures cleared == (old(id) == Some(sid)) && State() == Forgotten(old(State()), sid)
    {
      cleared := id == Some(sid);
      if cleared {
        id := None;
        creating := false;
      }
    }
  }

  // Where a task is. `gen` is history: which create produced the id.
  datatype Pc =
    | Idle
    | LookUp
    | Claiming
    | Won
    | Creating
    | Storing(sid: Id)
    | Releasing
    | Waiting
    | Checking
    | Joining(sid: Id, gen: nat)
    | Clearing(sid: Id, gen: nat)
    | Cleared
    | Connected
    | Gone

  // `made` is history: the ids of the successful creates, oldest first. The
  // lock is held across steps only inside a clear.
  datatype System = System(pcs: seq<Pc>, cell: Cell, lock: Option<nat>, dead: bool, made: seq<Id>)

  datatype Move =
    | Dial
    | Look
    | Claim
    | Recheck
    | CreateOk(sid: Id)
    | CreateFails
    | Store
    | Release
    | Check
    | JoinOk
    | JoinUnknown
    | JoinFails
    | Forget
    | FinishClear
    | PathEnds
    | Cancel
    | Die

  function Init(tasks: nat): System {
    System(seq(tasks, _ => Idle), Cell(None, false), None, false, [])
  }

  function At(s: System, i: nat, pc: Pc): System
    requires i < |s.pcs|
  {
    s.(pcs := s.pcs[i := pc])
  }

  // Reading the id: to join it, or where to go when there is none.
  function Read(s: System, i: nat, none: Pc): System
    requires i < |s.pcs|
  {
    if s.cell.id.Some? then At(s, i, Joining(s.cell.id.value, SatSub(|s.made|, 1))) else At(s, i, none)
  }

  // One atomic step of task i. Taking the mutex needs it free; a task can be
  // dropped only where it awaits, and only once the session is dead.
  function Step(s: System, i: nat, m: Move): Option<System> {
    if i >= |s.pcs| then None
    else
      var pc := s.pcs[i];
      match m
      case Dial => if pc == Idle then Some(At(s, i, LookUp)) else None
      case Look =>
        if s.lock.Some? then None
        else if pc == LookUp then Some(Read(s, i, Claiming))
        else if pc == Waiting then Some(Read(s, i, Checking))
        else None
      case Claim =>
        if pc != Claiming then None
        else if s.cell.creating then Some(At(s, i, Waiting))
        else Some(At(s, i, Won).(cell := s.cell.(creating := true)))
      case Recheck => if pc == Won && s.lock.None? then Some(Read(s, i, Creating)) else None
      case CreateOk(sid) => if pc == Creating then Some(At(s, i, Storing(sid))) else None
      case CreateFails => if pc == Creating then Some(At(s, i, Releasing)) else None
      case Store =>
        if pc.Storing? && s.lock.None? then
          Some(At(s, i, Connected).(cell := s.cell.(id := Some(pc.sid)), made := s.made + [pc.sid]))
        else None
      case Release => if pc == Releasing then Some(At(s, i, Idle).(cell := s.cell.(creating := false))) else None
      case Check =>
        if pc != Checking then None
        else Some(At(s, i, if s.cell.creating then Waiting else Idle))
      case JoinOk => if pc.Joining? then Some(At(s, i, Connected)) else None
      case JoinUnknown => if pc.Joining? then Some(At(s, i, Clearing(pc.sid, pc.gen))) else None
      case JoinFails => if pc.Joining? then Some(At(s, i, Idle)) else None
      case Forget =>
        if !pc.Clearing? || s.lock.Some? then None
        else if s.cell.id != Some(pc.sid) then Some(At(s, i, Idle))
        else Some(At(s, i, Cleared).(cell := s.cell.(id := None), lock := Some(i)))
      case FinishClear =>
        if pc == Cleared then Some(At(s, i, Idle).(cell := s.cell.(creating := false), lock := None)) else None
      case PathEnds => if pc == Connected then Some(At(s, i, Idle)) else None
      case Cancel =>
        if s.dead && (pc == Idle || pc == Creating || pc == Waiting || pc.Joining? || pc == Connected) then
          Some(At(s, i, Gone))
        else None
      case Die => Some(s.(dead := true))
  }

  datatype Moved = By(task: nat, move: Move)

  function Run(s: System, moves: seq<Moved>): Option<System>
    decreases |moves|
  {
    if moves == [] then Some(s)
    else
      match Step(s, moves[0].task, moves[0].move)
      case None => None
      case Some(t) => Run(t, moves[1..])
  }

  // A task that alone may settle the claim: won the flag, is creating, is about
  // to publish or give up, or is half-way through a clear.
  predicate Owner(pc: Pc) {
    pc == Won || pc == Creating || pc.Storing? || pc == Releasing || pc == Cleared
  }

  predicate OneOwner(s: System) {
    forall i, j :: 0 <= i < |s.pcs| && 0 <= j < |s.pcs| && Owner(s.pcs[i]) && Owner(s.pcs[j]) ==> i == j
  }

  predicate OwnersClaimed(s: System) {
    forall i :: 0 <= i < |s.pcs| && Owner(s.pcs[i]) ==> s.cell == Cell(None, true)
  }

  predicate NoDeadFlag(s: System) {
    s.cell == Cell(None, true) && !s.dead ==> exists i :: 0 <= i < |s.pcs| && Owner(s.pcs[i])
  }

  predicate LockOk(s: System) {
    && (forall i :: 0 <= i < |s.pcs| && s.pcs[i] == Gone ==> s.dead)
    && (s.lock.Some? ==> s.lock.value < |s.pcs| && s.pcs[s.lock.value] == Cleared)
    && (forall i :: 0 <= i < |s.pcs| && s.pcs[i] == Cleared ==> s.lock == Some(i))
  }

  predicate IdStored(s: System) {
    s.cell.id.Some? ==> s.cell.creating && s.made != [] && s.cell.id == Some(s.made[|s.made| - 1])
  }

  predicate IdsKnown(s: System) {
    forall i :: 0 <= i < |s.pcs| ==> IdKnown(s.pcs[i], s.made)
  }

  predicate Inv(s: System) {
    OneOwner(s) && OwnersClaimed(s) && NoDeadFlag(s) && LockOk(s) && IdStored(s) && IdsKnown(s)
  }

  lemma InitInv(tasks: nat)
    ensures Inv(Init(tasks))
  {
  }

  lemma OwnersChange(s: System, i: nat, m: Move)
    requires OwnersClaimed(s) && IdStored(s) && Step(s, i, m).Some?
    ensures var t := Step(s, i, m).value;
            && i < |s.pcs| && |t.pcs| == |s.pcs|
            && (Owner(t.pcs[i]) ==> t.cell == Cell(None, true))
            && (Owner(t.pcs[i]) && !Owner(s.pcs[i]) ==> s.cell != Cell(None, true))
            && (!Owner(t.pcs[i]) && !Owner(s.pcs[i]) ==> t.cell == s.cell)
  {
  }

  lemma StepKeepsOwners(s: System, i: nat, m: Move)
    requires Inv(s) && Step(s, i, m).Some?
    ensures OneOwner(Step(s, i, m).value) && OwnersClaimed(Step(s, i, m).value)
  {
    StepShape(s, i, m);
    OwnersChange(s, i, m);
  }

  lemma StepKeepsFlag(s: System, i: nat, m: Move)
    requires Inv(s) && Step(s, i, m).Some?
    ensures NoDeadFlag(Step(s, i, m).value)
  {
    var t := Step(s, i, m).value;
    if t.cell == Cell(None, true) && !t.dead {
      if Owner(t.pcs[i]) {
      } else if s.cell == Cell(None, true) {
        var j :| 0 <= j < |s.pcs| && Owner(s.pcs[j]);
        assert Owner(t.pcs[j]);
      }
    }
  }

  lemma StepShape(s: System, i: nat, m: Move)
    requires Step(s, i, m).Some?
    ensures var t := Step(s, i, m).value;
            && i < |s.pcs| && t.pcs == s.pcs[i := t.pcs[i]]
            && (s.dead ==> t.dead) && (t.pcs[i] == Gone ==> s.dead || s.pcs[i] == Gone)
            && (if t.pcs[i] == Cleared && s.pcs[i] != Cleared then s.lock.None? && t.lock == Some(i)
                else if s.pcs[i] == Cleared && t.pcs[i] != Cleared then t.lock.None?
                else t.lock == s.lock)
  {
  }

  lemma StepKeepsLock(s: System, i: nat, m: Move)
    requires LockOk(s) && Step(s, i, m).Some?
    ensures LockOk(Step(s, i, m).value)
  {
    StepShape(s, i, m);
  }

  predicate IdKnown(pc: Pc, made: seq<Id>) {
    pc.Joining? || pc.Clearing? ==> pc.gen < |made| && made[pc.gen] == pc.sid
  }

  lemma StepIds(s: System, i: nat, m: Move)
    requires Inv(s) && Step(s, i, m).Some?
    ensures s.made <= Step(s, i, m).value.made
    ensures IdKnown(Step(s, i, m).value.pcs[i], Step(s, i, m).value.made)
  {
  }

  lemma StepKeepsStored(s: System, i: nat, m: Move)
    requires Inv(s) && Step(s, i, m).Some?
    ensures IdStored(Step(s, i, m).value)
  {
  }

  lemma StepKeepsIds(s: System, i: nat, m: Move)
    requires Inv(s) && Step(s, i, m).Some?
    ensures IdStored(Step(s, i, m).value) && IdsKnown(Step(s, i, m).value)
  {
    StepShape(s, i, m);
    StepIds(s, i, m);
    StepKeepsStored(s, i, m);
  }

  lemma StepKeepsInv(s: System, i: nat, m: Move)
    requires Inv(s) && Step(s, i, m).Some?
    ensures Inv(Step(s, i, m).value)
  {
    StepKeepsOwners(s, i, m);
    StepKeepsFlag(s, i, m);
    StepKeepsLock(s, i, m);
    StepKeepsIds(s, i, m);
  }

  lemma {:induction false} RunKeepsInv(s: System, moves: seq<Moved>)
    requires Inv(s) && Run(s, moves).Some?
    ensures Inv(Run(s, moves).value)
    decreases |moves|
  {
    if moves != [] {
      StepKeepsInv(s, moves[0].task, moves[0].move);
      RunKeepsInv(Step(s, moves[0].task, moves[0].move).value, moves[1..]);
    }
  }

  // ------------------------------------------------------------ main results

  // With any number of tasks, in any order: at most one is creating or settling
  // a claim; a stored id means the flag is set; the flag without an id means
  // exactly one task will settle it, so nobody waits for nothing.
  lemma OneCreator(tasks: nat, moves: seq<Moved>)
    requires Run(Init(tasks), moves).Some?
    ensures var s := Run(Init(tasks), moves).value;
            && (forall i, j :: 0 <= i < |s.pcs| && 0 <= j < |s.pcs| && Owner(s.pcs[i]) && Owner(s.pcs[j]) ==> i == j)
            && (s.cell.id.Some? ==> s.cell.creating)
            && (!s.dead ==> (s.cell == Cell(None, true) <==> exists i :: 0 <= i < |s.pcs| && Owner(s.pcs[i])))
  {
    InitInv(tasks);
    RunKeepsInv(Init(tasks), moves);
  }

  // Looking again after winning the flag never finds an id.
  lemma RecheckFindsNothing(tasks: nat, moves: seq<Moved>, i: nat)
    requires Run(Init(tasks), moves).Some?
    requires i < tasks && Step(Run(Init(tasks), moves).value, i, Recheck).Some?
    ensures Step(Run(Init(tasks), moves).value, i, Recheck).value.pcs[i] == Creating
  {
    InitInv(tasks);
    RunKeepsInv(Init(tasks), moves);
    RunKeepsTasks(Init(tasks), moves);
  }

  lemma {:induction false} RunKeepsTasks(s: System, moves: seq<Moved>)
    requires Run(s, moves).Some?
    ensures |Run(s, moves).value.pcs| == |s.pcs|
    decreases |moves|
  {
    if moves != [] {
      RunKeepsTasks(Step(s, moves[0].task, moves[0].move).value, moves[1..]);
    }
  }

  predicate NoRepeats(ids: seq<Id>) {
    forall i, j :: 0 <= i < j < |ids| ==> ids[i] != ids[j]
  }

  // A clear after an unknown-session answer either changes nothing or removes
  // the very id the task tried to join; as long as servers do not reuse ids,
  // that is the newest create, so a late answer never undoes a newer one.
  lemma ClearSparesNewer(tasks: nat, moves: seq<Moved>, i: nat)
    requires Run(Init(tasks), moves).Some?
    requires i < tasks && Step(Run(Init(tasks), moves).value, i, Forget).Some?
    ensures var s := Run(Init(tasks), moves).value;
            var t := Step(s, i, Forget).value;
            && i < |s.pcs| && s.pcs[i].Clearing?
            && (t.cell == s.cell || (s.cell.id == Some(s.pcs[i].sid) && t.cell.id.None?))
            && (NoRepeats(s.made) && t.cell != s.cell ==> s.pcs[i].gen == |s.made| - 1)
  {
    InitInv(tasks);
    RunKeepsInv(Init(tasks), moves);
  }

  // The two writes of a clear together are the locked operation.
  lemma ClearIsForgetThenFinish(s: System, i: nat)
    requires Step(s, i, Forget).Some? && s.cell.id == Some(s.pcs[i].sid)
    ensures Step(Step(s, i, Forget).value, i, FinishClear).Some?
    ensures Step(Step(s, i, Forget).value, i, FinishClear).value.cell == Forgotten(s.cell, s.pcs[i].sid)
  {
  }

  // And of an id that is not the stored one there is only the first, which
  // changes nothing.
  lemma ClearOfOtherIdKeeps(s: System, i: nat)
    requires Step(s, i, Forget).Some? && s.cell.id != Some(s.pcs[i].sid)
    ensures Step(s, i, Forget).value == At(s, i, Idle) && Forgotten(s.cell, s.pcs[i].sid) == s.cell
  {
  }

  // While a clear is half-way, no task looks at the id, stores one or clears.
  lemma ClearShutsOthersOut(s: System, i: nat, m: Move)
    requires s.lock.Some? && Step(s, i, m).Some?
    ensures m != Look && m != Recheck && m != Store && m != Forget && (m == FinishClear ==> s.pcs[i] == Cleared)
  {
  }

  // ------------------------------------------------ what one task must do

  predicate Others(moves: seq<Moved>, i: nat) {
    forall k :: 0 <= k < |moves| ==> moves[k].task != i
  }

  lemma {:induction false} OthersLeaveTask(s: System, moves: seq<Moved>, i: nat)
    requires Run(s, moves).Some? && Others(moves, i) && i < |s.pcs|
    ensures i < |Run(s, moves).value.pcs| && Run(s, moves).value.pcs[i] == s.pcs[i]
    decreases |moves|
  {
    if moves != [] {
      StepShape(s, moves[0].task, moves[0].move);
      OthersLeaveTask(Step(s, moves[0].task, moves[0].move).value, moves[1..], i);
    }
  }

  // After an unknown-session answer, whatever the other tasks do meanwhile, the
  // task can only take the forgetting step; then the id is not the stored one.
  lemma UnknownIdIsForgotten(s: System, i: nat, moves: seq<Moved>, m: Move)
    requires Step(s, i, JoinUnknown).Some?
    requires var t := Step(s, i, JoinUnknown).value; Run(t, moves).Some? && Others(moves, i)
    requires Step(Run(Step(s, i, JoinUnknown).value, moves).value, i, m).Some? && m != Die
    ensures s.pcs[i].Joining? && m == Forget
    ensures Step(Run(Step(s, i, JoinUnknown).value, moves).value, i, m).value.cell.id != Some(s.pcs[i].sid)
  {
    OthersLeaveTask(Step(s, i, JoinUnknown).value, moves, i);
  }

  // A created id is the one stored; a create that fails gives the flag back and
  // leaves the id.
  lemma CreateEnds(s: System, i: nat, moves: seq<Moved>, sid: Id)
    requires i < |s.pcs| && s.pcs[i] == Creating
    ensures Step(s, i, CreateOk(sid)).Some? && Step(s, i, CreateFails).Some?
    ensures var t := Run(Step(s, i, CreateOk(sid)).value, moves);
            t.Some? && Others(moves, i) && t.value.lock.None? ==>
              Step(t.value, i, Store).Some? && Step(t.value, i, Store).value.cell == t.value.cell.(id := Some(sid))
    ensures var t := Run(Step(s, i, CreateFails).value, moves);
            t.Some? && Others(moves, i) ==>
              Step(t.value, i, Release).Some? && Step(t.value, i, Release).value.cell == t.value.cell.(creating := false)
  {
    if Run(Step(s, i, CreateOk(sid)).value, moves).Some? && Others(moves, i) {
      OthersLeaveTask(Step(s, i, CreateOk(sid)).value, moves, i);
    }
    if Run(Step(s, i, CreateFails).value, moves).Some? && Others(moves, i) {
      OthersLeaveTask(Step(s, i, CreateFails).value, moves, i);
    }
  }

  // A waiting task that found no id goes on waiting exactly while the flag is
  // set; then its dial fails.
  lemma WaitsWhileClaimed(s: System, i: nat)
    requires i < |s.pcs| && s.pcs[i] == Checking
    ensures Step(s, i, Check) == Some(At(s, i, if s.cell.creating then Waiting else Idle))
  {
  }

  // The three answers to a join, each possible at any time, and what they leave.
  lemma JoinAnswers(s: System, i: nat)
    requires i < |s.pcs| && s.pcs[i].Joining?
    ensures Step(s, i, JoinOk) == Some(At(s, i, Connected)) && Step(s, i, JoinFails) == Some(At(s, i, Idle))
    ensures Step(s, i, JoinUnknown) == Some(At(s, i, Clearing(s.pcs[i].sid, s.pcs[i].gen)))
  {
  }

  // A task is dropped only once the session is dead, and only where it waits: not
  // between winning the flag and settling it, unless during the create itself.
  lemma CancelledIff(s: System, i: nat)
    requires i < |s.pcs|
    ensures Step(s, i, Cancel).Some? <==>
              s.dead && (s.pcs[i] == Creating || !Owner(s.pcs[i])) && s.pcs[i] != LookUp && s.pcs[i] != Claiming
              && s.pcs[i] != Checking && !s.pcs[i].Clearing? && s.pcs[i] != Gone
  {
  }

  // A look joins the stored id, whoever looks; with none stored a new task tries
  // for the flag and a waiting one checks whether it is still set.
  lemma LookJoinsStored(s: System, i: nat)
    requires Step(s, i, Look).Some?
    ensures var t := Step(s, i, Look).value;
            && t.cell == s.cell && i < |s.pcs|
            && if s.cell.id.Some? then t.pcs[i].Joining? && t.pcs[i].sid == s.cell.id.value
               else t.pcs[i] == if s.pcs[i] == LookUp then Claiming else Checking
  {
  }

  // ------------------------------------------- a session stays reachable

  ghost predicate Reaches(s: System, t: System) {
    exists moves :: Run(s, moves) == Some(t)
  }

  lemma ReachesAfter(s: System, i: nat, m: Move, t: System, u: System)
    requires Step(s, i, m) == Some(t) && Reaches(t, u)
    ensures Reaches(s, u)
  {
    var rest :| Run(t, rest) == Some(u);
    var all := [By(i, m)] + rest;
    assert all[1..] == rest;
    assert Run(s, all) == Some(u);
  }

  // The move that brings a task towards a stored id, and how far it has to go.
  function Next(pc: Pc): (Move, nat) {
    match pc
    case Storing(_) => (Store, 1)
    case Creating => (CreateOk(0), 2)
    case Won => (Recheck, 3)
    case Claiming => (Claim, 4)
    case LookUp => (Look, 5)
    case Idle => (Dial, 6)
    case Releasing => (Release, 7)
    case Cleared => (FinishClear, 7)
    case Checking => (Check, 7)
    case Joining(_, _) => (JoinFails, 7)
    case Clearing(_, _) => (Forget, 7)
    case Connected => (PathEnds, 7)
    case Waiting => (Look, 8)
    case Gone => (Die, 0)
  }

  predicate Drivable(s: System, i: nat) {
    Inv(s) && !s.dead && s.cell.id.None? && i < |s.pcs| && (s.cell.creating ==> Owner(s.pcs[i]))
  }

  lemma DriveOne(s: System, i: nat)
    requires Drivable(s, i)
    ensures var (m, far) := Next(s.pcs[i]);
            && Step(s, i, m).Some?
            && (var t := Step(s, i, m).value;
                t.cell.id.Some? || (!t.dead && |t.pcs| == |s.pcs| && t.cell.id.None? && (t.cell.creating ==> Owner(t.pcs[i])) &&
                                    Next(t.pcs[i]).1 < far))
  {
    if s.lock.Some? {
      assert Owner(s.pcs[s.lock.value]);
    }
  }

  lemma {:induction false} Drive(s: System, i: nat)
    requires Drivable(s, i)
    ensures exists t :: Reaches(s, t) && t.cell.id.Some?
    decreases Next(s.pcs[i]).1
  {
    DriveOne(s, i);
    var m := Next(s.pcs[i]).0;
    var t := Step(s, i, m).value;
    StepKeepsInv(s, i, m);
    if t.cell.id.Some? {
      assert Run(t, []) == Some(t);
      ReachesAfter(s, i, m, t, t);
    } else {
      Drive(t, i);
      var u :| Reaches(t, u) && u.cell.id.Some?;
      ReachesAfter(s, i, m, t, u);
    }
  }

  // From every state of a live session with a link, some continuation stores a
  // session id: no interleaving wedges the claim.
  lemma SessionStaysReachable(tasks: nat, moves: seq<Moved>)
    requires tasks > 0 && Run(Init(tasks), moves).Some? && !Run(Init(tasks), moves).value.dead
    ensures exists t :: Reaches(Run(Init(tasks), moves).value, t) && t.cell.id.Some?
  {
    InitInv(tasks);
    RunKeepsInv(Init(tasks), moves);
    RunKeepsTasks(Init(tasks), moves);
    var s := Run(Init(tasks), moves).value;
    if s.cell.id.Some? {
      assert Run(s, []) == Some(s);
      assert Reaches(s, s);
    } else if s.cell.creating {
      var i: nat :| i < |s.pcs| && Owner(s.pcs[i]);
      Drive(s, i);
    } else {
      Drive(s, 0);
    }
  }
}
