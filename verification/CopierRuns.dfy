// The copier as a whole: two directions, and the event that the overlay stream
// behind `b` is gone, polled any number of times.
module CopierRuns {
  import opened Common
  import opened Copier

  // `gone` is true once the event was seen; `start` and `now` are the clock.
  datatype Copy = Copy(ab: Dir, ba: Dir, gone: bool, reaped: bool, start: nat, now: nat)

  // One poll: the time since the last, whether the event is ready, and the
  // answers each direction gets.
  datatype Input = Input(after: nat, goneReady: bool, ab: seq<Timed>, ba: seq<Timed>)

  function NewCopy(start: nat): Copy {
    Copy(NewDir(start), NewDir(start), false, false, start, start)
  }

  function SeeGone(c: Copy, i: Input): (r: Copy)
    requires Sized(c.ab) && Sized(c.ba)
    ensures Sized(r.ab) && r.ba == c.ba
  {
    var now := c.now + i.after;
    var c := c.(now := now, ab := c.ab.(now := now));
    if c.gone || !i.goneReady then c
    else if c.ab.readDone then c.(gone := true)
    else c.(gone := true, reaped := true, ab := ReapDir(c.ab))
  }

  function PollAB(c: Copy, i: Input): (r: (Copy, Verdict))
    requires Sized(c.ab) && Sized(c.ba) && Covers(SeeGone(c, i).ab, i.ab)
    ensures Sized(r.0.ab) && Sized(r.0.ba)
  {
    var c := SeeGone(c, i);
    var (ab, v) := PollDir(c.ab, i.ab);
    (c.(ab := ab, now := ab.now, ba := c.ba.(now := ab.now)), v)
  }

  predicate Answers(c: Copy, i: Input)
    requires Sized(c.ab) && Sized(c.ba)
  {
    && Covers(SeeGone(c, i).ab, i.ab)
    && (PollAB(c, i).1 != Broken ==> Covers(PollAB(c, i).0.ba, i.ba))
  }

  // The second direction is not polled when the first one failed.
  function PollCopy(c: Copy, i: Input): (r: (Copy, Verdict))
    requires Sized(c.ab) && Sized(c.ba) && Answers(c, i)
    ensures Sized(r.0.ab) && Sized(r.0.ba)
  {
    var (c, v) := PollAB(c, i);
    if v == Broken then (c, Broken)
    else
      var (ba, w) := PollDir(c.ba, i.ba);
      (c.(ba := ba, now := ba.now),
       if w == Broken then Broken else if v == Finished && w == Finished then Finished else Suspended)
  }

  // A run ends with the first poll that does not return pending.
  function Run(c: Copy, inputs: seq<Input>): Option<(Copy, Verdict)>
    requires Sized(c.ab) && Sized(c.ba)
    decreases |inputs|
  {
    if inputs == [] then Some((c, Suspended))
    else if !Answers(c, inputs[0]) then None
    else
      var (d, v) := PollCopy(c, inputs[0]);
      if v == Suspended then Run(d, inputs[1..])
      else if |inputs| == 1 then Some((d, v))
      else None
  }

  class CopyTimed {
    const ab: DirState
    const ba: DirState
    var gone: bool
    var reaped: bool
    var now: nat
    const start: nat

    ghost predicate Apart() {
      ab != ba && ab.buf != ba.buf
    }

    ghost function State(): Copy
      reads this, ab, ab.buf, ba, ba.buf
    {
      Copy(ab.State(), ba.State(), gone, reaped, start, now)
    }

    constructor (start: nat)
      ensures Apart() && State() == NewCopy(start) && fresh(ab) && fresh(ba) && fresh(ab.buf) && fresh(ba.buf)
    {
      ab := new DirState(start);
      ba := new DirState(start);
      gone, reaped, now := false, false, start;
      this.start := start;
    }

    method CheckGone(i: Input)
      requires Apart() && Sized(ab.State()) && Sized(ba.State())
      modifies this, ab
      ensures State() == SeeGone(old(State()), i)
    {
      now := now + i.after;
      ab.now := now;
      if !gone && i.goneReady {
        gone := true;
        if !ab.readDone {
          ab.Reaped();
          reaped := true;
        }
      }
    }

    method Poll(i: Input) returns (v: Verdict)
      requires Apart() && Sized(ab.State()) && Sized(ba.State()) && Answers(State(), i)
      modifies this, ab, ab.buf, ba, ba.buf
      ensures (State(), v) == PollCopy(old(State()), i)
    {
      CheckGone(i);
      v := ab.Poll(i.ab);
      now := ab.now;
      ba.now := now;
      assert (State(), v) == PollAB(old(State()), i);
      if v == Broken {
        return;
      }
      var w := ba.Poll(i.ba);
      now := ba.now;
      if w == Broken {
        v := Broken;
      } else if v == Finished && w != Finished {
        v := Suspended;
      }
    }
  }

  // --------------------------------------------------------------- invariant

  // Every byte read was written, thrown away or is still buffered, in order.
  predicate Conserved(d: Dir)
    requires Sized(d)
  {
    && d.read == d.written + d.lost + d.buf[d.pos..d.cap]
    && d.bytes == |d.written| && d.dropped == |d.lost|
    && (d.lost != [] ==> d.readDone)
    && (d.readDone ==> d.pos == d.cap)
  }

  // What is being waited for is what the next call asks for, and nothing
  // written is left unflushed while waiting to read.
  predicate Phased(d: Dir) {
    && (d.shuttingDown ==> d.readDone)
    && (d.done ==> d.shuttingDown)
    && (!d.needFlush ==> d.flushed == |d.written|)
    && (d.shuttingDown ==> !d.needFlush)
    && (d.wait.Some? && d.wait.value.1 == OnRead ==> d.pos == d.cap && !d.readDone && !d.needFlush)
    && (d.wait.Some? && d.wait.value.1 == OnWrite ==> d.pos < d.cap)
  }

  // Billed waits are disjoint stretches of the time since the start.
  predicate Billed(d: Dir, start: nat) {
    && start <= d.now
    && (d.wait.Some? ==> start <= d.wait.value.0 <= d.now)
    && 1000 * (d.readWait + d.writeWait) + start <= if d.wait.Some? then d.wait.value.0 else d.now
  }

  predicate After(log: seq<Event>, first: Event, later: Event) {
    exists i, j :: 0 <= i < j < |log| && log[i] == first && log[j] == later
  }

  // No read after the end of input or a reap, no write after a reap or a
  // shutdown call, nothing after the shutdown.
  predicate Orderly(d: Dir) {
    && !After(d.log, Eof, AskRead) && !After(d.log, Reap, AskRead)
    && !After(d.log, Reap, AskWrite) && !After(d.log, AskShutdown, AskWrite) && !After(d.log, AskShutdown, AskRead)
    && (forall e :: !After(d.log, Shut, e))
    && (Eof in d.log || Reap in d.log ==> d.readDone)
    && (AskShutdown in d.log ==> d.shuttingDown)
    && (Shut in d.log <==> d.done)
  }

  predicate DirOk(d: Dir, start: nat)
    requires Sized(d)
  {
    Conserved(d) && Phased(d) && Billed(d, start) && Orderly(d)
  }

  lemma OneMoreEvent(log: seq<Event>, e: Event, first: Event, later: Event)
    requires After(log + [e], first, later)
    ensures After(log, first, later) || (first in log && later == e)
  {
    var i, j :| 0 <= i < j < |log + [e]| && (log + [e])[i] == first && (log + [e])[j] == later;
    assert log[i] == first;
    if j < |log| {
      assert log[j] == later;
    }
  }

  // Logging an event keeps order when nothing before it forbids it.
  lemma LogKeepsOrder(d: Dir, e: Event, t: Dir)
    requires Orderly(d) && t.log == d.log + [e] && !d.done
    requires d.readDone ==> e != AskRead
    requires e == AskWrite ==> !d.readDone && !d.shuttingDown
    requires e == AskRead ==> !d.shuttingDown
    requires e == Eof || e == Reap ==> t.readDone
    requires e == AskShutdown ==> t.shuttingDown
    requires d.readDone ==> t.readDone
    requires d.shuttingDown ==> t.shuttingDown
    requires t.done <==> e == Shut
    ensures Orderly(t)
  {
    forall first, later | After(t.log, first, later)
      ensures After(d.log, first, later) || (first in d.log && later == e)
    {
      OneMoreEvent(d.log, e, first, later);
    }
    assert forall x :: x in t.log <==> x in d.log || x == e;
  }

  lemma EndWaitKeepsBill(d: Dir, start: nat)
    requires Billed(d, start)
    ensures Billed(EndWait(d), start) && EndWait(d).wait.None?
  {
  }

  // ---------------------------------------------------- one answer keeps it

  lemma NotedKeeps(d: Dir, e: Event, start: nat)
    requires Sized(d) && DirOk(d, start) && !d.done
    requires e == AskRead || e == AskWrite || e == AskShutdown
    requires e == AskRead ==> !d.readDone
    requires e == AskWrite ==> !d.readDone && !d.shuttingDown
    requires e == AskShutdown ==> d.shuttingDown
    ensures DirOk(Noted(d, e), start)
  {
    LogKeepsOrder(d, e, Noted(d, e));
  }

  lemma DataKeepsConserved(d: Dir, data: Bytes)
    requires Sized(d) && Conserved(d) && d.pos == d.cap && !d.readDone && data != [] && |data| <= COPY_BUF
    ensures Conserved(OnReadAnswer(d, ReadOk(data)).0)
  {
    var e := OnReadAnswer(d, ReadOk(data)).0;
    assert e.buf[0..|data|] == data;
    assert d.buf[d.pos..d.cap] == [];
    assert d.lost == [];
  }

  lemma ReadKeeps(d: Dir, a: Answer, start: nat)
    requires Sized(d) && DirOk(d, start) && !d.done && d.pos == d.cap && !d.readDone
    requires a.ReadPending? || a.ReadFailed? || (a.ReadOk? && |a.data| <= COPY_BUF)
    ensures var t := OnReadAnswer(d, a).0; Sized(t) && DirOk(t, start)
  {
    if a.ReadOk? {
      EndWaitKeepsBill(d, start);
      if a.data == [] {
        LogKeepsOrder(d, Eof, OnReadAnswer(d, a).0);
      } else {
        DataKeepsConserved(d, a.data);
      }
    }
  }

  lemma Resplit(read: Bytes, written: Bytes, buf: Bytes, pos: nat, mid: nat, cap: nat)
    requires pos <= mid <= cap <= |buf| && read == written + [] + buf[pos..cap]
    ensures read == (written + buf[pos..mid]) + [] + buf[mid..cap]
  {
    assert buf[pos..cap] == buf[pos..mid] + buf[mid..cap];
  }

  lemma WriteKeepsConserved(d: Dir, n: nat)
    requires Sized(d) && Conserved(d) && d.pos < d.cap && 0 < n <= d.cap - d.pos
    ensures Conserved(OnWriteAnswer(d, WriteOk(n)).0)
  {
    var t := OnWriteAnswer(d, WriteOk(n)).0;
    assert d.lost == [] && t.lost == [];
    assert t.buf == d.buf && t.pos == d.pos + n && t.cap == d.cap && t.read == d.read;
    assert t.written == d.written + d.buf[d.pos..t.pos];
    Resplit(d.read, d.written, d.buf, d.pos, t.pos, d.cap);
    assert t.read == t.written + t.lost + t.buf[t.pos..t.cap];
  }

  lemma WriteKeeps(d: Dir, a: Answer, start: nat)
    requires Sized(d) && DirOk(d, start) && d.pos < d.cap
    requires a.WritePending? || a.WriteFailed? || (a.WriteOk? && a.n <= d.cap - d.pos)
    ensures var t := OnWriteAnswer(d, a).0; Sized(t) && DirOk(t, start)
  {
    if a.WriteOk? && a.n > 0 {
      EndWaitKeepsBill(d, start);
      WriteKeepsConserved(d, a.n);
    }
  }

  lemma ShutdownKeeps(d: Dir, io: Io, start: nat)
    requires Sized(d) && DirOk(d, start) && d.shuttingDown && !d.done
    ensures var t := OnShutdownAnswer(d, io).0; Sized(t) && DirOk(t, start)
  {
    if io == Done {
      LogKeepsOrder(d, Shut, OnShutdownAnswer(d, io).0);
    }
  }

  lemma FlushKeeps(d: Dir, io: Io, start: nat)
    requires Sized(d) && DirOk(d, start) && d.readDone && !d.shuttingDown
    ensures DirOk(OnFlushAnswer(d, io).0, start)
  {
  }

  lemma CalledKeeps(d: Dir, a: Answer, start: nat)
    requires Sized(d) && DirOk(d, start) && Legal(d, a)
    ensures DirOk(Called(d, a).0, start)
  {
    if d.shuttingDown {
      NotedKeeps(d, AskShutdown, start);
      ShutdownKeeps(Noted(d, AskShutdown), a.io, start);
    } else if d.pos == d.cap && !d.readDone {
      NotedKeeps(d, AskRead, start);
      ReadKeeps(Noted(d, AskRead), a, start);
    } else if d.pos < d.cap {
      NotedKeeps(d, AskWrite, start);
      WriteKeeps(Noted(d, AskWrite), a, start);
    } else {
      FlushKeeps(d, a.io, start);
    }
  }

  lemma TickKeeps(d: Dir, now: nat, start: nat)
    requires Sized(d) && DirOk(d, start) && d.now <= now
    ensures DirOk(d.(now := now), start)
  {
  }

  lemma AnsweredKeeps(d: Dir, t: Timed, start: nat)
    requires Sized(d) && DirOk(d, start) && Legal(d, t.answer)
    ensures DirOk(Answered(d, t).0, start)
  {
    var e := d.(now := d.now + t.after);
    TickKeeps(d, d.now + t.after, start);
    KeptAs(e, t.answer, start, Answered(d, t).0);
  }

  lemma KeptAs(e: Dir, a: Answer, start: nat, r: Dir)
    requires Sized(e) && DirOk(e, start) && Legal(e, a) && r == Called(e, a).0
    ensures Sized(r) && DirOk(r, start)
  {
    CalledKeeps(e, a, start);
  }

  lemma {:induction false} PollDirKeeps(d: Dir, script: seq<Timed>, start: nat)
    requires Sized(d) && DirOk(d, start) && Covers(d, script)
    ensures DirOk(PollDir(d, script).0, start) && PollDir(d, script).0.now >= d.now
    ensures PollDir(d, script).1 == Finished ==> PollDir(d, script).0.done
    ensures d.lost == [] && Reap !in d.log ==> PollDir(d, script).0.lost == [] && Reap !in PollDir(d, script).0.log
    ensures PollDir(d, script).0.lost == d.lost
    decreases |script|
  {
    if !d.done {
      AnsweredKeeps(d, script[0], start);
      AnsweredLeaves(d, script[0]);
      var (e, v) := Answered(d, script[0]);
      if v == Going {
        PollDirKeeps(e, script[1..], start);
      }
    }
  }

  lemma CalledLeaves(d: Dir, a: Answer)
    requires Sized(d) && Legal(d, a)
    ensures var r := Called(d, a);
            r.0.lost == d.lost && r.0.now == d.now && r.1 != Finished && (Reap !in d.log ==> Reap !in r.0.log)
  {
  }

  lemma AnsweredLeaves(d: Dir, t: Timed)
    requires Sized(d) && Legal(d, t.answer)
    ensures var r := Answered(d, t);
            r.0.lost == d.lost && r.0.now >= d.now && (Reap !in d.log ==> Reap !in r.0.log) && r.1 != Finished
  {
    CalledLeaves(d.(now := d.now + t.after), t.answer);
  }

  lemma ReapKeeps(d: Dir, start: nat)
    requires Sized(d) && DirOk(d, start) && !d.readDone
    ensures DirOk(ReapDir(d), start)
  {
    EndWaitKeepsBill(d, start);
    LogKeepsOrder(d, Reap, ReapDir(d));
    var t := ReapDir(d);
    assert t.buf[t.pos..t.cap] == [];
    assert d.lost == [];
  }

  // ------------------------------------------------------------- whole runs

  predicate CopyOk(c: Copy)
    requires Sized(c.ab) && Sized(c.ba)
  {
    && DirOk(c.ab, c.start) && DirOk(c.ba, c.start)
    && c.ab.now <= c.now && c.ba.now <= c.now
    && (!c.reaped ==> c.ab.lost == [])
    && c.ba.lost == []
    && (c.reaped ==> c.ab.readDone)
  }

  lemma CopyOkWith(c: Copy, d: Dir, now: nat, gone: bool, reaped: bool)
    requires Sized(c.ab) && Sized(c.ba) && Sized(d) && CopyOk(c) && DirOk(d, c.start) && c.now <= now && d.now <= now
    requires (!reaped ==> d.lost == []) && (reaped ==> d.readDone)
    ensures CopyOk(c.(ab := d, now := now, gone := gone, reaped := reaped))
  {
  }

  lemma TickedCopyOk(c: Copy, now: nat, gone: bool)
    requires Sized(c.ab) && Sized(c.ba) && CopyOk(c) && c.now <= now
    ensures CopyOk(c.(ab := c.ab.(now := now), now := now, gone := gone))
  {
    TickKeeps(c.ab, now, c.start);
    CopyOkWith(c, c.ab.(now := now), now, gone, c.reaped);
  }

  lemma ReapedCopyOk(c: Copy, d: Dir, now: nat)
    requires Sized(c.ab) && Sized(c.ba) && Sized(d) && CopyOk(c) && DirOk(d, c.start)
    requires d.now <= now && c.now <= now && !d.readDone
    ensures CopyOk(c.(ab := ReapDir(d), now := now, gone := true, reaped := true))
  {
    ReapKeeps(d, c.start);
    CopyOkWith(c, ReapDir(d), now, true, true);
  }

  lemma SeeGoneKeeps(c: Copy, i: Input)
    requires Sized(c.ab) && Sized(c.ba) && CopyOk(c)
    ensures CopyOk(SeeGone(c, i))
  {
    var now := c.now + i.after;
    var d := c.ab.(now := now);
    if c.gone || !i.goneReady || d.readDone {
      TickedCopyOk(c, now, c.gone || i.goneReady);
    } else {
      TickKeeps(c.ab, now, c.start);
      ReapedCopyOk(c, d, now);
    }
  }

  lemma PollABKeeps(c: Copy, i: Input)
    requires Sized(c.ab) && Sized(c.ba) && CopyOk(c) && Covers(SeeGone(c, i).ab, i.ab)
    ensures CopyOk(PollAB(c, i).0)
  {
    var s := SeeGone(c, i);
    SeeGoneKeeps(c, i);
    PollDirKeeps(s.ab, i.ab, s.start);
    PollDirStaysEnded(s.ab, i.ab);
    TickKeeps(s.ba, PollDir(s.ab, i.ab).0.now, s.start);
  }

  lemma {:induction false} PollDirStaysEnded(d: Dir, script: seq<Timed>)
    requires Sized(d) && Covers(d, script)
    ensures d.readDone ==> PollDir(d, script).0.readDone
    decreases |script|
  {
    if !d.done && Answered(d, script[0]).1 == Going {
      PollDirStaysEnded(Answered(d, script[0]).0, script[1..]);
    }
  }

  lemma PollCopyKeeps(c: Copy, i: Input)
    requires Sized(c.ab) && Sized(c.ba) && CopyOk(c) && Answers(c, i)
    ensures CopyOk(PollCopy(c, i).0) && PollCopy(c, i).0.start == c.start
    ensures PollCopy(c, i).1 == Finished ==> PollCopy(c, i).0.ab.done && PollCopy(c, i).0.ba.done
  {
    PollABKeeps(c, i);
    var s := SeeGone(c, i);
    SeeGoneKeeps(c, i);
    PollDirKeeps(s.ab, i.ab, s.start);
    var (d, v) := PollAB(c, i);
    if v != Broken {
      PollDirKeeps(d.ba, i.ba, d.start);
    }
  }

  lemma {:induction false} RunKeeps(c: Copy, inputs: seq<Input>)
    requires Sized(c.ab) && Sized(c.ba) && CopyOk(c) && Run(c, inputs).Some?
    ensures var (d, v) := Run(c, inputs).value;
            && Sized(d.ab) && Sized(d.ba) && CopyOk(d) && d.start == c.start
            && (v == Finished ==> d.ab.done && d.ba.done)
    decreases |inputs|
  {
    if inputs != [] {
      PollCopyKeeps(c, inputs[0]);
      var (d, v) := PollCopy(c, inputs[0]);
      if v == Suspended {
        RunKeeps(d, inputs[1..]);
      }
    }
  }

  lemma NewCopyOk(start: nat)
    ensures CopyOk(NewCopy(start))
  {
  }

  // Main result, whatever the readers and writers answer and whenever the
  // stream goes: what is written is an in-order prefix of what was read, the
  // rest is buffered or counted as dropped, calls come in a legal order, the
  // two waits never add up to more than the time that passed, and nothing
  // written stays unflushed while waiting to read or once shutting down.
  lemma CopyIsFaithful(start: nat, inputs: seq<Input>)
    requires Run(NewCopy(start), inputs).Some?
    ensures var c := Run(NewCopy(start), inputs).value.0;
            forall d :: d == c.ab || d == c.ba ==>
              && Sized(d) && Conserved(d) && Orderly(d)
              && d.written <= d.read
              && |d.read| == d.bytes + d.dropped + (d.cap - d.pos)
              && 1000 * (d.readWait + d.writeWait) <= c.now - start
              && (d.wait.Some? && d.wait.value.1 == OnRead ==> d.flushed == d.bytes)
              && (AskShutdown in d.log ==> d.flushed == d.bytes)
  {
    NewCopyOk(start);
    RunKeeps(NewCopy(start), inputs);
  }

  // When the copier returns Ok, both writers were flushed and shut down once;
  // each direction wrote all it read, except that a reap may have dropped
  // bytes of the direction into the stream that is gone.
  lemma FinishedCopyIsComplete(start: nat, inputs: seq<Input>)
    requires Run(NewCopy(start), inputs).Some? && Run(NewCopy(start), inputs).value.1 == Finished
    ensures var c := Run(NewCopy(start), inputs).value.0;
            && c.ba.written == c.ba.read && c.ba.dropped == 0
            && c.ab.written + c.ab.lost == c.ab.read
            && (c.ab.dropped > 0 ==> c.reaped)
            && c.ab.flushed == c.ab.bytes && c.ba.flushed == c.ba.bytes
            && Shut in c.ab.log && Shut in c.ba.log
  {
    NewCopyOk(start);
    RunKeeps(NewCopy(start), inputs);
    var c := Run(NewCopy(start), inputs).value.0;
    assert c.ab.buf[c.ab.pos..c.ab.cap] == [] && c.ba.buf[c.ba.pos..c.ba.cap] == [];
  }

  // -------------------------------------------------------- who is billed

  predicate Pends(a: Answer, side: Side) {
    if side == OnRead then a.ReadPending? else a.WritePending?
  }

  predicate Unbilled(d: Dir, side: Side) {
    && (if side == OnRead then d.readWait == 0 else d.writeWait == 0)
    && !(d.wait.Some? && d.wait.value.1 == side)
  }

  predicate NeverPends(script: seq<Timed>, side: Side) {
    forall i :: 0 <= i < |script| ==> !Pends(script[i].answer, side)
  }

  lemma AnsweredUnbilled(d: Dir, t: Timed, side: Side)
    requires Sized(d) && Legal(d, t.answer) && Unbilled(d, side) && !Pends(t.answer, side)
    ensures Unbilled(Answered(d, t).0, side)
  {
  }

  lemma {:induction false} PollDirUnbilled(d: Dir, script: seq<Timed>, side: Side)
    requires Sized(d) && Covers(d, script) && Unbilled(d, side) && NeverPends(script, side)
    ensures Unbilled(PollDir(d, script).0, side)
    decreases |script|
  {
    if !d.done {
      AnsweredUnbilled(d, script[0], side);
      var (e, v) := Answered(d, script[0]);
      if v == Going {
        PollDirUnbilled(e, script[1..], side);
      }
    }
  }

  function Direction(c: Copy, ab: bool): Dir {
    if ab then c.ab else c.ba
  }

  function Script(i: Input, ab: bool): seq<Timed> {
    if ab then i.ab else i.ba
  }

  lemma PollCopyUnbilled(c: Copy, i: Input, ab: bool, side: Side)
    requires Sized(c.ab) && Sized(c.ba) && Answers(c, i)
    requires Unbilled(Direction(c, ab), side) && NeverPends(Script(i, ab), side)
    ensures Unbilled(Direction(PollCopy(c, i).0, ab), side)
  {
    if ab {
      PollDirUnbilled(SeeGone(c, i).ab, i.ab, side);
    } else {
      var (d, v) := PollAB(c, i);
      if v != Broken {
        PollDirUnbilled(d.ba, i.ba, side);
      }
    }
  }

  // Time is billed to a side only when that side was not ready: in either
  // direction a reader that never pends costs no read wait, and a writer that
  // never pends no write wait.
  lemma {:induction false} OnlyPendingIsBilled(c: Copy, inputs: seq<Input>, ab: bool, side: Side)
    requires Sized(c.ab) && Sized(c.ba) && Run(c, inputs).Some? && Unbilled(Direction(c, ab), side)
    requires forall k :: 0 <= k < |inputs| ==> NeverPends(Script(inputs[k], ab), side)
    ensures Unbilled(Direction(Run(c, inputs).value.0, ab), side)
    decreases |inputs|
  {
    if inputs != [] {
      PollCopyUnbilled(c, inputs[0], ab, side);
      var (d, v) := PollCopy(c, inputs[0]);
      if v == Suspended {
        OnlyPendingIsBilled(d, inputs[1..], ab, side);
      }
    }
  }

  // ---------------------------------------------------------------- progress

  // A reader that brings these pieces and then ends, and a writer that takes
  // each at once, as one poll's answers.
  function Willing(pieces: seq<Bytes>): seq<Timed> {
    if pieces == [] then
      [Timed(0, ReadOk([])), Timed(0, FlushIs(Done)), Timed(0, ShutdownIs(Done))]
    else [Timed(0, ReadOk(pieces[0])), Timed(0, WriteOk(|pieces[0]|))] + Willing(pieces[1..])
  }

  predicate Pieces(pieces: seq<Bytes>) {
    forall i :: 0 <= i < |pieces| ==> 0 < |pieces[i]| <= COPY_BUF
  }

  predicate Fresh(d: Dir) {
    Sized(d) && d.pos == d.cap && !d.readDone && !d.shuttingDown && !d.done
  }

  lemma PieceCopied(d: Dir, data: Bytes)
    requires Fresh(d) && 0 < |data| <= COPY_BUF
    ensures Legal(d, ReadOk(data)) && Answered(d, Timed(0, ReadOk(data))).1 == Going
    ensures var e := Answered(d, Timed(0, ReadOk(data))).0;
            && Legal(e, WriteOk(|data|)) && Answered(e, Timed(0, WriteOk(|data|))).1 == Going
            && var t := Answered(e, Timed(0, WriteOk(|data|))).0;
               t.pos == t.cap && !t.readDone && !t.shuttingDown && !t.done && t.written == d.written + data && t.read == d.read + data
  {
    var e := Answered(d, Timed(0, ReadOk(data))).0;
    assert e.buf[0..|data|] == data;
  }

  lemma OneAnswer(d: Dir, a: Timed, rest: seq<Timed>)
    requires Sized(d) && !d.done && Legal(d, a.answer) && Answered(d, a).1 == Going && Covers(Answered(d, a).0, rest)
    ensures Covers(d, [a] + rest) && PollDir(d, [a] + rest) == PollDir(Answered(d, a).0, rest)
  {
    assert ([a] + rest)[1..] == rest;
  }

  lemma EndCopied(d: Dir)
    requires Fresh(d)
    ensures Covers(d, Willing([]))
    ensures var (t, v) := PollDir(d, Willing([]));
            v == Finished && t.done && t.written == d.written && t.read == d.read && Shut in t.log
  {
    var a, b, c := Timed(0, ReadOk([])), Timed(0, FlushIs(Done)), Timed(0, ShutdownIs(Done));
    var d1 := Answered(d, a).0;
    var d2 := Answered(d1, b).0;
    var d3 := Answered(d2, c).0;
    assert d3.log[|d3.log| - 1] == Shut;
    OneAnswer(d2, c, []);
    OneAnswer(d1, b, [c] + []);
    OneAnswer(d, a, [b] + ([c] + []));
    assert Willing([]) == [a] + ([b] + ([c] + []));
  }

  ghost predicate AllWritten(r: (Dir, Verdict), bytes: Bytes) {
    r.1 == Finished && r.0.done && r.0.written == bytes && Shut in r.0.log
  }

  // One poll with these answers copies these bytes to the end.
  ghost predicate CopiesAll(d: Dir, script: seq<Timed>, bytes: Bytes)
    requires Sized(d)
  {
    Covers(d, script) && AllWritten(PollDir(d, script), d.written + bytes)
  }

  lemma PieceGoes(d: Dir, data: Bytes, rest: seq<Timed>, bytes: Bytes) returns (t: Dir)
    requires Fresh(d) && 0 < |data| <= COPY_BUF
    ensures Fresh(t)
    ensures CopiesAll(t, rest, bytes) ==> CopiesAll(d, [Timed(0, ReadOk(data)), Timed(0, WriteOk(|data|))] + rest, data + bytes)
  {
    var a, b := Timed(0, ReadOk(data)), Timed(0, WriteOk(|data|));
    PieceCopied(d, data);
    var e := Answered(d, a).0;
    t := Answered(e, b).0;
    if CopiesAll(t, rest, bytes) {
      TwoAnswers(d, a, e, b, t, rest);
      Regrouped(d.written, data, bytes);
    }
  }

  lemma Regrouped(a: Bytes, b: Bytes, c: Bytes)
    ensures a + (b + c) == (a + b) + c
  {
  }

  lemma TwoAnswers(d: Dir, a: Timed, e: Dir, b: Timed, t: Dir, rest: seq<Timed>)
    requires Sized(d) && !d.done && Legal(d, a.answer) && Answered(d, a) == (e, Going)
    requires Sized(e) && !e.done && Legal(e, b.answer) && Answered(e, b) == (t, Going) && Sized(t) && Covers(t, rest)
    ensures Covers(d, [a, b] + rest) && PollDir(d, [a, b] + rest) == PollDir(t, rest)
  {
    OneAnswer(e, b, rest);
    OneAnswer(d, a, [b] + rest);
    assert [a, b] + rest == [a] + ([b] + rest);
  }

  // Whatever is read, in pieces up to the buffer's size, can be copied to the
  // end: with both sides ready one poll writes all of it, flushes and shuts down.
  lemma {:induction false} ReadySidesFinish(d: Dir, pieces: seq<Bytes>)
    requires Fresh(d) && Pieces(pieces)
    ensures CopiesAll(d, Willing(pieces), Concat(pieces))
    decreases |pieces|
  {
    if pieces == [] {
      EndCopied(d);
      assert d.written + [] == d.written;
    } else {
      var rest := Willing(pieces[1..]);
      var t := PieceGoes(d, pieces[0], rest, Concat(pieces[1..]));
      ReadySidesFinish(t, pieces[1..]);
      assert Willing(pieces) == [Timed(0, ReadOk(pieces[0])), Timed(0, WriteOk(|pieces[0]|))] + rest;
    }
  }
}
