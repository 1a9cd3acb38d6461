// The bidirectional copier (crates/nya-core/src/hop.rs).
//
// Each direction is a poll loop over a reader and a writer that may answer
// anything; the answers are a script, and time passes between them.
module Copier {
  import opened Common

  const COPY_BUF: nat := 8192

  datatype Side = OnRead | OnWrite

  datatype Io = Pending | Failed | Done

  // A read that is not ready may be followed by a flush, so it carries that
  // answer too; it is ignored when nothing needs flushing.
  datatype Answer =
    | ReadPending(flush: Io)
    | ReadFailed
    | ReadOk(data: Bytes)
    | WritePending
    | WriteFailed
    | WriteOk(n: nat)
    | FlushIs(io: Io)
    | ShutdownIs(io: Io)

  // An answer, and the nanoseconds since the one before.
  datatype Timed = Timed(after: nat, answer: Answer)

  datatype Event = AskRead | Eof | AskWrite | Reap | AskShutdown | Shut

  // One direction. The last six fields are history: the clock, the bytes read,
  // written and thrown away, how many were flushed, and the calls in order.
  datatype Dir = Dir(
    buf: Bytes,
    pos: nat,
    cap: nat,
    readDone: bool,
    needFlush: bool,
    shuttingDown: bool,
    done: bool,
    bytes: nat,
    readWait: nat,
    writeWait: nat,
    dropped: nat,
    wait: Option<(nat, Side)>,
    now: nat,
    read: Bytes,
    written: Bytes,
    lost: Bytes,
    flushed: nat,
    log: seq<Event>)

  function NewDir(now: nat): Dir {
    Dir(seq(COPY_BUF, _ => 0), 0, 0, false, false, false, false, 0, 0, 0, 0, None, now, [], [], [], 0, [])
  }

  // ---------------------------------------------------------- one direction

  function StartWait(d: Dir, on: Side): Dir {
    if d.wait.None? then d.(wait := Some((d.now, on))) else d
  }

  function EndWait(d: Dir): Dir {
    if d.wait.None? then d
    else
      var us := SatSub(d.now, d.wait.value.0) / 1000;
      if d.wait.value.1 == OnRead then d.(wait := None, readWait := d.readWait + us)
      else d.(wait := None, writeWait := d.writeWait + us)
  }

  datatype Verdict = Going | Suspended | Broken | Finished

  predicate Legal(d: Dir, a: Answer) {
    if d.done then false
    else if d.shuttingDown then a.ShutdownIs?
    else if d.pos == d.cap && !d.readDone then
      a.ReadPending? || a.ReadFailed? || (a.ReadOk? && |a.data| <= COPY_BUF)
    else if d.pos < d.cap then a.WritePending? || a.WriteFailed? || (a.WriteOk? && a.n <= d.cap - d.pos)
    else a.FlushIs?
  }

  function OnReadAnswer(d: Dir, a: Answer): (Dir, Verdict)
    requires |d.buf| == COPY_BUF
    requires a.ReadPending? || a.ReadFailed? || (a.ReadOk? && |a.data| <= COPY_BUF)
  {
    match a
    case ReadPending(flush) =>
      if d.needFlush && flush == Pending then (d, Suspended)
      else if d.needFlush && flush == Failed then (d, Broken)
      else if d.needFlush then (StartWait(d.(needFlush := false, flushed := |d.written|), OnRead), Suspended)
      else (StartWait(d, OnRead), Suspended)
    case ReadFailed => (d, Broken)
    case ReadOk(data) =>
      var e := EndWait(d);
      if data == [] then (e.(readDone := true, log := e.log + [Eof]), Going)
      else (e.(pos := 0, cap := |data|, buf := data + e.buf[|data|..], read := e.read + data), Going)
  }

  function OnWriteAnswer(d: Dir, a: Answer): (Dir, Verdict)
    requires d.pos < d.cap <= |d.buf|
    requires a.WritePending? || a.WriteFailed? || (a.WriteOk? && a.n <= d.cap - d.pos)
  {
    match a
    case WritePending => (StartWait(d, OnWrite), Suspended)
    case WriteFailed => (d, Broken)
    case WriteOk(n) =>
      if n == 0 then (d, Broken)
      else
        var e := EndWait(d);
        (e.(pos := e.pos + n, bytes := e.bytes + n, needFlush := true, written := e.written + e.buf[e.pos..e.pos + n]), Going)
  }

  function OnFlushAnswer(d: Dir, io: Io): (Dir, Verdict) {
    match io
    case Pending => (d, Suspended)
    case Failed => (d, Broken)
    case Done => (d.(needFlush := false, shuttingDown := true, flushed := |d.written|), Going)
  }

  function OnShutdownAnswer(d: Dir, io: Io): (Dir, Verdict) {
    match io
    case Pending => (d, Suspended)
    case Failed => (d, Broken)
    case Done => (d.(done := true, log := d.log + [Shut]), Going)
  }

  function Noted(d: Dir, e: Event): Dir {
    d.(log := d.log + [e])
  }

  predicate Sized(d: Dir) {
    |d.buf| == COPY_BUF && d.pos <= d.cap <= COPY_BUF
  }

  // The next call the loop makes.
  function Called(d: Dir, a: Answer): (r: (Dir, Verdict))
    requires Sized(d) && Legal(d, a)
    ensures Sized(r.0)
  {
    if d.shuttingDown then OnShutdownAnswer(Noted(d, AskShutdown), a.io)
    else if d.pos == d.cap && !d.readDone then OnReadAnswer(Noted(d, AskRead), a)
    else if d.pos < d.cap then OnWriteAnswer(Noted(d, AskWrite), a)
    else OnFlushAnswer(d, a.io)
  }

  function Answered(d: Dir, t: Timed): (r: (Dir, Verdict))
    requires Sized(d) && Legal(d, t.answer)
    ensures Sized(r.0)
  {
    Called(d.(now := d.now + t.after), t.answer)
  }

  // The script answers every call until the poll returns.
  predicate Covers(d: Dir, script: seq<Timed>)
    requires Sized(d)
    decreases |script|
  {
    || d.done
    || (script != [] && Legal(d, script[0].answer) &&
        (Answered(d, script[0]).1 == Going ==> Covers(Answered(d, script[0]).0, script[1..])))
  }

  function PollDir(d: Dir, script: seq<Timed>): (r: (Dir, Verdict))
    requires Sized(d) && Covers(d, script)
    ensures Sized(r.0) && r.1 != Going
    decreases |script|
  {
    if d.done then (d, Finished)
    else
      var (e, v) := Answered(d, script[0]);
      if v == Going then PollDir(e, script[1..]) else (e, v)
  }

  class DirState {
    const buf: array<byte>
    var pos: nat
    var cap: nat
    var readDone: bool
    var needFlush: bool
    var shuttingDown: bool
    var done: bool
    var bytes: nat
    var readWait: nat
    var writeWait: nat
    var dropped: nat
    var wait: Option<(nat, Side)>
    var now: nat
    ghost var read: Bytes
    ghost var written: Bytes
    ghost var lost: Bytes
    ghost var flushed: nat
    ghost var log: seq<Event>

    ghost function State(): Dir
      reads this, buf
    {
      Dir(buf[..], pos, cap, readDone, needFlush, shuttingDown, done, bytes, readWait, writeWait, dropped, wait,
          now, read, written, lost, flushed, log)
    }

    constructor (start: nat)
      ensures State() == NewDir(start) && fresh(buf)
    {
      buf := new byte[COPY_BUF](_ => 0);
      pos, cap, readDone, needFlush, shuttingDown, done := 0, 0, false, false, false, false;
      bytes, readWait, writeWait, dropped, wait, now := 0, 0, 0, 0, None, start;
      read, written, lost, flushed, log := [], [], [], 0, [];
    }

    method Waiting(on: Side)
      modifies `wait
      ensures State() == StartWait(old(State()), on)
    {
      if wait.None? {
        wait := Some((now, on));
      }
    }

    method Ready()
      modifies `wait, `readWait, `writeWait
      ensures State() == EndWait(old(State()))
    {
      if wait.Some? {
        var us := SatSub(now, wait.value.0) / 1000;
        if wait.value.1 == OnRead {
          readWait := readWait + us;
        } else {
          writeWait := writeWait + us;
        }
        wait := None;
      }
    }

    method Fill(data: Bytes)
      requires |data| <= buf.Length
      modifies buf
      ensures buf[..] == data + old(buf[..])[|data|..]
    {
      for i := 0 to |data|
        invariant forall j :: 0 <= j < i ==> buf[j] == data[j]
        invariant forall j :: i <= j < buf.Length ==> buf[j] == old(buf[j])
      {
        buf[i] := data[i];
      }
      assert |data + old(buf[..])[|data|..]| == buf.Length;
    }

    method Accept(data: Bytes)
      requires |data| <= buf.Length == COPY_BUF
      modifies this, buf
      ensures (State(), Going) == OnReadAnswer(old(State()), ReadOk(data))
    {
      Ready();
      if |data| == 0 {
        readDone := true;
        log := log + [Eof];
      } else {
        pos, cap := 0, |data|;
        Fill(data);
        read := read + data;
      }
    }

    method FlushThenWait(flush: Io) returns (v: Verdict)
      requires buf.Length == COPY_BUF
      modifies this
      ensures (State(), v) == OnReadAnswer(old(State()), ReadPending(flush))
    {
      if needFlush {
        if flush == Pending {
          return Suspended;
        } else if flush == Failed {
          return Broken;
        }
        needFlush, flushed := false, |written|;
      }
      Waiting(OnRead);
      v := Suspended;
    }

    method PollRead(a: Answer) returns (v: Verdict)
      requires buf.Length == COPY_BUF
      requires a.ReadPending? || a.ReadFailed? || (a.ReadOk? && |a.data| <= COPY_BUF)
      modifies this, buf
      ensures (State(), v) == OnReadAnswer(old(State()), a)
    {
      match a
      case ReadPending(flush) => v := FlushThenWait(flush);
      case ReadFailed => v := Broken;
      case ReadOk(data) =>
        Accept(data);
        v := Going;
    }

    method Written(n: nat)
      requires 0 < n <= cap - pos && cap <= buf.Length && pos < cap
      modifies this
      ensures (State(), Going) == OnWriteAnswer(old(State()), WriteOk(n))
    {
      Ready();
      written := written + buf[..][pos..pos + n];
      pos, bytes, needFlush := pos + n, bytes + n, true;
    }

    method PollWrite(a: Answer) returns (v: Verdict)
      requires pos < cap <= buf.Length
      requires a.WritePending? || a.WriteFailed? || (a.WriteOk? && a.n <= cap - pos)
      modifies this
      ensures (State(), v) == OnWriteAnswer(old(State()), a)
    {
      match a
      case WritePending =>
        Waiting(OnWrite);
        v := Suspended;
      case WriteFailed =>
        v := Broken;
      case WriteOk(n) =>
        if n == 0 {
          return Broken;
        }
        Written(n);
        v := Going;
    }

    method PollFlush(io: Io) returns (v: Verdict)
      modifies this
      ensures (State(), v) == OnFlushAnswer(old(State()), io)
    {
      match io
      case Pending => v := Suspended;
      case Failed => v := Broken;
      case Done =>
        needFlush, shuttingDown, flushed := false, true, |written|;
        v := Going;
    }

    method PollShutdown(io: Io) returns (v: Verdict)
      modifies this
      ensures (State(), v) == OnShutdownAnswer(old(State()), io)
    {
      match io
      case Pending => v := Suspended;
      case Failed => v := Broken;
      case Done =>
        done, log := true, log + [Shut];
        v := Going;
    }

    method PollOnce(t: Timed) returns (v: Verdict)
      requires Sized(State()) && Legal(State(), t.answer)
      modifies this, buf
      ensures (State(), v) == Answered(old(State()), t)
    {
      now := now + t.after;
      if shuttingDown {
        log := log + [AskShutdown];
        v := PollShutdown(t.answer.io);
      } else if pos == cap && !readDone {
        log := log + [AskRead];
        v := PollRead(t.answer);
      } else if pos < cap {
        log := log + [AskWrite];
        v := PollWrite(t.answer);
      } else {
        v := PollFlush(t.answer.io);
      }
    }

    // One poll: read, write out what was read, and at the end of input flush
    // and shut down, until something is not ready.
    method Poll(script: seq<Timed>) returns (v: Verdict)
      requires Sized(State()) && Covers(State(), script)
      modifies this, buf
      ensures (State(), v) == PollDir(old(State()), script)
    {
      var k := 0;
      while true
        invariant k <= |script| && Sized(State()) && Covers(State(), script[k..])
        invariant PollDir(State(), script[k..]) == PollDir(old(State()), script)
        decreases |script| - k
      {
        if done {
          return Finished;
        }
        v := PollOnce(script[k]);
        if v != Going {
          return;
        }
        k := k + 1;
      }
    }

    // The overlay stream is gone: what is buffered cannot be delivered.
    method Reaped()
      requires Sized(State())
      modifies this
      ensures State() == ReapDir(old(State()))
    {
      Ready();
      dropped := dropped + (cap - pos);
      lost := lost + buf[..][pos..cap];
      pos, readDone, log := cap, true, log + [Reap];
    }
  }

  function ReapDir(d: Dir): (r: Dir)
    requires Sized(d)
  {
    var e := EndWait(d);
    e.(dropped := e.dropped + (e.cap - e.pos), lost := e.lost + e.buf[e.pos..e.cap], pos := e.cap,
       readDone := true, log := e.log + [Reap])
  }
}
