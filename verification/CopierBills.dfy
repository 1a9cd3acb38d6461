// Every wait of the copier is billed, once and in full, to the side that was
// not ready (crates/nya-core/src/hop.rs).
//
// A meter reads the script alone: no buffers, no bytes, only who answered what
// and when. The bills of every run are the sums of the waits it lists.
module CopierBills {
  import opened Common
  import opened Copier
  import opened CopierRuns

  // A finished wait: from the first time `side` was not ready to its answer, or
  // to the reap that ended it.
  datatype Wait = Wait(begin: nat, end: nat, side: Side)

  // `open` is the wait still going on; `dirty`, `ended` and `over` say that bytes
  // were written since the last flush, that the input ended, that the direction
  // was shut down.
  datatype Meter = Meter(now: nat, open: Option<(nat, Side)>, waits: seq<Wait>, dirty: bool, ended: bool, over: bool)

  function NewMeter(start: nat): Meter {
    Meter(start, None, [], false, false, false)
  }

  function NotReady(m: Meter, side: Side): Meter {
    if m.open.Some? then m else m.(open := Some((m.now, side)))
  }

  function IsReady(m: Meter): Meter {
    match m.open
    case None => m
    case Some((begin, side)) => m.(open := None, waits := m.waits + [Wait(begin, m.now, side)])
  }

  // A reader that is not ready is waited for only once what was written is flushed.
  function Heard(m: Meter, a: Answer): Meter {
    match a
    case ReadPending(flush) => if m.dirty && flush != Done then m else NotReady(m.(dirty := false), OnRead)
    case WritePending => NotReady(m, OnWrite)
    case ReadOk(data) => IsReady(m).(ended := m.ended || data == [])
    case WriteOk(n) => if n == 0 then m else IsReady(m).(dirty := true)
    case FlushIs(io) => if io == Done then m.(dirty := false) else m
    case ShutdownIs(io) => if io == Done then m.(over := true) else m
    case _ => m
  }

  // An answer after which the poll returns, and one after which it fails.
  predicate Stops(a: Answer) {
    a.ReadPending? || a.WritePending? || (a.FlushIs? && a.io == Pending) || (a.ShutdownIs? && a.io == Pending)
  }

  predicate Fails(m: Meter, a: Answer) {
    || a.ReadFailed? || a.WriteFailed? || a == WriteOk(0)
    || (a.ReadPending? && m.dirty && a.flush == Failed)
    || (a.FlushIs? && a.io == Failed) || (a.ShutdownIs? && a.io == Failed)
  }

  function Outcome(m: Meter, a: Answer): Verdict {
    if Fails(m, a) then Broken else if Stops(a) then Suspended else Going
  }

  function Tick(m: Meter, t: Timed): Meter {
    m.(now := m.now + t.after)
  }

  function MeterPoll(m: Meter, script: seq<Timed>): (Meter, Verdict)
    decreases |script|
  {
    if m.over || script == [] then (m, Finished)
    else
      var t := Heard(Tick(m, script[0]), script[0].answer);
      var v := Outcome(Tick(m, script[0]), script[0].answer);
      if v == Going then MeterPoll(t, script[1..]) else (t, v)
  }

  datatype Meters = Meters(ab: Meter, ba: Meter, gone: bool, reaped: bool, now: nat)

  function NewMeters(start: nat): Meters {
    Meters(NewMeter(start), NewMeter(start), false, false, start)
  }

  // The event that the stream is gone ends the input of the direction into it.
  function Gone(ms: Meters, i: Input): Meters {
    var now := ms.now + i.after;
    var m := ms.ab.(now := now);
    if ms.gone || !i.goneReady then ms.(ab := m, now := now)
    else if m.ended then ms.(ab := m, now := now, gone := true)
    else ms.(ab := IsReady(m).(ended := true), now := now, gone := true, reaped := true)
  }

  function MeterCopy(ms: Meters, i: Input): (Meters, Verdict) {
    var g := Gone(ms, i);
    var (ab, v) := MeterPoll(g.ab, i.ab);
    var ba := g.ba.(now := ab.now);
    if v == Broken then (g.(ab := ab, ba := ba, now := ab.now), Broken)
    else
      var (after, w) := MeterPoll(ba, i.ba);
      (g.(ab := ab, ba := after, now := after.now),
       if w == Broken then Broken else if v == Finished && w == Finished then Finished else Suspended)
  }

  function MeterRun(ms: Meters, inputs: seq<Input>): (Meters, Verdict)
    decreases |inputs|
  {
    if inputs == [] then (ms, Suspended)
    else
      var (t, v) := MeterCopy(ms, inputs[0]);
      if v == Suspended then MeterRun(t, inputs[1..]) else (t, v)
  }

  // Whole microseconds of the waits for one side.
  function Billed(waits: seq<Wait>, side: Side): nat {
    if waits == [] then 0
    else
      var w := waits[|waits| - 1];
      Billed(waits[..|waits| - 1], side) + if w.side == side then SatSub(w.end, w.begin) / 1000 else 0
  }

  lemma BilledOneMore(waits: seq<Wait>, w: Wait, side: Side)
    ensures Billed(waits + [w], side) == Billed(waits, side) + if w.side == side then SatSub(w.end, w.begin) / 1000 else 0
  {
    assert (waits + [w])[..|waits|] == waits;
  }

  // -------------------------------------------------------- the meter agrees

  predicate Agrees(d: Dir, m: Meter) {
    d.now == m.now && Shows(d, m)
  }

  predicate Shows(d: Dir, m: Meter) {
    SameState(d, m) && SameBills(d, m)
  }

  predicate SameState(d: Dir, m: Meter) {
    d.wait == m.open && d.needFlush == m.dirty && d.readDone == m.ended && d.done == m.over
  }

  predicate SameBills(d: Dir, m: Meter) {
    d.readWait == Billed(m.waits, OnRead) && d.writeWait == Billed(m.waits, OnWrite)
  }

  // Nothing billed and no wait finished.
  lemma BillsStay(d: Dir, m: Meter, e: Dir, n: Meter)
    requires SameBills(d, m) && e.readWait == d.readWait && e.writeWait == d.writeWait && n.waits == m.waits
    ensures SameBills(e, n)
  {
  }

  lemma ReadyAgrees(d: Dir, m: Meter)
    requires Agrees(d, m)
    ensures Agrees(EndWait(d), IsReady(m))
  {
    if m.open.Some? {
      var w := Wait(m.open.value.0, m.now, m.open.value.1);
      BilledOneMore(m.waits, w, OnRead);
      BilledOneMore(m.waits, w, OnWrite);
    }
  }

  lemma ReadAgrees(d: Dir, m: Meter, a: Answer)
    requires |d.buf| == COPY_BUF && Agrees(d, m)
    requires a.ReadPending? || a.ReadFailed? || (a.ReadOk? && |a.data| <= COPY_BUF)
    ensures Agrees(OnReadAnswer(d, a).0, Heard(m, a)) && OnReadAnswer(d, a).1 == Outcome(m, a)
  {
    if a.ReadOk? {
      ReadyAgrees(d, m);
      BillsStay(EndWait(d), IsReady(m), OnReadAnswer(d, a).0, Heard(m, a));
    } else {
      BillsStay(d, m, OnReadAnswer(d, a).0, Heard(m, a));
    }
    ReadStates(d, m, a);
  }

  lemma ReadStates(d: Dir, m: Meter, a: Answer)
    requires |d.buf| == COPY_BUF && SameState(d, m) && d.now == m.now
    requires a.ReadPending? || a.ReadFailed? || (a.ReadOk? && |a.data| <= COPY_BUF)
    ensures SameState(OnReadAnswer(d, a).0, Heard(m, a)) && OnReadAnswer(d, a).1 == Outcome(m, a)
  {
  }

  lemma WriteAgrees(d: Dir, m: Meter, a: Answer)
    requires d.pos < d.cap <= |d.buf| && Agrees(d, m)
    requires a.WritePending? || a.WriteFailed? || (a.WriteOk? && a.n <= d.cap - d.pos)
    ensures Agrees(OnWriteAnswer(d, a).0, Heard(m, a)) && OnWriteAnswer(d, a).1 == Outcome(m, a)
  {
    ReadyAgrees(d, m);
  }

  lemma CalledAgrees(d: Dir, m: Meter, a: Answer)
    requires Sized(d) && Legal(d, a) && Agrees(d, m)
    ensures Agrees(Called(d, a).0, Heard(m, a)) && Called(d, a).1 == Outcome(m, a)
  {
    if d.shuttingDown {
    } else if d.pos == d.cap && !d.readDone {
      ReadAgrees(Noted(d, AskRead), m, a);
    } else if d.pos < d.cap {
      WriteAgrees(Noted(d, AskWrite), m, a);
    }
  }

  lemma TickAgrees(d: Dir, m: Meter, t: Timed)
    requires Agrees(d, m)
    ensures Agrees(d.(now := d.now + t.after), Tick(m, t))
  {
    BillsStay(d, m, d.(now := d.now + t.after), Tick(m, t));
  }

  lemma CalledLater(d: Dir, e: Dir, t: Timed)
    requires Sized(d) && Legal(d, t.answer) && e == d.(now := d.now + t.after)
    ensures Sized(e) && Legal(e, t.answer) && Answered(d, t) == Called(e, t.answer)
  {
  }

  lemma AnswerAgrees(d: Dir, m: Meter, t: Timed)
    requires Sized(d) && Legal(d, t.answer) && Agrees(d, m)
    ensures Agrees(Answered(d, t).0, Heard(Tick(m, t), t.answer)) && Answered(d, t).1 == Outcome(Tick(m, t), t.answer)
  {
    var e := d.(now := d.now + t.after);
    TickAgrees(d, m, t);
    CalledLater(d, e, t);
    CalledAgrees(e, Tick(m, t), t.answer);
  }

  lemma {:induction false} PollAgrees(d: Dir, m: Meter, script: seq<Timed>)
    requires Sized(d) && Covers(d, script) && Agrees(d, m)
    ensures Agrees(PollDir(d, script).0, MeterPoll(m, script).0)
    ensures PollDir(d, script).1 == MeterPoll(m, script).1
    decreases |script|
  {
    if !d.done {
      AnswerAgrees(d, m, script[0]);
      var (e, v) := Answered(d, script[0]);
      if v == Going {
        PollAgrees(e, Heard(Tick(m, script[0]), script[0].answer), script[1..]);
      }
    }
  }

  predicate BothAgree(c: Copy, ms: Meters) {
    Shows(c.ab, ms.ab) && Shows(c.ba, ms.ba) && c.gone == ms.gone && c.reaped == ms.reaped && c.now == ms.now
  }

  lemma ReapAgrees(d: Dir, m: Meter)
    requires Sized(d) && Agrees(d, m)
    ensures Agrees(ReapDir(d), IsReady(m).(ended := true))
  {
    ReadyAgrees(d, m);
    BillsStay(EndWait(d), IsReady(m), ReapDir(d), IsReady(m).(ended := true));
  }

  lemma StaysAgrees(c: Copy, ms: Meters, i: Input)
    requires Sized(c.ab) && Sized(c.ba) && BothAgree(c, ms) && (c.gone || !i.goneReady || c.ab.readDone)
    ensures Shows(SeeGone(c, i).ab, Gone(ms, i).ab)
  {
    assert SeeGone(c, i).ab == c.ab.(now := c.now + i.after) && Gone(ms, i).ab == ms.ab.(now := ms.now + i.after);
    BillsStay(c.ab, ms.ab, SeeGone(c, i).ab, Gone(ms, i).ab);
  }

  lemma ReapedWhenGone(c: Copy, i: Input, d: Dir)
    requires Sized(c.ab) && Sized(c.ba) && !c.gone && i.goneReady && !c.ab.readDone && d == c.ab.(now := c.now + i.after)
    ensures SeeGone(c, i).ab == ReapDir(d)
  {
  }

  lemma EndedWhenGone(ms: Meters, i: Input, m: Meter)
    requires !ms.gone && i.goneReady && !ms.ab.ended && m == ms.ab.(now := ms.now + i.after)
    ensures Gone(ms, i).ab == IsReady(m).(ended := true)
  {
  }

  lemma LaterShows(d: Dir, m: Meter, now: nat, e: Dir, n: Meter)
    requires Shows(d, m) && e == d.(now := now) && n == m.(now := now)
    ensures Agrees(e, n)
  {
    BillsStay(d, m, e, n);
  }

  lemma GoesAgrees(c: Copy, ms: Meters, i: Input)
    requires Sized(c.ab) && Sized(c.ba) && BothAgree(c, ms) && !c.gone && i.goneReady && !c.ab.readDone
    ensures Shows(SeeGone(c, i).ab, Gone(ms, i).ab)
  {
    var d, m := c.ab.(now := c.now + i.after), ms.ab.(now := ms.now + i.after);
    LaterShows(c.ab, ms.ab, c.now + i.after, d, m);
    ReapAgrees(d, m);
    ReapedWhenGone(c, i, d);
    EndedWhenGone(ms, i, m);
  }

  lemma GoneAgrees(c: Copy, ms: Meters, i: Input)
    requires Sized(c.ab) && Sized(c.ba) && BothAgree(c, ms)
    ensures Shows(SeeGone(c, i).ab, Gone(ms, i).ab)
  {
    if c.gone || !i.goneReady || c.ab.readDone {
      StaysAgrees(c, ms, i);
    } else {
      GoesAgrees(c, ms, i);
    }
  }

  lemma GoneIsSeen(c: Copy, ms: Meters, i: Input)
    requires Sized(c.ab) && Sized(c.ba) && c.gone == ms.gone && c.reaped == ms.reaped && c.now == ms.now && c.ab.readDone == ms.ab.ended
    ensures var d, n := SeeGone(c, i), Gone(ms, i);
            && d.gone == n.gone && d.reaped == n.reaped && d.now == n.now && d.ab.now == n.ab.now == d.now
            && d.ba == c.ba && n.ba == ms.ba
  {
  }

  lemma CopyAgrees(c: Copy, ms: Meters, i: Input)
    requires Sized(c.ab) && Sized(c.ba) && Answers(c, i) && BothAgree(c, ms)
    ensures BothAgree(PollCopy(c, i).0, MeterCopy(ms, i).0) && PollCopy(c, i).1 == MeterCopy(ms, i).1
  {
    var s, g := SeeGone(c, i), Gone(ms, i);
    GoneAgrees(c, ms, i);
    GoneIsSeen(c, ms, i);
    PollAgrees(s.ab, g.ab, i.ab);
    var (d, v) := PollAB(c, i);
    BillsStay(s.ba, g.ba, d.ba, g.ba.(now := d.now));
    if v != Broken {
      PollAgrees(d.ba, g.ba.(now := d.now), i.ba);
    }
  }

  lemma {:induction false} RunAgrees(c: Copy, ms: Meters, inputs: seq<Input>)
    requires Sized(c.ab) && Sized(c.ba) && Run(c, inputs).Some? && BothAgree(c, ms)
    ensures var (d, v) := Run(c, inputs).value;
            BothAgree(d, MeterRun(ms, inputs).0) && v == MeterRun(ms, inputs).1
    decreases |inputs|
  {
    if inputs != [] {
      CopyAgrees(c, ms, inputs[0]);
      var (d, v) := PollCopy(c, inputs[0]);
      if v == Suspended {
        RunAgrees(d, MeterCopy(ms, inputs[0]).0, inputs[1..]);
      }
    }
  }

  // Over all polls, in each direction and for each side: what is billed is the
  // sum of the finished waits, each in whole microseconds, and a wait that goes
  // on is the one the meter shows. The script alone also decides how the run ends
  // and whether the stream was reaped.
  lemma EveryWaitIsBilled(start: nat, inputs: seq<Input>)
    requires Run(NewCopy(start), inputs).Some?
    ensures var (c, v) := Run(NewCopy(start), inputs).value;
            var (ms, w) := MeterRun(NewMeters(start), inputs);
            && c.ab.readWait == Billed(ms.ab.waits, OnRead) && c.ab.writeWait == Billed(ms.ab.waits, OnWrite)
            && c.ba.readWait == Billed(ms.ba.waits, OnRead) && c.ba.writeWait == Billed(ms.ba.waits, OnWrite)
            && c.ab.wait == ms.ab.open && c.ba.wait == ms.ba.open
            && v == w && c.reaped == ms.reaped
            && (v == Finished ==> ms.ab.over && ms.ba.over && ms.ab.open.None? && ms.ba.open.None?)
  {
    NewCopyOk(start);
    RunKeeps(NewCopy(start), inputs);
    RunAgrees(NewCopy(start), NewMeters(start), inputs);
  }

  // ----------------------------------------------------------- what it lists

  // A stretch of not being ready lasts from its first moment, however often the
  // same side is asked in between, to the answer.
  lemma {:induction false} StretchIsOneWait(m: Meter, side: Side, times: seq<nat>, last: nat, a: Answer)
    requires m.open.None? && times != [] && (forall i, j :: 0 <= i < j < |times| ==> times[i] <= times[j])
    requires times[|times| - 1] <= last
    requires (side == OnRead && a.ReadOk?) || (side == OnWrite && a.WriteOk? && a.n > 0)
    ensures var t := Heard(Asked(m, side, times).(now := last), a);
            t.open.None? && t.waits == m.waits + [Wait(times[0], last, side)]
  {
    AskedIs(m, side, times);
  }

  // Asked at each of these times and not ready; nothing is left to flush.
  function Asked(m: Meter, side: Side, times: seq<nat>): Meter
    decreases |times|
  {
    if times == [] then m
    else
      var before := Asked(m, side, times[..|times| - 1]);
      Heard(before.(now := times[|times| - 1]), if side == OnRead then ReadPending(Done) else WritePending)
  }

  lemma {:induction false} AskedIs(m: Meter, side: Side, times: seq<nat>)
    requires m.open.None? && times != []
    ensures Asked(m, side, times).open == Some((times[0], side)) && Asked(m, side, times).waits == m.waits
    decreases |times|
  {
    var front := times[..|times| - 1];
    if front == [] {
      assert Asked(m, side, front) == m;
    } else {
      AskedIs(m, side, front);
    }
  }
}
