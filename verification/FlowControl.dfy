// Flow control of one overlay stream (crates/nya-core/src/stream.rs,
// crates/nya-core/src/session/streams.rs): the receiver advertises what its cap
// leaves free, and the sender keeps unacknowledged bytes within that window.
//
// Nothing here is read in one piece: a chunk is handed to the application before
// it is counted; an acknowledgement reads its offset, then the cap, the count of
// unread bytes and the bytes behind a hole, and is sent later; and
// acknowledgements cross on different paths.
module FlowControl {
  import opened Common
  import opened Sack
  import opened Overlay
  import opened OverlayRuns

  // A stream's channel holds this many chunks; the cap may grow as far.
  const CHAN: nat := 64

  // What an acknowledgement has read so far: its offset, and what the cap it
  // read left beside the bytes counted as unread. `gen` and `next` are history:
  // its place in the order in which the counts were read, and the receiver's
  // offset at that moment.
  datatype Look = Look(upTo: nat, base: nat, gen: nat, next: nat)

  // The acknowledgement sent, with its window; `sent` is its place in the order
  // they were sent.
  datatype Notice = Notice(look: Look, ack: Ack, window: nat, sent: nat)

  // `counted` is the bytes the receiver counts as handed over and not yet read,
  // `adding` a chunk handed over that it has still to count. `consumed`, the
  // bytes the application really took, `top`, the largest cap so far, and
  // `looks` are history.
  datatype Flow = Flow(
    sys: System,
    window: nat,
    floor: nat,
    cap: nat,
    counted: nat,
    adding: nat,
    top: nat,
    consumed: nat,
    looks: set<Look>,
    notices: set<Notice>,
    gen: nat,
    sent: nat,
    heard: Option<Notice>)

  // Hearing a notice may happen in any order, any number of times. `cap` is what
  // the acknowledgement read before as the cap, and `behind` what it reads later,
  // without a lock, as the bytes behind a hole.
  datatype Act =
    | Write(piece: Bytes)
    | Network(a: Action)
    | HandOver
    | Count
    | LookAt(upTo: nat, cap: nat)
    | Send(look: Look, behind: nat)
    | Hear(n: Notice)
    | AppReads(count: nat)
    | Tune(cap: nat)

  function Start(initial: nat): Flow {
    Flow(Init(), initial, initial, initial, 0, 0, initial, 0, {}, {}, 0, 0, None)
  }

  function TotalLength(chunks: seq<Range>): nat {
    if chunks == [] then 0 else SatSub(chunks[0].hi, chunks[0].lo) + TotalLength(chunks[1..])
  }

  // Bytes handed over and not yet read, and bytes behind a hole.
  function BufferedIn(f: Flow): nat {
    SatSub(|f.sys.rcv.out|, f.consumed)
  }

  function RecvBuffered(r: Receiver): nat {
    TotalLength(Chunks(r.buf))
  }

  function Held(f: Flow): nat {
    BufferedIn(f) + RecvBuffered(f.sys.rcv)
  }

  function Advertised(f: Flow): nat {
    SatSub(SatSub(f.cap, f.counted), RecvBuffered(f.sys.rcv))
  }

  function Inflight(s: Sender): nat {
    SatSub(s.next, s.acked)
  }

  function StepSys(f: Flow, a: Action): Option<Flow> {
    var s := Step(f.sys, a);
    if s.None? then None else Some(f.(sys := s.value))
  }

  // Drains hold the buffer's lock, so only one chunk at a time is uncounted; a
  // read is subtracted from the count, stopping at zero.
  function StepFlow(f: Flow, x: Act): Option<Flow> {
    match x
    case Write(piece) =>
      if |piece| <= MAX_STREAM_PAYLOAD && Inflight(f.sys.snd) + |piece| <= f.window then StepSys(f, SendData(piece)) else None
    case Network(a) =>
      if a.SendData? || a.SendAck? || a.AckArrives? || a.DrainRecv? then None else StepSys(f, a)
    case HandOver =>
      if f.adding == 0 && f.sys.rcv.next in f.sys.rcv.buf then
        Some(f.(sys := f.sys.(rcv := TakeOne(f.sys.rcv)), adding := |f.sys.rcv.buf[f.sys.rcv.next]|))
      else None
    case Count => Some(f.(counted := f.counted + f.adding, adding := 0))
    case LookAt(upTo, cap) =>
      if upTo <= f.sys.rcv.next && cap <= f.top then
        Some(f.(looks := f.looks + {Look(upTo, SatSub(cap, f.counted), f.gen + 1, f.sys.rcv.next)}, gen := f.gen + 1))
      else None
    case Send(look, behind) =>
      if look in f.looks then
        var t := StepSys(f, SendAck(look.upTo));
        if t.None? then None
        else
          var ack := Ack(look.upTo, Ranges(f.sys.rcv.buf, f.sys.rcv.newest));
          Some(t.value.(notices := f.notices + {Notice(look, ack, SatSub(look.base, behind), f.sent + 1)}, sent := f.sent + 1))
      else None
    case Hear(n) =>
      if n in f.notices then
        var t := StepSys(f, AckArrives(n.ack));
        if t.None? then None else Some(t.value.(window := n.window, heard := Some(n)))
      else None
    case AppReads(count) =>
      if count <= BufferedIn(f) then Some(f.(consumed := f.consumed + count, counted := SatSub(f.counted, count))) else None
    case Tune(cap) => if f.floor <= cap <= f.floor * CHAN then Some(f.(cap := cap, top := Max(f.top, cap))) else None
  }

  function RunFlow(f: Flow, xs: seq<Act>): Option<Flow>
    decreases |xs|
  {
    if xs == [] then Some(f)
    else
      match StepFlow(f, xs[0])
      case None => None
      case Some(t) => RunFlow(t, xs[1..])
  }

  lemma {:induction false} RunFlowAppend(f: Flow, a: seq<Act>, b: seq<Act>)
    requires RunFlow(f, a).Some?
    ensures RunFlow(f, a + b) == RunFlow(RunFlow(f, a).value, b)
    decreases |a|
  {
    if a == [] {
      assert a + b == b;
    } else {
      assert (a + b)[1..] == a[1..] + b;
      RunFlowAppend(StepFlow(f, a[0]).value, a[1..], b);
    }
  }

  // ------------------------------------------------------- in whatever order

  ghost predicate SmallPieces(s: System) {
    forall i :: 0 <= i < |s.pieces| ==> |s.pieces[i]| <= MAX_STREAM_PAYLOAD
  }

  // How much more the receiver counts as unread than there is.
  function Excess(f: Flow): int {
    f.counted + f.adding - BufferedIn(f)
  }

  ghost predicate LooksOk(f: Flow) {
    forall l :: l in f.looks ==> l.upTo <= l.next <= f.sys.rcv.next && l.base <= f.top && l.gen <= f.gen
  }

  ghost predicate NoticesOk(f: Flow) {
    forall n :: n in f.notices ==> n.look in f.looks && n.window <= n.look.base && n.ack.upTo == n.look.upTo && n.sent <= f.sent
  }

  ghost predicate Any(f: Flow) {
    && Inv(f.sys) && SmallPieces(f.sys)
    && f.consumed <= |f.sys.rcv.out|
    && f.adding <= MAX_STREAM_PAYLOAD && 0 <= Excess(f) <= MAX_STREAM_PAYLOAD
    && f.floor <= f.cap <= f.top && f.window <= f.top
    && LooksOk(f) && NoticesOk(f)
    && f.sys.snd.acked <= f.sys.rcv.next
    && f.sys.snd.next <= f.sys.snd.acked + f.top
  }

  lemma OutIsNext(s: System)
    requires Inv(s)
    ensures |s.rcv.out| == s.rcv.next && s.rcv.next <= s.snd.next
  {
    OffIsLength(s.pieces, s.rcv.taken);
    NextWithinPieces(s.rcv, s.pieces);
  }

  lemma SysFields(s: System, a: Action)
    requires Step(s, a).Some? && !a.DrainRecv?
    ensures var t := Step(s, a).value;
            && t.rcv.next == s.rcv.next && t.rcv.out == s.rcv.out
            && t.snd.next == s.snd.next + (if a.SendData? then |a.piece| else 0)
            && t.snd.acked == (if a.AckArrives? then Max(s.snd.acked, a.a.upTo) else s.snd.acked)
  {
  }

  // What a step of the stream can change of the offsets.
  lemma SysStep(s: System, a: Action)
    requires Inv(s) && Step(s, a).Some? && !a.DrainRecv?
    ensures var t := Step(s, a).value;
            && Inv(t) && t.rcv.next == s.rcv.next && t.rcv.out == s.rcv.out
            && t.snd.next == s.snd.next + (if a.SendData? then |a.piece| else 0)
            && t.snd.acked == (if a.AckArrives? then Max(s.snd.acked, a.a.upTo) else s.snd.acked)
            && t.pieces == s.pieces + if a.SendData? then [a.piece] else []
  {
    StepKeepsInv(s, a);
    StepRecordsPieces(s, a);
    SysFields(s, a);
  }

  lemma HandOverStep(s: System)
    requires Inv(s) && SmallPieces(s) && s.rcv.next in s.rcv.buf
    ensures var t := s.(rcv := TakeOne(s.rcv));
            && Inv(t) && t.rcv.next == s.rcv.next + |s.rcv.buf[s.rcv.next]| && |t.rcv.out| == |s.rcv.out| + |s.rcv.buf[s.rcv.next]|
            && t.rcv.taken == s.rcv.taken + 1 && 0 < |s.rcv.buf[s.rcv.next]| <= MAX_STREAM_PAYLOAD
  {
    DrainKeepsInv(s, 1);
    assert Drain(s.rcv, 1) == Drain(TakeOne(s.rcv), 0);
    HeadIsNextPiece(s.rcv, s.pieces);
  }

  lemma AnySys(f: Flow, a: Action)
    requires Any(f) && Step(f.sys, a).Some? && !a.DrainRecv? && !a.SendData? && !a.AckArrives?
    ensures Any(f.(sys := Step(f.sys, a).value))
  {
    SysStep(f.sys, a);
    assert Step(f.sys, a).value.pieces == f.sys.pieces;
  }

  lemma AnyWrite(f: Flow, piece: Bytes)
    requires Any(f) && StepFlow(f, Write(piece)).Some?
    ensures Any(StepFlow(f, Write(piece)).value)
  {
    SysStep(f.sys, SendData(piece));
  }

  lemma AnyHandOver(f: Flow)
    requires Any(f) && StepFlow(f, HandOver).Some?
    ensures Any(StepFlow(f, HandOver).value)
  {
    HandOverStep(f.sys);
  }

  lemma AnyLook(f: Flow, upTo: nat, cap: nat)
    requires Any(f) && StepFlow(f, LookAt(upTo, cap)).Some?
    ensures Any(StepFlow(f, LookAt(upTo, cap)).value)
  {
  }

  lemma AnySend(f: Flow, l: Look, behind: nat)
    requires Any(f) && StepFlow(f, Send(l, behind)).Some?
    ensures Any(StepFlow(f, Send(l, behind)).value)
  {
    AnySys(f, SendAck(l.upTo));
  }

  lemma AnyHear(f: Flow, n: Notice)
    requires Any(f) && StepFlow(f, Hear(n)).Some?
    ensures Any(StepFlow(f, Hear(n)).value)
  {
    SysStep(f.sys, AckArrives(n.ack));
    assert Step(f.sys, AckArrives(n.ack)).value.pieces == f.sys.pieces;
  }

  lemma AnyStep(f: Flow, x: Act)
    requires Any(f) && StepFlow(f, x).Some?
    ensures Any(StepFlow(f, x).value)
  {
    match x
    case Write(piece) => AnyWrite(f, piece);
    case Network(a) => AnySys(f, a);
    case HandOver => AnyHandOver(f);
    case Count =>
    case LookAt(upTo, cap) => AnyLook(f, upTo, cap);
    case Send(l, behind) => AnySend(f, l, behind);
    case Hear(n) => AnyHear(f, n);
    case AppReads(_) =>
    case Tune(_) =>
  }

  lemma {:induction false} AnyRun(f: Flow, xs: seq<Act>)
    requires Any(f) && RunFlow(f, xs).Some?
    ensures Any(RunFlow(f, xs).value)
    decreases |xs|
  {
    if xs != [] {
      AnyStep(f, xs[0]);
      AnyRun(StepFlow(f, xs[0]).value, xs[1..]);
    }
  }

  lemma StartAny(initial: nat)
    ensures Any(Start(initial))
  {
    InitInv();
  }

  lemma {:induction false} DisjointFit(chunks: seq<Range>, lo: nat, hi: nat)
    requires Disjoint(chunks) && lo <= hi
    requires forall i :: 0 <= i < |chunks| ==> lo <= chunks[i].lo && chunks[i].hi <= hi
    ensures TotalLength(chunks) <= hi - lo
  {
    if chunks != [] {
      DisjointFit(chunks[1..], chunks[0].hi, hi);
    }
  }

  function Between(lo: nat, hi: nat): (bytes: set<nat>)
    ensures forall b: nat :: b in bytes <==> lo <= b < hi
    ensures |bytes| == SatSub(hi, lo)
  {
    if lo >= hi then {} else Between(lo, hi - 1) + {hi - 1}
  }

  function AllBytes(chunks: seq<Range>): set<nat> {
    if chunks == [] then {} else Between(chunks[0].lo, chunks[0].hi) + AllBytes(chunks[1..])
  }

  lemma {:induction false} AllBytesAre(chunks: seq<Range>, b: nat)
    ensures b in AllBytes(chunks) <==> Contains(chunks, b)
  {
    if chunks != [] {
      var rest := chunks[1..];
      AllBytesAre(rest, b);
      if Contains(rest, b) {
        var i :| 0 <= i < |rest| && rest[i].lo <= b < rest[i].hi;
        assert chunks[i + 1].lo <= b < chunks[i + 1].hi;
      }
      if Contains(chunks, b) && b !in Between(chunks[0].lo, chunks[0].hi) {
        var i :| 0 <= i < |chunks| && chunks[i].lo <= b < chunks[i].hi;
        assert rest[i - 1].lo <= b < rest[i - 1].hi;
      }
    }
  }

  lemma {:induction false} DisjointCounted(chunks: seq<Range>)
    requires Disjoint(chunks)
    ensures |AllBytes(chunks)| == TotalLength(chunks)
  {
    if chunks != [] {
      var rest := chunks[1..];
      DisjointCounted(rest);
      forall b | b in Between(chunks[0].lo, chunks[0].hi)
        ensures b !in AllBytes(rest)
      {
        AllBytesAre(rest, b);
      }
      assert Between(chunks[0].lo, chunks[0].hi) !! AllBytes(rest);
    }
  }

  // In every reachable state the bytes counted as behind a hole, or waiting to be
  // handed over, are the positions buffered.
  lemma BufferedBytesCounted(s: System)
    requires Inv(s)
    ensures var all := AllBytes(Chunks(s.rcv.buf));
            RecvBuffered(s.rcv) == |all| && forall b: nat :: b in all <==> Buffered(s.rcv.buf, b)
  {
    ChunksDisjoint(s);
    DisjointCounted(Chunks(s.rcv.buf));
    forall b: nat
      ensures b in AllBytes(Chunks(s.rcv.buf)) <==> Buffered(s.rcv.buf, b)
    {
      AllBytesAre(Chunks(s.rcv.buf), b);
      BufferedIsInChunks(s.rcv.buf, b);
    }
  }

  lemma BufferFits(s: System)
    requires Inv(s)
    ensures RecvBuffered(s.rcv) <= s.snd.next - s.rcv.next
  {
    OutIsNext(s);
    ChunksDisjoint(s);
    var keys: seq<nat> := Sorted(s.rcv.buf.Keys);
    var chunks := Chunks(s.rcv.buf);
    forall i | 0 <= i < |chunks|
      ensures s.rcv.next <= chunks[i].lo && chunks[i].hi <= s.snd.next
    {
      assert keys[i] in keys;
      PieceEnds(s, keys[i]);
    }
    DisjointFit(chunks, s.rcv.next, s.snd.next);
  }

  lemma PieceEnds(s: System, k: nat)
    requires Inv(s) && k in s.rcv.buf
    ensures k + |s.rcv.buf[k]| <= s.snd.next
  {
    var i :| 0 <= i < |s.pieces| && Off(s.pieces, i) == k && s.pieces[i] == s.rcv.buf[k];
    OffIncreases(s.pieces, i, |s.pieces|);
  }

  // However acknowledgements are lost, repeated and reordered, the bytes held
  // behind a hole never exceed the largest cap the receiver ever had.
  lemma ReorderBufferBounded(initial: nat, xs: seq<Act>)
    requires RunFlow(Start(initial), xs).Some?
    ensures var f := RunFlow(Start(initial), xs).value;
            RecvBuffered(f.sys.rcv) <= f.sys.snd.next - f.sys.rcv.next <= f.top
  {
    StartAny(initial);
    AnyRun(Start(initial), xs);
    BufferFits(RunFlow(Start(initial), xs).value.sys);
  }

  // --------------------------------------------- what the sender is still allowed

  // How far the sender may get on the acknowledgements it has heard.
  function Allowed(f: Flow): nat {
    if f.sys.snd.fin then f.sys.snd.next else Max(f.sys.snd.next, f.sys.snd.acked + f.window)
  }

  // Steps in which the sender hears nothing new, the application reads nothing
  // and the cap stays.
  predicate Local(x: Act) {
    x.Write? || x.Network? || x.HandOver? || x.Count? || x.LookAt? || x.Send?
  }

  ghost predicate LocalReach(f: Flow, t: Flow) {
    exists xs :: (forall x :: x in xs ==> Local(x)) && RunFlow(f, xs) == Some(t)
  }

  lemma AllowedStep(f: Flow, t: Flow, a: Action)
    requires Any(f) && Step(f.sys, a).Some? && !a.DrainRecv? && !a.AckArrives?
    requires a.SendData? ==> Inflight(f.sys.snd) + |a.piece| <= f.window
    requires t.sys == Step(f.sys, a).value && t.window == f.window
    ensures Allowed(t) <= Allowed(f)
  {
    SysStep(f.sys, a);
  }

  lemma LocalStep(f: Flow, x: Act)
    requires Any(f) && Local(x) && StepFlow(f, x).Some?
    ensures var t := StepFlow(f, x).value;
            && Any(t) && Allowed(t) <= Allowed(f) && t.consumed == f.consumed && t.top == f.top
  {
    AnyStep(f, x);
    var t := StepFlow(f, x).value;
    match x
    case Write(piece) => AllowedStep(f, t, SendData(piece));
    case Network(a) => AllowedStep(f, t, a);
    case HandOver =>
    case Count =>
    case LookAt(_, _) =>
    case Send(l, _) => AllowedStep(f, t, SendAck(l.upTo));
  }

  lemma {:induction false} LocalRun(f: Flow, xs: seq<Act>)
    requires Any(f) && RunFlow(f, xs).Some? && forall x :: x in xs ==> Local(x)
    ensures var t := RunFlow(f, xs).value;
            && Any(t) && Allowed(t) <= Allowed(f) && t.consumed == f.consumed && t.top == f.top
    decreases |xs|
  {
    if xs != [] {
      assert xs[0] in xs;
      LocalStep(f, xs[0]);
      LocalRun(StepFlow(f, xs[0]).value, xs[1..]);
    }
  }

  lemma HeldFits(f: Flow)
    requires Any(f)
    ensures f.consumed + Held(f) <= f.sys.snd.next <= Allowed(f)
  {
    OutIsNext(f.sys);
    BufferFits(f.sys);
  }

  lemma LocalMore(f: Flow, t: Flow, u: Flow)
    requires LocalReach(f, t) && LocalReach(t, u)
    ensures LocalReach(f, u)
  {
    var a :| (forall x :: x in a ==> Local(x)) && RunFlow(f, a) == Some(t);
    var b :| (forall x :: x in b ==> Local(x)) && RunFlow(t, b) == Some(u);
    RunFlowAppend(f, a, b);
    assert forall x :: x in a + b ==> Local(x);
    assert RunFlow(f, a + b) == Some(u);
  }

  lemma LocalOne(f: Flow, x: Act, t: Flow)
    requires Local(x) && StepFlow(f, x) == Some(t)
    ensures LocalReach(f, t)
  {
    assert [x][1..] == [];
    assert RunFlow(f, [x]) == RunFlow(t, []);
  }

  lemma LocalSelf(f: Flow)
    ensures LocalReach(f, f)
  {
    assert RunFlow(f, []) == Some(f);
  }

  lemma WriteByte(f: Flow) returns (t: Flow)
    requires Any(f) && !f.sys.snd.fin && Open(f.sys) && f.sys.snd.next < Allowed(f)
    ensures LocalReach(f, t) && Any(t) && Open(t.sys) && !t.sys.snd.fin && t.consumed == f.consumed
    ensures t.sys.snd.next == f.sys.snd.next + 1 && Allowed(t) == Allowed(f)
  {
    t := StepFlow(f, Write([0])).value;
    LocalStep(f, Write([0]));
    SysStep(f.sys, SendData([0]));
    LocalOne(f, Write([0]), t);
  }

  // The sender uses up what it is allowed, a byte at a time.
  lemma {:induction false} WriteOut(f: Flow) returns (t: Flow)
    requires Any(f) && !f.sys.snd.fin && Open(f.sys)
    ensures LocalReach(f, t) && Any(t) && Open(t.sys) && t.consumed == f.consumed && t.sys.snd.next == Allowed(f)
    decreases Allowed(f) - f.sys.snd.next
  {
    if f.sys.snd.next == Allowed(f) {
      LocalSelf(f);
      t := f;
    } else {
      var u := WriteByte(f);
      t := WriteOut(u);
      LocalMore(f, u, t);
    }
  }

  lemma FetchHead(f: Flow) returns (t: Flow)
    requires Any(f) && Open(f.sys) && f.sys.rcv.taken < |f.sys.pieces| && f.sys.rcv.next !in f.sys.rcv.buf
    ensures LocalReach(f, t) && Any(t) && f.sys.rcv.next in f.sys.snd.unacked
    ensures t == f.(sys := f.sys.(rcv := f.sys.rcv.(buf := f.sys.rcv.buf[f.sys.rcv.next := f.sys.snd.unacked[f.sys.rcv.next]])))
  {
    var s := f.sys;
    HeadIsQueued(s);
    var off, bytes := s.rcv.next, s.snd.unacked[s.rcv.next];
    HeadIsAccepted(s, bytes);
    var s1 := s.(data := s.data + multiset{(off, bytes)});
    var s2 := s.(rcv := s.rcv.(buf := s.rcv.buf[off := bytes]));
    assert s1.data - multiset{(off, bytes)} == s.data;
    assert Step(s, Resend(off)) == Some(s1) && Step(s1, DataArrives(off, bytes)) == Some(s2);
    var u := f.(sys := s1);
    t := f.(sys := s2);
    LocalOne(f, Network(Resend(off)), u);
    LocalOne(u, Network(DataArrives(off, bytes)), t);
    LocalMore(f, u, t);
    LocalStep(f, Network(Resend(off)));
    LocalStep(u, Network(DataArrives(off, bytes)));
  }

  lemma PassHead(f: Flow) returns (t: Flow)
    requires Any(f) && f.sys.rcv.next in f.sys.rcv.buf
    ensures LocalReach(f, t) && Any(t) && t.sys == f.sys.(rcv := TakeOne(f.sys.rcv)) && t.consumed == f.consumed
  {
    var u := StepFlow(f, Count).value;
    t := StepFlow(u, HandOver).value;
    LocalOne(f, Count, u);
    LocalOne(u, HandOver, t);
    LocalMore(f, u, t);
    LocalStep(f, Count);
    LocalStep(u, HandOver);
  }

  // Everything written reaches the application's side.
  lemma {:induction false} DeliverAll(f: Flow) returns (t: Flow)
    requires Any(f) && Open(f.sys)
    ensures LocalReach(f, t) && Any(t) && t.consumed == f.consumed && t.sys.snd.next == f.sys.snd.next == t.sys.rcv.next
    decreases |f.sys.pieces| - f.sys.rcv.taken
  {
    AllTaken(f.sys);
    OutIsNext(f.sys);
    if f.sys.rcv.taken == |f.sys.pieces| {
      LocalSelf(f);
      t := f;
    } else {
      var u := f;
      LocalSelf(f);
      if f.sys.rcv.next !in f.sys.rcv.buf {
        u := FetchHead(f);
      }
      HandOverStep(u.sys);
      var v := PassHead(u);
      LocalMore(f, u, v);
      t := DeliverAll(v);
      LocalMore(f, v, t);
    }
  }

  lemma NoOverrun(f: Flow, t: Flow, limit: nat)
    requires Any(f) && LocalReach(f, t) && Held(t) > limit
    ensures Allowed(f) > f.consumed + limit
  {
    var xs :| (forall x :: x in xs ==> Local(x)) && RunFlow(f, xs) == Some(t);
    LocalRun(f, xs);
    HeldFits(t);
  }

  lemma FillUp(f: Flow) returns (t: Flow)
    requires Any(f) && Open(f.sys)
    ensures LocalReach(f, t) && Held(t) >= Allowed(f) - f.consumed
  {
    var u := f;
    LocalSelf(f);
    if !f.sys.snd.fin {
      u := WriteOut(f);
    }
    t := DeliverAll(u);
    LocalMore(f, u, t);
    OutIsNext(t.sys);
  }

  // For any limit: with no further acknowledgement heard, no read and no new
  // cap, the receiver can come to hold more than the limit exactly when what the
  // sender is allowed lies further than that past what was read.
  lemma OverrunIff(f: Flow, limit: nat)
    requires Any(f) && Open(f.sys)
    ensures (exists t :: LocalReach(f, t) && Held(t) > limit) <==> Allowed(f) > f.consumed + limit
  {
    if t :| LocalReach(f, t) && Held(t) > limit {
      NoOverrun(f, t, limit);
    }
    if Allowed(f) > f.consumed + limit {
      var t := FillUp(f);
      assert Held(t) > limit;
    }
  }

  // ----------------------------------------------------- the order of hearing

  // Any order; the order in which they were sent; or that in which they read
  // the count of unread bytes.
  datatype Order = AnyOrder | SendOrder | LookOrder

  predicate Fits(o: Order, f: Flow, x: Act) {
    x.Hear? && f.heard.Some? ==>
      match o
      case AnyOrder => true
      case SendOrder => f.heard.value.sent <= x.n.sent
      case LookOrder => f.heard.value.look.gen <= x.n.look.gen
  }

  predicate Obeys(o: Order, f: Flow, xs: seq<Act>)
    requires RunFlow(f, xs).Some?
    decreases |xs|
  {
    xs == [] || (Fits(o, f, xs[0]) && Obeys(o, StepFlow(f, xs[0]).value, xs[1..]))
  }

  ghost predicate LooksFit(ls: set<Look>, bound: nat) {
    forall l :: l in ls ==> l.base + l.next <= bound
  }

  ghost predicate LooksOrdered(ls: set<Look>) {
    forall l, m :: l in ls && m in ls && l.gen <= m.gen ==> l.next <= m.next
  }

  ghost predicate InOrder(f: Flow) {
    && f.sys.snd.next <= f.consumed + f.top + MAX_STREAM_PAYLOAD
    && LooksFit(f.looks, f.consumed + f.top + MAX_STREAM_PAYLOAD)
    && LooksOrdered(f.looks)
    && (if f.heard.None? then f.sys.snd.acked == 0 && f.window <= f.consumed + f.top
        else f.heard.value in f.notices && f.window == f.heard.value.window && f.sys.snd.acked <= f.heard.value.look.next)
  }

  lemma InOrderWrite(f: Flow, piece: Bytes)
    requires Any(f) && InOrder(f) && StepFlow(f, Write(piece)).Some?
    ensures InOrder(StepFlow(f, Write(piece)).value)
  {
    SysStep(f.sys, SendData(piece));
    OutIsNext(f.sys);
  }

  lemma LookFits(f: Flow, cap: nat)
    requires Any(f) && InOrder(f) && cap <= f.top
    ensures SatSub(cap, f.counted) + f.sys.rcv.next <= f.consumed + f.top + MAX_STREAM_PAYLOAD
  {
    OutIsNext(f.sys);
  }

  lemma InOrderLook(f: Flow, upTo: nat, cap: nat)
    requires Any(f) && InOrder(f) && StepFlow(f, LookAt(upTo, cap)).Some?
    ensures InOrder(StepFlow(f, LookAt(upTo, cap)).value)
  {
    LookFits(f, cap);
  }

  lemma InOrderSend(f: Flow, l: Look, behind: nat)
    requires Any(f) && InOrder(f) && StepFlow(f, Send(l, behind)).Some?
    ensures InOrder(StepFlow(f, Send(l, behind)).value)
  {
    SysStep(f.sys, SendAck(l.upTo));
  }

  lemma InOrderHear(f: Flow, n: Notice)
    requires Any(f) && InOrder(f) && StepFlow(f, Hear(n)).Some? && Fits(LookOrder, f, Hear(n))
    ensures InOrder(StepFlow(f, Hear(n)).value)
  {
    SysStep(f.sys, AckArrives(n.ack));
  }

  lemma InOrderStep(f: Flow, x: Act)
    requires Any(f) && InOrder(f) && StepFlow(f, x).Some? && Fits(LookOrder, f, x)
    ensures InOrder(StepFlow(f, x).value)
  {
    match x
    case Write(piece) => InOrderWrite(f, piece);
    case Network(a) => SysStep(f.sys, a);
    case HandOver =>
    case Count =>
    case LookAt(upTo, cap) => InOrderLook(f, upTo, cap);
    case Send(l, behind) => InOrderSend(f, l, behind);
    case Hear(n) => InOrderHear(f, n);
    case AppReads(_) =>
    case Tune(_) =>
  }

  lemma {:induction false} InOrderRun(f: Flow, xs: seq<Act>)
    requires Any(f) && InOrder(f) && RunFlow(f, xs).Some? && Obeys(LookOrder, f, xs)
    ensures InOrder(RunFlow(f, xs).value)
    decreases |xs|
  {
    if xs != [] {
      AnyStep(f, xs[0]);
      InOrderStep(f, xs[0]);
      InOrderRun(StepFlow(f, xs[0]).value, xs[1..]);
    }
  }

  lemma InOrderAllows(f: Flow)
    requires Any(f) && InOrder(f)
    ensures Allowed(f) <= f.consumed + f.top + MAX_STREAM_PAYLOAD
  {
  }

  // When acknowledgements are heard in the order in which they read the count of
  // unread bytes, what the sender is allowed stays within the largest cap and
  // the one chunk that may not be counted yet; and so does everything the
  // receiver holds, now or with nothing further heard.
  lemma ReceiverMemoryBounded(initial: nat, xs: seq<Act>)
    requires RunFlow(Start(initial), xs).Some? && Obeys(LookOrder, Start(initial), xs)
    ensures var f := RunFlow(Start(initial), xs).value;
            && Allowed(f) <= f.consumed + f.top + MAX_STREAM_PAYLOAD
            && Held(f) <= f.top + MAX_STREAM_PAYLOAD
            && (Open(f.sys) ==> !exists t :: LocalReach(f, t) && Held(t) > f.top + MAX_STREAM_PAYLOAD)
  {
    StartAny(initial);
    AnyRun(Start(initial), xs);
    InOrderRun(Start(initial), xs);
    var f := RunFlow(Start(initial), xs).value;
    InOrderAllows(f);
    HeldFits(f);
    if Open(f.sys) {
      OverrunIff(f, f.top + MAX_STREAM_PAYLOAD);
    }
  }

  // ------------------------------------------------------------ what is advertised

  // An acknowledgement made in one go of everything as it stands says how far
  // the receiver is and what its cap leaves beside what is counted as unread and
  // what lies behind a hole; with every chunk counted, window and held bytes
  // together are the cap.
  lemma WindowAndHeldAreTheCap(f: Flow)
    requires Any(f)
    ensures var l := Look(f.sys.rcv.next, SatSub(f.cap, f.counted), f.gen + 1, f.sys.rcv.next);
            var t := StepFlow(f, LookAt(f.sys.rcv.next, f.cap));
            && t.Some? && l in t.value.looks
            && var u := StepFlow(t.value, Send(l, RecvBuffered(f.sys.rcv)));
            && u.Some? && exists n :: && n in u.value.notices && n !in f.notices && n.ack.upTo == f.sys.rcv.next
                                      && n.window == Advertised(f)
    ensures Advertised(f) + f.counted + RecvBuffered(f.sys.rcv) == Max(f.cap, f.counted + RecvBuffered(f.sys.rcv))
    ensures f.adding == 0 && Excess(f) == 0 ==> Advertised(f) + Held(f) == Max(f.cap, Held(f))
  {
    var l := Look(f.sys.rcv.next, SatSub(f.cap, f.counted), f.gen + 1, f.sys.rcv.next);
    var t := StepFlow(f, LookAt(f.sys.rcv.next, f.cap)).value;
    NoticeSent(f, t, l);
    AdvertisedIs(f);
  }

  lemma NoticeSent(f: Flow, t: Flow, l: Look)
    requires NoticesOk(f) && l.upTo == f.sys.rcv.next && l.base == SatSub(f.cap, f.counted)
    requires t == f.(looks := f.looks + {l}, gen := f.gen + 1)
    ensures var u := StepFlow(t, Send(l, RecvBuffered(f.sys.rcv)));
            && u.Some? && exists n :: && n in u.value.notices && n !in f.notices && n.ack.upTo == f.sys.rcv.next
                                      && n.window == Advertised(f)
  {
    var u := StepFlow(t, Send(l, RecvBuffered(f.sys.rcv))).value;
    var n := Notice(l, Ack(l.upTo, Ranges(f.sys.rcv.buf, f.sys.rcv.newest)), Advertised(f), f.sent + 1);
    assert n in u.notices;
  }

  lemma AdvertisedIs(f: Flow)
    ensures Advertised(f) + f.counted + RecvBuffered(f.sys.rcv) == Max(f.cap, f.counted + RecvBuffered(f.sys.rcv))
    ensures f.consumed <= |f.sys.rcv.out| && f.adding == 0 && Excess(f) == 0 ==> Advertised(f) + Held(f) == Max(f.cap, Held(f))
  {
  }

  // ------------------------------------------------------------ a count too high

  // A read of a chunk not counted yet is forgotten: the count ends up too high
  // by what is read beyond it.
  lemma ReadForgottenIff(f: Flow, count: nat)
    requires Any(f) && count <= BufferedIn(f)
    ensures Excess(StepFlow(f, AppReads(count)).value) == Excess(f) + SatSub(count, f.counted)
  {
  }

  lemma ExcessStep(f: Flow, x: Act)
    requires Any(f) && StepFlow(f, x).Some?
    ensures Excess(StepFlow(f, x).value) >= Excess(f)
  {
    match x
    case Write(piece) => SysStep(f.sys, SendData(piece));
    case Network(a) => SysStep(f.sys, a);
    case HandOver => HandOverStep(f.sys);
    case Count =>
    case LookAt(_, _) =>
    case Send(l, _) => SysStep(f.sys, SendAck(l.upTo));
    case Hear(n) => SysStep(f.sys, AckArrives(n.ack));
    case AppReads(count) => ReadForgottenIff(f, count);
    case Tune(_) =>
  }

  lemma {:induction false} ExcessNeverFalls(f: Flow, xs: seq<Act>)
    requires Any(f) && RunFlow(f, xs).Some?
    ensures Excess(RunFlow(f, xs).value) >= Excess(f)
    decreases |xs|
  {
    if xs != [] {
      AnyStep(f, xs[0]);
      ExcessStep(f, xs[0]);
      ExcessNeverFalls(StepFlow(f, xs[0]).value, xs[1..]);
    }
  }

  // The count stays too high, for nothing takes an excess back, but in no run by
  // more than one payload.
  lemma ExcessIsPermanent(initial: nat, xs: seq<Act>, more: seq<Act>)
    requires RunFlow(Start(initial), xs).Some? && RunFlow(RunFlow(Start(initial), xs).value, more).Some?
    ensures var f := RunFlow(Start(initial), xs).value;
            0 <= Excess(f) <= Excess(RunFlow(f, more).value) <= MAX_STREAM_PAYLOAD
  {
    StartAny(initial);
    AnyRun(Start(initial), xs);
    var f := RunFlow(Start(initial), xs).value;
    AnyRun(f, more);
    ExcessNeverFalls(f, more);
  }

  // An empty receiver advertises all of its cap but what it counts too much.
  lemma EmptyAdvertises(f: Flow)
    requires Any(f) && Held(f) == 0
    ensures Advertised(f) == SatSub(f.cap, f.counted) && f.counted + f.adding == Excess(f) <= MAX_STREAM_PAYLOAD
  {
  }

  // Caps never fall below the one a stream starts with, so no stream that starts
  // with more than one payload is ever closed by a count too high.
  lemma EmptyStaysOpen(initial: nat, xs: seq<Act>)
    requires RunFlow(Start(initial), xs).Some? && Held(RunFlow(Start(initial), xs).value) == 0
    ensures var f := RunFlow(Start(initial), xs).value;
            && Advertised(f) >= SatSub(f.cap, MAX_STREAM_PAYLOAD) >= SatSub(initial, MAX_STREAM_PAYLOAD)
            && (Advertised(f) == 0 <==> f.cap <= f.counted)
            && (Advertised(f) == 0 ==> initial <= MAX_STREAM_PAYLOAD)
  {
    StartAny(initial);
    AnyRun(Start(initial), xs);
    FloorKept(Start(initial), xs);
    EmptyAdvertises(RunFlow(Start(initial), xs).value);
  }

  lemma {:induction false} FloorKept(f: Flow, xs: seq<Act>)
    requires RunFlow(f, xs).Some?
    ensures RunFlow(f, xs).value.floor == f.floor
    decreases |xs|
  {
    if xs != [] {
      FloorKept(StepFlow(f, xs[0]).value, xs[1..]);
    }
  }

  // ------------------------------------------------------------------ witnesses

  // Nothing on the way and no hole.
  ghost predicate AtRest(f: Flow) {
    && Any(f) && f.sys.rcv.buf == map[] && !f.sys.rcv.fin && f.sys.rcv.closeOff.None? && !f.sys.snd.fin
    && f.sys.rcv.next == f.sys.snd.next
    && forall n :: n in f.notices ==> n.ack in f.sys.acks
  }

  lemma EmptyRanges(newest: nat)
    ensures Ranges(map[], newest) == [] && Chunks(map[]) == []
  {
    var none: Buffer := map[];
    assert none.Keys == {};
    assert Sorted(none.Keys) == [];
    assert Chunks(none) == [];
  }

  // A state reached with the acknowledgements heard in order `o`.
  ghost predicate CanReach(f: Flow, t: Flow, o: Order) {
    exists xs :: RunFlow(f, xs) == Some(t) && Obeys(o, f, xs)
  }

  lemma ReachSelf(f: Flow, o: Order)
    ensures CanReach(f, f, o)
  {
    assert RunFlow(f, []) == Some(f) && Obeys(o, f, []);
  }

  lemma ReachStep(f: Flow, x: Act, t: Flow, u: Flow, o: Order)
    requires StepFlow(f, x) == Some(t) && CanReach(t, u, o) && Fits(o, f, x)
    ensures CanReach(f, u, o)
  {
    var xs :| RunFlow(t, xs) == Some(u) && Obeys(o, t, xs);
    var all := [x] + xs;
    assert all[1..] == xs;
    assert RunFlow(f, all) == Some(u);
  }

  ghost predicate Leads(f: Flow, t: Flow, o: Order) {
    forall u :: CanReach(t, u, o) ==> CanReach(f, u, o)
  }

  lemma LeadsStep(f: Flow, x: Act, t: Flow, o: Order)
    requires StepFlow(f, x) == Some(t) && Fits(o, f, x)
    ensures Leads(f, t, o)
  {
    forall u | CanReach(t, u, o)
      ensures CanReach(f, u, o)
    {
      ReachStep(f, x, t, u, o);
    }
  }

  lemma LeadsMore(f: Flow, t: Flow, u: Flow, o: Order)
    requires Leads(f, t, o) && Leads(t, u, o)
    ensures Leads(f, u, o)
  {
  }

  lemma LeadsThere(f: Flow, t: Flow, o: Order)
    requires Leads(f, t, o)
    ensures CanReach(f, t, o)
  {
    ReachSelf(t, o);
  }

  // Apart from the stream and what is still to be counted, nothing changed.
  predicate Rest(f: Flow, t: Flow) {
    t == f.(sys := t.sys, counted := t.counted, adding := t.adding)
  }

  lemma ChunkWritten(f: Flow, data: Bytes, o: Order) returns (t: Flow)
    requires AtRest(f) && 0 < |data| <= MAX_STREAM_PAYLOAD && Inflight(f.sys.snd) + |data| <= f.window
    ensures Leads(f, t, o) && Any(t)
    ensures t == f.(sys := f.sys.(snd := Push(f.sys.snd, data), pieces := f.sys.pieces + [data],
                                  data := f.sys.data + multiset{(f.sys.snd.next, data)}))
  {
    t := StepFlow(f, Write(data)).value;
    LeadsStep(f, Write(data), t, o);
    AnyStep(f, Write(data));
  }

  lemma ChunkArrives(f: Flow, data: Bytes, o: Order) returns (t: Flow)
    requires Any(f) && f.sys.rcv.buf == map[] && !f.sys.rcv.fin && f.sys.rcv.closeOff.None?
    requires (f.sys.rcv.next, data) in f.sys.data
    ensures Leads(f, t, o) && Any(t)
    ensures t == f.(sys := f.sys.(rcv := f.sys.rcv.(buf := map[f.sys.rcv.next := data]), data := t.sys.data))
  {
    var x := Network(DataArrives(f.sys.rcv.next, data));
    t := StepFlow(f, x).value;
    LeadsStep(f, x, t, o);
    AnyStep(f, x);
  }

  lemma ChunkHandedOver(f: Flow, data: Bytes, o: Order) returns (t: Flow)
    requires Any(f) && f.sys.rcv.buf == map[f.sys.rcv.next := data] && f.adding == 0
    ensures Leads(f, t, o) && Any(t)
    ensures t == f.(adding := |data|,
                    sys := f.sys.(rcv := f.sys.rcv.(next := f.sys.rcv.next + |data|, buf := map[], out := f.sys.rcv.out + data,
                                                    taken := f.sys.rcv.taken + 1)))
  {
    t := StepFlow(f, HandOver).value;
    assert f.sys.rcv.buf - {f.sys.rcv.next} == map[];
    LeadsStep(f, HandOver, t, o);
    AnyStep(f, HandOver);
  }

  // One chunk written, carried and handed over, but not yet counted.
  lemma ChunkDelivered(f: Flow, data: Bytes, o: Order) returns (t: Flow)
    requires AtRest(f) && 0 < |data| <= MAX_STREAM_PAYLOAD && Inflight(f.sys.snd) + |data| <= f.window && f.adding == 0
    ensures Leads(f, t, o) && AtRest(t) && Rest(f, t) && t.counted == f.counted && t.adding == |data|
    ensures t.sys.snd.next == f.sys.snd.next + |data| && t.sys.snd.acked == f.sys.snd.acked
  {
    var a := ChunkWritten(f, data, o);
    var b := ChunkArrives(a, data, o);
    LeadsMore(f, a, b, o);
    t := ChunkHandedOver(b, data, o);
    LeadsMore(f, b, t, o);
  }

  lemma CountNow(f: Flow, o: Order) returns (t: Flow)
    requires AtRest(f)
    ensures Leads(f, t, o) && AtRest(t) && Rest(f, t) && t.sys == f.sys && t.adding == 0 && t.counted == f.counted + f.adding
  {
    t := StepFlow(f, Count).value;
    LeadsStep(f, Count, t, o);
    AnyStep(f, Count);
  }

  function Zeros(n: nat): (r: Bytes)
    ensures |r| == n
  {
    seq(n, _ => 0)
  }

  // Any number of bytes the window allows, delivered and counted.
  lemma {:induction false} BytesDelivered(f: Flow, n: nat, o: Order) returns (t: Flow)
    requires AtRest(f) && Inflight(f.sys.snd) + n <= f.window && f.adding == 0
    ensures Leads(f, t, o) && AtRest(t) && Rest(f, t) && t.adding == 0 && t.counted == f.counted + n
    ensures t.sys.snd.next == f.sys.snd.next + n && t.sys.snd.acked == f.sys.snd.acked
    decreases n
  {
    if n == 0 {
      t := f;
    } else {
      var k := Min(n, MAX_STREAM_PAYLOAD);
      var u := ChunkDelivered(f, Zeros(k), o);
      var v := CountNow(u, o);
      LeadsMore(f, u, v, o);
      t := BytesDelivered(v, n - k, o);
      LeadsMore(f, v, t, o);
    }
  }

  lemma LookNow(f: Flow, o: Order) returns (t: Flow, l: Look)
    requires AtRest(f)
    ensures Leads(f, t, o) && AtRest(t) && l in t.looks
    ensures l == Look(f.sys.rcv.next, SatSub(f.cap, f.counted), f.gen + 1, f.sys.rcv.next)
    ensures t == f.(looks := f.looks + {l}, gen := f.gen + 1)
  {
    var x := LookAt(f.sys.rcv.next, f.cap);
    l := Look(f.sys.rcv.next, SatSub(f.cap, f.counted), f.gen + 1, f.sys.rcv.next);
    t := StepFlow(f, x).value;
    LeadsStep(f, x, t, o);
    AnyStep(f, x);
  }

  lemma SendIs(f: Flow, l: Look)
    requires f.sys.rcv.buf == map[] && l in f.looks && l.upTo <= f.sys.rcv.next
    ensures var n := Notice(l, Ack(l.upTo, []), l.base, f.sent + 1);
            StepFlow(f, Send(l, 0)) ==
            Some(f.(sys := f.sys.(acks := f.sys.acks + {n.ack}), notices := f.notices + {n}, sent := f.sent + 1))
  {
    EmptyRanges(f.sys.rcv.newest);
  }

  // Nothing is behind a hole, so the window is what the look left.
  lemma SendNow(f: Flow, l: Look, o: Order) returns (t: Flow, n: Notice)
    requires AtRest(f) && l in f.looks
    ensures Leads(f, t, o) && AtRest(t) && n in t.notices
    ensures n == Notice(l, Ack(l.upTo, []), l.base, f.sent + 1)
    ensures t == f.(sys := f.sys.(acks := f.sys.acks + {n.ack}), notices := f.notices + {n}, sent := f.sent + 1)
  {
    SendIs(f, l);
    n := Notice(l, Ack(l.upTo, []), l.base, f.sent + 1);
    t := f.(sys := f.sys.(acks := f.sys.acks + {n.ack}), notices := f.notices + {n}, sent := f.sent + 1);
    LeadsStep(f, Send(l, 0), t, o);
    AnySend(f, l, 0);
  }

  lemma HearIs(f: Flow, n: Notice) returns (t: Flow)
    requires n in f.notices && n.ack in f.sys.acks
    ensures StepFlow(f, Hear(n)) == Some(t)
    ensures t == f.(sys := f.sys.(snd := t.sys.snd), window := n.window, heard := Some(n))
    ensures t.sys.snd.next == f.sys.snd.next && t.sys.snd.acked == Max(f.sys.snd.acked, n.ack.upTo) && t.sys.snd.fin == f.sys.snd.fin
  {
    t := StepFlow(f, Hear(n)).value;
  }

  lemma HearNow(f: Flow, n: Notice, o: Order) returns (t: Flow)
    requires AtRest(f) && n in f.notices && Fits(o, f, Hear(n))
    ensures Leads(f, t, o) && AtRest(t)
    ensures t == f.(sys := f.sys.(snd := t.sys.snd), window := n.window, heard := Some(n))
    ensures t.sys.snd.next == f.sys.snd.next && t.sys.snd.acked == Max(f.sys.snd.acked, n.ack.upTo) && !t.sys.snd.fin
  {
    t := HearIs(f, n);
    LeadsStep(f, Hear(n), t, o);
    AnyHear(f, n);
  }

  lemma StartsAtRest(s0: Flow, c: nat)
    requires s0 == Start(c)
    ensures AtRest(s0) && s0.adding == 0 && s0.counted == 0 && s0.consumed == 0 && s0.sys.snd.next == s0.sys.snd.acked == 0
  {
    InitInv();
  }

  // An old look at the whole cap, `d` bytes delivered since, and a newer look.
  lemma TwoLooks(s0: Flow, c: nat, d: nat, early: bool, o: Order) returns (f: Flow, stale: Notice, newer: Notice)
    requires s0 == Start(c) && 0 < d <= c
    ensures Leads(s0, f, o) && AtRest(f) && stale in f.notices && newer in f.notices && f.heard.None?
    ensures stale.window == c && stale.ack.upTo == 0 && newer.ack.upTo == d
    ensures if early then stale.sent < newer.sent else newer.sent < stale.sent
    ensures f.consumed == 0 && f.top == c && f.sys.snd.next == d && f.sys.snd.acked == 0
  {
    StartsAtRest(s0, c);
    var a, l := LookNow(s0, o);
    if early {
      var b;
      b, stale := SendNow(a, l, o);
      LeadsMore(s0, a, b, o);
      a := b;
    }
    var e := BytesDelivered(a, d, o);
    LeadsMore(s0, a, e, o);
    var g, m := LookNow(e, o);
    LeadsMore(s0, e, g, o);
    f, newer := SendNow(g, m, o);
    LeadsMore(s0, g, f, o);
    if !early {
      var h;
      h, stale := SendNow(f, l, o);
      LeadsMore(s0, f, h, o);
      f := h;
    }
  }

  // The newer heard first and the old one last: the sender is allowed the whole
  // cap once more on top of what the receiver still holds.
  lemma OldHeardLast(s0: Flow, c: nat, d: nat, early: bool, o: Order) returns (f: Flow)
    requires s0 == Start(c) && 0 < d <= c && (if early then o == AnyOrder else o == SendOrder)
    ensures Leads(s0, f, o) && AtRest(f) && f.top == c && Allowed(f) == f.consumed + c + d
  {
    var a, stale, newer := TwoLooks(s0, c, d, early, o);
    var b := HearNow(a, newer, o);
    LeadsMore(s0, a, b, o);
    f := HearNow(b, stale, o);
    LeadsMore(s0, b, f, o);
  }

  // Acknowledgements crossing on different paths: under a cap of c the receiver
  // can come to hold c + d bytes, for any d up to c.
  lemma StaleWindowOverruns(s0: Flow, c: nat, d: nat)
    requires s0 == Start(c) && 0 < d <= c
    ensures exists f, t :: CanReach(s0, f, AnyOrder) && f.top == c && LocalReach(f, t) && Held(t) >= c + d
  {
    var f := OldHeardLast(s0, c, d, true, AnyOrder);
    LeadsThere(s0, f, AnyOrder);
    OverrunIff(f, c + d - 1);
    var t :| LocalReach(f, t) && Held(t) > c + d - 1;
  }

  // And just so when they are heard in the order they were sent, if one of them
  // read the count of unread bytes before the other and was sent after it.
  lemma SendOrderIsNotEnough(s0: Flow, c: nat, d: nat)
    requires s0 == Start(c) && 0 < d <= c
    ensures exists f, t :: CanReach(s0, f, SendOrder) && f.top == c && LocalReach(f, t) && Held(t) >= c + d
  {
    var f := OldHeardLast(s0, c, d, false, SendOrder);
    LeadsThere(s0, f, SendOrder);
    OverrunIff(f, c + d - 1);
    var t :| LocalReach(f, t) && Held(t) > c + d - 1;
  }

  lemma LateFrom(s0: Flow, c: nat, d: nat) returns (f: Flow)
    requires s0 == Start(c) && 0 < d <= c && d <= MAX_STREAM_PAYLOAD
    ensures Leads(s0, f, LookOrder) && AtRest(f) && f.top == c && Allowed(f) == f.consumed + c + d
  {
    StartsAtRest(s0, c);
    var a := ChunkDelivered(s0, Zeros(d), LookOrder);
    var b, l := LookNow(a, LookOrder);
    LeadsMore(s0, a, b, LookOrder);
    var e, n := SendNow(b, l, LookOrder);
    LeadsMore(s0, b, e, LookOrder);
    f := HearNow(e, n, LookOrder);
    LeadsMore(s0, e, f, LookOrder);
  }

  // Even in the order of the reads the count may lag by a chunk: an
  // acknowledgement that looks between handing over d bytes and counting them
  // advertises d bytes too many. The bound of one payload is met exactly.
  lemma LateCountOverruns(s0: Flow, c: nat, d: nat)
    requires s0 == Start(c) && 0 < d <= c && d <= MAX_STREAM_PAYLOAD
    ensures exists f, t :: CanReach(s0, f, LookOrder) && f.top == c && LocalReach(f, t) && Held(t) >= c + d
  {
    var f := LateFrom(s0, c, d);
    LeadsThere(s0, f, LookOrder);
    OverrunIff(f, c + d - 1);
    var t :| LocalReach(f, t) && Held(t) > c + d - 1;
  }

  lemma ReadUncounted(f: Flow, o: Order) returns (t: Flow)
    requires AtRest(f) && f.counted == 0 && BufferedIn(f) == f.adding
    ensures Leads(f, t, o) && Held(t) == 0 && t.adding == 0 && t.counted == f.adding && t.cap == f.cap
    ensures Any(t)
  {
    var u := StepFlow(f, AppReads(f.adding)).value;
    t := StepFlow(u, Count).value;
    LeadsStep(f, AppReads(f.adding), u, o);
    LeadsStep(u, Count, t, o);
    LeadsMore(f, u, t, o);
    AnyStep(f, AppReads(f.adding));
    AnyStep(u, Count);
    EmptyRanges(0);
  }

  // A chunk read before it is counted takes its length off the window for good:
  // with nothing held, a cap of c advertises c - d.
  lemma WindowCanShrinkForGood(s0: Flow, c: nat, d: nat)
    requires s0 == Start(c) && 0 < d <= c && d <= MAX_STREAM_PAYLOAD
    ensures exists f :: CanReach(s0, f, LookOrder) && Held(f) == 0 && Excess(f) == d && f.cap == c && Advertised(f) == c - d
  {
    StartsAtRest(s0, c);
    var a := ChunkDelivered(s0, Zeros(d), LookOrder);
    OutIsNext(a.sys);
    var f := ReadUncounted(a, LookOrder);
    LeadsMore(s0, a, f, LookOrder);
    LeadsThere(s0, f, LookOrder);
  }
}
