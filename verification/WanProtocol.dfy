// The packet WAN as a whole: sender, lossy reordering wire, receiver and the
// acknowledgement channel (crates/nya-e2e/src/packet_wan.rs).
//
// A run is a list of actions. Everything the environment decides is written in
// the action: the time, the link's window cap, which transmissions survive the
// wire, which packet arrives next, where a write fails.
module WanProtocol {
  import opened Common
  import opened Transport

  datatype Status = Running | Ended

  // `pkts`, `input` and `sends` are history: the packets cut so far, the bytes
  // read so far, and how often each packet was handed to the wire.
  datatype System = System(
    snd: Sender,
    rcv: Receiver,
    wire: multiset<Pkt>,
    acks: seq<nat>,
    now: nat,
    status: Status,
    pkts: seq<Bytes>,
    input: Bytes,
    sends: map<nat, nat>)

  datatype Action =
    | AckArrives(at: nat, maxCwnd: nat, keep: set<nat>)
    | TimerFires(at: nat, keep: set<nat>)
    | DataRead(at: nat, data: Bytes, keep: set<nat>)
    | EndOfInput(at: nat)
    | PacketArrives(p: Pkt)
    | WriteFails(p: Pkt, written: nat)
    | Stop

  function Init(rtt: nat, start: nat): System {
    System(InitSender(rtt), InitReceiver(), multiset{}, [], start, Running, [], [], map[])
  }

  // The surviving copies of the packets `which`.
  function Copies(m: Inflight, which: set<nat>): multiset<Pkt> {
    multiset(set q | q in which && q in m :: Pkt(q, m[q].buf))
  }

  function Counted(sends: map<nat, nat>, which: set<nat>): map<nat, nat> {
    map q | q in sends.Keys + which ::
      (if q in sends then sends[q] else 0) + (if q in which then 1 else 0)
  }

  function AfterSend(s: System, snd: Sender, which: set<nat>, keep: set<nat>, at: nat): System {
    s.(snd := snd, wire := s.wire + Copies(snd.inflight, which * keep), now := at, sends := Counted(s.sends, which))
  }

  // The input arm runs only when no acknowledgement is queued and the window
  // has room. A timer fires at its next tick after the deadline, so input may
  // still win while one is due.
  predicate CanRead(s: System, at: nat) {
    s.status == Running && at >= s.now && s.acks == [] && |s.snd.inflight| < s.snd.cwnd
  }

  function Step(s: System, a: Action): Option<System> {
    match a
    case AckArrives(at, maxCwnd, keep) =>
      if s.status == Running && at >= s.now && s.acks != [] && 64 <= maxCwnd <= MAX_CWND then
        var (snd, again) := OnAck(s.snd, s.acks[0], at, maxCwnd);
        Some(AfterSend(s.(acks := s.acks[1..]), snd, again, keep, at))
      else None
    case TimerFires(at, keep) =>
      if s.status == Running && at >= s.now && s.acks == [] && TimerReady(s.snd, at) then
        match OnTimer(s.snd, at)
        case GiveUp => Some(s.(status := Ended, now := at))
        case Resend(snd, which) => Some(AfterSend(s, snd, which, keep, at))
      else None
    case DataRead(at, data, keep) =>
      if CanRead(s, at) && 0 < |data| <= MSS then
        var (snd, which) := OnRead(s.snd, data, at);
        var cut := if snd.nextSeq == s.snd.nextSeq + 1 then [data] else [];
        Some(AfterSend(s, snd, which, keep, at).(pkts := s.pkts + cut, input := s.input + data))
      else None
    case EndOfInput(at) =>
      if CanRead(s, at) then Some(s.(status := Ended, now := at)) else None
    case PacketArrives(p) =>
      if s.status == Running && p in s.wire then
        var (rcv, acks) := Deliver(s.rcv, p);
        Some(s.(rcv := rcv, wire := s.wire - multiset{p}, acks := s.acks + acks))
      else None
    case WriteFails(p, written) =>
      if s.status == Running && p in s.wire then
        var full := Deliver(s.rcv, p).0.out;
        if |s.rcv.out| <= written <= |full| then
          Some(s.(status := Ended, rcv := s.rcv.(out := full[..written])))
        else None
      else None
    case Stop =>
      if s.status == Running then Some(s.(status := Ended)) else None
  }

  function Run(s: System, acts: seq<Action>): Option<System>
    decreases |acts|
  {
    if acts == [] then Some(s)
    else
      match Step(s, acts[0])
      case None => None
      case Some(t) => Run(t, acts[1..])
  }

  lemma {:induction false} RunAppend(s: System, a: seq<Action>, b: seq<Action>)
    requires Run(s, a).Some?
    ensures Run(s, a + b) == Run(Run(s, a).value, b)
    decreases |a|
  {
    if a == [] {
      assert a + b == b;
    } else {
      assert (a + b)[1..] == a[1..] + b;
      RunAppend(Step(s, a[0]).value, a[1..], b);
    }
  }

  // -------------------------------------------------------------- invariant

  predicate Received(r: Receiver, q: nat) {
    q < r.expected || q in r.reorder
  }

  // Everything below `expected` is written; only later packets are held back.
  predicate ReceiverOk(r: Receiver, pkts: seq<Bytes>) {
    && r.expected <= |pkts|
    && r.out == Concat(pkts[..r.expected])
    && forall q :: q in r.reorder ==> r.expected < q < |pkts| && r.reorder[q] == pkts[q]
  }

  predicate SenderOk(s: Sender, pkts: seq<Bytes>, sends: map<nat, nat>, now: nat) {
    && s.nextSeq == |pkts|
    && s.leftover == []
    && (forall q :: q in s.inflight ==>
          && q < |pkts| && q in sends
          && s.inflight[q].buf == pkts[q]
          && s.inflight[q].tries == sends[q] && s.inflight[q].tries >= 1
          && s.inflight[q].sent <= now)
    && MIN_CWND <= s.cwnd <= MAX_CWND
    && MIN_CWND <= s.ssthresh
    && |s.inflight| <= MAX_CWND
    && s.srtt >= 1
  }

  predicate PacketsOk(pkts: seq<Bytes>, input: Bytes, sends: map<nat, nat>) {
    && Concat(pkts) == input
    && (forall q :: 0 <= q < |pkts| ==> 0 < |pkts[q]| <= MSS)
    && (forall q :: q in sends ==> q < |pkts|)
    && (forall q :: 0 <= q < |pkts| ==> q in sends)
  }

  predicate WireOk(wire: multiset<Pkt>, pkts: seq<Bytes>) {
    forall p :: p in wire ==> p.seqno < |pkts| && p.buf == pkts[p.seqno]
  }

  // No packet is forgotten: what is no longer in flight has arrived, and what
  // has arrived but is still in flight has an acknowledgement on its way.
  predicate NothingForgotten(s: System) {
    && (forall q :: 0 <= q < s.snd.nextSeq && q !in s.snd.inflight ==> Received(s.rcv, q))
    && (forall q :: q in s.snd.inflight && Received(s.rcv, q) ==> q in s.acks)
    && (forall a :: a in s.acks ==> Received(s.rcv, a))
  }

  predicate Inv(s: System) {
    && ReceiverOk(s.rcv, s.pkts)
    && SenderOk(s.snd, s.pkts, s.sends, s.now)
    && PacketsOk(s.pkts, s.input, s.sends)
    && WireOk(s.wire, s.pkts)
    && NothingForgotten(s)
  }

  // ---------------------------------------------------------- receiver steps

  lemma {:induction false} FlushFacts(r: Receiver, pkts: seq<Bytes>)
    requires r.expected <= |pkts| && r.out == Concat(pkts[..r.expected])
    requires forall q :: q in r.reorder ==> r.expected <= q < |pkts| && r.reorder[q] == pkts[q]
    ensures ReceiverOk(Flush(r).0, pkts)
    ensures r.out <= Flush(r).0.out
    ensures r.expected <= Flush(r).0.expected
    ensures forall q :: Received(Flush(r).0, q) <==> Received(r, q)
    ensures forall a :: a in Flush(r).1 ==> a < Flush(r).0.expected
    decreases r.reorder
  {
    if r.expected in r.reorder {
      var k := r.expected;
      var next := Receiver(k + 1, r.reorder - {k}, r.out + r.reorder[k]);
      assert pkts[..k + 1] == pkts[..k] + [pkts[k]];
      ConcatAppend(pkts[..k], pkts[k]);
      FlushFacts(next, pkts);
    }
  }

  lemma DeliverFacts(r: Receiver, p: Pkt, pkts: seq<Bytes>)
    requires ReceiverOk(r, pkts) && p.seqno < |pkts| && p.buf == pkts[p.seqno]
    ensures ReceiverOk(Deliver(r, p).0, pkts)
    ensures r.out <= Deliver(r, p).0.out
    ensures forall q :: Received(Deliver(r, p).0, q) <==> Received(r, q) || q == p.seqno
    ensures p.seqno in Deliver(r, p).1
    ensures forall a :: a in Deliver(r, p).1 ==> Received(Deliver(r, p).0, a)
  {
    if p.seqno == r.expected {
      var k := r.expected;
      assert pkts[..k + 1] == pkts[..k] + [pkts[k]];
      ConcatAppend(pkts[..k], pkts[k]);
      FlushFacts(r.(expected := k + 1, out := r.out + p.buf), pkts);
    }
  }

  // ------------------------------------------------------------ sender steps

  // What every arm that retransmits does to the packets in flight.
  predicate Retransmits(s: Sender, t: Sender, gone: set<nat>, again: set<nat>, at: nat) {
    && t.inflight.Keys == s.inflight.Keys - gone
    && again <= t.inflight.Keys
    && t.nextSeq == s.nextSeq && t.leftover == s.leftover
    && forall q :: q in t.inflight ==>
         && t.inflight[q].buf == s.inflight[q].buf
         && t.inflight[q].tries == s.inflight[q].tries + (if q in again then 1 else 0)
         && (t.inflight[q].sent == s.inflight[q].sent || t.inflight[q].sent == at)
  }

  predicate WindowOk(s: Sender) {
    MIN_CWND <= s.cwnd <= MAX_CWND && MIN_CWND <= s.ssthresh && s.srtt >= 1
  }

  lemma AckedFacts(s: Sender, ack: nat, at: nat, maxCwnd: nat)
    requires ack in s.inflight && WindowOk(s) && 64 <= maxCwnd <= MAX_CWND
    ensures Acked(s, ack, at, maxCwnd).inflight == s.inflight - {ack}
    ensures Acked(s, ack, at, maxCwnd).nextSeq == s.nextSeq
    ensures Acked(s, ack, at, maxCwnd).leftover == s.leftover
    ensures WindowOk(Acked(s, ack, at, maxCwnd))
  {
  }

  lemma RecoverFacts(a: Sender, ackedSent: nat, at: nat)
    requires WindowOk(a)
    ensures Retransmits(a, Recover(a, ackedSent, at).0, {}, Recover(a, ackedSent, at).1, at)
    ensures WindowOk(Recover(a, ackedSent, at).0)
    ensures Recover(a, ackedSent, at).0.srtt == a.srtt && Recover(a, ackedSent, at).0.rttvar == a.rttvar
    ensures a.recoveryEnd.Some? ==>
              && Recover(a, ackedSent, at).0.recoveryEnd == a.recoveryEnd
              && Recover(a, ackedSent, at).0.ssthresh == a.ssthresh
              && Recover(a, ackedSent, at).0.cwnd == a.cwnd
  {
    var h := if a.recoveryEnd.None? then Halved(a) else a;
    assert WindowOk(h) && h.inflight == a.inflight;
  }

  lemma OnAckFacts(s: Sender, ack: nat, at: nat, maxCwnd: nat)
    requires WindowOk(s) && 64 <= maxCwnd <= MAX_CWND
    ensures Retransmits(s, OnAck(s, ack, at, maxCwnd).0, {ack}, OnAck(s, ack, at, maxCwnd).1, at)
    ensures WindowOk(OnAck(s, ack, at, maxCwnd).0)
  {
    if ack in s.inflight {
      AckedFacts(s, ack, at, maxCwnd);
      RecoverFacts(EpisodeEnd(Acked(s, ack, at, maxCwnd), ack), s.inflight[ack].sent, at);
    }
  }

  lemma OnTimerFacts(s: Sender, at: nat)
    requires WindowOk(s) && OnTimer(s, at).Resend?
    ensures Retransmits(s, OnTimer(s, at).s, {}, OnTimer(s, at).which, at)
    ensures WindowOk(OnTimer(s, at).s)
  {
  }

  // The window has room and at most MSS bytes are unsent, so one packet takes
  // them all: nothing is left over between two turns of the loop.
  lemma OnReadFacts(s: Sender, data: Bytes, at: nat)
    requires s.leftover == [] && |s.inflight| < s.cwnd && 0 < |data| <= MSS
    ensures OnRead(s, data, at) ==
            (s.(inflight := s.inflight[s.nextSeq := Entry(data, at, 1)], nextSeq := s.nextSeq + 1), {s.nextSeq})
  {
    var s1 := s.(leftover := s.leftover + data);
    assert s1.leftover == data;
    OnePacketTakesAll(s1, at);
  }

  lemma OnePacketTakesAll(s: Sender, at: nat)
    requires |s.inflight| < s.cwnd && 0 < |s.leftover| <= MSS
    ensures SendLoop(s, at) ==
            (s.(leftover := [], inflight := s.inflight[s.nextSeq := Entry(s.leftover, at, 1)], nextSeq := s.nextSeq + 1), {s.nextSeq})
  {
    var take := Min(|s.leftover|, MSS);
    assert take == |s.leftover|;
    assert s.leftover[..take] == s.leftover && s.leftover[take..] == [];
    var t := SendOne(s, at);
    assert t.leftover == [];
    assert SendLoop(t, at) == (t, {});
    assert !(s.leftover == [] || |s.inflight| >= s.cwnd);
    if |s.leftover| >= MSS {
      var (end, more) := SendLoop(t, at);
      assert {s.nextSeq} + more == {s.nextSeq};
    }
  }

  lemma CopiesFacts(m: Inflight, which: set<nat>)
    ensures forall p :: p in Copies(m, which) ==> p.seqno in which && p.seqno in m && p.buf == m[p.seqno].buf
    ensures forall q :: q in which && q in m ==> Pkt(q, m[q].buf) in Copies(m, which)
  {
  }

  lemma SizeOfSubset<T>(a: set<T>, b: set<T>)
    requires a <= b
    ensures |a| <= |b|
  {
    assert b == a + (b - a);
  }

  // ---------------------------------------------------- the invariant is kept

  lemma WireGrows(wire: multiset<Pkt>, pkts: seq<Bytes>, m: Inflight, which: set<nat>)
    requires WireOk(wire, pkts)
    requires forall q :: q in m ==> q < |pkts| && m[q].buf == pkts[q]
    ensures WireOk(wire + Copies(m, which), pkts)
  {
    CopiesFacts(m, which);
  }

  lemma RetransmitKeepsSender(s: Sender, t: Sender, pkts: seq<Bytes>, sends: map<nat, nat>, now: nat,
                              gone: set<nat>, again: set<nat>, at: nat)
    requires SenderOk(s, pkts, sends, now) && at >= now
    requires Retransmits(s, t, gone, again, at) && WindowOk(t)
    ensures SenderOk(t, pkts, Counted(sends, again), at)
  {
    SizeOfSubset(t.inflight.Keys, s.inflight.Keys);
    assert |t.inflight| == |t.inflight.Keys| && |s.inflight| == |s.inflight.Keys|;
  }

  lemma RetransmitForgetsNothing(s: System, t: System, gone: set<nat>)
    requires NothingForgotten(s) && t.rcv == s.rcv && t.snd.nextSeq == s.snd.nextSeq
    requires t.snd.inflight.Keys == s.snd.inflight.Keys - gone
    requires forall q :: q in gone ==> Received(s.rcv, q)
    requires forall a :: a in t.acks ==> a in s.acks
    requires forall a :: a in s.acks && a !in gone ==> a in t.acks
    ensures NothingForgotten(t)
  {
  }

  lemma RetransmitKeepsInv(s: System, t: System, gone: set<nat>, again: set<nat>, keep: set<nat>, at: nat)
    requires Inv(s) && at >= s.now
    requires Retransmits(s.snd, t.snd, gone, again, at) && WindowOk(t.snd)
    requires forall q :: q in gone ==> Received(s.rcv, q)
    requires forall a :: a in t.acks ==> a in s.acks
    requires forall a :: a in s.acks && a !in gone ==> a in t.acks
    requires t == AfterSend(s.(acks := t.acks), t.snd, again, keep, at)
    ensures Inv(t)
  {
    RetransmitKeepsSender(s.snd, t.snd, s.pkts, s.sends, s.now, gone, again, at);
    WireGrows(s.wire, s.pkts, t.snd.inflight, again * keep);
    assert again <= s.sends.Keys;
    assert t.sends.Keys == s.sends.Keys;
    RetransmitForgetsNothing(s, t, gone);
  }

  lemma AckKeepsInv(s: System, a: Action)
    requires Inv(s) && a.AckArrives? && Step(s, a).Some?
    ensures Inv(Step(s, a).value)
  {
    var (snd, again) := OnAck(s.snd, s.acks[0], a.at, a.maxCwnd);
    OnAckFacts(s.snd, s.acks[0], a.at, a.maxCwnd);
    RetransmitKeepsInv(s, Step(s, a).value, {s.acks[0]}, again, a.keep, a.at);
  }

  lemma TimerKeepsInv(s: System, a: Action)
    requires Inv(s) && a.TimerFires? && Step(s, a).Some?
    ensures Inv(Step(s, a).value)
  {
    match OnTimer(s.snd, a.at)
    case GiveUp =>
    case Resend(snd, which) =>
      OnTimerFacts(s.snd, a.at);
      RetransmitKeepsInv(s, Step(s, a).value, {}, which, a.keep, a.at);
  }

  // The state after reading `data`: exactly one new packet, sent once.
  function WithPacket(s: System, data: Bytes, keep: set<nat>, at: nat): System {
    var n := s.snd.nextSeq;
    var m := s.snd.inflight[n := Entry(data, at, 1)];
    s.(snd := s.snd.(inflight := m, nextSeq := n + 1),
       wire := s.wire + Copies(m, {n} * keep),
       now := at,
       sends := s.sends[n := 1],
       pkts := s.pkts + [data],
       input := s.input + data)
  }

  lemma DataReadIs(s: System, a: Action)
    requires s.snd.leftover == [] && s.snd.nextSeq !in s.sends && a.DataRead? && Step(s, a).Some?
    ensures Step(s, a).value == WithPacket(s, a.data, a.keep, a.at)
  {
    var n := s.snd.nextSeq;
    var (snd, which) := OnRead(s.snd, a.data, a.at);
    OnReadFacts(s.snd, a.data, a.at);
    assert Counted(s.sends, {n}) == s.sends[n := 1];
  }

  lemma WithPacketSender(s: Sender, pkts: seq<Bytes>, sends: map<nat, nat>, now: nat, data: Bytes, at: nat)
    requires SenderOk(s, pkts, sends, now) && at >= now && |s.inflight| < s.cwnd
    ensures SenderOk(s.(inflight := s.inflight[s.nextSeq := Entry(data, at, 1)], nextSeq := s.nextSeq + 1),
                     pkts + [data], sends[s.nextSeq := 1], at)
  {
  }

  lemma WithPacketPackets(pkts: seq<Bytes>, input: Bytes, sends: map<nat, nat>, data: Bytes)
    requires PacketsOk(pkts, input, sends) && 0 < |data| <= MSS
    ensures PacketsOk(pkts + [data], input + data, sends[|pkts| := 1])
  {
    ConcatAppend(pkts, data);
  }

  lemma WithPacketReceiver(r: Receiver, wire: multiset<Pkt>, pkts: seq<Bytes>, data: Bytes)
    requires ReceiverOk(r, pkts) && WireOk(wire, pkts)
    ensures ReceiverOk(r, pkts + [data]) && WireOk(wire, pkts + [data])
  {
    assert (pkts + [data])[..r.expected] == pkts[..r.expected];
  }

  lemma WithPacketForgetsNothing(s: System, data: Bytes, keep: set<nat>, at: nat)
    requires NothingForgotten(s) && s.snd.nextSeq == |s.pkts| && ReceiverOk(s.rcv, s.pkts)
    ensures NothingForgotten(WithPacket(s, data, keep, at))
  {
  }

  lemma WithPacketKeepsInv(s: System, data: Bytes, keep: set<nat>, at: nat)
    requires Inv(s) && 0 < |data| <= MSS && at >= s.now && |s.snd.inflight| < s.snd.cwnd
    ensures Inv(WithPacket(s, data, keep, at))
  {
    WithPacketSender(s.snd, s.pkts, s.sends, s.now, data, at);
    WithPacketPackets(s.pkts, s.input, s.sends, data);
    WithPacketReceiver(s.rcv, s.wire, s.pkts, data);
    WithPacketForgetsNothing(s, data, keep, at);
    var m := s.snd.inflight[s.snd.nextSeq := Entry(data, at, 1)];
    WireGrows(s.wire, s.pkts + [data], m, {s.snd.nextSeq} * keep);
  }

  lemma DeliverKeepsInv(s: System, a: Action)
    requires Inv(s) && a.PacketArrives? && Step(s, a).Some?
    ensures Inv(Step(s, a).value)
  {
    DeliverFacts(s.rcv, a.p, s.pkts);
  }

  lemma InitInv(rtt: nat, start: nat)
    ensures Inv(Init(rtt, start))
  {
  }

  lemma StepKeepsInv(s: System, a: Action)
    requires Inv(s) && Step(s, a).Some? && !a.WriteFails?
    ensures Inv(Step(s, a).value)
  {
    match a
    case AckArrives(_, _, _) => AckKeepsInv(s, a);
    case TimerFires(_, _) => TimerKeepsInv(s, a);
    case DataRead(at, data, keep) =>
      assert s.snd.nextSeq !in s.sends;
      DataReadIs(s, a);
      WithPacketKeepsInv(s, data, keep, at);
    case PacketArrives(_) => DeliverKeepsInv(s, a);
    case EndOfInput(_) =>
    case Stop =>
  }

  // ------------------------------------------------------ safety of every run

  // A write that fails partway leaves a prefix behind and ends the pipe.
  predicate Safe(s: System) {
    s.rcv.out <= s.input && (s.status == Running ==> Inv(s))
  }

  lemma OutputIsPrefix(r: Receiver, pkts: seq<Bytes>)
    requires ReceiverOk(r, pkts)
    ensures r.out <= Concat(pkts)
  {
    ConcatSplit(pkts, r.expected);
  }

  lemma StepSafe(s: System, a: Action)
    requires Safe(s) && Step(s, a).Some?
    ensures Safe(Step(s, a).value)
  {
    var t := Step(s, a).value;
    if a.WriteFails? {
      DeliverFacts(s.rcv, a.p, s.pkts);
      OutputIsPrefix(Deliver(s.rcv, a.p).0, s.pkts);
    } else {
      StepKeepsInv(s, a);
      OutputIsPrefix(t.rcv, t.pkts);
    }
  }

  lemma {:induction false} RunSafe(s: System, acts: seq<Action>)
    requires Safe(s) && Run(s, acts).Some?
    ensures Safe(Run(s, acts).value)
    decreases |acts|
  {
    if acts != [] {
      StepSafe(s, acts[0]);
      RunSafe(Step(s, acts[0]).value, acts[1..]);
    }
  }

  // Main safety result: whatever is lost, delayed, reordered, duplicated or
  // retransmitted, the bytes written are a prefix of the bytes read; while the
  // pipe runs they are exactly the packets below `expected`, later ones are
  // held back, no packet is forgotten and the window stays in its range.
  lemma WrittenIsPrefixOfRead(rtt: nat, start: nat, acts: seq<Action>)
    requires Run(Init(rtt, start), acts).Some?
    ensures var s := Run(Init(rtt, start), acts).value;
            && s.rcv.out <= s.input
            && (s.status == Running ==>
                  && s.rcv.expected <= |s.pkts|
                  && s.rcv.out == Concat(s.pkts[..s.rcv.expected])
                  && (forall q :: q in s.rcv.reorder ==> s.rcv.expected < q < |s.pkts| && s.rcv.reorder[q] == s.pkts[q])
                  && (forall q :: 0 <= q < |s.pkts| && q !in s.snd.inflight ==> Received(s.rcv, q))
                  && (forall q :: q in s.snd.inflight ==> q in s.sends && s.snd.inflight[q].tries == s.sends[q])
                  && s.snd.leftover == []
                  && MIN_CWND <= s.snd.cwnd <= MAX_CWND)
  {
    InitInv(rtt, start);
    RunSafe(Init(rtt, start), acts);
  }

  lemma OnAckKarn(s: Sender, ack: nat, at: nat, maxCwnd: nat)
    requires WindowOk(s) && 64 <= maxCwnd <= MAX_CWND
    requires ack in s.inflight ==> s.inflight[ack].tries != 1
    ensures OnAck(s, ack, at, maxCwnd).0.srtt == s.srtt && OnAck(s, ack, at, maxCwnd).0.rttvar == s.rttvar
  {
    if ack in s.inflight {
      var a := Acked(s, ack, at, maxCwnd);
      assert a.srtt == s.srtt && a.rttvar == s.rttvar;
      AckedFacts(s, ack, at, maxCwnd);
      RecoverFacts(EpisodeEnd(a, ack), s.inflight[ack].sent, at);
    }
  }

  lemma AckMovesRtt(s: System, a: Action)
    requires Inv(s) && a.AckArrives? && Step(s, a).Some?
    requires Step(s, a).value.snd.srtt != s.snd.srtt || Step(s, a).value.snd.rttvar != s.snd.rttvar
    ensures s.acks[0] in s.sends && s.sends[s.acks[0]] == 1
  {
    if !(s.acks[0] in s.snd.inflight && s.snd.inflight[s.acks[0]].tries == 1) {
      OnAckKarn(s.snd, s.acks[0], a.at, a.maxCwnd);
    }
  }

  lemma OthersKeepRtt(s: System, a: Action)
    requires s.snd.leftover == [] && !a.AckArrives? && Step(s, a).Some?
    ensures Step(s, a).value.snd.srtt == s.snd.srtt && Step(s, a).value.snd.rttvar == s.snd.rttvar
  {
    if a.DataRead? {
      OnReadFacts(s.snd, a.data, a.at);
    }
  }

  // Karn's rule over whole runs: a step that moves the round-trip estimate is
  // the acknowledgement of a packet handed to the wire exactly once.
  lemma RttMovesOnlyOnSinglySent(s: System, a: Action)
    requires Inv(s) && Step(s, a).Some?
    requires Step(s, a).value.snd.srtt != s.snd.srtt || Step(s, a).value.snd.rttvar != s.snd.rttvar
    ensures a.AckArrives? && s.acks[0] in s.sends && s.sends[s.acks[0]] == 1
  {
    if a.AckArrives? {
      AckMovesRtt(s, a);
    } else {
      OthersKeepRtt(s, a);
    }
  }

  lemma EpisodeAck(s: Sender, ack: nat, at: nat, maxCwnd: nat)
    requires WindowOk(s) && 64 <= maxCwnd <= MAX_CWND
    requires s.recoveryEnd.Some? && ack < s.recoveryEnd.value
    ensures OnAck(s, ack, at, maxCwnd).0.recoveryEnd == s.recoveryEnd
    ensures OnAck(s, ack, at, maxCwnd).0.ssthresh == s.ssthresh
    ensures OnAck(s, ack, at, maxCwnd).0.cwnd >= Min(s.cwnd, maxCwnd)
  {
    if ack in s.inflight {
      var a := Acked(s, ack, at, maxCwnd);
      assert a.recoveryEnd == s.recoveryEnd && a.ssthresh == s.ssthresh && a.cwnd >= Min(s.cwnd, maxCwnd);
      AckedFacts(s, ack, at, maxCwnd);
      RecoverFacts(a, s.inflight[ack].sent, at);
    }
  }

  // Neither a retransmission timeout nor the acknowledgement of a packet sent
  // after the episode began.
  predicate WithinEpisode(s: System, a: Action, end: nat) {
    && (a.TimerFires? ==> DueSet(s.snd, a.at) == {})
    && (a.AckArrives? && s.acks != [] ==> s.acks[0] < end)
  }

  predicate AllWithinEpisode(s: System, acts: seq<Action>, end: nat)
    requires Run(s, acts).Some?
    decreases |acts|
  {
    acts == [] || (WithinEpisode(s, acts[0], end) && AllWithinEpisode(Step(s, acts[0]).value, acts[1..], end))
  }

  lemma EpisodeStep(s: System, a: Action, end: nat)
    requires Inv(s) && Step(s, a).Some? && s.snd.recoveryEnd == Some(end) && WithinEpisode(s, a, end)
    ensures var t := Step(s, a).value.snd;
            && t.recoveryEnd == Some(end) && t.ssthresh == s.snd.ssthresh
            && t.cwnd >= if a.AckArrives? then Min(s.snd.cwnd, a.maxCwnd) else s.snd.cwnd
    ensures Step(s, a).value.status == Running ==> Inv(Step(s, a).value)
  {
    if !a.WriteFails? {
      StepKeepsInv(s, a);
    }
    if a.AckArrives? {
      EpisodeAck(s.snd, s.acks[0], a.at, a.maxCwnd);
    } else if a.DataRead? {
      OnReadFacts(s.snd, a.data, a.at);
    }
  }

  lemma EndedStops(s: System, acts: seq<Action>)
    requires s.status == Ended && Run(s, acts).Some?
    ensures acts == []
  {
  }

  // One halving per loss episode, over whole runs: until a timeout, or until a
  // packet sent after the episode began is acknowledged, the threshold and the
  // episode stay as the halving left them, and the window falls only to the cap.
  lemma {:induction false} OneHalvingPerEpisode(s: System, acts: seq<Action>, end: nat, cap: nat)
    requires Inv(s) && Run(s, acts).Some? && s.snd.recoveryEnd == Some(end) && AllWithinEpisode(s, acts, end)
    requires forall a :: a in acts && a.AckArrives? ==> a.maxCwnd >= cap
    ensures var t := Run(s, acts).value.snd;
            t.recoveryEnd == Some(end) && t.ssthresh == s.snd.ssthresh && t.cwnd >= Min(s.snd.cwnd, cap)
    decreases |acts|
  {
    if acts != [] {
      var t := Step(s, acts[0]).value;
      assert acts[0] in acts;
      EpisodeStep(s, acts[0], end);
      if t.status == Ended {
        EndedStops(t, acts[1..]);
      } else {
        OneHalvingPerEpisode(t, acts[1..], end, cap);
      }
    }
  }

  // --------------------------------------------------------------- completion

  predicate Complete(s: System) {
    s.rcv.out == s.input
  }

  lemma {:induction false} NonEmptyTail(pkts: seq<Bytes>, k: nat)
    requires k <= |pkts| && forall q :: 0 <= q < |pkts| ==> |pkts[q]| > 0
    ensures Concat(pkts[k..]) == [] <==> k == |pkts|
  {
    if k < |pkts| {
      assert pkts[k..][0] == pkts[k];
    }
  }

  lemma CompleteIffAllExpected(s: System)
    requires Inv(s)
    ensures Complete(s) <==> s.rcv.expected == s.snd.nextSeq
  {
    ConcatSplit(s.pkts, s.rcv.expected);
    NonEmptyTail(s.pkts, s.rcv.expected);
  }

  // At the end of the input the pipe returns at once. Because acknowledgements
  // are served first, everything read has been written exactly when nothing is
  // in flight at that moment.
  lemma EndOfInputCompleteIffNothingInFlight(s: System, at: nat)
    requires Inv(s) && Step(s, EndOfInput(at)).Some?
    ensures Complete(Step(s, EndOfInput(at)).value) <==> s.snd.inflight == map[]
  {
    CompleteIffAllExpected(s);
    if s.snd.inflight == map[] {
      assert s.rcv.expected < s.snd.nextSeq ==> Received(s.rcv, s.rcv.expected);
    } else {
      var q :| q in s.snd.inflight;
      assert !Received(s.rcv, q);
    }
  }

  // And it does return with bytes unwritten: one byte read, then end of input.
  lemma EndOfInputCanLoseBytes()
    ensures exists acts :: Run(Init(1, 0), acts).Some?
                           && Run(Init(1, 0), acts).value.status == Ended
                           && !Complete(Run(Init(1, 0), acts).value)
  {
    var a, b := DataRead(0, [7], {0}), EndOfInput(0);
    var s0 := Init(1, 0);
    OnReadFacts(s0.snd, [7], 0);
    var s1 := Step(s0, a).value;
    assert s1.snd.inflight.Keys == {0};
    assert |s1.snd.inflight| == |s1.snd.inflight.Keys| == 1;
    assert Run(s0, [a, b]) == Run(s1, [b]) by {
      assert [a, b][1..] == [b];
    }
    assert Run(s1, [b]) == Step(s1, b) by {
      assert [b][1..] == [];
    }
  }

  predicate OnWire(s: System, q: nat)
    requires q in s.snd.inflight
  {
    Pkt(q, s.snd.inflight[q].buf) in s.wire
  }

  // Every packet still missing at the receiver has a copy on the wire...
  predicate Covered(s: System) {
    forall q :: q in s.snd.inflight && !Received(s.rcv, q) ==> OnWire(s, q)
  }

  // ... or may still be retransmitted by the timer without giving up.
  predicate Recoverable(s: System) {
    forall q :: q in s.snd.inflight && !Received(s.rcv, q) ==> OnWire(s, q) || s.snd.inflight[q].tries < MAX_TRIES
  }

  predicate Quiet(s: System) {
    s.acks == [] && s.wire == multiset{}
  }

  lemma PacketServed(s: System, p: Pkt)
    requires Inv(s) && s.status == Running && p in s.wire
    ensures Step(s, PacketArrives(p)).Some?
    ensures var t := Step(s, PacketArrives(p)).value;
            && Inv(t) && t.status == Running && t.input == s.input
            && t.snd == s.snd && |t.wire| < |s.wire|
            && (Recoverable(s) ==> Recoverable(t)) && (Covered(s) ==> Covered(t))
  {
    DeliverFacts(s.rcv, p, s.pkts);
    DeliverKeepsInv(s, PacketArrives(p));
  }

  // Serving an acknowledgement with nothing further lost.
  function ServeAck(s: System): Action
    requires s.acks != []
  {
    AckArrives(s.now, 64, OnAck(s.snd, s.acks[0], s.now, 64).1)
  }

  lemma OneFewer(before: Inflight, after: Inflight, gone: nat)
    requires gone in before && after.Keys == before.Keys - {gone}
    ensures |after| < |before|
  {
    assert before.Keys == after.Keys + {gone};
    assert |after| == |after.Keys| && |before| == |before.Keys|;
  }

  lemma AckServedShrinks(s: System)
    requires Inv(s) && s.status == Running && s.acks != []
    ensures Step(s, ServeAck(s)).Some?
    ensures var t := Step(s, ServeAck(s)).value;
            && Inv(t) && t.status == Running && t.input == s.input && t.acks == s.acks[1..] && t.rcv == s.rcv
            && (|t.snd.inflight| < |s.snd.inflight| || (t.snd.inflight == s.snd.inflight && t.wire == s.wire))
  {
    AckKeepsInv(s, ServeAck(s));
    AckShrinks(s.snd, s.acks[0], s.now, 64, s.wire);
  }

  lemma AckShrinks(s: Sender, ack: nat, at: nat, maxCwnd: nat, wire: multiset<Pkt>)
    requires WindowOk(s) && 64 <= maxCwnd <= MAX_CWND
    ensures var (t, again) := OnAck(s, ack, at, maxCwnd);
            || |t.inflight| < |s.inflight|
            || (t.inflight == s.inflight && wire + Copies(t.inflight, again * again) == wire)
  {
    if ack in s.inflight {
      OnAckFacts(s, ack, at, maxCwnd);
      OneFewer(s.inflight, OnAck(s, ack, at, maxCwnd).0.inflight, ack);
    }
  }

  lemma AckServedCovers(s: System)
    requires Inv(s) && s.status == Running && s.acks != [] && Step(s, ServeAck(s)).Some?
    ensures var t := Step(s, ServeAck(s)).value;
            (Recoverable(s) ==> Recoverable(t)) && (Covered(s) ==> Covered(t))
  {
    var t := Step(s, ServeAck(s)).value;
    var (snd, again) := OnAck(s.snd, s.acks[0], s.now, 64);
    OnAckFacts(s.snd, s.acks[0], s.now, 64);
    assert again * again == again;
    CopiesFacts(snd.inflight, again);
    assert t.snd == snd && t.wire == s.wire + Copies(snd.inflight, again) && t.rcv == s.rcv;
    forall q | q in snd.inflight
      ensures q in s.snd.inflight && snd.inflight[q].buf == s.snd.inflight[q].buf
      ensures OnWire(s, q) ==> OnWire(t, q)
      ensures OnWire(t, q) || snd.inflight[q].tries == s.snd.inflight[q].tries
    {
    }
  }

  lemma SettleStep(s: System) returns (a: Action, t: System)
    requires Inv(s) && s.status == Running && !Quiet(s)
    ensures Step(s, a) == Some(t) && Inv(t) && t.status == Running && t.input == s.input
    ensures (Recoverable(s) ==> Recoverable(t)) && (Covered(s) ==> Covered(t))
    ensures || |t.snd.inflight| < |s.snd.inflight|
            || (t.snd.inflight == s.snd.inflight && |t.wire| < |s.wire|)
            || (t.snd.inflight == s.snd.inflight && t.wire == s.wire && |t.acks| < |s.acks|)
  {
    if s.acks != [] {
      a := ServeAck(s);
      AckServedShrinks(s);
      AckServedCovers(s);
    } else {
      var p :| p in s.wire;
      a := PacketArrives(p);
      PacketServed(s, p);
    }
    t := Step(s, a).value;
  }

  // Delivering everything on the wire and serving every acknowledgement, with
  // no further loss, comes to rest.
  lemma {:induction false} Settle(s: System) returns (acts: seq<Action>)
    requires Inv(s) && s.status == Running
    ensures Run(s, acts).Some?
    ensures var t := Run(s, acts).value;
            && Inv(t) && t.status == Running && t.input == s.input && Quiet(t)
            && (Recoverable(s) ==> Recoverable(t)) && (Covered(s) ==> Covered(t))
    decreases |s.snd.inflight|, |s.wire|, |s.acks|
  {
    if Quiet(s) {
      return [];
    }
    var a, t := SettleStep(s);
    var rest := Settle(t);
    acts := [a] + rest;
    assert acts[1..] == rest;
    assert Run(s, acts) == Run(t, rest);
  }

  lemma AllDue(s: Sender, at: nat)
    requires s.inflight != map[]
    requires forall q :: q in s.inflight ==> s.inflight[q].sent + 1_000_000 <= at && s.inflight[q].tries < MAX_TRIES
    ensures TimerReady(s, at) && OnTimer(s, at).Resend? && OnTimer(s, at).which == s.inflight.Keys
  {
    assert DueSet(s, at) == s.inflight.Keys;
    var any :| any in s.inflight;
  }

  lemma CoveredByCopies(s: System, which: set<nat>)
    requires s.snd.inflight.Keys <= which
    requires Copies(s.snd.inflight, which) <= s.wire
    ensures Covered(s)
  {
    CopiesFacts(s.snd.inflight, which);
  }

  lemma TimerStepIs(s: System, at: nat)
    requires s.status == Running && s.acks == [] && at >= s.now
    requires TimerReady(s.snd, at) && OnTimer(s.snd, at).Resend?
    ensures var (snd, which) := (OnTimer(s.snd, at).s, OnTimer(s.snd, at).which);
            Step(s, TimerFires(at, which)) == Some(AfterSend(s, snd, which, which, at))
  {
  }

  // At rest with something in flight, one timeout puts all of it on the wire.
  lemma TimeoutResendsAll(s: System) returns (a: Action)
    requires Inv(s) && s.status == Running && Quiet(s) && Recoverable(s) && s.snd.inflight != map[]
    ensures Step(s, a).Some?
    ensures var t := Step(s, a).value;
            && Inv(t) && t.status == Running && t.input == s.input && Covered(t)
  {
    var at := s.now + 1_000_000;
    assert forall q :: q in s.snd.inflight ==> !Received(s.rcv, q) && !OnWire(s, q);
    AllDue(s.snd, at);
    OnTimerFacts(s.snd, at);
    var which := OnTimer(s.snd, at).which;
    a := TimerFires(at, which);
    TimerStepIs(s, at);
    var t := AfterSend(s, OnTimer(s.snd, at).s, which, which, at);
    assert t.snd.inflight.Keys <= which;
    assert which * which == which;
    CoveredByCopies(t, which);
    TimerKeepsInv(s, a);
  }

  // Main progress result: from every reachable live state in which no missing
  // packet has both lost all its copies and used up its retries, some
  // continuation writes everything read and empties the in-flight map.
  lemma CompletionStaysReachable(s: System) returns (acts: seq<Action>)
    requires Inv(s) && s.status == Running && Recoverable(s)
    ensures Run(s, acts).Some?
    ensures var t := Run(s, acts).value;
            t.status == Running && t.input == s.input && Complete(t) && t.snd.inflight == map[]
  {
    var first := Settle(s);
    var t := Run(s, first).value;
    if t.snd.inflight == map[] {
      acts := first;
      QuietCovered(t);
    } else {
      var a := TimeoutResendsAll(t);
      var u := Step(t, a).value;
      var second := Settle(u);
      acts := first + ([a] + second);
      RunAppend(s, first, [a] + second);
      assert ([a] + second)[1..] == second;
      QuietCovered(Run(u, second).value);
    }
  }

  lemma QuietCovered(s: System)
    requires Inv(s) && Quiet(s) && Covered(s)
    ensures Complete(s) && s.snd.inflight == map[]
  {
    assert forall q :: q in s.snd.inflight ==> Received(s.rcv, q) && q in s.acks;
    CompleteIffAllExpected(s);
    assert s.rcv.expected < s.snd.nextSeq ==> Received(s.rcv, s.rcv.expected);
  }

  // ------------------------------------------- why Recoverable is needed

  // Nothing on the wire, no acknowledgement due, no room to read, the tail
  // probe used up, and the packet due first has no retry left.
  ghost predicate Stuck(s: System) {
    && Inv(s) && s.status == Running && Quiet(s)
    && |s.snd.inflight| >= s.snd.cwnd
    && s.snd.inflight.Keys != {} && s.snd.tlpDone == Some(Newest(s.snd.inflight.Keys))
    && exists q :: q in s.snd.inflight && s.snd.inflight[q].tries >= MAX_TRIES
                   && forall k :: k in s.snd.inflight ==> s.snd.inflight[q].sent <= s.snd.inflight[k].sent
  }

  lemma StuckIncomplete(s: System)
    requires Stuck(s)
    ensures !Complete(s)
  {
    CompleteIffAllExpected(s);
    var q :| q in s.snd.inflight;
    assert !Received(s.rcv, q);
  }

  lemma StuckStep(s: System, a: Action)
    requires Stuck(s) && Step(s, a).Some?
    ensures Step(s, a).value.status == Ended
    ensures Step(s, a).value.rcv == s.rcv && Step(s, a).value.input == s.input
  {
    if a.TimerFires? {
      var q :| q in s.snd.inflight && s.snd.inflight[q].tries >= MAX_TRIES
               && forall k :: k in s.snd.inflight ==> s.snd.inflight[q].sent <= s.snd.inflight[k].sent;
      assert DueSet(s.snd, a.at) != {};
      assert q in DueSet(s.snd, a.at);
    }
  }

  // From a stuck state no continuation writes another byte.
  lemma StuckNeverCompletes(s: System, acts: seq<Action>)
    requires Stuck(s) && Run(s, acts).Some?
    ensures Run(s, acts).value.rcv.out == s.rcv.out && !Complete(Run(s, acts).value)
  {
    StuckIncomplete(s);
    if acts != [] {
      StuckStep(s, acts[0]);
      var t := Step(s, acts[0]).value;
      assert Run(t, acts[1..]).Some? ==> acts[1..] == [];
    }
  }

  // A concrete run into a stuck state: two one-byte packets, every copy lost,
  // one tail probe, then ten timeouts in step.
  const RTT: nat := 100_000
  const RTO: nat := 300_000

  function StormWindow(n: nat): nat {
    if n == 0 then INIT_CWND else Max(MIN_CWND, StormWindow(n - 1) / 2)
  }

  function StormSender(n: nat): Sender {
    Sender(
      map[0 := Entry([1], n * RTO, 1 + n), 1 := Entry([1], n * RTO, 2 + n)],
      2, StormWindow(n), if n == 0 then 0xFFFF_FFFF else StormWindow(n), 0, RTT, RTT / 2, false,
      Some(1), if n == 0 then None else Some(2), [])
  }

  function Storm(n: nat): System {
    System(StormSender(n), InitReceiver(), multiset{}, [], if n == 0 then 2 * RTT else n * RTO, Running,
           [[1], [1]], [1, 1], map[0 := 1 + n, 1 := 2 + n])
  }

  function OnePacket(): System {
    System(InitSender(RTT).(inflight := map[0 := Entry([1], 0, 1)], nextSeq := 1),
           InitReceiver(), multiset{}, [], 0, Running, [[1]], [1], map[0 := 1])
  }

  function TwoPackets(): System {
    System(InitSender(RTT).(inflight := map[0 := Entry([1], 0, 1), 1 := Entry([1], 0, 1)], nextSeq := 2),
           InitReceiver(), multiset{}, [], 0, Running, [[1], [1]], [1, 1], map[0 := 1, 1 := 1])
  }

  lemma NoneSurvives(wire: multiset<Pkt>, m: Inflight, which: set<nat>)
    ensures wire + Copies(m, which * {}) == wire
  {
    assert which * {} == {};
  }

  lemma StormFirstRead()
    ensures Step(Init(RTT, 0), DataRead(0, [1], {})) == Some(OnePacket())
  {
    OnReadFacts(InitSender(RTT), [1], 0);
    NoneSurvives(multiset{}, OnePacket().snd.inflight, {0});
    assert Counted(map[], {0}) == map[0 := 1];
    assert OnePacket().pkts == Init(RTT, 0).pkts + [[1]] && OnePacket().input == Init(RTT, 0).input + [1];
  }

  lemma StormMayRead()
    ensures CanRead(OnePacket(), 0)
  {
    var s := OnePacket();
    assert |s.snd.inflight| == |s.snd.inflight.Keys| == |{0}|;
  }

  lemma StormSecondRead()
    ensures Step(OnePacket(), DataRead(0, [1], {})) == Some(TwoPackets())
  {
    var s := OnePacket();
    StormMayRead();
    OnReadFacts(s.snd, [1], 0);
    NoneSurvives(multiset{}, TwoPackets().snd.inflight, {1});
    assert OnRead(s.snd, [1], 0) == (TwoPackets().snd, {1});
    assert Counted(s.sends, {1}) == TwoPackets().sends;
    assert TwoPackets().pkts == s.pkts + [[1]] && TwoPackets().input == s.input + [1];
  }

  lemma StormProbeFires()
    ensures TimerReady(TwoPackets().snd, 2 * RTT)
    ensures OnTimer(TwoPackets().snd, 2 * RTT) == Resend(StormSender(0), {1})
  {
    var s := TwoPackets().snd;
    assert s.inflight.Keys == {0, 1};
    assert Newest({0, 1}) == 1;
    assert RtoOf(RTT, RTT / 2) == RTO && TlpOf(RTT) == 2 * RTT;
    assert DueSet(s, 2 * RTT) == {};
  }

  lemma StormProbe()
    ensures Step(TwoPackets(), TimerFires(2 * RTT, {})) == Some(Storm(0))
  {
    StormProbeFires();
    NoneSurvives(multiset{}, StormSender(0).inflight, {1});
    assert Counted(TwoPackets().sends, {1}) == Storm(0).sends;
  }

  lemma RunThree(s: System, a: Action, t: System, b: Action, u: System, c: Action, v: System)
    requires Step(s, a) == Some(t) && Step(t, b) == Some(u) && Step(u, c) == Some(v)
    ensures Run(s, [a, b, c]) == Some(v)
  {
    assert [a, b, c][1..] == [b, c] && [b, c][1..] == [c] && [c][1..] == [];
    assert Run(u, [c]) == Run(v, []);
    assert Run(t, [b, c]) == Run(u, [c]);
  }

  lemma StormStarts()
    ensures Run(Init(RTT, 0), [DataRead(0, [1], {}), DataRead(0, [1], {}), TimerFires(2 * RTT, {})]) == Some(Storm(0))
  {
    StormFirstRead();
    StormSecondRead();
    StormProbe();
    RunThree(Init(RTT, 0), DataRead(0, [1], {}), OnePacket(), DataRead(0, [1], {}), TwoPackets(), TimerFires(2 * RTT, {}), Storm(0));
  }

  lemma StormTimer(n: nat)
    ensures OnTimer(StormSender(n), (n + 1) * RTO) ==
            if 2 + n >= MAX_TRIES then GiveUp else Resend(StormSender(n + 1), {0, 1})
    ensures TimerReady(StormSender(n), (n + 1) * RTO)
  {
    var s, at := StormSender(n), (n + 1) * RTO;
    assert RtoOf(RTT, RTT / 2) == RTO;
    assert s.inflight.Keys == {0, 1};
    assert DueSet(s, at) == {0, 1};
    assert Resent(s.inflight, {0, 1}, at) == StormSender(n + 1).inflight;
  }

  // A timeout of which every copy is lost.
  lemma TimeoutAllLost(s: System, at: nat, snd: Sender, which: set<nat>)
    requires s.status == Running && s.acks == [] && at >= s.now
    requires TimerReady(s.snd, at) && OnTimer(s.snd, at) == Resend(snd, which)
    ensures Step(s, TimerFires(at, {})) == Some(s.(snd := snd, now := at, sends := Counted(s.sends, which)))
  {
    NoneSurvives(s.wire, snd.inflight, which);
  }

  lemma BothCounted(sends: map<nat, nat>)
    requires sends.Keys == {0, 1}
    ensures Counted(sends, {0, 1}) == map[0 := sends[0] + 1, 1 := sends[1] + 1]
  {
  }

  lemma StormContinues(n: nat)
    requires n < 10
    ensures Step(Storm(n), TimerFires((n + 1) * RTO, {})) == Some(Storm(n + 1))
  {
    var s, at, which := Storm(n), (n + 1) * RTO, {0, 1};
    StormTimer(n);
    TimeoutAllLost(s, at, StormSender(n + 1), which);
    BothCounted(s.sends);
    assert s.(snd := StormSender(n + 1), now := at, sends := Counted(s.sends, which)) == Storm(n + 1);
  }

  lemma {:induction false} StormRuns(n: nat) returns (acts: seq<Action>)
    requires n <= 10
    ensures Run(Init(RTT, 0), acts) == Some(Storm(n))
  {
    if n == 0 {
      StormStarts();
      return [DataRead(0, [1], {}), DataRead(0, [1], {}), TimerFires(2 * RTT, {})];
    }
    var before := StormRuns(n - 1);
    var a := TimerFires(n * RTO, {});
    StormContinues(n - 1);
    RunAppend(Init(RTT, 0), before, [a]);
    assert [a][1..] == [];
    return before + [a];
  }

  // So completion does not stay reachable from every reachable live state.
  lemma StuckIsReachable() returns (acts: seq<Action>)
    ensures Run(Init(RTT, 0), acts).Some? && Stuck(Run(Init(RTT, 0), acts).value)
  {
    acts := StormRuns(10);
    InitInv(RTT, 0);
    RunSafe(Init(RTT, 0), acts);
    StormIsOver();
  }

  lemma StormIsOver()
    ensures var s := Storm(10).snd; |s.inflight| == 2 == s.cwnd && Newest(s.inflight.Keys) == 1 && s.inflight[1].tries == 12
  {
    assert StormSender(10).inflight.Keys == {0, 1};
    assert StormWindow(3) == 2 && StormWindow(5) == 2 && StormWindow(7) == 2 && StormWindow(9) == 2;
  }
}
