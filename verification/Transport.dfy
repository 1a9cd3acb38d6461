// Sender and receiver of the packet WAN (crates/nya-e2e/src/packet_wan.rs).
//
// The functions are the specification of one select arm each; the classes
// below them hold the same fields and update them in place.
module Transport {
  import opened Common

  const MSS: nat := 1200
  const INIT_CWND: nat := 16
  const MIN_CWND: nat := 2
  const MAX_TRIES: nat := 12
  const MAX_CWND: nat := 16384

  datatype Pkt = Pkt(seqno: nat, buf: Bytes)

  // A packet the sender has not seen acknowledged: its bytes, when it was last
  // sent (microseconds), and how often it was handed to the wire.
  datatype Entry = Entry(buf: Bytes, sent: nat, tries: nat)

  type Inflight = map<nat, Entry>

  datatype Sender = Sender(
    inflight: Inflight,
    nextSeq: nat,
    cwnd: nat,
    ssthresh: nat,
    caAcc: nat,
    srtt: nat,
    rttvar: nat,
    haveSample: bool,
    tlpDone: Option<nat>,
    recoveryEnd: Option<nat>,
    leftover: Bytes)

  datatype Receiver = Receiver(expected: nat, reorder: map<nat, Bytes>, out: Bytes)

  function InitSender(rtt: nat): Sender {
    var srtt := Max(rtt, 1);
    Sender(map[], 0, INIT_CWND, 0xFFFF_FFFF, 0, srtt, srtt / 2, false, None, None, [])
  }

  function InitReceiver(): Receiver {
    Receiver(0, map[], [])
  }

  function RtoOf(srtt: nat, rttvar: nat): nat {
    Clamp(srtt + 4 * rttvar, 200_000, 1_000_000)
  }

  function TlpOf(srtt: nat): nat {
    Clamp(srtt * 2, 10_000, 1_000_000)
  }

  function ReoWnd(srtt: nat): nat {
    Max(srtt / 4, 1_000)
  }

  // ---------------------------------------------------------------- receiver

  // Hands over buffered packets for as long as the next expected one is there.
  function Flush(r: Receiver): (Receiver, seq<nat>)
    decreases r.reorder
  {
    if r.expected in r.reorder then
      var next := Receiver(r.expected + 1, r.reorder - {r.expected}, r.out + r.reorder[r.expected]);
      var (end, acks) := Flush(next);
      (end, [r.expected] + acks)
    else
      (r, [])
  }

  function Deliver(r: Receiver, p: Pkt): (Receiver, seq<nat>) {
    if p.seqno == r.expected then
      var (end, acks) := Flush(r.(expected := r.expected + 1, out := r.out + p.buf));
      (end, [p.seqno] + acks)
    else if p.seqno > r.expected then
      (r.(reorder := r.reorder[p.seqno := p.buf]), [p.seqno])
    else
      (r, [p.seqno])
  }

  // ------------------------------------------------------------------ sender

  // Jacobson/Karn: only a packet transmitted once samples the round trip.
  function Sampled(s: Sender, e: Entry, now: nat): Sender {
    if e.tries != 1 then s
    else
      var sample := Max(SatSub(now, e.sent), 1);
      if !s.haveSample then
        s.(srtt := sample, rttvar := sample / 2, haveSample := true)
      else
        s.(rttvar := (s.rttvar * 3 + (if s.srtt >= sample then s.srtt - sample else sample - s.srtt)) / 4,
           srtt := (s.srtt * 7 + sample) / 8)
  }

  // Reno growth, capped by the link.
  function Grown(s: Sender, maxCwnd: nat): Sender {
    var g :=
      if s.cwnd < s.ssthresh then s.(cwnd := s.cwnd + 1)
      else if s.caAcc + 1 >= s.cwnd then s.(caAcc := 0, cwnd := s.cwnd + 1)
      else s.(caAcc := s.caAcc + 1);
    g.(cwnd := Min(g.cwnd, maxCwnd))
  }

  function Halved(s: Sender): Sender {
    var h := Max(MIN_CWND, s.cwnd / 2);
    s.(ssthresh := h, cwnd := h, recoveryEnd := Some(s.nextSeq))
  }

  function Resent(m: Inflight, which: set<nat>, now: nat): Inflight {
    map q | q in m :: if q in which then Entry(m[q].buf, now, m[q].tries + 1) else m[q]
  }

  // What acknowledging one in-flight packet does before loss detection.
  function Acked(s: Sender, ack: nat, now: nat, maxCwnd: nat): Sender
    requires ack in s.inflight
  {
    var e := s.inflight[ack];
    Grown(Sampled(s.(inflight := s.inflight - {ack}), e, now), maxCwnd)
  }

  function EpisodeEnd(s: Sender, ack: nat): Sender {
    if s.recoveryEnd.Some? && ack >= s.recoveryEnd.value then s.(recoveryEnd := None) else s
  }

  // RACK: sent more than a reordering window before the packet just acknowledged.
  function LostSet(s: Sender, ackedSent: nat): set<nat> {
    set q | q in s.inflight && s.inflight[q].sent + ReoWnd(s.srtt) < ackedSent
  }

  // At most one fast retransmit per packet per probe time.
  function FastResend(s: Sender, ackedSent: nat, now: nat): set<nat> {
    set q | q in LostSet(s, ackedSent) && SatSub(now, s.inflight[q].sent) >= TlpOf(s.srtt)
  }

  // Loss detection after an acknowledgement: at most one halving per episode.
  function Recover(a: Sender, ackedSent: nat, now: nat): (Sender, set<nat>) {
    if LostSet(a, ackedSent) == {} then (a, {})
    else
      var h := if a.recoveryEnd.None? then Halved(a) else a;
      var again := FastResend(h, ackedSent, now);
      (h.(inflight := Resent(h.inflight, again, now)), again)
  }

  // The acknowledgement arm; the second result is what it retransmits.
  function OnAck(s: Sender, ack: nat, now: nat, maxCwnd: nat): (Sender, set<nat>) {
    if ack !in s.inflight then (EpisodeEnd(s, ack), {})
    else Recover(EpisodeEnd(Acked(s, ack, now, maxCwnd), ack), s.inflight[ack].sent, now)
  }

  function DueSet(s: Sender, now: nat): set<nat> {
    set q | q in s.inflight && now >= s.inflight[q].sent + RtoOf(s.srtt, s.rttvar)
  }

  lemma {:induction false} NewestExists(keys: set<nat>)
    requires keys != {}
    ensures exists q :: q in keys && forall k :: k in keys ==> k <= q
  {
    var x :| x in keys;
    if keys != {x} {
      assert keys == {x} + (keys - {x});
      NewestExists(keys - {x});
      var y :| y in keys - {x} && forall k :: k in keys - {x} ==> k <= y;
      assert Max(x, y) in keys && forall k :: k in keys ==> k <= Max(x, y);
    }
  }

  // The highest sequence number of a nonempty set.
  function Newest(keys: set<nat>): (q: nat)
    requires keys != {}
    ensures q in keys && forall k :: k in keys ==> k <= q
  {
    NewestExists(keys);
    var q :| q in keys && forall k :: k in keys ==> k <= q;
    q
  }

  // When the timer arm may run at all: some retransmission or probe deadline passed.
  predicate TimerReady(s: Sender, now: nat) {
    && s.inflight.Keys != {}
    && (DueSet(s, now) != {} || ProbeReady(s, now))
  }

  predicate ProbeReady(s: Sender, now: nat)
    requires s.inflight.Keys != {}
  {
    var q := Newest(s.inflight.Keys);
    s.tlpDone != Some(q) && now >= s.inflight[q].sent + TlpOf(s.srtt)
  }

  datatype TimerOutcome = Resend(s: Sender, which: set<nat>) | GiveUp

  // The timer arm: retransmission timeouts first, else a tail-loss probe. A
  // probe counts as a transmission but does not restart the packet's clock.
  function OnTimer(s: Sender, now: nat): TimerOutcome {
    var due := DueSet(s, now);
    if due != {} then
      if exists q :: q in due && s.inflight[q].tries >= MAX_TRIES then GiveUp
      else
        var h := Halved(s);
        Resend(h.(inflight := Resent(h.inflight, due, now)), due)
    else if s.inflight.Keys != {} && ProbeReady(s, now) then
      var q := Newest(s.inflight.Keys);
      var e := s.inflight[q];
      Resend(s.(tlpDone := Some(q), inflight := s.inflight[q := e.(tries := e.tries + 1)]), {q})
    else
      Resend(s, {})
  }

  // Cuts the next packet off the unsent bytes and puts it in flight.
  function SendOne(s: Sender, now: nat): Sender {
    var take := Min(|s.leftover|, MSS);
    s.(leftover := s.leftover[take..],
       inflight := s.inflight[s.nextSeq := Entry(s.leftover[..take], now, 1)],
       nextSeq := s.nextSeq + 1)
  }

  // Sends while the window has room; a packet shorter than MSS ends the loop.
  function SendLoop(s: Sender, now: nat): (Sender, set<nat>)
    decreases |s.leftover|
  {
    if s.leftover == [] || |s.inflight| >= s.cwnd then (s, {})
    else if |s.leftover| < MSS then (SendOne(s, now), {s.nextSeq})
    else
      var (end, more) := SendLoop(SendOne(s, now), now);
      (end, {s.nextSeq} + more)
  }

  function OnRead(s: Sender, data: Bytes, now: nat): (Sender, set<nat>) {
    SendLoop(s.(leftover := s.leftover + data), now)
  }

  // ----------------------------------------------------------- the two loops

  class WanReceiver {
    var expected: nat
    var reorder: map<nat, Bytes>
    var out: Bytes

    ghost function State(): Receiver
      reads this
    {
      Receiver(expected, reorder, out)
    }

    constructor ()
      ensures State() == InitReceiver()
    {
      expected, reorder, out := 0, map[], [];
    }

    method OnPacket(p: Pkt) returns (acks: seq<nat>)
      modifies this
      ensures (State(), acks) == Deliver(old(State()), p)
    {
      if p.seqno == expected {
        out := out + p.buf;
        acks := [p.seqno];
        expected := expected + 1;
        ghost var goal := Flush(State());
        while expected in reorder
          invariant |acks| >= 1 && acks[0] == p.seqno
          invariant Flush(State()).0 == goal.0
          invariant acks[1..] + Flush(State()).1 == goal.1
          decreases reorder
        {
          ghost var was := Flush(State());
          ghost var sofar := acks;
          out := out + reorder[expected];
          reorder := reorder - {expected};
          acks := acks + [expected];
          expected := expected + 1;
          assert was.1 == [expected - 1] + Flush(State()).1;
          assert acks[1..] == sofar[1..] + [expected - 1];
        }
        assert acks == [p.seqno] + goal.1;
      } else if p.seqno > expected {
        reorder := reorder[p.seqno := p.buf];
        acks := [p.seqno];
      } else {
        acks := [p.seqno];
      }
    }
  }

  class WanSender {
    var inflight: Inflight
    var nextSeq: nat
    var cwnd: nat
    var ssthresh: nat
    var caAcc: nat
    var srtt: nat
    var rttvar: nat
    var haveSample: bool
    var tlpDone: Option<nat>
    var recoveryEnd: Option<nat>
    var leftover: Bytes

    ghost function State(): Sender
      reads this
    {
      Sender(inflight, nextSeq, cwnd, ssthresh, caAcc, srtt, rttvar, haveSample, tlpDone, recoveryEnd, leftover)
    }

    constructor (rtt: nat)
      ensures State() == InitSender(rtt)
    {
      inflight, nextSeq, cwnd, ssthresh, caAcc := map[], 0, INIT_CWND, 0xFFFF_FFFF, 0;
      srtt := Max(rtt, 1);
      rttvar := Max(rtt, 1) / 2;
      haveSample, tlpDone, recoveryEnd, leftover := false, None, None, [];
    }

    method SampleRtt(e: Entry, now: nat)
      modifies `srtt, `rttvar, `haveSample
      ensures State() == Sampled(old(State()), e, now)
    {
      if e.tries == 1 {
        var sample := Max(SatSub(now, e.sent), 1);
        if !haveSample {
          srtt := sample;
          rttvar := sample / 2;
          haveSample := true;
        } else {
          rttvar := (rttvar * 3 + (if srtt >= sample then srtt - sample else sample - srtt)) / 4;
          srtt := (srtt * 7 + sample) / 8;
        }
      }
    }

    method Grow(maxCwnd: nat)
      modifies `cwnd, `caAcc
      ensures State() == Grown(old(State()), maxCwnd)
    {
      if cwnd < ssthresh {
        cwnd := cwnd + 1;
      } else {
        caAcc := caAcc + 1;
        if caAcc >= cwnd {
          caAcc := 0;
          cwnd := cwnd + 1;
        }
      }
      cwnd := Min(cwnd, maxCwnd);
    }

    method Halve()
      modifies `cwnd, `ssthresh, `recoveryEnd
      ensures State() == Halved(old(State()))
    {
      ssthresh := Max(MIN_CWND, cwnd / 2);
      cwnd := ssthresh;
      recoveryEnd := Some(nextSeq);
    }

    // The retransmission loop of the acknowledgement arm.
    method ResendLost(lost: set<nat>, now: nat) returns (again: set<nat>)
      requires lost <= inflight.Keys
      modifies `inflight
      ensures again == set q | q in lost && SatSub(now, old(inflight)[q].sent) >= TlpOf(srtt)
      ensures inflight == Resent(old(inflight), again, now)
    {
      var todo := lost;
      again := {};
      while todo != {}
        invariant todo <= lost
        invariant again == set q | q in lost - todo && SatSub(now, old(inflight)[q].sent) >= TlpOf(srtt)
        invariant inflight == Resent(old(inflight), again, now)
        decreases todo
      {
        var q :| q in todo;
        todo := todo - {q};
        var e := inflight[q];
        if SatSub(now, e.sent) >= TlpOf(srtt) {
          inflight := inflight[q := Entry(e.buf, now, e.tries + 1)];
          again := again + {q};
        }
      }
    }

    method DetectLoss(ackedSent: nat, now: nat) returns (again: set<nat>)
      modifies this
      ensures (State(), again) == Recover(old(State()), ackedSent, now)
    {
      again := {};
      var lost := set q | q in inflight && inflight[q].sent + ReoWnd(srtt) < ackedSent;
      assert lost == LostSet(State(), ackedSent);
      if lost != {} {
        if recoveryEnd.None? {
          Halve();
        }
        ghost var h := State();
        again := ResendLost(lost, now);
        assert again == FastResend(h, ackedSent, now);
      }
    }

    method Ack(ack: nat, now: nat, maxCwnd: nat) returns (again: set<nat>)
      modifies this
      ensures (State(), again) == OnAck(old(State()), ack, now, maxCwnd)
    {
      again := {};
      var ackedSent: Option<nat> := None;
      if ack in inflight {
        var e := inflight[ack];
        inflight := inflight - {ack};
        ackedSent := Some(e.sent);
        SampleRtt(e, now);
        Grow(maxCwnd);
      }
      if recoveryEnd.Some? && ack >= recoveryEnd.value {
        recoveryEnd := None;
      }
      if ackedSent.Some? {
        again := DetectLoss(ackedSent.value, now);
      }
    }

    // Err is the arm's "give up" return; the fields are then no longer used.
    method Timer(now: nat) returns (r: Result<set<nat>, ()>)
      modifies this
      ensures r.Err? <==> OnTimer(old(State()), now).GiveUp?
      ensures r.Ok? ==> OnTimer(old(State()), now) == Resend(State(), r.value)
    {
      var due := set q | q in inflight && now >= inflight[q].sent + RtoOf(srtt, rttvar);
      if due != {} {
        Halve();
        var todo := due;
        while todo != {}
          invariant todo <= due
          invariant forall q :: q in due - todo ==> old(inflight)[q].tries < MAX_TRIES
          invariant inflight == Resent(old(inflight), due - todo, now)
          invariant State().(inflight := old(inflight)) == Halved(old(State()))
          decreases todo
        {
          var q :| q in todo;
          var e := inflight[q];
          assert q in due && e == old(inflight)[q];
          if e.tries + 1 > MAX_TRIES {
            return Err(());
          }
          inflight := inflight[q := Entry(e.buf, now, e.tries + 1)];
          todo := todo - {q};
        }
        return Ok(due);
      } else if inflight.Keys != {} {
        var q := Newest(inflight.Keys);
        var e := inflight[q];
        if tlpDone != Some(q) && now >= e.sent + TlpOf(srtt) {
          tlpDone := Some(q);
          inflight := inflight[q := e.(tries := e.tries + 1)];
          return Ok({q});
        }
      }
      return Ok({});
    }

    method SendPacket(now: nat) returns (take: nat)
      requires leftover != []
      modifies `leftover, `inflight, `nextSeq
      ensures State() == SendOne(old(State()), now) && take == Min(|old(leftover)|, MSS)
    {
      take := Min(|leftover|, MSS);
      var buf := leftover[..take];
      leftover := leftover[take..];
      inflight := inflight[nextSeq := Entry(buf, now, 1)];
      nextSeq := nextSeq + 1;
    }

    method Read(data: Bytes, now: nat) returns (sends: set<nat>)
      modifies `leftover, `inflight, `nextSeq
      ensures (State(), sends) == OnRead(old(State()), data, now)
    {
      leftover := leftover + data;
      sends := {};
      ghost var goal := SendLoop(State(), now);
      while leftover != [] && |inflight| < cwnd
        invariant SendLoop(State(), now).0 == goal.0
        invariant sends + SendLoop(State(), now).1 == goal.1
        decreases |leftover|
      {
        ghost var was := State();
        sends := sends + {nextSeq};
        var take := SendPacket(now);
        assert SendLoop(was, now).0 == if take < MSS then State() else SendLoop(State(), now).0;
        if take < MSS {
          return;
        }
      }
    }
  }
}
