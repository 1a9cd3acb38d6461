// What each arm of the packet WAN does, told from the packets' own times and
// counts (crates/nya-e2e/src/packet_wan.rs).
module WanArms {
  import opened Common
  import opened Transport

  // ------------------------------------------------------------ round trips

  // Section 2 of RFC 6298 in whole microseconds: the variance moves a quarter of
  // the way to the deviation from the estimate before, the estimate an eighth of
  // the way to the sample, and a packet sent twice moves neither.
  lemma RoundTripSampled(s: Sender, e: Entry, now: nat)
    ensures var t := Sampled(s, e, now);
            var r := Max(now - e.sent, 1);
            var off := Max(s.srtt - r, r - s.srtt);
            && t == s.(srtt := t.srtt, rttvar := t.rttvar, haveSample := t.haveSample)
            && if e.tries != 1 then t == s
               else if !s.haveSample then t.srtt == r && t.rttvar == r / 2 && t.haveSample
               else
                 && t.haveSample
                 && 8 * t.srtt <= 7 * s.srtt + r < 8 * t.srtt + 8
                 && 4 * t.rttvar <= 3 * s.rttvar + off < 4 * t.rttvar + 4
  {
  }

  // --------------------------------------------------------- acknowledgements

  // The window after one more acknowledgement, before any loss is looked for.
  function WindowGrown(cwnd: nat, ssthresh: nat, counted: nat, maxCwnd: nat): nat {
    Min(if cwnd < ssthresh || counted + 1 >= cwnd then cwnd + 1 else cwnd, maxCwnd)
  }

  // In flight, and sent more than a quarter round trip, and a millisecond,
  // before the packet acknowledged.
  predicate Overtaken(m: Inflight, q: nat, ack: nat, srtt: nat)
    requires ack in m
  {
    q in m && q != ack && m[q].sent + Max(srtt / 4, 1_000) < m[ack].sent
  }

  predicate StaysOpen(episode: Option<nat>, ack: nat) {
    episode.Some? && ack < episode.value
  }

  // The window is cut to half of `from`, and the episode lasts until something
  // sent from now on is acknowledged.
  predicate CutFrom(t: Sender, from: nat) {
    t.cwnd == t.ssthresh == Max(2, from / 2) && t.recoveryEnd == Some(t.nextSeq)
  }

  // The packets in flight afterwards: those re-sent have a new time and one more
  // try, the others are as they were.
  predicate Carries(t: Inflight, m: Inflight, gone: set<nat>, again: set<nat>, now: nat) {
    && t.Keys == m.Keys - gone
    && forall q :: q in t ==> t[q] == if q in again then Entry(m[q].buf, now, m[q].tries + 1) else m[q]
  }

  lemma GrowthIs(s: Sender, maxCwnd: nat)
    ensures var t := Grown(s, maxCwnd);
            && t.cwnd == WindowGrown(s.cwnd, s.ssthresh, s.caAcc, maxCwnd)
            && t.caAcc == (if s.cwnd < s.ssthresh then s.caAcc else if s.caAcc + 1 >= s.cwnd then 0 else s.caAcc + 1)
            && t == s.(cwnd := t.cwnd, caAcc := t.caAcc)
  {
  }

  lemma AckedIs(s: Sender, ack: nat, now: nat, maxCwnd: nat)
    requires ack in s.inflight
    ensures var a := EpisodeEnd(Acked(s, ack, now, maxCwnd), ack);
            && a.cwnd == WindowGrown(s.cwnd, s.ssthresh, s.caAcc, maxCwnd)
            && a.srtt == Sampled(s, s.inflight[ack], now).srtt && a.inflight == s.inflight - {ack}
            && a.ssthresh == s.ssthresh && a.nextSeq == s.nextSeq
            && a.recoveryEnd == if StaysOpen(s.recoveryEnd, ack) then s.recoveryEnd else None
  {
    GrowthIs(Sampled(s.(inflight := s.inflight - {ack}), s.inflight[ack], now), maxCwnd);
  }

  lemma RecoverIs(a: Sender, ackedSent: nat, now: nat)
    ensures var (t, again) := Recover(a, ackedSent, now);
            var lost := set q | q in a.inflight && a.inflight[q].sent + Max(a.srtt / 4, 1_000) < ackedSent;
            && t.srtt == a.srtt && t.nextSeq == a.nextSeq
            && (if lost != {} && a.recoveryEnd.None? then CutFrom(t, a.cwnd)
                else t.cwnd == a.cwnd && t.ssthresh == a.ssthresh && t.recoveryEnd == a.recoveryEnd)
            && again == (set q | q in lost && now - a.inflight[q].sent >= Clamp(2 * a.srtt, 10_000, 1_000_000))
            && Carries(t.inflight, a.inflight, {}, again, now)
  {
    assert LostSet(a, ackedSent) == set q | q in a.inflight && a.inflight[q].sent + Max(a.srtt / 4, 1_000) < ackedSent;
  }

  // An acknowledgement of a packet in flight finds a loss exactly when a packet
  // was overtaken. It cuts the window once per episode, else lets it grow, and
  // re-sends just the overtaken packets not sent within a probe time.
  lemma LossCutsTheWindow(s: Sender, ack: nat, now: nat, maxCwnd: nat)
    requires ack in s.inflight
    ensures var (t, again) := OnAck(s, ack, now, maxCwnd);
            var g := WindowGrown(s.cwnd, s.ssthresh, s.caAcc, maxCwnd);
            && t.srtt == Sampled(s, s.inflight[ack], now).srtt && t.nextSeq == s.nextSeq
            && (if !StaysOpen(s.recoveryEnd, ack) && (exists q :: Overtaken(s.inflight, q, ack, t.srtt)) then CutFrom(t, g)
                else t.cwnd == g && t.ssthresh == s.ssthresh
                     && t.recoveryEnd == if StaysOpen(s.recoveryEnd, ack) then s.recoveryEnd else None)
            && (forall q :: q in again <==> Overtaken(s.inflight, q, ack, t.srtt)
                                            && now - s.inflight[q].sent >= Clamp(2 * t.srtt, 10_000, 1_000_000))
            && Carries(t.inflight, s.inflight, {ack}, again, now)
  {
    var a := EpisodeEnd(Acked(s, ack, now, maxCwnd), ack);
    var sent := s.inflight[ack].sent;
    AckedIs(s, ack, now, maxCwnd);
    RecoverIs(a, sent, now);
    var lost := set q | q in a.inflight && a.inflight[q].sent + Max(a.srtt / 4, 1_000) < sent;
    assert forall q :: q in lost <==> Overtaken(s.inflight, q, ack, a.srtt);
  }

  // Of a packet no longer in flight an acknowledgement only ends the episode.
  lemma LateAckOnlyEndsEpisode(s: Sender, ack: nat, now: nat, maxCwnd: nat)
    requires ack !in s.inflight
    ensures OnAck(s, ack, now, maxCwnd) == (s.(recoveryEnd := if StaysOpen(s.recoveryEnd, ack) then s.recoveryEnd else None), {})
  {
  }

  // -------------------------------------------------------------------- input

  // The j-th full packet of some bytes, or what is left of them.
  function Piece(bytes: Bytes, j: nat): Bytes
    requires j * MSS <= |bytes|
  {
    bytes[j * MSS..Min((j + 1) * MSS, |bytes|)]
  }

  // How many packets some bytes make, with room for so many.
  function Packets(length: nat, room: nat): nat {
    Min((length + MSS - 1) / MSS, room)
  }

  function Room(s: Sender): nat {
    SatSub(s.cwnd, |s.inflight|)
  }

  lemma PacketsFit(length: nat, room: nat, j: nat)
    requires j < Packets(length, room)
    ensures j * MSS <= length && (length >= MSS ==> Packets(length, room) == 1 + Packets(length - MSS, room - 1))
    ensures length < MSS ==> Packets(length, room) == 1
  {
  }

  lemma PieceShifts(bytes: Bytes, j: nat)
    requires |bytes| >= MSS && (j + 1) * MSS <= |bytes|
    ensures Piece(bytes[MSS..], j) == Piece(bytes, j + 1)
  {
    assert (j + 1) * MSS == j * MSS + MSS && (j + 2) * MSS == (j + 1) * MSS + MSS;
  }

  // Fresh packets in order, while the bytes and the room in the window last.
  ghost predicate CutInto(s: Sender, t: Sender, sends: set<nat>, n: nat, now: nat) {
    && t.nextSeq == s.nextSeq + n
    && (forall q :: q in sends <==> s.nextSeq <= q < s.nextSeq + n)
    && (forall j :: 0 <= j < n ==> j * MSS <= |s.leftover|)
    && t.inflight.Keys == s.inflight.Keys + sends
    && (forall j :: 0 <= j < n ==> t.inflight[s.nextSeq + j] == Entry(Piece(s.leftover, j), now, 1))
    && (forall q :: q in s.inflight ==> t.inflight[q] == s.inflight[q])
    && t.leftover == s.leftover[Min(n * MSS, |s.leftover|)..]
  }

  lemma OneSent(s: Sender, now: nat)
    requires s.leftover != [] && s.nextSeq !in s.inflight && |s.inflight| < s.cwnd
    ensures CutInto(s, SendOne(s, now), {s.nextSeq}, 1, now) && Room(SendOne(s, now)) == Room(s) - 1
    ensures forall q :: q in SendOne(s, now).inflight ==> q in s.inflight || q == s.nextSeq
  {
    var u := SendOne(s, now);
    assert u.inflight.Keys == s.inflight.Keys + {s.nextSeq};
    assert |u.inflight| == |u.inflight.Keys| && |s.inflight| == |s.inflight.Keys|;
  }

  lemma CutMore(s: Sender, u: Sender, t: Sender, more: set<nat>, n: nat, now: nat)
    requires |s.leftover| >= MSS && (forall q :: q in s.inflight ==> q < s.nextSeq)
    requires CutInto(s, u, {s.nextSeq}, 1, now) && CutInto(u, t, more, n, now)
    ensures CutInto(s, t, {s.nextSeq} + more, n + 1, now)
  {
    assert u.leftover == s.leftover[MSS..];
    forall j | 0 <= j < n + 1
      ensures j * MSS <= |s.leftover| && t.inflight[s.nextSeq + j] == Entry(Piece(s.leftover, j), now, 1)
    {
      if j > 0 {
        assert (j - 1) * MSS <= |u.leftover| && j * MSS == (j - 1) * MSS + MSS;
        PieceShifts(s.leftover, j - 1);
        assert t.inflight[u.nextSeq + (j - 1)] == Entry(Piece(u.leftover, j - 1), now, 1);
      }
    }
    LeftShifts(s.leftover, n);
  }

  lemma LeftShifts(bytes: Bytes, n: nat)
    requires |bytes| >= MSS
    ensures var rest := bytes[MSS..]; rest[Min(n * MSS, |rest|)..] == bytes[Min((n + 1) * MSS, |bytes|)..]
  {
    assert (n + 1) * MSS == n * MSS + MSS;
  }

  lemma NoneCut(s: Sender, now: nat)
    requires s.leftover == [] || |s.inflight| >= s.cwnd
    ensures SendLoop(s, now) == (s, {}) && Packets(|s.leftover|, Room(s)) == 0 && CutInto(s, s, {}, 0, now)
  {
  }

  lemma LoopGoesOn(s: Sender, now: nat)
    requires s.leftover != [] && |s.inflight| < s.cwnd
    ensures Packets(|s.leftover|, Room(s)) >= 1
    ensures SendLoop(s, now) ==
            if |s.leftover| < MSS then (SendOne(s, now), {s.nextSeq})
            else (SendLoop(SendOne(s, now), now).0, {s.nextSeq} + SendLoop(SendOne(s, now), now).1)
  {
  }

  lemma CutOn(s: Sender, u: Sender, t: Sender, more: set<nat>, now: nat)
    requires |s.leftover| >= MSS && |s.inflight| < s.cwnd && forall q :: q in s.inflight ==> q < s.nextSeq
    requires CutInto(s, u, {s.nextSeq}, 1, now) && Room(u) == Room(s) - 1
    requires CutInto(u, t, more, Packets(|u.leftover|, Room(u)), now)
    ensures CutInto(s, t, {s.nextSeq} + more, Packets(|s.leftover|, Room(s)), now)
  {
    assert |u.leftover| == |s.leftover| - MSS;
    PacketsFit(|s.leftover|, Room(s), 0);
    CutMore(s, u, t, more, Packets(|u.leftover|, Room(u)), now);
  }

  lemma {:induction false} ReadCutsPackets(s: Sender, now: nat)
    requires forall q :: q in s.inflight ==> q < s.nextSeq
    ensures CutInto(s, SendLoop(s, now).0, SendLoop(s, now).1, Packets(|s.leftover|, Room(s)), now)
    decreases |s.leftover|
  {
    if s.leftover == [] || |s.inflight| >= s.cwnd {
      NoneCut(s, now);
    } else {
      var u := SendOne(s, now);
      LoopGoesOn(s, now);
      OneSent(s, now);
      if |s.leftover| >= MSS {
        ReadCutsPackets(u, now);
        CutOn(s, u, SendLoop(u, now).0, SendLoop(u, now).1, now);
      } else {
        PacketsFit(|s.leftover|, Room(s), 0);
      }
    }
  }

  // -------------------------------------------------------------------- timer

  predicate Overdue(s: Sender, q: nat, now: nat) {
    q in s.inflight && now >= s.inflight[q].sent + Clamp(s.srtt + 4 * s.rttvar, 200_000, 1_000_000)
  }

  // The newest packet, not probed yet and quiet for two round trips.
  predicate Probes(s: Sender, q: nat, now: nat) {
    && q in s.inflight && (forall k :: k in s.inflight ==> k <= q)
    && s.tlpDone != Some(q) && now >= s.inflight[q].sent + Clamp(2 * s.srtt, 10_000, 1_000_000)
  }

  // A timeout re-sends everything overdue and cuts the window, inside an episode
  // or not, unless a packet had its twelve tries.
  lemma TimeoutCutsTheWindow(s: Sender, now: nat)
    requires exists q :: Overdue(s, q, now)
    ensures var o := OnTimer(s, now);
            if exists q :: Overdue(s, q, now) && s.inflight[q].tries >= 12 then o.GiveUp?
            else
              && o.Resend? && CutFrom(o.s, s.cwnd) && o.s.nextSeq == s.nextSeq
              && (forall q :: q in o.which <==> Overdue(s, q, now))
              && Carries(o.s.inflight, s.inflight, {}, o.which, now)
              && o.s.srtt == s.srtt && o.s.rttvar == s.rttvar && o.s.tlpDone == s.tlpDone && o.s.caAcc == s.caAcc
  {
    assert forall q :: q in DueSet(s, now) <==> Overdue(s, q, now);
  }

  // With nothing overdue only the newest packet is probed, once, which moves
  // neither its clock nor the window.
  lemma ProbeOnlyAsks(s: Sender, now: nat)
    requires forall q :: !Overdue(s, q, now)
    ensures var o := OnTimer(s, now);
            && o.Resend? && (forall q :: q in o.which <==> Probes(s, q, now))
            && (forall q :: q in o.which ==>
                  o.s == s.(tlpDone := Some(q), inflight := s.inflight[q := s.inflight[q].(tries := s.inflight[q].tries + 1)]))
            && (o.which == {} ==> o.s == s)
  {
    assert DueSet(s, now) == {} by {
      assert forall q :: q in DueSet(s, now) <==> Overdue(s, q, now);
    }
    if s.inflight.Keys != {} {
      var n := Newest(s.inflight.Keys);
      assert forall q :: Probes(s, q, now) ==> q == n;
    }
  }

  // The timer runs exactly when something is overdue or to be probed.
  lemma TimerReadyIff(s: Sender, now: nat)
    ensures TimerReady(s, now) <==> exists q :: Overdue(s, q, now) || Probes(s, q, now)
  {
    assert forall q :: q in DueSet(s, now) <==> Overdue(s, q, now);
    if s.inflight.Keys != {} {
      var n := Newest(s.inflight.Keys);
      assert ProbeReady(s, now) <==> Probes(s, n, now);
    }
  }

  // ----------------------------------------------------------------- receiver

  // Acknowledged are the packet itself and, in order, those it lets through.
  lemma {:induction false} FlushAcks(r: Receiver)
    ensures var (t, acks) := Flush(r);
            && t.expected == r.expected + |acks| && t.expected !in t.reorder
            && (forall i :: 0 <= i < |acks| ==> acks[i] == r.expected + i && acks[i] in r.reorder)
            && t.reorder == map q | q in r.reorder && q !in acks :: r.reorder[q]
    decreases r.reorder
  {
    if r.expected in r.reorder {
      var k := r.expected;
      var next := Receiver(k + 1, r.reorder - {k}, r.out + r.reorder[k]);
      FlushAcks(next);
      var (t, acks) := Flush(next);
      assert Flush(r) == (t, [k] + acks);
      assert forall i :: 0 < i < |[k] + acks| ==> ([k] + acks)[i] == acks[i - 1];
    }
  }

  // A packet is acknowledged on every arrival. The expected one lets through all
  // that follows it without a gap; a later one is kept; an earlier one changes
  // nothing.
  lemma ArrivalAcknowledged(r: Receiver, p: Pkt)
    ensures var (t, acks) := Deliver(r, p);
            && acks != [] && acks[0] == p.seqno
            && (p.seqno != r.expected ==> acks == [p.seqno] && t.out == r.out && t.expected == r.expected)
            && (p.seqno > r.expected ==> t.reorder == r.reorder[p.seqno := p.buf])
            && (p.seqno < r.expected ==> t == r)
            && (p.seqno == r.expected ==>
                  && t.expected == r.expected + |acks| && t.expected !in t.reorder
                  && forall i :: 0 < i < |acks| ==> acks[i] == r.expected + i && acks[i] in r.reorder)
  {
    if p.seqno == r.expected {
      var f := r.(expected := r.expected + 1, out := r.out + p.buf);
      FlushAcks(f);
      var (end, more) := Flush(f);
      assert forall i :: 0 < i < |[p.seqno] + more| ==> ([p.seqno] + more)[i] == more[i - 1];
    }
  }
}
