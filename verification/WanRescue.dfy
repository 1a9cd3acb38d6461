// Exactly when the packet WAN, at rest, can still write everything it has read
// (crates/nya-e2e/src/packet_wan.rs).
//
// A packet out of retries is not lost yet: an acknowledgement of one sent later
// has it re-sent whatever its tries, a tail probe may free the window, and a
// window with room takes a new packet whose acknowledgement exposes the rest.
module WanRescue {
  import opened Common
  import opened Transport
  import opened WanProtocol

  // ------------------------------------------------------------ the condition

  function Rto(s: Sender): nat {
    RtoOf(s.srtt, s.rttvar)
  }

  // The reordering window is shorter than the timeout; true of any smoothed
  // round trip up to 3.9 seconds.
  predicate Paced(s: Sender) {
    ReoWnd(s.srtt) + 1 < Rto(s)
  }

  lemma PacedUpToSeconds(s: Sender)
    requires s.srtt <= 3_900_000
    ensures Paced(s)
  {
  }

  // At some time still to come the timeout is due for packets with retries only.
  ghost predicate RetryInTime(s: Sender, now: nat) {
    exists at :: RetriesAt(s, now, at)
  }

  predicate RetriesAt(s: Sender, now: nat, at: nat) {
    at >= now && DueSet(s, at) != {} && forall q :: q in DueSet(s, at) ==> s.inflight[q].tries < MAX_TRIES
  }

  function Tail(s: Sender): nat
    requires s.inflight.Keys != {}
  {
    Newest(s.inflight.Keys)
  }

  // The earliest time the tail probe may fire.
  function ProbeTime(s: Sender, now: nat): nat
    requires s.inflight.Keys != {}
  {
    Max(now, s.inflight[Tail(s)].sent + TlpOf(s.srtt))
  }

  // The tail probe fires before any timeout is due.
  predicate ProbeInTime(s: Sender, now: nat)
    requires s.inflight.Keys != {}
  {
    s.tlpDone != Some(Tail(s)) && DueSet(s, ProbeTime(s, now)) == {}
  }

  // The acknowledgement of the tail exposes another packet as lost.
  predicate Exposes(s: Sender)
    requires s.inflight.Keys != {}
  {
    exists q :: q in s.inflight && q != Tail(s) && s.inflight[q].sent + ReoWnd(s.srtt) < s.inflight[Tail(s)].sent
  }

  // The tail probed and acknowledged, nothing exposed.
  function AfterProbe(s: Sender, maxCwnd: nat): Sender
    requires s.inflight.Keys != {}
  {
    Grown(s.(inflight := s.inflight - {Tail(s)}, tlpDone := Some(Tail(s))), maxCwnd)
  }

  lemma FewerAfterProbe(s: Sender, maxCwnd: nat)
    requires s.inflight.Keys != {}
    ensures |AfterProbe(s, maxCwnd).inflight| < |s.inflight|
    ensures AfterProbe(s, maxCwnd).inflight.Keys == s.inflight.Keys - {Tail(s)}
  {
    OneFewer(s.inflight, AfterProbe(s, maxCwnd).inflight, Tail(s));
  }

  // What a caller can check of a sender at rest: nothing in flight, room for a
  // new packet, a timeout in time, or a tail probe in time whose acknowledgement
  // exposes a packet or leaves a sender that can itself be rescued.
  ghost predicate Rescuable(s: Sender, now: nat)
    decreases |s.inflight|
  {
    || s.inflight.Keys == {}
    || |s.inflight| < s.cwnd
    || RetryInTime(s, now)
    || (ProbeInTime(s, now) && (FewerAfterProbe(s, MAX_CWND); Exposes(s) || Rescuable(AfterProbe(s, MAX_CWND), ProbeTime(s, now))))
  }

  // ------------------------------------------------------------ reaching states

  ghost predicate Reaches(s: System, t: System) {
    exists acts :: Run(s, acts) == Some(t)
  }

  lemma ReachesMore(s: System, t: System, u: System)
    requires Reaches(s, t) && Reaches(t, u)
    ensures Reaches(s, u)
  {
    var a :| Run(s, a) == Some(t);
    var b :| Run(t, b) == Some(u);
    RunAppend(s, a, b);
    assert Run(s, a + b) == Some(u);
  }

  lemma ReachesStep(s: System, a: Action, t: System)
    requires Step(s, a) == Some(t)
    ensures Reaches(s, t)
  {
    assert [a][1..] == [];
    assert Run(s, [a]) == Run(t, []);
  }

  lemma ReachesSelf(s: System)
    ensures Reaches(s, s)
  {
    assert Run(s, []) == Some(s);
  }

  // Still running, everything read so far written, nothing left in flight.
  predicate Done(s: System) {
    s.status == Running && Complete(s) && s.snd.inflight == map[]
  }

  lemma CoveredCompletes(s: System)
    requires Inv(s) && s.status == Running && Covered(s)
    ensures exists t :: Reaches(s, t) && Done(t)
  {
    var acts := Settle(s);
    var t := Run(s, acts).value;
    QuietCovered(t);
    assert Reaches(s, t) && Done(t);
  }

  // ---------------------------------------------- serving one acknowledgement

  // Acknowledgements of packets no longer in flight change nothing that counts.
  lemma {:induction false} ServeStale(s: System) returns (t: System)
    requires Inv(s) && s.status == Running && forall a :: a in s.acks ==> a !in s.snd.inflight
    ensures Reaches(s, t) && Inv(t)
    ensures t == s.(snd := s.snd.(recoveryEnd := t.snd.recoveryEnd), acks := [], sends := t.sends)
    decreases |s.acks|
  {
    t := s;
    if s.acks == [] {
      ReachesSelf(s);
      return;
    }
    var a := AckArrives(s.now, 64, {});
    assert s.acks[0] in s.acks;
    var u := Step(s, a).value;
    NoneSurvives(s.wire, u.snd.inflight, {});
    StepKeepsInv(s, a);
    ReachesStep(s, a, u);
    assert forall x :: x in u.acks ==> x in s.acks;
    t := ServeStale(u);
    ReachesMore(s, u, t);
  }

  lemma TlpShort(s: Sender, q: nat, at: nat)
    requires q in s.inflight && at >= s.inflight[q].sent + 1_000_000
    ensures SatSub(at, s.inflight[q].sent) >= TlpOf(s.srtt)
  {
  }

  // What acknowledging `q` at `at` re-sends, when it is late enough for all of
  // it to be re-sent: exactly the packets a reordering window behind.
  lemma OnAckIs(s: Sender, q: nat, at: nat, m: nat)
    requires q in s.inflight
    requires forall k :: k in LostSet(Acked(s, q, at, m), s.inflight[q].sent) ==> at >= s.inflight[k].sent + 1_000_000
    ensures var a := Acked(s, q, at, m);
            var lost := LostSet(a, s.inflight[q].sent);
            var (t, again) := OnAck(s, q, at, m);
            && again == lost && t.inflight == Resent(s.inflight - {q}, lost, at)
            && t.srtt == a.srtt && t.rttvar == a.rttvar
            && (lost == {} ==> t == EpisodeEnd(a, q))
  {
    var a := Acked(s, q, at, m);
    var e := EpisodeEnd(a, q);
    var lost := LostSet(a, s.inflight[q].sent);
    assert a.inflight == s.inflight - {q};
    assert LostSet(e, s.inflight[q].sent) == lost;
    if lost != {} {
      var h := if e.recoveryEnd.None? then Halved(e) else e;
      assert LostSet(h, s.inflight[q].sent) == lost;
      forall k | k in lost
        ensures k in FastResend(h, s.inflight[q].sent, at)
      {
        TlpShort(h, k, at);
      }
      assert FastResend(h, s.inflight[q].sent, at) == lost;
    }
  }

  // One copy arrives; nothing else in flight had arrived.
  lemma CopyArrives(s: System, q: nat) returns (t: System)
    requires Inv(s) && s.status == Running && s.acks == [] && q in s.snd.inflight && OnWire(s, q)
    ensures Step(s, PacketArrives(Pkt(q, s.snd.inflight[q].buf))) == Some(t) && Inv(t) && t.status == Running
    ensures t.snd == s.snd && t.now == s.now && t.acks != [] && t.acks[0] == q
    ensures t.wire == s.wire - multiset{Pkt(q, s.snd.inflight[q].buf)}
    ensures forall a :: a in t.acks && a in s.snd.inflight ==> a == q
    ensures forall k :: k in s.snd.inflight && k != q && OnWire(s, k) ==> OnWire(t, k)
  {
    var p := Pkt(q, s.snd.inflight[q].buf);
    t := Step(s, PacketArrives(p)).value;
    DeliverFacts(s.rcv, p, s.pkts);
    StepKeepsInv(s, PacketArrives(p));
    forall a | a in t.acks && a in s.snd.inflight
      ensures a == q
    {
      assert Received(t.rcv, a);
    }
  }

  predicate LateEnough(s: Sender, q: nat, at: nat, m: nat)
    requires q in s.inflight
  {
    forall k :: k in LostSet(Acked(s, q, at, m), s.inflight[q].sent) ==> at >= s.inflight[k].sent + 1_000_000
  }

  lemma AckServedIs(s: System, q: nat, at: nat, m: nat, lost: set<nat>) returns (t: System)
    requires s.status == Running && s.acks != [] && s.acks[0] == q && at >= s.now && 64 <= m <= MAX_CWND
    requires OnAck(s.snd, q, at, m).1 == lost
    ensures Step(s, AckArrives(at, m, lost)) == Some(t) && t.status == Running
    ensures t.snd == OnAck(s.snd, q, at, m).0 && t.acks == s.acks[1..] && t.now == at && t.rcv == s.rcv
    ensures t.wire == s.wire + Copies(t.snd.inflight, lost)
  {
    t := Step(s, AckArrives(at, m, lost)).value;
    assert lost * lost == lost;
  }

  // The first acknowledgement in the queue is served, losing no copy.
  lemma AckServed(s: System, q: nat, at: nat, m: nat) returns (t: System)
    requires Inv(s) && s.status == Running && s.acks != [] && s.acks[0] == q && q in s.snd.inflight && at >= s.now
    requires LateEnough(s.snd, q, at, m) && 64 <= m <= MAX_CWND
    ensures var lost := LostSet(Acked(s.snd, q, at, m), s.snd.inflight[q].sent);
            && Step(s, AckArrives(at, m, lost)) == Some(t) && Inv(t) && t.status == Running
            && t.snd == OnAck(s.snd, q, at, m).0 && t.acks == s.acks[1..] && t.now == at && t.rcv == s.rcv
            && t.snd.inflight == Resent(s.snd.inflight - {q}, lost, at)
            && (forall k :: k in t.snd.inflight && (k in lost || OnWire(s, k)) ==> OnWire(t, k))
            && (lost == {} ==> t.wire == s.wire)
  {
    var lost := LostSet(Acked(s.snd, q, at, m), s.snd.inflight[q].sent);
    OnAckIs(s.snd, q, at, m);
    t := AckServedIs(s, q, at, m, lost);
    AckKeepsInv(s, AckArrives(at, m, lost));
    CopiesFacts(t.snd.inflight, lost);
  }

  lemma OnlyStaleLeft(s: System, u: System, v: System, q: nat)
    requires u.acks != [] && v.acks == u.acks[1..] && forall a :: a in u.acks && a in s.snd.inflight ==> a == q
    requires v.snd.inflight.Keys == s.snd.inflight.Keys - {q}
    ensures forall a :: a in v.acks ==> a !in v.snd.inflight
  {
    assert forall a :: a in v.acks ==> a in u.acks;
  }

  // A copy of `q` arrives and is acknowledged at `at`: what was sent a reordering
  // window before it is re-sent, and nothing else changes.
  lemma AckOf(s: System, q: nat, at: nat, m: nat) returns (t: System)
    requires Inv(s) && s.status == Running && s.acks == [] && q in s.snd.inflight && OnWire(s, q) && at >= s.now
    requires LateEnough(s.snd, q, at, m) && 64 <= m <= MAX_CWND
    ensures var lost := LostSet(Acked(s.snd, q, at, m), s.snd.inflight[q].sent);
            && Reaches(s, t) && Inv(t) && t.status == Running && t.acks == [] && t.now == at
            && t.snd == OnAck(s.snd, q, at, m).0.(recoveryEnd := t.snd.recoveryEnd)
            && t.snd.inflight == Resent(s.snd.inflight - {q}, lost, at)
            && (forall k :: k in t.snd.inflight && (k in lost || OnWire(s, k)) ==> OnWire(t, k))
            && (lost == {} ==> t.wire == s.wire - multiset{Pkt(q, s.snd.inflight[q].buf)})
  {
    var lost := LostSet(Acked(s.snd, q, at, m), s.snd.inflight[q].sent);
    var u := CopyArrives(s, q);
    ReachesStep(s, PacketArrives(Pkt(q, s.snd.inflight[q].buf)), u);
    var v := AckServed(u, q, at, m);
    ReachesStep(u, AckArrives(at, m, lost), v);
    OnlyStaleLeft(s, u, v, q);
    t := ServeStale(v);
    ReachesMore(s, u, v);
    ReachesMore(s, v, t);
    forall k | k in t.snd.inflight && (k in lost || OnWire(s, k))
      ensures OnWire(t, k)
    {
      assert OnWire(v, k);
    }
  }

  lemma NoSample(s: Sender, q: nat, at: nat, m: nat)
    requires q in s.inflight && s.inflight[q].tries != 1
    ensures Acked(s, q, at, m).srtt == s.srtt && Acked(s, q, at, m).rttvar == s.rttvar
  {
  }

  // Late enough for anything.
  function Late(s: System): nat {
    s.now + ReoWnd(s.snd.srtt) + 1_000_001
  }

  lemma LostAreOthers(s: Sender, q: nat, at: nat, m: nat)
    requires q in s.inflight
    ensures forall e :: e in LostSet(Acked(s, q, at, m), s.inflight[q].sent) ==> e in s.inflight && e != q
  {
    assert Acked(s, q, at, m).inflight == s.inflight - {q};
  }

  lemma LateIsEnough(s: System, q: nat, at: nat, m: nat)
    requires Inv(s) && q in s.snd.inflight && at >= s.now + 1_000_000
    ensures LateEnough(s.snd, q, at, m)
  {
    LostAreOthers(s.snd, q, at, m);
    assert forall k :: k in s.snd.inflight ==> s.snd.inflight[k].sent <= s.now;
  }

  // What acknowledging `q` leaves uncovered: nothing, if all else is on the wire
  // or a reordering window behind.
  predicate Behind(s: System, q: nat, at: nat, m: nat)
    requires q in s.snd.inflight
  {
    forall k :: k in s.snd.inflight && k != q ==>
      OnWire(s, k) || s.snd.inflight[k].sent + ReoWnd(Acked(s.snd, q, at, m).srtt) < s.snd.inflight[q].sent
  }

  lemma BehindMeansLost(s: System, q: nat, at: nat, m: nat)
    requires q in s.snd.inflight && Behind(s, q, at, m)
    ensures forall k :: k in s.snd.inflight && k != q ==>
              OnWire(s, k) || k in LostSet(Acked(s.snd, q, at, m), s.snd.inflight[q].sent)
  {
    assert Acked(s.snd, q, at, m).inflight == s.snd.inflight - {q};
  }

  // A packet on the wire that was sent after everything not covered saves all.
  lemma NewestCopySaves(s: System, q: nat, at: nat, m: nat)
    requires Inv(s) && s.status == Running && s.acks == [] && q in s.snd.inflight && OnWire(s, q) && at >= Late(s)
    requires 64 <= m <= MAX_CWND && Behind(s, q, at, m)
    ensures exists t :: Reaches(s, t) && Done(t)
  {
    LateIsEnough(s, q, at, m);
    BehindMeansLost(s, q, at, m);
    var t := AckOf(s, q, at, m);
    AllCovered(s, q, at, m, t);
    CoveredCompletes(t);
    var u :| Reaches(t, u) && Done(u);
    ReachesMore(s, t, u);
  }

  lemma AllCovered(s: System, q: nat, at: nat, m: nat, t: System)
    requires q in s.snd.inflight
    requires t.snd.inflight.Keys == s.snd.inflight.Keys - {q}
    requires forall k :: k in s.snd.inflight && k != q ==>
               OnWire(s, k) || k in LostSet(Acked(s.snd, q, at, m), s.snd.inflight[q].sent)
    requires forall k :: k in t.snd.inflight && (k in LostSet(Acked(s.snd, q, at, m), s.snd.inflight[q].sent) || (k in s.snd.inflight && OnWire(s, k))) ==> OnWire(t, k)
    ensures Covered(t)
  {
    forall k | k in t.snd.inflight
      ensures OnWire(t, k)
    {
      assert k in s.snd.inflight && k != q;
    }
  }

  // A packet sent again and on the wire, with another a reordering window
  // behind it: the acknowledgement re-sends that one at any later time, and its
  // own acknowledgement then re-sends all the rest.
  lemma ExposedSaves(s: System, q: nat, e: nat)
    requires Inv(s) && s.status == Running && s.acks == [] && q in s.snd.inflight && OnWire(s, q)
    requires s.snd.inflight[q].tries >= 2 && e in s.snd.inflight && e != q
    requires s.snd.inflight[e].sent + ReoWnd(s.snd.srtt) < s.snd.inflight[q].sent
    ensures exists t :: Reaches(s, t) && Done(t)
  {
    var at := Late(s);
    LateIsEnough(s, q, at, 64);
    NoSample(s.snd, q, at, 64);
    var t := AckOf(s, q, at, 64);
    ResentIs(s, q, at, 64, t);
    assert e in BehindOf(s.snd, q);
    var at2 := Late(t);
    NoSample(t.snd, e, at2, 64);
    NewestCopySaves(t, e, at2, 64);
    var u :| Reaches(t, u) && Done(u);
    ReachesMore(s, t, u);
  }

  // What an acknowledgement of `q` exposes while the estimate stays put.
  function BehindOf(s: Sender, q: nat): set<nat>
    requires q in s.inflight
  {
    set k | k in s.inflight && k != q && s.inflight[k].sent + ReoWnd(s.srtt) < s.inflight[q].sent
  }

  lemma LostIs(s: Sender, q: nat, at: nat, m: nat)
    requires q in s.inflight && s.inflight[q].tries != 1
    ensures LostSet(Acked(s, q, at, m), s.inflight[q].sent) == BehindOf(s, q)
  {
    NoSample(s, q, at, m);
    var a := Acked(s, q, at, m);
    assert a.inflight == s.inflight - {q};
    assert forall k :: k in a.inflight ==> a.inflight[k] == s.inflight[k];
  }

  lemma ResentIs(s: System, q: nat, at: nat, m: nat, t: System)
    requires Inv(s) && q in s.snd.inflight && at >= Late(s) && s.snd.inflight[q].tries >= 2
    requires LateEnough(s.snd, q, at, m)
    requires t.snd == OnAck(s.snd, q, at, m).0.(recoveryEnd := t.snd.recoveryEnd)
    requires t.snd.inflight == Resent(s.snd.inflight - {q}, LostSet(Acked(s.snd, q, at, m), s.snd.inflight[q].sent), at)
    requires forall k :: k in t.snd.inflight && k in LostSet(Acked(s.snd, q, at, m), s.snd.inflight[q].sent) ==> OnWire(t, k)
    ensures t.snd.srtt == s.snd.srtt
    ensures forall e :: e in BehindOf(s.snd, q) ==>
              e in t.snd.inflight && OnWire(t, e) && t.snd.inflight[e].tries >= 2 && t.snd.inflight[e].sent == at
    ensures forall k :: k in t.snd.inflight ==> OnWire(t, k) || t.snd.inflight[k].sent + ReoWnd(s.snd.srtt) < at
  {
    NoSample(s.snd, q, at, m);
    OnAckIs(s.snd, q, at, m);
    LostIs(s.snd, q, at, m);
    ResentTimes(s.snd.inflight, s.snd.inflight - {q}, BehindOf(s.snd, q), at);
    assert forall k :: k in s.snd.inflight ==> s.snd.inflight[k].sent <= s.now;
  }

  lemma ResentTimes(before: Inflight, m: Inflight, which: set<nat>, at: nat)
    requires forall k :: k in m ==> k in before && m[k] == before[k]
    requires forall k :: k in before ==> before[k].tries >= 1
    ensures forall k :: k in Resent(m, which, at) ==>
              k in before && (if k in which then Resent(m, which, at)[k].sent == at && Resent(m, which, at)[k].tries >= 2
                              else Resent(m, which, at)[k].sent == before[k].sent)
  {
  }

  // --------------------------------------------------- rescuing from rest

  lemma {:induction false} EarliestExhausted(m: Inflight, some: nat) returns (e: nat)
    requires some in m && m[some].tries >= MAX_TRIES
    ensures e in m && m[e].tries >= MAX_TRIES
    ensures forall k :: k in m && m[k].tries >= MAX_TRIES ==> m[e].sent <= m[k].sent
    decreases m[some].sent
  {
    if k :| k in m && m[k].tries >= MAX_TRIES && m[k].sent < m[some].sent {
      e := EarliestExhausted(m, k);
    } else {
      e := some;
    }
  }

  // The timeout just before the first exhausted packet is due re-sends only
  // packets with retries, late enough for their acknowledgement to expose it.
  lemma JustBefore(s: Sender, now: nat, e: nat) returns (at: nat)
    requires RetryInTime(s, now) && Paced(s) && e in s.inflight && s.inflight[e].tries >= MAX_TRIES
    requires forall k :: k in s.inflight && s.inflight[k].tries >= MAX_TRIES ==> s.inflight[e].sent <= s.inflight[k].sent
    ensures RetriesAt(s, now, at) && e !in DueSet(s, at) && s.inflight[e].sent + ReoWnd(s.srtt) < at
  {
    var at0: nat :| RetriesAt(s, now, at0);
    assert e !in DueSet(s, at0);
    at := s.inflight[e].sent + Rto(s) - 1;
    assert DueSet(s, at0) <= DueSet(s, at);
  }

  lemma TimeoutIs(s: System, at: nat) returns (t: System)
    requires Inv(s) && s.status == Running && s.acks == [] && RetriesAt(s.snd, s.now, at)
    ensures var due := DueSet(s.snd, at);
            && Step(s, TimerFires(at, due)) == Some(t) && Inv(t) && t.status == Running && t.acks == []
            && t.snd == Halved(s.snd).(inflight := Resent(s.snd.inflight, due, at))
            && forall k :: k in due ==> k in t.snd.inflight && OnWire(t, k)
  {
    var due := DueSet(s.snd, at);
    var snd := Halved(s.snd).(inflight := Resent(s.snd.inflight, due, at));
    assert OnTimer(s.snd, at) == Resend(snd, due);
    t := Step(s, TimerFires(at, due)).value;
    assert due * due == due;
    StepKeepsInv(s, TimerFires(at, due));
    CopiesFacts(snd.inflight, due);
  }

  lemma RetrySaves(s: System)
    requires Inv(s) && s.status == Running && Quiet(s) && Paced(s.snd) && RetryInTime(s.snd, s.now)
    ensures exists t :: Reaches(s, t) && Done(t)
  {
    if x :| x in s.snd.inflight && s.snd.inflight[x].tries >= MAX_TRIES {
      var e := EarliestExhausted(s.snd.inflight, x);
      var at := JustBefore(s.snd, s.now, e);
      var q :| q in DueSet(s.snd, at);
      var t := TimeoutIs(s, at);
      ReachesStep(s, TimerFires(at, DueSet(s.snd, at)), t);
      ResentTimes(s.snd.inflight, s.snd.inflight, DueSet(s.snd, at), at);
      assert e != q && q in t.snd.inflight && OnWire(t, q);
      ExposedSaves(t, q, e);
      var u :| Reaches(t, u) && Done(u);
      ReachesMore(s, t, u);
    } else {
      assert Recoverable(s);
      var acts := CompletionStaysReachable(s);
      assert Reaches(s, Run(s, acts).value);
    }
  }

  // Long enough for a new packet to be sent a reordering window after all else,
  // whatever its own sample does to that window.
  function NewTime(s: System): nat {
    s.now + s.snd.srtt + 2 * ReoWnd(s.snd.srtt) + 2_000_000
  }

  lemma NewWindow(s: Sender, n: nat, at: nat)
    requires n in s.inflight && s.inflight[n].tries == 1 && at == s.inflight[n].sent + ReoWnd(s.srtt) + 1_000_001
    ensures ReoWnd(Acked(s, n, at, 64).srtt) <= s.srtt + 2 * ReoWnd(s.srtt) + 1_000_001
  {
  }

  lemma ReadIs(s: System, at: nat) returns (t: System)
    requires Inv(s) && s.status == Running && s.acks == [] && |s.snd.inflight| < s.snd.cwnd && at >= s.now
    ensures var n := s.snd.nextSeq;
            && Step(s, DataRead(at, [0], {n})) == Some(t) && Inv(t) && t.status == Running && t.acks == [] && t.now == at
            && n !in s.snd.inflight
            && t.snd == s.snd.(inflight := s.snd.inflight[n := Entry([0], at, 1)], nextSeq := n + 1) && OnWire(t, n)
  {
    var n := s.snd.nextSeq;
    var a := DataRead(at, [0], {n});
    assert s.snd.nextSeq !in s.sends;
    assert Step(s, a).Some?;
    DataReadIs(s, a);
    t := Step(s, a).value;
    StepKeepsInv(s, a);
    assert {n} * {n} == {n};
    CopiesFacts(t.snd.inflight, {n});
  }

  // Room for one more packet: its acknowledgement exposes everything before it.
  lemma RoomSaves(s: System)
    requires Inv(s) && s.status == Running && s.acks == [] && |s.snd.inflight| < s.snd.cwnd
    ensures exists t :: Reaches(s, t) && Done(t)
  {
    var n, at := s.snd.nextSeq, NewTime(s);
    var t := ReadIs(s, at);
    ReachesStep(s, DataRead(at, [0], {n}), t);
    NewWindow(t.snd, n, Late(t));
    forall k | k in t.snd.inflight && k != n
      ensures t.snd.inflight[k].sent + ReoWnd(Acked(t.snd, n, Late(t), 64).srtt) < t.snd.inflight[n].sent
    {
      assert s.snd.inflight[k].sent <= s.now;
    }
    NewestCopySaves(t, n, Late(t), 64);
    var u :| Reaches(t, u) && Done(u);
    ReachesMore(s, t, u);
  }

  function Probed(s: Sender): Sender
    requires s.inflight.Keys != {}
  {
    var q := Tail(s);
    var e := s.inflight[q];
    s.(tlpDone := Some(q), inflight := s.inflight[q := e.(tries := e.tries + 1)])
  }

  // The tail probe fires before anything is due.
  lemma ProbeIs(s: System, at: nat) returns (t: System)
    requires Inv(s) && s.status == Running && s.acks == [] && at >= s.now && s.snd.inflight.Keys != {}
    requires s.snd.tlpDone != Some(Tail(s.snd)) && at >= s.snd.inflight[Tail(s.snd)].sent + TlpOf(s.snd.srtt)
    requires DueSet(s.snd, at) == {}
    ensures var q := Tail(s.snd);
            && Step(s, TimerFires(at, {q})) == Some(t) && Inv(t) && t.status == Running && t.acks == [] && t.now == at
            && t.snd == Probed(s.snd)
            && OnWire(t, q) && t.wire == s.wire + multiset{Pkt(q, s.snd.inflight[q].buf)}
  {
    var q := Tail(s.snd);
    var snd := Probed(s.snd);
    assert OnTimer(s.snd, at) == Resend(snd, {q});
    t := Step(s, TimerFires(at, {q})).value;
    assert {q} * {q} == {q};
    StepKeepsInv(s, TimerFires(at, {q}));
    OneCopy(snd.inflight, q);
  }

  lemma OneCopy(m: Inflight, q: nat)
    requires q in m
    ensures Copies(m, {q}) == multiset{Pkt(q, m[q].buf)}
  {
    assert (set k | k in {q} && k in m :: Pkt(k, m[k].buf)) == {Pkt(q, m[q].buf)};
  }

  // ------------------------------------------------------- easier is no harder

  // `b` is in the same position as `a` with at least its window.
  predicate Easier(a: Sender, b: Sender) {
    && a.inflight == b.inflight && a.srtt == b.srtt && a.rttvar == b.rttvar && a.tlpDone == b.tlpDone
    && a.ssthresh == b.ssthresh && a.cwnd <= b.cwnd
    && (a.cwnd == b.cwnd < MAX_CWND ==> a.caAcc <= b.caAcc)
    && (a.cwnd < a.ssthresh ==> a.caAcc <= b.caAcc || b.cwnd > b.ssthresh || b.cwnd == MAX_CWND)
  }

  lemma GrownIs(s: Sender, m: nat)
    ensures var g := Grown(s, m);
            && g == s.(cwnd := g.cwnd, caAcc := g.caAcc)
            && (if s.cwnd < s.ssthresh then g.cwnd == Min(s.cwnd + 1, m) && g.caAcc == s.caAcc
                else if s.caAcc + 1 >= s.cwnd then g.cwnd == Min(s.cwnd + 1, m) && g.caAcc == 0
                else g.cwnd == Min(s.cwnd, m) && g.caAcc == s.caAcc + 1)
  {
  }

  lemma EasierGrows(a: Sender, b: Sender, m: nat)
    requires Easier(a, b) && a.cwnd <= MAX_CWND && b.cwnd <= MAX_CWND && m <= MAX_CWND
    ensures Easier(Grown(a, m), Grown(b, MAX_CWND))
  {
    GrownIs(a, m);
    GrownIs(b, MAX_CWND);
    EasierNumbers(a.cwnd, a.caAcc, Grown(a, m).cwnd, Grown(a, m).caAcc,
                  b.cwnd, b.caAcc, Grown(b, MAX_CWND).cwnd, Grown(b, MAX_CWND).caAcc, a.ssthresh, m);
  }

  predicate NoSmaller(ac: nat, ak: nat, bc: nat, bk: nat, ssthresh: nat) {
    && ac <= bc && (ac == bc < MAX_CWND ==> ak <= bk)
    && (ac < ssthresh ==> ak <= bk || bc > ssthresh || bc == MAX_CWND)
  }

  predicate GrowsTo(c: nat, k: nat, gc: nat, gk: nat, ssthresh: nat, m: nat) {
    if c < ssthresh then gc == Min(c + 1, m) && gk == k
    else if k + 1 >= c then gc == Min(c + 1, m) && gk == 0
    else gc == Min(c, m) && gk == k + 1
  }

  lemma EasierNumbers(ac: nat, ak: nat, agc: nat, agk: nat, bc: nat, bk: nat, bgc: nat, bgk: nat, ssthresh: nat, m: nat)
    requires NoSmaller(ac, ak, bc, bk, ssthresh) && ac <= MAX_CWND && bc <= MAX_CWND && m <= MAX_CWND
    requires GrowsTo(ac, ak, agc, agk, ssthresh, m) && GrowsTo(bc, bk, bgc, bgk, ssthresh, MAX_CWND)
    ensures NoSmaller(agc, agk, bgc, bgk, ssthresh)
  {
  }

  lemma EasierProbed(a: Sender, b: Sender, m: nat)
    requires Easier(a, b) && a.cwnd <= MAX_CWND && b.cwnd <= MAX_CWND && m <= MAX_CWND && a.inflight.Keys != {}
    ensures Easier(AfterProbe(a, m), AfterProbe(b, MAX_CWND))
    ensures AfterProbe(a, m).cwnd <= MAX_CWND && AfterProbe(b, MAX_CWND).cwnd <= MAX_CWND
  {
    var q := Tail(a);
    EasierGrows(a.(inflight := a.inflight - {q}, tlpDone := Some(q)), b.(inflight := b.inflight - {q}, tlpDone := Some(q)), m);
  }

  lemma {:induction false} EasierRescued(a: Sender, b: Sender, later: nat, now: nat)
    requires Easier(a, b) && b.cwnd <= MAX_CWND && now <= later && Rescuable(a, later)
    ensures Rescuable(b, now)
    decreases |a.inflight|
  {
    if a.inflight.Keys != {} && |a.inflight| >= a.cwnd {
      if RetryInTime(a, later) {
        var at: nat :| RetriesAt(a, later, at);
        assert DueSet(b, at) == DueSet(a, at);
        assert RetriesAt(b, now, at);
      } else {
        assert DueSet(b, ProbeTime(b, now)) <= DueSet(a, ProbeTime(a, later));
        assert ProbeInTime(b, now);
        if Exposes(a) {
          assert Exposes(b);
        } else {
          FewerAfterProbe(a, MAX_CWND);
          EasierProbed(a, b, MAX_CWND);
          EasierRescued(AfterProbe(a, MAX_CWND), AfterProbe(b, MAX_CWND), ProbeTime(a, later), ProbeTime(b, now));
        }
      }
    }
  }

  // ---------------------------------------------------------- it is sufficient

  lemma SameCondition(a: Sender, b: Sender, now: nat)
    requires b == a.(recoveryEnd := b.recoveryEnd, nextSeq := b.nextSeq, leftover := b.leftover, haveSample := b.haveSample)
    requires a.cwnd <= MAX_CWND && Rescuable(a, now)
    ensures Rescuable(b, now)
  {
    EasierRescued(a, b, now, now);
  }

  // The tail probed and acknowledged at once, with nothing exposed.
  lemma ProbeServed(s: System, at: nat) returns (t: System)
    requires Inv(s) && s.status == Running && Quiet(s) && at >= s.now && s.snd.inflight.Keys != {}
    requires s.snd.tlpDone != Some(Tail(s.snd)) && at >= s.snd.inflight[Tail(s.snd)].sent + TlpOf(s.snd.srtt)
    requires DueSet(s.snd, at) == {} && !Exposes(s.snd)
    ensures Reaches(s, t) && Inv(t) && t.status == Running && Quiet(t) && t.now == at
    ensures t.snd == AfterProbe(s.snd, MAX_CWND).(recoveryEnd := t.snd.recoveryEnd)
  {
    var q := Tail(s.snd);
    var u := ProbeIs(s, at);
    ReachesStep(s, TimerFires(at, {q}), u);
    ProbedFacts(s.snd);
    LostIs(u.snd, q, at, MAX_CWND);
    assert LateEnough(u.snd, q, at, MAX_CWND);
    OnAckIs(u.snd, q, at, MAX_CWND);
    t := AckOf(u, q, at, MAX_CWND);
    ReachesMore(s, u, t);
    AckedProbe(s.snd, at, MAX_CWND);
    assert u.wire == multiset{Pkt(q, u.snd.inflight[q].buf)};
  }

  lemma ProbedFacts(s: Sender)
    requires s.inflight.Keys != {} && forall k :: k in s.inflight ==> s.inflight[k].tries >= 1
    ensures var p := Probed(s);
            && p.inflight.Keys == s.inflight.Keys && Tail(p) == Tail(s) && p.inflight[Tail(s)].tries >= 2
            && (Exposes(p) <==> Exposes(s))
            && (!Exposes(s) ==> BehindOf(p, Tail(s)) == {})
  {
    var p := Probed(s);
    assert p.inflight.Keys == s.inflight.Keys;
    assert forall k :: k in s.inflight ==> p.inflight[k].sent == s.inflight[k].sent;
  }

  lemma AckedProbe(s: Sender, at: nat, m: nat)
    requires s.inflight.Keys != {} && s.inflight[Tail(s)].tries >= 1
    ensures Acked(Probed(s), Tail(s), at, m) == AfterProbe(s, m)
  {
    var q := Tail(s);
    assert Probed(s).inflight - {q} == s.inflight - {q};
  }

  lemma ProbeExposes(s: System, at: nat)
    requires Inv(s) && s.status == Running && Quiet(s) && at >= s.now && s.snd.inflight.Keys != {}
    requires s.snd.tlpDone != Some(Tail(s.snd)) && at >= s.snd.inflight[Tail(s.snd)].sent + TlpOf(s.snd.srtt)
    requires DueSet(s.snd, at) == {} && Exposes(s.snd)
    ensures exists t :: Reaches(s, t) && Done(t)
  {
    var q := Tail(s.snd);
    var u := ProbeIs(s, at);
    ReachesStep(s, TimerFires(at, {q}), u);
    ProbedFacts(s.snd);
    var e :| e in u.snd.inflight && e != q && u.snd.inflight[e].sent + ReoWnd(u.snd.srtt) < u.snd.inflight[q].sent;
    ExposedSaves(u, q, e);
    var t :| Reaches(u, t) && Done(t);
    ReachesMore(s, u, t);
  }

  lemma NothingInFlight(s: System)
    requires Inv(s) && s.status == Running && s.snd.inflight.Keys == {}
    ensures Done(s)
  {
    CompleteIffAllExpected(s);
    assert s.rcv.expected < s.snd.nextSeq ==> Received(s.rcv, s.rcv.expected);
  }

  lemma ProbeOn(s: System) returns (t: System)
    requires Inv(s) && s.status == Running && Quiet(s) && s.snd.inflight.Keys != {}
    requires ProbeInTime(s.snd, s.now) && !Exposes(s.snd)
    requires Rescuable(AfterProbe(s.snd, MAX_CWND), ProbeTime(s.snd, s.now))
    ensures Reaches(s, t) && Inv(t) && t.status == Running && Quiet(t) && Rescuable(t.snd, t.now)
    ensures |t.snd.inflight| < |s.snd.inflight| && t.snd.srtt == s.snd.srtt && t.snd.rttvar == s.snd.rttvar
  {
    var at := ProbeTime(s.snd, s.now);
    t := ProbeServed(s, at);
    FewerAfterProbe(s.snd, MAX_CWND);
    var after := AfterProbe(s.snd, MAX_CWND);
    assert after.srtt == s.snd.srtt && after.rttvar == s.snd.rttvar && after.cwnd <= MAX_CWND;
    SameCondition(after, t.snd, at);
  }

  lemma {:induction false} RescuableSaves(s: System)
    requires Inv(s) && s.status == Running && Quiet(s) && Paced(s.snd) && Rescuable(s.snd, s.now)
    ensures exists t :: Reaches(s, t) && Done(t)
    decreases |s.snd.inflight|
  {
    if s.snd.inflight.Keys == {} {
      NothingInFlight(s);
      ReachesSelf(s);
    } else if |s.snd.inflight| < s.snd.cwnd {
      RoomSaves(s);
    } else if RetryInTime(s.snd, s.now) {
      RetrySaves(s);
    } else if Exposes(s.snd) {
      ProbeExposes(s, ProbeTime(s.snd, s.now));
    } else {
      var t := ProbeOn(s);
      RescuableSaves(t);
      var u :| Reaches(t, u) && Done(u);
      ReachesMore(s, t, u);
    }
  }

  // ------------------------------------------------------------- it is necessary

  predicate UnderWay(s: System, q: nat) {
    q in s.acks || exists p :: p in s.wire && p.seqno == q
  }

  // Beyond rescue, at rest or with only the probed tail under way.
  ghost predicate Doomed(s: System) {
    && Inv(s) && s.status == Running && !Rescuable(s.snd, s.now)
    && (forall q :: q in s.snd.inflight && UnderWay(s, q) ==> q == Tail(s.snd))
    && (UnderWay(s, Tail(s.snd)) ==> TailInVain(s.snd, s.now))
  }

  // The tail was probed, and its acknowledgement would not help either.
  ghost predicate TailInVain(s: Sender, now: nat)
    requires s.inflight.Keys != {}
  {
    && s.tlpDone == Some(Tail(s)) && s.inflight[Tail(s)].tries >= 2
    && !Exposes(s) && !Rescuable(AfterProbe(s, MAX_CWND), now)
  }

  // Two packets at least are missing, and one of them is not under way.
  lemma SomeMissing(s: System) returns (q: nat)
    requires Doomed(s)
    ensures q in s.snd.inflight && q != Tail(s.snd) && !UnderWay(s, q) && !Received(s.rcv, q)
  {
    var tail := Tail(s.snd);
    var others := s.snd.inflight.Keys - {tail};
    assert |others| == |s.snd.inflight.Keys| - 1 == |s.snd.inflight| - 1 >= 1;
    q :| q in others;
  }

  lemma DoomedIncomplete(s: System)
    requires Doomed(s)
    ensures !Complete(s)
  {
    var q := SomeMissing(s);
    CompleteIffAllExpected(s);
  }

  lemma LaterIsNoEasier(a: Sender, b: Sender, now: nat, later: nat)
    requires Easier(b, a) && a.cwnd <= MAX_CWND && now <= later && !Rescuable(a, now)
    ensures !Rescuable(b, later)
  {
    if Rescuable(b, later) {
      EasierRescued(b, a, later, now);
    }
  }

  lemma DoomedPacket(s: System, p: Pkt)
    requires Doomed(s) && Step(s, PacketArrives(p)).Some?
    ensures Doomed(Step(s, PacketArrives(p)).value)
  {
    var t := Step(s, PacketArrives(p)).value;
    StepKeepsInv(s, PacketArrives(p));
    DeliverFacts(s.rcv, p, s.pkts);
    forall q | q in t.snd.inflight && UnderWay(t, q)
      ensures UnderWay(s, q)
    {
      if q in t.acks && q !in s.acks {
        assert Received(t.rcv, q);
      } else if q !in t.acks {
        var x :| x in t.wire && x.seqno == q;
        assert x in s.wire;
      }
    }
  }

  lemma OutputIsShort(t: System)
    requires Inv(t) && !Complete(t)
    ensures |t.rcv.out| < |t.input|
  {
    OutputIsPrefix(t.rcv, t.pkts);
  }

  lemma WriteIsShort(s: System, p: Pkt, written: nat, t: System)
    requires Step(s, WriteFails(p, written)).Some? && Step(s, PacketArrives(p)) == Some(t)
    requires |t.rcv.out| < |s.input|
    ensures !Complete(Step(s, WriteFails(p, written)).value)
  {
    assert |Step(s, WriteFails(p, written)).value.rcv.out| <= |t.rcv.out|;
  }

  lemma DoomedWrite(s: System, p: Pkt, written: nat)
    requires Doomed(s) && Step(s, WriteFails(p, written)).Some?
    ensures !Complete(Step(s, WriteFails(p, written)).value)
  {
    DoomedPacket(s, p);
    var t := Step(s, PacketArrives(p)).value;
    DoomedIncomplete(t);
    OutputIsShort(t);
    WriteIsShort(s, p, written, t);
  }

  // An acknowledgement of something no longer in flight helps nobody.
  lemma StaleInVain(a: Sender, b: Sender, now: nat, later: nat)
    requires a.inflight.Keys != {} && a.cwnd <= MAX_CWND && now <= later
    requires b == a.(recoveryEnd := b.recoveryEnd)
    ensures !Rescuable(a, now) ==> !Rescuable(b, later)
    ensures TailInVain(a, now) ==> TailInVain(b, later)
  {
    if !Rescuable(a, now) {
      LaterIsNoEasier(a, b, now, later);
    }
    if TailInVain(a, now) {
      EasierProbed(b, a, MAX_CWND);
      LaterIsNoEasier(AfterProbe(a, MAX_CWND), AfterProbe(b, MAX_CWND), now, later);
    }
  }

  lemma AckStepIs(s: System, a: Action)
    requires a.AckArrives? && Step(s, a).Some? && OnAck(s.snd, s.acks[0], a.at, a.maxCwnd).1 == {}
    ensures var t := Step(s, a).value;
            && t.snd == OnAck(s.snd, s.acks[0], a.at, a.maxCwnd).0 && t.wire == s.wire && t.acks == s.acks[1..]
            && t.now == a.at >= s.now && t.status == s.status
    ensures forall q :: UnderWay(Step(s, a).value, q) ==> UnderWay(s, q)
  {
    assert {} * a.keep == {};
    NoneSurvives(s.wire, OnAck(s.snd, s.acks[0], a.at, a.maxCwnd).0.inflight, a.keep);
    assert Copies(OnAck(s.snd, s.acks[0], a.at, a.maxCwnd).0.inflight, {}) == multiset{};
  }

  lemma DoomedStale(s: System, a: Action)
    requires Doomed(s) && a.AckArrives? && Step(s, a).Some? && s.acks[0] !in s.snd.inflight
    ensures Doomed(Step(s, a).value)
  {
    StepKeepsInv(s, a);
    AckStepIs(s, a);
    StaleInVain(s.snd, Step(s, a).value.snd, s.now, a.at);
  }

  lemma DoomedIf(t: System)
    requires Inv(t) && t.status == Running && !Rescuable(t.snd, t.now)
    requires forall k :: k in t.snd.inflight ==> !UnderWay(t, k)
    ensures Doomed(t)
  {
  }

  lemma DoomedAcked(s: System, a: Action)
    requires Doomed(s) && a.AckArrives? && Step(s, a).Some? && s.acks[0] in s.snd.inflight
    ensures Doomed(Step(s, a).value)
  {
    assert UnderWay(s, s.acks[0]);
    var t := Step(s, a).value;
    StepKeepsInv(s, a);
    TailAcked(s.snd, a.at, a.maxCwnd);
    AckStepIs(s, a);
    AckedInVain(s.snd, t.snd, s.now, a.at, a.maxCwnd);
    DoomedIf(t);
  }

  lemma AckedInVain(s: Sender, t: Sender, now: nat, at: nat, m: nat)
    requires s.inflight.Keys != {} && TailInVain(s, now) && s.cwnd <= MAX_CWND && now <= at && m <= MAX_CWND
    requires t == AfterProbe(s, m).(recoveryEnd := t.recoveryEnd)
    ensures !Rescuable(t, at) && t.inflight.Keys == s.inflight.Keys - {Tail(s)}
  {
    EasierProbed(s, s, m);
    EasierIsTransitive(t, AfterProbe(s, m), AfterProbe(s, MAX_CWND));
    LaterIsNoEasier(AfterProbe(s, MAX_CWND), t, now, at);
    FewerAfterProbe(s, m);
  }

  lemma EasierIsTransitive(a: Sender, b: Sender, c: Sender)
    requires Easier(a, b) && Easier(b, c) && a.cwnd == b.cwnd && a.caAcc == b.caAcc
    ensures Easier(a, c)
  {
  }

  // The acknowledgement of a probed tail that exposes nothing.
  lemma TailAcked(s: Sender, at: nat, m: nat)
    requires s.inflight.Keys != {} && s.inflight[Tail(s)].tries >= 2 && s.tlpDone == Some(Tail(s)) && !Exposes(s)
    ensures OnAck(s, Tail(s), at, m).0 == AfterProbe(s, m).(recoveryEnd := OnAck(s, Tail(s), at, m).0.recoveryEnd)
    ensures OnAck(s, Tail(s), at, m).1 == {}
  {
    var q := Tail(s);
    LostIs(s, q, at, m);
    assert BehindOf(s, q) == {};
    OnAckIs(s, q, at, m);
    var before := s.(inflight := s.inflight - {q});
    assert before.(tlpDone := Some(q)) == before;
    NoSample(s, q, at, m);
    assert Acked(s, q, at, m) == Grown(before, m);
  }

  lemma DoomedTimer(s: System, a: Action)
    requires Doomed(s) && a.TimerFires? && Step(s, a).Some?
    ensures var t := Step(s, a).value;
            Doomed(t) || (t.status == Ended && t.rcv == s.rcv && t.input == s.input)
  {
    if DueSet(s.snd, a.at) != {} {
      assert !RetriesAt(s.snd, s.now, a.at);
    } else {
      DoomedProbe(s, a);
    }
  }

  lemma ProbeStepIs(s: System, a: Action)
    requires a.TimerFires? && Step(s, a).Some? && DueSet(s.snd, a.at) == {}
    ensures ProbeReady(s.snd, a.at) && a.at >= s.now
    ensures var t := Step(s, a).value;
            && t.snd == Probed(s.snd) && t.now == a.at && t.status == s.status && t.acks == s.acks
            && t.wire == s.wire + Copies(Probed(s.snd).inflight, {Tail(s.snd)} * a.keep)
  {
  }

  lemma OnlyTailUnderWay(s: System, t: System, which: set<nat>)
    requires s.snd.inflight.Keys != {} && which <= {Tail(s.snd)}
    requires forall q :: q in s.snd.inflight && UnderWay(s, q) ==> q == Tail(s.snd)
    requires t.acks == s.acks && t.wire == s.wire + Copies(t.snd.inflight, which)
    requires t.snd.inflight.Keys == s.snd.inflight.Keys
    ensures forall q :: q in t.snd.inflight && UnderWay(t, q) ==> q == Tail(s.snd)
  {
    CopiesFacts(t.snd.inflight, which);
    forall k | k in t.snd.inflight && UnderWay(t, k)
      ensures k == Tail(s.snd)
    {
      if k !in t.acks {
        var p :| p in t.wire && p.seqno == k;
        assert p in s.wire || p in Copies(t.snd.inflight, which);
      }
    }
  }

  lemma DoomedProbe(s: System, a: Action)
    requires Doomed(s) && a.TimerFires? && Step(s, a).Some? && DueSet(s.snd, a.at) == {}
    ensures Doomed(Step(s, a).value)
  {
    StepKeepsInv(s, a);
    ProbeStepIs(s, a);
    ProbeInVain(s.snd, s.now, a.at);
    OnlyTailUnderWay(s, Step(s, a).value, {Tail(s.snd)} * a.keep);
  }

  lemma ProbeInVain(s: Sender, now: nat, at: nat)
    requires s.inflight.Keys != {} && !Rescuable(s, now) && s.cwnd <= MAX_CWND && now <= at
    requires DueSet(s, at) == {} && ProbeReady(s, at)
    requires forall k :: k in s.inflight ==> s.inflight[k].tries >= 1
    ensures var t := Probed(s); t.inflight.Keys == s.inflight.Keys && !Rescuable(t, at) && TailInVain(t, at)
  {
    ProbedFacts(s);
    assert DueSet(s, ProbeTime(s, now)) <= DueSet(s, at);
    assert ProbeInTime(s, now);
    SameAfterProbe(s);
    LaterIsNoEasier(AfterProbe(s, MAX_CWND), AfterProbe(Probed(s), MAX_CWND), ProbeTime(s, now), at);
    ProbedStillDoomed(s, now, at);
  }

  lemma SameAfterProbe(s: Sender)
    requires s.inflight.Keys != {} && forall k :: k in s.inflight ==> s.inflight[k].tries >= 1
    ensures Easier(AfterProbe(Probed(s), MAX_CWND), AfterProbe(s, MAX_CWND))
  {
    ProbedFacts(s);
    assert Probed(s).inflight - {Tail(s)} == s.inflight - {Tail(s)};
  }

  lemma ProbedStillDoomed(s: Sender, now: nat, later: nat)
    requires s.inflight.Keys != {} && |s.inflight| >= s.cwnd && !RetryInTime(s, now) && now <= later
    requires forall k :: k in s.inflight ==> s.inflight[k].tries >= 1
    ensures !Rescuable(Probed(s), later)
  {
    ProbedFacts(s);
    var p := Probed(s);
    assert |p.inflight| == |p.inflight.Keys| == |s.inflight.Keys| == |s.inflight|;
    forall at | RetriesAt(p, later, at)
      ensures RetriesAt(s, now, at)
    {
      assert DueSet(p, at) == DueSet(s, at);
    }
  }

  lemma DoomedStep(s: System, a: Action)
    requires Doomed(s) && Step(s, a).Some?
    ensures Doomed(Step(s, a).value) || (Step(s, a).value.status == Ended && !Complete(Step(s, a).value))
  {
    DoomedIncomplete(s);
    match a
    case AckArrives(_, _, _) =>
      if s.acks[0] in s.snd.inflight {
        DoomedAcked(s, a);
      } else {
        DoomedStale(s, a);
      }
    case TimerFires(_, _) => DoomedTimer(s, a);
    case DataRead(_, _, _) =>
    case EndOfInput(_) =>
    case PacketArrives(p) => DoomedPacket(s, p);
    case WriteFails(p, written) => DoomedWrite(s, p, written);
    case Stop =>
  }

  lemma {:induction false} DoomedForGood(s: System, acts: seq<Action>)
    requires Doomed(s) && Run(s, acts).Some?
    ensures !Complete(Run(s, acts).value)
    decreases |acts|
  {
    if acts == [] {
      DoomedIncomplete(s);
    } else {
      DoomedStep(s, acts[0]);
      var t := Step(s, acts[0]).value;
      if t.status == Ended {
        assert Run(t, acts[1..]).Some? ==> acts[1..] == [];
      } else {
        DoomedForGood(t, acts[1..]);
      }
    }
  }

  // ---------------------------------------------------------------- main result

  // At rest, some continuation writes everything it has read and empties the
  // in-flight map exactly when the sender is rescuable; otherwise no
  // continuation ever writes everything.
  lemma AtRestCompletionIff(s: System)
    requires Inv(s) && s.status == Running && Quiet(s) && Paced(s.snd)
    ensures (exists t :: Reaches(s, t) && Done(t)) <==> Rescuable(s.snd, s.now)
    ensures !Rescuable(s.snd, s.now) ==> forall acts :: Run(s, acts).Some? ==> !Complete(Run(s, acts).value)
  {
    if Rescuable(s.snd, s.now) {
      RescuableSaves(s);
    } else {
      assert Doomed(s);
      forall acts | Run(s, acts).Some?
        ensures !Complete(Run(s, acts).value)
      {
        DoomedForGood(s, acts);
      }
    }
  }

  // A state at rest from which everything can be completed.
  ghost predicate GoodRest(s: System) {
    && Inv(s) && s.status == Running && Quiet(s) && Rescuable(s.snd, s.now)
    && (s.snd.inflight == map[] || Paced(s.snd))
  }

  lemma ReachedInv(s: System, t: System)
    requires Inv(s) && s.status == Running && Reaches(s, t) && t.status == Running
    ensures Inv(t)
  {
    OutputIsPrefix(s.rcv, s.pkts);
    var acts :| Run(s, acts) == Some(t);
    RunSafe(s, acts);
  }

  lemma DoneSettles(s: System, t: System)
    requires Inv(s) && s.status == Running && Reaches(s, t) && Done(t)
    ensures exists r :: Reaches(s, r) && GoodRest(r)
  {
    ReachedInv(s, t);
    var acts := Settle(t);
    var r := Run(t, acts).value;
    assert Covered(t);
    QuietCovered(r);
    assert Reaches(t, r);
    ReachesMore(s, t, r);
    assert GoodRest(r);
  }

  lemma GoodRestSaves(r: System)
    requires GoodRest(r)
    ensures exists t :: Reaches(r, t) && Done(t)
  {
    if r.snd.inflight == map[] {
      NothingInFlight(r);
      ReachesSelf(r);
    } else {
      RescuableSaves(r);
    }
  }

  // From any running state: completion is reachable exactly when some rest with
  // a rescuable sender is.
  lemma CompletionIff(s: System)
    requires Inv(s) && s.status == Running
    ensures (exists t :: Reaches(s, t) && Done(t)) <==> (exists r :: Reaches(s, r) && GoodRest(r))
  {
    if t :| Reaches(s, t) && Done(t) {
      DoneSettles(s, t);
    }
    if r :| Reaches(s, r) && GoodRest(r) {
      GoodRestSaves(r);
      var t :| Reaches(r, t) && Done(t);
      ReachesMore(s, r, t);
    }
  }

  // --------------------------------------------------- states not at rest

  // Late enough that no sample taken then stretches the reordering window back
  // to anything sent before.
  function VeryLate(s: System): nat {
    2 * s.now + s.snd.srtt + 2 * ReoWnd(s.snd.srtt) + 2_000_000
  }

  lemma VeryLateWindow(s: Sender, now: nat, q: nat, at: nat, m: nat)
    requires q in s.inflight && s.inflight[q].sent <= now && at == 2 * now + s.srtt + 2 * ReoWnd(s.srtt) + 2_000_000
    ensures now + ReoWnd(Acked(s, q, at, m).srtt) < at
  {
  }

  lemma NothingExposed(s: System, q: nat, t: System)
    requires q in s.snd.inflight && |s.snd.inflight| <= s.snd.cwnd <= MAX_CWND
    requires Inv(t) && t.status == Running && t.acks == []
    requires t.snd == EpisodeEnd(Acked(s.snd, q, VeryLate(s), MAX_CWND), q).(recoveryEnd := t.snd.recoveryEnd)
    requires t.snd.inflight.Keys == s.snd.inflight.Keys - {q}
    ensures exists u :: Reaches(t, u) && Done(u)
  {
    OneFewer(s.snd.inflight, t.snd.inflight, q);
    AckedGrows(s.snd, q, VeryLate(s));
    RoomSaves(t);
  }

  lemma SomeExposed(s: System, q: nat, t: System, lost: set<nat>, e: nat)
    requires Inv(s) && q in s.snd.inflight && e in lost && e in s.snd.inflight && e != q
    requires Inv(t) && t.status == Running && t.acks == [] && t.now == VeryLate(s)
    requires t.snd.srtt == Acked(s.snd, q, VeryLate(s), MAX_CWND).srtt
    requires t.snd.inflight == Resent(s.snd.inflight - {q}, lost, VeryLate(s))
    requires forall k :: k in t.snd.inflight && k in lost ==> OnWire(t, k)
    ensures exists u :: Reaches(t, u) && Done(u)
  {
    ResentTimes(s.snd.inflight, s.snd.inflight - {q}, lost, VeryLate(s));
    VeryLateWindow(s.snd, s.now, q, VeryLate(s), MAX_CWND);
    NoSample(t.snd, e, Late(t), 64);
    FarBehind(s, t, q, e, lost);
    NewestCopySaves(t, e, Late(t), 64);
  }

  // The acknowledgement of `q` served very late exposes something, which then
  // saves all the rest, or leaves room in the window.
  lemma ServedVeryLate(s: System, q: nat, t: System)
    requires Inv(s) && q in s.snd.inflight && |s.snd.inflight| <= s.snd.cwnd
    requires Inv(t) && t.status == Running && t.acks == [] && t.now == VeryLate(s)
    requires t.snd == OnAck(s.snd, q, VeryLate(s), MAX_CWND).0.(recoveryEnd := t.snd.recoveryEnd)
    requires var lost := LostSet(Acked(s.snd, q, VeryLate(s), MAX_CWND), s.snd.inflight[q].sent);
             && t.snd.inflight == Resent(s.snd.inflight - {q}, lost, VeryLate(s))
             && forall k :: k in t.snd.inflight && k in lost ==> OnWire(t, k)
    ensures exists u :: Reaches(t, u) && Done(u)
  {
    var at := VeryLate(s);
    LateIsEnough(s, q, at, MAX_CWND);
    OnAckIs(s.snd, q, at, MAX_CWND);
    var lost := LostSet(Acked(s.snd, q, at, MAX_CWND), s.snd.inflight[q].sent);
    if lost == {} {
      NothingExposed(s, q, t);
    } else {
      var e :| e in lost;
      LostAreOthers(s.snd, q, at, MAX_CWND);
      SomeExposed(s, q, t, lost, e);
    }
  }

  lemma AckedGrows(s: Sender, q: nat, at: nat)
    requires q in s.inflight && s.cwnd <= MAX_CWND
    ensures EpisodeEnd(Acked(s, q, at, MAX_CWND), q).cwnd >= s.cwnd
  {
  }

  lemma FarBehind(s: System, t: System, q: nat, e: nat, lost: set<nat>)
    requires Inv(s) && e in t.snd.inflight && e in lost && q in s.snd.inflight
    requires t.snd.inflight == Resent(s.snd.inflight - {q}, lost, VeryLate(s))
    requires forall k :: k in t.snd.inflight && k in lost ==> OnWire(t, k)
    requires s.now + ReoWnd(t.snd.srtt) < VeryLate(s)
    requires Acked(t.snd, e, Late(t), 64).srtt == t.snd.srtt
    ensures Behind(t, e, Late(t), 64)
  {
    assert forall k :: k in s.snd.inflight ==> s.snd.inflight[k].sent <= s.now;
  }

  // Something to go by before rest: a packet in flight is under way, as a copy on
  // the wire or as the first acknowledgement queued, and taking it out of the
  // window would leave room.
  predicate Freeing(s: System, q: nat) {
    && q in s.snd.inflight && |s.snd.inflight| <= s.snd.cwnd
    && if s.acks == [] then OnWire(s, q) else s.acks[0] == q && forall a :: a in s.acks && a in s.snd.inflight ==> a == q
  }

  // From such a state completion is reachable, whatever the retries left.
  lemma FreeingSaves(s: System, q: nat)
    requires Inv(s) && s.status == Running && Freeing(s, q)
    ensures exists t :: Reaches(s, t) && Done(t)
  {
    var at := VeryLate(s);
    LateIsEnough(s, q, at, MAX_CWND);
    var t: System;
    if s.acks == [] {
      t := AckOf(s, q, at, MAX_CWND);
    } else {
      t := AckQueued(s, q, at);
    }
    ServedVeryLate(s, q, t);
    var u :| Reaches(t, u) && Done(u);
    ReachesMore(s, t, u);
  }

  lemma AckQueued(s: System, q: nat, at: nat) returns (t: System)
    requires Inv(s) && s.status == Running && s.acks != [] && Freeing(s, q) && at >= s.now
    requires LateEnough(s.snd, q, at, MAX_CWND)
    ensures var lost := LostSet(Acked(s.snd, q, at, MAX_CWND), s.snd.inflight[q].sent);
            && Reaches(s, t) && Inv(t) && t.status == Running && t.acks == [] && t.now == at
            && t.snd == OnAck(s.snd, q, at, MAX_CWND).0.(recoveryEnd := t.snd.recoveryEnd)
            && t.snd.inflight == Resent(s.snd.inflight - {q}, lost, at)
            && forall k :: k in t.snd.inflight && k in lost ==> OnWire(t, k)
  {
    var lost := LostSet(Acked(s.snd, q, at, MAX_CWND), s.snd.inflight[q].sent);
    var v := AckServed(s, q, at, MAX_CWND);
    ReachesStep(s, AckArrives(at, MAX_CWND, lost), v);
    forall a | a in v.acks
      ensures a !in v.snd.inflight
    {
      assert a in s.acks;
    }
    t := ServeStale(v);
    ReachesMore(s, v, t);
    assert forall k :: k in t.snd.inflight && k in lost ==> OnWire(v, k);
  }

  // With a retry left for every packet in flight, a sender at rest is rescuable.
  lemma RetriesLeftRescue(s: Sender, now: nat)
    requires s.inflight.Keys != {} && forall q :: q in s.inflight ==> s.inflight[q].tries < MAX_TRIES
    ensures Rescuable(s, now)
  {
    var q :| q in s.inflight;
    var at := Max(now, s.inflight[q].sent + Rto(s));
    assert q in DueSet(s, at);
    assert RetriesAt(s, now, at);
  }

  // A stuck state is one that is not.
  lemma StuckIsNotRescuable(s: System)
    requires Stuck(s)
    ensures !Rescuable(s.snd, s.now)
  {
    var q :| q in s.snd.inflight && s.snd.inflight[q].tries >= MAX_TRIES
             && forall k :: k in s.snd.inflight ==> s.snd.inflight[q].sent <= s.snd.inflight[k].sent;
    forall at | at >= s.now
      ensures !RetriesAt(s.snd, s.now, at)
    {
      if DueSet(s.snd, at) != {} {
        assert q in DueSet(s.snd, at);
      }
    }
  }
}
