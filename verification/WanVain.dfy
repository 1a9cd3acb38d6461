// A run of the packet WAN into a rest where the tail probe would still fire,
// and yet nothing can be completed (crates/nya-e2e/src/packet_wan.rs).
//
// Three one-byte packets time out in two phases. The probe saves the newest,
// but the window stays full, the next probe would come after the next timeout,
// and that one is out of retries.
module WanVain {
  import opened Common
  import opened Transport
  import opened WanProtocol
  import opened WanRescue

  const PHASE: nat := 150_000

  function Three(t0: nat, k0: nat, t1: nat, k1: nat, t2: nat, k2: nat, cwnd: nat, ssthresh: nat, end: Option<nat>): Sender {
    Sender(map[0 := Entry([1], t0, k0), 1 := Entry([1], t1, k1), 2 := Entry([1], t2, k2)],
           3, cwnd, ssthresh, 0, RTT, RTT / 2, false, None, end, [])
  }

  // The whole system when every copy so far was lost.
  function Lost(snd: Sender, k0: nat, k1: nat, k2: nat, now: nat): System {
    System(snd, InitReceiver(), multiset{}, [], now, Running, [[1], [1], [1]], [1, 1, 1], map[0 := k0, 1 := k1, 2 := k2])
  }

  // Just after packet 0 and 2, and then 1, have timed out n times.
  function First(n: nat): System
    requires n >= 1
  {
    Lost(Three(n * RTO, n + 1, (n - 1) * RTO + PHASE, n, n * RTO, n, Window(2 * n - 1), Window(2 * n - 1), Some(3)),
         n + 1, n, n, n * RTO)
  }

  function Second(n: nat): System
    requires n >= 1
  {
    Lost(Three(n * RTO, n + 1, n * RTO + PHASE, n + 1, n * RTO, n, Window(2 * n), Window(2 * n), Some(3)),
         n + 1, n + 1, n, n * RTO + PHASE)
  }

  function Window(n: nat): nat {
    if n == 0 then INIT_CWND else Max(MIN_CWND, Window(n - 1) / 2)
  }

  // ------------------------------------------------------------------ timeouts

  lemma ThreeDue(s: Sender, at: nat, due: set<nat>, t: Inflight)
    requires s.inflight.Keys == {0, 1, 2} && s.srtt == RTT && s.rttvar == RTT / 2 && due != {} && due <= {0, 1, 2}
    requires forall q :: q in {0, 1, 2} ==> (q in due <==> at >= s.inflight[q].sent + RTO)
    requires forall q :: q in due ==> s.inflight[q].tries < MAX_TRIES
    requires t == Resent(s.inflight, due, at)
    ensures TimerReady(s, at) && OnTimer(s, at) == Resend(Halved(s).(inflight := t), due)
  {
    assert RtoOf(RTT, RTT / 2) == RTO;
    assert DueSet(s, at) == due;
  }

  lemma TimeoutLost(s: System, t: System, at: nat, due: set<nat>)
    requires s.status == Running && s.acks == [] && at >= s.now && s.snd.inflight.Keys == {0, 1, 2}
    requires s.snd.srtt == RTT && s.snd.rttvar == RTT / 2 && due != {} && due <= {0, 1, 2}
    requires forall q :: q in {0, 1, 2} ==> (q in due <==> at >= s.snd.inflight[q].sent + RTO)
    requires forall q :: q in due ==> s.snd.inflight[q].tries < MAX_TRIES
    requires t == s.(snd := Halved(s.snd).(inflight := Resent(s.snd.inflight, due, at)), now := at, sends := Counted(s.sends, due))
    ensures Step(s, TimerFires(at, {})) == Some(t)
  {
    ThreeDue(s.snd, at, due, t.snd.inflight);
    NoneSurvives(s.wire, t.snd.inflight, due);
  }

  lemma MiddleResent(m: Inflight, sends: map<nat, nat>, at: nat)
    requires m.Keys == {0, 1, 2} == sends.Keys
    ensures Resent(m, {1}, at) == map[0 := m[0], 1 := Entry(m[1].buf, at, m[1].tries + 1), 2 := m[2]]
    ensures Counted(sends, {1}) == map[0 := sends[0], 1 := sends[1] + 1, 2 := sends[2]]
  {
  }

  lemma OthersResent(m: Inflight, sends: map<nat, nat>, at: nat)
    requires m.Keys == {0, 1, 2} == sends.Keys
    ensures Resent(m, {0, 2}, at) == map[0 := Entry(m[0].buf, at, m[0].tries + 1), 1 := m[1],
                                         2 := Entry(m[2].buf, at, m[2].tries + 1)]
    ensures Counted(sends, {0, 2}) == map[0 := sends[0] + 1, 1 := sends[1], 2 := sends[2] + 1]
  {
  }

  lemma MiddleTimesOut(n: nat)
    requires 1 <= n <= 11
    ensures Step(First(n), TimerFires(n * RTO + PHASE, {})) == Some(Second(n))
  {
    var s, at := First(n), n * RTO + PHASE;
    MiddleResent(s.snd.inflight, s.sends, at);
    TimeoutLost(s, Second(n), at, {1});
  }

  lemma AfterOthers(n: nat)
    requires n >= 1
    ensures var s, at := Second(n), (n + 1) * RTO;
            First(n + 1) == s.(snd := Halved(s.snd).(inflight := Resent(s.snd.inflight, {0, 2}, at)), now := at,
                               sends := Counted(s.sends, {0, 2}))
  {
    OthersResent(Second(n).snd.inflight, Second(n).sends, (n + 1) * RTO);
  }

  lemma OthersTimeOut(n: nat)
    requires 1 <= n <= 10
    ensures Step(Second(n), TimerFires((n + 1) * RTO, {})) == Some(First(n + 1))
  {
    var s, at := Second(n), (n + 1) * RTO;
    AfterOthers(n);
    TimeoutLost(s, First(n + 1), at, {0, 2});
  }

  lemma FirstToSecond(n: nat)
    requires 1 <= n <= 11
    ensures Reaches(First(n), Second(n))
  {
    MiddleTimesOut(n);
    ReachesStep(First(n), TimerFires(n * RTO + PHASE, {}), Second(n));
  }

  lemma SecondToFirst(n: nat)
    requires 1 <= n <= 10
    ensures Reaches(Second(n), First(n + 1))
  {
    OthersTimeOut(n);
    ReachesStep(Second(n), TimerFires((n + 1) * RTO, {}), First(n + 1));
  }

  // ------------------------------------------------------------------ the start

  function Two(): System {
    System(InitSender(RTT).(inflight := map[0 := Entry([1], 0, 1), 1 := Entry([1], PHASE, 1)], nextSeq := 2),
           InitReceiver(), multiset{}, [], PHASE, Running, [[1], [1]], [1, 1], map[0 := 1, 1 := 1])
  }

  function All(): System {
    Lost(Three(0, 1, PHASE, 1, RTO, 1, INIT_CWND, 0xFFFF_FFFF, None), 1, 1, 1, RTO)
  }

  lemma ReadLost(s: System, t: System, at: nat)
    requires Inv(s) && s.status == Running && s.acks == [] && at >= s.now && |s.snd.inflight| < s.snd.cwnd
    requires t == WithPacket(s, [1], {}, at)
    ensures Step(s, DataRead(at, [1], {})) == Some(t) && Inv(t)
  {
    assert s.snd.nextSeq !in s.sends;
    assert Step(s, DataRead(at, [1], {})).Some?;
    DataReadIs(s, DataRead(at, [1], {}));
    StepKeepsInv(s, DataRead(at, [1], {}));
  }

  lemma ReadSecond()
    ensures Inv(OnePacket()) && Step(OnePacket(), DataRead(PHASE, [1], {})) == Some(Two()) && Inv(Two())
  {
    var s := OnePacket();
    InitInv(RTT, 0);
    StormFirstRead();
    StepKeepsInv(Init(RTT, 0), DataRead(0, [1], {}));
    assert |s.snd.inflight| == |s.snd.inflight.Keys| == |{0}|;
    NoneSurvives(multiset{}, Two().snd.inflight, {1});
    assert WithPacket(s, [1], {}, PHASE) == Two() by {
      assert s.pkts + [[1]] == Two().pkts && s.input + [1] == Two().input;
      assert s.sends[1 := 1] == Two().sends;
      assert s.snd.inflight[1 := Entry([1], PHASE, 1)] == Two().snd.inflight;
    }
    ReadLost(s, Two(), PHASE);
  }

  lemma ReadThird()
    ensures Step(Two(), DataRead(RTO, [1], {})) == Some(All()) && Inv(All())
  {
    var s := Two();
    ReadSecond();
    assert |s.snd.inflight| == |s.snd.inflight.Keys| == |{0, 1}|;
    NoneSurvives(multiset{}, All().snd.inflight, {2});
    assert WithPacket(s, [1], {}, RTO) == All() by {
      assert s.pkts + [[1]] == All().pkts && s.input + [1] == All().input;
      assert s.sends[2 := 1] == All().sends;
      assert s.snd.inflight[2 := Entry([1], RTO, 1)] == All().snd.inflight;
    }
    ReadLost(s, All(), RTO);
  }

  lemma FirstTimeout()
    ensures Step(All(), TimerFires(RTO, {})) == Some(First(1))
  {
    var s, t := All(), First(1);
    assert Resent(s.snd.inflight, {0}, RTO) == t.snd.inflight;
    assert Counted(s.sends, {0}) == t.sends;
    assert Window(1) == 8;
    TimeoutLost(s, t, RTO, {0});
  }

  lemma ReachFirst()
    ensures Reaches(Init(RTT, 0), First(1))
  {
    StormFirstRead();
    ReadSecond();
    ReadThird();
    FirstTimeout();
    ReachesStep(Init(RTT, 0), DataRead(0, [1], {}), OnePacket());
    ReachesStep(OnePacket(), DataRead(PHASE, [1], {}), Two());
    ReachesStep(Two(), DataRead(RTO, [1], {}), All());
    ReachesStep(All(), TimerFires(RTO, {}), First(1));
    ReachesMore(Init(RTT, 0), OnePacket(), Two());
    ReachesMore(Init(RTT, 0), Two(), All());
    ReachesMore(Init(RTT, 0), All(), First(1));
  }

  lemma OneRound(n: nat)
    requires 1 <= n <= 10
    ensures Reaches(Second(n), Second(n + 1))
  {
    SecondToFirst(n);
    FirstToSecond(n + 1);
    ReachesMore(Second(n), First(n + 1), Second(n + 1));
  }

  lemma {:induction false} ReachSecond(s: System, n: nat)
    requires Reaches(s, First(1)) && 1 <= n <= 11
    ensures Reaches(s, Second(n))
  {
    if n == 1 {
      FirstToSecond(1);
      ReachesMore(s, First(1), Second(1));
    } else {
      ReachSecond(s, n - 1);
      OneRound(n - 1);
      ReachesMore(s, Second(n - 1), Second(n));
    }
  }

  // -------------------------------------------------------------------- the end

  lemma {:induction false} WindowEnds(n: nat)
    requires n >= 3
    ensures Window(n) == 2
  {
    if n == 3 {
      assert Window(1) == 8 && Window(2) == 4;
    } else {
      WindowEnds(n - 1);
    }
  }

  // Packet 0 is due first and out of retries.
  lemma NoRetry(s: Sender, now: nat)
    requires 0 in s.inflight && s.inflight[0].tries >= MAX_TRIES
    requires forall q :: q in s.inflight ==> s.inflight[0].sent <= s.inflight[q].sent
    ensures !RetryInTime(s, now)
  {
    forall at | at >= now
      ensures !RetriesAt(s, now, at)
    {
      if DueSet(s, at) != {} {
        assert 0 in DueSet(s, at);
      }
    }
  }

  lemma AfterTheProbe(s: Sender)
    requires s == Three(11 * RTO, 12, 11 * RTO + PHASE, 12, 11 * RTO, 11, 2, 2, Some(3))
    ensures s.inflight.Keys == {0, 1, 2} && Tail(s) == 2
    ensures var t := AfterProbe(s, MAX_CWND);
            && t.inflight == map[0 := Entry([1], 11 * RTO, 12), 1 := Entry([1], 11 * RTO + PHASE, 12)]
            && t.cwnd == 2 && t.tlpDone == Some(2) && t.srtt == RTT && t.rttvar == RTT / 2
  {
    assert s.inflight.Keys == {0, 1, 2};
  }

  lemma ThenNothing(t: Sender, now: nat)
    requires t.inflight == map[0 := Entry([1], 11 * RTO, 12), 1 := Entry([1], 11 * RTO + PHASE, 12)]
    requires t.cwnd == 2 && t.srtt == RTT && t.rttvar == RTT / 2
    ensures !Rescuable(t, now)
  {
    assert t.inflight.Keys == {0, 1};
    assert |t.inflight| == |t.inflight.Keys| == 2;
    NoRetry(t, now);
    assert Tail(t) == 1;
    assert RtoOf(RTT, RTT / 2) == RTO && TlpOf(RTT) == 2 * RTT;
    assert 0 in DueSet(t, ProbeTime(t, now));
  }

  // A reachable rest with the window full where the timer would re-send a
  // packet, and no continuation ever writes everything.
  lemma ProbeMayBeInVain()
    ensures var s := Second(11);
            && Reaches(Init(RTT, 0), s) && Inv(s) && Quiet(s) && |s.snd.inflight| >= s.snd.cwnd && Paced(s.snd)
            && TimerReady(s.snd, 11 * RTO + 2 * RTT) && 11 * RTO + 2 * RTT >= s.now
            && OnTimer(s.snd, 11 * RTO + 2 * RTT).Resend? && OnTimer(s.snd, 11 * RTO + 2 * RTT).which == {2}
            && !Rescuable(s.snd, s.now)
            && forall acts :: Run(s, acts).Some? ==> !Complete(Run(s, acts).value)
  {
    var s := Second(11);
    ReachFirst();
    ReachSecond(Init(RTT, 0), 11);
    InitInv(RTT, 0);
    ReachedInv(Init(RTT, 0), s);
    WindowEnds(22);
    AfterTheProbe(s.snd);
    assert |s.snd.inflight| == |s.snd.inflight.Keys| == 3;
    ProbeFires(s.snd);
    NotRescued(s.snd, s.now);
    AtRestCompletionIff(s);
  }

  lemma ProbeFires(s: Sender)
    requires s == Three(11 * RTO, 12, 11 * RTO + PHASE, 12, 11 * RTO, 11, 2, 2, Some(3))
    ensures TimerReady(s, 11 * RTO + 2 * RTT)
    ensures OnTimer(s, 11 * RTO + 2 * RTT).Resend? && OnTimer(s, 11 * RTO + 2 * RTT).which == {2}
  {
    AfterTheProbe(s);
    assert RtoOf(RTT, RTT / 2) == RTO && TlpOf(RTT) == 2 * RTT;
    assert DueSet(s, 11 * RTO + 2 * RTT) == {};
  }

  lemma NotRescued(s: Sender, now: nat)
    requires s == Three(11 * RTO, 12, 11 * RTO + PHASE, 12, 11 * RTO, 11, 2, 2, Some(3))
    ensures !Rescuable(s, now)
  {
    AfterTheProbe(s);
    assert |s.inflight| == |s.inflight.Keys| == 3;
    NoRetry(s, now);
    assert !Exposes(s);
    ThenNothing(AfterProbe(s, MAX_CWND), ProbeTime(s, now));
  }
}
