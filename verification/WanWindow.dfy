// The window and the round-trip estimate of the packet WAN over many
// acknowledgements (crates/nya-e2e/src/packet_wan.rs).
module WanWindow {
  import opened Common
  import opened Transport

  // The window after n acknowledgements with no loss in between.
  function GrownBy(s: Sender, n: nat, maxCwnd: nat): Sender {
    if n == 0 then s else Grown(GrownBy(s, n - 1, maxCwnd), maxCwnd)
  }

  // Slow start: every acknowledgement adds a packet until the threshold.
  lemma {:induction false} SlowStartAddsOneEach(s: Sender, n: nat, maxCwnd: nat)
    requires s.cwnd + n <= s.ssthresh && s.cwnd + n <= maxCwnd
    ensures GrownBy(s, n, maxCwnd) == s.(cwnd := s.cwnd + n)
  {
    if n > 0 {
      SlowStartAddsOneEach(s, n - 1, maxCwnd);
    }
  }

  // Acknowledgements counted so far carry over a halving, so the first packet
  // of growth after one may come early, but never without an acknowledgement.
  function AcksToGrow(s: Sender): nat {
    Max(1, s.cwnd - s.caAcc)
  }

  // Congestion avoidance: the window grows by one packet exactly after a
  // window's worth of acknowledgements, less those already counted.
  lemma {:induction false} OneMorePerWindow(s: Sender, n: nat, maxCwnd: nat)
    requires s.ssthresh <= s.cwnd < maxCwnd && n <= AcksToGrow(s)
    ensures GrownBy(s, n, maxCwnd) ==
            if n < AcksToGrow(s) then s.(caAcc := s.caAcc + n) else s.(caAcc := 0, cwnd := s.cwnd + 1)
  {
    if n > 0 {
      OneMorePerWindow(s, n - 1, maxCwnd);
    }
  }

  // ------------------------------------------------------- round-trip estimate

  // Packets acknowledged in turn, with the time of each acknowledgement.
  function SampledAll(s: Sender, xs: seq<(Entry, nat)>): Sender
    decreases |xs|
  {
    if xs == [] then s else Sampled(SampledAll(s, xs[..|xs| - 1]), xs[|xs| - 1].0, xs[|xs| - 1].1)
  }

  predicate Between(x: (Entry, nat), lo: nat, hi: nat) {
    x.0.tries == 1 ==> lo <= Max(SatSub(x.1, x.0.sent), 1) <= hi
  }

  predicate AnySingle(xs: seq<(Entry, nat)>) {
    exists i :: 0 <= i < |xs| && xs[i].0.tries == 1
  }

  // The smoothed round trip stays between the least and greatest sample of the
  // packets sent once, and its variance within their spread or half of one.
  lemma {:induction false} EstimateWithinSamples(s: Sender, xs: seq<(Entry, nat)>, lo: nat, hi: nat)
    requires !s.haveSample && lo <= hi && forall i :: 0 <= i < |xs| ==> Between(xs[i], lo, hi)
    ensures var t := SampledAll(s, xs);
            if AnySingle(xs) then t.haveSample && lo <= t.srtt <= hi && t.rttvar <= Max(hi / 2, hi - lo)
            else t.srtt == s.srtt && t.rttvar == s.rttvar && !t.haveSample
    decreases |xs|
  {
    if xs != [] {
      var n := |xs| - 1;
      EstimateWithinSamples(s, xs[..n], lo, hi);
      assert Between(xs[n], lo, hi);
      assert AnySingle(xs) <==> AnySingle(xs[..n]) || xs[n].0.tries == 1 by {
        if AnySingle(xs[..n]) {
          var i :| 0 <= i < n && xs[..n][i].0.tries == 1;
          assert xs[i].0.tries == 1;
        }
        if AnySingle(xs) && xs[n].0.tries != 1 {
          var i :| 0 <= i < |xs| && xs[i].0.tries == 1;
          assert xs[..n][i].0.tries == 1;
        }
      }
    }
  }
}
