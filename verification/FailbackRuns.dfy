// Following failbacks on one snapshot of the paths.
module FailbackRuns {
  import opened Common
  import opened Failback

  // ------------------------------------------------------------- one choice

  // The choice depends on which paths are offered, not on their order.
  lemma PickIgnoresOrder(a: seq<Path>, b: seq<Path>)
    requires UniqueIds(a) && multiset(a) == multiset(b)
    ensures Pick(a) == Pick(b)
  {
    assert |a| == |multiset(a)| == |b|;
    assert forall p :: p in a <==> p in multiset(a);
    assert forall p :: p in b <==> p in multiset(b);
    if a != [] {
      SameFresh(a, b);
      SameBest(FreshOrAll(a), FreshOrAll(b));
    }
  }

  lemma SameBest(x: seq<Path>, y: seq<Path>)
    requires x != [] && y != [] && UniqueIds(x) && forall p :: p in x <==> p in y
    ensures Best(x) == Best(y)
  {
    assert Best(x) in y && Best(y) in x;
    assert !Better(Best(x), Best(y)) && !Better(Best(y), Best(x));
  }

  lemma SameFresh(a: seq<Path>, b: seq<Path>)
    requires UniqueIds(a) && a != [] && b != [] && forall p :: p in a <==> p in b
    ensures forall p :: p in FreshOrAll(a) <==> p in FreshOrAll(b)
    ensures UniqueIds(FreshOrAll(a)) && FreshOrAll(a) != [] && FreshOrAll(b) != []
  {
    var recent := (p: Path) => p.lastRxAgo < LossTimeout(Min(p.Rtt(), p.ClassRtt()));
    var x, y := Filter(a, recent), Filter(b, recent);
    assert x == [] <==> y == [] by {
      if x != [] {
        assert x[0] in y;
      }
      if y != [] {
        assert y[0] in x;
      }
    }
  }

  // At equal load one microsecond of class outweighs 1024 of the fast estimate,
  // which counts double while unknown.
  lemma ClassDominatesScore(a: Path, b: Path)
    requires a.inflight == b.inflight && a.sticky == b.sticky
    requires Score(a) < U64_MAX && Score(b) < U64_MAX
    ensures Score(a) < Score(b) <==> 1024 * a.ClassRtt() + FastScore(a) < 1024 * b.ClassRtt() + FastScore(b)
  {
    var load := 1 + a.inflight / INFLIGHT_BIAS + a.sticky;
    ScoreIs(a, load);
    ScoreIs(b, load);
    LoadCancels(1024 * a.ClassRtt() + FastScore(a), 1024 * b.ClassRtt() + FastScore(b), load);
  }

  function FastScore(p: Path): nat {
    if p.RttKnown() then p.Rtt() else 2 * p.Rtt()
  }

  lemma ScoreIs(p: Path, load: nat)
    requires load == 1 + p.inflight / INFLIGHT_BIAS + p.sticky && Score(p) < U64_MAX
    ensures Score(p) == (1024 * p.ClassRtt() + FastScore(p)) * load
  {
    var c, f := p.ClassRtt(), FastScore(p);
    assert SatMul(c, load) == c * load;
    assert SatMul(f, load) == f * load;
    Expand(c, f, load);
  }

  lemma Expand(c: nat, f: nat, load: nat)
    ensures c * load * 1024 + f * load == (1024 * c + f) * load
  {
  }

  lemma LoadCancels(x: nat, y: nat, load: nat)
    requires load > 0
    ensures x * load < y * load <==> x < y
  {
    if x < y {
      assert (y - x) * load > 0;
    } else {
      assert (x - y) * load >= 0;
    }
  }

  // --------------------------------------------------------- the fastest class

  lemma LeastIs(paths: seq<Path>, m: Path)
    requires m in paths && forall p :: p in paths ==> Effective(m) <= Effective(p)
    ensures LeastEffective(paths) == Effective(m)
  {
  }

  // When the settled alive path of least RTT is usable, the fastest class is
  // exactly the usable measured paths neither backup nor failback away from it.
  lemma FastestClassIff(paths: seq<Path>, m: Path, p: Path)
    requires Snapshot(paths) && m in paths && m.Schedulable() && m.ClassKnown()
    requires forall q :: q in paths && q.Alive() && q.ClassKnown() ==> Effective(m) <= Effective(q)
    ensures p in FastestClassSet(paths) <==>
              && p in paths && p.Schedulable() && p.RttKnown()
              && !IsBackup(Effective(p), Effective(m)) && !ShouldFailback(Effective(p), Effective(m))
  {
    GoodAreCandidates(paths, m);
    var good := Good(paths, Effective(m));
    GoodHas(paths, m, m);
    GoodHas(paths, m, p);
    NearIs(good, m);
    EffectiveOfUnknown(p);
  }

  lemma EffectiveOfUnknown(p: Path)
    ensures (if p.ClassKnown() then Effective(p) else p.Rtt()) == Effective(p)
  {
  }

  lemma GoodHas(paths: seq<Path>, m: Path, p: Path)
    ensures p in Good(paths, Effective(m)) <==>
              p in paths && p.Schedulable() && p.RttKnown() && !IsBackup(Effective(p), Effective(m))
    ensures p in Good(paths, Effective(m)) ==> p in paths && p.Alive()
  {
  }

  function Near(cands: seq<Path>, best: nat): seq<Path> {
    Filter(cands, (p: Path) => !ShouldFailback(if p.ClassKnown() then Effective(p) else p.Rtt(), best))
  }

  lemma NearIs(cands: seq<Path>, m: Path)
    requires m in cands && m.ClassKnown()
    requires forall q :: q in cands && q.ClassKnown() ==> Effective(m) <= Effective(q)
    ensures FastestOf(cands) == Near(cands, Effective(m))
  {
    var known := Filter(cands, (p: Path) => p.ClassKnown());
    assert m in known;
    LeastIs(known, m);
    assert Settled(cands) == known;
    assert m in Near(cands, Effective(m));
  }

  function Good(paths: seq<Path>, least: nat): seq<Path> {
    Filter(Filter(paths, (p: Path) => p.Alive()),
           (p: Path) => p.Schedulable() && p.RttKnown() && !IsBackup(Effective(p), least))
  }

  lemma GoodAreCandidates(paths: seq<Path>, m: Path)
    requires Snapshot(paths) && m in paths && m.Schedulable() && m.ClassKnown()
    requires forall q :: q in paths && q.Alive() && q.ClassKnown() ==> Effective(m) <= Effective(q)
    ensures Candidates(paths) == Good(paths, Effective(m))
  {
    var alive := Filter(paths, (p: Path) => p.Alive());
    var known := Filter(alive, (p: Path) => p.ClassKnown());
    assert m in alive && m in known;
    LeastIs(known, m);
    assert Settled(alive) == known;
    assert MinClassRtt(alive) == Effective(m);
    assert m in Good(paths, Effective(m));
  }

  // ---------------------------------------------------------------- one hop

  // 2 for a path new streams may use, 1 for one merely alive, 0 for a dead one.
  function Rank(p: Path): nat {
    if p.Schedulable() then 2 else if p.Alive() then 1 else 0
  }

  lemma FastestPick(paths: seq<Path>)
    ensures Pick(FastestClassSet(paths)).Some? <==> exists p :: p in paths && p.Alive()
    ensures Pick(FastestClassSet(paths)).Some? ==>
              Pick(FastestClassSet(paths)).value in paths && Pick(FastestClassSet(paths)).value.Alive()
  {
    FastestClassIsTight(paths);
  }

  lemma SiblingHop(paths: seq<Path>, cur: Path)
    requires !cur.Schedulable()
    ensures var sibs := Filter(paths, (p: Path) => p.id != cur.id && p.Schedulable() && p.Link() == cur.Link());
            sibs != [] ==>
              && Elsewhere(paths, cur) == Some(Hop(Pick(sibs).value, ClassEmpty))
              && Pick(sibs).value in sibs
  {
  }

  lemma DeadCandidates(paths: seq<Path>, cur: Path)
    ensures forall p :: p in Filter(InClassOrBetterAlive(paths, cur), (p: Path) => p.Link() == cur.Link() || Effective(p) <= Effective(cur)) ==>
              p in paths && p.id != cur.id && p.Alive()
  {
  }

  // Where a dead home goes when its link has nothing usable.
  lemma DeadHop(paths: seq<Path>, cur: Path)
    requires !cur.Alive()
    ensures Elsewhere(paths, cur).Some? ==>
              var h := Elsewhere(paths, cur).value;
              h.reason == ClassEmpty && h.to in paths && h.to.id != cur.id && h.to.Alive()
  {
    SiblingHop(paths, cur);
    DeadCandidates(paths, cur);
    FastestPick(paths);
  }

  lemma ElsewhereFacts(paths: seq<Path>, cur: Path)
    requires !cur.Schedulable() && Elsewhere(paths, cur).Some?
    ensures var h := Elsewhere(paths, cur).value;
            && h.reason == ClassEmpty && h.to in paths && h.to.id != cur.id
            && Rank(h.to) > Rank(cur)
            && (cur.Alive() ==> h.to.Link() == cur.Link())
  {
    SiblingHop(paths, cur);
    if !cur.Alive() {
      DeadHop(paths, cur);
    }
  }

  lemma HopLandsElsewhere(paths: seq<Path>, cur: Path)
    requires FailbackTarget(paths, cur).Some?
    ensures var h := FailbackTarget(paths, cur).value;
            && h.to in paths && h.to.id != cur.id
            && (h.reason == Upgrade <==> cur.Schedulable())
  {
    if !cur.Schedulable() && Elsewhere(paths, cur).Some? {
      ElsewhereFacts(paths, cur);
    }
  }

  // A home that cannot be used is left only for one that is more alive.
  lemma ClassEmptyRaisesRank(paths: seq<Path>, cur: Path)
    requires FailbackTarget(paths, cur).Some? && FailbackTarget(paths, cur).value.reason == ClassEmpty
    ensures Rank(FailbackTarget(paths, cur).value.to) > Rank(cur)
  {
    if !cur.Schedulable() && Elsewhere(paths, cur).Some? {
      ElsewhereFacts(paths, cur);
    }
  }

  // A home that is still alive is never traded for a slower class off its link.
  lemma AliveNeverDumpedOnSlower(paths: seq<Path>, cur: Path)
    requires FailbackTarget(paths, cur).Some? && FailbackTarget(paths, cur).value.reason == ClassEmpty && cur.Alive()
    ensures var to := FailbackTarget(paths, cur).value.to;
            to.Link() == cur.Link() || Effective(to) <= Effective(cur)
  {
    if Elsewhere(paths, cur).Some? {
      ElsewhereFacts(paths, cur);
    }
  }

  lemma OutsideIsSlower(paths: seq<Path>, cur: Path, best: Path)
    requires cur in paths && cur.Schedulable() && cur.RttKnown()
    requires cur !in FastestClassSet(paths) && best in FastestClassSet(paths) && best.ClassKnown()
    ensures Effective(best) < Effective(cur)
  {
    var alive := Filter(paths, (p: Path) => p.Alive());
    var cands := Candidates(paths);
    assert cur in alive;
    var least := MinClassRtt(alive);
    var good := Filter(alive, (p: Path) => p.Schedulable() && p.RttKnown() && !IsBackup(Effective(p), least));
    var usable := Filter(alive, (p: Path) => p.Schedulable());
    assert cur in usable;
    if good != [] && cur !in good {
      assert cands == good;
      assert best in good;
    } else {
      assert cur in cands;
      LeftOutIsSlower(cands, cur, best);
    }
  }

  lemma LeftOutIsSlower(cands: seq<Path>, cur: Path, best: Path)
    requires cur in cands && cur !in FastestOf(cands) && best in FastestOf(cands) && best.ClassKnown()
    ensures Effective(best) < Effective(cur)
  {
    assert best in cands;
    assert best in Filter(cands, (p: Path) => p.ClassKnown());
    var least := LeastEffective(Settled(cands));
    var near := Filter(cands, (p: Path) => !ShouldFailback(if p.ClassKnown() then Effective(p) else p.Rtt(), least));
    assert near != [];
    assert ShouldFailback(Effective(cur), least) && !ShouldFailback(Effective(best), least);
    if Effective(cur) <= Effective(best) {
      FailbackMonotone(Effective(cur), Effective(best), least, least);
    }
  }

  // An upgrade lands on a usable path of settled class that has been up for
  // two round trips; from a home with a known RTT it is strictly faster, and
  // inside the fastest class it is a whole class jump.
  lemma UpgradeIsFaster(paths: seq<Path>, cur: Path)
    requires Snapshot(paths) && cur in paths
    requires FailbackTarget(paths, cur).Some? && FailbackTarget(paths, cur).value.reason == Upgrade
    ensures var to := FailbackTarget(paths, cur).value.to;
            && to.Schedulable() && to.ClassKnown() && to.RttKnown()
            && to.stableFor >= 2 * Effective(to)
            && (cur.RttKnown() ==> Effective(to) < Effective(cur))
            && (cur in FastestClassSet(paths) ==> 2 * Effective(cur) >= 3 * Effective(to) + 15999)
  {
    var fastest := FastestClassSet(paths);
    var to := FailbackTarget(paths, cur).value.to;
    HopLandsElsewhere(paths, cur);
    FastestClassIsTight(paths);
    if cur in fastest {
      assert HasId(fastest, cur.id);
    } else {
      assert !HasId(fastest, cur.id);
      assert to in fastest;
      if cur.RttKnown() {
        OutsideIsSlower(paths, cur, to);
      }
    }
  }

  // Crossing back needs the estimates to move: for a hop inside the fastest
  // class, by more than 8 ms between the two paths.
  lemma ReturnNeedsAShift(before: seq<Path>, a: Path, b: Path, after: seq<Path>, x: Path, y: Path)
    requires Snapshot(before) && a in FastestClassSet(before) && a in before
    requires FailbackTarget(before, a) == Some(Hop(b, Upgrade))
    requires Snapshot(after) && y in after && y.RttKnown()
    requires FailbackTarget(after, y) == Some(Hop(x, Upgrade))
    ensures (Effective(a) - Effective(x)) + (Effective(y) - Effective(b)) >= 8000
  {
    UpgradeIsFaster(before, a);
    UpgradeIsFaster(after, y);
  }

  // ------------------------------------------------------- chains of hops

  function Unknown(p: Path): nat {
    if p.RttKnown() then 0 else 1
  }

  // Further along: more alive, else newly measured, else strictly faster.
  predicate Improves(p: Path, q: Path) {
    || Rank(q) > Rank(p)
    || (Rank(q) == Rank(p) && Unknown(q) < Unknown(p))
    || (Rank(q) == Rank(p) && Unknown(q) == Unknown(p) && Effective(q) < Effective(p))
  }

  lemma HopImproves(paths: seq<Path>, cur: Path)
    requires Snapshot(paths) && cur in paths && FailbackTarget(paths, cur).Some?
    ensures FailbackTarget(paths, cur).value.to in paths
    ensures Improves(cur, FailbackTarget(paths, cur).value.to)
  {
    HopLandsElsewhere(paths, cur);
    if FailbackTarget(paths, cur).value.reason == ClassEmpty {
      ClassEmptyRaisesRank(paths, cur);
    } else {
      UpgradeIsFaster(paths, cur);
    }
  }

  // Failing back again and again on one snapshot comes to rest.
  function RestingPath(paths: seq<Path>, cur: Path): (r: Path)
    requires Snapshot(paths) && cur in paths
    ensures r in paths && FailbackTarget(paths, r).None? && (r == cur || Improves(cur, r))
    decreases 2 - Rank(cur), Unknown(cur), Effective(cur)
  {
    if FailbackTarget(paths, cur).None? then cur
    else
      HopImproves(paths, cur);
      RestingPath(paths, FailbackTarget(paths, cur).value.to)
  }

  predicate HopsTo(paths: seq<Path>, p: Path, q: Path) {
    FailbackTarget(paths, p).Some? && FailbackTarget(paths, p).value.to == q
  }

  ghost predicate Chain(paths: seq<Path>, c: seq<Path>) {
    && (forall i :: 0 <= i < |c| ==> c[i] in paths)
    && (forall i, j :: 0 <= i && j == i + 1 && j < |c| ==> HopsTo(paths, c[i], c[j]))
  }

  lemma ImprovesIsTransitive(p: Path, q: Path, r: Path)
    requires Improves(p, q) && Improves(q, r)
    ensures Improves(p, r)
  {
  }

  lemma LinkImproves(paths: seq<Path>, p: Path, q: Path)
    requires Snapshot(paths) && p in paths && HopsTo(paths, p, q)
    ensures Improves(p, q)
  {
    HopImproves(paths, p);
  }

  lemma {:induction false} Climb(c: seq<Path>, i: nat, j: nat)
    requires forall k, l :: 0 <= k && l == k + 1 && l < |c| ==> Improves(c[k], c[l])
    requires i < j < |c|
    ensures Improves(c[i], c[j])
    decreases j
  {
    assert Improves(c[j - 1], c[j]);
    if i < j - 1 {
      Climb(c, i, j - 1);
      ImprovesIsTransitive(c[i], c[j - 1], c[j]);
    }
  }

  lemma ChainImproves(paths: seq<Path>, c: seq<Path>, i: nat, j: nat)
    requires Snapshot(paths) && Chain(paths, c) && i < j < |c|
    ensures Improves(c[i], c[j])
  {
    forall k, l | 0 <= k && l == k + 1 && l < |c|
      ensures Improves(c[k], c[l])
    {
      LinkImproves(paths, c[k], c[l]);
    }
    Climb(c, i, j);
  }

  lemma {:induction false} DistinctFit(c: seq<Path>, paths: seq<Path>)
    requires forall i, j :: 0 <= i < j < |c| ==> c[i] != c[j]
    requires forall p :: p in c ==> p in paths
    ensures |c| <= |paths|
    decreases |c|
  {
    if c != [] {
      var last, rest := c[|c| - 1], c[..|c| - 1];
      assert last in c;
      var k :| 0 <= k < |paths| && paths[k] == last;
      var fewer := paths[..k] + paths[k + 1..];
      forall p | p in rest
        ensures p in fewer
      {
        var i :| 0 <= i < |rest| && rest[i] == p;
        assert c[i] in c && c[i] != c[|c| - 1];
        var m :| 0 <= m < |paths| && paths[m] == p;
        assert m != k;
        assert p == if m < k then fewer[m] else fewer[m - 1];
      }
      DistinctFit(rest, fewer);
    }
  }

  // A stream never ping-pongs on a fixed snapshot: no path is seen twice, so
  // there are fewer hops than paths.
  lemma ChainNeverRevisits(paths: seq<Path>, c: seq<Path>)
    requires Snapshot(paths) && Chain(paths, c)
    ensures forall i, j :: 0 <= i < j < |c| ==> c[i].id != c[j].id
    ensures |c| <= |paths|
  {
    forall i, j | 0 <= i < j < |c|
      ensures c[i].id != c[j].id
    {
      ChainImproves(paths, c, i, j);
    }
    forall p | p in c
      ensures p in paths
    {
      var i :| 0 <= i < |c| && c[i] == p;
    }
    DistinctFit(c, paths);
  }

  // ------------------------------------------------------ when a stream moves

  // A dead home is left exactly when anything is alive.
  lemma DeadHomeMovesIff(paths: seq<Path>, cur: Path)
    requires Snapshot(paths) && cur in paths && !cur.Alive()
    ensures FailbackTarget(paths, cur).Some? <==> exists p :: p in paths && p.Alive()
  {
    if FailbackTarget(paths, cur).Some? {
      ClassEmptyRaisesRank(paths, cur);
      HopLandsElsewhere(paths, cur);
      assert FailbackTarget(paths, cur).value.to in paths;
    } else {
      FastestPick(paths);
      NoOtherChoice(paths, cur);
    }
  }

  lemma NoneMeansNoneElsewhere(paths: seq<Path>, cur: Path)
    requires !cur.Schedulable() && FailbackTarget(paths, cur).None?
    ensures Elsewhere(paths, cur).None?
  {
  }

  lemma NoneElsewhere(paths: seq<Path>, cur: Path)
    requires !cur.Alive() && Elsewhere(paths, cur).None?
    ensures var any := Pick(FastestClassSet(paths)); any.None? || any.value.id == cur.id
  {
  }

  lemma NoOtherChoice(paths: seq<Path>, cur: Path)
    requires !cur.Alive() && FailbackTarget(paths, cur).None?
    ensures var any := Pick(FastestClassSet(paths)); any.None? || any.value.id == cur.id
  {
    NoneMeansNoneElsewhere(paths, cur);
    NoneElsewhere(paths, cur);
  }

  // An alive but unusable home is left exactly when its own link has a usable
  // path or the one path picked among those in class is not slower.
  lemma UnusableHomeMovesIff(paths: seq<Path>, cur: Path)
    requires cur.Alive() && !cur.Schedulable()
    ensures FailbackTarget(paths, cur).Some? <==>
            || (exists p :: p in paths && p.id != cur.id && p.Schedulable() && p.Link() == cur.Link())
            || (var pick := Pick(InClassOrBetter(paths, cur)); pick.Some? && Effective(pick.value) <= Effective(cur))
  {
    var pick := Pick(InClassOrBetter(paths, cur));
    var sibs := Filter(paths, (p: Path) => p.id != cur.id && p.Schedulable() && p.Link() == cur.Link());
    if sibs != [] {
      assert sibs[0] in paths;
    }
    if pick.Some? {
      assert pick.value in paths;
    }
  }

  const Home := Path(1, "a", Degraded, false, false, 100000, 100000, 0, 0, 0, 0)
  const Busy := Path(2, "b", Up, false, false, 100000, 100000, 0, 10, 0, 0)
  const Idle := Path(3, "c", Up, false, false, 110000, 110000, 0, 0, 0, 0)

  lemma IdleScoresLower()
    ensures Better(Idle, Busy)
  {
    assert Score(Idle) == 110000 * 1024 + 110000;
    assert Score(Busy) == 1100000 * 1024 + 1100000;
  }

  lemma IdleIsPicked()
    ensures Pick(InClassOrBetter([Home, Busy, Idle], Home)) == Some(Idle)
  {
    var near := InClassOrBetter([Home, Busy, Idle], Home);
    assert forall p :: p in near ==> p == Busy || p == Idle;
    assert Idle in near;
    assert Idle in FreshOrAll(near);
    IdleScoresLower();
  }

  // When the pick is slower and off the link, an alive home with no usable
  // path on its own link keeps its streams.
  lemma SlowerPickIsRefused(paths: seq<Path>, cur: Path, pick: Path)
    requires cur.Alive() && !cur.Schedulable()
    requires Pick(InClassOrBetter(paths, cur)) == Some(pick) && Effective(pick) > Effective(cur)
    requires forall p :: p in paths && p.Schedulable() ==> p.Link() != cur.Link()
    ensures FailbackTarget(paths, cur).None?
  {
    UnusableHomeMovesIff(paths, cur);
  }

  // The load in the score can hide a path as fast as the home: the pick falls
  // on an idle slower one, which is then refused, and the stream stays put.
  lemma UnusableHomeMayStay()
    ensures Home.Alive() && !Home.Schedulable()
    ensures Busy.Schedulable() && Effective(Busy) <= Effective(Home)
    ensures FailbackTarget([Home, Busy, Idle], Home).None?
  {
    IdleIsPicked();
    LinksDiffer();
    IdleIsSlower();
    SlowerPickIsRefused([Home, Busy, Idle], Home, Idle);
  }

  lemma LinksDiffer()
    ensures forall p :: p in [Home, Busy, Idle] && p.Schedulable() ==> p.Link() != Home.Link()
  {
    assert Home.Link() == "a" && Busy.Link() == "b" && Idle.Link() == "c";
  }

  lemma IdleIsSlower()
    ensures Effective(Idle) > Effective(Home) == Effective(Busy)
  {
  }
}
