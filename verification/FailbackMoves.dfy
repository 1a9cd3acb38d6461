// Exactly when a stream leaves its home path, and where it goes
// (crates/nya-core/src/scheduler.rs).
module FailbackMoves {
  import opened Common
  import opened Failback
  import opened FailbackRuns

  // ------------------------------------------------------------- one choice

  // Heard from within two round trips, which count as 20 ms to 2 s.
  predicate Recent(p: Path) {
    p.lastRxAgo < Clamp(2 * Min(p.Rtt(), p.ClassRtt()), 20000, 2000000)
  }

  // Of two candidates: class first, weighed by load, then the estimate; a tie
  // goes to the measured path, then to the older one.
  predicate Preferred(a: Path, b: Path) {
    || Score(a) < Score(b)
    || (Score(a) == Score(b) && ((a.RttKnown() && !b.RttKnown()) || (a.RttKnown() == b.RttKnown() && a.id <= b.id)))
  }

  // The one picked is heard from recently when any candidate is, and preferred
  // to every other candidate that may be picked.
  lemma PickIsPreferred(cands: seq<Path>)
    requires cands != [] && UniqueIds(cands)
    ensures Pick(cands).Some?
    ensures var p := Pick(cands).value;
            && p in cands && (Recent(p) || forall c :: c in cands ==> !Recent(c))
            && forall c :: c in cands && (Recent(c) || !Recent(p)) ==> Preferred(p, c)
  {
    var recent := Filter(cands, (p: Path) => p.lastRxAgo < LossTimeout(Min(p.Rtt(), p.ClassRtt())));
    var p := Pick(cands).value;
    if recent == [] {
      assert forall c :: c in cands && Recent(c) ==> c in recent;
    }
    forall c | c in cands && (Recent(c) || !Recent(p))
      ensures Preferred(p, c)
    {
      assert c in FreshOrAll(cands) && !Better(c, p);
    }
  }

  // A score below saturation: 1024 times the class and once the estimate, which
  // counts double while unknown, for every stream and 64 KiB in flight and one more.
  lemma ScoreIsWeighed(p: Path)
    requires Score(p) < U64_MAX
    ensures Score(p) == (1024 * p.ClassRtt() + (if p.fast == 0 then 40000 else p.fast)) * (1 + p.inflight / 65536 + p.sticky)
  {
    ScoreIs(p, 1 + p.inflight / INFLIGHT_BIAS + p.sticky);
  }

  // ---------------------------------------------------------- in microseconds

  // Half as slow again and 8 ms.
  predicate Jump(slow: nat, fast: nat) {
    slow >= 3 * fast / 2 + 8000
  }

  // Slower by a jump, or by 45 percent of the faster and at least 8 ms.
  predicate Slower(slow: nat, fast: nat) {
    fast < slow && (Jump(slow, fast) || slow - fast >= Max(8000, 45 * fast / 100))
  }

  // A frozen class holds unless the live estimate is so much faster.
  lemma EffectiveIs(p: Path)
    ensures p.frozen == 0 ==> Effective(p) == if p.fast == 0 then 20000 else p.fast
    ensures p.frozen != 0 ==>
              var live := if p.fast == 0 then 20000 else p.fast;
              Effective(p) == if Slower(p.frozen, live) then live else p.frozen
  {
  }

  // When the least settled path is usable, the fastest class is what is usable,
  // measured and not slower than it; being a backup never adds to that.
  lemma FastestClassInMicros(paths: seq<Path>, m: Path, p: Path)
    requires Snapshot(paths) && m in paths && m.Schedulable() && m.ClassKnown()
    requires forall q :: q in paths && q.Alive() && q.ClassKnown() ==> Effective(m) <= Effective(q)
    ensures p in FastestClassSet(paths) <==> p in paths && p.Schedulable() && p.fast != 0 && !Slower(Effective(p), Effective(m))
  {
    FastestClassIff(paths, m, p);
  }

  // `least` is the least effective RTT of those paths that fit.
  predicate IsLeast(paths: seq<Path>, f: Path -> bool, least: nat) {
    && (exists m :: m in paths && f(m) && least == Effective(m))
    && forall p :: p in paths && f(p) ==> least <= Effective(p)
  }

  lemma LeastOf(some: seq<Path>, paths: seq<Path>, f: Path -> bool)
    requires some != [] && forall p :: p in some <==> p in paths && f(p)
    ensures IsLeast(paths, f, LeastEffective(some))
  {
    var least := LeastEffective(some);
    var m :| m in some && least == Effective(m);
    assert m in paths && f(m);
  }

  // The least RTT alive is of the settled paths, else of the measured, else of all.
  lemma MinClassRttIs(alive: seq<Path>)
    requires alive != []
    ensures IsLeast(alive, if exists p :: p in alive && p.frozen != 0 then (p: Path) => p.frozen != 0
                           else if exists p :: p in alive && p.fast != 0 then (p: Path) => p.fast != 0
                           else (p: Path) => true, MinClassRtt(alive))
  {
    var known, measured := Filter(alive, (p: Path) => p.ClassKnown()), Filter(alive, (p: Path) => p.RttKnown());
    EmptyIff(known, alive, (p: Path) => p.frozen != 0);
    EmptyIff(measured, alive, (p: Path) => p.fast != 0);
    if known != [] {
      LeastOf(known, alive, (p: Path) => p.frozen != 0);
    } else if measured != [] {
      LeastOf(measured, alive, (p: Path) => p.fast != 0);
    } else {
      LeastOf(alive, alive, (p: Path) => true);
    }
  }

  // Worth having beside the least: usable, measured, and no more than 20 ms over
  // double of it.
  predicate Eligible(p: Path, least: nat) {
    p.Schedulable() && p.fast != 0 && Effective(p) <= 2 * least + 20000
  }

  // Where the fastest class is taken from: what is worth having beside the least
  // path alive, else what is usable, else what is up, else what is alive.
  lemma CandidatesIff(paths: seq<Path>, p: Path)
    requires exists q :: q in paths && q.Alive()
    ensures var alive := Filter(paths, (q: Path) => q.Alive());
            && alive != [] && var least := MinClassRtt(alive);
            p in Candidates(paths) <==>
            && p in paths
            && (if exists q :: q in paths && Eligible(q, least) then Eligible(p, least)
                else if exists q :: q in paths && q.Schedulable() then p.Schedulable()
                else if exists q :: q in paths && q.state == Up then p.state == Up
                else p.Alive())
  {
    var alive := Filter(paths, (q: Path) => q.Alive());
    var q :| q in paths && q.Alive();
    assert q in alive;
    TiersAre(paths, alive, MinClassRtt(alive), p);
  }

  lemma TiersAre(paths: seq<Path>, alive: seq<Path>, least: nat, p: Path)
    requires forall q :: q in alive <==> q in paths && q.Alive()
    ensures var good := Filter(alive, (q: Path) => q.Schedulable() && q.RttKnown() && !IsBackup(Effective(q), least));
            var usable, up := Filter(alive, (q: Path) => q.Schedulable()), Filter(alive, (q: Path) => q.state == Up);
            p in OrElse(good, OrElse(usable, OrElse(up, alive))) <==>
            && p in paths
            && (if exists q :: q in paths && Eligible(q, least) then Eligible(p, least)
                else if exists q :: q in paths && q.Schedulable() then p.Schedulable()
                else if exists q :: q in paths && q.state == Up then p.state == Up
                else p.Alive())
  {
    var good := Filter(alive, (q: Path) => q.Schedulable() && q.RttKnown() && !IsBackup(Effective(q), least));
    EmptyIff(good, paths, (q: Path) => Eligible(q, least));
    EmptyIff(Filter(alive, (q: Path) => q.Schedulable()), paths, (q: Path) => q.Schedulable());
    EmptyIff(Filter(alive, (q: Path) => q.state == Up), paths, (q: Path) => q.state == Up);
  }

  lemma EmptyIff(some: seq<Path>, paths: seq<Path>, f: Path -> bool)
    requires forall q :: q in some <==> q in paths && f(q)
    ensures some == [] <==> !exists q :: q in paths && f(q)
  {
    if some != [] {
      assert some[0] in some;
    }
  }

  // And it is those of them not slower than their own least, when any is measured.
  lemma FastestOfIff(cands: seq<Path>, p: Path)
    requires exists q :: q in cands && q.fast != 0
    requires forall q :: q in cands && q.frozen != 0 ==> q.fast != 0
    ensures Settled(cands) != []
    ensures p in FastestOf(cands) <==> p in cands && !Slower(Effective(p), LeastEffective(Settled(cands)))
  {
    SomeSettled(cands);
    NearestStay(cands, LeastEffective(Settled(cands)), p);
  }

  lemma NearestStay(cands: seq<Path>, best: nat, p: Path)
    requires exists m :: m in cands && best == Effective(m)
    ensures p in OrElse(Filter(cands, (q: Path) => !ShouldFailback(if q.ClassKnown() then Effective(q) else q.Rtt(), best)), cands) <==>
            p in cands && !Slower(Effective(p), best)
  {
    var near := Filter(cands, (q: Path) => !ShouldFailback(if q.ClassKnown() then Effective(q) else q.Rtt(), best));
    var m :| m in cands && best == Effective(m);
    EffectiveOfUnknown(m);
    assert m in near;
    EffectiveOfUnknown(p);
  }

  lemma SomeSettled(cands: seq<Path>)
    requires exists q :: q in cands && q.fast != 0
    ensures Settled(cands) != [] && exists m :: m in cands && LeastEffective(Settled(cands)) == Effective(m)
  {
    var measured := Filter(cands, (q: Path) => q.RttKnown());
    var q :| q in cands && q.fast != 0;
    assert q in measured;
    var best := LeastEffective(Settled(cands));
    var m :| m in Settled(cands) && best == Effective(m);
    assert m in cands;
  }

  lemma NoneFits(paths: seq<Path>, f: Path -> bool)
    requires forall p :: p in paths ==> !f(p)
    ensures Filter(paths, f) == []
  {
    if Filter(paths, f) != [] {
      assert Filter(paths, f)[0] in Filter(paths, f);
    }
  }

  // With nothing usable it is made of paths that are up, and failing that of
  // what is alive.
  lemma FastestClassFallsBack(paths: seq<Path>, up: Path)
    requires up in paths && up.state == Up && forall p :: p in paths ==> !p.Schedulable()
    ensures forall p :: p in FastestClassSet(paths) ==> p.state == Up
  {
    var alive := Filter(paths, (p: Path) => p.Alive());
    assert up in alive;
    var least := MinClassRtt(alive);
    NoneFits(alive, (p: Path) => p.Schedulable() && p.RttKnown() && !IsBackup(Effective(p), least));
    NoneFits(alive, (p: Path) => p.Schedulable());
    var ups := Filter(alive, (p: Path) => p.state == Up);
    assert up in ups;
    assert Candidates(paths) == ups;
    FastestAreCandidates(ups);
  }

  // ------------------------------------------------------- a home still usable

  // The usable paths a home is not too fast for.
  function NearHome(paths: seq<Path>, cur: Path): (near: seq<Path>)
    ensures forall p :: p in near <==> p in paths && p.Schedulable() && p.id != cur.id && !Slower(Effective(p), Effective(cur))
  {
    Filter(paths, (p: Path) => p.Schedulable() && p.id != cur.id && !Slower(Effective(p), Effective(cur)))
  }

  lemma NearHomeIs(paths: seq<Path>, cur: Path)
    ensures InClassOrBetter(paths, cur) == NearHome(paths, cur)
  {
    SameFilter(paths, (p: Path) => p.Schedulable() && p.id != cur.id && !Slower(Effective(p), Effective(cur)),
               (p: Path) => p.Schedulable() && p.id != cur.id && !ShouldFailback(Effective(p), Effective(cur)));
  }

  lemma {:induction false} SameFilter(paths: seq<Path>, f: Path -> bool, g: Path -> bool)
    requires forall p :: f(p) == g(p)
    ensures Filter(paths, f) == Filter(paths, g)
  {
    if paths != [] {
      SameFilter(paths[1..], f, g);
    }
  }

  lemma LeastIsEnough(paths: seq<Path>, c: nat)
    requires paths != []
    ensures ShouldFailback(c, LeastEffective(paths)) <==> exists q :: q in paths && Slower(c, Effective(q))
  {
    var m := LeastEffective(paths);
    if q :| q in paths && Slower(c, Effective(q)) {
      FailbackMonotone(c, c, m, Effective(q));
    }
  }

  lemma HasIdIsMember(paths: seq<Path>, some: seq<Path>, p: Path)
    requires UniqueIds(paths) && p in paths && forall q :: q in some ==> q in paths
    ensures HasId(some, p.id) <==> p in some
  {
  }

  // Whether `to`, picked for a usable home, is worth the move: its class is
  // settled and it has been up for two of its round trips and a quarter second,
  // and either home is in the fastest class and a jump slower than it, or home is
  // outside, `to` is inside with another member, and home is slower than a member.
  predicate WorthIt(fastest: seq<Path>, cur: Path, to: Path) {
    && to.frozen != 0
    && to.stableFor >= Max(250000, 2 * Effective(to))
    && (if cur in fastest then Jump(Effective(cur), Effective(to))
        else |fastest| >= 2 && to in fastest && exists q :: q in fastest && Slower(Effective(cur), Effective(q)))
  }

  lemma SettledLongEnoughIff(to: Path)
    ensures to.ClassKnown() && to.stableFor >= FailbackStable(Effective(to)) <==>
            to.frozen != 0 && to.stableFor >= Max(250000, 2 * Effective(to))
  {
  }

  lemma LeavesOutsideIff(fastest: seq<Path>, cur: Path, to: Path)
    requires HasId(fastest, to.id) <==> to in fastest
    ensures |fastest| >= 2 && HasId(fastest, to.id) && ShouldFailback(Effective(cur), LeastEffective(fastest)) <==>
            |fastest| >= 2 && to in fastest && exists q :: q in fastest && Slower(Effective(cur), Effective(q))
  {
    if |fastest| >= 2 {
      LeastIsEnough(fastest, Effective(cur));
    }
  }

  lemma UpgradesIff(paths: seq<Path>, cur: Path, to: Path)
    requires Snapshot(paths) && cur in paths && to in paths
    ensures Upgrades(paths, cur, to) <==> WorthIt(FastestClassSet(paths), cur, to)
  {
    var fastest := FastestClassSet(paths);
    FastestClassIsTight(paths);
    HasIdIsMember(paths, fastest, cur);
    HasIdIsMember(paths, fastest, to);
    SettledLongEnoughIff(to);
    LeavesOutsideIff(fastest, cur, to);
  }

  // A usable home is left exactly for the pick among those paths, when it is
  // worth the move.
  lemma UsableHomeMovesIff(paths: seq<Path>, cur: Path)
    requires Snapshot(paths) && cur in paths && cur.Schedulable()
    ensures var pick := Pick(NearHome(paths, cur));
            FailbackTarget(paths, cur) ==
            if pick.Some? && WorthIt(FastestClassSet(paths), cur, pick.value) then Some(Hop(pick.value, Upgrade)) else None
  {
    NearHomeIs(paths, cur);
    var pick := Pick(InClassOrBetter(paths, cur));
    if pick.Some? {
      assert pick.value in NearHome(paths, cur);
      UpgradesIff(paths, cur, pick.value);
    }
  }

  // ------------------------------------------------------- a home not usable

  // The usable paths of its own link.
  function LinkSiblings(paths: seq<Path>, cur: Path): (sibs: seq<Path>)
    ensures forall p :: p in sibs <==> p in paths && p.Schedulable() && p.id != cur.id && p.Link() == cur.Link()
  {
    Filter(paths, (p: Path) => p.Schedulable() && p.id != cur.id && p.Link() == cur.Link())
  }

  // What is alive, and not slower or at least on its link and not much slower.
  function LivingNear(paths: seq<Path>, cur: Path): (living: seq<Path>)
    ensures forall p :: p in living <==> && p in paths && p.Alive() && p.id != cur.id && !Slower(Effective(p), Effective(cur))
                                         && (p.Link() == cur.Link() || Effective(p) <= Effective(cur))
  {
    Filter(paths, (p: Path) => p.Alive() && p.id != cur.id && !Slower(Effective(p), Effective(cur))
                               && (p.Link() == cur.Link() || Effective(p) <= Effective(cur)))
  }

  lemma LinkSiblingsAre(paths: seq<Path>, cur: Path)
    ensures Filter(paths, (p: Path) => p.id != cur.id && p.Schedulable() && p.Link() == cur.Link()) == LinkSiblings(paths, cur)
  {
    SameFilter(paths, (p: Path) => p.Schedulable() && p.id != cur.id && p.Link() == cur.Link(),
               (p: Path) => p.id != cur.id && p.Schedulable() && p.Link() == cur.Link());
  }

  function LastResort(paths: seq<Path>, cur: Path): Option<Path> {
    if LivingNear(paths, cur) != [] then Pick(LivingNear(paths, cur)) else Pick(FastestClassSet(paths))
  }

  function HopTo(to: Option<Path>, cur: Path): Option<Hop> {
    if to.None? || to.value.id == cur.id then None else Some(Hop(to.value, ClassEmpty))
  }

  lemma ElsewhereIs(paths: seq<Path>, cur: Path)
    ensures var sibs := LinkSiblings(paths, cur);
            Elsewhere(paths, cur) ==
            HopTo(if sibs != [] then Pick(sibs) else if cur.state != Down then None else LastResort(paths, cur), cur)
  {
    LinkSiblingsAre(paths, cur);
    LivingIs(paths, cur);
    if LinkSiblings(paths, cur) != [] {
      assert Pick(LinkSiblings(paths, cur)).value.id != cur.id;
    } else if LivingNear(paths, cur) != [] {
      assert Pick(LivingNear(paths, cur)).value.id != cur.id;
    }
  }

  // Where such a home goes, in order: to the pick of the usable paths it is not
  // too fast for, if that is no slower or on the same link; to the pick of its
  // link's usable paths; and only when dead to the pick of what is alive and
  // near, and at last to the pick of the fastest class.
  lemma UnusableHomeGoesTo(paths: seq<Path>, cur: Path)
    requires !cur.Schedulable()
    ensures var near, sibs := NearHome(paths, cur), LinkSiblings(paths, cur);
            FailbackTarget(paths, cur) ==
            HopTo(if near != [] && (Effective(Pick(near).value) <= Effective(cur) || Pick(near).value.Link() == cur.Link()) then Pick(near)
                  else if sibs != [] then Pick(sibs)
                  else if cur.state != Down then None
                  else LastResort(paths, cur), cur)
  {
    NearHomeIs(paths, cur);
    ElsewhereIs(paths, cur);
    if NearHome(paths, cur) != [] {
      assert Pick(NearHome(paths, cur)).value.id != cur.id;
    }
  }

  lemma {:induction false} TwiceFiltered(paths: seq<Path>, f: Path -> bool, g: Path -> bool)
    ensures Filter(Filter(paths, f), g) == Filter(paths, (p: Path) => f(p) && g(p))
  {
    if paths != [] {
      TwiceFiltered(paths[1..], f, g);
      FilterJoins(if f(paths[0]) then [paths[0]] else [], Filter(paths[1..], f), g);
    }
  }

  lemma {:induction false} FilterJoins(a: seq<Path>, b: seq<Path>, f: Path -> bool)
    ensures Filter(a + b, f) == Filter(a, f) + Filter(b, f)
  {
    if a == [] {
      assert a + b == b;
    } else {
      assert (a + b)[1..] == a[1..] + b;
      FilterJoins(a[1..], b, f);
    }
  }

  lemma LivingIs(paths: seq<Path>, cur: Path)
    ensures Filter(InClassOrBetterAlive(paths, cur), (p: Path) => p.Link() == cur.Link() || Effective(p) <= Effective(cur)) ==
            LivingNear(paths, cur)
  {
    var f := (p: Path) => p.Alive() && p.id != cur.id && !ShouldFailback(Effective(p), Effective(cur));
    var g := (p: Path) => p.Link() == cur.Link() || Effective(p) <= Effective(cur);
    TwiceFiltered(paths, f, g);
    SameFilter(paths, (p: Path) => f(p) && g(p),
               (p: Path) => p.Alive() && p.id != cur.id && !Slower(Effective(p), Effective(cur))
                            && (p.Link() == cur.Link() || Effective(p) <= Effective(cur)));
  }

  // The link of a numbered connection is its name up to the last '#'.
  lemma {:induction false} LinkOfNumbered(link: string, number: string)
    requires '#' !in number
    ensures LinkKey(link + "#" + number) == link
    decreases |number|
  {
    var name := link + "#" + number;
    assert name[|link|] == '#';
    if number == [] {
      assert name[..|name| - 1] == link;
    } else {
      assert name[|name| - 1] == number[|number| - 1];
      assert name[..|name| - 1] == link + "#" + number[..|number| - 1];
      LinkOfNumbered(link, number[..|number| - 1]);
    }
  }
}
