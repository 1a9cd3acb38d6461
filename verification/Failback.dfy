// Where a stream's home path fails back (crates/nya-core/src/scheduler.rs,
// crates/nya-core/src/tuning.rs, crates/nya-core/src/health.rs).
//
// One snapshot of the paths, times in microseconds. Multiplications by 1.5 and
// 0.45 are exact fractions here.
module Failback {
  import opened Common

  const UNKNOWN_RTT: nat := 20000
  const UNKNOWN_SCORE_MULT: nat := 2
  const INFLIGHT_BIAS: nat := 65536
  const U64_MAX: nat := 0xFFFF_FFFF_FFFF_FFFF

  datatype PathState = Up | Degraded | Down

  // `fast` and `frozen` (the class RTT) are 0 while there is no estimate.
  datatype Path = Path(
    id: nat,
    name: string,
    state: PathState,
    congested: bool,
    stalled: bool,
    fast: nat,
    frozen: nat,
    inflight: nat,
    sticky: nat,
    lastRxAgo: nat,
    stableFor: nat)
  {
    predicate Alive() { state != Down }

    predicate Schedulable() { state == Up && !congested && !stalled }

    predicate RttKnown() { fast != 0 }

    predicate ClassKnown() { frozen != 0 }

    function Rtt(): nat { if fast == 0 then UNKNOWN_RTT else fast }

    function ClassRtt(): nat { if frozen == 0 then Rtt() else frozen }

    function Link(): string { LinkKey(name) }
  }

  // A link's name with its connection number cut off at the last '#'.
  function LinkKey(name: string): string {
    if '#' !in name then name
    else if name[|name| - 1] == '#' then name[..|name| - 1]
    else LinkKey(name[..|name| - 1])
  }

  // ------------------------------------------------------------ thresholds

  predicate ClassJump(current: nat, better: nat) {
    current >= 3 * better / 2 + 8000
  }

  function FailbackDelta(better: nat): nat {
    Max(8000, 45 * better / 100)
  }

  predicate ShouldFailback(current: nat, better: nat) {
    better < current && (ClassJump(current, better) || current - better >= FailbackDelta(better))
  }

  predicate IsBackup(rtt: nat, least: nat) {
    rtt > 2 * least + 20000
  }

  function FailbackStable(rtt: nat): nat {
    Max(250000, 2 * rtt)
  }

  function LossTimeout(rtt: nat): nat {
    Clamp(2 * rtt, 20000, 2000000)
  }

  // A class that is stale-high against the fast estimate yields to it.
  function Effective(p: Path): nat {
    if p.ClassKnown() && ShouldFailback(p.ClassRtt(), p.Rtt()) then p.Rtt() else p.ClassRtt()
  }

  // -------------------------------------------------------------- class sets

  function Filter(paths: seq<Path>, keep: Path -> bool): (r: seq<Path>)
    ensures forall p :: p in r <==> p in paths && keep(p)
  {
    if paths == [] then []
    else (if keep(paths[0]) then [paths[0]] else []) + Filter(paths[1..], keep)
  }

  // The first choice unless it is empty.
  function OrElse(first: seq<Path>, second: seq<Path>): seq<Path> {
    if first != [] then first else second
  }

  function LeastEffective(paths: seq<Path>): (r: nat)
    requires paths != []
    ensures forall p :: p in paths ==> r <= Effective(p)
    ensures exists p :: p in paths && r == Effective(p)
  {
    if |paths| == 1 then Effective(paths[0])
    else
      var rest := LeastEffective(paths[1..]);
      assert forall p :: p in paths ==> p == paths[0] || p in paths[1..];
      Min(Effective(paths[0]), rest)
  }

  function Settled(paths: seq<Path>): seq<Path> {
    OrElse(Filter(paths, (p: Path) => p.ClassKnown()), Filter(paths, (p: Path) => p.RttKnown()))
  }

  function MinClassRtt(alive: seq<Path>): nat
    requires alive != []
  {
    LeastEffective(OrElse(Settled(alive), alive))
  }

  function Candidates(paths: seq<Path>): seq<Path> {
    var alive := Filter(paths, (p: Path) => p.Alive());
    if alive == [] then []
    else
      var least := MinClassRtt(alive);
      OrElse(Filter(alive, (p: Path) => p.Schedulable() && p.RttKnown() && !IsBackup(Effective(p), least)),
             OrElse(Filter(alive, (p: Path) => p.Schedulable()),
                    OrElse(Filter(alive, (p: Path) => p.state == Up), alive)))
  }

  function FastestOf(cands: seq<Path>): seq<Path> {
    if Settled(cands) == [] then cands
    else
      var best := LeastEffective(Settled(cands));
      OrElse(Filter(cands, (p: Path) => !ShouldFailback(if p.ClassKnown() then Effective(p) else p.Rtt(), best)), cands)
  }

  function FastestClassSet(paths: seq<Path>): seq<Path> {
    FastestOf(Candidates(paths))
  }

  // ------------------------------------------------------------------- score

  function SatMul(a: nat, b: nat): nat {
    Min(a * b, U64_MAX)
  }

  function Score(p: Path): (r: nat)
    ensures r <= U64_MAX
  {
    var load := 1 + p.inflight / INFLIGHT_BIAS + p.sticky;
    var fast := if p.RttKnown() then p.Rtt() else SatMul(p.Rtt(), UNKNOWN_SCORE_MULT);
    Min(SatMul(SatMul(p.ClassRtt(), load), 1024) + SatMul(fast, load), U64_MAX)
  }

  // Lower score, then a known estimate, then the lower id.
  predicate Better(a: Path, b: Path) {
    || Score(a) < Score(b)
    || (Score(a) == Score(b) && a.RttKnown() && !b.RttKnown())
    || (Score(a) == Score(b) && a.RttKnown() == b.RttKnown() && a.id < b.id)
  }

  function Best(cands: seq<Path>): (r: Path)
    requires cands != []
    ensures r in cands && forall c :: c in cands ==> !Better(c, r)
  {
    var last := cands[|cands| - 1];
    if |cands| == 1 then last
    else
      var b := Best(cands[..|cands| - 1]);
      assert forall c :: c in cands ==> c == last || c in cands[..|cands| - 1];
      if Better(last, b) then last else b
  }

  method PickFromScored(cands: seq<Path>) returns (r: Option<nat>)
    ensures r == if cands == [] then None else Some(Best(cands).id)
  {
    if cands == [] {
      return None;
    }
    var bestId, bestScore, bestKnown := cands[0].id, U64_MAX, cands[0].RttKnown();
    for i := 0 to |cands|
      invariant i == 0 ==> bestId == cands[0].id && bestScore == U64_MAX && bestKnown == cands[0].RttKnown()
      invariant i > 0 ==> var b := Best(cands[..i]); bestId == b.id && bestScore == Score(b) && bestKnown == b.RttKnown()
    {
      var score, known := Score(cands[i]), cands[i].RttKnown();
      assert cands[..i + 1][..i] == cands[..i];
      if score < bestScore || (score == bestScore && known && !bestKnown) ||
         (score == bestScore && known == bestKnown && cands[i].id < bestId) {
        bestScore, bestId, bestKnown := score, cands[i].id, known;
      }
    }
    assert cands[..|cands|] == cands;
    r := Some(bestId);
  }

  function FreshOrAll(cands: seq<Path>): seq<Path> {
    OrElse(Filter(cands, (p: Path) => p.lastRxAgo < LossTimeout(Min(p.Rtt(), p.ClassRtt()))), cands)
  }

  function Pick(cands: seq<Path>): (r: Option<Path>)
    ensures r.None? <==> cands == []
    ensures r.Some? ==> r.value in cands
  {
    if cands == [] then None else Some(Best(FreshOrAll(cands)))
  }

  // ---------------------------------------------------------------- failback

  datatype Reason = Upgrade | ClassEmpty

  datatype Hop = Hop(to: Path, reason: Reason)

  function InClassOrBetter(paths: seq<Path>, cur: Path): seq<Path> {
    Filter(paths, (p: Path) => p.Schedulable() && p.id != cur.id && !ShouldFailback(Effective(p), Effective(cur)))
  }

  function InClassOrBetterAlive(paths: seq<Path>, cur: Path): seq<Path> {
    Filter(paths, (p: Path) => p.Alive() && p.id != cur.id && !ShouldFailback(Effective(p), Effective(cur)))
  }

  predicate HasId(paths: seq<Path>, id: nat) {
    exists p :: p in paths && p.id == id
  }

  // Whether a usable home path gives way to `best`.
  predicate Upgrades(paths: seq<Path>, cur: Path, best: Path) {
    var fastest := FastestClassSet(paths);
    && best.ClassKnown()
    && (if HasId(fastest, cur.id) then ClassJump(Effective(cur), Effective(best))
        else |fastest| >= 2 && HasId(fastest, best.id) && ShouldFailback(Effective(cur), LeastEffective(fastest)))
    && best.stableFor >= FailbackStable(Effective(best))
  }

  // Where an unusable home path goes when no in-class path will do.
  function Elsewhere(paths: seq<Path>, cur: Path): Option<Hop> {
    var sibs := Filter(paths, (p: Path) => p.id != cur.id && p.Schedulable() && p.Link() == cur.Link());
    if sibs != [] then Some(Hop(Pick(sibs).value, ClassEmpty))
    else if cur.Alive() then None
    else
      var alive := Filter(InClassOrBetterAlive(paths, cur),
                          (p: Path) => p.Link() == cur.Link() || Effective(p) <= Effective(cur));
      if alive != [] then Some(Hop(Pick(alive).value, ClassEmpty))
      else
        var any := Pick(FastestClassSet(paths));
        if any.None? || any.value.id == cur.id then None else Some(Hop(any.value, ClassEmpty))
  }

  function FailbackTarget(paths: seq<Path>, cur: Path): Option<Hop> {
    var pick := Pick(InClassOrBetter(paths, cur));
    if cur.Schedulable() then
      if pick.Some? && Upgrades(paths, cur, pick.value) then Some(Hop(pick.value, Upgrade)) else None
    else if pick.Some? && (Effective(pick.value) <= Effective(cur) || pick.value.Link() == cur.Link()) then
      Some(Hop(pick.value, ClassEmpty))
    else
      Elsewhere(paths, cur)
  }

  // ------------------------------------------------------- what sets contain

  predicate UniqueIds(paths: seq<Path>) {
    forall p, q :: p in paths && q in paths && p.id == q.id ==> p == q
  }

  predicate Snapshot(paths: seq<Path>) {
    UniqueIds(paths) && forall p :: p in paths && p.ClassKnown() ==> p.RttKnown()
  }

  lemma FailbackMonotone(x: nat, y: nat, a: nat, b: nat)
    requires x <= y && a <= b && ShouldFailback(x, b)
    ensures ShouldFailback(y, a)
  {
  }

  lemma MembersAreNear(cands: seq<Path>, p: Path, q: Path)
    requires p in FastestOf(cands) && q in cands && q.ClassKnown()
    ensures !ShouldFailback(Effective(p), Effective(q))
  {
    var known := Filter(cands, (p: Path) => p.ClassKnown());
    assert q in known && Settled(cands) == known;
    var best := LeastEffective(known);
    var least :| least in known && Effective(least) == best;
    var near := Filter(cands, (p: Path) => !ShouldFailback(if p.ClassKnown() then Effective(p) else p.Rtt(), best));
    assert least in near;
    assert FastestOf(cands) == near;
    if ShouldFailback(Effective(p), Effective(q)) {
      FailbackMonotone(Effective(p), Effective(p), best, Effective(q));
    }
  }

  lemma CandidatesAre(paths: seq<Path>)
    ensures forall p :: p in Candidates(paths) ==> p in paths && p.Alive()
    ensures Candidates(paths) == [] <==> forall p :: p in paths ==> !p.Alive()
    ensures (exists p :: p in paths && p.Schedulable()) ==> forall p :: p in Candidates(paths) ==> p.Schedulable()
  {
    var alive := Filter(paths, (p: Path) => p.Alive());
    assert forall p :: p in Candidates(paths) ==> p in alive;
    if p :| p in paths && p.Schedulable() {
      assert p in alive && p in Filter(alive, (p: Path) => p.Schedulable());
    }
    if p :| p in paths && p.Alive() {
      assert p in alive && alive[0] in alive;
    }
  }

  lemma FastestAreCandidates(cands: seq<Path>)
    ensures forall p :: p in FastestOf(cands) ==> p in cands
    ensures FastestOf(cands) == [] <==> cands == []
  {
  }

  // The fastest class: alive paths only, nothing unusable while something is
  // usable, and no member that should fail back to another settled member.
  lemma FastestClassIsTight(paths: seq<Path>)
    ensures FastestClassSet(paths) == [] <==> forall p :: p in paths ==> !p.Alive()
    ensures forall p :: p in FastestClassSet(paths) ==> p in paths && p.Alive()
    ensures (exists p :: p in paths && p.Schedulable()) ==> forall p :: p in FastestClassSet(paths) ==> p.Schedulable()
    ensures forall p, q :: p in FastestClassSet(paths) && q in FastestClassSet(paths) && q.ClassKnown() ==>
              !ShouldFailback(Effective(p), Effective(q))
  {
    var cands := Candidates(paths);
    CandidatesAre(paths);
    FastestAreCandidates(cands);
    forall p, q | p in FastestClassSet(paths) && q in FastestClassSet(paths) && q.ClassKnown()
      ensures !ShouldFailback(Effective(p), Effective(q))
    {
      MembersAreNear(cands, p, q);
    }
  }
}
