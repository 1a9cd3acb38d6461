// The pending acknowledgements of one path (crates/nya-core/src/path.rs): one
// row per stream, taken in batches by the writer and put back when it fails.
module AckRegister {
  import opened Common

  const ACK_FLUSH_K: nat := 8

  type Stream = nat

  // `window` stands for everything but the offset.
  datatype Ack = Ack(stream: Stream, off: nat, window: nat)

  type Rows = map<Stream, Ack>

  predicate Keyed(rows: Rows) {
    forall s :: s in rows ==> rows[s].stream == s
  }

  // A row already there stays only when its offset is strictly greater.
  function Merged(rows: Rows, a: Ack): Rows {
    if a.stream in rows && rows[a.stream].off > a.off then rows else rows[a.stream := a]
  }

  function MergedAll(rows: Rows, acks: seq<Ack>): Rows
    decreases |acks|
  {
    if acks == [] then rows else MergedAll(Merged(rows, acks[0]), acks[1..])
  }

  // What a failed or finished writer puts back: the row being written, then the
  // rest of its batch.
  function Restored(rows: Rows, flight: Option<Ack>, rest: seq<Ack>): Rows {
    MergedAll(if flight.Some? then Merged(rows, flight.value) else rows, rest)
  }

  // A batch: up to eight different rows, in whatever order the table yields.
  predicate Batch(rows: Rows, ids: seq<Stream>) {
    && |ids| == Min(ACK_FLUSH_K, |rows|)
    && (forall i :: 0 <= i < |ids| ==> ids[i] in rows)
    && (forall i, j :: 0 <= i < j < |ids| ==> ids[i] != ids[j])
  }

  function RowsOf(rows: Rows, ids: seq<Stream>): (r: seq<Ack>)
    requires forall i :: 0 <= i < |ids| ==> ids[i] in rows
    ensures |r| == |ids| && forall i :: 0 <= i < |ids| ==> r[i] == rows[ids[i]]
  {
    seq(|ids|, i requires 0 <= i < |ids| => rows[ids[i]])
  }

  lemma OneRowLess(rows: Rows, id: Stream)
    requires id in rows
    ensures |rows - {id}| == |rows| - 1
  {
    var fewer := rows - {id};
    assert fewer.Keys == rows.Keys - {id};
    assert |fewer| == |fewer.Keys| && |rows| == |rows.Keys|;
  }

  // Distinct rows of the register, with what they say.
  ghost predicate Out(all: Rows, ids: seq<Stream>, taken: seq<Ack>) {
    && |taken| == |ids|
    && (forall i :: 0 <= i < |ids| ==> ids[i] in all && taken[i] == all[ids[i]])
    && (forall i, j :: 0 <= i < j < |ids| ==> ids[i] != ids[j])
  }

  lemma WithoutAll(all: Rows, ids: seq<Stream>, id: Stream)
    ensures all - (set i | i in ids) - {id} == all - (set i | i in ids + [id])
  {
    assert (set i | i in ids + [id]) == (set i | i in ids) + {id};
  }

  lemma OneMoreOut(all: Rows, ids: seq<Stream>, taken: seq<Ack>, rows: Rows, id: Stream)
    requires Out(all, ids, taken) && rows == all - (set i | i in ids) && id in rows
    ensures Out(all, ids + [id], taken + [rows[id]])
    ensures rows - {id} == all - (set i | i in ids + [id])
    ensures |rows - {id}| == |rows| - 1
  {
    OneRowLess(rows, id);
    assert id !in ids && rows[id] == all[id];
    WithoutAll(all, ids, id);
  }

  class PathAcks {
    var rows: Rows

    constructor ()
      ensures rows == map[]
    {
      rows := map[];
    }

    method MergeAck(a: Ack)
      modifies this
      ensures rows == Merged(old(rows), a)
    {
      if a.stream in rows && rows[a.stream].off > a.off {
        return;
      }
      rows := rows[a.stream := a];
    }

    method RestoreAcks(acks: seq<Ack>)
      modifies this
      ensures rows == MergedAll(old(rows), acks)
    {
      for i := 0 to |acks|
        invariant MergedAll(rows, acks[i..]) == MergedAll(old(rows), acks)
      {
        MergeAck(acks[i]);
        assert acks[i..][1..] == acks[i + 1..];
      }
    }

    method TakeAcks(k: nat) returns (ids: seq<Stream>, taken: seq<Ack>)
      modifies this
      ensures |ids| == Min(k, |old(rows)|) && Out(old(rows), ids, taken)
      ensures rows == old(rows) - (set i | i in ids)
    {
      ids, taken := [], [];
      while |ids| < k && rows != map[]
        invariant |ids| <= k && Out(old(rows), ids, taken)
        invariant rows == old(rows) - (set i | i in ids)
        invariant |rows| + |ids| == |old(rows)|
        decreases k - |ids|
      {
        var id :| id in rows;
        OneMoreOut(old(rows), ids, taken, rows, id);
        ids, taken := ids + [id], taken + [rows[id]];
        rows := rows - {id};
      }
      assert rows == map[] ==> |rows| == 0;
    }

    // The writer's acknowledgement arm: each answer says whether the row went
    // out; the first that did not ends the arm, and its guard puts it and the
    // rows after it back.
    method FlushAcks(answers: seq<bool>) returns (ids: seq<Stream>, sent: nat)
      requires |answers| >= ACK_FLUSH_K
      modifies this
      ensures Batch(old(rows), ids) && sent <= |ids|
      ensures forall i :: 0 <= i < sent ==> answers[i]
      ensures sent < |ids| ==> !answers[sent]
      ensures rows == MergedAll(old(rows) - (set i | i in ids), RowsOf(old(rows), ids)[sent..])
    {
      var taken;
      ids, taken := TakeAcks(ACK_FLUSH_K);
      assert taken == RowsOf(old(rows), ids);
      sent := 0;
      while sent < |taken| && answers[sent]
        invariant sent <= |taken| && forall i :: 0 <= i < sent ==> answers[i]
      {
        sent := sent + 1;
      }
      RestoreAcks(taken[sent..]);
    }
  }

  // ----------------------------------------------------------- what a merge does

  // `rows` has an acknowledgement of the stream at least this far.
  predicate Covers(rows: Rows, s: Stream, off: nat) {
    s in rows && rows[s].off >= off
  }

  // No row is lost or goes back.
  ghost predicate NoLower(rows: Rows, t: Rows) {
    forall s :: s in rows ==> Covers(t, s, rows[s].off)
  }

  lemma MergeCovers(rows: Rows, a: Ack)
    requires Keyed(rows)
    ensures Keyed(Merged(rows, a)) && NoLower(rows, Merged(rows, a)) && Covers(Merged(rows, a), a.stream, a.off)
  {
  }

  lemma CoversOn(rows: Rows, m: Rows, t: Rows)
    requires NoLower(rows, m) && NoLower(m, t)
    ensures NoLower(rows, t)
  {
    forall s | s in rows
      ensures Covers(t, s, rows[s].off)
    {
      assert Covers(m, s, rows[s].off) && Covers(t, s, m[s].off);
    }
  }

  lemma {:induction false} RestoreNeverLowers(rows: Rows, acks: seq<Ack>)
    requires Keyed(rows)
    ensures Keyed(MergedAll(rows, acks)) && NoLower(rows, MergedAll(rows, acks))
    ensures forall a :: a in acks ==> Covers(MergedAll(rows, acks), a.stream, a.off)
    ensures forall s :: s in MergedAll(rows, acks) ==>
              (s in rows && MergedAll(rows, acks)[s] == rows[s]) || MergedAll(rows, acks)[s] in acks
    decreases |acks|
  {
    if acks != [] {
      var m := Merged(rows, acks[0]);
      var t := MergedAll(m, acks[1..]);
      RestoreNeverLowers(m, acks[1..]);
      MergeCovers(rows, acks[0]);
      CoversOn(rows, m, t);
      assert Covers(m, acks[0].stream, acks[0].off) && Covers(t, acks[0].stream, m[acks[0].stream].off);
      forall a | a in acks
        ensures Covers(MergedAll(rows, acks), a.stream, a.off)
      {
        assert a == acks[0] || a in acks[1..];
      }
    }
  }

  // A row made after the taken one survives its restore exactly when it moved
  // the offset; at an equal offset the older window and ranges replace it.
  lemma NewerSurvivesIff(rows: Rows, older: Ack)
    requires older.stream in rows && rows[older.stream] != older
    ensures Merged(rows, older) == rows <==> rows[older.stream].off > older.off
  {
    if rows[older.stream].off <= older.off {
      assert Merged(rows, older)[older.stream] == older;
    }
  }

  // ------------------------------------------------------ one path's writer

  // `sent` and `high` are history: the rows written out, and the furthest
  // offset given to the register for each stream.
  datatype System = System(rows: Rows, flight: Option<Ack>, rest: seq<Ack>, busy: bool, sent: set<Ack>, high: map<Stream, nat>)

  // Merge is a retry or another path's rows coming in; Store is the session's
  // plain overwrite. The guard may be dropped at any point of its life.
  datatype Action =
    | Merge(a: Ack)
    | Store(a: Ack)
    | Take(ids: seq<Stream>)
    | Pop
    | SendOk
    | DropGuard

  function Init(): System {
    System(map[], None, [], false, {}, map[])
  }

  function Raised(high: map<Stream, nat>, a: Ack): map<Stream, nat> {
    high[a.stream := if a.stream in high then Max(high[a.stream], a.off) else a.off]
  }

  function Step(s: System, x: Action): Option<System> {
    match x
    case Merge(a) => Some(s.(rows := Merged(s.rows, a), high := Raised(s.high, a)))
    case Store(a) => Some(s.(rows := s.rows[a.stream := a], high := Raised(s.high, a)))
    case Take(ids) =>
      if !s.busy && Batch(s.rows, ids) then
        Some(s.(rows := s.rows - (set i | i in ids), rest := RowsOf(s.rows, ids), busy := true))
      else None
    case Pop =>
      if s.busy && s.flight.None? && s.rest != [] then Some(s.(flight := Some(s.rest[0]), rest := s.rest[1..])) else None
    case SendOk =>
      if s.busy && s.flight.Some? then Some(s.(flight := None, sent := s.sent + {s.flight.value})) else None
    case DropGuard =>
      if s.busy then Some(s.(rows := Restored(s.rows, s.flight, s.rest), flight := None, rest := [], busy := false)) else None
  }

  function Run(s: System, xs: seq<Action>): Option<System>
    decreases |xs|
  {
    if xs == [] then Some(s)
    else
      match Step(s, xs[0])
      case None => None
      case Some(t) => Run(t, xs[1..])
  }

  // Somewhere there is an acknowledgement of the stream at least this far.
  ghost predicate Kept(s: System, stream: Stream, off: nat) {
    || (exists a :: a in s.sent && a.stream == stream && a.off >= off)
    || (s.flight.Some? && s.flight.value.stream == stream && s.flight.value.off >= off)
    || (exists a :: a in s.rest && a.stream == stream && a.off >= off)
    || Covers(s.rows, stream, off)
  }

  ghost predicate Inv(s: System) {
    && Keyed(s.rows)
    && (!s.busy ==> s.flight.None? && s.rest == [])
    && forall st :: st in s.high ==> Kept(s, st, s.high[st])
  }

  // An overwrite that goes back.
  predicate Lowers(s: System, x: Action) {
    x.Store? && x.a.stream in s.rows && s.rows[x.a.stream].off > x.a.off
  }

  lemma KeptAfterRows(s: System, t: System, stream: Stream, off: nat)
    requires Kept(s, stream, off) && NoLower(s.rows, t.rows)
    requires t.sent == s.sent && t.flight == s.flight && t.rest == s.rest
    ensures Kept(t, stream, off)
  {
  }

  lemma PutKeeps(s: System, x: Action)
    requires Inv(s) && (x.Merge? || x.Store?) && !Lowers(s, x)
    ensures Inv(Step(s, x).value)
  {
    var t := Step(s, x).value;
    forall st | st in t.high
      ensures Kept(t, st, t.high[st])
    {
      if st in s.high {
        KeptAfterRows(s, t, st, s.high[st]);
      }
    }
  }

  lemma TakeKeeps(s: System, ids: seq<Stream>)
    requires Inv(s) && Step(s, Take(ids)).Some?
    ensures Inv(Step(s, Take(ids)).value)
  {
    var t := Step(s, Take(ids)).value;
    forall st | st in t.high
      ensures Kept(t, st, t.high[st])
    {
      if Covers(s.rows, st, s.high[st]) && st in ids {
        var i :| 0 <= i < |ids| && ids[i] == st;
        assert t.rest[i] in t.rest && t.rest[i].stream == st;
      }
    }
  }

  lemma WriteKeeps(s: System, x: Action)
    requires Inv(s) && (x.Pop? || x.SendOk?) && Step(s, x).Some?
    ensures Inv(Step(s, x).value)
  {
    var t := Step(s, x).value;
    forall st | st in t.high
      ensures Kept(t, st, t.high[st])
    {
      if x.Pop? && exists a :: a in s.rest && a.stream == st && a.off >= s.high[st] {
        var a :| a in s.rest && a.stream == st && a.off >= s.high[st];
        assert a == s.rest[0] || a in s.rest[1..];
      }
    }
  }

  lemma RestoredFacts(s: System)
    requires Keyed(s.rows)
    ensures var t := Restored(s.rows, s.flight, s.rest);
            && Keyed(t) && NoLower(s.rows, t)
            && (s.flight.Some? ==> Covers(t, s.flight.value.stream, s.flight.value.off))
            && (forall a :: a in s.rest ==> Covers(t, a.stream, a.off))
  {
    var m := if s.flight.Some? then Merged(s.rows, s.flight.value) else s.rows;
    if s.flight.Some? {
      MergeCovers(s.rows, s.flight.value);
    }
    RestoreNeverLowers(m, s.rest);
    CoversOn(s.rows, m, Restored(s.rows, s.flight, s.rest));
    if s.flight.Some? {
      var a := s.flight.value;
      assert Covers(m, a.stream, a.off) && Covers(Restored(s.rows, s.flight, s.rest), a.stream, m[a.stream].off);
    }
  }

  lemma DropKeeps(s: System)
    requires Inv(s) && s.busy
    ensures Inv(Step(s, DropGuard).value)
  {
    RestoredFacts(s);
  }

  lemma StepKeeps(s: System, x: Action)
    requires Inv(s) && Step(s, x).Some? && !Lowers(s, x)
    ensures Inv(Step(s, x).value)
  {
    match x
    case Merge(_) => PutKeeps(s, x);
    case Store(_) => PutKeeps(s, x);
    case Take(ids) => TakeKeeps(s, ids);
    case Pop => WriteKeeps(s, x);
    case SendOk => WriteKeeps(s, x);
    case DropGuard => DropKeeps(s);
  }

  // No overwrite in the run goes back.
  predicate NeverLowers(s: System, xs: seq<Action>)
    requires Run(s, xs).Some?
    decreases |xs|
  {
    xs == [] || (!Lowers(s, xs[0]) && NeverLowers(Step(s, xs[0]).value, xs[1..]))
  }

  lemma {:induction false} RunKeeps(s: System, xs: seq<Action>)
    requires Inv(s) && Run(s, xs).Some? && NeverLowers(s, xs)
    ensures Inv(Run(s, xs).value)
    decreases |xs|
  {
    if xs != [] {
      StepKeeps(s, xs[0]);
      RunKeeps(Step(s, xs[0]).value, xs[1..]);
    }
  }

  // However merges, batches, sends, interruptions and failures interleave, the
  // furthest acknowledgement of every stream was sent, is with the writer or is
  // still registered, as long as no overwrite goes back.
  lemma NoAckLost(xs: seq<Action>)
    requires Run(Init(), xs).Some? && NeverLowers(Init(), xs)
    ensures var s := Run(Init(), xs).value; forall st :: st in s.high ==> Kept(s, st, s.high[st])
  {
    RunKeeps(Init(), xs);
  }

  // Dropping the guard puts back every row it held and lowers none, and rows
  // come only from the register or the guard.
  lemma DropPutsBack(s: System)
    requires s.busy && Keyed(s.rows)
    ensures var t := Step(s, DropGuard).value;
            && NoLower(s.rows, t.rows)
            && (s.flight.Some? ==> Covers(t.rows, s.flight.value.stream, s.flight.value.off))
            && (forall a :: a in s.rest ==> Covers(t.rows, a.stream, a.off))
            && (forall st :: st in t.rows ==>
                  (st in s.rows && t.rows[st] == s.rows[st]) || t.rows[st] in s.rest || s.flight == Some(t.rows[st]))
  {
    RestoredFacts(s);
    var m := if s.flight.Some? then Merged(s.rows, s.flight.value) else s.rows;
    if s.flight.Some? {
      MergeCovers(s.rows, s.flight.value);
    }
    RestoreNeverLowers(m, s.rest);
  }

  predicate Distinct(ids: seq<Stream>) {
    forall i, j :: 0 <= i < j < |ids| ==> ids[i] != ids[j]
  }

  lemma NoneWithout(rows: Rows)
    ensures rows - (set i: Stream | i in []) == rows
  {
    assert (set i: Stream | i in []) == {};
  }

  lemma {:induction false} WithoutDistinct(rows: Rows, ids: seq<Stream>)
    requires Distinct(ids) && forall i :: i in ids ==> i in rows
    ensures |rows - (set i | i in ids)| == |rows| - |ids|
  {
    if ids == [] {
      NoneWithout(rows);
    } else {
      var front, last := ids[..|ids| - 1], ids[|ids| - 1];
      assert ids == front + [last];
      assert last !in front;
      WithoutDistinct(rows, front);
      WithoutOneMore(rows, front, last);
    }
  }

  lemma WithoutOneMore(rows: Rows, front: seq<Stream>, last: Stream)
    requires last in rows && last !in front
    ensures |rows - (set i | i in front + [last])| == |rows - (set i | i in front)| - 1
  {
    var rest := rows - (set i | i in front);
    WithoutAll(rows, front, last);
    OneRowLess(rest, last);
  }

  // A batch takes eight rows, or all there are, out of the register; between
  // them batch and register have each row once.
  lemma TakeMovesRows(s: System, ids: seq<Stream>)
    requires Step(s, Take(ids)).Some?
    ensures var t := Step(s, Take(ids)).value;
            && |t.rest| == Min(8, |s.rows|) && |t.rows| + |t.rest| == |s.rows|
            && (forall a :: a in t.rest ==> exists st :: st in s.rows && st !in t.rows && s.rows[st] == a)
            && (forall st :: st in t.rows ==> st in s.rows && t.rows[st] == s.rows[st])
  {
    WithoutDistinct(s.rows, ids);
    var t := Step(s, Take(ids)).value;
    forall a | a in t.rest
      ensures exists st :: st in s.rows && st !in t.rows && s.rows[st] == a
    {
      var i :| 0 <= i < |t.rest| && t.rest[i] == a;
      assert ids[i] in s.rows && ids[i] !in t.rows;
    }
  }

  // The arm's steps for one row, over and over.
  function Writes(n: nat): seq<Action> {
    if n == 0 then [] else [Pop, SendOk] + Writes(n - 1)
  }

  lemma OneIsWritten(s: System, more: seq<Action>)
    requires s.busy && s.flight.None? && s.rest != []
    ensures Run(s, [Pop, SendOk] + more) == Run(s.(rest := s.rest[1..], sent := s.sent + {s.rest[0]}), more)
  {
    var t := s.(flight := Some(s.rest[0]), rest := s.rest[1..]);
    var all := [Pop, SendOk] + more;
    assert all[1..] == [SendOk] + more && all[1..][1..] == more;
    assert Step(s, Pop) == Some(t);
    assert Run(s, all) == Run(t, all[1..]);
  }

  function Members(rows: seq<Ack>): set<Ack> {
    set a | a in rows
  }

  // A batch is written row by row, each once, in the order taken.
  lemma {:induction false} BatchIsWrittenInTurn(s: System, n: nat)
    requires s.busy && s.flight.None? && n <= |s.rest|
    ensures Run(s, Writes(n)) == Some(s.(rest := s.rest[n..], sent := s.sent + Members(s.rest[..n])))
    decreases n
  {
    if n == 0 {
      assert s.rest[0..] == s.rest && s.sent + Members(s.rest[..0]) == s.sent;
    } else {
      var u := s.(rest := s.rest[1..], sent := s.sent + {s.rest[0]});
      OneIsWritten(s, Writes(n - 1));
      BatchIsWrittenInTurn(u, n - 1);
      assert s.rest[..n] == [s.rest[0]] + u.rest[..n - 1];
      assert u.sent + Members(u.rest[..n - 1]) == s.sent + Members(s.rest[..n]);
      assert u.rest[n - 1..] == s.rest[n..];
    }
  }

  // Held outside the register: sent, being written, or waiting in the batch.
  ghost predicate Elsewhere(s: System, stream: Stream, off: nat) {
    || (exists a :: a in s.sent && a.stream == stream && a.off >= off)
    || (s.flight.Some? && s.flight.value.stream == stream && s.flight.value.off >= off)
    || (exists a :: a in s.rest && a.stream == stream && a.off >= off)
  }

  // Exactly when a plain overwrite keeps the furthest acknowledgement of its
  // stream: it is as far itself, or the writer has or had one as far.
  lemma OverwriteKeepsIff(s: System, a: Ack)
    requires Inv(s)
    ensures var t := Step(s, Store(a)).value;
            Kept(t, a.stream, t.high[a.stream]) <==>
            a.stream !in s.high || a.off >= s.high[a.stream] || Elsewhere(s, a.stream, s.high[a.stream])
  {
    var t := Step(s, Store(a)).value;
    assert t.rows[a.stream] == a;
    assert Covers(t.rows, a.stream, t.high[a.stream]) <==> a.off >= t.high[a.stream];
  }

  // A run in which it does not: the row of offset 20 is gone without a trace.
  lemma LoweringLosesIt()
    ensures var xs := [Merge(Ack(1, 20, 0)), Store(Ack(1, 10, 0))];
            && Run(Init(), xs).Some? && Run(Init(), xs).value.high == map[1 := 20]
            && !Kept(Run(Init(), xs).value, 1, 20)
  {
    var xs := [Merge(Ack(1, 20, 0)), Store(Ack(1, 10, 0))];
    var s1 := System(map[1 := Ack(1, 20, 0)], None, [], false, {}, map[1 := 20]);
    var s2 := System(map[1 := Ack(1, 10, 0)], None, [], false, {}, map[1 := 20]);
    assert Step(Init(), xs[0]) == Some(s1);
    assert Raised(s1.high, Ack(1, 10, 0)) == s2.high && s1.rows[1 := Ack(1, 10, 0)] == s2.rows;
    assert Step(s1, xs[1]) == Some(s2);
    assert xs[1..][1..] == [];
    assert Run(s1, xs[1..]) == Run(s2, []);
    assert Run(Init(), xs) == Run(s1, xs[1..]);
  }

  lemma RunFive(s0: System, a1: Action, s1: System, a2: Action, s2: System, a3: Action, s3: System, a4: Action, s4: System,
                a5: Action, s5: System)
    requires Step(s0, a1) == Some(s1) && Step(s1, a2) == Some(s2) && Step(s2, a3) == Some(s3)
    requires Step(s3, a4) == Some(s4) && Step(s4, a5) == Some(s5)
    ensures Run(s0, [a1, a2, a3, a4, a5]) == Some(s5)
  {
    assert [a1, a2, a3, a4, a5][1..] == [a2, a3, a4, a5] && [a2, a3, a4, a5][1..] == [a3, a4, a5];
    assert [a3, a4, a5][1..] == [a4, a5] && [a4, a5][1..] == [a5] && [a5][1..] == [];
    assert Run(s4, [a5]) == Run(s5, []);
    assert Run(s3, [a4, a5]) == Run(s4, [a5]);
    assert Run(s2, [a3, a4, a5]) == Run(s3, [a4, a5]);
    assert Run(s1, [a2, a3, a4, a5]) == Run(s2, [a3, a4, a5]);
  }

  const SHUT := Ack(1, 100, 0)
  const WIDE := Ack(1, 100, 4096)

  // The writer's state while it has taken the row, and the register's beside it.
  function Vanishing(rows: Rows, flight: Option<Ack>, rest: seq<Ack>, busy: bool): System {
    System(rows, flight, rest, busy, {}, map[1 := 100])
  }

  lemma TakenForWriting()
    ensures Step(Init(), Merge(SHUT)) == Some(Vanishing(map[1 := SHUT], None, [], false))
    ensures Step(Vanishing(map[1 := SHUT], None, [], false), Take([1])) == Some(Vanishing(map[], None, [SHUT], true))
    ensures Step(Vanishing(map[], None, [SHUT], true), Pop) == Some(Vanishing(map[], Some(SHUT), [], true))
  {
    var rows: Rows := map[1 := SHUT];
    assert |rows| == 1 && Batch(rows, [1]) && RowsOf(rows, [1]) == [SHUT];
    assert rows - (set i | i in [1]) == map[];
    assert [SHUT][1..] == [];
  }

  lemma PutBack()
    ensures Step(Vanishing(map[], Some(SHUT), [], true), Store(WIDE)) == Some(Vanishing(map[1 := WIDE], Some(SHUT), [], true))
    ensures Step(Vanishing(map[1 := WIDE], Some(SHUT), [], true), DropGuard) == Some(Vanishing(map[1 := SHUT], None, [], false))
  {
    var none: Rows := map[];
    assert Raised(map[1 := 100], WIDE) == map[1 := 100] && none[1 := WIDE] == map[1 := WIDE];
    assert Merged(map[1 := WIDE], SHUT) == map[1 := SHUT];
  }

  // A window opened while the writer held the row is lost when that write
  // fails: neither sent, nor held, nor registered.
  lemma OpenedWindowCanVanish()
    ensures exists xs, s :: && Run(Init(), xs) == Some(s)
                            && Store(Ack(1, 100, 4096)) in xs && s.sent == {} && !s.busy
                            && s.rows == map[1 := Ack(1, 100, 0)]
  {
    var xs := [Merge(SHUT), Take([1]), Pop, Store(WIDE), DropGuard];
    TakenForWriting();
    PutBack();
    RunFive(Init(), Merge(SHUT), Vanishing(map[1 := SHUT], None, [], false), Take([1]), Vanishing(map[], None, [SHUT], true),
            Pop, Vanishing(map[], Some(SHUT), [], true), Store(WIDE), Vanishing(map[1 := WIDE], Some(SHUT), [], true),
            DropGuard, Vanishing(map[1 := SHUT], None, [], false));
    assert xs[3] in xs;
  }
}
