// What acknowledgements release, over the runs of one overlay stream
// (crates/nya-core/src/session/streams.rs, crates/nya-core/src/stream.rs).
module OverlayAcks {
  import opened Common
  import opened Sack
  import opened Overlay
  import opened OverlayRuns

  // -------------------------------------------------------- one acknowledgement

  predicate InRange(k: nat, length: nat, r: Range) {
    r.lo <= k && k + length <= r.hi
  }

  // Told of as received: ends at or below the cumulative offset, or lies inside
  // a selective range.
  ghost predicate Told(k: nat, length: nat, a: Ack) {
    k + length <= a.upTo || exists r :: r in a.sack && InRange(k, length, r)
  }

  lemma Inside(k: nat, length: nat, sack: seq<Range>)
    ensures (exists r :: r in sack && InRange(k, length, r)) <==>
            exists i :: 0 <= i < |sack| && sack[i].lo <= k && k + length <= sack[i].hi
  {
    if r :| r in sack && InRange(k, length, r) {
      var i :| 0 <= i < |sack| && sack[i] == r;
      assert sack[i].lo <= k && k + length <= sack[i].hi;
    }
    if i :| 0 <= i < |sack| && sack[i].lo <= k && k + length <= sack[i].hi {
      assert sack[i] in sack && InRange(k, length, sack[i]);
    }
  }

  lemma OnAckKeeps(s: Sender, a: Ack, k: nat)
    requires k in s.unacked && k + |s.unacked[k]| > s.acked
    ensures k in OnAck(s, a).unacked <==> !Told(k, |s.unacked[k]|, a)
  {
    Inside(k, |s.unacked[k]|, a.sack);
  }

  // In every run, what the sender keeps after an acknowledgement is exactly what
  // the acknowledgement does not tell of, with its own bytes; the furthest
  // cumulative offset is remembered.
  lemma AckReleasesWhatItTells(acts: seq<Action>, a: Ack)
    requires Run(Init(), acts).Some?
    ensures var s := Run(Init(), acts).value.snd;
            var t := OnAck(s, a);
            && (forall k :: k in t.unacked <==> k in s.unacked && !Told(k, |s.unacked[k]|, a))
            && (forall k :: k in t.unacked ==> t.unacked[k] == s.unacked[k])
            && t.acked == Max(s.acked, a.upTo) && t.next == s.next && t.fin == s.fin
  {
    InitInv();
    RunKeepsInv(Init(), acts);
    var s := Run(Init(), acts).value.snd;
    forall k | k in s.unacked
      ensures k in OnAck(s, a).unacked <==> !Told(k, |s.unacked[k]|, a)
    {
      OnAckKeeps(s, a, k);
    }
  }

  // ------------------------------------------------ an acknowledgement made of a buffer

  predicate Covered(rs: seq<Range>, c: Range) {
    exists r :: r in rs && r.lo <= c.lo && c.hi <= r.hi
  }

  lemma ExtendCovers(runs: seq<Range>, c: Range, d: Range)
    requires c.lo <= c.hi && (d == c || Covered(runs, d)) && forall i :: 0 <= i < |runs| ==> runs[i].lo <= runs[i].hi
    ensures Covered(Extend(runs, c), d)
  {
    var e := Extend(runs, c);
    assert e[|e| - 1] in e;
    if d != c {
      var r :| r in runs && r.lo <= d.lo && d.hi <= r.hi;
      var i :| 0 <= i < |runs| && runs[i] == r;
      assert e[i] in e && e[i].lo <= d.lo && d.hi <= e[i].hi;
    }
  }

  // A chunk lies in one run as a whole.
  lemma {:induction false} ChunkInOneRun(chunks: seq<Range>, d: Range)
    requires d in chunks && forall i :: 0 <= i < |chunks| ==> chunks[i].lo <= chunks[i].hi
    ensures Covered(Runs(chunks), d)
  {
    var front, c := chunks[..|chunks| - 1], chunks[|chunks| - 1];
    assert chunks == front + [c];
    RunsHoldTheChunks(front, 0);
    if d in front {
      ChunkInOneRun(front, d);
    }
    ExtendCovers(Runs(front), c, d);
  }

  lemma ChunkOf(buf: Buffer, k: nat)
    requires k in buf
    ensures Range(k, k + |buf[k]|) in Chunks(buf)
  {
    var keys: seq<nat> := Sorted(buf.Keys);
    assert k in keys;
    var i :| 0 <= i < |keys| && keys[i] == k;
    assert Chunks(buf)[i] == Range(k, k + |buf[k]|);
  }

  // An acknowledgement of a buffer with at most eight runs tells of all of it.
  lemma AllRunsTold(buf: Buffer, newest: nat, upTo: nat, k: nat)
    requires Disjoint(Chunks(buf)) && |Runs(Chunks(buf))| <= MAX_SACK_RANGES && k in buf
    ensures Told(k, |buf[k]|, Ack(upTo, Ranges(buf, newest)))
  {
    RangesAreMaximalRuns(buf, newest);
    var r := RunOfChunk(buf, k);
    assert r in Ranges(buf, newest);
  }

  lemma RunOfChunk(buf: Buffer, k: nat) returns (r: Range)
    requires Disjoint(Chunks(buf)) && k in buf
    ensures r in Runs(Chunks(buf)) && InRange(k, |buf[k]|, r)
  {
    var c := Range(k, k + |buf[k]|);
    ChunkOf(buf, k);
    ChunkInOneRun(Chunks(buf), c);
    r :| r in Runs(Chunks(buf)) && r.lo <= c.lo && c.hi <= r.hi;
  }

  lemma SamePieceLater(s: System, t: System, k: nat)
    requires Inv(s) && Inv(t) && s.pieces <= t.pieces && k in s.rcv.buf && k in t.snd.unacked
    ensures t.snd.unacked[k] == s.rcv.buf[k]
  {
    var i :| 0 <= i < |s.pieces| && Off(s.pieces, i) == k && s.pieces[i] == s.rcv.buf[k];
    PrefixOff(s.pieces, t.pieces, i);
    UnackedIs(t.snd, t.pieces, i);
  }

  // However much later it is heard, the sender then keeps no piece that the
  // buffer held when the acknowledgement was made, if it had at most eight runs.
  lemma HeldPiecesAreReleased(acts: seq<Action>, more: seq<Action>, upTo: nat)
    requires Run(Init(), acts).Some? && Run(Run(Init(), acts).value, more).Some?
    requires |Runs(Chunks(Run(Init(), acts).value.rcv.buf))| <= MAX_SACK_RANGES
    ensures var s := Run(Init(), acts).value;
            var a := Ack(upTo, Ranges(s.rcv.buf, s.rcv.newest));
            forall k :: k in s.rcv.buf ==> k !in OnAck(Run(s, more).value.snd, a).unacked
  {
    var s := Run(Init(), acts).value;
    var t := Run(s, more).value;
    var a := Ack(upTo, Ranges(s.rcv.buf, s.rcv.newest));
    InitInv();
    RunKeepsInv(Init(), acts);
    RunKeepsInv(s, more);
    RunRecordsPieces(s, more);
    ChunksDisjoint(s);
    forall k | k in s.rcv.buf && k in t.snd.unacked
      ensures k !in OnAck(t.snd, a).unacked
    {
      AllRunsTold(s.rcv.buf, s.rcv.newest, upTo, k);
      SamePieceLater(s, t, k);
      OnAckKeeps(t.snd, a, k);
    }
  }

  lemma HeldAndAcked(s: System, i: nat)
    requires Inv(s) && |Runs(Chunks(s.rcv.buf))| <= MAX_SACK_RANGES && i < |s.pieces| && Holds(s.rcv, s.pieces, i)
    ensures Off(s.pieces, i) !in OnAck(s.snd, Ack(s.rcv.next, Ranges(s.rcv.buf, s.rcv.newest))).unacked
  {
    var k, a := Off(s.pieces, i), Ack(s.rcv.next, Ranges(s.rcv.buf, s.rcv.newest));
    ChunksDisjoint(s);
    if k in s.snd.unacked {
      UnackedIs(s.snd, s.pieces, i);
      if i < s.rcv.taken {
        if i + 1 < s.rcv.taken {
          OffIncreases(s.pieces, i, s.rcv.taken);
        }
        assert k + |s.pieces[i]| <= s.rcv.next;
      } else {
        SamePieceLater(s, s, k);
        AllRunsTold(s.rcv.buf, s.rcv.newest, s.rcv.next, k);
      }
      OnAckKeeps(s.snd, a, k);
    }
  }

  // Heard at once, it leaves queued exactly what the receiver is missing.
  lemma QueueIsWhatIsMissing(acts: seq<Action>)
    requires Run(Init(), acts).Some? && |Runs(Chunks(Run(Init(), acts).value.rcv.buf))| <= MAX_SACK_RANGES
    ensures var s := Run(Init(), acts).value;
            var t := OnAck(s.snd, Ack(s.rcv.next, Ranges(s.rcv.buf, s.rcv.newest)));
            forall i :: 0 <= i < |s.pieces| ==> (Off(s.pieces, i) in t.unacked <==> !Holds(s.rcv, s.pieces, i))
  {
    var s := Run(Init(), acts).value;
    var a := Ack(s.rcv.next, Ranges(s.rcv.buf, s.rcv.newest));
    InitInv();
    RunKeepsInv(Init(), acts);
    NewAckIsTrue(s.rcv, s.pieces, s.rcv.next);
    forall i | 0 <= i < |s.pieces|
      ensures Off(s.pieces, i) in OnAck(s.snd, a).unacked <==> !Holds(s.rcv, s.pieces, i)
    {
      if Holds(s.rcv, s.pieces, i) {
        HeldAndAcked(s, i);
      } else {
        OnAckKeepsUnheld(s.snd, a, s.rcv, s.pieces);
      }
    }
  }

  // ------------------------------------------------------ the receiving side

  // A drain hands over as many pieces as there is room for, or all up to the gap.
  lemma {:induction false} DrainFillsTheRoom(r: Receiver, room: nat)
    ensures var t := Drain(r, room);
            && r.taken <= t.taken <= r.taken + room && (t.taken == r.taken + room || t.next !in t.buf)
            && t.next == r.next + (|t.out| - |r.out|) && t.newest == r.newest
    decreases room
  {
    if room > 0 && r.next in r.buf {
      DrainFillsTheRoom(TakeOne(r), room - 1);
    }
  }

  // The first close stands, an old one where the receiver is; the receive side
  // finishes exactly when it has come that far.
  lemma CloseDecidesOnce(r: Receiver, final: Option<nat>)
    ensures var t := TryFinish(PeerClose(r, final));
            && t.closeOff == (if r.closeOff.Some? then r.closeOff else if final.Some? then final else Some(r.next))
            && (t.fin <==> r.fin || t.next >= t.closeOff.value)
            && t == r.(closeOff := t.closeOff, fin := t.fin)
  {
  }
}
