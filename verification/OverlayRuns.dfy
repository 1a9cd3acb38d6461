// One overlay stream end to end, over a network that loses, duplicates,
// delays and reorders both pieces and acknowledgements.
module OverlayRuns {
  import opened Common
  import opened Sack
  import opened Overlay

  // `pieces` is history: what the sender cut the stream into. `data` holds the
  // copies under way on any path; acknowledgements and closes ever sent may
  // arrive any number of times, in any order, or never.
  datatype System = System(
    snd: Sender,
    rcv: Receiver,
    pieces: seq<Bytes>,
    data: multiset<(nat, Bytes)>,
    acks: set<Ack>,
    closes: set<Option<nat>>)

  // The receive path runs on several reader tasks: inserting, noting the newest
  // arrival, draining and acknowledging are separate steps here.
  datatype Action =
    | SendData(piece: Bytes)
    | Resend(off: nat)
    | DataArrives(off: nat, bytes: Bytes)
    | DataLost(off: nat, bytes: Bytes)
    | NoteNewest(off: nat)
    | DrainRecv(room: nat)
    | SendAck(upTo: nat)
    | AckArrives(a: Ack)
    | CloseSend
    | LegacyClose
    | CloseArrives(final: Option<nat>)
    | Finish

  function Init(): System {
    System(NewSender(), NewReceiver(), [], multiset{}, {}, {})
  }

  function Step(s: System, a: Action): Option<System> {
    match a
    case SendData(piece) =>
      if !s.snd.fin && piece != [] then
        Some(s.(snd := Push(s.snd, piece), pieces := s.pieces + [piece], data := s.data + multiset{(s.snd.next, piece)}))
      else None
    case Resend(off) =>
      if off in s.snd.unacked then Some(s.(data := s.data + multiset{(off, s.snd.unacked[off])})) else None
    case DataArrives(off, bytes) =>
      if (off, bytes) in s.data then
        Some(s.(rcv := Insert(s.rcv, off, bytes), data := s.data - multiset{(off, bytes)}))
      else None
    case DataLost(off, bytes) =>
      if (off, bytes) in s.data then Some(s.(data := s.data - multiset{(off, bytes)})) else None
    case NoteNewest(off) => Some(s.(rcv := s.rcv.(newest := off)))
    case DrainRecv(room) => Some(s.(rcv := Drain(s.rcv, room)))
    case SendAck(upTo) =>
      // The offset is read before the buffer is locked, so it may be older.
      if upTo <= s.rcv.next then Some(s.(acks := s.acks + {Ack(upTo, Ranges(s.rcv.buf, s.rcv.newest))})) else None
    case AckArrives(x) => if x in s.acks then Some(s.(snd := OnAck(s.snd, x))) else None
    case CloseSend =>
      if !s.snd.fin then Some(s.(snd := s.snd.(fin := true), closes := s.closes + {Some(s.snd.next)})) else None
    case LegacyClose => Some(s.(closes := s.closes + {None}))
    case CloseArrives(final) => if final in s.closes then Some(s.(rcv := PeerClose(s.rcv, final))) else None
    case Finish => Some(s.(rcv := TryFinish(s.rcv)))
  }

  function Run(s: System, acts: seq<Action>): Option<System>
    decreases |acts|
  {
    if acts == [] then Some(s)
    else
      match Step(s, acts[0])
      case None => None
      case Some(t) => Run(t, acts[1..])
  }

  lemma {:induction false} RunAppend(s: System, a: seq<Action>, b: seq<Action>)
    requires Run(s, a).Some?
    ensures Run(s, a + b) == Run(Run(s, a).value, b)
    decreases |a|
  {
    if a == [] {
      assert a + b == b;
    } else {
      assert (a + b)[1..] == a[1..] + b;
      RunAppend(Step(s, a[0]).value, a[1..], b);
    }
  }

  // ------------------------------------------------------- where pieces lie

  function Off(pieces: seq<Bytes>, i: nat): nat
    requires i <= |pieces|
  {
    if i == 0 then 0 else Off(pieces, i - 1) + |pieces[i - 1]|
  }

  predicate NoneEmpty(pieces: seq<Bytes>) {
    forall i :: 0 <= i < |pieces| ==> |pieces[i]| > 0
  }

  lemma {:induction false} OffIncreases(pieces: seq<Bytes>, i: nat, j: nat)
    requires i < j <= |pieces| && NoneEmpty(pieces)
    ensures Off(pieces, i) + |pieces[i]| <= Off(pieces, j)
    ensures Off(pieces, i) < Off(pieces, j)
  {
    if i + 1 < j {
      OffIncreases(pieces, i, j - 1);
    }
  }

  lemma {:induction false} OffIsLength(pieces: seq<Bytes>, i: nat)
    requires i <= |pieces|
    ensures Off(pieces, i) == |Concat(pieces[..i])|
  {
    if i > 0 {
      OffIsLength(pieces, i - 1);
      assert pieces[..i] == pieces[..i - 1] + [pieces[i - 1]];
      ConcatAppend(pieces[..i - 1], pieces[i - 1]);
    }
  }

  lemma {:induction false} OffOfLonger(pieces: seq<Bytes>, last: Bytes, i: nat)
    requires i <= |pieces|
    ensures Off(pieces + [last], i) == Off(pieces, i)
  {
    if i > 0 {
      OffOfLonger(pieces, last, i - 1);
    }
  }

  // Pieces do not overlap: a byte belongs to one of them.
  lemma OneOwner(pieces: seq<Bytes>, i: nat, j: nat, b: nat)
    requires NoneEmpty(pieces) && i < |pieces| && j < |pieces|
    requires Off(pieces, i) <= b < Off(pieces, i) + |pieces[i]|
    requires Off(pieces, j) <= b < Off(pieces, j) + |pieces[j]|
    ensures i == j
  {
    if i < j {
      OffIncreases(pieces, i, j);
    } else if j < i {
      OffIncreases(pieces, j, i);
    }
  }

  ghost predicate IsPiece(pieces: seq<Bytes>, off: nat, bytes: Bytes) {
    exists i :: 0 <= i < |pieces| && Off(pieces, i) == off && pieces[i] == bytes
  }

  lemma IsPieceOfLonger(pieces: seq<Bytes>, last: Bytes, off: nat, bytes: Bytes)
    requires IsPiece(pieces, off, bytes)
    ensures IsPiece(pieces + [last], off, bytes)
  {
    var i :| 0 <= i < |pieces| && Off(pieces, i) == off && pieces[i] == bytes;
    OffOfLonger(pieces, last, i);
    assert (pieces + [last])[i] == bytes;
  }

  // ----------------------------------------------------------- invariant

  predicate Holds(r: Receiver, pieces: seq<Bytes>, i: nat)
    requires i < |pieces|
  {
    i < r.taken || Off(pieces, i) in r.buf
  }

  // The application has the first `taken` pieces; the buffer has later ones.
  ghost predicate ReceiverOk(r: Receiver, pieces: seq<Bytes>) {
    && r.taken <= |pieces|
    && r.next == Off(pieces, r.taken)
    && r.out == Concat(pieces[..r.taken])
    && (forall k :: k in r.buf ==> k >= r.next && IsPiece(pieces, k, r.buf[k]))
  }

  ghost predicate SenderOk(s: Sender, pieces: seq<Bytes>) {
    && s.next == Off(pieces, |pieces|)
    && s.acked <= s.next
    && (forall k :: k in s.unacked ==> IsPiece(pieces, k, s.unacked[k]) && k + |s.unacked[k]| > s.acked)
  }

  // What an acknowledgement says is true of the receiver, now and from now on.
  ghost predicate AckTrue(a: Ack, r: Receiver, pieces: seq<Bytes>) {
    CumulativeTrue(a, r, pieces) && SelectiveTrue(a, r, pieces) && EndsInside(a, pieces)
  }

  ghost predicate CumulativeTrue(a: Ack, r: Receiver, pieces: seq<Bytes>) {
    && a.upTo <= r.next
    && forall i :: 0 <= i < |pieces| && Off(pieces, i) + |pieces[i]| <= a.upTo ==> Holds(r, pieces, i)
  }

  ghost predicate SelectiveTrue(a: Ack, r: Receiver, pieces: seq<Bytes>) {
    forall i, j :: 0 <= i < |pieces| && 0 <= j < |a.sack| &&
                   a.sack[j].lo <= Off(pieces, i) && Off(pieces, i) + |pieces[i]| <= a.sack[j].hi
                   ==> Holds(r, pieces, i)
  }

  ghost predicate EndsInside(a: Ack, pieces: seq<Bytes>) {
    forall j :: 0 <= j < |a.sack| && a.sack[j].lo < a.sack[j].hi ==> a.sack[j].hi <= Off(pieces, |pieces|)
  }

  // The sender drops a piece only when the receiver has it.
  ghost predicate NothingLost(s: System) {
    forall i :: 0 <= i < |s.pieces| ==> Off(s.pieces, i) in s.snd.unacked || Holds(s.rcv, s.pieces, i)
  }

  ghost predicate CloseOk(s: System) {
    && (None !in s.closes ==>
          && (forall c :: c in s.closes ==> c == Some(s.snd.next) && s.snd.fin)
          && (s.rcv.closeOff.Some? ==> s.rcv.closeOff == Some(s.snd.next) && s.snd.fin))
    && (s.rcv.fin ==> s.rcv.closeOff.Some? && s.rcv.next >= s.rcv.closeOff.value)
  }

  ghost predicate Inv(s: System) {
    && NoneEmpty(s.pieces)
    && ReceiverOk(s.rcv, s.pieces)
    && SenderOk(s.snd, s.pieces)
    && (forall d :: d in s.data ==> IsPiece(s.pieces, d.0, d.1))
    && (forall a :: a in s.acks ==> AckTrue(a, s.rcv, s.pieces))
    && NothingLost(s)
    && CloseOk(s)
  }

  // ------------------------------------------------------------ one drain

  function TakeOne(r: Receiver): Receiver
    requires r.next in r.buf
  {
    var chunk := r.buf[r.next];
    r.(next := r.next + |chunk|, buf := r.buf - {r.next}, out := r.out + chunk, taken := r.taken + 1)
  }

  lemma HeadIsNextPiece(r: Receiver, pieces: seq<Bytes>)
    requires NoneEmpty(pieces) && ReceiverOk(r, pieces) && r.next in r.buf
    ensures r.taken < |pieces| && r.buf[r.next] == pieces[r.taken]
  {
    var i :| 0 <= i < |pieces| && Off(pieces, i) == r.next && pieces[i] == r.buf[r.next];
    SameOffset(pieces, i, r.taken);
  }

  lemma TakeOneKeepsOk(r: Receiver, pieces: seq<Bytes>)
    requires NoneEmpty(pieces) && ReceiverOk(r, pieces) && r.next in r.buf
    ensures ReceiverOk(TakeOne(r), pieces)
  {
    HeadIsNextPiece(r, pieces);
    assert pieces[..r.taken + 1] == pieces[..r.taken] + [pieces[r.taken]];
    ConcatAppend(pieces[..r.taken], pieces[r.taken]);
    var t := TakeOne(r);
    forall k | k in t.buf
      ensures k >= t.next && IsPiece(pieces, k, t.buf[k])
    {
      ApartInOrder(r, pieces, r.next, k);
    }
  }

  lemma ApartInOrder(r: Receiver, pieces: seq<Bytes>, k: nat, l: nat)
    requires NoneEmpty(pieces) && ReceiverOk(r, pieces) && k in r.buf && l in r.buf && k < l
    ensures k + |r.buf[k]| <= l
  {
    var i :| 0 <= i < |pieces| && Off(pieces, i) == k && pieces[i] == r.buf[k];
    var j :| 0 <= j < |pieces| && Off(pieces, j) == l && pieces[j] == r.buf[l];
    if j < i {
      OffIncreases(pieces, j, i);
    } else {
      OffIncreases(pieces, i, j);
    }
  }

  lemma TakeOneGains(r: Receiver, pieces: seq<Bytes>)
    requires NoneEmpty(pieces) && ReceiverOk(r, pieces) && r.next in r.buf
    ensures Gains(r, TakeOne(r), pieces)
  {
    HeadIsNextPiece(r, pieces);
    forall x | 0 <= x < |pieces| && Holds(r, pieces, x)
      ensures Holds(TakeOne(r), pieces, x)
    {
      if x > r.taken {
        OffIncreases(pieces, r.taken, x);
      }
    }
  }

  // The receiver only ever gains: what it held it still holds.
  ghost predicate Gains(r: Receiver, t: Receiver, pieces: seq<Bytes>) {
    && r.next <= t.next
    && forall i :: 0 <= i < |pieces| && Holds(r, pieces, i) ==> Holds(t, pieces, i)
  }

  lemma {:induction false} DrainFacts(r: Receiver, pieces: seq<Bytes>, room: nat)
    requires NoneEmpty(pieces) && ReceiverOk(r, pieces)
    ensures ReceiverOk(Drain(r, room), pieces) && Gains(r, Drain(r, room), pieces)
    ensures Drain(r, room).closeOff == r.closeOff && Drain(r, room).fin == r.fin
    decreases room
  {
    if room > 0 && r.next in r.buf {
      TakeOneKeepsOk(r, pieces);
      TakeOneGains(r, pieces);
      DrainFacts(TakeOne(r), pieces, room - 1);
    }
  }

  lemma SameOffset(pieces: seq<Bytes>, i: nat, j: nat)
    requires NoneEmpty(pieces) && i < |pieces| && j <= |pieces| && Off(pieces, i) == Off(pieces, j)
    ensures i == j
  {
    if i < j {
      OffIncreases(pieces, i, j);
    } else if j < i {
      OffIncreases(pieces, j, i);
    }
  }

  // --------------------------------------------------- acknowledgements

  lemma RangeMeansHeld(r: Receiver, pieces: seq<Bytes>, j: nat, i: nat)
    requires NoneEmpty(pieces) && ReceiverOk(r, pieces)
    requires j < |Ranges(r.buf, r.newest)| && i < |pieces|
    requires Ranges(r.buf, r.newest)[j].lo <= Off(pieces, i)
    requires Off(pieces, i) + |pieces[i]| <= Ranges(r.buf, r.newest)[j].hi
    ensures Off(pieces, i) in r.buf
  {
    var b := Off(pieces, i);
    assert Ranges(r.buf, r.newest)[j].lo <= b < Ranges(r.buf, r.newest)[j].hi;
    RangesOnlyReportBuffered(r.buf, r.newest, b);
    var k :| k in r.buf && k <= b < k + |r.buf[k]|;
    var x :| 0 <= x < |pieces| && Off(pieces, x) == k && pieces[x] == r.buf[k];
    OneOwner(pieces, i, x, b);
  }

  lemma RangeEndsInside(r: Receiver, pieces: seq<Bytes>, j: nat)
    requires NoneEmpty(pieces) && ReceiverOk(r, pieces)
    requires j < |Ranges(r.buf, r.newest)| && Ranges(r.buf, r.newest)[j].lo < Ranges(r.buf, r.newest)[j].hi
    ensures Ranges(r.buf, r.newest)[j].hi <= Off(pieces, |pieces|)
  {
    var b := Ranges(r.buf, r.newest)[j].hi - 1;
    assert Ranges(r.buf, r.newest)[j].lo <= b < Ranges(r.buf, r.newest)[j].hi;
    RangesOnlyReportBuffered(r.buf, r.newest, b);
    var k :| k in r.buf && k <= b < k + |r.buf[k]|;
    var x :| 0 <= x < |pieces| && Off(pieces, x) == k && pieces[x] == r.buf[k];
    OffIncreases(pieces, x, |pieces|);
  }

  lemma NewAckIsTrue(r: Receiver, pieces: seq<Bytes>, upTo: nat)
    requires NoneEmpty(pieces) && ReceiverOk(r, pieces) && upTo <= r.next
    ensures AckTrue(Ack(upTo, Ranges(r.buf, r.newest)), r, pieces)
  {
    var a := Ack(upTo, Ranges(r.buf, r.newest));
    forall i | 0 <= i < |pieces| && Off(pieces, i) + |pieces[i]| <= upTo
      ensures Holds(r, pieces, i)
    {
      if i >= r.taken {
        if i > r.taken {
          OffIncreases(pieces, r.taken, i);
        }
      }
    }
    forall i, j | 0 <= i < |pieces| && 0 <= j < |a.sack| &&
                  a.sack[j].lo <= Off(pieces, i) && Off(pieces, i) + |pieces[i]| <= a.sack[j].hi
      ensures Holds(r, pieces, i)
    {
      RangeMeansHeld(r, pieces, j, i);
    }
    forall j | 0 <= j < |a.sack| && a.sack[j].lo < a.sack[j].hi
      ensures a.sack[j].hi <= Off(pieces, |pieces|)
    {
      RangeEndsInside(r, pieces, j);
    }
  }

  lemma OnAckKeepsUnheld(s: Sender, a: Ack, r: Receiver, pieces: seq<Bytes>)
    requires NoneEmpty(pieces) && SenderOk(s, pieces) && ReceiverOk(r, pieces) && AckTrue(a, r, pieces)
    ensures SenderOk(OnAck(s, a), pieces)
    ensures forall i :: 0 <= i < |pieces| && Off(pieces, i) in s.unacked && !Holds(r, pieces, i) ==>
              Off(pieces, i) in OnAck(s, a).unacked
  {
    if r.taken < |pieces| {
      OffIncreases(pieces, r.taken, |pieces|);
    }
    var t := OnAck(s, a);
    forall i | 0 <= i < |pieces| && Off(pieces, i) in s.unacked && !Holds(r, pieces, i)
      ensures Off(pieces, i) in t.unacked
    {
      var k := Off(pieces, i);
      var x :| 0 <= x < |pieces| && Off(pieces, x) == k && pieces[x] == s.unacked[k];
      SameOffset(pieces, x, i);
    }
    forall k | k in t.unacked
      ensures k + |t.unacked[k]| > t.acked
    {
      assert k !in Cumulative(s, a);
    }
  }

  // -------------------------------------------------- the invariant is kept

  lemma InitInv()
    ensures Inv(Init())
  {
  }

  lemma LongerKeepsOffsets(pieces: seq<Bytes>, piece: Bytes)
    ensures forall i :: 0 <= i <= |pieces| ==> Off(pieces + [piece], i) == Off(pieces, i)
    ensures Off(pieces + [piece], |pieces| + 1) == Off(pieces, |pieces|) + |piece|
    ensures IsPiece(pieces + [piece], Off(pieces, |pieces|), piece)
  {
    forall i | 0 <= i <= |pieces|
      ensures Off(pieces + [piece], i) == Off(pieces, i)
    {
      OffOfLonger(pieces, piece, i);
    }
    assert (pieces + [piece])[|pieces|] == piece;
  }

  lemma LongerKeepsHolds(r: Receiver, pieces: seq<Bytes>, piece: Bytes, i: nat)
    requires i < |pieces|
    ensures Holds(r, pieces + [piece], i) <==> Holds(r, pieces, i)
    ensures (pieces + [piece])[i] == pieces[i]
  {
    OffOfLonger(pieces, piece, i);
  }

  lemma NextWithinPieces(r: Receiver, pieces: seq<Bytes>)
    requires ReceiverOk(r, pieces) && NoneEmpty(pieces)
    ensures r.next <= Off(pieces, |pieces|)
  {
    if r.taken < |pieces| {
      OffIncreases(pieces, r.taken, |pieces|);
    }
  }

  lemma LongerKeepsCumulative(a: Ack, r: Receiver, pieces: seq<Bytes>, piece: Bytes)
    requires CumulativeTrue(a, r, pieces) && a.upTo <= Off(pieces, |pieces|) && piece != []
    ensures CumulativeTrue(a, r, pieces + [piece])
  {
    var longer := pieces + [piece];
    forall i | 0 <= i < |longer| && Off(longer, i) + |longer[i]| <= a.upTo
      ensures Holds(r, longer, i)
    {
      OffOfLonger(pieces, piece, i);
      if i < |pieces| {
        assert longer[i] == pieces[i];
      }
    }
  }

  lemma LongerKeepsSelective(a: Ack, r: Receiver, pieces: seq<Bytes>, piece: Bytes)
    requires SelectiveTrue(a, r, pieces) && EndsInside(a, pieces) && piece != []
    ensures SelectiveTrue(a, r, pieces + [piece])
  {
    var n, longer := |pieces|, pieces + [piece];
    LongerKeepsOffsets(pieces, piece);
    forall i, j | 0 <= i < |longer| && 0 <= j < |a.sack| &&
                  a.sack[j].lo <= Off(longer, i) && Off(longer, i) + |longer[i]| <= a.sack[j].hi
      ensures Holds(r, longer, i)
    {
      if i < n {
        LongerKeepsHolds(r, pieces, piece, i);
      }
    }
  }

  lemma LongerEndsInside(a: Ack, pieces: seq<Bytes>, piece: Bytes)
    requires EndsInside(a, pieces)
    ensures EndsInside(a, pieces + [piece])
  {
    LongerKeepsOffsets(pieces, piece);
  }

  lemma LongerKeepsAck(a: Ack, r: Receiver, pieces: seq<Bytes>, piece: Bytes)
    requires AckTrue(a, r, pieces) && ReceiverOk(r, pieces) && piece != [] && NoneEmpty(pieces)
    ensures AckTrue(a, r, pieces + [piece])
  {
    LongerEndsInside(a, pieces, piece);
    NextWithinPieces(r, pieces);
    LongerKeepsCumulative(a, r, pieces, piece);
    LongerKeepsSelective(a, r, pieces, piece);
  }

  lemma LongerKeepsReceiver(r: Receiver, pieces: seq<Bytes>, piece: Bytes)
    requires ReceiverOk(r, pieces)
    ensures ReceiverOk(r, pieces + [piece])
  {
    LongerKeepsOffsets(pieces, piece);
    assert (pieces + [piece])[..r.taken] == pieces[..r.taken];
    forall k | k in r.buf
      ensures IsPiece(pieces + [piece], k, r.buf[k])
    {
      IsPieceOfLonger(pieces, piece, k, r.buf[k]);
    }
  }

  lemma LongerKeepsSender(s: Sender, pieces: seq<Bytes>, piece: Bytes)
    requires SenderOk(s, pieces) && piece != []
    ensures SenderOk(Push(s, piece), pieces + [piece])
  {
    LongerKeepsOffsets(pieces, piece);
    forall k | k in s.unacked
      ensures IsPiece(pieces + [piece], k, s.unacked[k])
    {
      IsPieceOfLonger(pieces, piece, k, s.unacked[k]);
    }
  }

  lemma LongerKeepsAcks(acks: set<Ack>, r: Receiver, pieces: seq<Bytes>, piece: Bytes)
    requires (forall a :: a in acks ==> AckTrue(a, r, pieces)) && ReceiverOk(r, pieces) && piece != [] && NoneEmpty(pieces)
    ensures forall a :: a in acks ==> AckTrue(a, r, pieces + [piece])
  {
    forall a | a in acks
      ensures AckTrue(a, r, pieces + [piece])
    {
      LongerKeepsAck(a, r, pieces, piece);
    }
  }

  lemma LongerKeepsData(data: multiset<(nat, Bytes)>, pieces: seq<Bytes>, piece: Bytes, more: multiset<(nat, Bytes)>)
    requires forall d :: d in data ==> IsPiece(pieces, d.0, d.1)
    requires more == data + multiset{(Off(pieces, |pieces|), piece)}
    ensures forall d :: d in more ==> IsPiece(pieces + [piece], d.0, d.1)
  {
    LongerKeepsOffsets(pieces, piece);
    forall d | d in more
      ensures IsPiece(pieces + [piece], d.0, d.1)
    {
      if d in data {
        IsPieceOfLonger(pieces, piece, d.0, d.1);
      }
    }
  }

  lemma LongerLosesNothing(s: System, t: System, piece: Bytes)
    requires NothingLost(s) && s.snd.next == Off(s.pieces, |s.pieces|)
    requires t.rcv == s.rcv && t.snd == Push(s.snd, piece) && t.pieces == s.pieces + [piece]
    ensures NothingLost(t)
  {
    forall i | 0 <= i < |t.pieces|
      ensures Off(t.pieces, i) in t.snd.unacked || Holds(t.rcv, t.pieces, i)
    {
      OffOfLonger(s.pieces, piece, i);
      if i < |s.pieces| {
        assert Off(s.pieces, i) in s.snd.unacked || Holds(s.rcv, s.pieces, i);
      }
    }
  }

  lemma SendDataKeepsInv(s: System, piece: Bytes)
    requires Inv(s) && !s.snd.fin && piece != []
    ensures Inv(Step(s, SendData(piece)).value)
  {
    var t := Step(s, SendData(piece)).value;
    LongerKeepsReceiver(s.rcv, s.pieces, piece);
    LongerKeepsSender(s.snd, s.pieces, piece);
    LongerKeepsAcks(s.acks, s.rcv, s.pieces, piece);
    LongerKeepsData(s.data, s.pieces, piece, t.data);
    LongerLosesNothing(s, t, piece);
  }

  lemma ReceiverStepKeepsInv(s: System, t: System)
    requires Inv(s) && ReceiverOk(t.rcv, s.pieces) && Gains(s.rcv, t.rcv, s.pieces)
    requires t == s.(rcv := t.rcv, data := t.data) && t.data <= s.data && CloseOk(t)
    ensures Inv(t)
  {
  }

  lemma NetworkStepKeepsInv(s: System, t: System)
    requires Inv(s) && t == s.(data := t.data)
    requires forall d :: d in t.data ==> IsPiece(s.pieces, d.0, d.1)
    ensures Inv(t)
  {
  }

  lemma DataArrivesKeepsInv(s: System, a: Action)
    requires Inv(s) && a.DataArrives? && Step(s, a).Some?
    ensures Inv(Step(s, a).value)
  {
    var t := Step(s, a).value;
    assert ReceiverOk(t.rcv, s.pieces);
    ReceiverStepKeepsInv(s, t);
  }

  lemma DrainKeepsInv(s: System, room: nat)
    requires Inv(s)
    ensures Inv(s.(rcv := Drain(s.rcv, room)))
  {
    DrainFacts(s.rcv, s.pieces, room);
    ReceiverStepKeepsInv(s, s.(rcv := Drain(s.rcv, room)));
  }

  lemma SendAckKeepsInv(s: System, a: Action)
    requires Inv(s) && a.SendAck? && Step(s, a).Some?
    ensures Inv(Step(s, a).value)
  {
    NewAckIsTrue(s.rcv, s.pieces, a.upTo);
  }

  lemma AckArrivesKeepsInv(s: System, a: Action)
    requires Inv(s) && a.AckArrives? && Step(s, a).Some?
    ensures Inv(Step(s, a).value)
  {
    OnAckKeepsUnheld(s.snd, a.a, s.rcv, s.pieces);
  }

  lemma SendCloseKeepsInv(s: System, t: System)
    requires Inv(s) && t == s.(snd := s.snd.(fin := t.snd.fin), closes := t.closes) && CloseOk(t)
    ensures Inv(t)
  {
    assert SenderOk(t.snd, s.pieces);
  }

  lemma CloseSendKeepsInv(s: System)
    requires Inv(s)
    ensures Inv(s.(snd := s.snd.(fin := true), closes := s.closes + {Some(s.snd.next)}))
    ensures Inv(s.(closes := s.closes + {None}))
  {
    SendCloseKeepsInv(s, s.(snd := s.snd.(fin := true), closes := s.closes + {Some(s.snd.next)}));
    SendCloseKeepsInv(s, s.(closes := s.closes + {None}));
  }

  lemma RecvCloseKeepsInv(s: System, r: Receiver)
    requires Inv(s) && CloseOk(s.(rcv := r))
    requires r == s.rcv.(newest := r.newest, closeOff := r.closeOff, fin := r.fin)
    ensures Inv(s.(rcv := r))
  {
    assert ReceiverOk(r, s.pieces);
    ReceiverStepKeepsInv(s, s.(rcv := r));
  }

  lemma CloseArrivesKeepsInv(s: System, final: Option<nat>)
    requires Inv(s) && final in s.closes
    ensures Inv(s.(rcv := PeerClose(s.rcv, final)))
  {
    RecvCloseKeepsInv(s, PeerClose(s.rcv, final));
  }

  lemma StepKeepsInv(s: System, a: Action)
    requires Inv(s) && Step(s, a).Some?
    ensures Inv(Step(s, a).value)
  {
    match a
    case SendData(piece) => SendDataKeepsInv(s, piece);
    case Resend(_) => NetworkStepKeepsInv(s, Step(s, a).value);
    case DataArrives(_, _) => DataArrivesKeepsInv(s, a);
    case DataLost(_, _) => NetworkStepKeepsInv(s, Step(s, a).value);
    case DrainRecv(room) => DrainKeepsInv(s, room);
    case SendAck(_) => SendAckKeepsInv(s, a);
    case AckArrives(_) => AckArrivesKeepsInv(s, a);
    case NoteNewest(off) => RecvCloseKeepsInv(s, s.rcv.(newest := off));
    case CloseSend => CloseSendKeepsInv(s);
    case LegacyClose => CloseSendKeepsInv(s);
    case CloseArrives(final) => CloseArrivesKeepsInv(s, final);
    case Finish => RecvCloseKeepsInv(s, TryFinish(s.rcv));
  }

  lemma {:induction false} RunKeepsInv(s: System, acts: seq<Action>)
    requires Inv(s) && Run(s, acts).Some?
    ensures Inv(Run(s, acts).value)
    decreases |acts|
  {
    if acts != [] {
      StepKeepsInv(s, acts[0]);
      RunKeepsInv(Step(s, acts[0]).value, acts[1..]);
    }
  }

  // ------------------------------------------------------------ main results

  // What the application wrote in a run.
  function Written(acts: seq<Action>): seq<Bytes> {
    if acts == [] then []
    else (if acts[0].SendData? then [acts[0].piece] else []) + Written(acts[1..])
  }

  lemma {:induction false} RunRecordsPieces(s: System, acts: seq<Action>)
    requires Run(s, acts).Some?
    ensures Run(s, acts).value.pieces == s.pieces + Written(acts)
    decreases |acts|
  {
    if acts != [] {
      var t := Step(s, acts[0]).value;
      StepRecordsPieces(s, acts[0]);
      RunRecordsPieces(t, acts[1..]);
      var one := if acts[0].SendData? then [acts[0].piece] else [];
      assert Run(s, acts) == Run(t, acts[1..]);
      assert (s.pieces + one) + Written(acts[1..]) == s.pieces + (one + Written(acts[1..]));
    }
  }

  lemma StepRecordsPieces(s: System, a: Action)
    requires Step(s, a).Some?
    ensures Step(s, a).value.pieces == s.pieces + if a.SendData? then [a.piece] else []
  {
  }

  // Whatever the network does, the application reads a prefix of what was
  // written, in whole pieces, and a piece the receiver does not hold is still
  // queued at the sender with its own bytes.
  lemma InOrderAndNothingLost(acts: seq<Action>)
    requires Run(Init(), acts).Some?
    ensures var t, w := Run(Init(), acts).value, Written(acts);
            && t.rcv.taken <= |w|
            && t.rcv.out == Concat(w[..t.rcv.taken])
            && t.rcv.out <= Concat(w)
            && (forall k :: k in t.rcv.buf ==> k >= |t.rcv.out|)
            && (forall i :: t.rcv.taken <= i < |w| && Off(w, i) !in t.rcv.buf ==>
                  Off(w, i) in t.snd.unacked && t.snd.unacked[Off(w, i)] == w[i])
  {
    var t, w := Run(Init(), acts).value, Written(acts);
    InitInv();
    RunKeepsInv(Init(), acts);
    RunRecordsPieces(Init(), acts);
    assert t.pieces == w;
    ConcatSplit(w, t.rcv.taken);
    OffIsLength(w, t.rcv.taken);
    forall i | t.rcv.taken <= i < |w| && Off(w, i) !in t.rcv.buf
      ensures Off(w, i) in t.snd.unacked && t.snd.unacked[Off(w, i)] == w[i]
    {
      assert Off(w, i) in t.snd.unacked || Holds(t.rcv, w, i);
      UnackedIs(t.snd, w, i);
    }
  }

  lemma UnackedIs(s: Sender, pieces: seq<Bytes>, i: nat)
    requires NoneEmpty(pieces) && SenderOk(s, pieces) && i < |pieces| && Off(pieces, i) in s.unacked
    ensures s.unacked[Off(pieces, i)] == pieces[i]
  {
    var k := Off(pieces, i);
    var x :| 0 <= x < |pieces| && Off(pieces, x) == k && pieces[x] == s.unacked[k];
    SameOffset(pieces, x, i);
  }

  // In every reachable state the buffered chunks are non-empty and do not
  // overlap, so an acknowledgement's ranges are whole maximal runs.
  lemma BufferIsDisjoint(acts: seq<Action>)
    requires Run(Init(), acts).Some?
    ensures Disjoint(Chunks(Run(Init(), acts).value.rcv.buf))
  {
    InitInv();
    RunKeepsInv(Init(), acts);
    ChunksDisjoint(Run(Init(), acts).value);
  }

  ghost predicate CountsToGap(r: Receiver) {
    var held := Held(From(Chunks(r.buf), r.next), r.next);
    && (forall b: nat :: r.next <= b < r.next + held ==> Buffered(r.buf, b))
    && !Buffered(r.buf, r.next + held)
  }

  lemma CountOf(t: System)
    requires Inv(t)
    ensures CountsToGap(t.rcv)
  {
    ChunksDisjoint(t);
    InOrderHeldIsMaximal(t.rcv.buf, t.rcv.next);
  }

  // In every reachable state the in-order count is exactly what is buffered from
  // the next offset up to the first gap.
  lemma InOrderCountIsMaximal(acts: seq<Action>)
    requires Run(Init(), acts).Some?
    ensures CountsToGap(Run(Init(), acts).value.rcv)
  {
    InitInv();
    RunKeepsInv(Init(), acts);
    CountOf(Run(Init(), acts).value);
  }

  lemma ChunksDisjoint(t: System)
    requires Inv(t)
    ensures Disjoint(Chunks(t.rcv.buf))
  {
    var keys: seq<nat> := Sorted(t.rcv.buf.Keys);
    var chunks := Chunks(t.rcv.buf);
    forall i | 0 <= i < |chunks|
      ensures chunks[i].lo < chunks[i].hi
    {
      assert keys[i] in keys;
    }
    forall i, j | 0 <= i < j < |chunks|
      ensures chunks[i].hi <= chunks[j].lo
    {
      assert keys[i] in keys && keys[j] in keys;
      ApartInOrder(t.rcv, t.pieces, keys[i], keys[j]);
    }
  }

  lemma {:induction false} NoLegacyClose(s: System, acts: seq<Action>)
    requires Run(s, acts).Some? && LegacyClose !in acts && None !in s.closes
    ensures None !in Run(s, acts).value.closes
    decreases |acts|
  {
    if acts != [] {
      assert acts[0] in acts;
      NoLegacyClose(Step(s, acts[0]).value, acts[1..]);
    }
  }

  lemma AllTaken(s: System)
    requires Inv(s)
    ensures s.rcv.next >= s.snd.next <==> s.rcv.taken == |s.pieces|
    ensures s.rcv.taken == |s.pieces| ==> s.rcv.out == Concat(s.pieces)
  {
    assert s.pieces[..|s.pieces|] == s.pieces;
    if s.rcv.taken < |s.pieces| {
      OffIncreases(s.pieces, s.rcv.taken, |s.pieces|);
    }
  }

  // When every close carries its final offset, a finished receive side has
  // handed over everything written, and no more can be written.
  lemma FinishedMeansComplete(acts: seq<Action>)
    requires Run(Init(), acts).Some? && LegacyClose !in acts
    ensures Run(Init(), acts).value.rcv.fin ==>
              Run(Init(), acts).value.rcv.out == Concat(Written(acts)) && Run(Init(), acts).value.snd.fin
  {
    var t := Run(Init(), acts).value;
    InitInv();
    RunKeepsInv(Init(), acts);
    NoLegacyClose(Init(), acts);
    RunRecordsPieces(Init(), acts);
    assert t.pieces == Written(acts);
    AllTaken(t);
  }

  // ---------------------------------------------- completion stays reachable

  ghost predicate Reaches(s: System, t: System) {
    exists acts :: Run(s, acts) == Some(t)
  }

  lemma ReachesMore(s: System, t: System, u: System)
    requires Reaches(s, t) && Reaches(t, u)
    ensures Reaches(s, u)
  {
    var a :| Run(s, a) == Some(t);
    var b :| Run(t, b) == Some(u);
    RunAppend(s, a, b);
    assert Run(s, a + b) == Some(u);
  }

  lemma ReachesStep(s: System, a: Action, t: System)
    requires Step(s, a) == Some(t)
    ensures Reaches(s, t)
  {
    assert [a][1..] == [];
    assert Run(s, [a]) == Run(t, []);
  }

  ghost predicate Better(s: System, t: System) {
    Inv(t) && t.pieces == s.pieces && t.closes == s.closes && t.rcv.closeOff == s.rcv.closeOff && t.rcv.taken == s.rcv.taken + 1
  }

  // Not cut short by an offset-less close.
  predicate Open(s: System) {
    None !in s.closes || s.rcv.closeOff.None?
  }

  lemma DrainHead(s: System)
    requires Inv(s) && s.rcv.taken < |s.pieces| && s.rcv.next in s.rcv.buf
    ensures exists t :: Reaches(s, t) && Better(s, t)
  {
    var t := s.(rcv := Drain(s.rcv, 1));
    DrainKeepsInv(s, 1);
    DrainFacts(s.rcv, s.pieces, 1);
    assert Drain(s.rcv, 1).taken == s.rcv.taken + 1;
    ReachesStep(s, DrainRecv(1), t);
  }

  lemma HeadIsQueued(s: System)
    requires Inv(s) && s.rcv.taken < |s.pieces| && s.rcv.next !in s.rcv.buf
    ensures s.rcv.next in s.snd.unacked
  {
    assert Off(s.pieces, s.rcv.taken) in s.snd.unacked || Holds(s.rcv, s.pieces, s.rcv.taken);
  }

  lemma HeadIsAccepted(s: System, bytes: Bytes)
    requires Inv(s) && Open(s) && s.rcv.taken < |s.pieces|
    ensures Insert(s.rcv, s.rcv.next, bytes) == s.rcv.(buf := s.rcv.buf[s.rcv.next := bytes])
  {
    AllTaken(s);
  }

  // A missing head is re-sent and arrives.
  lemma RefetchHead(s: System)
    requires Inv(s) && Open(s) && s.rcv.taken < |s.pieces| && s.rcv.next !in s.rcv.buf
    ensures s.rcv.next in s.snd.unacked
    ensures var t := s.(rcv := s.rcv.(buf := s.rcv.buf[s.rcv.next := s.snd.unacked[s.rcv.next]]));
            Reaches(s, t) && Inv(t)
  {
    HeadIsQueued(s);
    var off, bytes := s.rcv.next, s.snd.unacked[s.rcv.next];
    HeadIsAccepted(s, bytes);
    var t := s.(rcv := s.rcv.(buf := s.rcv.buf[off := bytes]));
    var u := s.(data := s.data + multiset{(off, bytes)});
    StepKeepsInv(s, Resend(off));
    ReachesStep(s, Resend(off), u);
    assert u.data - multiset{(off, bytes)} == s.data;
    assert Step(u, DataArrives(off, bytes)) == Some(t);
    StepKeepsInv(u, DataArrives(off, bytes));
    ReachesStep(u, DataArrives(off, bytes), t);
    ReachesMore(s, u, t);
  }

  lemma OneMore(s: System)
    requires Inv(s) && Open(s) && s.rcv.taken < |s.pieces|
    ensures exists t :: Reaches(s, t) && Better(s, t)
  {
    if s.rcv.next in s.rcv.buf {
      DrainHead(s);
    } else {
      RefetchHead(s);
      var u := s.(rcv := s.rcv.(buf := s.rcv.buf[s.rcv.next := s.snd.unacked[s.rcv.next]]));
      DrainHead(u);
      var t :| Reaches(u, t) && Better(u, t);
      ReachesMore(s, u, t);
      assert Better(s, t);
    }
  }

  ghost predicate AllHandedOver(s: System, t: System) {
    Inv(t) && t.pieces == s.pieces && t.rcv.taken == |s.pieces|
  }

  lemma {:induction false} TakeAll(s: System)
    requires Inv(s) && Open(s)
    ensures exists t :: Reaches(s, t) && AllHandedOver(s, t)
    decreases |s.pieces| - s.rcv.taken
  {
    if s.rcv.taken == |s.pieces| {
      assert Run(s, []) == Some(s);
      assert Reaches(s, s) && AllHandedOver(s, s);
    } else {
      OneMore(s);
      var u :| Reaches(s, u) && Better(s, u);
      TakeAll(u);
      var t :| Reaches(u, t) && AllHandedOver(u, t);
      ReachesMore(s, u, t);
      assert AllHandedOver(s, t);
    }
  }

  predicate Complete(t: System, bytes: Bytes) {
    t.rcv.out == bytes && t.snd.unacked == map[]
  }

  lemma FinalAck(s: System)
    requires Inv(s) && s.rcv.taken == |s.pieces|
    ensures OnAck(s.snd, Ack(s.rcv.next, Ranges(s.rcv.buf, s.rcv.newest))).unacked == map[]
  {
    var a := Ack(s.rcv.next, Ranges(s.rcv.buf, s.rcv.newest));
    forall k | k in s.snd.unacked
      ensures k in Cumulative(s.snd, a)
    {
      var x :| 0 <= x < |s.pieces| && Off(s.pieces, x) == k && s.pieces[x] == s.snd.unacked[k];
      OffIncreases(s.pieces, x, |s.pieces|);
    }
  }

  lemma AckTheRest(s: System)
    requires Inv(s) && s.rcv.taken == |s.pieces|
    ensures exists t :: Reaches(s, t) && Complete(t, Concat(s.pieces))
  {
    AllTaken(s);
    FinalAck(s);
    var x := Ack(s.rcv.next, Ranges(s.rcv.buf, s.rcv.newest));
    var u := s.(acks := s.acks + {x});
    ReachesStep(s, SendAck(s.rcv.next), u);
    var t := u.(snd := OnAck(s.snd, x));
    ReachesStep(u, AckArrives(x), t);
    ReachesMore(s, u, t);
    assert Complete(t, Concat(s.pieces));
  }

  // From every reachable state the rest of the stream can still be delivered
  // and acknowledged: loss never leaves a transfer beyond repair.
  lemma CompletionStaysReachable(past: seq<Action>)
    requires Run(Init(), past).Some? && LegacyClose !in past
    ensures exists t :: Reaches(Run(Init(), past).value, t) && Complete(t, Concat(Written(past)))
  {
    var s := Run(Init(), past).value;
    InitInv();
    RunKeepsInv(Init(), past);
    NoLegacyClose(Init(), past);
    RunRecordsPieces(Init(), past);
    assert s.pieces == Written(past);
    TakeAll(s);
    var u :| Reaches(s, u) && AllHandedOver(s, u);
    AckTheRest(u);
    var t :| Reaches(u, t) && Complete(t, Concat(u.pieces));
    ReachesMore(s, u, t);
  }

  // -------------------------------------------------- closes without an offset

  lemma RunTwo(s: System, a: Action, t: System, b: Action, u: System)
    requires Step(s, a) == Some(t) && Step(t, b) == Some(u)
    ensures Run(s, [a, b]) == Some(u)
  {
    assert [a, b][1..] == [b] && [b][1..] == [];
    assert Run(t, [b]) == Run(u, []);
  }

  lemma LegacyCloseThenFinish(s: System)
    requires None in s.closes && s.rcv.closeOff.None? && !s.rcv.fin
    ensures Run(s, [CloseArrives(None), Finish]) == Some(s.(rcv := s.rcv.(closeOff := Some(s.rcv.next), fin := true)))
  {
    var t := s.(rcv := s.rcv.(closeOff := Some(s.rcv.next)));
    var u := s.(rcv := s.rcv.(closeOff := Some(s.rcv.next), fin := true));
    assert Step(s, CloseArrives(None)) == Some(t);
    assert Step(t, Finish) == Some(u);
    RunTwo(s, CloseArrives(None), t, Finish, u);
  }

  // An offset-less close that arrives first ends the stream where the receiver
  // stands: with everything written exactly when the receiver had got to the
  // sender's end.
  lemma LegacyCloseTruncatesIff(s: System)
    requires Inv(s) && None in s.closes && s.rcv.closeOff.None?
    ensures Run(s, [CloseArrives(None), Finish]).Some? && Run(s, [CloseArrives(None), Finish]).value.rcv.fin
    ensures Run(s, [CloseArrives(None), Finish]).value.rcv.out == Concat(s.pieces) <==> s.rcv.next == s.snd.next
  {
    LegacyCloseThenFinish(s);
    AllTaken(s);
    OffIsLength(s.pieces, s.rcv.taken);
    OffIsLength(s.pieces, |s.pieces|);
    NextWithinPieces(s.rcv, s.pieces);
    assert s.pieces[..|s.pieces|] == s.pieces;
  }

  // A run in which one byte was written and none was handed over.
  lemma LegacyCloseCanTruncate()
    ensures var acts := [SendData([1]), LegacyClose, CloseArrives(None), Finish];
            && Run(Init(), acts).Some? && Written(acts) == [[1]]
            && Run(Init(), acts).value.rcv.fin && Run(Init(), acts).value.rcv.out == []
  {
    var acts := [SendData([1]), LegacyClose, CloseArrives(None), Finish];
    var s1 := Step(Init(), SendData([1])).value;
    var s2 := Step(s1, LegacyClose).value;
    InitInv();
    StepKeepsInv(Init(), SendData([1]));
    StepKeepsInv(s1, LegacyClose);
    LegacyCloseThenFinish(s2);
    assert acts[1..][1..] == [CloseArrives(None), Finish];
    assert Run(s1, acts[1..]) == Run(s2, acts[1..][1..]);
    assert Run(Init(), acts) == Run(s1, acts[1..]);
    assert Written(acts[1..][1..][1..][1..]) == [];
  }

  // The receiver stands at or past its close: it takes in nothing more.
  predicate Shut(r: Receiver) {
    r.closeOff.Some? && r.closeOff.value <= r.next
  }

  lemma {:induction false} DrainAddsNothing(r: Receiver, pieces: seq<Bytes>, room: nat)
    requires NoneEmpty(pieces) && ReceiverOk(r, pieces)
    ensures forall i :: 0 <= i < |pieces| && Holds(Drain(r, room), pieces, i) ==> Holds(r, pieces, i)
    decreases room
  {
    if room > 0 && r.next in r.buf {
      HeadIsNextPiece(r, pieces);
      TakeOneKeepsOk(r, pieces);
      DrainAddsNothing(TakeOne(r), pieces, room - 1);
      assert forall i :: 0 <= i < |pieces| && Holds(TakeOne(r), pieces, i) ==> Holds(r, pieces, i);
    }
  }

  // What a shut receiver holds of the first n pieces is what it held.
  ghost predicate Frozen(s: System, t: System) {
    && Inv(t) && Shut(t.rcv) && s.pieces <= t.pieces
    && forall i :: 0 <= i < |s.pieces| && Holds(t.rcv, t.pieces, i) ==> Holds(s.rcv, s.pieces, i)
  }

  lemma ShutStep(t: System, a: Action)
    requires Inv(t) && Shut(t.rcv) && Step(t, a).Some?
    ensures var u := Step(t, a).value;
            && Inv(u) && Shut(u.rcv) && t.pieces <= u.pieces
            && forall i :: 0 <= i < |t.pieces| && Holds(u.rcv, t.pieces, i) ==> Holds(t.rcv, t.pieces, i)
  {
    StepKeepsInv(t, a);
    StepRecordsPieces(t, a);
    if a.DrainRecv? {
      DrainAddsNothing(t.rcv, t.pieces, a.room);
      DrainFacts(t.rcv, t.pieces, a.room);
    }
  }

  lemma PrefixHolds(r: Receiver, pieces: seq<Bytes>, more: seq<Bytes>, i: nat)
    requires pieces <= more && i < |pieces|
    ensures Holds(r, more, i) <==> Holds(r, pieces, i)
  {
    PrefixOff(pieces, more, i);
  }

  lemma {:induction false} PrefixOff(pieces: seq<Bytes>, more: seq<Bytes>, i: nat)
    requires pieces <= more && i <= |pieces|
    ensures Off(more, i) == Off(pieces, i)
  {
    if i > 0 {
      PrefixOff(pieces, more, i - 1);
    }
  }

  lemma FrozenStep(s: System, t: System, a: Action)
    requires Frozen(s, t) && Step(t, a).Some?
    ensures Frozen(s, Step(t, a).value)
  {
    ShutStep(t, a);
    var u := Step(t, a).value;
    forall i | 0 <= i < |s.pieces| && Holds(u.rcv, u.pieces, i)
      ensures Holds(s.rcv, s.pieces, i)
    {
      PrefixHolds(u.rcv, t.pieces, u.pieces, i);
    }
  }

  lemma {:induction false} FrozenRun(s: System, t: System, acts: seq<Action>)
    requires Frozen(s, t) && Run(t, acts).Some?
    ensures Frozen(s, Run(t, acts).value)
    decreases |acts|
  {
    if acts != [] {
      FrozenStep(s, t, acts[0]);
      FrozenRun(s, Step(t, acts[0]).value, acts[1..]);
    }
  }

  predicate HoldsAll(s: System) {
    forall i :: 0 <= i < |s.pieces| ==> Holds(s.rcv, s.pieces, i)
  }

  lemma {:induction false} DrainAll(s: System)
    requires Inv(s) && HoldsAll(s)
    ensures exists t :: Reaches(s, t) && t.rcv.out == Concat(s.pieces)
    decreases |s.pieces| - s.rcv.taken
  {
    AllTaken(s);
    if s.rcv.taken == |s.pieces| {
      assert Run(s, []) == Some(s);
      assert Reaches(s, s);
    } else {
      assert Holds(s.rcv, s.pieces, s.rcv.taken);
      var u := s.(rcv := Drain(s.rcv, 1));
      DrainFacts(s.rcv, s.pieces, 1);
      DrainKeepsInv(s, 1);
      assert Drain(s.rcv, 1).taken == s.rcv.taken + 1;
      ReachesStep(s, DrainRecv(1), u);
      DrainAll(u);
      var t :| Reaches(u, t) && t.rcv.out == Concat(s.pieces);
      ReachesMore(s, u, t);
    }
  }

  lemma TakenMeansHeld(t: System, pieces: seq<Bytes>)
    requires Inv(t) && pieces <= t.pieces && |Concat(pieces)| <= |t.rcv.out|
    ensures forall i :: 0 <= i < |pieces| ==> Holds(t.rcv, t.pieces, i)
  {
    OffIsLength(t.pieces, t.rcv.taken);
    OffIsLength(t.pieces, |pieces|);
    assert t.pieces[..|pieces|] == pieces;
    if t.rcv.taken < |pieces| {
      OffIncreases(t.pieces, t.rcv.taken, |pieces|);
    }
  }

  // Once an offset-less close has arrived, everything written can still be
  // handed over exactly when the receiver already held all of it.
  lemma LegacyCloseHarmlessIff(s: System)
    requires Inv(s) && None in s.closes && s.rcv.closeOff.None?
    ensures var t := Step(s, CloseArrives(None)).value;
            (exists u :: Reaches(t, u) && Concat(s.pieces) <= u.rcv.out) <==> HoldsAll(s)
  {
    var t := Step(s, CloseArrives(None)).value;
    StepKeepsInv(s, CloseArrives(None));
    assert forall i :: 0 <= i < |s.pieces| && Holds(t.rcv, t.pieces, i) ==> Holds(s.rcv, s.pieces, i);
    assert Frozen(s, t);
    if u :| Reaches(t, u) && Concat(s.pieces) <= u.rcv.out {
      var acts :| Run(t, acts) == Some(u);
      FrozenRun(s, t, acts);
      TakenMeansHeld(u, s.pieces);
    }
    if HoldsAll(s) {
      assert forall i :: 0 <= i < |s.pieces| ==> Holds(t.rcv, t.pieces, i) by {
        assert forall i :: 0 <= i < |s.pieces| && Holds(s.rcv, s.pieces, i) ==> Holds(t.rcv, t.pieces, i);
      }
      DrainAll(t);
    }
  }
}
