// Sending and receiving ends of one overlay stream
// (crates/nya-core/src/session/streams.rs, crates/nya-core/src/stream.rs).
//
// Pieces carry absolute offsets and travel over any path; the receiver puts
// them back in order, the sender keeps every piece until it is acknowledged.
module Overlay {
  import opened Common
  import opened Sack

  // `out` and `taken` are history: the bytes handed to the application and the
  // number of pieces they came in.
  datatype Receiver = Receiver(
    next: nat,
    buf: Buffer,
    newest: nat,
    closeOff: Option<nat>,
    fin: bool,
    out: Bytes,
    taken: nat)

  datatype Sender = Sender(next: nat, acked: nat, unacked: Buffer, fin: bool)

  datatype Ack = Ack(upTo: nat, sack: seq<Range>)

  function NewReceiver(): Receiver {
    Receiver(0, map[], 0, None, false, [], 0)
  }

  function NewSender(): Sender {
    Sender(0, 0, map[], false)
  }

  // What a DATA arrival leaves: ignored when the receive side is complete, the
  // piece lies past the sender's final offset, or, under the buffer's lock, when
  // it was delivered already.
  function Insert(r: Receiver, off: nat, data: Bytes): Receiver {
    if r.fin || (r.closeOff.Some? && off >= r.closeOff.value) || off < r.next then r
    else r.(buf := r.buf[off := data])
  }

  // Hands over in-order chunks while the application's channel takes them.
  function Drain(r: Receiver, room: nat): Receiver
    decreases room
  {
    if room == 0 || r.next !in r.buf then r
    else
      var chunk := r.buf[r.next];
      Drain(r.(next := r.next + |chunk|, buf := r.buf - {r.next}, out := r.out + chunk, taken := r.taken + 1), room - 1)
  }

  // The first close decides; an old peer's close carries no offset.
  function PeerClose(r: Receiver, final: Option<nat>): Receiver {
    if r.closeOff.Some? then r
    else r.(closeOff := Some(if final.Some? then final.value else r.next))
  }

  function TryFinish(r: Receiver): Receiver {
    if r.closeOff.Some? && !r.fin && r.next >= r.closeOff.value then r.(fin := true) else r
  }

  function Push(s: Sender, data: Bytes): Sender {
    s.(next := s.next + |data|, unacked := s.unacked[s.next := data])
  }

  // Pieces an acknowledgement releases: those wholly below the cumulative
  // offset, when that moved, and those inside a selective range.
  function Cumulative(s: Sender, a: Ack): set<nat> {
    if a.upTo > s.acked then set k | k in s.unacked && k + |s.unacked[k]| <= a.upTo else {}
  }

  function Selective(m: Buffer, sack: seq<Range>): set<nat> {
    set k | k in m && exists i :: 0 <= i < |sack| && sack[i].lo <= k && k + |m[k]| <= sack[i].hi
  }

  function OnAck(s: Sender, a: Ack): Sender {
    var kept := s.unacked - Cumulative(s, a);
    s.(acked := Max(s.acked, a.upTo), unacked := kept - Selective(kept, a.sack))
  }

  class StreamReceiver {
    var next: nat
    var buf: Buffer
    var newest: nat
    var closeOff: Option<nat>
    var fin: bool
    ghost var out: Bytes
    ghost var taken: nat

    ghost function State(): Receiver
      reads this
    {
      Receiver(next, buf, newest, closeOff, fin, out, taken)
    }

    constructor ()
      ensures State() == NewReceiver()
    {
      next, buf, newest, closeOff, fin, out, taken := 0, map[], 0, None, false, [], 0;
    }

    // True exactly when a piece is buffered at an offset that was free: the first
    // copy, which is what drives a drain.
    method InsertData(off: nat, data: Bytes) returns (first: bool)
      modifies `buf
      ensures State() == Insert(old(State()), off, data)
      ensures first <==> off !in old(buf) && off in buf
    {
      if fin || (closeOff.Some? && off >= closeOff.value) || off < next {
        return false;
      }
      first := off !in buf;
      buf := buf[off := data];
    }

    // `room` is how many chunks the inbound channel accepts before it is full.
    method DrainRecv(room: nat) returns (handed: seq<Bytes>)
      modifies `next, `buf, `out, `taken
      ensures State() == Drain(old(State()), room)
      ensures out == old(out) + Concat(handed)
    {
      handed := [];
      var left: nat := room;
      while left > 0 && next in buf
        invariant left <= room
        invariant Drain(State(), left) == Drain(old(State()), room)
        invariant out == old(out) + Concat(handed)
      {
        var chunk := buf[next];
        buf := buf - {next};
        next := next + |chunk|;
        ConcatAppend(handed, chunk);
        handed := handed + [chunk];
        out := out + chunk;
        taken := taken + 1;
        left := left - 1;
      }
    }

    method OnClose(final: Option<nat>)
      modifies `closeOff, `fin
      ensures State() == TryFinish(PeerClose(old(State()), final))
    {
      if closeOff.None? {
        closeOff := Some(if final.Some? then final.value else next);
      }
      Finish();
    }

    method Finish()
      modifies `fin
      ensures State() == TryFinish(old(State()))
    {
      if closeOff.Some? && !fin && next >= closeOff.value {
        fin := true;
      }
    }

    method MakeAck() returns (a: Ack)
      ensures a == Ack(next, Ranges(buf, newest))
    {
      var sack := SackRanges(buf, newest);
      a := Ack(next, sack);
    }
  }

  class StreamSender {
    var next: nat
    var acked: nat
    var unacked: Buffer
    var fin: bool

    ghost function State(): Sender
      reads this
    {
      Sender(next, acked, unacked, fin)
    }

    constructor ()
      ensures State() == NewSender()
    {
      next, acked, unacked, fin := 0, 0, map[], false;
    }

    method SendPiece(data: Bytes)
      modifies `next, `unacked
      ensures State() == Push(old(State()), data)
    {
      unacked := unacked[next := data];
      next := next + |data|;
    }

    method Release(keys: set<nat>)
      modifies `unacked
      ensures unacked == old(unacked) - keys
    {
      var todo := keys;
      while todo != {}
        invariant todo <= keys
        invariant unacked == old(unacked) - (keys - todo)
        decreases todo
      {
        var k :| k in todo;
        unacked := unacked - {k};
        todo := todo - {k};
      }
    }

    method AckArrived(a: Ack)
      modifies `acked, `unacked
      ensures State() == OnAck(old(State()), a)
    {
      ghost var s := State();
      if a.upTo > acked {
        acked := a.upTo;
        var below := set k | k in unacked && k + |unacked[k]| <= a.upTo;
        assert below == Cumulative(s, a);
        Release(below);
      }
      if a.sack != [] {
        var inside := set k | k in unacked && exists i :: 0 <= i < |a.sack| && a.sack[i].lo <= k && k + |unacked[k]| <= a.sack[i].hi;
        assert inside == Selective(unacked, a.sack);
        Release(inside);
      }
    }
  }
}
