// Frames built byte by byte, parsed by a moving offset, and carried in
// length-prefixed form (crates/nya-proto/src/frame.rs, crates/nya-proto/src/codec.rs).
module FrameIo {
  import opened Common
  import opened Codec
  import Sack

  // ---------------------------------------------------------------- encoding

  method PutStr(o: Bytes, s: Text) returns (out: Bytes)
    ensures out == o + PutText(s)
  {
    var len := if |s| < 0x1_0000 then |s| else 0xFFFF;
    out := o + BigEndian(2, len);
    out := out + s[..len];
    assert out == o + (BigEndian(2, len) + s[..len]);
  }

  lemma PairsStep(o: Bytes, sack: seq<(U64, U64)>, i: nat, n: nat)
    requires i < n <= |sack|
    ensures o + PutPairs(sack[i..n]) == o + BigEndian(8, sack[i].0) + BigEndian(8, sack[i].1) + PutPairs(sack[i + 1..n])
  {
    assert sack[i..n][1..] == sack[i + 1..n];
  }

  method PutEach(o: Bytes, sack: seq<(U64, U64)>, n: nat) returns (out: Bytes)
    requires n <= |sack|
    ensures out == o + PutPairs(sack[..n])
  {
    out := o;
    assert sack[0..n] == sack[..n];
    for i := 0 to n
      invariant out + PutPairs(sack[i..n]) == o + PutPairs(sack[..n])
    {
      PairsStep(out, sack, i, n);
      out := out + BigEndian(8, sack[i].0);
      out := out + BigEndian(8, sack[i].1);
    }
    assert sack[n..n] == [];
  }

  method PutRanges(o: Bytes, sack: seq<(U64, U64)>) returns (out: Bytes)
    ensures out == o + PutSack(sack)
  {
    out := o;
    if sack != [] {
      var n := if |sack| < MAX_SACK_RANGES then |sack| else MAX_SACK_RANGES;
      out := PutEach(o + [n as byte], sack, n);
      assert out == o + ([n as byte] + PutPairs(sack[..n]));
    }
  }

  // ----------------------------------------------------------------- parsing

  function Prefixed(sack: seq<(U64, U64)>, x: Result<(seq<(U64, U64)>, Bytes), Error>): Result<(seq<(U64, U64)>, Bytes), Error> {
    match x
    case Err(e) => Err(e)
    case Ok((more, rest)) => Ok((sack + more, rest))
  }

  lemma PrefixNone(x: Result<(seq<(U64, U64)>, Bytes), Error>)
    ensures Prefixed([], x) == x
  {
    if x.Ok? {
      assert [] + x.value.0 == x.value.0;
    }
  }

  lemma OneMorePair(n: nat, s: Bytes, sack: seq<(U64, U64)>)
    requires n > 0 && TakeU64(s).Ok? && TakeU64(TakeU64(s).value.1).Ok?
    ensures var (a, t) := TakeU64(s).value;
            var (b, u) := TakeU64(t).value;
            Prefixed(sack, TakePairs(n, s)) == Prefixed(sack + [(a, b)], TakePairs(n - 1, u))
  {
    var (a, t) := TakeU64(s).value;
    var (b, u) := TakeU64(t).value;
    var x := TakePairs(n - 1, u);
    if x.Ok? {
      assert sack + ([(a, b)] + x.value.0) == (sack + [(a, b)]) + x.value.0;
    }
  }

  class Parser {
    const buf: Bytes
    var off: nat

    ghost predicate Valid()
      reads this
    {
      off <= |buf|
    }

    ghost function Rest(): Bytes
      reads this
      requires Valid()
    {
      buf[off..]
    }

    // `r` and the new offset are what taking `x` from the old rest gives.
    ghost predicate Took<T(!new)>(x: Result<(T, Bytes), Error>, r: Result<T, Error>)
      reads this
    {
      && Valid()
      && match x
         case Err(e) => r == Err(e)
         case Ok((v, rest)) => r == Ok(v) && Rest() == rest
    }

    constructor (buf: Bytes)
      ensures this.buf == buf && off == 0
    {
      this.buf, off := buf, 0;
    }

    method Take(n: nat) returns (r: Result<Bytes, Error>)
      requires Valid()
      modifies this
      ensures Took(TakeBytes(n, old(Rest())), r)
    {
      if off + n > |buf| {
        return Err(Truncated);
      }
      assert buf[off..][..n] == buf[off..off + n] && buf[off..][n..] == buf[off + n..];
      r := Ok(buf[off..off + n]);
      off := off + n;
    }

    method U8() returns (r: Result<U8, Error>)
      requires Valid()
      modifies this
      ensures Took(TakeU8(old(Rest())), r)
    {
      if off + 1 > |buf| {
        return Err(Truncated);
      }
      var v := buf[off] as int;
      assert Number(old(Rest())[..1]) == v by {
        assert old(Rest())[..1] == [buf[off]];
        assert [buf[off]][..0] == [];
      }
      r := Ok(v);
      off := off + 1;
    }

    method U16() returns (r: Result<U16, Error>)
      requires Valid()
      modifies this
      ensures Took(TakeU16(old(Rest())), r)
    {
      var b :- Take(2);
      Pow256Values();
      r := Ok(Number(b));
    }

    method U32() returns (r: Result<U32, Error>)
      requires Valid()
      modifies this
      ensures Took(TakeU32(old(Rest())), r)
    {
      var b :- Take(4);
      Pow256Values();
      r := Ok(Number(b));
    }

    method U64() returns (r: Result<U64, Error>)
      requires Valid()
      modifies this
      ensures Took(TakeU64(old(Rest())), r)
    {
      var b :- Take(8);
      Pow256Values();
      r := Ok(Number(b));
    }

    method Str() returns (r: Result<Text, Error>)
      requires Valid()
      modifies this
      ensures Took(TakeText(old(Rest())), r)
    {
      var len :- U16();
      var b :- Take(len);
      if !Utf8(b) {
        return Err(BadUtf8);
      }
      r := Ok(b);
    }

    method Pairs(n: nat) returns (r: Result<seq<(U64, U64)>, Error>)
      requires Valid()
      modifies this
      ensures Valid()
      ensures match TakePairs(n, old(Rest()))
              case Err(e) => r == Err(e)
              case Ok((v, _)) => r == Ok(v)
    {
      var sack: seq<(U64, U64)> := [];
      ghost var s := Rest();
      assert Prefixed(sack, TakePairs(n, s)) == TakePairs(n, s) by {
        PrefixNone(TakePairs(n, s));
      }
      while |sack| < n
        invariant Valid() && |sack| <= n
        invariant Prefixed(sack, TakePairs(n - |sack|, Rest())) == TakePairs(n, s)
        decreases n - |sack|
      {
        ghost var t := Rest();
        var a :- U64();
        var b :- U64();
        OneMorePair(n - |sack|, t, sack);
        sack := sack + [(a, b)];
      }
      assert sack + [] == sack;
      r := Ok(sack);
    }

    // The optional tail of an acknowledgement.
    method Ranges() returns (r: Result<seq<(U64, U64)>, Error>)
      requires Valid()
      modifies this
      ensures Valid() && r == ParseSack(old(Rest()))
    {
      if buf[off..] == [] {
        return Ok([]);
      }
      var count :- U8();
      r := Pairs(if count < MAX_SACK_RANGES then count else MAX_SACK_RANGES);
    }

    method Create() returns (r: Result<Frame, Error>)
      requires Valid()
      modifies this
      ensures r == ParseCreate(old(Rest()))
    {
      var version :- U8();
      var user :- Str();
      var nonce :- Take(NONCE_LEN);
      var proof :- Take(PROOF_LEN);
      var path: Text := [];
      if buf[off..] != [] {
        path :- Str();
      }
      r := Ok(CreateSession(version, user, nonce, proof, path));
    }

    method Join() returns (r: Result<Frame, Error>)
      requires Valid()
      modifies this
      ensures r == ParseJoin(old(Rest()))
    {
      var id :- Take(SESSION_ID_LEN);
      var path :- Str();
      var proof :- Take(PROOF_LEN);
      r := Ok(JoinSession(id, path, proof));
    }

    method Open() returns (r: Result<Frame, Error>)
      requires Valid()
      modifies this
      ensures r == ParseOpen(old(Rest()))
    {
      var stream :- U32();
      var port :- U16();
      var host :- Str();
      r := Ok(StreamOpen(stream, Target(host, port)));
    }

    method Data() returns (r: Result<Frame, Error>)
      requires Valid()
      modifies this
      ensures r == ParseData(old(Rest()))
    {
      var stream :- U32();
      var offset :- U64();
      r := Ok(StreamData(stream, offset, buf[off..]));
    }

    method Ack() returns (r: Result<Frame, Error>)
      requires Valid()
      modifies this
      ensures r == ParseAck(old(Rest()))
    {
      var stream :- U32();
      var acked :- U64();
      var window :- U32();
      var sack :- Ranges();
      r := Ok(StreamAck(stream, acked, window, sack));
    }

    method Close() returns (r: Result<Frame, Error>)
      requires Valid()
      modifies this
      ensures r == ParseClose(old(Rest()))
    {
      var stream :- U32();
      var final: Option<U64> := None;
      if |buf[off..]| >= 8 {
        var v :- U64();
        final := Some(v);
      }
      r := Ok(StreamClose(stream, final));
    }

    method Reset() returns (r: Result<Frame, Error>)
      requires Valid()
      modifies this
      ensures r == ParseReset(old(Rest()))
    {
      var stream :- U32();
      var v :- U8();
      r := Ok(StreamReset(stream, ReasonOf(v)));
    }

    method Probe(pong: bool) returns (r: Result<Frame, Error>)
      requires Valid()
      modifies this
      ensures r == ParseBody(if pong then 0x02 else 0x01, old(Rest()))
    {
      var x :- U64();
      var y :- U64();
      r := Ok(if pong then Pong(x, y) else Ping(x, y));
    }
  }

  method DecodeFrame(buf: Bytes) returns (r: Result<Frame, Error>)
    ensures r == Decode(buf)
  {
    if buf == [] {
      return Err(Truncated);
    }
    var p := new Parser(buf);
    p.off := 1;
    var typ := buf[0];
    if typ == 0x01 || typ == 0x02 {
      r := p.Probe(typ == 0x02);
    } else if typ == 0x03 {
      r := p.Create();
    } else if typ == 0x04 {
      var id :- p.Take(SESSION_ID_LEN);
      r := Ok(CreateSessionOk(id));
    } else if typ == 0x05 {
      r := p.Join();
    } else if typ == 0x06 {
      r := Ok(JoinSessionOk);
    } else if typ == 0x07 {
      var m :- p.Str();
      r := Ok(HandshakeErr(m));
    } else if typ == 0x08 {
      r := p.Open();
    } else if typ == 0x09 {
      r := p.Data();
    } else if typ == 0x0A {
      r := p.Ack();
    } else if typ == 0x0B {
      r := p.Close();
    } else if typ == 0x0C {
      r := p.Reset();
    } else if typ == 0x0E {
      r := Ok(SessionClose);
    } else {
      r := Err(UnknownType(typ));
    }
  }

  method CreateBody(f: Frame) returns (o: Bytes)
    requires f.CreateSession?
    ensures o == Body(f)
  {
    o := [f.version as byte];
    o := PutStr(o, f.userId);
    o := o + f.nonce;
    o := o + f.proof;
    o := PutStr(o, f.pathName);
  }

  method JoinBody(f: Frame) returns (o: Bytes)
    requires f.JoinSession?
    ensures o == Body(f)
  {
    o := PutStr(f.sessionId, f.pathName);
    o := o + f.proof;
  }

  method OpenBody(f: Frame) returns (o: Bytes)
    requires f.StreamOpen?
    ensures o == Body(f)
  {
    o := BigEndian(4, f.stream);
    o := o + BigEndian(2, f.target.port);
    o := PutStr(o, f.target.host);
  }

  method AckBody(f: Frame) returns (o: Bytes)
    requires f.StreamAck?
    ensures o == Body(f)
  {
    o := BigEndian(4, f.stream);
    o := o + BigEndian(8, f.acked);
    o := o + BigEndian(4, f.window);
    o := PutRanges(o, f.sack);
  }

  method CloseBody(f: Frame) returns (o: Bytes)
    requires f.StreamClose?
    ensures o == Body(f)
  {
    o := BigEndian(4, f.stream);
    if f.final.Some? {
      o := o + BigEndian(8, f.final.value);
    }
  }

  method EncodeBody(f: Frame) returns (o: Bytes)
    ensures o == Body(f)
  {
    match f
    case Ping(s, t) => o := BigEndian(8, s) + BigEndian(8, t);
    case Pong(s, t) => o := BigEndian(8, s) + BigEndian(8, t);
    case CreateSession(_, _, _, _, _) => o := CreateBody(f);
    case CreateSessionOk(id) => o := id;
    case JoinSession(_, _, _) => o := JoinBody(f);
    case JoinSessionOk => o := [];
    case HandshakeErr(m) =>
      o := PutStr([], m);
      assert o == PutText(m);
    case StreamOpen(_, _) => o := OpenBody(f);
    case StreamData(stream, offset, data) =>
      o := BigEndian(4, stream) + (BigEndian(8, offset) + data);
    case StreamAck(_, _, _, _) => o := AckBody(f);
    case StreamClose(_, _) => o := CloseBody(f);
    case StreamReset(stream, reason) => o := BigEndian(4, stream) + [ReasonCode(reason) as byte];
    case SessionClose => o := [];
  }

  method EncodeFrame(f: Frame) returns (o: Bytes)
    ensures o == Encode(f)
  {
    var body := EncodeBody(f);
    o := [TypeOf(f)] + body;
  }

  // -------------------------------------------------------- length-prefixed

  const MAX_FRAME_SIZE: nat := 16384

  function FrameBytes(f: Frame): Result<Bytes, Error> {
    var payload := Encode(f);
    if |payload| > MAX_FRAME_SIZE then Err(BadLength(|payload|)) else Ok(BigEndian(4, |payload|) + payload)
  }

  // Reading one frame from what a connection still holds, and what is left.
  function ReadFrom(s: Bytes): (Result<Frame, Error>, Bytes) {
    if |s| < 4 then (Err(Io), [])
    else
      var len := Number(s[..4]);
      if len == 0 || len > MAX_FRAME_SIZE then (Err(BadLength(len)), s[4..])
      else if |s| < 4 + len then (Err(Io), [])
      else (Decode(s[4..4 + len]), s[4 + len..])
  }

  class Wire {
    var bytes: Bytes

    constructor ()
      ensures bytes == []
    {
      bytes := [];
    }

    method WriteFrame(f: Frame) returns (r: Result<(), Error>)
      modifies this
      ensures match FrameBytes(f)
              case Err(e) => r == Err(e) && bytes == old(bytes)
              case Ok(b) => r == Ok(()) && bytes == old(bytes) + b
    {
      var payload := EncodeFrame(f);
      if |payload| > MAX_FRAME_SIZE {
        return Err(BadLength(|payload|));
      }
      var buf := BigEndian(4, |payload|);
      buf := buf + payload;
      bytes := bytes + buf;
      r := Ok(());
    }

    method ReadExact(n: nat) returns (b: Option<Bytes>)
      modifies this
      ensures if |old(bytes)| < n then b.None? && bytes == []
              else b == Some(old(bytes)[..n]) && bytes == old(bytes)[n..]
    {
      if |bytes| < n {
        bytes := [];
        return None;
      }
      b := Some(bytes[..n]);
      bytes := bytes[n..];
    }

    method ReadFrame() returns (r: Result<Frame, Error>)
      modifies this
      ensures (r, bytes) == ReadFrom(old(bytes))
    {
      var head := ReadExact(4);
      if head.None? {
        return Err(Io);
      }
      var len := Number(head.value);
      if len == 0 || len > MAX_FRAME_SIZE {
        return Err(BadLength(len));
      }
      ghost var rest := bytes;
      var buf := ReadExact(len);
      if buf.None? {
        return Err(Io);
      }
      assert rest[..len] == old(bytes)[4..4 + len] && rest[len..] == old(bytes)[4 + len..];
      r := DecodeFrame(buf.value);
    }
  }

  // ------------------------------------------------------------ main results

  // What a sender may send and have read back: it fits, with at most eight ranges.
  predicate Sendable(f: Frame) {
    FrameBytes(f).Ok? && (f.StreamAck? ==> |f.sack| <= MAX_SACK_RANGES)
  }

  lemma SendableIsBounded(f: Frame)
    requires Sendable(f)
    ensures Bounded(f)
  {
    assert |Encode(f)| <= MAX_FRAME_SIZE;
    if !Bounded(f) {
      TextsTooLong(f);
    }
  }

  lemma TextsTooLong(f: Frame)
    requires !Bounded(f) && !f.StreamAck?
    ensures |Encode(f)| > MAX_FRAME_SIZE
  {
  }

  lemma ReadBack(f: Frame, rest: Bytes)
    requires Sendable(f)
    ensures ReadFrom(FrameBytes(f).value + rest) == (Ok(f), rest)
  {
    var payload := Encode(f);
    var s := FrameBytes(f).value + rest;
    Pow256Values();
    NumberOfBigEndian(4, |payload|);
    assert s[..4] == BigEndian(4, |payload|);
    assert s[4..4 + |payload|] == payload && s[4 + |payload|..] == rest;
    SendableIsBounded(f);
    DecodeEncodeIff(f);
  }

  function WriteAll(frames: seq<Frame>): Bytes
    requires forall i :: 0 <= i < |frames| ==> Sendable(frames[i])
  {
    if frames == [] then []
    else
      assert Sendable(frames[0]);
      FrameBytes(frames[0]).value + WriteAll(frames[1..])
  }

  // Frames until the bytes run out or one is bad.
  function ReadAll(s: Bytes): (seq<Frame>, Bytes)
    decreases |s|
  {
    var (r, rest) := ReadFrom(s);
    if r.Ok? then
      var (more, last) := ReadAll(rest);
      ([r.value] + more, last)
    else ([], s)
  }

  // Frames written one after another come back as exactly that list, with no
  // byte left over.
  lemma {:induction false} ReadAllWrittenBack(frames: seq<Frame>)
    requires forall i :: 0 <= i < |frames| ==> Sendable(frames[i])
    ensures ReadAll(WriteAll(frames)) == (frames, [])
    decreases |frames|
  {
    if frames != [] {
      ReadBack(frames[0], WriteAll(frames[1..]));
      ReadAllWrittenBack(frames[1..]);
      assert [frames[0]] + frames[1..] == frames;
    }
  }

  // Stream data fits exactly up to 16371 bytes, so the payload limit always does.
  lemma DataFitsIff(stream: U32, offset: U64, data: Bytes)
    ensures FrameBytes(StreamData(stream, offset, data)).Ok? <==> |data| <= MAX_STREAM_PAYLOAD + 3
  {
  }

  predicate SmallRanges(rs: seq<Sack.Range>) {
    forall i :: 0 <= i < |rs| ==> rs[i].lo < 0x1_0000_0000_0000_0000 && rs[i].hi < 0x1_0000_0000_0000_0000
  }

  function Pairs(rs: seq<Sack.Range>): (r: seq<(U64, U64)>)
    requires SmallRanges(rs)
    ensures |r| == |rs| && forall i :: 0 <= i < |rs| ==> r[i] == (rs[i].lo, rs[i].hi)
  {
    if rs == [] then [] else [(rs[0].lo, rs[0].hi)] + Pairs(rs[1..])
  }

  // An acknowledgement made from any receive buffer is delivered as it was made.
  lemma BufferAckReadBack(stream: U32, acked: U64, window: U32, buf: Sack.Buffer, newest: nat, rest: Bytes)
    requires SmallRanges(Sack.Ranges(buf, newest))
    ensures var f := StreamAck(stream, acked, window, Pairs(Sack.Ranges(buf, newest)));
            FrameBytes(f).Ok? && ReadFrom(FrameBytes(f).value + rest) == (Ok(f), rest)
  {
    var f := StreamAck(stream, acked, window, Pairs(Sack.Ranges(buf, newest)));
    var runs := Sack.Runs(Sack.Chunks(buf));
    Sack.FirstOfFacts(runs, newest);
    Sack.TopUpFacts(runs, Sack.FirstOf(runs, newest));
    assert |f.sack| <= MAX_SACK_RANGES;
    PairsSize(f.sack);
    assert f.sack[..|f.sack|] == f.sack;
    assert |PutSack(f.sack)| <= 1 + 16 * MAX_SACK_RANGES;
    assert |Body(f)| == 16 + |PutSack(f.sack)|;
    ReadBack(f, rest);
  }

  lemma {:induction false} PairsSize(pairs: seq<(U64, U64)>)
    ensures |PutPairs(pairs)| == 16 * |pairs|
  {
    if pairs != [] {
      PairsSize(pairs[1..]);
    }
  }
}
