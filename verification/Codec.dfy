// The wire frames (crates/nya-proto/src/frame.rs).
module Codec {
  import opened Common

  const SESSION_ID_LEN: nat := 16
  const NONCE_LEN: nat := 32
  const PROOF_LEN: nat := 32

  type U8 = x: nat | x < 0x100
  type U16 = x: nat | x < 0x1_0000
  type U32 = x: nat | x < 0x1_0000_0000
  type U64 = x: nat | x < 0x1_0000_0000_0000_0000

  predicate Cont(b: byte) {
    0x80 <= b <= 0xBF
  }

  // How many bytes the scalar value at the head takes, 0 when it is malformed.
  function ScalarLen(s: Bytes): (n: nat)
    requires s != []
    ensures n <= |s| && n <= 4
  {
    var b := s[0];
    if b < 0x80 then 1
    else if 0xC2 <= b <= 0xDF then
      if |s| >= 2 && Cont(s[1]) then 2 else 0
    else if 0xE0 <= b <= 0xEF then
      var lo := if b == 0xE0 then 0xA0 else 0x80;
      var hi := if b == 0xED then 0x9F else 0xBF;
      if |s| >= 3 && lo <= s[1] <= hi && Cont(s[2]) then 3 else 0
    else if 0xF0 <= b <= 0xF4 then
      var lo := if b == 0xF0 then 0x90 else 0x80;
      var hi := if b == 0xF4 then 0x8F else 0xBF;
      if |s| >= 4 && lo <= s[1] <= hi && Cont(s[2]) && Cont(s[3]) then 4 else 0
    else 0
  }

  predicate Utf8(s: Bytes)
    decreases |s|
  {
    s == [] || (ScalarLen(s) > 0 && Utf8(s[ScalarLen(s)..]))
  }

  // A string is its UTF-8 bytes.
  type Text = s: Bytes | Utf8(s)

  datatype Target = Target(host: Text, port: U16)

  datatype Reason = Unknown | DialFailed | Timeout | PeerReset | SessionDead | Protocol

  type SessionId = s: Bytes | |s| == SESSION_ID_LEN witness seq(SESSION_ID_LEN, _ => 0)

  type Secret = s: Bytes | |s| == NONCE_LEN witness seq(NONCE_LEN, _ => 0)

  datatype Frame =
    | Ping(number: U64, sentAt: U64)
    | Pong(number: U64, sentAt: U64)
    | CreateSession(version: U8, userId: Text, nonce: Secret, proof: Secret, pathName: Text)
    | CreateSessionOk(sessionId: SessionId)
    | JoinSession(sessionId: SessionId, pathName: Text, proof: Secret)
    | JoinSessionOk
    | HandshakeErr(message: Text)
    | StreamOpen(stream: U32, target: Target)
    | StreamData(stream: U32, offset: U64, data: Bytes)
    | StreamAck(stream: U32, acked: U64, window: U32, sack: seq<(U64, U64)>)
    | StreamClose(stream: U32, final: Option<U64>)
    | StreamReset(stream: U32, reason: Reason)
    | SessionClose

  datatype Error = Io | BadLength(n: nat) | Truncated | UnknownType(t: byte) | BadUtf8

  // -------------------------------------------------------- numbers and text

  function Pow256(n: nat): nat {
    if n == 0 then 1 else 256 * Pow256(n - 1)
  }

  lemma Pow256Values()
    ensures Pow256(1) == 0x100 && Pow256(2) == 0x1_0000 && Pow256(4) == 0x1_0000_0000
    ensures Pow256(8) == 0x1_0000_0000_0000_0000
  {
    assert Pow256(2) == 256 * Pow256(1);
    assert Pow256(3) == 256 * Pow256(2);
    assert Pow256(5) == 256 * Pow256(4);
    assert Pow256(6) == 256 * Pow256(5);
    assert Pow256(7) == 256 * Pow256(6);
  }

  // Big-endian, n bytes.
  function BigEndian(n: nat, x: nat): (r: Bytes)
    ensures |r| == n
  {
    if n == 0 then [] else BigEndian(n - 1, x / 256) + [(x % 256) as byte]
  }

  function Number(s: Bytes): (r: nat)
    ensures r < Pow256(|s|)
  {
    if s == [] then 0 else 256 * Number(s[..|s| - 1]) + s[|s| - 1] as nat
  }

  lemma {:induction false} NumberOfBigEndian(n: nat, x: nat)
    requires x < Pow256(n)
    ensures Number(BigEndian(n, x)) == x
  {
    if n > 0 {
      NumberOfBigEndian(n - 1, x / 256);
      var s := BigEndian(n, x);
      assert s[..n - 1] == BigEndian(n - 1, x / 256);
    }
  }

  // The first 65535 bytes at most, after their count.
  function PutText(s: Text): Bytes {
    var len := Min(|s|, 0xFFFF);
    BigEndian(2, len) + s[..len]
  }

  function PutPairs(pairs: seq<(U64, U64)>): Bytes {
    if pairs == [] then []
    else BigEndian(8, pairs[0].0) + BigEndian(8, pairs[0].1) + PutPairs(pairs[1..])
  }

  function ReasonCode(r: Reason): U8 {
    match r
    case Unknown => 0
    case DialFailed => 1
    case Timeout => 2
    case PeerReset => 3
    case SessionDead => 4
    case Protocol => 5
  }

  function ReasonOf(v: U8): Reason {
    if v == 1 then DialFailed
    else if v == 2 then Timeout
    else if v == 3 then PeerReset
    else if v == 4 then SessionDead
    else if v == 5 then Protocol
    else Unknown
  }

  function TypeOf(f: Frame): byte {
    match f
    case Ping(_, _) => 0x01
    case Pong(_, _) => 0x02
    case CreateSession(_, _, _, _, _) => 0x03
    case CreateSessionOk(_) => 0x04
    case JoinSession(_, _, _) => 0x05
    case JoinSessionOk => 0x06
    case HandshakeErr(_) => 0x07
    case StreamOpen(_, _) => 0x08
    case StreamData(_, _, _) => 0x09
    case StreamAck(_, _, _, _) => 0x0A
    case StreamClose(_, _) => 0x0B
    case StreamReset(_, _) => 0x0C
    case SessionClose => 0x0E
  }

  // Selective ranges are an optional tail: a count of at most 8, then pairs.
  function PutSack(sack: seq<(U64, U64)>): Bytes {
    if sack == [] then []
    else
      var n := Min(|sack|, MAX_SACK_RANGES);
      [n as byte] + PutPairs(sack[..n])
  }

  function Body(f: Frame): Bytes {
    match f
    case Ping(s, t) => BigEndian(8, s) + BigEndian(8, t)
    case Pong(s, t) => BigEndian(8, s) + BigEndian(8, t)
    case CreateSession(v, user, nonce, proof, path) => [v as byte] + (PutText(user) + (nonce + (proof + PutText(path))))
    case CreateSessionOk(id) => id
    case JoinSession(id, path, proof) => id + (PutText(path) + proof)
    case JoinSessionOk => []
    case HandshakeErr(m) => PutText(m)
    case StreamOpen(s, target) => BigEndian(4, s) + (BigEndian(2, target.port) + PutText(target.host))
    case StreamData(s, off, data) => BigEndian(4, s) + (BigEndian(8, off) + data)
    case StreamAck(s, acked, window, sack) => BigEndian(4, s) + (BigEndian(8, acked) + (BigEndian(4, window) + PutSack(sack)))
    case StreamClose(s, final) => BigEndian(4, s) + (if final.Some? then BigEndian(8, final.value) else [])
    case StreamReset(s, reason) => BigEndian(4, s) + [ReasonCode(reason) as byte]
    case SessionClose => []
  }

  function Encode(f: Frame): Bytes {
    [TypeOf(f)] + Body(f)
  }

  // ---------------------------------------------------------------- decoding

  function TakeBytes(n: nat, s: Bytes): (r: Result<(Bytes, Bytes), Error>)
    ensures r.Ok? <==> |s| >= n
    ensures r.Ok? ==> |r.value.0| == n && r.value.0 + r.value.1 == s
  {
    if |s| < n then Err(Truncated) else Ok((s[..n], s[n..]))
  }

  function TakeNumber(n: nat, s: Bytes): (r: Result<(nat, Bytes), Error>)
    ensures r.Ok? ==> r.value.0 < Pow256(n)
  {
    var (b, rest) :- TakeBytes(n, s);
    Ok((Number(b), rest))
  }

  function TakeU8(s: Bytes): Result<(U8, Bytes), Error> {
    Pow256Values();
    TakeNumber(1, s)
  }

  function TakeU16(s: Bytes): Result<(U16, Bytes), Error> {
    Pow256Values();
    TakeNumber(2, s)
  }

  function TakeU32(s: Bytes): Result<(U32, Bytes), Error> {
    Pow256Values();
    TakeNumber(4, s)
  }

  function TakeU64(s: Bytes): Result<(U64, Bytes), Error> {
    Pow256Values();
    TakeNumber(8, s)
  }

  function TakeText(s: Bytes): Result<(Text, Bytes), Error> {
    var (len, t) :- TakeU16(s);
    var (b, rest) :- TakeBytes(len, t);
    if Utf8(b) then Ok((b, rest)) else Err(BadUtf8)
  }

  function TakePairs(n: nat, s: Bytes): Result<(seq<(U64, U64)>, Bytes), Error> {
    if n == 0 then Ok(([], s))
    else
      var (a, t) :- TakeU64(s);
      var (b, u) :- TakeU64(t);
      var (more, rest) :- TakePairs(n - 1, u);
      Ok(([(a, b)] + more, rest))
  }

  function ParsePing(s: Bytes): Result<(U64, U64), Error> {
    var (x, t) :- TakeU64(s);
    var (y, _) :- TakeU64(t);
    Ok((x, y))
  }

  function ParseCreate(s: Bytes): Result<Frame, Error> {
    var (version, s1) :- TakeU8(s);
    var (user, s2) :- TakeText(s1);
    ParseCreateRest(version, user, s2)
  }

  function ParseCreateRest(version: U8, user: Text, s2: Bytes): Result<Frame, Error> {
    var (nonce, s3) :- TakeBytes(NONCE_LEN, s2);
    var (proof, s4) :- TakeBytes(PROOF_LEN, s3);
    if s4 == [] then Ok(CreateSession(version, user, nonce, proof, []))
    else
      var (path, _) :- TakeText(s4);
      Ok(CreateSession(version, user, nonce, proof, path))
  }

  function ParseJoin(s: Bytes): Result<Frame, Error> {
    var (id, s1) :- TakeBytes(SESSION_ID_LEN, s);
    var (path, s2) :- TakeText(s1);
    var (proof, _) :- TakeBytes(PROOF_LEN, s2);
    Ok(JoinSession(id, path, proof))
  }

  function ParseOpen(s: Bytes): Result<Frame, Error> {
    var (stream, s1) :- TakeU32(s);
    var (port, s2) :- TakeU16(s1);
    var (host, _) :- TakeText(s2);
    Ok(StreamOpen(stream, Target(host, port)))
  }

  function ParseData(s: Bytes): Result<Frame, Error> {
    var (stream, s1) :- TakeU32(s);
    var (offset, s2) :- TakeU64(s1);
    Ok(StreamData(stream, offset, s2))
  }

  function ParseSack(s: Bytes): Result<seq<(U64, U64)>, Error> {
    if s == [] then Ok([])
    else
      var (n, t) :- TakeU8(s);
      var (pairs, _) :- TakePairs(Min(n, MAX_SACK_RANGES), t);
      Ok(pairs)
  }

  function ParseAck(s: Bytes): Result<Frame, Error> {
    var (stream, s1) :- TakeU32(s);
    var (acked, s2) :- TakeU64(s1);
    var (window, s3) :- TakeU32(s2);
    var sack :- ParseSack(s3);
    Ok(StreamAck(stream, acked, window, sack))
  }

  // Fewer than eight trailing bytes count as no final offset.
  function ParseClose(s: Bytes): Result<Frame, Error> {
    var (stream, t) :- TakeU32(s);
    if |t| >= 8 then
      var (off, _) :- TakeU64(t);
      Ok(StreamClose(stream, Some(off)))
    else Ok(StreamClose(stream, None))
  }

  function ParseReset(s: Bytes): Result<Frame, Error> {
    var (stream, t) :- TakeU32(s);
    var (v, _) :- TakeU8(t);
    Ok(StreamReset(stream, ReasonOf(v)))
  }

  function ParseBody(typ: byte, s: Bytes): Result<Frame, Error> {
    if typ == 0x01 then
      var (x, y) :- ParsePing(s);
      Ok(Ping(x, y))
    else if typ == 0x02 then
      var (x, y) :- ParsePing(s);
      Ok(Pong(x, y))
    else if typ == 0x03 then ParseCreate(s)
    else if typ == 0x04 then
      var (id, _) :- TakeBytes(SESSION_ID_LEN, s);
      Ok(CreateSessionOk(id))
    else if typ == 0x05 then ParseJoin(s)
    else if typ == 0x06 then Ok(JoinSessionOk)
    else if typ == 0x07 then
      var (m, _) :- TakeText(s);
      Ok(HandshakeErr(m))
    else if typ == 0x08 then ParseOpen(s)
    else if typ == 0x09 then ParseData(s)
    else if typ == 0x0A then ParseAck(s)
    else if typ == 0x0B then ParseClose(s)
    else if typ == 0x0C then ParseReset(s)
    else if typ == 0x0E then Ok(SessionClose)
    else Err(UnknownType(typ))
  }

  function Decode(buf: Bytes): Result<Frame, Error> {
    if buf == [] then Err(Truncated) else ParseBody(buf[0], buf[1..])
  }

  // ------------------------------------------------------------- round trips

  lemma TakeBack(a: Bytes, tail: Bytes)
    ensures TakeBytes(|a|, a + tail) == Ok((a, tail))
  {
    assert (a + tail)[..|a|] == a && (a + tail)[|a|..] == tail;
  }

  lemma NumberBack(n: nat, x: nat, tail: Bytes)
    requires x < Pow256(n)
    ensures TakeNumber(n, BigEndian(n, x) + tail) == Ok((x, tail))
  {
    TakeBack(BigEndian(n, x), tail);
    NumberOfBigEndian(n, x);
  }

  lemma U8Back(x: U8, tail: Bytes)
    ensures TakeU8([x as byte] + tail) == Ok((x, tail))
  {
    Pow256Values();
    assert BigEndian(1, x) == [x as byte];
    NumberBack(1, x, tail);
  }

  lemma U16Back(x: U16, tail: Bytes)
    ensures TakeU16(BigEndian(2, x) + tail) == Ok((x, tail))
  {
    Pow256Values();
    NumberBack(2, x, tail);
  }

  lemma U32Back(x: U32, tail: Bytes)
    ensures TakeU32(BigEndian(4, x) + tail) == Ok((x, tail))
  {
    Pow256Values();
    NumberBack(4, x, tail);
  }

  lemma U64Back(x: U64, tail: Bytes)
    ensures TakeU64(BigEndian(8, x) + tail) == Ok((x, tail))
  {
    Pow256Values();
    NumberBack(8, x, tail);
  }

  // A text comes back cut to 65535 bytes, or not at all when the cut splits a
  // character.
  lemma TextBack(s: Text, tail: Bytes)
    ensures var cut := s[..Min(|s|, 0xFFFF)];
            TakeText(PutText(s) + tail) == if Utf8(cut) then Ok((cut, tail)) else Err(BadUtf8)
  {
    var len := Min(|s|, 0xFFFF);
    assert PutText(s) + tail == BigEndian(2, len) + (s[..len] + tail);
    U16Back(len, s[..len] + tail);
    TakeBack(s[..len], tail);
  }

  lemma {:induction false} PairsBack(pairs: seq<(U64, U64)>, tail: Bytes)
    ensures TakePairs(|pairs|, PutPairs(pairs) + tail) == Ok((pairs, tail))
  {
    if pairs != [] {
      var a, b := pairs[0].0, pairs[0].1;
      var rest := PutPairs(pairs[1..]) + tail;
      var all := PutPairs(pairs) + tail;
      assert all == BigEndian(8, a) + (BigEndian(8, b) + rest);
      U64Back(a, BigEndian(8, b) + rest);
      U64Back(b, rest);
      PairsBack(pairs[1..], tail);
      assert TakePairs(|pairs| - 1, rest) == Ok((pairs[1..], tail));
      assert TakePairs(|pairs|, all) == Ok(([(a, b)] + pairs[1..], tail));
      assert [(a, b)] + pairs[1..] == pairs;
    } else {
      assert PutPairs(pairs) + tail == tail;
    }
  }

  // -------------------------------------------------------- frame by frame

  // What a frame keeps: texts of at most 65535 bytes, at most eight ranges.
  predicate Bounded(f: Frame) {
    match f
    case CreateSession(_, user, _, _, path) => |user| <= 0xFFFF && |path| <= 0xFFFF
    case JoinSession(_, path, _) => |path| <= 0xFFFF
    case HandshakeErr(m) => |m| <= 0xFFFF
    case StreamOpen(_, target) => |target.host| <= 0xFFFF
    case StreamAck(_, _, _, sack) => |sack| <= MAX_SACK_RANGES
    case _ => true
  }

  lemma Whole(s: Bytes)
    ensures s[..|s|] == s && s + [] == s
  {
  }

  lemma PingBack(x: U64, y: U64)
    ensures ParsePing(BigEndian(8, x) + BigEndian(8, y)) == Ok((x, y))
  {
    U64Back(x, BigEndian(8, y));
    U64Back(y, []);
    Whole(BigEndian(8, y));
  }

  lemma CreateBack(f: Frame)
    requires f.CreateSession?
    ensures ParseBody(TypeOf(f), Body(f)) == Ok(f) <==> Bounded(f)
  {
    var s4 := PutText(f.pathName);
    var s3 := f.proof + s4;
    var s2 := f.nonce + s3;
    var s1 := PutText(f.userId) + s2;
    U8Back(f.version, s1);
    TextBack(f.userId, s2);
    TakeBack(f.nonce, s3);
    TakeBack(f.proof, s4);
    TextBack(f.pathName, []);
    Whole(s4);
    Whole(f.userId);
    Whole(f.pathName);
    assert s4 != [];
  }

  lemma JoinBack(f: Frame)
    requires f.JoinSession?
    ensures ParseBody(TypeOf(f), Body(f)) == Ok(f) <==> Bounded(f)
  {
    TakeBack(f.sessionId, PutText(f.pathName) + f.proof);
    TextBack(f.pathName, f.proof);
    TakeBack(f.proof, []);
    Whole(f.proof);
    Whole(f.pathName);
  }

  lemma HandshakeErrBack(f: Frame)
    requires f.HandshakeErr?
    ensures ParseBody(TypeOf(f), Body(f)) == Ok(f) <==> Bounded(f)
  {
    TextBack(f.message, []);
    Whole(PutText(f.message));
    Whole(f.message);
  }

  lemma OpenParsed(stream: U32, port: U16, rest: Bytes)
    ensures var open := ParseOpen(BigEndian(4, stream) + (BigEndian(2, port) + rest));
            var host := TakeText(rest);
            open == if host.Err? then Err(host.error) else Ok(StreamOpen(stream, Target(host.value.0, port)))
  {
    U32Back(stream, BigEndian(2, port) + rest);
    U16Back(port, rest);
  }

  lemma TextAlone(s: Text)
    ensures TakeText(PutText(s)).Ok? && TakeText(PutText(s)).value.0 == s <==> |s| <= 0xFFFF
  {
    TextBack(s, []);
    Whole(PutText(s));
    Whole(s);
  }

  lemma OpenBack(f: Frame)
    requires f.StreamOpen?
    ensures ParseBody(TypeOf(f), Body(f)) == Ok(f) <==> Bounded(f)
  {
    var host := f.target.host;
    OpenParsed(f.stream, f.target.port, PutText(host));
    TextAlone(host);
    assert ParseBody(TypeOf(f), Body(f)) == ParseOpen(Body(f));
  }

  lemma DataBack(f: Frame)
    requires f.StreamData?
    ensures ParseBody(TypeOf(f), Body(f)) == Ok(f)
  {
    U32Back(f.stream, BigEndian(8, f.offset) + f.data);
    U64Back(f.offset, f.data);
  }

  lemma SackBack(sack: seq<(U64, U64)>)
    ensures ParseSack(PutSack(sack)) == Ok(sack[..Min(|sack|, MAX_SACK_RANGES)])
  {
    if sack != [] {
      var n := Min(|sack|, MAX_SACK_RANGES);
      U8Back(n, PutPairs(sack[..n]));
      PairsBack(sack[..n], []);
      Whole(PutPairs(sack[..n]));
    }
  }

  lemma AckBack(f: Frame)
    requires f.StreamAck?
    ensures ParseBody(TypeOf(f), Body(f)) == Ok(f.(sack := f.sack[..Min(|f.sack|, MAX_SACK_RANGES)]))
  {
    var s3 := PutSack(f.sack);
    U32Back(f.stream, BigEndian(8, f.acked) + (BigEndian(4, f.window) + s3));
    U64Back(f.acked, BigEndian(4, f.window) + s3);
    U32Back(f.window, s3);
    SackBack(f.sack);
  }

  lemma CloseBack(f: Frame)
    requires f.StreamClose?
    ensures ParseBody(TypeOf(f), Body(f)) == Ok(f)
  {
    if f.final.Some? {
      U32Back(f.stream, BigEndian(8, f.final.value));
      U64Back(f.final.value, []);
      Whole(BigEndian(8, f.final.value));
    } else {
      U32Back(f.stream, []);
    }
  }

  lemma ResetBack(f: Frame)
    requires f.StreamReset?
    ensures ParseBody(TypeOf(f), Body(f)) == Ok(f)
  {
    U32Back(f.stream, [ReasonCode(f.reason) as byte]);
    U8Back(ReasonCode(f.reason), []);
    Whole([ReasonCode(f.reason) as byte]);
  }

  lemma IdBack(f: Frame)
    requires f.CreateSessionOk?
    ensures ParseBody(TypeOf(f), Body(f)) == Ok(f)
  {
    TakeBack(f.sessionId, []);
    Whole(f.sessionId);
  }

  lemma ProbeBack(f: Frame)
    requires f.Ping? || f.Pong?
    ensures ParseBody(TypeOf(f), Body(f)) == Ok(f)
  {
    PingBack(f.number, f.sentAt);
  }

  lemma DecodeSplits(f: Frame)
    ensures Decode(Encode(f)) == ParseBody(TypeOf(f), Body(f))
  {
    assert Encode(f)[1..] == Body(f);
  }

  lemma AckBackIff(f: Frame)
    requires f.StreamAck?
    ensures ParseBody(TypeOf(f), Body(f)) == Ok(f) <==> |f.sack| <= MAX_SACK_RANGES
  {
    AckBack(f);
    Whole2(f.sack);
  }

  lemma Whole2<T>(s: seq<T>)
    ensures s[..|s|] == s
  {
  }

  // A frame survives encoding and decoding exactly when its texts fit a 16-bit
  // count and it has at most eight selective ranges.
  lemma DecodeEncodeIff(f: Frame)
    ensures Decode(Encode(f)) == Ok(f) <==> Bounded(f)
  {
    DecodeSplits(f);
    match f
    case Ping(_, _) => ProbeBack(f);
    case Pong(_, _) => ProbeBack(f);
    case CreateSession(_, _, _, _, _) => CreateBack(f);
    case CreateSessionOk(_) => IdBack(f);
    case JoinSession(_, _, _) => JoinBack(f);
    case JoinSessionOk =>
    case HandshakeErr(_) => HandshakeErrBack(f);
    case StreamOpen(_, _) => OpenBack(f);
    case StreamData(_, _, _) => DataBack(f);
    case StreamAck(_, _, _, _) => AckBackIff(f);
    case StreamClose(_, _) => CloseBack(f);
    case StreamReset(_, _) => ResetBack(f);
    case SessionClose =>
  }

  lemma PairsFit(n: nat, s: Bytes)
    ensures TakePairs(n, s).Ok? ==> |TakePairs(n, s).value.0| == n
  {
  }

  // Everything decoding accepts can be sent on unchanged.
  lemma DecodedCanBeSentOn(buf: Bytes)
    ensures Decode(buf).Ok? ==> Bounded(Decode(buf).value) && Decode(Encode(Decode(buf).value)) == Decode(buf)
  {
    if Decode(buf).Ok? {
      DecodedIsBounded(buf[0], buf[1..]);
      DecodeEncodeIff(Decode(buf).value);
    }
  }

  lemma TextFits(s: Bytes)
    ensures TakeText(s).Ok? ==> |TakeText(s).value.0| <= 0xFFFF
  {
  }

  lemma JoinIsBounded(s: Bytes)
    ensures ParseJoin(s).Ok? ==> Bounded(ParseJoin(s).value)
  {
    if |s| >= SESSION_ID_LEN {
      TextFits(s[SESSION_ID_LEN..]);
    }
  }

  lemma OpenIsBounded(s: Bytes)
    ensures ParseOpen(s).Ok? ==> Bounded(ParseOpen(s).value)
  {
    if TakeU32(s).Ok? && TakeU16(TakeU32(s).value.1).Ok? {
      TextFits(TakeU16(TakeU32(s).value.1).value.1);
    }
  }

  lemma DecodedIsBounded(typ: byte, s: Bytes)
    ensures ParseBody(typ, s).Ok? ==> Bounded(ParseBody(typ, s).value)
  {
    if typ == 0x0A {
      AckIsBounded(s);
    } else if typ == 0x03 {
      CreateIsBounded(s);
    } else if typ == 0x05 {
      JoinIsBounded(s);
    } else if typ == 0x08 {
      OpenIsBounded(s);
    } else {
      TextFits(s);
    }
  }

  lemma CreateIsBounded(s: Bytes)
    ensures ParseCreate(s).Ok? ==> Bounded(ParseCreate(s).value)
  {
  }

  lemma AckIsBounded(s: Bytes)
    ensures ParseAck(s).Ok? ==> Bounded(ParseAck(s).value)
  {
    forall t
      ensures ParseSack(t).Ok? ==> |ParseSack(t).value| <= MAX_SACK_RANGES
    {
      if t != [] {
        var x := TakeU8(t).value;
        PairsFit(Min(x.0, MAX_SACK_RANGES), x.1);
      }
    }
  }

  // An old peer's create has no path name and its close no final offset; both
  // decode to the defaults, whatever fewer than eight bytes follow a close.
  lemma OmittedTails(version: U8, user: Text, nonce: Secret, proof: Secret, stream: U32, tail: Bytes)
    requires |user| <= 0xFFFF && |tail| < 8
    ensures ParseBody(0x03, [version as byte] + (PutText(user) + (nonce + proof))) == Ok(CreateSession(version, user, nonce, proof, []))
    ensures ParseBody(0x0B, BigEndian(4, stream) + tail) == Ok(StreamClose(stream, None))
  {
    U8Back(version, PutText(user) + (nonce + proof));
    TextBack(user, nonce + proof);
    TakeBack(nonce, proof);
    TakeBack(proof, []);
    Whole(proof);
    Whole(user);
    U32Back(stream, tail);
  }

  // -------------------------------------------------------------- truncation

  // A proper prefix.
  predicate Cut(s: Bytes, whole: Bytes) {
    s < whole
  }

  // Taking a field from a cut frame fails as truncated, or leaves a cut rest.
  lemma TakeCut(n: nat, s: Bytes, a: Bytes, tail: Bytes)
    requires |a| == n && Cut(s, a + tail)
    ensures TakeBytes(n, s) == Err(Truncated) ||
            (TakeBytes(n, s) == Ok((a, s[n..])) && Cut(s[n..], tail))
  {
    if |s| >= n {
      assert s[..n] == (a + tail)[..n] == a;
      assert s[n..] == (a + tail)[n..|s|];
      assert (a + tail)[n..|s|] == tail[..|s| - n];
    }
  }

  lemma NumberCut(n: nat, x: nat, s: Bytes, tail: Bytes)
    requires x < Pow256(n) && Cut(s, BigEndian(n, x) + tail)
    ensures TakeNumber(n, s) == Err(Truncated) ||
            (TakeNumber(n, s) == Ok((x, s[n..])) && Cut(s[n..], tail))
  {
    TakeCut(n, s, BigEndian(n, x), tail);
    NumberOfBigEndian(n, x);
  }

  lemma TextCut(t: Text, s: Bytes, tail: Bytes)
    requires |t| <= 0xFFFF && Cut(s, PutText(t) + tail)
    ensures (TakeText(s) == Err(Truncated) && |s| < |PutText(t)|) ||
            (|s| >= |PutText(t)| && TakeText(s) == Ok((t, s[|PutText(t)|..])) && Cut(s[|PutText(t)|..], tail))
  {
    Pow256Values();
    assert t[..|t|] == t;
    assert PutText(t) + tail == BigEndian(2, |t|) + (t + tail);
    NumberCut(2, |t|, s, t + tail);
    if TakeU16(s).Ok? {
      TakeCut(|t|, s[2..], t, tail);
      assert |s| >= 2 + |t| ==> s[2..][|t|..] == s[2 + |t|..];
    }
  }

  // Frames without an optional tail: every field is required.
  predicate Required(f: Frame) {
    f.Ping? || f.Pong? || f.CreateSessionOk? || f.JoinSession? || f.HandshakeErr? || f.StreamOpen? || f.StreamReset?
  }

  lemma ProbeCut(f: Frame, s: Bytes)
    requires (f.Ping? || f.Pong?) && Cut(s, Body(f))
    ensures ParseBody(TypeOf(f), s) == Err(Truncated)
  {
    Pow256Values();
    NumberCut(8, f.number, s, BigEndian(8, f.sentAt));
    if TakeU64(s).Ok? {
      Whole(BigEndian(8, f.sentAt));
      NumberCut(8, f.sentAt, s[8..], []);
    }
  }

  lemma JoinCut(f: Frame, s: Bytes)
    requires f.JoinSession? && |f.pathName| <= 0xFFFF && Cut(s, Body(f))
    ensures ParseBody(TypeOf(f), s) == Err(Truncated)
  {
    TakeCut(SESSION_ID_LEN, s, f.sessionId, PutText(f.pathName) + f.proof);
    if |s| >= SESSION_ID_LEN {
      var s1 := s[SESSION_ID_LEN..];
      TextCut(f.pathName, s1, f.proof);
      if TakeText(s1).Ok? {
        var s2 := TakeText(s1).value.1;
        Whole(f.proof);
        TakeCut(PROOF_LEN, s2, f.proof, []);
      }
    }
  }

  lemma OpenCut(f: Frame, s: Bytes)
    requires f.StreamOpen? && |f.target.host| <= 0xFFFF && Cut(s, Body(f))
    ensures ParseBody(TypeOf(f), s) == Err(Truncated)
  {
    Pow256Values();
    var host := f.target.host;
    NumberCut(4, f.stream, s, BigEndian(2, f.target.port) + PutText(host));
    if TakeU32(s).Ok? {
      NumberCut(2, f.target.port, s[4..], PutText(host));
      if TakeU16(s[4..]).Ok? {
        Whole(PutText(host));
        TextCut(host, s[4..][2..], []);
      }
    }
  }

  lemma ResetCut(f: Frame, s: Bytes)
    requires f.StreamReset? && Cut(s, Body(f))
    ensures ParseBody(TypeOf(f), s) == Err(Truncated)
  {
    Pow256Values();
    var code := [ReasonCode(f.reason) as byte];
    NumberCut(4, f.stream, s, code);
    if TakeU32(s).Ok? {
      Whole(code);
      TakeCut(1, s[4..], code, []);
    }
  }

  lemma PlainCut(f: Frame, s: Bytes)
    requires (f.CreateSessionOk? || (f.HandshakeErr? && |f.message| <= 0xFFFF)) && Cut(s, Body(f))
    ensures ParseBody(TypeOf(f), s) == Err(Truncated)
  {
    if f.CreateSessionOk? {
      Whole(f.sessionId);
      TakeCut(SESSION_ID_LEN, s, f.sessionId, []);
    } else {
      Whole(PutText(f.message));
      TextCut(f.message, s, []);
    }
  }

  // A frame whose fields are all required is never accepted cut short.
  lemma CutFrameIsRefused(f: Frame, buf: Bytes)
    requires Required(f) && Bounded(f) && Cut(buf, Encode(f))
    ensures Decode(buf) == Err(Truncated)
  {
    if buf != [] {
      assert buf[0] == TypeOf(f);
      var s := buf[1..];
      assert s == Encode(f)[1..|buf|] == Body(f)[..|buf| - 1];
      match f
      case Ping(_, _) => ProbeCut(f, s);
      case Pong(_, _) => ProbeCut(f, s);
      case JoinSession(_, _, _) => JoinCut(f, s);
      case StreamOpen(_, _) => OpenCut(f, s);
      case StreamReset(_, _) => ResetCut(f, s);
      case CreateSessionOk(_) => PlainCut(f, s);
      case HandshakeErr(_) => PlainCut(f, s);
    }
  }

  // The other frames have an optional or open tail, and a cut may read as a
  // shorter frame. Cut where the tail begins they are the frame without it; a
  // close loses its offset wherever that is cut, and data just ends earlier.
  function CutReads(f: Frame, n: nat): Result<Frame, Error>
    requires n < |Encode(f)|
  {
    match f
    case CreateSession(version, user, nonce, proof, _) =>
      if n == 68 + |user| then Ok(CreateSession(version, user, nonce, proof, [])) else Err(Truncated)
    case StreamData(_, _, data) => if n >= 13 then Ok(f.(data := data[..n - 13])) else Err(Truncated)
    case StreamAck(_, _, _, _) => if n == 17 then Ok(f.(sack := [])) else Err(Truncated)
    case StreamClose(_, _) => if n >= 5 then Ok(f.(final := None)) else Err(Truncated)
    case _ => Err(Truncated)
  }

  lemma CreateRestCut(version: U8, user: Text, nonce: Secret, proof: Secret, path: Text, s: Bytes)
    requires |path| <= 0xFFFF && Cut(s, nonce + (proof + PutText(path)))
    ensures ParseCreateRest(version, user, s) ==
            if |s| == NONCE_LEN + PROOF_LEN then Ok(CreateSession(version, user, nonce, proof, [])) else Err(Truncated)
  {
    TakeCut(NONCE_LEN, s, nonce, proof + PutText(path));
    if |s| >= NONCE_LEN {
      var t := s[NONCE_LEN..];
      TakeCut(PROOF_LEN, t, proof, PutText(path));
      if |t| >= PROOF_LEN {
        Whole(PutText(path));
        TextCut(path, t[PROOF_LEN..], []);
      }
    }
  }

  lemma CreateCut(f: Frame, s: Bytes)
    requires f.CreateSession? && Bounded(f) && Cut(s, Body(f))
    ensures ParseBody(TypeOf(f), s) ==
            if |s| == 67 + |f.userId| then Ok(CreateSession(f.version, f.userId, f.nonce, f.proof, [])) else Err(Truncated)
  {
    var rest := f.nonce + (f.proof + PutText(f.pathName));
    TakeCut(1, s, [f.version as byte], PutText(f.userId) + rest);
    if |s| >= 1 {
      var t := s[1..];
      U8Back(f.version, t);
      assert [f.version as byte] + t == s;
      TextCut(f.userId, t, rest);
      if TakeText(t).Ok? {
        CreateRestCut(f.version, f.userId, f.nonce, f.proof, f.pathName, TakeText(t).value.1);
      }
    }
  }

  lemma DataCut(f: Frame, s: Bytes)
    requires f.StreamData? && Cut(s, Body(f))
    ensures |s| < 12 ==> ParseBody(TypeOf(f), s) == Err(Truncated)
    ensures |s| >= 12 ==> ParseBody(TypeOf(f), s) == Ok(f.(data := f.data[..|s| - 12]))
  {
    Pow256Values();
    NumberCut(4, f.stream, s, BigEndian(8, f.offset) + f.data);
    if |s| >= 4 {
      NumberCut(8, f.offset, s[4..], f.data);
      if |s| >= 12 {
        assert s[4..][8..] == f.data[..|s| - 12];
      }
    }
  }

  lemma {:induction false} PairsCut(pairs: seq<(U64, U64)>, s: Bytes)
    requires Cut(s, PutPairs(pairs))
    ensures TakePairs(|pairs|, s) == Err(Truncated)
  {
    Pow256Values();
    var a, b, rest := pairs[0].0, pairs[0].1, PutPairs(pairs[1..]);
    assert PutPairs(pairs) == BigEndian(8, a) + (BigEndian(8, b) + rest);
    NumberCut(8, a, s, BigEndian(8, b) + rest);
    if |s| >= 8 {
      NumberCut(8, b, s[8..], rest);
      if |s[8..]| >= 8 {
        PairsCut(pairs[1..], s[8..][8..]);
      }
    }
  }

  lemma SackCut(sack: seq<(U64, U64)>, s: Bytes)
    requires |sack| <= MAX_SACK_RANGES && Cut(s, PutSack(sack))
    ensures ParseSack(s) == if s == [] then Ok([]) else Err(Truncated)
  {
    if s != [] {
      var n := |sack|;
      Whole2(sack);
      TakeCut(1, s, [n as byte], PutPairs(sack));
      U8Back(n, s[1..]);
      assert [n as byte] + s[1..] == s;
      PairsCut(sack, s[1..]);
    }
  }

  lemma AckCut(f: Frame, s: Bytes)
    requires f.StreamAck? && Bounded(f) && Cut(s, Body(f))
    ensures ParseBody(TypeOf(f), s) == if |s| == 16 then Ok(f.(sack := [])) else Err(Truncated)
  {
    Pow256Values();
    var s3 := PutSack(f.sack);
    NumberCut(4, f.stream, s, BigEndian(8, f.acked) + (BigEndian(4, f.window) + s3));
    if |s| >= 4 {
      NumberCut(8, f.acked, s[4..], BigEndian(4, f.window) + s3);
      if |s| >= 12 {
        NumberCut(4, f.window, s[4..][8..], s3);
        if |s| >= 16 {
          SackCut(f.sack, s[4..][8..][4..]);
        }
      }
    }
  }

  lemma CloseCut(f: Frame, s: Bytes)
    requires f.StreamClose? && Cut(s, Body(f))
    ensures ParseBody(TypeOf(f), s) == if |s| >= 4 then Ok(f.(final := None)) else Err(Truncated)
  {
    Pow256Values();
    NumberCut(4, f.stream, s, if f.final.Some? then BigEndian(8, f.final.value) else []);
  }

  // What every cut of every frame reads as.
  lemma CutFrameReads(f: Frame, buf: Bytes)
    requires Bounded(f) && Cut(buf, Encode(f))
    ensures Decode(buf) == CutReads(f, |buf|)
  {
    if Required(f) {
      CutFrameIsRefused(f, buf);
    } else if buf != [] {
      var s := buf[1..];
      assert buf[0] == TypeOf(f) && s == Body(f)[..|buf| - 1];
      match f
      case CreateSession(_, _, _, _, _) => CreateCut(f, s);
      case StreamData(_, _, _) => DataCut(f, s);
      case StreamAck(_, _, _, _) => AckCut(f, s);
      case StreamClose(_, _) => CloseCut(f, s);
      case JoinSessionOk =>
      case SessionClose =>
    }
  }
}
