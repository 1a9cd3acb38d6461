// Whole frames as the bytes on the wire (crates/nya-proto/src/frame.rs,
// crates/nya-proto/src/codec.rs): the type code, the order of the fields, and
// big-endian numbers.
module FrameVectors {
  import opened Common
  import opened Codec
  import opened FrameIo

  lemma {:induction false} PowPositive(n: nat)
    ensures Pow256(n) > 0
  {
    if n > 0 {
      PowPositive(n - 1);
    }
  }

  // Byte i of a number is its digit to the base 256, the highest first.
  lemma {:induction false} HighestByteFirst(n: nat, x: nat, i: nat)
    requires i < n
    ensures Pow256(n - 1 - i) > 0 && BigEndian(n, x)[i] as nat == x / Pow256(n - 1 - i) % 256
  {
    PowPositive(n - 1 - i);
    if i < n - 1 {
      HighestByteFirst(n - 1, x / 256, i);
      PowPositive(n - 2 - i);
      DivideTwice(x, Pow256(n - 2 - i));
    }
  }

  lemma DivideTwice(x: nat, d: nat)
    requires d > 0
    ensures x / 256 / d == x / (256 * d)
  {
    var q := x / (256 * d);
    var r := x % (256 * d);
    assert x == 256 * d * q + r;
    var a := x / 256;
    assert d * q <= a < d * q + d by {
      assert 256 * (d * q) == 256 * d * q;
    }
    UniqueQuotient(a, d, q);
  }

  lemma UniqueQuotient(a: nat, d: nat, q: nat)
    requires d * q <= a < d * q + d
    ensures a / d == q
  {
    var p := a / d;
    assert d * p <= a < d * p + d;
    if p < q {
      OneMoreTimes(d, p, q);
    } else if q < p {
      OneMoreTimes(d, q, p);
    }
  }

  lemma OneMoreTimes(d: nat, p: nat, q: nat)
    requires p < q
    ensures d * p + d <= d * q
  {
    assert q == p + 1 + (q - p - 1);
    assert d * q == d * (p + 1) + d * (q - p - 1);
  }

  const EIGHT: Bytes := [1, 2, 3, 4, 5, 6, 7, 8]
  const NINE: Bytes := [0, 0, 0, 0, 0, 0, 0, 9]

  lemma LowestLast(n: nat, high: nat, low: byte)
    ensures BigEndian(n + 1, 256 * high + low as nat) == BigEndian(n, high) + [low]
  {
  }

  lemma TwoMore(n: nat, high: nat, s: Bytes, a: byte, b: byte)
    requires BigEndian(n, high) == s
    ensures BigEndian(n + 2, 256 * (256 * high + a as nat) + b as nat) == s + [a, b]
  {
    LowestLast(n, high, a);
    LowestLast(n + 1, 256 * high + a as nat, b);
  }

  lemma Numbers()
    ensures BigEndian(8, 0x0102030405060708) == EIGHT && BigEndian(8, 9) == NINE
    ensures BigEndian(4, 0x0A0B0C0D) == [0x0A, 0x0B, 0x0C, 0x0D]
    ensures BigEndian(2, 0x01BB) == [0x01, 0xBB] && BigEndian(2, 1) == [0, 1] && BigEndian(2, 2) == [0, 2]
  {
    TwoMore(0, 0, [], 0x0A, 0x0B);
    TwoMore(2, 0x0A0B, [0x0A, 0x0B], 0x0C, 0x0D);
    TwoMore(0, 0, [], 0x01, 0xBB);
    TwoMore(0, 0, [], 0, 1);
    TwoMore(0, 0, [], 0, 2);
    OneToEight();
    OnlyNine();
  }

  lemma OneToEight()
    ensures BigEndian(8, 0x0102030405060708) == EIGHT
  {
    TwoMore(0, 0, [], 1, 2);
    TwoMore(2, 0x0102, [1, 2], 3, 4);
    TwoMore(4, 0x01020304, [1, 2, 3, 4], 5, 6);
    TwoMore(6, 0x010203040506, [1, 2, 3, 4, 5, 6], 7, 8);
  }

  lemma OnlyNine()
    ensures BigEndian(8, 9) == NINE
  {
    TwoMore(0, 0, [], 0, 0);
    TwoMore(2, 0, [0, 0], 0, 0);
    TwoMore(4, 0, [0, 0, 0, 0], 0, 0);
    TwoMore(6, 0, [0, 0, 0, 0, 0, 0], 0, 9);
  }

  lemma Letters()
    ensures Utf8([0x75]) && Utf8([0x61, 0x62])
  {
    assert [0x75][1..] == [] && [0x61, 0x62][1..] == [0x62] && [0x62][1..] == [];
  }

  lemma Strings()
    ensures Utf8([0x75]) && PutText([0x75]) == [0, 1, 0x75]
    ensures Utf8([0x61, 0x62]) && PutText([0x61, 0x62]) == [0, 2, 0x61, 0x62]
  {
    Letters();
    Numbers();
    assert [0x75][..1] == [0x75] && [0x61, 0x62][..2] == [0x61, 0x62];
  }

  lemma ProbeFrames()
    ensures Encode(Ping(0x0102030405060708, 9)) == [0x01] + EIGHT + NINE
    ensures Encode(Pong(0x0102030405060708, 9)) == [0x02] + EIGHT + NINE
  {
    Numbers();
  }

  lemma DataFrame()
    ensures Encode(StreamData(0x0A0B0C0D, 0x0102030405060708, [0xFF])) == [0x09] + [0x0A, 0x0B, 0x0C, 0x0D] + EIGHT + [0xFF]
  {
    Numbers();
    Joined(0x09, [0x0A, 0x0B, 0x0C, 0x0D], EIGHT, [0xFF]);
  }

  lemma Joined(t: byte, a: Bytes, b: Bytes, c: Bytes)
    ensures [t] + (a + (b + c)) == [t] + a + b + c
  {
  }

  lemma AckFrames()
    ensures Encode(StreamAck(0x0A0B0C0D, 9, 0x0A0B0C0D, [])) == [0x0A, 0x0A, 0x0B, 0x0C, 0x0D] + NINE + [0x0A, 0x0B, 0x0C, 0x0D]
    ensures Encode(StreamAck(0x0A0B0C0D, 9, 0x0A0B0C0D, [(9, 0x0102030405060708)])) ==
            [0x0A, 0x0A, 0x0B, 0x0C, 0x0D] + NINE + [0x0A, 0x0B, 0x0C, 0x0D, 1] + NINE + EIGHT
  {
    OneRange();
    AckIs([]);
    AckIs([(9, 0x0102030405060708)]);
  }

  lemma AckIs(sack: seq<(U64, U64)>)
    ensures Encode(StreamAck(0x0A0B0C0D, 9, 0x0A0B0C0D, sack)) ==
            [0x0A, 0x0A, 0x0B, 0x0C, 0x0D] + NINE + [0x0A, 0x0B, 0x0C, 0x0D] + PutSack(sack)
  {
    Numbers();
  }

  lemma CloseFrames()
    ensures Encode(StreamClose(0x0A0B0C0D, None)) == [0x0B] + [0x0A, 0x0B, 0x0C, 0x0D] + []
    ensures Encode(StreamClose(0x0A0B0C0D, Some(9))) == [0x0B] + [0x0A, 0x0B, 0x0C, 0x0D] + NINE
  {
    Numbers();
    Joined(0x0B, [0x0A, 0x0B, 0x0C, 0x0D], [], []);
    Joined(0x0B, [0x0A, 0x0B, 0x0C, 0x0D], NINE, []);
    assert NINE + [] == NINE;
  }

  lemma OneRange()
    ensures PutSack([(9, 0x0102030405060708)]) == [1] + NINE + EIGHT
  {
    Numbers();
    var pairs: seq<(U64, U64)> := [(9, 0x0102030405060708)];
    assert pairs[..1] == pairs && pairs[1..] == [];
    assert PutPairs(pairs) == NINE + EIGHT + PutPairs([]);
  }

  // The reasons of a reset, in their order.
  lemma ResetFrames(r: Reason)
    ensures Encode(StreamReset(0x0A0B0C0D, r)) ==
            [0x0C, 0x0A, 0x0B, 0x0C, 0x0D] + [match r
                                              case Unknown => 0
                                              case DialFailed => 1
                                              case Timeout => 2
                                              case PeerReset => 3
                                              case SessionDead => 4
                                              case Protocol => 5]
  {
    Numbers();
  }

  lemma CreateFrame(nonce: Secret, proof: Secret)
    ensures Utf8([0x75]) && Utf8([0x61, 0x62])
    ensures Encode(CreateSession(1, [0x75], nonce, proof, [0x61, 0x62])) ==
            [0x03, 1, 0, 1, 0x75] + nonce + proof + [0, 2, 0x61, 0x62]
  {
    Strings();
    assert Body(CreateSession(1, [0x75], nonce, proof, [0x61, 0x62])) ==
           [1] + ([0, 1, 0x75] + (nonce + (proof + [0, 2, 0x61, 0x62])));
  }

  lemma JoinFrame(proof: Secret, id: SessionId)
    ensures Utf8([0x61, 0x62])
    ensures Encode(JoinSession(id, [0x61, 0x62], proof)) == [0x05] + id + [0, 2, 0x61, 0x62] + proof
  {
    Strings();
  }

  lemma OpenFrame()
    ensures Utf8([0x75])
    ensures Encode(StreamOpen(0x0A0B0C0D, Target([0x75], 0x01BB))) == [0x08] + [0x0A, 0x0B, 0x0C, 0x0D] + [0x01, 0xBB] + [0, 1, 0x75]
  {
    Numbers();
    Strings();
    Joined(0x08, [0x0A, 0x0B, 0x0C, 0x0D], [0x01, 0xBB], [0, 1, 0x75]);
  }

  lemma ShortFrames(id: SessionId)
    ensures Utf8([0x61, 0x62]) && Encode(HandshakeErr([0x61, 0x62])) == [0x07, 0, 2, 0x61, 0x62]
    ensures Encode(CreateSessionOk(id)) == [0x04] + id
    ensures Encode(JoinSessionOk) == [0x06] && Encode(SessionClose) == [0x0E]
  {
    Strings();
  }

  lemma LengthBytes(n: nat)
    requires n <= 16384
    ensures var b := BigEndian(4, n); b[0] == 0 && b[1] == 0 && b[2] as nat * 256 + b[3] as nat == n
  {
    Pow256Values();
    assert Pow256(3) == 256 * Pow256(2);
    HighestByteFirst(4, n, 0);
    HighestByteFirst(4, n, 1);
    HighestByteFirst(4, n, 2);
    HighestByteFirst(4, n, 3);
  }

  // On a connection every frame follows its length in four bytes.
  lemma FramesAreCounted(f: Frame)
    requires |Encode(f)| <= 16384
    ensures FrameBytes(f).Ok? && |FrameBytes(f).value| == 4 + |Encode(f)| && FrameBytes(f).value[4..] == Encode(f)
    ensures var b := FrameBytes(f).value;
            b[0] == 0 && b[1] == 0 && b[2] as nat * 256 + b[3] as nat == |Encode(f)|
  {
    LengthBytes(|Encode(f)|);
  }
}
