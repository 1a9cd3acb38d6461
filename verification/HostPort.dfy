// Printing and parsing a target as `host:port` (crates/nya-proto/src/frame.rs).
module HostPort {
  import opened Common
  import opened Codec

  datatype ParseError = NotATarget | NotAPort

  const PORT_MAX: nat := 65535
  const ZERO: byte := 48
  const PLUS: byte := 43
  const COLON: byte := 58
  const OPEN: byte := 91
  const CLOSE: byte := 93

  // ---------------------------------------------------------------- valid text

  // Text followed by text is text.
  lemma {:induction false} Utf8Concat(a: Bytes, b: Bytes)
    requires Utf8(a) && Utf8(b)
    ensures Utf8(a + b)
    decreases |a|
  {
    if a == [] {
      assert a + b == b;
    } else {
      var n := ScalarLen(a);
      assert ScalarLen(a + b) == n;
      assert (a + b)[n..] == a[n..] + b;
      Utf8Concat(a[n..], b);
    }
  }

  lemma {:induction false} AsciiIsText(a: Bytes)
    requires forall i :: 0 <= i < |a| ==> a[i] < 0x80
    ensures Utf8(a)
    decreases |a|
  {
    if a != [] {
      AsciiIsText(a[1..]);
    }
  }

  // No byte after the first of a scalar value is ASCII.
  lemma TailIsNotAscii(s: Bytes, i: nat)
    requires s != [] && 0 < i < ScalarLen(s)
    ensures s[i] >= 0x80
  {
  }

  // Text cut at an ASCII character is text on both sides.
  lemma {:induction false} Utf8Split(a: Bytes, c: byte, b: Bytes)
    requires c < 0x80 && Utf8(a + [c] + b)
    ensures Utf8(a) && Utf8(b)
    decreases |a|
  {
    var s := a + [c] + b;
    var n := ScalarLen(s);
    if a == [] {
      assert s[1..] == b;
    } else {
      assert s[|a|] == c;
      if n > |a| {
        TailIsNotAscii(s, |a|);
        assert false;
      }
      ScalarOfPrefix(a, [c] + b);
      assert a + ([c] + b) == s;
      assert s[n..] == a[n..] + [c] + b;
      Utf8Split(a[n..], c, b);
    }
  }

  lemma ScalarOfPrefix(a: Bytes, b: Bytes)
    requires a != [] && 0 < ScalarLen(a + b) <= |a|
    ensures ScalarLen(a) == ScalarLen(a + b)
  {
  }

  // ------------------------------------------------------------------ numbers

  predicate IsDigit(b: byte) {
    ZERO <= b <= 57
  }

  function Digits(n: nat): (r: Bytes)
    ensures r != [] && forall i :: 0 <= i < |r| ==> IsDigit(r[i])
    decreases n
  {
    if n < 10 then [(48 + n) as byte] else Digits(n / 10) + [(48 + n % 10) as byte]
  }

  // Decimal digits as a number; anything else, or a value past the limit, is none.
  function Value(s: Bytes): (r: Option<nat>)
    ensures r.Some? ==> r.value <= PORT_MAX
    decreases |s|
  {
    if s == [] then Some(0)
    else
      var c := s[|s| - 1];
      var front := Value(s[..|s| - 1]);
      if front.Some? && IsDigit(c) && 10 * front.value + (c as nat - 48) <= PORT_MAX
      then Some(10 * front.value + (c as nat - 48))
      else None
  }

  // A plus sign may lead; digits must follow.
  function ParsePort(s: Bytes): (r: Option<nat>)
    ensures r.Some? ==> r.value <= PORT_MAX
  {
    if s == [] || s == [PLUS] then None
    else if s[0] == PLUS then Value(s[1..])
    else Value(s)
  }

  lemma {:induction false} ValueOfDigits(n: nat)
    requires n <= PORT_MAX
    ensures Value(Digits(n)) == Some(n)
    decreases n
  {
    var d := Digits(n);
    if n >= 10 {
      ValueOfDigits(n / 10);
      assert d[..|d| - 1] == Digits(n / 10);
    } else {
      assert d[..0] == [] && Value(d[..0]) == Some(0);
    }
  }

  // ------------------------------------------------------------------ splitting

  // The last place `sep` starts, if any.
  function LastAt(s: Bytes, sep: Bytes): (r: Option<nat>)
    requires sep != []
    ensures r.Some? ==> r.value + |sep| <= |s| && s[r.value..r.value + |sep|] == sep
    decreases |s|
  {
    if |s| < |sep| then None
    else if s[|s| - |sep|..] == sep then Some(|s| - |sep|)
    else LastAt(s[..|s| - 1], sep)
  }

  function SplitLast(s: Bytes, sep: Bytes): (r: Option<(Bytes, Bytes)>)
    requires sep != []
    ensures r.Some? ==> s == r.value.0 + sep + r.value.1
  {
    var at := LastAt(s, sep);
    if at.None? then None else Some((s[..at.value], s[at.value + |sep|..]))
  }

  lemma DropLast(a: Bytes, b: Bytes)
    requires b != []
    ensures (a + b)[..|a + b| - 1] == a + b[..|b| - 1] && (a + b)[|a + b| - 1] == b[|b| - 1]
  {
  }

  lemma LastAtEnd(head: Bytes, sep: Bytes)
    requires sep != []
    ensures LastAt(head + sep, sep) == Some(|head|)
  {
    assert (head + sep)[|head|..] == sep;
  }

  lemma LastSkips(s: Bytes, sep: Bytes)
    requires sep != [] && s != [] && s[|s| - 1] != sep[|sep| - 1]
    ensures LastAt(s, sep) == LastAt(s[..|s| - 1], sep)
  {
    if |s| >= |sep| {
      assert s[|s| - |sep|..][|sep| - 1] == s[|s| - 1];
    }
  }

  lemma OneLessBehind(head: Bytes, sep: Bytes, tail: Bytes)
    requires sep != [] && tail != [] && tail[|tail| - 1] != sep[|sep| - 1]
    ensures LastAt(head + sep + tail, sep) == LastAt(head + sep + tail[..|tail| - 1], sep)
  {
    DropLast(head + sep, tail);
    LastSkips(head + sep + tail, sep);
  }

  // The last occurrence is the one before a tail without the separator's last
  // character.
  lemma {:induction false} LastBefore(head: Bytes, sep: Bytes, tail: Bytes)
    requires sep != [] && sep[|sep| - 1] !in tail
    ensures LastAt(head + sep + tail, sep) == Some(|head|)
    decreases |tail|
  {
    if tail == [] {
      LastAtEnd(head, sep);
      assert head + sep + tail == head + sep;
    } else {
      var front := tail[..|tail| - 1];
      assert tail[|tail| - 1] in tail;
      OneLessBehind(head, sep, tail);
      LastBefore(head, sep, front);
    }
  }

  lemma SplitBack(head: Bytes, sep: Bytes, tail: Bytes)
    requires sep != [] && sep[|sep| - 1] !in tail
    ensures SplitLast(head + sep + tail, sep) == Some((head, tail))
  {
    LastBefore(head, sep, tail);
    var s := head + sep + tail;
    assert s[..|head|] == head && s[|head| + |sep|..] == tail;
  }

  // A text split at an ASCII separator leaves a text in front.
  lemma HostIsText(s: Text, sep: Bytes)
    requires sep != [] && forall i :: 0 <= i < |sep| ==> sep[i] < 0x80
    ensures SplitLast(s, sep).Some? ==> Utf8(SplitLast(s, sep).value.0)
  {
    var r := SplitLast(s, sep);
    if r.Some? {
      assert s == r.value.0 + [sep[0]] + (sep[1..] + r.value.1);
      Utf8Split(r.value.0, sep[0], sep[1..] + r.value.1);
    }
  }

  // ------------------------------------------------------------------ targets

  function Display(t: Target): Bytes {
    if COLON in t.host then [OPEN] + t.host + [CLOSE, COLON] + Digits(t.port) else t.host + [COLON] + Digits(t.port)
  }

  function WithPort(parts: Option<(Bytes, Bytes)>): Result<Target, ParseError>
    requires parts.Some? ==> Utf8(parts.value.0)
  {
    if parts.None? then Err(NotATarget)
    else
      var port := ParsePort(parts.value.1);
      if port.None? then Err(NotAPort) else Ok(Target(parts.value.0, port.value))
  }

  function Parse(s: Text): Result<Target, ParseError> {
    if s != [] && s[0] == OPEN then
      Unbracketed(s);
      HostIsText(s[1..], [CLOSE, COLON]);
      WithPort(SplitLast(s[1..], [CLOSE, COLON]))
    else
      HostIsText(s, [COLON]);
      WithPort(SplitLast(s, [COLON]))
  }

  lemma Unbracketed(s: Text)
    requires s != [] && s[0] == OPEN
    ensures Utf8(s[1..])
  {
    assert s == [] + [OPEN] + s[1..];
    Utf8Split([], OPEN, s[1..]);
  }

  // What is printed is text.
  lemma DisplayIsText(t: Target)
    ensures Utf8(Display(t))
  {
    var d := Digits(t.port);
    AsciiIsText(d);
    AsciiIsText([OPEN]);
    AsciiIsText([CLOSE, COLON]);
    AsciiIsText([COLON]);
    Utf8Concat([OPEN], t.host);
    Utf8Concat([OPEN] + t.host, [CLOSE, COLON]);
    Utf8Concat([OPEN] + t.host + [CLOSE, COLON], d);
    Utf8Concat(t.host, [COLON]);
    Utf8Concat(t.host + [COLON], d);
  }

  lemma PortBack(port: nat)
    requires port <= PORT_MAX
    ensures ParsePort(Digits(port)) == Some(port) && COLON !in Digits(port)
  {
    ValueOfDigits(port);
    var d := Digits(port);
    assert IsDigit(d[0]);
    assert d[0] != PLUS;
    assert d != [PLUS];
  }

  // A printed target parses back exactly unless its host starts with a bracket
  // and has no colon.
  lemma ParseDisplayIff(t: Target)
    ensures Utf8(Display(t))
    ensures Parse(Display(t)) == Ok(t) <==> COLON in t.host || t.host == [] || t.host[0] != OPEN
  {
    DisplayIsText(t);
    PortBack(t.port);
    var d := Digits(t.port);
    if COLON in t.host {
      BracketedBack(t.host, d);
    } else if t.host == [] || t.host[0] != OPEN {
      PlainBack(t.host, d);
    } else {
      NotTheHost(t.host, d);
    }
  }

  lemma BracketedBack(host: Bytes, d: Bytes)
    requires COLON !in d
    ensures var s := [OPEN] + host + [CLOSE, COLON] + d;
            s[0] == OPEN && SplitLast(s[1..], [CLOSE, COLON]) == Some((host, d))
  {
    var s := [OPEN] + host + [CLOSE, COLON] + d;
    assert s[1..] == host + [CLOSE, COLON] + d;
    SplitBack(host, [CLOSE, COLON], d);
  }

  lemma PlainBack(host: Bytes, d: Bytes)
    requires COLON !in d && (host == [] || host[0] != OPEN)
    ensures var s := host + [COLON] + d;
            s[0] != OPEN && SplitLast(s, [COLON]) == Some((host, d))
  {
    SplitBack(host, [COLON], d);
  }

  // Without its bracket the host is cut short at a bracket and colon, if at all.
  lemma NotTheHost(host: Bytes, d: Bytes)
    requires host != [] && host[0] == OPEN && COLON !in host
    ensures var s := host + [COLON] + d;
            && s[0] == OPEN
            && (SplitLast(s[1..], [CLOSE, COLON]).Some? ==> SplitLast(s[1..], [CLOSE, COLON]).value.0 != host)
  {
    var s := (host + [COLON] + d)[1..];
    var at := LastAt(s, [CLOSE, COLON]);
    assert s[|host| - 1] == COLON;
    assert at.Some? && at.value >= |host| ==> s[..at.value][|host| - 1] == COLON;
  }
}
