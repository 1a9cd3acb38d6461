// Selective acknowledgement ranges of a receive buffer (crates/nya-core/src/stream.rs).
module Sack {
  import opened Common

  // A buffered chunk, or a reported range: bytes lo, ..., hi - 1.
  datatype Range = Range(lo: nat, hi: nat)

  type Buffer = map<nat, Bytes>

  // ----------------------------------------------------- offsets in order

  lemma {:induction false} LeastExists(keys: set<nat>)
    requires keys != {}
    ensures exists k :: k in keys && forall x :: x in keys ==> k <= x
  {
    var x :| x in keys;
    if keys != {x} {
      assert keys == {x} + (keys - {x});
      LeastExists(keys - {x});
      var y :| y in keys - {x} && forall k :: k in keys - {x} ==> y <= k;
      assert Min(x, y) in keys && forall k :: k in keys ==> Min(x, y) <= k;
    }
  }

  function Least(keys: set<nat>): (k: nat)
    requires keys != {}
    ensures k in keys && forall x :: x in keys ==> k <= x
  {
    LeastExists(keys);
    var k :| k in keys && forall x :: x in keys ==> k <= x;
    k
  }

  lemma HeadFirst(keys: set<nat>, k: nat, rest: seq<nat>)
    requires k in keys && (forall x :: x in keys ==> k <= x) && forall x :: x in rest <==> x in keys - {k}
    requires forall i, j :: 0 <= i < j < |rest| ==> rest[i] < rest[j]
    ensures forall i, j :: 0 <= i < j < |[k] + rest| ==> ([k] + rest)[i] < ([k] + rest)[j]
    ensures forall x :: x in [k] + rest <==> x in keys
  {
    assert forall i :: 0 <= i < |rest| ==> rest[i] in rest;
  }

  // The order in which a BTreeMap yields its keys.
  function Sorted(keys: set<nat>): (r: seq<nat>)
    ensures forall i, j :: 0 <= i < j < |r| ==> r[i] < r[j]
    ensures forall k :: k in r <==> k in keys
  {
    if keys == {} then []
    else
      var k := Least(keys);
      HeadFirst(keys, k, Sorted(keys - {k}));
      [k] + Sorted(keys - {k})
  }

  function Chunks(buf: Buffer): seq<Range> {
    var keys: seq<nat> := Sorted(buf.Keys);
    seq(|keys|, i requires 0 <= i < |keys| => assert keys[i] in keys; Range(keys[i], keys[i] + |buf[keys[i]]|))
  }

  // ----------------------------------------------------------- coalescing

  function Extend(runs: seq<Range>, c: Range): seq<Range> {
    if runs != [] && runs[|runs| - 1].hi == c.lo
    then runs[|runs| - 1 := Range(runs[|runs| - 1].lo, c.hi)]
    else runs + [c]
  }

  function Runs(chunks: seq<Range>): seq<Range> {
    if chunks == [] then []
    else Extend(Runs(chunks[..|chunks| - 1]), chunks[|chunks| - 1])
  }

  // The run that holds the newest arrival, if there is one.
  function FirstOf(runs: seq<Range>, newest: nat): seq<Range> {
    if runs == [] then []
    else if runs[0].lo <= newest < runs[0].hi then [runs[0]]
    else FirstOf(runs[1..], newest)
  }

  // Adds the highest runs not yet listed, up to the limit.
  function TopUp(runs: seq<Range>, out: seq<Range>): seq<Range> {
    if runs == [] || |out| >= MAX_SACK_RANGES then out
    else
      var r := runs[|runs| - 1];
      TopUp(runs[..|runs| - 1], if r in out then out else out + [r])
  }

  function Ranges(buf: Buffer, newest: nat): seq<Range> {
    var runs := Runs(Chunks(buf));
    TopUp(runs, FirstOf(runs, newest))
  }

  // Length of the run of chunks that starts exactly at `next`.
  function Held(chunks: seq<Range>, next: nat): nat {
    if chunks == [] || chunks[0].lo != next || chunks[0].hi < chunks[0].lo then 0
    else chunks[0].hi - chunks[0].lo + Held(chunks[1..], chunks[0].hi)
  }

  // The chunks a BTreeMap range starting at `next` yields.
  function From(chunks: seq<Range>, next: nat): seq<Range> {
    if chunks == [] then []
    else if chunks[0].lo >= next then chunks
    else From(chunks[1..], next)
  }

  method Coalesce(chunks: seq<Range>) returns (runs: seq<Range>)
    ensures runs == Runs(chunks)
  {
    runs := [];
    for i := 0 to |chunks|
      invariant runs == Runs(chunks[..i])
    {
      assert chunks[..i + 1][..i] == chunks[..i];
      var c := chunks[i];
      if runs != [] && runs[|runs| - 1].hi == c.lo {
        runs := runs[|runs| - 1 := Range(runs[|runs| - 1].lo, c.hi)];
      } else {
        runs := runs + [c];
      }
    }
    assert chunks[..|chunks|] == chunks;
  }

  method FindNewest(runs: seq<Range>, newest: nat) returns (out: seq<Range>)
    ensures out == FirstOf(runs, newest)
  {
    var i := 0;
    while i < |runs|
      invariant 0 <= i <= |runs|
      invariant FirstOf(runs, newest) == FirstOf(runs[i..], newest)
    {
      assert runs[i..][1..] == runs[i + 1..];
      if runs[i].lo <= newest < runs[i].hi {
        return [runs[i]];
      }
      i := i + 1;
    }
    return [];
  }

  method AddHighest(runs: seq<Range>, first: seq<Range>) returns (out: seq<Range>)
    ensures out == TopUp(runs, first)
  {
    out := first;
    var k := |runs|;
    assert runs[..k] == runs;
    while k > 0 && |out| < MAX_SACK_RANGES
      invariant 0 <= k <= |runs|
      invariant TopUp(runs[..k], out) == TopUp(runs, first)
    {
      k := k - 1;
      assert runs[..k + 1][..k] == runs[..k];
      if runs[k] !in out {
        out := out + [runs[k]];
      }
    }
  }

  method SackRanges(buf: Buffer, newest: nat) returns (out: seq<Range>)
    ensures out == Ranges(buf, newest)
  {
    var runs := Coalesce(Chunks(buf));
    out := FindNewest(runs, newest);
    out := AddHighest(runs, out);
  }

  predicate Ordered(chunks: seq<Range>) {
    forall i :: 0 <= i < |chunks| ==> chunks[i].lo <= chunks[i].hi
  }

  lemma FromOneMore(chunks: seq<Range>, i: nat, next: nat)
    requires i < |chunks|
    ensures From(chunks[i..], next) == if chunks[i].lo >= next then chunks[i..] else From(chunks[i + 1..], next)
  {
    assert chunks[i..][0] == chunks[i] && chunks[i..][1..] == chunks[i + 1..];
  }

  lemma HeldOneMore(chunks: seq<Range>, i: nat, next: nat)
    requires i < |chunks| && chunks[i].lo <= chunks[i].hi
    ensures Held(chunks[i..], next) ==
            if chunks[i].lo != next then 0 else chunks[i].hi - chunks[i].lo + Held(chunks[i + 1..], chunks[i].hi)
  {
    assert chunks[i..][0] == chunks[i] && chunks[i..][1..] == chunks[i + 1..];
  }

  method SkipTo(chunks: seq<Range>, next: nat) returns (i: nat)
    ensures i <= |chunks| && From(chunks, next) == chunks[i..]
  {
    i := 0;
    assert chunks[0..] == chunks;
    while i < |chunks| && chunks[i].lo < next
      invariant i <= |chunks| && From(chunks[i..], next) == From(chunks, next)
    {
      FromOneMore(chunks, i, next);
      i := i + 1;
    }
    if i < |chunks| {
      FromOneMore(chunks, i, next);
    }
  }

  method HeldFrom(chunks: seq<Range>, start: nat, from: nat) returns (held: nat)
    requires start <= |chunks| && Ordered(chunks)
    ensures held == Held(chunks[start..], from)
  {
    held := 0;
    var i, next := start, from;
    while i < |chunks|
      invariant start <= i <= |chunks| && held + Held(chunks[i..], next) == Held(chunks[start..], from)
    {
      HeldOneMore(chunks, i, next);
      if chunks[i].lo != next {
        break;
      }
      held := held + (chunks[i].hi - chunks[i].lo);
      next := chunks[i].hi;
      i := i + 1;
    }
  }

  method InOrderHeld(buf: Buffer, recvNext: nat) returns (held: nat)
    ensures held == Held(From(Chunks(buf), recvNext), recvNext)
  {
    var chunks := Chunks(buf);
    var start := SkipTo(chunks, recvNext);
    held := HeldFrom(chunks, start, recvNext);
  }

  // ------------------------------------------------------- what they mean

  predicate Contains(rs: seq<Range>, b: nat) {
    exists i :: 0 <= i < |rs| && rs[i].lo <= b < rs[i].hi
  }

  // Nonempty chunks in order that do not overlap.
  predicate Disjoint(chunks: seq<Range>) {
    && (forall i :: 0 <= i < |chunks| ==> chunks[i].lo < chunks[i].hi)
    && (forall i, j :: 0 <= i < j < |chunks| ==> chunks[i].hi <= chunks[j].lo)
  }

  // Nonempty runs in order with a gap between any two: maximal runs.
  predicate Separated(runs: seq<Range>) {
    && (forall i :: 0 <= i < |runs| ==> runs[i].lo < runs[i].hi)
    && (forall i, j :: 0 <= i < j < |runs| ==> runs[i].hi < runs[j].lo)
  }

  lemma ExtendContains(runs: seq<Range>, c: Range, b: nat)
    requires c.lo <= c.hi && forall i :: 0 <= i < |runs| ==> runs[i].lo <= runs[i].hi
    ensures Contains(Extend(runs, c), b) <==> Contains(runs, b) || c.lo <= b < c.hi
    ensures forall i :: 0 <= i < |Extend(runs, c)| ==> Extend(runs, c)[i].lo <= Extend(runs, c)[i].hi
  {
    var e := Extend(runs, c);
    var n := |runs|;
    if Contains(runs, b) {
      var i :| 0 <= i < n && runs[i].lo <= b < runs[i].hi;
      assert e[i].lo <= b < e[i].hi;
    }
    if c.lo <= b < c.hi {
      assert e[|e| - 1].lo <= b < e[|e| - 1].hi;
    }
    if Contains(e, b) {
      var i :| 0 <= i < |e| && e[i].lo <= b < e[i].hi;
      assert c.lo <= b < c.hi || (i < n && runs[i].lo <= b < runs[i].hi);
    }
  }

  lemma ContainsAppend(front: seq<Range>, c: Range, b: nat)
    ensures Contains(front + [c], b) <==> Contains(front, b) || c.lo <= b < c.hi
  {
    var all := front + [c];
    if i :| 0 <= i < |front| && front[i].lo <= b < front[i].hi {
      assert all[i].lo <= b < all[i].hi;
    }
    if i :| 0 <= i < |all| && all[i].lo <= b < all[i].hi {
      assert i < |front| ==> front[i].lo <= b < front[i].hi;
    }
    assert c.lo <= b < c.hi ==> all[|front|].lo <= b < all[|front|].hi;
  }

  // The runs hold exactly the bytes of the chunks, whatever the chunks are.
  lemma {:induction false} RunsHoldTheChunks(chunks: seq<Range>, b: nat)
    requires forall i :: 0 <= i < |chunks| ==> chunks[i].lo <= chunks[i].hi
    ensures forall i :: 0 <= i < |Runs(chunks)| ==> Runs(chunks)[i].lo <= Runs(chunks)[i].hi
    ensures Contains(Runs(chunks), b) <==> Contains(chunks, b)
  {
    if chunks != [] {
      var front, c := chunks[..|chunks| - 1], chunks[|chunks| - 1];
      RunsHoldTheChunks(front, b);
      ExtendContains(Runs(front), c, b);
      assert chunks == front + [c];
      ContainsAppend(front, c, b);
    }
  }

  // For chunks that do not overlap the runs are the maximal ones.
  lemma {:induction false} RunsAreMaximal(chunks: seq<Range>)
    requires Disjoint(chunks)
    ensures Separated(Runs(chunks))
    ensures chunks != [] ==> Runs(chunks) != [] && Runs(chunks)[|Runs(chunks)| - 1].hi == chunks[|chunks| - 1].hi
  {
    if chunks != [] {
      var front := chunks[..|chunks| - 1];
      RunsAreMaximal(front);
    }
  }

  predicate Distinct(rs: seq<Range>) {
    forall i, j :: 0 <= i < j < |rs| ==> rs[i] != rs[j]
  }

  lemma {:induction false} TopUpFacts(runs: seq<Range>, out: seq<Range>)
    requires Distinct(out) && |out| <= MAX_SACK_RANGES
    ensures out <= TopUp(runs, out)
    ensures Distinct(TopUp(runs, out)) && |TopUp(runs, out)| <= MAX_SACK_RANGES
    ensures forall r :: r in TopUp(runs, out) ==> r in out || r in runs
    ensures |TopUp(runs, out)| == MAX_SACK_RANGES || forall r :: r in runs ==> r in TopUp(runs, out)
  {
    if runs != [] && |out| < MAX_SACK_RANGES {
      var r := runs[|runs| - 1];
      var front := runs[..|runs| - 1];
      assert runs == front + [r];
      var more := if r in out then out else out + [r];
      TopUpFacts(front, more);
      assert forall i :: 0 <= i < |more| ==> TopUp(front, more)[i] == more[i];
      assert r in more && r in TopUp(front, more);
    }
  }

  lemma {:induction false} FirstOfFacts(runs: seq<Range>, newest: nat)
    ensures Contains(runs, newest) <==> FirstOf(runs, newest) != []
    ensures FirstOf(runs, newest) != [] ==>
              && |FirstOf(runs, newest)| == 1 && FirstOf(runs, newest)[0] in runs
              && FirstOf(runs, newest)[0].lo <= newest < FirstOf(runs, newest)[0].hi
  {
    if runs != [] {
      FirstOfFacts(runs[1..], newest);
      if Contains(runs, newest) && !(runs[0].lo <= newest < runs[0].hi) {
        var i :| 0 <= i < |runs| && runs[i].lo <= newest < runs[i].hi;
        assert runs[1..][i - 1] == runs[i];
      }
      if Contains(runs[1..], newest) {
        var i :| 0 <= i < |runs| - 1 && runs[1..][i].lo <= newest < runs[1..][i].hi;
        assert runs[i + 1].lo <= newest < runs[i + 1].hi;
      }
    }
  }

  lemma {:induction false} SizeOfDistinct(a: seq<Range>)
    requires Distinct(a)
    ensures |set r | r in a| == |a|
  {
    if a != [] {
      var front, last := a[..|a| - 1], a[|a| - 1];
      SizeOfDistinct(front);
      assert (set r | r in a) == (set r | r in front) + {last};
    }
  }

  lemma NoLonger(a: seq<Range>, b: seq<Range>)
    requires Distinct(a) && Distinct(b) && forall r :: r in a ==> r in b
    ensures |a| <= |b|
  {
    SizeOfDistinct(a);
    SizeOfDistinct(b);
    var x, y := set r | r in a, set r | r in b;
    assert y == x + (y - x);
  }

  lemma ListedRuns(runs: seq<Range>, newest: nat)
    requires Distinct(runs)
    ensures var out := TopUp(runs, FirstOf(runs, newest));
            && Distinct(out) && |out| == Min(MAX_SACK_RANGES, |runs|)
            && (forall r :: r in out ==> r in runs)
            && (|runs| <= MAX_SACK_RANGES ==> forall r :: r in runs ==> r in out)
            && (Contains(runs, newest) ==> out[0].lo <= newest < out[0].hi)
  {
    var out := TopUp(runs, FirstOf(runs, newest));
    FirstOfFacts(runs, newest);
    TopUpFacts(runs, FirstOf(runs, newest));
    NoLonger(out, runs);
    if |out| < MAX_SACK_RANGES {
      NoLonger(runs, out);
    } else if |runs| <= MAX_SACK_RANGES {
      AllListed(runs, out);
    }
  }

  lemma SeparatedIsDistinct(runs: seq<Range>)
    requires Separated(runs)
    ensures Distinct(runs)
  {
  }

  // Main result: of a buffer whose chunks do not overlap, the acknowledgement
  // reports min(8, number) distinct maximal runs, the one holding the newest
  // arrival first, and all of them when there are at most eight.
  lemma RangesAreMaximalRuns(buf: Buffer, newest: nat)
    requires Disjoint(Chunks(buf))
    ensures var runs := Runs(Chunks(buf));
            var out := Ranges(buf, newest);
            && Separated(runs) && (forall b: nat :: Contains(runs, b) <==> Contains(Chunks(buf), b))
            && Distinct(out) && |out| == Min(MAX_SACK_RANGES, |runs|)
            && (forall r :: r in out ==> r in runs)
            && (|runs| <= MAX_SACK_RANGES ==> forall r :: r in runs ==> r in out)
            && (Contains(runs, newest) ==> out[0].lo <= newest < out[0].hi)
  {
    var chunks := Chunks(buf);
    var runs := Runs(chunks);
    RunsAreMaximal(chunks);
    forall b: nat
      ensures Contains(runs, b) <==> Contains(chunks, b)
    {
      RunsHoldTheChunks(chunks, b);
    }
    SeparatedIsDistinct(runs);
    ListedRuns(runs, newest);
  }

  lemma {:induction false} TopUpTakesHighest(runs: seq<Range>, out: seq<Range>, i: nat, j: nat)
    requires Distinct(runs) && i < j < |runs| && runs[i] in TopUp(runs, out) && runs[i] !in out && |out| <= MAX_SACK_RANGES
    ensures runs[j] in TopUp(runs, out)
  {
    var n := |runs| - 1;
    var r, front := runs[n], runs[..n];
    var more := if r in out then out else out + [r];
    assert runs == front + [r];
    assert |out| < MAX_SACK_RANGES;
    TopUpKeeps(front, more);
    if j < n {
      assert runs[i] != r && front[i] == runs[i] && front[j] == runs[j];
      TopUpTakesHighest(front, more, i, j);
    } else {
      assert r in more;
    }
  }

  lemma {:induction false} TopUpKeeps(runs: seq<Range>, out: seq<Range>)
    ensures out <= TopUp(runs, out)
  {
    if runs != [] && |out| < MAX_SACK_RANGES {
      var r := runs[|runs| - 1];
      TopUpKeeps(runs[..|runs| - 1], if r in out then out else out + [r]);
    }
  }

  lemma HighestOf(runs: seq<Range>, newest: nat, i: nat, j: nat)
    requires Distinct(runs) && i < j < |runs|
    requires runs[i] in TopUp(runs, FirstOf(runs, newest)) && !(runs[i].lo <= newest < runs[i].hi)
    ensures runs[j] in TopUp(runs, FirstOf(runs, newest))
  {
    FirstOfFacts(runs, newest);
    TopUpTakesHighest(runs, FirstOf(runs, newest), i, j);
  }

  // With more than eight runs the highest are reported, besides the run of the
  // newest arrival.
  lemma HighestRunsReported(buf: Buffer, newest: nat, i: nat, j: nat)
    requires Disjoint(Chunks(buf)) && i < j < |Runs(Chunks(buf))|
    requires var r := Runs(Chunks(buf))[i]; r in Ranges(buf, newest) && !(r.lo <= newest < r.hi)
    ensures Runs(Chunks(buf))[j] in Ranges(buf, newest)
  {
    var runs := Runs(Chunks(buf));
    RunsAreMaximal(Chunks(buf));
    SeparatedIsDistinct(runs);
    HighestOf(runs, newest, i, j);
  }

  lemma AllListed(runs: seq<Range>, out: seq<Range>)
    requires Distinct(runs) && Distinct(out) && |out| == |runs| && forall r :: r in out ==> r in runs
    ensures forall r :: r in runs ==> r in out
  {
    SizeOfDistinct(runs);
    SizeOfDistinct(out);
    var x, y := set r | r in out, set r | r in runs;
    assert y == x + (y - x);
    assert x <= y;
    assert |y| == |x| + |y - x|;
    assert y == x;
    forall r | r in runs
      ensures r in out
    {
      assert r in y;
    }
  }

  lemma ChunkIsBuffered(buf: Buffer, b: nat)
    requires Contains(Chunks(buf), b)
    ensures exists k :: k in buf && k <= b < k + |buf[k]|
  {
    var chunks := Chunks(buf);
    var j :| 0 <= j < |chunks| && chunks[j].lo <= b < chunks[j].hi;
    assert Sorted(buf.Keys)[j] in Sorted(buf.Keys);
    assert chunks[j].lo in buf;
  }

  lemma ListedAreRuns(runs: seq<Range>, newest: nat, b: nat)
    requires Contains(TopUp(runs, FirstOf(runs, newest)), b)
    ensures Contains(runs, b)
  {
    var out := TopUp(runs, FirstOf(runs, newest));
    FirstOfFacts(runs, newest);
    TopUpFacts(runs, FirstOf(runs, newest));
    var i :| 0 <= i < |out| && out[i].lo <= b < out[i].hi;
    assert out[i] in out && out[i] in runs;
  }

  // A reported byte is always a buffered byte, even if chunks overlap.
  lemma RangesOnlyReportBuffered(buf: Buffer, newest: nat, b: nat)
    requires Contains(Ranges(buf, newest), b)
    ensures exists k :: k in buf && k <= b < k + |buf[k]|
  {
    ListedAreRuns(Runs(Chunks(buf)), newest, b);
    RunsHoldTheChunks(Chunks(buf), b);
    ChunkIsBuffered(buf, b);
  }

  // The in-order count is the maximal contiguous run: every byte up to it is
  // buffered and the next one is not.
  lemma {:induction false} HeldIsMaximal(chunks: seq<Range>, next: nat)
    requires Disjoint(chunks) && forall i :: 0 <= i < |chunks| ==> chunks[i].lo >= next
    ensures forall b :: next <= b < next + Held(chunks, next) ==> Contains(chunks, b)
    ensures !Contains(chunks, next + Held(chunks, next))
  {
    if chunks != [] && chunks[0].lo == next {
      var rest := chunks[1..];
      HeldIsMaximal(rest, chunks[0].hi);
      forall b | next <= b < next + Held(chunks, next)
        ensures Contains(chunks, b)
      {
        if b >= chunks[0].hi {
          assert Contains(rest, b);
          var i :| 0 <= i < |rest| && rest[i].lo <= b < rest[i].hi;
          assert chunks[i + 1].lo <= b < chunks[i + 1].hi;
        }
      }
      assert forall i :: 1 <= i < |chunks| ==> chunks[i] == rest[i - 1];
    }
  }

  predicate Buffered(buf: Buffer, b: nat) {
    exists k :: k in buf && k <= b < k + |buf[k]|
  }

  lemma BufferedIsInChunks(buf: Buffer, b: nat)
    ensures Buffered(buf, b) <==> Contains(Chunks(buf), b)
  {
    var chunks := Chunks(buf);
    if k :| k in buf && k <= b < k + |buf[k]| {
      var keys: seq<nat> := Sorted(buf.Keys);
      assert k in keys;
      var j :| 0 <= j < |keys| && keys[j] == k;
      assert chunks[j] == Range(k, k + |buf[k]|);
    }
    if Contains(chunks, b) {
      ChunkIsBuffered(buf, b);
    }
  }

  lemma {:induction false} FromAll(chunks: seq<Range>, next: nat)
    requires forall i :: 0 <= i < |chunks| ==> chunks[i].lo >= next
    ensures From(chunks, next) == chunks
  {
  }

  // Of a receive buffer: the in-order count reaches exactly the first byte from
  // `recvNext` on that is not buffered.
  lemma InOrderHeldIsMaximal(buf: Buffer, recvNext: nat)
    requires Disjoint(Chunks(buf)) && forall k :: k in buf ==> k >= recvNext
    ensures var held := Held(From(Chunks(buf), recvNext), recvNext);
            && (forall b: nat :: recvNext <= b < recvNext + held ==> Buffered(buf, b))
            && !Buffered(buf, recvNext + held)
  {
    var chunks := Chunks(buf);
    var keys: seq<nat> := Sorted(buf.Keys);
    forall i | 0 <= i < |chunks|
      ensures chunks[i].lo >= recvNext
    {
      assert keys[i] in keys;
    }
    FromAll(chunks, recvNext);
    HeldIsMaximal(chunks, recvNext);
    forall b: nat
      ensures Buffered(buf, b) <==> Contains(chunks, b)
    {
      BufferedIsInChunks(buf, b);
    }
  }
}
