// Windowed maximum over three slots (crates/nya-core/src/bw.rs).
module MinMax {
  import opened Common

  const U64_MAX: nat := 0xFFFF_FFFF_FFFF_FFFF

  datatype Slot = Slot(v: nat, t: nat)

  datatype Slots = Slots(s0: Slot, s1: Slot, s2: Slot)

  const EMPTY: Slots := Slots(Slot(0, 0), Slot(0, 0), Slot(0, 0))

  function Get(s: Slots, now: nat, win: nat): nat {
    if s.s0.t == 0 || SatSub(now, s.s2.t) > win then 0 else s.s0.v
  }

  // Slides the window past slot 0, or refreshes slots that are still copies.
  function Expire(s: Slots, new_: Slot, win: nat): Slots {
    var dt := SatSub(new_.t, s.s0.t);
    if dt > win then
      var a := Slots(s.s1, s.s2, new_);
      if SatSub(new_.t, a.s0.t) > win then Slots(a.s1, a.s2, new_) else a
    else if s.s1.t == s.s0.t && dt > win / 4 then Slots(s.s0, new_, new_)
    else if s.s2.t == s.s1.t && dt > win / 2 then s.(s2 := new_)
    else s
  }

  function Insert(s: Slots, new_: Slot): Slots {
    if new_.v >= s.s1.v then s.(s1 := new_, s2 := new_)
    else if new_.v >= s.s2.v then s.(s2 := new_)
    else s
  }

  function Update(s: Slots, v: nat, t: nat, win: nat): Slots {
    var new_ := Slot(v, Max(t, 1));
    if s.s0.t == 0 || v >= s.s0.v || SatSub(new_.t, s.s2.t) > win then Slots(new_, new_, new_)
    else Expire(Insert(s, new_), new_, win)
  }

  class MinMax3 {
    var s0: Slot
    var s1: Slot
    var s2: Slot

    ghost function State(): Slots
      reads this
    {
      Slots(s0, s1, s2)
    }

    constructor ()
      ensures State() == EMPTY
    {
      s0, s1, s2 := Slot(0, 0), Slot(0, 0), Slot(0, 0);
    }

    method Read(now: nat, win: nat) returns (r: nat)
      ensures r == Get(State(), now, win)
    {
      if s0.t == 0 || SatSub(now, s2.t) > win {
        return 0;
      }
      return s0.v;
    }

    method Slide(new_: Slot, win: nat)
      modifies this
      ensures State() == Expire(old(State()), new_, win)
    {
      var dt := SatSub(new_.t, s0.t);
      if dt > win {
        s0, s1, s2 := s1, s2, new_;
        if SatSub(new_.t, s0.t) > win {
          s0, s1, s2 := s1, s2, new_;
        }
      } else if s1.t == s0.t && dt > win / 4 {
        s2 := new_;
        s1 := new_;
      } else if s2.t == s1.t && dt > win / 2 {
        s2 := new_;
      }
    }

    method Record(v: nat, t: nat, win: nat) returns (r: nat)
      modifies this
      ensures State() == Update(old(State()), v, t, win)
      ensures r == State().s0.v
    {
      var new_ := Slot(v, Max(t, 1));
      if s0.t == 0 || v >= s0.v || SatSub(new_.t, s2.t) > win {
        s0, s1, s2 := new_, new_, new_;
        return v;
      }
      if v >= s1.v {
        s1 := new_;
        s2 := new_;
      } else if v >= s2.v {
        s2 := new_;
      }
      Slide(new_, win);
      return s0.v;
    }
  }

  // The windowed minimum stores the complement of each value.
  class WindowedMin {
    const inner: MinMax3

    constructor ()
      ensures fresh(inner) && inner.State() == EMPTY
    {
      inner := new MinMax3();
    }

    method Record(v: nat, t: nat, win: nat) returns (r: int)
      requires v <= U64_MAX
      modifies inner
      ensures inner.State() == Update(old(inner.State()), U64_MAX - v, t, win)
      ensures r == U64_MAX - inner.State().s0.v
    {
      var m := inner.Record(U64_MAX - v, t, win);
      r := U64_MAX - m;
    }
  }

  // ---------------------------------------------- against the whole history

  // A history of samples, oldest first; times are at least 1 and never go back.
  predicate History(h: seq<Slot>) {
    && (forall i :: 0 <= i < |h| ==> h[i].t >= 1)
    && (forall i, j :: 0 <= i < j < |h| ==> h[i].t <= h[j].t)
  }

  // Sample `i` is at least as large as every sample after it.
  predicate BestSince(h: seq<Slot>, i: nat)
    requires i < |h|
  {
    forall j :: i <= j < |h| ==> h[j].v <= h[i].v
  }

  // Each slot is a real sample and the maximum of all samples since its own.
  ghost predicate At(h: seq<Slot>, s: Slots, i0: nat, i1: nat, i2: nat) {
    && i0 <= i1 <= i2 < |h|
    && s.s0 == h[i0] && s.s1 == h[i1] && s.s2 == h[i2]
    && BestSince(h, i0) && BestSince(h, i1) && BestSince(h, i2)
  }

  ghost predicate Tracks(h: seq<Slot>, s: Slots) {
    History(h) && if h == [] then s == EMPTY else exists i0: nat, i1: nat, i2: nat :: At(h, s, i0, i1, i2)
  }

  // The true maximum over the samples no older than `win` at time `now`.
  function WindowMax(h: seq<Slot>, now: nat, win: nat): nat {
    if h == [] then 0
    else
      var rest := WindowMax(h[..|h| - 1], now, win);
      if SatSub(now, h[|h| - 1].t) <= win then Max(h[|h| - 1].v, rest) else rest
  }

  lemma {:induction false} WindowMaxIsMax(h: seq<Slot>, now: nat, win: nat)
    ensures forall i :: 0 <= i < |h| && SatSub(now, h[i].t) <= win ==> h[i].v <= WindowMax(h, now, win)
    ensures WindowMax(h, now, win) == 0 ||
            exists i :: 0 <= i < |h| && SatSub(now, h[i].t) <= win && h[i].v == WindowMax(h, now, win)
  {
    if h != [] {
      var front := h[..|h| - 1];
      WindowMaxIsMax(front, now, win);
      if WindowMax(front, now, win) != 0 {
        var k :| 0 <= k < |front| && SatSub(now, front[k].t) <= win && front[k].v == WindowMax(front, now, win);
        assert h[k] == front[k];
      }
      forall i | 0 <= i < |h| && SatSub(now, h[i].t) <= win
        ensures h[i].v <= WindowMax(h, now, win)
      {
        if i < |front| {
          assert front[i] == h[i];
        }
      }
    }
  }

  lemma InsertKeepsIndices(h: seq<Slot>, s: Slots, j0: nat, j1: nat, j2: nat, new_: Slot)
      returns (i1: nat, i2: nat)
    requires At(h, s, j0, j1, j2) && new_.v < s.s0.v
    ensures At(h + [new_], Insert(s, new_), j0, i1, i2)
    ensures new_.t == Insert(s, new_).s2.t || Insert(s, new_).s2 == s.s2
  {
    i1 := if new_.v >= s.s1.v then |h| else j1;
    i2 := if new_.v >= s.s1.v || new_.v >= s.s2.v then |h| else j2;
  }

  lemma ExpireKeepsIndices(g: seq<Slot>, u: Slots, j0: nat, j1: nat, j2: nat, win: nat)
      returns (i0: nat, i1: nat, i2: nat)
    requires At(g, u, j0, j1, j2) && History(g) && g[|g| - 1].t - u.s2.t <= win
    ensures At(g, Expire(u, g[|g| - 1], win), i0, i1, i2)
    ensures g[|g| - 1].t - Expire(u, g[|g| - 1], win).s0.t <= win
  {
    var last := |g| - 1;
    var dt := SatSub(g[last].t, u.s0.t);
    if dt > win {
      if SatSub(g[last].t, u.s1.t) > win {
        return j2, last, last;
      }
      return j1, j2, last;
    } else if u.s1.t == u.s0.t && dt > win / 4 {
      return j0, last, last;
    } else if u.s2.t == u.s1.t && dt > win / 2 {
      return j0, j1, last;
    }
    return j0, j1, j2;
  }

  lemma SlideKeepsIndices(h: seq<Slot>, s: Slots, new_: Slot, win: nat) returns (i0: nat, i1: nat, i2: nat)
    requires h != [] && Tracks(h, s) && History(h + [new_])
    requires new_.v < s.s0.v && new_.t - s.s2.t <= win
    ensures At(h + [new_], Expire(Insert(s, new_), new_, win), i0, i1, i2)
    ensures new_.t - Expire(Insert(s, new_), new_, win).s0.t <= win
  {
    var j0: nat, j1: nat, j2: nat :| At(h, s, j0, j1, j2);
    var k1, k2 := InsertKeepsIndices(h, s, j0, j1, j2, new_);
    assert (h + [new_])[|h|] == new_;
    i0, i1, i2 := ExpireKeepsIndices(h + [new_], Insert(s, new_), j0, k1, k2, win);
  }

  lemma HistoryGrows(h: seq<Slot>, new_: Slot)
    requires History(h) && new_.t >= 1 && (h != [] ==> new_.t >= h[|h| - 1].t)
    ensures History(h + [new_])
  {
  }

  lemma UpdateKeepsIndices(h: seq<Slot>, s: Slots, v: nat, t: nat, win: nat) returns (i0: nat, i1: nat, i2: nat)
    requires Tracks(h, s) && (h != [] ==> Max(t, 1) >= h[|h| - 1].t)
    ensures History(h + [Slot(v, Max(t, 1))])
    ensures At(h + [Slot(v, Max(t, 1))], Update(s, v, t, win), i0, i1, i2)
    ensures Max(t, 1) - Update(s, v, t, win).s0.t <= win
  {
    var new_ := Slot(v, Max(t, 1));
    HistoryGrows(h, new_);
    if s.s0.t == 0 || v >= s.s0.v || SatSub(new_.t, s.s2.t) > win {
      return |h|, |h|, |h|;
    }
    i0, i1, i2 := SlideKeepsIndices(h, s, new_, win);
  }

  // Main result: after any update the filter reports exactly the maximum of all
  // samples since slot 0's, that sample is inside the window, and so the report
  // lies between the newest sample and the true windowed maximum.
  lemma UpdateBracketsWindowMax(h: seq<Slot>, s: Slots, v: nat, t: nat, win: nat)
    requires Tracks(h, s) && (h != [] ==> Max(t, 1) >= h[|h| - 1].t)
    ensures var now := Max(t, 1);
            var g := h + [Slot(v, now)];
            var r := Update(s, v, t, win).s0.v;
            && Tracks(g, Update(s, v, t, win))
            && v <= r <= WindowMax(g, now, win)
            && exists i :: 0 <= i < |g| && g[i] == Update(s, v, t, win).s0 && now - g[i].t <= win && BestSince(g, i)
  {
    var now := Max(t, 1);
    var g := h + [Slot(v, now)];
    var i0, i1, i2 := UpdateKeepsIndices(h, s, v, t, win);
    WindowMaxIsMax(g, now, win);
    assert g[i0] == Update(s, v, t, win).s0 && now - g[i0].t <= win && BestSince(g, i0);
    assert g[|h|].v == v;
  }

  // An adopted maximum is reported until it ages out of the window.
  lemma MaximumKeptUntilItAgesOut(h: seq<Slot>, s: Slots, v: nat, t: nat, win: nat)
    requires Tracks(h, s) && h != [] && Max(t, 1) >= h[|h| - 1].t
    requires Max(t, 1) - s.s0.t <= win
    ensures Update(s, v, t, win).s0.v == Max(s.s0.v, v)
  {
    var i0: nat, i1: nat, i2: nat :| At(h, s, i0, i1, i2);
  }

  lemma {:induction false} WindowMaxShrinks(h: seq<Slot>, now: nat, later: nat, win: nat)
    requires now <= later
    ensures WindowMax(h, later, win) <= WindowMax(h, now, win)
  {
    if h != [] {
      WindowMaxShrinks(h[..|h| - 1], now, later, win);
    }
  }

  // The report stays the exact windowed maximum as long as slot 0 has not aged
  // out; only the promotion of a younger slot can lose exactness.
  lemma ExactUnlessPromoted(h: seq<Slot>, s: Slots, v: nat, t: nat, win: nat)
    requires Tracks(h, s) && h != [] && Max(t, 1) >= h[|h| - 1].t
    requires s.s0.v == WindowMax(h, h[|h| - 1].t, win)
    requires Max(t, 1) - s.s0.t <= win || v >= s.s0.v
    ensures var now := Max(t, 1);
            Update(s, v, t, win).s0.v == WindowMax(h + [Slot(v, now)], now, win)
  {
    var now := Max(t, 1);
    var g := h + [Slot(v, now)];
    assert g[..|g| - 1] == h;
    WindowMaxShrinks(h, h[|h| - 1].t, now, win);
    if v < s.s0.v {
      MaximumKeptUntilItAgesOut(h, s, v, t, win);
      UpdateBracketsWindowMax(h, s, v, t, win);
    }
  }

  // Exactly when a report is the true windowed maximum: no sample older than
  // slot 0's own is both still in the window and larger.
  lemma ExactIff(h: seq<Slot>, s: Slots, i0: nat, i1: nat, i2: nat, now: nat, win: nat)
    requires History(h) && At(h, s, i0, i1, i2) && now == h[|h| - 1].t && now - s.s0.t <= win
    ensures s.s0.v == WindowMax(h, now, win) <==>
            forall j :: 0 <= j < i0 && now - h[j].t <= win ==> h[j].v <= s.s0.v
  {
    WindowMaxIsMax(h, now, win);
    assert h[i0] == s.s0;
    if s.s0.v != WindowMax(h, now, win) {
      var k :| 0 <= k < |h| && SatSub(now, h[k].t) <= win && h[k].v == WindowMax(h, now, win);
      assert k < i0;
    }
  }

  // The filter is not the exact windowed maximum: a sample of 50 that is only
  // one tick from leaving the window is forgotten behind an expired 100.
  lemma NotTheExactMaximum()
    ensures var s := Update(Update(Update(Update(EMPTY, 100, 1, 100), 50, 2, 100), 1, 40, 100), 1, 102, 100);
            var h := [Slot(100, 1), Slot(50, 2), Slot(1, 40), Slot(1, 102)];
            s.s0.v == 1 && WindowMax(h, 102, 100) == 50
  {
    var h := [Slot(100, 1), Slot(50, 2), Slot(1, 40), Slot(1, 102)];
    assert h[..3] == [Slot(100, 1), Slot(50, 2), Slot(1, 40)];
    assert h[..3][..2] == [Slot(100, 1), Slot(50, 2)];
    assert h[..3][..2][..1] == [Slot(100, 1)];
    assert WindowMax([Slot(100, 1)], 102, 100) == 0;
    assert WindowMax(h[..3][..2], 102, 100) == 50;
    assert WindowMax(h[..3], 102, 100) == 50;
  }

  // "Slot 2 always holds the newest sample" is not an invariant: a low sample
  // may change no slot, and `get` then reads 0 although that sample is fresh.
  lemma SlotTwoMayMissTheNewest()
    ensures var s := Update(Update(EMPTY, 100, 1, 100), 1, 20, 100);
            s.s2 == Slot(100, 1) && Get(s, 102, 100) == 0 && WindowMax([Slot(100, 1), Slot(1, 20)], 102, 100) == 1
  {
    var h := [Slot(100, 1), Slot(1, 20)];
    assert h[..1] == [Slot(100, 1)];
  }

  // Where the newest sample, and the older ones, stand after an update: in all
  // slots when it is the largest or everything has aged out. While slot 0 is in
  // the window it stays, and the newest takes slot 1 when it is no smaller, or
  // when slot 1 is still a copy of slot 0 after a quarter of the window. Once
  // slot 0 has aged out the others move up, the best that is in the window first.
  lemma SlotsAfterUpdate(h: seq<Slot>, s: Slots, v: nat, t: nat, win: nat)
    requires Tracks(h, s) && h != [] && Max(t, 1) >= h[|h| - 1].t
    ensures var now := Max(t, 1);
            var new_ := Slot(v, now);
            var u := Update(s, v, t, win);
            var second := if v >= s.s1.v then new_ else s.s1;
            var third := if v >= s.s2.v then new_ else s.s2;
            if v >= s.s0.v || now - s.s2.t > win then u == Slots(new_, new_, new_)
            else if now - s.s0.t <= win then
              && u.s0 == s.s0
              && u.s1 == (if second.t == s.s0.t && now - s.s0.t > win / 4 then new_ else second)
              && u.s2 == if Refreshes(s, v, now, win) then new_ else s.s2
            else if now - second.t <= win then u == Slots(second, third, new_)
            else u == Slots(third, new_, new_)
  {
    var i0: nat, i1: nat, i2: nat :| At(h, s, i0, i1, i2);
    assert h[i0].v >= h[i1].v >= h[i2].v;
    assert 1 <= h[i0].t <= h[i1].t <= h[i2].t <= h[|h| - 1].t;
  }

  // When an update puts its sample into slot 2: it is no smaller than that slot,
  // slot 0 has aged out, or a slot that is still a copy is refreshed.
  predicate Refreshes(s: Slots, v: nat, now: nat, win: nat) {
    || v >= s.s2.v
    || SatSub(now, s.s0.t) > win
    || (s.s1.t == s.s0.t && SatSub(now, s.s0.t) > win / 4)
    || (s.s2.t == s.s1.t && SatSub(now, s.s0.t) > win / 2)
  }

  // Exactly when slot 2 holds the newest sample after an update; otherwise it
  // stays what it was.
  lemma SlotTwoIsNewestIff(h: seq<Slot>, s: Slots, v: nat, t: nat, win: nat)
    requires Tracks(h, s) && h != [] && Max(t, 1) >= h[|h| - 1].t
    ensures Update(s, v, t, win).s2 == Slot(v, Max(t, 1)) <==> Refreshes(s, v, Max(t, 1), win)
    ensures !Refreshes(s, v, Max(t, 1), win) ==> Update(s, v, t, win).s2 == s.s2
  {
    var i0: nat, i1: nat, i2: nat :| At(h, s, i0, i1, i2);
    assert h[i0].v >= h[i1].v >= h[i2].v;
    assert h[i0].t <= h[i1].t <= h[i2].t <= h[|h| - 1].t;
  }

  // Exactly when `get` reads 0 although the newest sample is in the window: the
  // maximum is 0 itself, or the update left slot 2 alone and its old sample has
  // aged out since.
  lemma GetReadsZeroIff(h: seq<Slot>, s: Slots, v: nat, t: nat, win: nat, later: nat)
    requires Tracks(h, s) && h != [] && Max(t, 1) >= h[|h| - 1].t
    requires Max(t, 1) <= later <= Max(t, 1) + win
    ensures Get(Update(s, v, t, win), later, win) == 0 <==>
            || Update(s, v, t, win).s0.v == 0
            || (!Refreshes(s, v, Max(t, 1), win) && SatSub(later, s.s2.t) > win)
  {
    var i0, i1, i2 := UpdateKeepsIndices(h, s, v, t, win);
    assert (h + [Slot(v, Max(t, 1))])[i0].t >= 1;
    SlotTwoIsNewestIff(h, s, v, t, win);
  }

  // `get` never reports a value once every sample has left the window, and what
  // it does report is the maximum since a real sample.
  lemma GetIsZeroWhenAllStale(h: seq<Slot>, s: Slots, now: nat, win: nat)
    requires Tracks(h, s)
    requires forall i :: 0 <= i < |h| ==> SatSub(now, h[i].t) > win
    ensures Get(s, now, win) == 0
  {
    if h != [] {
      var i0: nat, i1: nat, i2: nat :| At(h, s, i0, i1, i2);
      assert h[i2] == s.s2;
    }
  }

  lemma HeadSince(h: seq<Slot>, s: Slots, v: nat, t: nat, win: nat) returns (i: nat)
    requires Tracks(h, s) && (h != [] ==> Max(t, 1) >= h[|h| - 1].t)
    ensures var g := h + [Slot(v, Max(t, 1))];
            i < |g| && Max(t, 1) - g[i].t <= win && g[i] == Update(s, v, t, win).s0 && BestSince(g, i) && g[i].v >= v
  {
    var g := h + [Slot(v, Max(t, 1))];
    var i0, _, _ := UpdateKeepsIndices(h, s, v, t, win);
    assert g[|h|].v == v && g[|h|].v <= g[i0].v;
    return i0;
  }

  // The dual: a windowed minimum is at most the newest sample, is a sample still
  // in the window, and is at most every sample since that one.
  lemma MinimumIsBracketed(h: seq<Slot>, s: Slots, v: nat, t: nat, win: nat) returns (i: nat)
    requires Tracks(h, s) && (h != [] ==> Max(t, 1) >= h[|h| - 1].t)
    requires v <= U64_MAX
    ensures var now := Max(t, 1);
            var g := h + [Slot(U64_MAX - v, now)];
            var r := U64_MAX - Update(s, U64_MAX - v, t, win).s0.v;
            && r <= v && i < |g| && now - g[i].t <= win && r == U64_MAX - g[i].v
            && forall j :: i <= j < |g| ==> r <= U64_MAX - g[j].v
  {
    i := HeadSince(h, s, U64_MAX - v, t, win);
  }
}
