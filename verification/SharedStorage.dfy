// The hands as the dealer really hands them out: all of them, and the rest of the deck, are slices of
// one array, and each slice may grow into what lies behind it. Drawing appends in place, so it can
// overwrite the first tile of the next hand. This module says exactly when tiles are lost.
module SharedStorage {
  import opened Tiles
  import opened Game
  import opened GameProofs
  import opened Decks

  datatype Slice = Slice(from: nat, len: nat) {
    function End(): nat {
      from + len
    }
  }

  // The array, the hands' slices of it, and where the rest of the deck begins.
  datatype Dealt = Dealt(store: seq<Tile>, hands: seq<Slice>, deck: nat)

  // Every slice ends before the rest of the deck.
  predicate Placed(s: Dealt) {
    s.deck <= |s.store| && forall i :: 0 <= i < |s.hands| ==> s.hands[i].End() <= s.deck
  }

  predicate Holds(h: Slice, p: nat) {
    h.from <= p < h.End()
  }

  // No place of the array belongs to two hands.
  ghost predicate Separate(s: Dealt) {
    Placed(s) && forall i, j, p ::
      0 <= i < |s.hands| && 0 <= j < |s.hands| && Holds(s.hands[i], p) && Holds(s.hands[j], p) ==> i == j
  }

  function HandAt(s: Dealt, i: nat): seq<Tile>
    requires Placed(s) && i < |s.hands|
  {
    s.store[s.hands[i].from..s.hands[i].End()]
  }

  // ---------- Sorting a slice in the middle of an array ----------

  function SortedWithin(store: seq<Tile>, from: nat, to: nat): (r: seq<Tile>)
    requires from <= to <= |store|
  {
    store[..from] + Sort(store[from..to]) + store[to..]
  }

  method SortSlice(a: array<Tile>, from: nat, to: nat)
    requires from <= to <= a.Length
    modifies a
    ensures a[..] == SortedWithin(old(a[..]), from, to)
  {
    var b := FromSeq(a[from..to]);
    assert b[..to - from] == a[from..to];
    SortProperties(a[from..to]);
    SortTiles(b, to - from);
    assert b[..to - from] == b[..];
    CopyInto(a, from, b);
  }

  // The slice's elements are replaced by those of b.
  method CopyInto(a: array<Tile>, from: nat, b: array<Tile>)
    requires a != b && from + b.Length <= a.Length
    modifies a
    ensures a[..] == old(a[..from]) + b[..] + old(a[from + b.Length..])
  {
    for i := 0 to b.Length
      invariant forall k :: 0 <= k < i ==> a[from + k] == b[k]
      invariant forall k :: 0 <= k < a.Length && !(from <= k < from + i) ==> a[k] == old(a[k])
    {
      a[from + i] := b[i];
    }
    Assembled(old(a[..]), a[..], from, from + b.Length, b[..]);
  }

  lemma Assembled(before: seq<Tile>, after: seq<Tile>, from: nat, to: nat, mid: seq<Tile>)
    requires |before| == |after| && from <= to <= |before| && |mid| == to - from
    requires forall k :: 0 <= k < |mid| ==> after[from + k] == mid[k]
    requires forall k :: 0 <= k < |after| && !(from <= k < to) ==> after[k] == before[k]
    ensures after == before[..from] + mid + before[to..]
  {
    forall p | from <= p < to
      ensures after[p] == mid[p - from]
    {
      assert after[from + (p - from)] == mid[p - from];
    }
  }

  // ---------- Giving a hand new tiles in place ----------

  // The hand gets the tiles from its first place on, and the rest of the deck begins at deck.
  function WithHand(s: Dealt, i: nat, tiles: seq<Tile>, deck: nat): (r: Dealt)
    requires Placed(s) && i < |s.hands| && s.deck <= deck <= |s.store| && s.hands[i].from + |tiles| <= deck
    ensures Placed(r)
  {
    var from := s.hands[i].from;
    Dealt(s.store[..from] + tiles + s.store[from + |tiles|..], s.hands[i := Slice(from, |tiles|)], deck)
  }

  // Only the places of the tiles change.
  lemma WithHandAt(s: Dealt, i: nat, tiles: seq<Tile>, deck: nat)
    requires Placed(s) && i < |s.hands| && s.deck <= deck <= |s.store| && s.hands[i].from + |tiles| <= deck
    ensures var r, from := WithHand(s, i, tiles, deck), s.hands[i].from;
      && |r.store| == |s.store| && HandAt(r, i) == tiles && r.store[deck..] == s.store[deck..]
      && forall p :: 0 <= p < |s.store| && !(from <= p < from + |tiles|) ==> r.store[p] == s.store[p]
  {
  }

  // No other hand owns one of the first n places from the start of hand i on.
  ghost predicate Clear(s: Dealt, i: nat, n: nat)
    requires i < |s.hands|
  {
    forall j, p :: 0 <= j < |s.hands| && j != i && s.hands[i].from <= p < s.hands[i].from + n ==> !Holds(s.hands[j], p)
  }

  // The other hands keep their tiles, and the hands stay separate.
  ghost predicate OthersKept(s: Dealt, r: Dealt, i: nat) {
    Separate(s) && Separate(r) && |r.hands| == |s.hands| &&
    forall j :: 0 <= j < |s.hands| && j != i ==> HandAt(r, j) == HandAt(s, j)
  }

  lemma ClearKeepsOthers(s: Dealt, i: nat, tiles: seq<Tile>, deck: nat)
    requires Separate(s) && i < |s.hands| && s.deck <= deck <= |s.store| && s.hands[i].from + |tiles| <= deck
    requires Clear(s, i, |tiles|)
    ensures OthersKept(s, WithHand(s, i, tiles, deck), i)
  {
    WithHandAt(s, i, tiles, deck);
    var r := WithHand(s, i, tiles, deck);
    hide WithHand;
    forall j | 0 <= j < |s.hands| && j != i
      ensures HandAt(r, j) == HandAt(s, j)
    {
      SamePlaces(s, r, i, j, |tiles|);
    }
    forall j, l, p | 0 <= j < |s.hands| && 0 <= l < |s.hands| && Holds(r.hands[j], p) && Holds(r.hands[l], p)
      ensures j == l
    {
      assert j != i ==> Holds(s.hands[j], p);
      assert l != i ==> Holds(s.hands[l], p);
    }
  }

  // A hand's own places are clear, and with room behind it one more.
  lemma ClearWithin(s: Dealt, i: nat, n: nat)
    requires Separate(s) && i < |s.hands|
    requires n <= s.hands[i].len || (n == s.hands[i].len + 1 && HasRoom(s, i))
    ensures Clear(s, i, n)
  {
    var h := s.hands[i];
    forall j, p | 0 <= j < |s.hands| && j != i && h.from <= p < h.from + n
      ensures !Holds(s.hands[j], p)
    {
      if p < h.End() {
        assert Holds(h, p);
      } else {
        assert !Overruns(s, i, j);
      }
    }
  }

  lemma SamePlaces(s: Dealt, r: Dealt, i: nat, j: nat, n: nat)
    requires Placed(s) && Placed(r) && i < |s.hands| && j < |s.hands| && i != j && Clear(s, i, n)
    requires |r.hands| == |s.hands| && r.hands[j] == s.hands[j] && |r.store| == |s.store|
    requires var from := s.hands[i].from;
      forall p :: 0 <= p < |s.store| && !(from <= p < from + n) ==> r.store[p] == s.store[p]
    ensures HandAt(r, j) == HandAt(s, j)
  {
    forall p | s.hands[j].from <= p < s.hands[j].End()
      ensures r.store[p] == s.store[p]
    {
      assert Holds(s.hands[j], p);
    }
  }

  // ---------- Drawing ----------

  // executeDraw on slices: the first tile of the deck is appended in place and the hand is sorted.
  function DrawInPlace(s: Dealt, i: nat): (r: Dealt)
    requires Placed(s) && i < |s.hands| && s.deck < |s.store|
    ensures Placed(r)
  {
    var h := s.hands[i];
    var written := s.store[h.End() := s.store[s.deck]];
    SortProperties(written[h.from..h.End() + 1]);
    Dealt(SortedWithin(written, h.from, h.End() + 1), s.hands[i := Slice(h.from, h.len + 1)], s.deck + 1)
  }

  // RemoveTile on a slice: the hand's later tiles move up in place. The place that the slice gives up
  // keeps its tile, which is no longer anybody's.
  function RemoveInPlace(s: Dealt, i: nat, t: Tile): (r: Dealt)
    requires Placed(s) && i < |s.hands|
    ensures Placed(r)
  {
    RemoveOneProperties(HandAt(s, i), t);
    WithHand(s, i, RemoveOne(HandAt(s, i), t), s.deck)
  }

  // SortTiles on the hand.
  function SortInPlace(s: Dealt, i: nat): (r: Dealt)
    requires Placed(s) && i < |s.hands|
    ensures Placed(r) && r.hands == s.hands
  {
    SortProperties(HandAt(s, i));
    s.(store := SortedWithin(s.store, s.hands[i].from, s.hands[i].End()))
  }

  function SortHands(s: Dealt, n: nat): (r: Dealt)
    requires Placed(s) && n <= |s.hands|
    ensures Placed(r) && r.hands == s.hands
  {
    if n == 0 then s else SortInPlace(SortHands(s, n - 1), n - 1)
  }

  class SharedTable {
    const store: array<Tile>
    var hands: seq<Slice>
    var deck: nat

    function View(): Dealt
      reads this, store
    {
      Dealt(store[..], hands, deck)
    }

    // Deal: thirteen tiles each, one more to seat 0, out of the one array.
    constructor (tiles: array<Tile>, players: nat)
      requires DealtFrom(players) <= tiles.Length
      ensures store == tiles && View() == Deal(tiles[..], players)
    {
      store := tiles;
      var index := 0;
      var dealt := [];
      for i := 0 to players
        invariant index == DealtFrom(i) && dealt == Deal(tiles[..], i).hands
      {
        dealt := dealt + [Slice(index, HandSize(i))];
        index := index + HandSize(i);
      }
      hands := dealt;
      deck := index;
    }

    method Draw(i: nat)
      requires Placed(View()) && i < |hands| && deck < store.Length
      modifies this, store
      ensures View() == DrawInPlace(old(View()), i)
    {
      var tile := store[deck];
      deck := deck + 1;
      var h := hands[i];
      store[h.End()] := tile;
      hands := hands[i := Slice(h.from, h.len + 1)];
      SortSlice(store, h.from, h.End() + 1);
    }

    // RemoveTile and the assignment of the shorter slice to the hand.
    method Remove(i: nat, t: Tile)
      requires Placed(View()) && i < |hands|
      modifies this, store
      ensures View() == RemoveInPlace(old(View()), i, t)
    {
      var h := hands[i];
      ghost var before := View();
      var p := PlaceOf(h.from, h.End(), t);
      hide RemoveOne, RemoveInPlace, Placed, MovedUp;
      if p == h.End() {
        NothingToRemove(before, i, t);
        return;
      }
      RemovedAt(before, i, t, p);
      hands := hands[i := Slice(h.from, h.len - 1)];
      assert store[..] == before.store;
      MoveUp(store, p, h.End());
    }

    // The first place of t between from and to, or to.
    method PlaceOf(from: nat, to: nat, t: Tile) returns (p: nat)
      requires from <= to <= store.Length
      ensures from <= p <= to && t !in store[..][from..p] && (p < to ==> store[..][p] == t)
    {
      p := from;
      while p < to && store[p] != t
        invariant from <= p <= to && t !in store[..][from..p]
      {
        p := p + 1;
      }
    }

    // Every hand is sorted after the deal.
    method SortAll()
      requires Placed(View())
      modifies store
      ensures View() == SortHands(old(View()), |hands|)
    {
      for i := 0 to |hands|
        invariant View() == SortHands(old(View()), i)
      {
        SortSlice(store, hands[i].from, hands[i].End());
      }
    }
  }

  // The place of the first t is where the later tiles of the hand close up.
  lemma RemovedAt(s: Dealt, i: nat, t: Tile, p: nat)
    requires Placed(s) && i < |s.hands| && s.hands[i].from <= p < s.hands[i].End()
    requires s.store[p] == t && t !in s.store[s.hands[i].from..p]
    ensures var h := s.hands[i];
      RemoveInPlace(s, i, t) ==
        Dealt(MovedUp(s.store, p, h.End()), s.hands[i := Slice(h.from, h.len - 1)], s.deck)
  {
    var h := s.hands[i];
    assert h.End() <= |s.store|;
    hide RemoveOne, Placed, MovedUp;
    ClosesUp(s.store, h.from, p, h.End(), t);
    Rejoin(s.store, h.from, p, h.End(), RemoveOne(HandAt(s, i), t));
  }

  lemma ClosesUp(store: seq<Tile>, from: nat, p: nat, to: nat, t: Tile)
    requires from <= p < to <= |store| && store[p] == t && t !in store[from..p]
    ensures RemoveOne(store[from..to], t) == store[from..p] + store[p + 1..to]
  {
    var hand := store[from..to];
    assert hand[..p - from] == store[from..p] && hand[p - from + 1..] == store[p + 1..to];
    hide RemoveOne;
    RemoveOneAt(hand, t, p - from);
  }

  lemma Rejoin(store: seq<Tile>, from: nat, p: nat, to: nat, left: seq<Tile>)
    requires from <= p < to <= |store| && left == store[from..p] + store[p + 1..to]
    ensures |left| == to - from - 1 && store[..from] + left + store[to - 1..] == MovedUp(store, p, to)
  {
    assert store[..from] + store[from..p] == store[..p];
    assert store[..from] + left == store[..from] + store[from..p] + store[p + 1..to];
  }

  lemma NothingToRemove(s: Dealt, i: nat, t: Tile)
    requires Placed(s) && i < |s.hands| && t !in s.store[s.hands[i].from..s.hands[i].End()]
    ensures RemoveInPlace(s, i, t) == s
  {
    var h, hand := s.hands[i], HandAt(s, i);
    RemoveOneAbsent(hand, t);
    hide RemoveOne;
    assert s.store[..h.from] + hand + s.store[h.End()..] == s.store;
  }

  // ---------- Counting ----------

  ghost function Sum(xs: seq<nat>): nat {
    if xs == [] then 0 else Sum(xs[..|xs| - 1]) + xs[|xs| - 1]
  }

  lemma {:induction false} SumUpdate(xs: seq<nat>, i: nat, x: nat)
    requires i < |xs|
    ensures Sum(xs[i := x]) == Sum(xs) - xs[i] + x
  {
    var n := |xs| - 1;
    if i < n {
      SumUpdate(xs[..n], i, x);
      assert xs[i := x][..n] == xs[..n][i := x];
    } else {
      assert xs[i := x][..n] == xs[..n];
    }
  }

  ghost function HandCounts(s: Dealt, k: Tile): (r: seq<nat>)
    requires Placed(s)
    ensures |r| == |s.hands|
  {
    seq(|s.hands|, i requires 0 <= i < |s.hands| => CountIn(HandAt(s, i), k))
  }

  // The copies of k in the hands and in the rest of the deck.
  ghost function Copies(s: Dealt, k: Tile): nat
    requires Placed(s)
  {
    Sum(HandCounts(s, k)) + CountIn(s.store[s.deck..], k)
  }

  // ---------- When a draw loses a tile ----------

  // Another hand owns the place right behind hand i.
  ghost predicate Overruns(s: Dealt, i: nat, j: nat) {
    i < |s.hands| && j < |s.hands| && j != i && Holds(s.hands[j], s.hands[i].End())
  }

  ghost predicate HasRoom(s: Dealt, i: nat) {
    forall j :: !Overruns(s, i, j)
  }

  // The largest tile of the hand after the draw; sorting leaves it in the last place.
  function Largest(s: Dealt, i: nat): Tile
    requires Placed(s) && i < |s.hands| && s.deck < |s.store|
  {
    SortProperties(HandAt(s, i) + [s.store[s.deck]]);
    Sort(HandAt(s, i) + [s.store[s.deck]])[s.hands[i].len]
  }

  // Drawing is giving the hand its sorted tiles, one more than it had.
  lemma DrawIsWithHand(s: Dealt, i: nat)
    requires Placed(s) && i < |s.hands| && s.deck < |s.store|
    ensures var drawn := Sort(HandAt(s, i) + [s.store[s.deck]]);
      && |drawn| == s.hands[i].len + 1 && s.hands[i].from + |drawn| <= s.deck + 1
      && DrawInPlace(s, i) == WithHand(s, i, drawn, s.deck + 1)
  {
    SortProperties(HandAt(s, i) + [s.store[s.deck]]);
    hide Sort;
    var h := s.hands[i];
    var written := s.store[h.End() := s.store[s.deck]];
    assert written[h.from..h.End() + 1] == HandAt(s, i) + [s.store[s.deck]];
    assert written[..h.from] == s.store[..h.from] && written[h.End() + 1..] == s.store[h.End() + 1..];
  }

  // What the draw leaves: the hand's tiles, and all places behind it and before it.
  lemma DrawAt(s: Dealt, i: nat)
    requires Placed(s) && i < |s.hands| && s.deck < |s.store|
    ensures var r, h := DrawInPlace(s, i), s.hands[i];
      && |r.store| == |s.store| && r.deck == s.deck + 1 && r.hands == s.hands[i := Slice(h.from, h.len + 1)]
      && HandAt(r, i) == Sort(HandAt(s, i) + [s.store[s.deck]])
      && r.store[s.deck + 1..] == s.store[s.deck + 1..]
      && forall p :: 0 <= p < |s.store| && !(h.from <= p <= h.End()) ==> r.store[p] == s.store[p]
  {
    DrawIsWithHand(s, i);
    var drawn := Sort(HandAt(s, i) + [s.store[s.deck]]);
    hide DrawInPlace, Sort;
    WithHandAt(s, i, drawn, s.deck + 1);
  }

  // With room behind the hand the other hands are as they were and stay separate.
  lemma DrawKeepsOthers(s: Dealt, i: nat)
    requires Separate(s) && i < |s.hands| && s.deck < |s.store| && HasRoom(s, i)
    ensures var r := DrawInPlace(s, i);
      OthersKept(s, r, i) && HandAt(r, i) == Sort(HandAt(s, i) + [s.store[s.deck]]) &&
      r.deck == s.deck + 1 && r.store[r.deck..] == s.store[s.deck + 1..]
  {
    assert Placed(s);
    var drawn := Sort(HandAt(s, i) + [s.store[s.deck]]);
    hide DrawInPlace, Sort, Clear, HasRoom, Separate, Placed, WithHand, OthersKept, HandAt;
    DrawIsWithHand(s, i);
    DrawAt(s, i);
    ClearWithin(s, i, |drawn|);
    ClearKeepsOthers(s, i, drawn, s.deck + 1);
  }

  lemma RemoveKeepsOthers(s: Dealt, i: nat, t: Tile)
    requires Separate(s) && i < |s.hands|
    ensures var r := RemoveInPlace(s, i, t);
      OthersKept(s, r, i) && HandAt(r, i) == RemoveOne(HandAt(s, i), t) &&
      r.deck == s.deck && r.store[r.deck..] == s.store[s.deck..]
  {
    var left := RemoveOne(HandAt(s, i), t);
    RemoveOneProperties(HandAt(s, i), t);
    ClearWithin(s, i, |left|);
    hide RemoveOne, Clear;
    WithHandAt(s, i, left, s.deck);
    ClearKeepsOthers(s, i, left, s.deck);
  }

  lemma SortKeepsOthers(s: Dealt, i: nat)
    requires Separate(s) && i < |s.hands|
    ensures var r := SortInPlace(s, i);
      OthersKept(s, r, i) && HandAt(r, i) == Sort(HandAt(s, i)) &&
      r.deck == s.deck && r.store[r.deck..] == s.store[s.deck..]
  {
    var sorted := Sort(HandAt(s, i));
    SortProperties(HandAt(s, i));
    assert SortInPlace(s, i) == WithHand(s, i, sorted, s.deck);
    ClearWithin(s, i, |sorted|);
    hide Sort, SortInPlace, Clear;
    WithHandAt(s, i, sorted, s.deck);
    ClearKeepsOthers(s, i, sorted, s.deck);
  }

  // A hand that gives up a tile has room again.
  lemma RemoveMakesRoom(s: Dealt, i: nat, t: Tile)
    requires Separate(s) && i < |s.hands| && t in HandAt(s, i)
    ensures HasRoom(RemoveInPlace(s, i, t), i)
  {
    RemoveOneProperties(HandAt(s, i), t);
    var r, h := RemoveInPlace(s, i, t), s.hands[i];
    assert r.hands[i].End() == h.End() - 1;
    assert Holds(h, h.End() - 1);
  }

  // ---------- Counting what a draw loses ----------

  lemma DrawnHandCount(s: Dealt, i: nat, k: Tile)
    requires Placed(s) && i < |s.hands| && s.deck < |s.store|
    ensures CountIn(HandAt(DrawInPlace(s, i), i), k) == CountIn(HandAt(s, i), k) + if s.store[s.deck] == k then 1 else 0
  {
    var drawn := HandAt(s, i) + [s.store[s.deck]];
    hide DrawInPlace, Sort;
    DrawAt(s, i);
    CountSort(drawn, k);
    CountAppend(HandAt(s, i), [s.store[s.deck]], k);
    CountOne(s.store[s.deck], k);
  }

  // A hand that does not own the overwritten place is unchanged; one that does swaps its tile there
  // for the largest tile of the drawing hand.
  lemma OtherHandAfter(s: Dealt, i: nat, j: nat)
    requires Separate(s) && i < |s.hands| && j < |s.hands| && i != j && s.deck < |s.store|
    ensures var e, before := s.hands[i].End(), HandAt(s, j);
      HandAt(DrawInPlace(s, i), j) ==
        if Overruns(s, i, j) then before[e - s.hands[j].from := Largest(s, i)] else before
  {
    hide DrawInPlace, Sort;
    DrawAt(s, i);
    var r, e, h := DrawInPlace(s, i), s.hands[i].End(), s.hands[j];
    assert r.store[e] == HandAt(r, i)[s.hands[i].len] == Largest(s, i);
    assert h.End() <= |s.store| == |r.store| && e < |r.store| && r.hands[j] == h;
    hide Largest;
    forall p | h.from <= p < h.End() && p != e
      ensures r.store[p] == s.store[p]
    {
      assert Holds(h, p);
      assert !Holds(s.hands[i], p);
    }
    hide Separate;
    assert Overruns(s, i, j) == Holds(h, e);
    SwappedAt(s.store, r.store, h.from, h.End(), e);
  }

  lemma SwappedAt(before: seq<Tile>, after: seq<Tile>, from: nat, to: nat, e: nat)
    requires from <= to <= |before| == |after| && e < |after|
    requires forall p :: from <= p < to && p != e ==> after[p] == before[p]
    ensures after[from..to] == if from <= e < to then before[from..to][e - from := after[e]] else before[from..to]
  {
  }

  lemma OtherHandCount(s: Dealt, i: nat, j: nat, k: Tile)
    requires Separate(s) && i < |s.hands| && j < |s.hands| && i != j && s.deck < |s.store|
    ensures var e := s.hands[i].End();
      CountIn(HandAt(DrawInPlace(s, i), j), k) == CountIn(HandAt(s, j), k) +
        if Overruns(s, i, j) then (if Largest(s, i) == k then 1 else 0) - (if s.store[e] == k then 1 else 0) else 0
  {
    OtherHandAfter(s, i, j);
    hide DrawInPlace, Separate, Largest, CountIn;
    if Overruns(s, i, j) {
      var before, p := HandAt(s, j), s.hands[i].End() - s.hands[j].from;
      assert p < |before| && before[p] == s.store[s.hands[i].End()];
      hide HandAt, Placed, Holds;
      CountReplace(before, p, Largest(s, i), k);
    }
  }

  lemma CountReplace(s: seq<Tile>, p: nat, x: Tile, k: Tile)
    requires p < |s|
    ensures CountIn(s[p := x], k) == CountIn(s, k) - (if s[p] == k then 1 else 0) + (if x == k then 1 else 0)
  {
  }

  lemma RestCount(s: Dealt, i: nat, k: Tile)
    requires Placed(s) && i < |s.hands| && s.deck < |s.store|
    ensures CountIn(DrawInPlace(s, i).store[s.deck + 1..], k) ==
      CountIn(s.store[s.deck..], k) - if s.store[s.deck] == k then 1 else 0
  {
    hide DrawInPlace, Sort, HandAt, CountIn;
    DrawAt(s, i);
    TailCount(s.store, s.deck, k);
  }

  lemma TailCount(store: seq<Tile>, from: nat, k: Tile)
    requires from < |store|
    ensures CountIn(store[from + 1..], k) == CountIn(store[from..], k) - if store[from] == k then 1 else 0
  {
    assert store[from + 1..] == store[from..][1..];
    hide CountIn;
    CountHeadTail(store[from..], k);
  }

  // At most one hand owns the place behind hand i.
  lemma OneOverrun(s: Dealt, i: nat, j: nat, l: nat)
    requires Separate(s)
    ensures Overruns(s, i, j) && Overruns(s, i, l) ==> j == l
  {
  }

  lemma CountsUpdated(s: Dealt, r: Dealt, i: nat, j: nat, k: Tile)
    requires Placed(s) && Placed(r) && i < |s.hands| == |r.hands| && j < |s.hands|
    requires forall l :: 0 <= l < |s.hands| && l != i && l != j ==> CountIn(HandAt(r, l), k) == CountIn(HandAt(s, l), k)
    ensures Sum(HandCounts(r, k)) == Sum(HandCounts(s, k)) + CountIn(HandAt(r, i), k) - CountIn(HandAt(s, i), k) +
      if i == j then 0 else CountIn(HandAt(r, j), k) - CountIn(HandAt(s, j), k)
  {
    var before, after := HandCounts(s, k), HandCounts(r, k);
    var mid := before[i := after[i]];
    SumUpdate(before, i, after[i]);
    hide Sum;
    if i == j {
      assert after == mid;
    } else {
      assert after == mid[j := after[j]];
      SumUpdate(mid, j, after[j]);
    }
  }

  // With room behind the hand the draw conserves every tile.
  lemma RoomyDraw(s: Dealt, i: nat, k: Tile)
    requires Separate(s) && i < |s.hands| && s.deck < |s.store| && HasRoom(s, i)
    ensures Copies(DrawInPlace(s, i), k) == Copies(s, k)
  {
    DrawAt(s, i);
    assert Placed(s);
    hide DrawInPlace, Placed, Separate, Largest, Holds, Sum, HandCounts, HandAt, CountIn;
    DrawnHandCount(s, i, k);
    RestCount(s, i, k);
    forall j | 0 <= j < |s.hands| && j != i
      ensures CountIn(HandAt(DrawInPlace(s, i), j), k) == CountIn(HandAt(s, j), k)
    {
      assert !Overruns(s, i, j);
      OtherHandCount(s, i, j, k);
    }
    CountsUpdated(s, DrawInPlace(s, i), i, i, k);
  }

  // Without room the tile in the way is exchanged for the largest tile of the drawing hand.
  lemma CrampedDraw(s: Dealt, i: nat, j: nat, k: Tile)
    requires Separate(s) && s.deck < |s.store| && Overruns(s, i, j)
    ensures Copies(DrawInPlace(s, i), k) ==
      Copies(s, k) + (if Largest(s, i) == k then 1 else 0) - (if s.store[s.hands[i].End()] == k then 1 else 0)
  {
    DrawAt(s, i);
    assert Placed(s) && i < |s.hands| && j < |s.hands| && i != j;
    hide DrawInPlace, Placed, Separate, Largest, Holds, Sum, HandCounts, HandAt, CountIn;
    DrawnHandCount(s, i, k);
    RestCount(s, i, k);
    OtherHandCount(s, i, j, k);
    forall l | 0 <= l < |s.hands| && l != i && l != j
      ensures CountIn(HandAt(DrawInPlace(s, i), l), k) == CountIn(HandAt(s, l), k)
    {
      OtherHandCount(s, i, l, k);
      OneOverrun(s, i, j, l);
    }
    CountsUpdated(s, DrawInPlace(s, i), i, j, k);
  }

  // A draw among separate hands conserves every tile if and only if there is room behind the hand or
  // the tile in the way happens to be the largest tile of the hand after the draw.
  lemma DrawConservesIff(s: Dealt, i: nat)
    requires Separate(s) && i < |s.hands| && s.deck < |s.store|
    ensures (forall k :: Copies(DrawInPlace(s, i), k) == Copies(s, k)) <==>
      HasRoom(s, i) || Largest(s, i) == s.store[s.hands[i].End()]
  {
    if HasRoom(s, i) {
      forall k ensures Copies(DrawInPlace(s, i), k) == Copies(s, k) {
        RoomyDraw(s, i, k);
      }
    } else {
      var j :| Overruns(s, i, j);
      forall k ensures Copies(DrawInPlace(s, i), k) ==
          Copies(s, k) + (if Largest(s, i) == k then 1 else 0) - (if s.store[s.hands[i].End()] == k then 1 else 0) {
        CrampedDraw(s, i, j, k);
      }
      var lost := s.store[s.hands[i].End()];
      assert Largest(s, i) != lost ==> Copies(DrawInPlace(s, i), lost) == Copies(s, lost) - 1;
    }
  }

  // And only with room do the hands stay separate.
  lemma StaysSeparateIff(s: Dealt, i: nat)
    requires Separate(s) && i < |s.hands| && s.deck < |s.store|
    ensures Separate(DrawInPlace(s, i)) <==> HasRoom(s, i)
  {
    var r, e := DrawInPlace(s, i), s.hands[i].End();
    forall j: nat, p: nat | j < |s.hands|
      ensures Holds(r.hands[j], p) <==> Holds(s.hands[j], p) || (j == i && p == e)
    {
    }
    if HasRoom(s, i) {
      assert forall j: nat :: j < |s.hands| && j != i ==> !Overruns(s, i, j) && !Holds(s.hands[j], e);
    } else {
      var j: nat :| Overruns(s, i, j);
      assert Holds(r.hands[i], e) && Holds(r.hands[j], e);
    }
  }

  // ---------- The fresh deal ----------

  function DealSlices(n: nat): (r: seq<Slice>)
    ensures |r| == n && forall i :: 0 <= i < n ==> r[i] == Slice(DealtFrom(i), HandSize(i))
  {
    if n == 0 then [] else DealSlices(n - 1) + [Slice(DealtFrom(n - 1), HandSize(n - 1))]
  }

  function Deal(store: seq<Tile>, players: nat): (r: Dealt)
    requires DealtFrom(players) <= |store|
    ensures Placed(r)
  {
    Dealt(store, DealSlices(players), DealtFrom(players))
  }

  lemma Rejoined(store: seq<Tile>, from: nat, to: nat)
    requires from <= to <= |store|
    ensures store[..from] + store[from..to] + store[to..] == store
  {
  }

  lemma SortedStays(s: Dealt, i: nat)
    requires Placed(s) && i < |s.hands| && Sorted(HandAt(s, i))
    ensures SortInPlace(s, i) == s
  {
    var h, hand := s.hands[i], HandAt(s, i);
    SortProperties(hand);
    SortedIsUnique(Sort(hand), hand);
    assert h.End() <= |s.store|;
    hide Sort, Sorted, Placed;
    Rejoined(s.store, h.from, h.End());
  }

  lemma SliceSorted(store: seq<Tile>, from: nat, to: nat)
    requires Sorted(store) && from <= to <= |store|
    ensures Sorted(store[from..to])
  {
  }

  // Hands of a sorted deck are sorted already.
  lemma {:induction false} SortedDealStays(store: seq<Tile>, players: nat, n: nat)
    requires Sorted(store) && n <= players && DealtFrom(players) <= |store|
    ensures SortHands(Deal(store, players), n) == Deal(store, players)
  {
    if n > 0 {
      SortedDealStays(store, players, n - 1);
      var d := Deal(store, players);
      SliceSorted(store, d.hands[n - 1].from, d.hands[n - 1].End());
      hide SortInPlace, Sort, Sorted, Deal;
      SortedStays(d, n - 1);
    }
  }

  // Right after the deal the hands are separate, and every seat but the last has the next hand directly
  // behind its own: its first draw conserves the tiles only if the next hand starts with the largest
  // tile of the drawing hand. The last seat draws safely.
  lemma FirstDraw(store: seq<Tile>, players: nat, i: nat)
    requires DealtFrom(players) < |store| && i < players
    ensures Separate(Deal(store, players))
    ensures (forall k :: Copies(DrawInPlace(Deal(store, players), i), k) == Copies(Deal(store, players), k)) <==>
      i == players - 1 || Largest(Deal(store, players), i) == store[DealtFrom(i + 1)]
  {
    var s := Deal(store, players);
    assert Separate(s);
    assert s.hands[i].End() == DealtFrom(i + 1);
    if i < players - 1 {
      assert Overruns(s, i, i + 1);
    } else {
      assert HasRoom(s, i);
    }
    DrawConservesIff(s, i);
  }

  // The deck in the order in which it is generated, dealt to four players: the dealer draws a five of the
  // second suit and the fours of the second player lose one.
  lemma TileLost()
    ensures DealtFrom(4) < |OrderedDeck(Huitong)|
    ensures var s, lost := Deal(OrderedDeck(Huitong), 4), Tile(Wan, 4);
      Copies(s, lost) - 1 == Copies(DrawInPlace(s, 0), lost)
  {
    OrderedIsSorted();
    var s, lost := Deal(OrderedDeck(Huitong), 4), Tile(Wan, 4);
    hide OrderedDeck;
    assert s.store[53] == Tile(Tiao, 5) && s.store[14] == lost;
    FirstDraw(s.store, 4, 0);
    assert Overruns(s, 0, 1);
    AtMostLargest(s, 0);
    hide Largest, DrawInPlace, Copies, Separate;
    CrampedDraw(s, 0, 1, lost);
  }

  // The drawn tile is in the drawing hand, and so at most the largest there.
  lemma AtMostLargest(s: Dealt, i: nat)
    requires Placed(s) && i < |s.hands| && s.deck < |s.store|
    ensures AtMost(s.store[s.deck], Largest(s, i))
  {
    var tile, drawn := s.store[s.deck], HandAt(s, i) + [s.store[s.deck]];
    SortProperties(drawn);
    assert tile in multiset(drawn);
    var sorted := Sort(drawn);
    assert Largest(s, i) == sorted[|sorted| - 1];
    hide Sort, Largest, HandAt, Placed;
    AtMostLast(sorted, tile);
  }

  lemma AtMostLast(sorted: seq<Tile>, t: Tile)
    requires Sorted(sorted) && t in multiset(sorted)
    ensures AtMost(t, sorted[|sorted| - 1])
  {
    var q :| 0 <= q < |sorted| && sorted[q] == t;
  }
}
