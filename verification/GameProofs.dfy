// What every accepted action and every run keeps, for both rule sets.
module GameProofs {
  import opened Tiles
  import opened Options
  import opened Game

  // ---------- Counting the copies of a tile ----------

  ghost function MeldCount(melds: seq<OpenMeld>, k: Tile): nat {
    if melds == [] then 0 else MeldCount(melds[..|melds| - 1], k) + CountIn(melds[|melds| - 1].tiles, k)
  }

  ghost function SeatCount(s: Seat, k: Tile): nat {
    CountIn(s.hand, k) + CountIn(s.discards, k) + MeldCount(s.melds, k)
  }

  ghost function SeatsCount(seats: seq<Seat>, k: Tile): nat {
    if seats == [] then 0 else SeatsCount(seats[..|seats| - 1], k) + SeatCount(seats[|seats| - 1], k)
  }

  // The copies of k in the deck, in the hands, among the discards and in the open melds.
  ghost function InPlay(t: Table, k: Tile): nat {
    CountIn(t.deck, k) + SeatsCount(t.seats, k)
  }

  lemma {:induction false} SeatsCountUpdate(seats: seq<Seat>, i: nat, s: Seat, k: Tile)
    requires i < |seats|
    ensures SeatsCount(seats[i := s], k) == SeatsCount(seats, k) - SeatCount(seats[i], k) + SeatCount(s, k)
  {
    hide SeatCount;
    var n := |seats| - 1;
    if i < n {
      SeatsCountUpdate(seats[..n], i, s, k);
      assert seats[i := s][..n] == seats[..n][i := s];
    } else {
      assert seats[i := s][..n] == seats[..n];
    }
  }

  lemma MeldCountAdd(melds: seq<OpenMeld>, m: OpenMeld, k: Tile)
    ensures MeldCount(melds + [m], k) == MeldCount(melds, k) + CountIn(m.tiles, k)
  {
    assert (melds + [m])[..|melds|] == melds;
  }

  lemma CountAppend(a: seq<Tile>, b: seq<Tile>, k: Tile)
    ensures CountIn(a + b, k) == CountIn(a, k) + CountIn(b, k)
  {
  }

  lemma CountOne(t: Tile, k: Tile)
    ensures CountIn([t], k) == if t == k then 1 else 0
    ensures CountIn([t, t, t], k) == if t == k then 3 else 0
    ensures CountIn([t, t, t, t], k) == if t == k then 4 else 0
  {
  }

  lemma CountSort(s: seq<Tile>, k: Tile)
    ensures CountIn(Sort(s), k) == CountIn(s, k)
  {
    SortProperties(s);
  }

  lemma CountRemoveOne(s: seq<Tile>, t: Tile, k: Tile)
    ensures CountIn(RemoveOne(s, t), k) == CountIn(s, k) - if k == t && t in s then 1 else 0
  {
    RemoveOneProperties(s, t);
  }

  lemma CountRemoveTimes(s: seq<Tile>, t: Tile, times: nat, k: Tile)
    ensures CountIn(RemoveTimes(s, t, times), k) ==
      if k != t then CountIn(s, k) else if CountIn(s, t) >= times then CountIn(s, t) - times else 0
  {
    RemoveTimesProperties(s, t, times);
  }

  lemma CountHeadTail(s: seq<Tile>, k: Tile)
    requires s != []
    ensures CountIn(s, k) == (if s[0] == k then 1 else 0) + CountIn(s[1..], k)
  {
    MultisetCons(s);
  }

  lemma CountLast(s: seq<Tile>, k: Tile)
    requires s != []
    ensures CountIn(s, k) == CountIn(s[..|s| - 1], k) + if s[|s| - 1] == k then 1 else 0
  {
    assert s == s[..|s| - 1] + [s[|s| - 1]];
    CountAppend(s[..|s| - 1], [s[|s| - 1]], k);
    CountOne(s[|s| - 1], k);
  }

  // ---------- Drawing ----------

  ghost predicate NoFlower(s: seq<Tile>) {
    forall i :: 0 <= i < |s| ==> s[i].suit != Flower
  }

  lemma NoFlowerSort(s: seq<Tile>)
    ensures NoFlower(Sort(s)) <==> NoFlower(s)
  {
    SortProperties(s);
    var u := Sort(s);
    forall i | 0 <= i < |s|
      ensures s[i] in u
    {
      assert s[i] in multiset(u);
    }
    forall i | 0 <= i < |u|
      ensures u[i] in s
    {
      assert u[i] in multiset(s);
    }
  }

  lemma NoFlowerAppend(s: seq<Tile>, t: Tile)
    ensures NoFlower(s + [t]) <==> NoFlower(s) && t.suit != Flower
  {
    assert (s + [t])[|s|] == t;
    assert forall i :: 0 <= i < |s| ==> (s + [t])[i] == s[i];
  }

  // All flowers of s are copies of f.
  ghost predicate OnlyFlower(s: seq<Tile>, f: Tile) {
    forall t :: t in s && t.suit == Flower ==> t == f
  }

  lemma FlowerOut(s: seq<Tile>, f: Tile)
    requires OnlyFlower(s, f) && CountIn(s, f) == 1
    ensures NoFlower(RemoveOne(s, f))
  {
    RemoveOneProperties(s, f);
    var r := RemoveOne(s, f);
    forall i | 0 <= i < |r|
      ensures r[i].suit != Flower
    {
      assert r[i] in multiset(r);
      assert r[i] in multiset(s);
    }
  }

  ghost function FlowersOf(e: Extra): int {
    if e.TaihuExtra? then e.flowerCount else 0
  }

  // Drawing keeps what is in the hand, in the deck and counted as flowers, and replaces every flower
  // it draws; so a hand without flowers stays one, even when the deck runs out on a flower.
  lemma {:induction false} DrawOneKeeps(d: Drawn)
    requires d.deck != [] && d.extra.TaihuExtra?
    ensures var r := DrawOne(Taihu, d);
      && |r.hand| + |r.deck| + FlowersOf(r.extra) == |d.hand| + |d.deck| + FlowersOf(d.extra)
      && |r.deck| < |d.deck|
      && r.extra.TaihuExtra? && r.extra.kongCount == d.extra.kongCount && FlowersOf(r.extra) >= FlowersOf(d.extra)
      && (NoFlower(d.hand) ==> NoFlower(r.hand))
    decreases |d.deck|
  {
    hide Sort, RemoveOne, NoFlower, OnlyFlower;
    var tile := d.deck[0];
    var drawn := Drawn(Sort(d.hand + [tile]), d.extra, d.deck[1..]);
    SortProperties(d.hand + [tile]);
    NoFlowerSort(d.hand + [tile]);
    NoFlowerAppend(d.hand, tile);
    if tile.suit == Flower {
      assert tile in d.hand + [tile];
      assert tile in multiset(drawn.hand);
      RemoveOneProperties(drawn.hand, tile);
      var without := Drawn(RemoveOne(drawn.hand, tile), AddFlower(d.extra), drawn.deck);
      if NoFlower(d.hand) {
        DrawnFlower(d.hand, tile);
        FlowerOut(drawn.hand, tile);
      }
      if drawn.deck != [] {
        DrawOneKeeps(without);
      }
    }
  }

  lemma DrawnFlower(hand: seq<Tile>, f: Tile)
    requires NoFlower(hand) && f.suit == Flower
    ensures OnlyFlower(Sort(hand + [f]), f) && CountIn(Sort(hand + [f]), f) == 1
  {
    var u := Sort(hand + [f]);
    CountSort(hand + [f], f);
    CountAppend(hand, [f], f);
    CountOne(f, f);
    assert f !in multiset(hand);
    SortProperties(hand + [f]);
    forall t | t in u && t.suit == Flower
      ensures t == f
    {
      assert t in multiset(hand + [f]);
      assert t in hand + [f];
    }
  }

  // autoFlower: from a hand with a single flower to one without, keeping the sum.
  lemma AutoFlowerKeeps(d: Drawn, f: Tile)
    requires d.extra.TaihuExtra? && f in d.hand && f.suit == Flower
    ensures var r := AutoFlower(d, f);
      && |r.hand| + |r.deck| + FlowersOf(r.extra) == |d.hand| + |d.deck| + FlowersOf(d.extra)
      && r.extra.TaihuExtra? && r.extra.kongCount == d.extra.kongCount && FlowersOf(r.extra) > FlowersOf(d.extra)
      && (OnlyFlower(d.hand, f) && CountIn(d.hand, f) == 1 ==> NoFlower(r.hand))
  {
    RemoveOneProperties(d.hand, f);
    if OnlyFlower(d.hand, f) && CountIn(d.hand, f) == 1 {
      FlowerOut(d.hand, f);
    }
    if d.deck != [] {
      DrawOneKeeps(Drawn(RemoveOne(d.hand, f), AddFlower(d.extra), d.deck));
    }
  }

  // Copies of k only move from deck to hand, unless k is a flower that Taihu replaces.
  lemma {:induction false} DrawOneCounts(rules: Rules, d: Drawn, k: Tile)
    requires d.deck != [] && (k.suit != Flower || NoFlower(d.deck))
    ensures var r := DrawOne(rules, d);
      CountIn(r.hand, k) + CountIn(r.deck, k) == CountIn(d.hand, k) + CountIn(d.deck, k)
    decreases |d.deck|
  {
    var tile := d.deck[0];
    var drawn := Drawn(Sort(d.hand + [tile]), d.extra, d.deck[1..]);
    CountSort(d.hand + [tile], k);
    CountAppend(d.hand, [tile], k);
    CountOne(tile, k);
    CountHeadTail(d.deck, k);
    if rules.Taihu? && tile.suit == Flower {
      CountRemoveOne(drawn.hand, tile, k);
      if drawn.deck != [] {
        DrawOneCounts(Taihu, Drawn(RemoveOne(drawn.hand, tile), AddFlower(d.extra), drawn.deck), k);
      }
    }
  }

  lemma AutoFlowerCounts(d: Drawn, f: Tile, k: Tile)
    requires f.suit == Flower && k.suit != Flower
    ensures var r := AutoFlower(d, f);
      CountIn(r.hand, k) + CountIn(r.deck, k) == CountIn(d.hand, k) + CountIn(d.deck, k)
  {
    CountRemoveOne(d.hand, f, k);
    if d.deck != [] {
      DrawOneCounts(Taihu, Drawn(RemoveOne(d.hand, f), AddFlower(d.extra), d.deck), k);
    }
  }

  // ---------- Conservation, one action at a time ----------

  // When the last action was a discard, its tile lies on top of that player's discards.
  ghost predicate LastOnTop(t: Table) {
    AfterDiscard(t) ==>
      var j := Find(t.seats, t.last.value.player);
      j >= 0 && t.seats[j].discards != [] && t.last.value.tile == Some(t.seats[j].discards[|t.seats[j].discards| - 1])
  }

  ghost predicate NoFlowers(t: Table) {
    NoFlower(t.deck) && forall i :: 0 <= i < |t.seats| ==> NoFlower(t.seats[i].hand)
  }

  // k is not affected by the replacement of flowers.
  ghost predicate Steady(t: Table, k: Tile) {
    k.suit != Flower || NoFlowers(t)
  }

  // An exposed kong names the discard it claims.
  predicate NamesTheDiscard(t: Table, a: Action) {
    a.kind == CallKong && AfterDiscard(t) ==> a.tile == t.last.value.tile
  }

  lemma WithDrawnCounts(t: Table, i: nat, d: Drawn, k: Tile)
    requires i < |t.seats|
    requires CountIn(d.hand, k) + CountIn(d.deck, k) == CountIn(t.seats[i].hand, k) + CountIn(t.deck, k)
    ensures InPlay(WithDrawn(t, i, d), k) == InPlay(t, k)
  {
    SeatsCountUpdate(t.seats, i, t.seats[i].(hand := d.hand, extra := d.extra), k);
  }

  lemma {:induction false} FindSameIds(a: seq<Seat>, b: seq<Seat>, id: string)
    requires |a| == |b| && forall i :: 0 <= i < |a| ==> a[i].id == b[i].id
    ensures Find(a, id) == Find(b, id)
  {
  }

  lemma WithCallCounts(seats: seq<Seat>, i: nat, hand: seq<Tile>, meld: OpenMeld, k: Tile)
    requires i < |seats|
    ensures SeatsCount(WithCall(seats, i, hand, meld), k) ==
      SeatsCount(seats, k) - CountIn(seats[i].hand, k) + CountIn(hand, k) + CountIn(meld.tiles, k)
  {
    MeldCountAdd(seats[i].melds, meld, k);
    SeatsCountUpdate(seats, i, seats[i].(hand := hand, melds := seats[i].melds + [meld]), k);
  }

  lemma TakeDiscardCounts(seats: seq<Seat>, id: string, k: Tile)
    requires Find(seats, id) >= 0 && seats[Find(seats, id)].discards != []
    ensures var top := seats[Find(seats, id)].discards;
      SeatsCount(TakeDiscard(seats, id), k) == SeatsCount(seats, k) - if top[|top| - 1] == k then 1 else 0
  {
    var j := Find(seats, id);
    CountLast(seats[j].discards, k);
    SeatsCountUpdate(seats, j, seats[j].(discards := seats[j].discards[..|seats[j].discards| - 1]), k);
  }

  // A call lays meld open, leaves hand and takes the claimed discard.
  lemma CallCounts(t: Table, i: nat, hand: seq<Tile>, meld: OpenMeld, k: Tile)
    requires i < |t.seats| && AfterDiscard(t) && LastOnTop(t)
    ensures SeatsCount(TakeDiscard(WithCall(t.seats, i, hand, meld), t.last.value.player), k) ==
      SeatsCount(t.seats, k) - CountIn(t.seats[i].hand, k) + CountIn(hand, k) + CountIn(meld.tiles, k)
      - if t.last.value.tile == Some(k) then 1 else 0
  {
    hide SeatsCount, CountIn;
    var called := WithCall(t.seats, i, hand, meld);
    FindSameIds(called, t.seats, t.last.value.player);
    WithCallCounts(t.seats, i, hand, meld, k);
    TakeDiscardCounts(called, t.last.value.player, k);
  }

  lemma {:induction false} CountOthers(tiles: seq<Tile>, last: Tile, k: Tile)
    ensures CountIn(Others(tiles, last), k) == if k == last then 0 else CountIn(tiles, k)
  {
    if tiles != [] {
      CountOthers(tiles[1..], last, k);
      CountHeadTail(tiles, k);
      if tiles[0] != last {
        assert Others(tiles, last) == [tiles[0]] + Others(tiles[1..], last);
        CountAppend([tiles[0]], Others(tiles[1..], last), k);
        CountOne(tiles[0], k);
      }
    }
  }

  // A run holds the claimed tile once.
  lemma RunHoldsOnce(tiles: seq<Tile>, last: Tile)
    requires IsRun(tiles) && last in tiles
    ensures CountIn(tiles, last) == 1
  {
    var t: Tile :| RunStart(t) && multiset(tiles) == multiset(RunFrom(t));
    assert last in multiset(tiles);
    assert forall k :: multiset(RunFrom(t))[k] <= 1;
  }

  lemma DrawConserves(rules: Rules, t: Table, i: nat, k: Tile)
    requires i < |t.seats| && t.deck != [] && Steady(t, k)
    ensures InPlay(ExecuteDraw(rules, t, i).value, k) == InPlay(t, k)
  {
    DrawOneCounts(rules, DrawnOf(t, i), k);
    WithDrawnCounts(t, i, DrawOne(rules, DrawnOf(t, i)), k);
  }

  lemma DiscardConserves(t: Table, i: nat, a: Action, k: Tile)
    requires i < |t.seats| && ValidateDiscard(t, i, a).None?
    ensures InPlay(ExecuteDiscard(t, i, a).value, k) == InPlay(t, k)
  {
    var s, tile := t.seats[i], a.tile.value;
    CountRemoveOne(s.hand, tile, k);
    CountAppend(s.discards, [tile], k);
    CountOne(tile, k);
    SeatsCountUpdate(t.seats, i, s.(hand := RemoveOne(s.hand, tile), discards := s.discards + [tile]), k);
  }

  lemma PongConserves(t: Table, i: nat, k: Tile)
    requires i < |t.seats| && LastOnTop(t) && ValidatePong(t, i).None?
    ensures InPlay(ExecutePong(t, i).value, k) == InPlay(t, k)
  {
    var tile := t.last.value.tile.value;
    CountRemoveTimes(t.seats[i].hand, tile, 2, k);
    CountOne(tile, k);
    CallCounts(t, i, RemoveTimes(t.seats[i].hand, tile, 2), OpenMeld(PongMeld, [tile, tile, tile]), k);
  }

  lemma ChiConserves(t: Table, i: nat, a: Action, k: Tile)
    requires i < |t.seats| && LastOnTop(t) && ValidateChi(t, i, a).None?
    ensures InPlay(ExecuteChi(t, i, a).value, k) == InPlay(t, k)
  {
    var last := t.last.value.tile.value;
    var hand := RemoveEach(t.seats[i].hand, Others(a.tiles, last));
    RunHoldsOnce(a.tiles, last);
    CountOthers(a.tiles, last, k);
    RemoveEachProperties(t.seats[i].hand, Others(a.tiles, last));
    CallCounts(t, i, hand, OpenMeld(ChiMeld, a.tiles), k);
  }

  // Laying a kong changes the copies of k only when the kong names another tile than the discard.
  lemma LayKongCounts(rules: Rules, t: Table, i: nat, tile: Tile, k: Tile)
    requires i < |t.seats| && LastOnTop(t)
    ensures SeatsCount(LayKong(rules, t, i, tile).seats, k) - SeatsCount(t.seats, k) ==
      if AfterDiscard(t) then
        (if k != tile then 0 else if CountIn(t.seats[i].hand, k) >= 3 then 1 else 4 - CountIn(t.seats[i].hand, k))
        - if t.last.value.tile == Some(k) then 1 else 0
      else if k != tile || CountIn(t.seats[i].hand, k) >= 4 then 0 else 4 - CountIn(t.seats[i].hand, k)
  {
    var exposed := AfterDiscard(t);
    var hand := RemoveTimes(t.seats[i].hand, tile, if exposed then 3 else 4);
    var meld := OpenMeld(KongMeld, [tile, tile, tile, tile]);
    CountRemoveTimes(t.seats[i].hand, tile, if exposed then 3 else 4, k);
    CountOne(tile, k);
    var called := WithCall(t.seats, i, hand, meld);
    var taken := if exposed then TakeDiscard(called, t.last.value.player) else called;
    if exposed {
      CallCounts(t, i, hand, meld, k);
    } else {
      WithCallCounts(t.seats, i, hand, meld, k);
    }
    SeatsCountUpdate(taken, i, taken[i].(extra := AddKong(taken[i].extra)), k);
  }

  lemma KongDrawCounts(rules: Rules, t: Table, i: nat, a: Action, k: Tile)
    requires i < |t.seats| && a.tile.Some? && Steady(t, k)
    ensures InPlay(Kong(rules, t, i, a.tile.value), k) ==
      CountIn(t.deck, k) + SeatsCount(LayKong(rules, t, i, a.tile.value).seats, k)
  {
    var laid := LayKong(rules, t, i, a.tile.value);
    if t.deck != [] {
      DrawOneCounts(rules, DrawnOf(laid, i), k);
      WithDrawnCounts(laid, i, DrawOne(rules, DrawnOf(laid, i)), k);
    }
  }

  // An accepted kong conserves every tile exactly when an exposed one names the discard it claims;
  // otherwise the discard itself is lost.
  lemma KongConservesIff(rules: Rules, t: Table, i: nat, a: Action)
    requires i < |t.seats| && LastOnTop(t) && a.kind == CallKong && ValidateKong(t, i, a).None?
    requires AfterDiscard(t) ==> Steady(t, t.last.value.tile.value)
    ensures (forall k :: Steady(t, k) ==> InPlay(Kong(rules, t, i, a.tile.value), k) == InPlay(t, k)) <==>
      NamesTheDiscard(t, a)
    ensures !NamesTheDiscard(t, a) ==>
      var lost := t.last.value.tile.value; InPlay(Kong(rules, t, i, a.tile.value), lost) == InPlay(t, lost) - 1
  {
    hide Kong, LayKong, InPlay, LastOnTop;
    var tile := a.tile.value;
    forall k | Steady(t, k)
      ensures InPlay(Kong(rules, t, i, a.tile.value), k) - InPlay(t, k) ==
        SeatsCount(LayKong(rules, t, i, tile).seats, k) - SeatsCount(t.seats, k)
    {
      KongDrawCounts(rules, t, i, a, k);
      InPlayIs(t, k);
    }
    forall k: Tile
      ensures SeatsCount(LayKong(rules, t, i, tile).seats, k) - SeatsCount(t.seats, k) ==
        if AfterDiscard(t) then
          (if k != tile then 0 else if CountIn(t.seats[i].hand, k) >= 3 then 1 else 4 - CountIn(t.seats[i].hand, k))
          - if t.last.value.tile == Some(k) then 1 else 0
        else if k != tile || CountIn(t.seats[i].hand, k) >= 4 then 0 else 4 - CountIn(t.seats[i].hand, k)
    {
      LayKongCounts(rules, t, i, tile, k);
    }
    if !NamesTheDiscard(t, a) {
      assert Steady(t, t.last.value.tile.value);
    }
  }

  lemma InPlayIs(t: Table, k: Tile)
    ensures InPlay(t, k) == CountIn(t.deck, k) + SeatsCount(t.seats, k)
  {
  }
}
