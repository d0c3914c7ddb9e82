// When an action on the dealer's slices conserves every tile: exactly when a kong names the discard it
// claims and a draw finds room behind the hand, or happens to leave there the tile that was in its way.
module SharedConservation {
  import opened Tiles
  import opened Options
  import opened Game
  import opened GameProofs
  import opened GameRuns
  import opened SharedStorage
  import opened SharedGame
  import opened Decks

  // The copies of k among the discards and in the open melds.
  ghost function Laid(seats: seq<Seat>, k: Tile): nat {
    if seats == [] then 0
    else
      var last := seats[|seats| - 1];
      Laid(seats[..|seats| - 1], k) + CountIn(last.discards, k) + MeldCount(last.melds, k)
  }

  lemma {:induction false} SeatsSplit(seats: seq<Seat>, counts: seq<nat>, k: Tile)
    requires |counts| == |seats| && forall i :: 0 <= i < |seats| ==> counts[i] == CountIn(seats[i].hand, k)
    ensures SeatsCount(seats, k) == Sum(counts) + Laid(seats, k)
  {
    if seats != [] {
      SeatsSplit(seats[..|seats| - 1], counts[..|seats| - 1], k);
    }
  }

  lemma {:induction false} LaidIgnoresHands(a: seq<Seat>, b: seq<Seat>, k: Tile)
    requires |a| == |b| && forall i :: 0 <= i < |a| ==> a[i].discards == b[i].discards && a[i].melds == b[i].melds
    ensures Laid(a, k) == Laid(b, k)
  {
    if a != [] {
      LaidIgnoresHands(a[..|a| - 1], b[..|b| - 1], k);
    }
  }

  // What is in play is in the slices, in the rest of the deck or laid out.
  lemma InPlaySeen(s: Shared, k: Tile)
    requires Fitting(s)
    ensures InPlay(Seen(s), k) == Copies(s.dealt, k) + Laid(s.rest.seats, k)
  {
    SeatsSplit(Seen(s).seats, HandCounts(s.dealt, k), k);
    LaidIgnoresHands(Seen(s).seats, s.rest.seats, k);
  }

  // The tile in the way of a draw is the one that sorting puts in its place.
  ghost predicate LuckyDraw(d: Dealt, i: nat) {
    Placed(d) && i < |d.hands| && d.deck < |d.store| && Largest(d, i) == d.store[d.hands[i].End()]
  }

  // Drawing a tile that is no flower moves what is in play by what the draw on the slices does.
  lemma DrawMoves(rules: Rules, s: Shared, i: nat, k: Tile)
    requires Fitting(s) && i < |s.rest.seats| && s.dealt.deck < |s.dealt.store|
    requires s.dealt.store[s.dealt.deck].suit != Flower
    ensures var r := WithDraw(s, i, DrawShared(rules, HandOf(s, i), i));
      Fitting(r) && r.dealt == DrawInPlace(s.dealt, i) &&
      InPlay(Seen(r), k) - InPlay(Seen(s), k) == Copies(DrawInPlace(s.dealt, i), k) - Copies(s.dealt, k)
  {
    DrawKeepsSizes(s.dealt, i);
    var r := WithDraw(s, i, DrawShared(rules, HandOf(s, i), i));
    assert r.dealt == DrawInPlace(s.dealt, i);
    hide DrawInPlace, InPlay, Copies, Seen;
    InPlaySeen(s, k);
    InPlaySeen(r, k);
    LaidIgnoresHands(r.rest.seats, s.rest.seats, k);
  }

  lemma HandledInPlay(rules: Rules, s: Shared, a: Action, deadline: int, k: Tile)
    requires Fitting(s) && HandleShared(rules, s, a, deadline).Ok?
    ensures Validate(rules, Seen(s), a).None? && ExecuteShared(rules, s, a).Ok?
    ensures InPlay(Seen(HandleShared(rules, s, a, deadline).value), k) ==
      InPlay(Seen(ExecuteShared(rules, s, a).value), k)
  {
    hide InPlay, Validate, ExecuteShared, Conclude;
    var done := ExecuteShared(rules, s, a).value;
    ConcludeKeeps(rules, done, a, deadline);
    ConcludeKeepsInPlay(rules, Seen(done), a, deadline, k);
    OverKeepsInPlay(done, k);
    hide Seen;
  }

  lemma OverKeepsInPlay(s: Shared, k: Tile)
    requires Fitting(s)
    ensures InPlay(Seen(s.(rest := s.rest.(over := true))), k) == InPlay(Seen(s), k)
  {
  }

  lemma NextTileNoFlower(rules: Rules, s: Shared)
    requires Fitting(s) && Inv(rules, Seen(s)) && s.dealt.deck < |s.dealt.store|
    ensures s.dealt.store[s.dealt.deck].suit != Flower
  {
    InvNoFlowers(rules, Seen(s));
    assert Seen(s).deck[0] == s.dealt.store[s.dealt.deck];
  }

  // A draw from the deck conserves every tile exactly when it has room or is lucky.
  lemma DrawActionConservesIff(rules: Rules, s: Shared, a: Action, deadline: int)
    requires Valid(s) && Inv(rules, Seen(s)) && HandleShared(rules, s, a, deadline).Ok? && a.kind == DrawTile
    ensures var i := Find(s.rest.seats, a.player);
      i >= 0 && s.dealt.deck < |s.dealt.store| &&
      ((forall k :: InPlay(Seen(HandleShared(rules, s, a, deadline).value), k) == InPlay(Seen(s), k)) <==>
       HasRoom(s.dealt, i) || LuckyDraw(s.dealt, i))
  {
    hide InPlay, Conclude, DrawShared, DrawInPlace, HasRoom, Copies, Inv, Seen, Largest;
    HandledInPlay(rules, s, a, deadline, Tile(Wan, 1));
    var i, r := Find(s.rest.seats, a.player), HandleShared(rules, s, a, deadline).value;
    assert i >= 0 && s.dealt.deck < |s.dealt.store|;
    NextTileNoFlower(rules, s);
    hide InPlay, HandleShared, DrawShared, DrawInPlace, HasRoom, Copies, Inv, Validate, Seen, Largest;
    forall k
      ensures InPlay(Seen(r), k) - InPlay(Seen(s), k) == Copies(DrawInPlace(s.dealt, i), k) - Copies(s.dealt, k)
    {
      HandledInPlay(rules, s, a, deadline, k);
      DrawMoves(rules, s, i, k);
    }
    hide ExecuteShared;
    DrawConservesIff(s.dealt, i);
  }

  // A kong without room takes nothing from the hand, which has none of the tile it names: it puts four
  // copies too many into play, of which the draw can remove one at most.
  lemma CrampedKongGains(rules: Rules, s: Shared, a: Action, deadline: int)
    requires Valid(s) && Inv(rules, Seen(s)) && HandleShared(rules, s, a, deadline).Ok?
    requires a.kind == CallKong && !Roomy(s, a)
    ensures InPlay(Seen(HandleShared(rules, s, a, deadline).value), a.tile.value) > InPlay(Seen(s), a.tile.value)
    ensures !NamesTheDiscard(Seen(s), a)
  {
    var i, tile := Find(s.rest.seats, a.player), a.tile.value;
    HandledInPlay(rules, s, a, deadline, tile);
    if NamesTheDiscard(Seen(s), a) {
      NamedKongHasRoom(rules, s, a);
    }
    SeenFind(s.rest.seats, s.dealt, a.player);
    if tile in HandAt(s.dealt, i) {
      RoomStays(s.dealt, i, tile, if AfterDiscard(s.rest) then 3 else 4);
    }
    assert tile !in HandAt(s.dealt, i);
    assert AfterDiscard(s.rest) && s.rest.last.value.tile.Some? && s.rest.last.value.tile != a.tile;
    NextTileNoFlower(rules, s);
    hide InPlay, HandleShared, HasRoom, Inv, Validate, Seen;
    KongGains(rules, s, i, tile);
  }

  lemma {:induction false} NothingTaken(d: Dealt, i: nat, t: Tile, times: nat)
    requires Placed(d) && i < |d.hands| && t !in HandAt(d, i)
    ensures TakeTimes(d, i, t, times) == d
    decreases times
  {
    if times > 0 {
      NothingToRemove(d, i, t);
      NothingTaken(d, i, t, times - 1);
    }
  }

  lemma KongGains(rules: Rules, s: Shared, i: nat, tile: Tile)
    requires Valid(s) && LastOnTop(Seen(s)) && i < |s.rest.seats| && tile !in HandAt(s.dealt, i)
    requires AfterDiscard(s.rest) && s.rest.last.value.tile.Some? && s.rest.last.value.tile != Some(tile)
    requires s.dealt.deck < |s.dealt.store| && s.dealt.store[s.dealt.deck].suit != Flower
    ensures InPlay(Seen(KongShared(rules, s, i, tile)), tile) > InPlay(Seen(s), tile)
  {
    var laid := LaidOpen(rules, s, i, tile);
    LaidOpenSeen(rules, s, i, tile);
    assert tile !in multiset(HandAt(s.dealt, i));
    LayKongCounts(rules, Seen(s), i, tile, tile);
    InPlayIs(Seen(s), tile);
    InPlayIs(Seen(laid), tile);
    assert CountIn(Seen(s).seats[i].hand, tile) == 0;
    hide Seen, InPlay, DrawShared, LayKong;
    DrawMoves(rules, laid, i, tile);
    DrawLosesAtMostOne(laid.dealt, i, tile);
  }

  // The kong before the draw.
  function LaidOpen(rules: Rules, s: Shared, i: nat, tile: Tile): (r: Shared)
    requires Fitting(s) && i < |s.rest.seats| && AfterDiscard(s.rest)
    ensures |r.rest.seats| == |s.rest.seats|
  {
    var taken := TakeTimes(s.dealt, i, tile, 3);
    var called := Called(s, i, taken, OpenMeld(KongMeld, [tile, tile, tile, tile]), Some(s.rest.last.value.player));
    if rules.Taihu? then WithDraw(called, i, Hand(taken, AddKong(called.rest.seats[i].extra))) else called
  }

  lemma LaidOpenSeen(rules: Rules, s: Shared, i: nat, tile: Tile)
    requires Valid(s) && i < |s.rest.seats| && AfterDiscard(s.rest) && tile !in HandAt(s.dealt, i)
    requires s.dealt.deck < |s.dealt.store|
    ensures var laid := LaidOpen(rules, s, i, tile);
      && Valid(laid) && laid.dealt == s.dealt && Seen(laid) == LayKong(rules, Seen(s), i, tile)
      && KongShared(rules, s, i, tile) == WithDraw(laid, i, DrawShared(rules, HandOf(laid, i), i))
  {
    var meld := OpenMeld(KongMeld, [tile, tile, tile, tile]);
    var taken := TakeTimes(s.dealt, i, tile, 3);
    NothingTaken(s.dealt, i, tile, 3);
    TakeTimesRefines(s.dealt, i, tile, 3);
    hide TakeTimes, Separate, TakeDiscard, RemoveTimes, HandAt;
    SeenCalled(s, i, taken, meld, Some(s.rest.last.value.player), RemoveTimes(HandAt(s.dealt, i), tile, 3));
    Counted(rules, Called(s, i, taken, meld, Some(s.rest.last.value.player)), i);
  }

  lemma DrawLosesAtMostOne(d: Dealt, i: nat, k: Tile)
    requires Separate(d) && i < |d.hands| && d.deck < |d.store|
    ensures Copies(DrawInPlace(d, i), k) >= Copies(d, k) - 1
  {
    if HasRoom(d, i) {
      RoomyDraw(d, i, k);
    } else {
      var j :| Overruns(d, i, j);
      CrampedDraw(d, i, j, k);
    }
  }

  // An accepted action on the slices conserves every tile if and only if an exposed kong among them names
  // the discard it claims and a draw finds room behind the hand or is lucky.
  lemma SharedConservesIff(rules: Rules, s: Shared, a: Action, deadline: int)
    requires Valid(s) && Inv(rules, Seen(s)) && HandleShared(rules, s, a, deadline).Ok?
    ensures (forall k :: InPlay(Seen(HandleShared(rules, s, a, deadline).value), k) == InPlay(Seen(s), k)) <==>
      var i := Find(s.rest.seats, a.player);
      NamesTheDiscard(Seen(s), a) &&
      (a.kind == DrawTile ==> i >= 0 && (HasRoom(s.dealt, i) || LuckyDraw(s.dealt, i)))
  {
    hide InPlay, Inv, HasRoom, LuckyDraw, Separate, HandleShared, Handle;
    if a.kind == DrawTile {
      DrawActionConservesIff(rules, s, a, deadline);
    } else if Roomy(s, a) {
      HandleRefines(rules, s, a, deadline);
      ConservesIff(rules, Seen(s), a, deadline);
    } else {
      CrampedKongGains(rules, s, a, deadline);
    }
  }

  // ---------- A game that loses a tile at its first draw ----------

  // Four players are dealt the deck in the order in which it is generated; the dealer draws, and of the
  // four fours of the first suit one is gone.
  lemma FirstDrawLosesATile(ids: seq<string>)
    requires |ids| == 4
    ensures DealtFrom(|ids|) <= |OrderedDeck(Huitong)|
    ensures var s, draw := InitialShared(Huitong, ids, OrderedDeck(Huitong)), Action(DrawTile, ids[0], None, []);
      var r, four := HandleShared(Huitong, s, draw, 0), Tile(Wan, 4);
      r.Ok? && InPlay(Seen(s), four) == 4 && InPlay(Seen(r.value), four) == 3
  {
    OrderedIsSorted();
    var deck, four := OrderedDeck(Huitong), Tile(Wan, 4);
    var s, draw := InitialShared(Huitong, ids, deck), Action(DrawTile, ids[0], None, []);
    InitialRefines(Huitong, ids, deck);
    InitialCounts(Huitong, ids, deck, four);
    OrderedDeckHolds(Huitong, four);
    SortedDealStays(deck, 4, 4);
    TileLost();
    DealtSeats(Huitong, ids, deck, 4);
    hide OrderedDeck, InPlay, SortHands, Copies, DrawInPlace, DealSeats, Seen, Separate;
    assert s.dealt == Deal(deck, 4);
    DealerDraws(s, draw);
    DrawMoves(Huitong, s, 0, four);
    HandledInPlay(Huitong, s, draw, 0, four);
  }

  // The current player's draw is accepted.
  lemma DealerDraws(s: Shared, draw: Action)
    requires Fitting(s) && s.rest.current == 0 && |s.rest.seats| > 0 && s.dealt.deck < |s.dealt.store|
    requires draw == Action(DrawTile, s.rest.seats[0].id, None, [])
    ensures HandleShared(Huitong, s, draw, 0).Ok?
    ensures ExecuteShared(Huitong, s, draw) == Ok(WithDraw(s, 0, DrawShared(Huitong, HandOf(s, 0), 0)))
  {
    assert Find(s.rest.seats, draw.player) == 0;
    SeenFind(s.rest.seats, s.dealt, draw.player);
    assert |Seen(s).deck| == |s.dealt.store| - s.dealt.deck;
    hide DrawShared, WithDraw, Find, Conclude;
  }
}
