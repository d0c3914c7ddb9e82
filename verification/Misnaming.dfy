// A game, from the deal on, in which a kong that names the wrong tile loses the discard it claims.
module Misnaming {
  import opened Tiles
  import opened Options
  import opened Game
  import opened GameProofs
  import opened GameRuns
  import opened Decks

  // A pass moves the turn on.
  lemma PassMovesOn(t: Table, id: string)
    requires Inv(Huitong, t) && Find(t.seats, id) >= 0
    ensures var r := Handle(Huitong, t, Action(Pass, id, None, []), 0);
      && r.Ok? && Inv(Huitong, r.value) && r.value.seats == t.seats && r.value.current == (t.current + 1) % |t.seats|
      && forall k :: InPlay(r.value, k) == InPlay(t, k)
  {
    var a := Action(Pass, id, None, []);
    HandleKeepsInv(Huitong, t, a, 0);
    JudgedFrame(Huitong, t, a, 0);
    hide Inv;
    forall k
      ensures InPlay(Handle(Huitong, t, a, 0).value, k) == InPlay(t, k)
    {
      HandleConserves(Huitong, t, a, 0, k);
    }
  }

  // A discard touches nobody else's seat.
  lemma DiscardKeepsSeats(t: Table, j: nat, tile: Tile)
    requires Inv(Huitong, t) && t.current == j && Find(t.seats, t.seats[j].id) == j && tile in t.seats[j].hand
    ensures var a := Action(DiscardTile, t.seats[j].id, Some(tile), []);
      var r := Handle(Huitong, t, a, 0);
      && r.Ok? && Inv(Huitong, r.value) && |r.value.seats| == |t.seats| && r.value.last == Some(a)
      && (forall l :: 0 <= l < |t.seats| && l != j ==> r.value.seats[l] == t.seats[l])
      && r.value.seats[j].id == t.seats[j].id && r.value.seats[j].hand == RemoveOne(t.seats[j].hand, tile)
      && forall k :: InPlay(r.value, k) == InPlay(t, k)
  {
    var a := Action(DiscardTile, t.seats[j].id, Some(tile), []);
    ExecuteFits(Huitong, t, a);
    HandleKeepsInv(Huitong, t, a, 0);
    JudgedFrame(Huitong, Execute(Huitong, t, a).value, a, 0);
    hide Inv;
    forall k
      ensures InPlay(Handle(Huitong, t, a, 0).value, k) == InPlay(t, k)
    {
      HandleConserves(Huitong, t, a, 0, k);
    }
  }

  // A kong that names another tile than the discard it claims loses that discard.
  lemma MisnamingLoses(t: Table, i: nat, tile: Tile)
    requires Inv(Huitong, t) && i < |t.seats| && Find(t.seats, t.seats[i].id) == i
    requires AfterDiscard(t) && t.last.value.tile.Some? && t.last.value.tile != Some(tile)
    requires CountIn(t.seats[i].hand, t.last.value.tile.value) >= 3
    ensures var r := Handle(Huitong, t, Action(CallKong, t.seats[i].id, Some(tile), []), 0);
      var lost := t.last.value.tile.value;
      r.Ok? && InPlay(r.value, lost) == InPlay(t, lost) - 1
  {
    var a := Action(CallKong, t.seats[i].id, Some(tile), []);
    assert Validate(Huitong, t, a).None?;
    assert Execute(Huitong, t, a).Ok?;
    hide Inv, Execute, Validate, InPlay;
    ConservesIff(Huitong, t, a, 0);
  }

  // The events of a game that loses a tile: two players pass, the third discards a seven, and the second
  // claims it with a kong that names the six.
  function MisnamingEvents(): seq<Event> {
    [Act(Action(Pass, "a", None, []), 0), Act(Action(Pass, "b", None, []), 0),
     Act(Action(DiscardTile, "c", Some(Tile(Wan, 7)), []), 0), Act(Action(CallKong, "b", Some(Tile(Wan, 6)), []), 0)]
  }

  // Four players are dealt the deck in the order in which it is generated: the third gets one seven
  // and the second the other three.
  function OrderedGame(): Table {
    Initial(Huitong, ["a", "b", "c", "d"], OrderedDeck(Huitong))
  }

  // All four sevens are in play, three of them in the second hand and one in the third.
  ghost predicate SevensDealt(t: Table) {
    && Ordered(t.seats) && t.current == 0
    && InPlay(t, Tile(Wan, 7)) == 4 && CountIn(t.seats[1].hand, Tile(Wan, 7)) == 3 && Tile(Wan, 7) in t.seats[2].hand
  }

  lemma OrderedHands()
    ensures Inv(Huitong, OrderedGame()) && SevensDealt(OrderedGame())
  {
    hide OrderedDeck, Initial, Inv, SevensDealt;
    SevensInGame(["a", "b", "c", "d"], OrderedDeck(Huitong));
  }

  lemma SevensInGame(ids: seq<string>, deck: seq<Tile>)
    requires |ids| == 4 && deck == OrderedDeck(Huitong)
    requires ids[0] == "a" && ids[1] == "b" && ids[2] == "c" && ids[3] == "d"
    ensures DealtFrom(4) <= |deck|
    ensures Inv(Huitong, Initial(Huitong, ids, deck)) && SevensDealt(Initial(Huitong, ids, deck))
  {
    hide OrderedDeck, DealSeats, DealSeat, Inv, InPlay, CountIn;
    OrderedInitial(ids, deck);
    InitialCounts(Huitong, ids, deck, Tile(Wan, 7));
    OrderedDeckHolds(Huitong, Tile(Wan, 7));
    DealtSeats(Huitong, ids, deck, 4);
    SevensInHands(ids, deck);
  }

  lemma OrderedInitial(ids: seq<string>, deck: seq<Tile>)
    requires |ids| == 4 && deck == OrderedDeck(Huitong)
    ensures DealtFrom(4) <= |deck| && Inv(Huitong, Initial(Huitong, ids, deck))
  {
    forall k
      ensures CountIn(deck, k) == if InDeck(Huitong, k) then 4 else 0
    {
      OrderedDeckHolds(Huitong, k);
    }
    hide OrderedDeck, Inv, CountIn, Initial;
    assert |deck| == 108 by { OrderedDeckHolds(Huitong, Tile(Wan, 1)); }
    InitialInv(Huitong, ids, deck);
  }

  lemma SevensInHands(ids: seq<string>, deck: seq<Tile>)
    requires |ids| == 4 && deck == OrderedDeck(Huitong)
    ensures DealtFrom(4) <= |deck| && CountIn(DealSeat(Huitong, ids, deck, 1).hand, Tile(Wan, 7)) == 3
    ensures Tile(Wan, 7) in DealSeat(Huitong, ids, deck, 2).hand
    ensures DealSeat(Huitong, ids, deck, 1).id == ids[1] && DealSeat(Huitong, ids, deck, 2).id == ids[2]
    ensures DealSeat(Huitong, ids, deck, 0).id == ids[0] && DealSeat(Huitong, ids, deck, 3).id == ids[3]
  {
    DealtSevens(deck);
    hide OrderedDeck, Sort;
    CountSort(deck[14..27], Tile(Wan, 7));
    CountSort(deck[27..40], Tile(Wan, 7));
    assert Tile(Wan, 7) in multiset(Sort(deck[27..40]));
  }

  lemma DealtSevens(deck: seq<Tile>)
    requires deck == OrderedDeck(Huitong)
    ensures |deck| == 108
    ensures CountIn(deck[14..27], Tile(Wan, 7)) == 3 && CountIn(deck[27..40], Tile(Wan, 7)) >= 1
  {
    var seven := Tile(Wan, 7);
    assert |deck| == 108 && forall p :: 0 <= p < 36 ==> deck[p] == Tile(Wan, 1 + p / 4);
    hide OrderedDeck;
    assert deck[14..27] == deck[14..24] + [seven, seven, seven];
    assert forall p :: 14 <= p < 24 ==> deck[p] != seven;
    assert seven !in deck[14..24];
    assert seven !in multiset(deck[14..24]);
    assert deck[27..40][0] == seven;
    assert seven in deck[27..40];
  }

  lemma TwoPasses()
    ensures var t, r := OrderedGame(), Run(Huitong, OrderedGame(), MisnamingEvents()[..2]);
      Inv(Huitong, r) && r.seats == t.seats && r.current == 2 && InPlay(r, Tile(Wan, 7)) == InPlay(t, Tile(Wan, 7))
  {
    OrderedHands();
    var events, t0 := MisnamingEvents(), OrderedGame();
    hide OrderedGame, Inv, Handle, InPlay;
    FindOrdered(t0.seats);
    hide Find;
    PassMovesOn(t0, "a");
    PassMovesOn(Handle(Huitong, t0, events[0].action, 0).value, "b");
    RunLast(Huitong, t0, events, 0);
    RunLast(Huitong, t0, events, 1);
    assert events[..0] == [] && Run(Huitong, t0, []) == t0;
  }

  // Nobody but the third player has other tiles in the hand, who has one seven less.
  ghost predicate SevenGone(t: Table, r: Table) {
    && Ordered(t.seats) && Ordered(r.seats) && (forall l :: 0 <= l < 4 && l != 2 ==> r.seats[l] == t.seats[l])
    && r.seats[2].hand == RemoveOne(t.seats[2].hand, Tile(Wan, 7))
  }

  // The third player's discard.
  lemma ThirdDiscards(t: Table, e: Event)
    requires Inv(Huitong, t) && Ordered(t.seats) && t.current == 2 && Tile(Wan, 7) in t.seats[2].hand
    requires e == MisnamingEvents()[2]
    ensures var r := Next(Huitong, t, e);
      && Inv(Huitong, r) && SevenGone(t, r) && r.last == Some(e.action)
      && InPlay(r, Tile(Wan, 7)) == InPlay(t, Tile(Wan, 7))
  {
    FindOrdered(t.seats);
    hide Inv, Handle, InPlay, Find;
    DiscardKeepsSeats(t, 2, Tile(Wan, 7));
  }

  // Up to the kong nothing is lost, and the second player holds the three sevens that the third has not.
  lemma SevenThrown()
    ensures var t, r := OrderedGame(), Run(Huitong, OrderedGame(), MisnamingEvents()[..3]);
      && Inv(Huitong, r) && SevenGone(t, r) && r.last == Some(MisnamingEvents()[2].action)
      && InPlay(r, Tile(Wan, 7)) == InPlay(t, Tile(Wan, 7))
  {
    OrderedHands();
    TwoPasses();
    hide OrderedGame, Inv, InPlay, Run, CountIn, Next;
    var t2, e := Run(Huitong, OrderedGame(), MisnamingEvents()[..2]), MisnamingEvents()[2];
    RunLast(Huitong, OrderedGame(), MisnamingEvents(), 2);
    ThirdDiscards(t2, e);
  }

  predicate Ordered(seats: seq<Seat>) {
    |seats| == 4 && seats[0].id == "a" && seats[1].id == "b" && seats[2].id == "c" && seats[3].id == "d"
  }

  lemma FindOrdered(seats: seq<Seat>)
    requires Ordered(seats)
    ensures Find(seats, "a") == 0 && Find(seats, "b") == 1 && Find(seats, "c") == 2
  {
  }

  // So the game as the code plays it loses a tile: of the four sevens one is gone.
  lemma MisnamedKong()
    ensures var events, seven := MisnamingEvents(), Tile(Wan, 7);
      var t := Run(Huitong, OrderedGame(), events[..3]);
      && InPlay(t, seven) == 4 && Handle(Huitong, t, events[3].action, 0).Ok?
      && InPlay(Run(Huitong, OrderedGame(), events), seven) == 3
  {
    OrderedHands();
    SevenThrown();
    hide OrderedGame, Inv, Handle, InPlay, Run, CountIn, Find;
    var events, t := MisnamingEvents(), Run(Huitong, OrderedGame(), MisnamingEvents()[..3]);
    RunLast(Huitong, OrderedGame(), events, 3);
    assert events[..4] == events;
    FindOrdered(t.seats);
    MisnamingLoses(t, 1, Tile(Wan, 6));
    assert Next(Huitong, t, events[3]) == Handle(Huitong, t, events[3].action, 0).value;
  }
}
