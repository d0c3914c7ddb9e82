// A game, from the deal on, in which offers outlive the discard that they were made for: the table goes on
// offering calls that are refused, and the time limit of such an offer takes the turn from a player.
module StaleOffers {
  import opened Tiles
  import opened Winning
  import opened Options
  import opened Game
  import opened GameProofs
  import opened GameRuns
  import opened Decks
  import opened Misnaming

  // ---------- A discard that nobody can use ----------

  // No tile of the hand is the tile or near it.
  predicate FarFrom(hand: seq<Tile>, t: Tile) {
    forall k :: k in hand ==> k != t && (k.suit == t.suit ==> k.value < t.value - 2 || k.value > t.value + 2)
  }

  lemma FarAnswersNothing(t: Table, a: Action, j: nat)
    requires j < |t.seats| && a.kind == DiscardTile && a.tile.Some? && FarFrom(t.seats[j].hand, a.tile.value)
    ensures Answers(Huitong, t, a, j) == []
  {
    var tile, hand := a.tile.value, t.seats[j].hand;
    assert tile !in multiset(hand);
    assert multiset(hand + [tile]) == multiset(hand) + multiset{tile};
    forall k | k in multiset(hand + [tile]) && k != tile
      ensures k in hand
    {
    }
    LoneLoses(tile, multiset(hand + [tile]));
  }

  lemma NobodyAnswers(t: Table, a: Action, deadline: int)
    requires a.kind == DiscardTile && a.tile.Some?
    requires forall j :: 0 <= j < |t.seats| && t.seats[j].id != a.player ==> FarFrom(t.seats[j].hand, a.tile.value)
    ensures Judge(Huitong, t, a, deadline) == []
  {
    var tasks := Judge(Huitong, t, a, deadline);
    hide Answers, FarFrom;
    if tasks != [] {
      TasksAre(Huitong, t, a, deadline, |t.seats|, tasks[0]);
      var j :| 0 <= j < |t.seats| && IsTaskOf(Huitong, t, a, deadline, j, tasks[0]);
      FarAnswersNothing(t, a, j);
    }
  }

  // ---------- The game ----------

  // After the third player's discard of the seven, the second passes and the fourth discards a five of
  // the second suit, which nobody can use.
  function StaleEvents(): seq<Event> {
    MisnamingEvents()[..3] +
    [Act(Action(Pass, "b", None, []), 0), Act(Action(DiscardTile, "d", Some(Tile(Tiao, 5)), []), 0)]
  }

  // The fourth player has the five and the others have nothing near it.
  ghost predicate FiveDealt(t: Table) {
    Ordered(t.seats) && Tile(Tiao, 5) in t.seats[3].hand &&
    forall j :: 0 <= j < 3 ==> FarFrom(t.seats[j].hand, Tile(Tiao, 5))
  }

  lemma FiveInDeck(deck: seq<Tile>)
    requires deck == OrderedDeck(Huitong)
    ensures |deck| == 108 && Tile(Tiao, 5) in deck[40..53]
    ensures var five := Tile(Tiao, 5);
      FarFrom(deck[0..14], five) && FarFrom(deck[14..27], five) && FarFrom(deck[27..40], five)
  {
    OrderedIsSorted();
    hide OrderedDeck, Sorted;
    assert deck[40..53][12] == Tile(Tiao, 5);
    forall p | 0 <= p < 40
      ensures deck[p].suit == Wan || deck[p] == Tile(Tiao, 1)
    {
    }
  }

  lemma FourHands(ids: seq<string>, deck: seq<Tile>)
    requires |ids| == 4 && |deck| == 108
    ensures var seats := DealSeats(Huitong, ids, deck, 4);
      && (forall j :: 0 <= j < 4 ==> seats[j].id == ids[j])
      && seats[0].hand == Sort(deck[0..14]) && seats[1].hand == Sort(deck[14..27])
      && seats[2].hand == Sort(deck[27..40]) && seats[3].hand == Sort(deck[40..53])
  {
    DealtSeats(Huitong, ids, deck, 4);
    hide Sort, DealSeats;
  }

  // The hands that are dealt from it.
  lemma FiveInHands(ids: seq<string>, deck: seq<Tile>)
    requires |ids| == 4 && deck == OrderedDeck(Huitong)
    requires ids[0] == "a" && ids[1] == "b" && ids[2] == "c" && ids[3] == "d"
    ensures |deck| == 108 && FiveDealt(Initial(Huitong, ids, deck))
  {
    var five := Tile(Tiao, 5);
    FiveInDeck(deck);
    hide OrderedDeck, DealSeats, FarFrom, Sort;
    FourHands(ids, deck);
    SortFar(deck[0..14], five);
    SortFar(deck[14..27], five);
    SortFar(deck[27..40], five);
    SortKeeps(deck[40..53], five);
  }

  lemma SortKeeps(s: seq<Tile>, t: Tile)
    requires t in s
    ensures t in Sort(s)
  {
    SortProperties(s);
    assert t in multiset(Sort(s));
  }

  lemma OrderedFive()
    ensures FiveDealt(OrderedGame())
  {
    hide OrderedDeck, Initial, FiveDealt;
    FiveInHands(["a", "b", "c", "d"], OrderedDeck(Huitong));
  }

  lemma SortFar(s: seq<Tile>, t: Tile)
    ensures FarFrom(Sort(s), t) <==> FarFrom(s, t)
  {
    SortProperties(s);
    forall k
      ensures k in Sort(s) <==> k in s
    {
      assert k in Sort(s) <==> k in multiset(Sort(s));
    }
  }

  lemma SevenGoneStillFar(t: Table, r: Table)
    requires FiveDealt(t) && SevenGone(t, r)
    ensures FiveDealt(r)
  {
    var hand, left := t.seats[2].hand, r.seats[2].hand;
    RemoveOneProperties(hand, Tile(Wan, 7));
    forall k | k in left
      ensures k in hand
    {
      assert k in multiset(left);
    }
  }

  // The discard of the seven brings the second player the offers of a pong and a kong; the turn stays.
  lemma SevenOffered(t: Table, e: Event)
    requires Inv(Huitong, t) && Ordered(t.seats) && t.current == 2 && Tile(Wan, 7) in t.seats[2].hand
    requires CountIn(t.seats[1].hand, Tile(Wan, 7)) == 3 && e == MisnamingEvents()[2]
    ensures var r := Next(Huitong, t, e);
      r.current == 2 && Offered(r.pending, "b", CallPong) && Offered(r.pending, "b", CallKong)
  {
    var a := e.action;
    FindOrdered(t.seats);
    DiscardKeepsSeats(t, 2, Tile(Wan, 7));
    hide Inv, Find, CountIn, MisnamingEvents;
    ThreeMayCall(t, a, e.deadline, 1);
  }

  // Who holds three copies of a discard is offered a pong and a kong, and the turn stays.
  lemma ThreeMayCall(t: Table, a: Action, deadline: int, j: nat)
    requires Inv(Huitong, t) && UniqueIds(t.seats) && a.kind == DiscardTile && Handle(Huitong, t, a, deadline).Ok?
    requires j < |t.seats| && t.seats[j].id != a.player && a.tile.Some? && CountIn(t.seats[j].hand, a.tile.value) >= 3
    ensures var r, id := Handle(Huitong, t, a, deadline).value, t.seats[j].id;
      r.current == t.current && Offered(r.pending, id, CallPong) && Offered(r.pending, id, CallKong)
  {
    var done := Execute(Huitong, t, a).value;
    assert done.seats[j] == t.seats[j];
    PendingAfterDiscard(Huitong, t, a, deadline);
    ExecuteFits(Huitong, t, a);
    hide Handle, Execute, Inv, Judge, Answers, CountIn, Find, SeatsFit;
    AnswersHold(Huitong, done, a, j);
    OfferedIff(Huitong, done, a, deadline, j, CallPong);
    OfferedIff(Huitong, done, a, deadline, j, CallKong);
  }

  lemma PassKeepsOffers(t: Table, id: string)
    requires Inv(Huitong, t) && Find(t.seats, id) >= 0
    ensures Handle(Huitong, t, Action(Pass, id, None, []), 0).value.pending == t.pending
  {
  }

  // Nobody can use the five: the old offers stay, the turn passes on and no call is accepted.
  lemma FiveUnused(t: Table, e: Event)
    requires Inv(Huitong, t) && FiveDealt(t) && t.current == 3 && e == StaleEvents()[4]
    ensures var r := Next(Huitong, t, e);
      && r.pending == t.pending && r.current == 0 && |r.seats| == 4
      && !Acceptable(Huitong, r, "b", CallPong) && !Acceptable(Huitong, r, "b", CallKong)
  {
    var a := e.action;
    assert Find(t.seats, "d") == 3;
    DiscardKeepsSeats(t, 3, Tile(Tiao, 5));
    var done := Execute(Huitong, t, a).value;
    assert forall l :: 0 <= l < 3 ==> done.seats[l] == t.seats[l];
    assert |done.seats| == 4 && done.seats[3].id == "d";
    hide FarFrom, Find;
    NobodyAnswers(done, a, e.deadline);
    PendingAfterDiscard(Huitong, t, a, e.deadline);
    hide Execute, Handle, Inv, Acceptable;
    OfferedIffAcceptable(Huitong, t, a, e.deadline, 1, CallPong);
    OfferedIffAcceptable(Huitong, t, a, e.deadline, 1, CallKong);
  }

  lemma StaleEventsAre()
    ensures |StaleEvents()| == 5 && |MisnamingEvents()| == 4
    ensures StaleEvents()[..3] == MisnamingEvents()[..3] && StaleEvents()[..5] == StaleEvents()
    ensures StaleEvents()[3] == Act(Action(Pass, "b", None, []), 0)
  {
  }

  // Up to the second player's pass.
  lemma SevenPassedOver()
    ensures |StaleEvents()| == 5
    ensures var r := Run(Huitong, OrderedGame(), StaleEvents()[..4]);
      && Inv(Huitong, r) && FiveDealt(r) && r.current == 3
      && Offered(r.pending, "b", CallPong) && Offered(r.pending, "b", CallKong)
  {
    StaleEventsAre();
    OrderedHands();
    OrderedFive();
    TwoPasses();
    SevenThrown();
    hide OrderedGame, Inv, Run, Next, Offered, FarFrom, CountIn, InPlay, StaleEvents, MisnamingEvents, Find;
    var t0 := OrderedGame();
    var t2, t3 := Run(Huitong, t0, MisnamingEvents()[..2]), Run(Huitong, t0, MisnamingEvents()[..3]);
    RunLast(Huitong, t0, MisnamingEvents(), 2);
    SevenOffered(t2, MisnamingEvents()[2]);
    SevenGoneStillFar(t0, t3);
    RunLast(Huitong, t0, StaleEvents(), 3);
    PassedOver(t3, StaleEvents()[3]);
  }

  lemma PassedOver(t: Table, e: Event)
    requires Inv(Huitong, t) && FiveDealt(t) && t.current == 2 && e == Act(Action(Pass, "b", None, []), 0)
    ensures var r := Next(Huitong, t, e);
      Inv(Huitong, r) && FiveDealt(r) && r.current == 3 && r.pending == t.pending
  {
    hide Inv, Handle, Find, FarFrom;
    FindOrdered(t.seats);
    PassMovesOn(t, "b");
    PassKeepsOffers(t, "b");
  }

  // So after the fourth player's discard the table still offers the second player a pong and a kong of the
  // seven, both would be refused, and when the offers expire the turn is taken from the first player.
  lemma StaleOffer()
    ensures var r := Run(Huitong, OrderedGame(), StaleEvents());
      && Offered(r.pending, "b", CallPong) && !Acceptable(Huitong, r, "b", CallPong)
      && Offered(r.pending, "b", CallKong) && !Acceptable(Huitong, r, "b", CallKong)
      && |r.seats| == 4 && r.current == 0 && exists now :: Next(Huitong, r, Clock(now)).current == 1
  {
    StaleEventsAre();
    SevenPassedOver();
    hide OrderedGame, Inv, Run, Next, FiveDealt, Offered, Acceptable, StaleEvents, MisnamingEvents;
    var t4 := Run(Huitong, OrderedGame(), StaleEvents()[..4]);
    RunLast(Huitong, OrderedGame(), StaleEvents(), 4);
    FiveUnused(t4, StaleEvents()[4]);
    OfferExpires(Next(Huitong, t4, StaleEvents()[4]), "b", CallPong);
  }

  lemma OfferExpires(t: Table, player: string, kind: ActionType)
    requires Offered(t.pending, player, kind)
    ensures exists now :: Next(Huitong, t, Clock(now)) == NextSeat(t.(pending := []))
  {
    var task :| task in t.pending && task.player == player && kind in task.types;
    assert Next(Huitong, t, Clock(task.timeout + 1)) == NextSeat(t.(pending := []));
  }
}
