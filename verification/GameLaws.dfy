// Laws of the game besides conservation: hands stay sorted, melds are what their kinds say, the deck is
// used from the front, who may act and when the turn moves on, and what a declared ready hand goes back to.
module GameLaws {
  import opened Tiles
  import opened Game
  import opened GameRuns

  // ---------- Hands, melds and deck ----------

  // The tiles are of the meld's kind.
  ghost predicate WellFormed(m: OpenMeld) {
    match m.kind
    case PongMeld => |m.tiles| == 3 && m.tiles[0] == m.tiles[1] == m.tiles[2]
    case KongMeld => |m.tiles| == 4 && m.tiles[0] == m.tiles[1] == m.tiles[2] == m.tiles[3]
    case ChiMeld => IsRun(m.tiles)
  }

  ghost predicate TidySeat(s: Seat) {
    Sorted(s.hand) && forall i :: 0 <= i < |s.melds| ==> WellFormed(s.melds[i])
  }

  ghost predicate Tidy(seats: seq<Seat>) {
    forall i :: 0 <= i < |seats| ==> TidySeat(seats[i])
  }

  predicate IsTail(rest: seq<Tile>, deck: seq<Tile>) {
    |rest| <= |deck| && rest == deck[|deck| - |rest|..]
  }

  lemma TailOfTail(a: seq<Tile>, b: seq<Tile>, c: seq<Tile>)
    requires IsTail(a, b) && IsTail(b, c)
    ensures IsTail(a, c)
  {
  }

  lemma {:induction false} RemoveOneSorted(s: seq<Tile>, t: Tile)
    requires Sorted(s)
    ensures Sorted(RemoveOne(s, t)) && forall k :: k in RemoveOne(s, t) ==> k in s
  {
    if s != [] && s[0] != t {
      RemoveOneSorted(s[1..], t);
      var rest := RemoveOne(s[1..], t);
      forall k | k in rest
        ensures AtMost(s[0], k)
      {
        var i :| 0 <= i < |s[1..]| && s[1..][i] == k;
        assert AtMost(s[0], s[i + 1]);
      }
      forall i, j | 0 <= i < j < |[s[0]] + rest|
        ensures AtMost(([s[0]] + rest)[i], ([s[0]] + rest)[j])
      {
        assert rest[j - 1] in rest;
      }
    } else if s != [] {
      assert Sorted(s[1..]);
    }
  }

  lemma {:induction false} RemoveTimesSorted(s: seq<Tile>, t: Tile, times: nat)
    requires Sorted(s)
    ensures Sorted(RemoveTimes(s, t, times))
    decreases times
  {
    if times > 0 {
      RemoveOneSorted(s, t);
      RemoveTimesSorted(RemoveOne(s, t), t, times - 1);
    }
  }

  lemma {:induction false} RemoveEachSorted(s: seq<Tile>, targets: seq<Tile>)
    requires Sorted(s)
    ensures Sorted(RemoveEach(s, targets))
    decreases |targets|
  {
    if targets != [] {
      RemoveOneSorted(s, targets[0]);
      RemoveEachSorted(RemoveOne(s, targets[0]), targets[1..]);
    }
  }

  lemma {:induction false} DrawSorted(rules: Rules, d: Drawn)
    requires d.deck != []
    ensures Sorted(DrawOne(rules, d).hand) && IsTail(DrawOne(rules, d).deck, d.deck)
    decreases |d.deck|, 0
  {
    var tile := d.deck[0];
    SortProperties(d.hand + [tile]);
    if rules.Taihu? && tile.suit == Flower {
      var drawn := Drawn(Sort(d.hand + [tile]), d.extra, d.deck[1..]);
      FlowerSorted(drawn, tile);
      hide Sort, Sorted;
      TailOfTail(AutoFlower(drawn, tile).deck, d.deck[1..], d.deck);
    }
  }

  lemma {:induction false} FlowerSorted(d: Drawn, flower: Tile)
    requires Sorted(d.hand)
    ensures Sorted(AutoFlower(d, flower).hand) && IsTail(AutoFlower(d, flower).deck, d.deck)
    decreases |d.deck|, 1
  {
    RemoveOneSorted(d.hand, flower);
    if d.deck != [] {
      DrawSorted(Taihu, Drawn(RemoveOne(d.hand, flower), AddFlower(d.extra), d.deck));
    }
  }

  lemma CallTidy(seats: seq<Seat>, i: nat, hand: seq<Tile>, meld: OpenMeld)
    requires Tidy(seats) && i < |seats| && Sorted(hand) && WellFormed(meld)
    ensures Tidy(WithCall(seats, i, hand, meld))
  {
    hide Sorted, WellFormed;
  }

  lemma TakeTidy(seats: seq<Seat>, id: string)
    requires Tidy(seats)
    ensures Tidy(TakeDiscard(seats, id))
  {
    hide Sorted, WellFormed;
  }

  lemma DrawnTidy(t: Table, i: nat, d: Drawn)
    requires Tidy(t.seats) && i < |t.seats| && Sorted(d.hand)
    ensures Tidy(WithDrawn(t, i, d).seats)
  {
    hide Sorted, WellFormed;
  }

  lemma KongTidy(rules: Rules, t: Table, i: nat, tile: Tile)
    requires Tidy(t.seats) && i < |t.seats|
    ensures Tidy(Kong(rules, t, i, tile).seats) && IsTail(Kong(rules, t, i, tile).deck, t.deck)
  {
    var exposed := AfterDiscard(t);
    var hand := RemoveTimes(t.seats[i].hand, tile, if exposed then 3 else 4);
    RemoveTimesSorted(t.seats[i].hand, tile, if exposed then 3 else 4);
    hide RemoveTimes, TakeDiscard, WithCall, DrawOne;
    var called := WithCall(t.seats, i, hand, OpenMeld(KongMeld, [tile, tile, tile, tile]));
    CallTidy(t.seats, i, hand, OpenMeld(KongMeld, [tile, tile, tile, tile]));
    if exposed {
      TakeTidy(called, t.last.value.player);
    }
    var laid := LayKong(rules, t, i, tile);
    assert Tidy(laid.seats) by {
      hide Sorted, WellFormed;
    }
    if t.deck != [] {
      DrawSorted(rules, DrawnOf(laid, i));
      hide LayKong, Sorted;
      DrawnTidy(laid, i, DrawOne(rules, DrawnOf(laid, i)));
    }
  }

  lemma DiscardTidy(t: Table, i: nat, a: Action)
    requires Tidy(t.seats) && i < |t.seats| && a.tile.Some?
    ensures Tidy(ExecuteDiscard(t, i, a).value.seats)
  {
    RemoveOneSorted(t.seats[i].hand, a.tile.value);
    hide Sorted, WellFormed, RemoveOne;
  }

  lemma TingTidy(t: Table, i: nat)
    requires Tidy(t.seats) && i < |t.seats| && t.seats[i].extra.HuitongExtra?
    ensures Tidy(ExecuteTing(t, i).value.seats)
  {
    hide Sorted, WellFormed;
  }

  // An accepted action keeps the hands sorted and the melds well formed, and uses the deck from the front.
  lemma ExecuteTidy(rules: Rules, t: Table, a: Action)
    requires Tidy(t.seats) && Validate(rules, t, a).None? && Execute(rules, t, a).Ok?
    ensures var r := Execute(rules, t, a).value; Tidy(r.seats) && IsTail(r.deck, t.deck)
  {
    var i := Find(t.seats, a.player);
    hide Tidy, Find, WithDrawn, DrawOne, AutoFlower, Kong, RemoveOne, RemoveTimes, RemoveEach, TakeDiscard, WithCall,
      Sorted, IsRun;
    match a.kind
    case DrawTile =>
      DrawSorted(rules, DrawnOf(t, i));
      DrawnTidy(t, i, DrawOne(rules, DrawnOf(t, i)));
      DrawnDeck(t, i, DrawOne(rules, DrawnOf(t, i)));
    case DiscardTile => DiscardTidy(t, i, a);
    case CallPong => PongTidy(t, i);
    case CallChi => ChiTidy(t, i, a);
    case CallKong => KongTidy(rules, t, i, a.tile.value);
    case DeclareTing => TingTidy(t, i);
    case ReplaceFlower =>
      TidyHand(t, i);
      FlowerSorted(DrawnOf(t, i), a.tile.value);
      DrawnTidy(t, i, AutoFlower(DrawnOf(t, i), a.tile.value));
      DrawnDeck(t, i, AutoFlower(DrawnOf(t, i), a.tile.value));
    case _ =>
  }

  lemma TidyHand(t: Table, i: nat)
    requires Tidy(t.seats) && i < |t.seats|
    ensures Sorted(t.seats[i].hand)
  {
  }

  lemma DrawnDeck(t: Table, i: nat, d: Drawn)
    requires i < |t.seats|
    ensures WithDrawn(t, i, d).deck == d.deck
  {
  }

  lemma PongTidy(t: Table, i: nat)
    requires Tidy(t.seats) && i < |t.seats| && t.last.Some? && t.last.value.tile.Some?
    ensures Tidy(ExecutePong(t, i).value.seats) && ExecutePong(t, i).value.deck == t.deck
  {
    var tile := t.last.value.tile.value;
    var hand, meld := RemoveTimes(t.seats[i].hand, tile, 2), OpenMeld(PongMeld, [tile, tile, tile]);
    RemoveTimesSorted(t.seats[i].hand, tile, 2);
    hide RemoveTimes, TakeDiscard, WithCall, Sorted;
    CallTidy(t.seats, i, hand, meld);
    TakeTidy(WithCall(t.seats, i, hand, meld), t.last.value.player);
  }

  lemma ChiTidy(t: Table, i: nat, a: Action)
    requires Tidy(t.seats) && i < |t.seats| && ValidateChi(t, i, a).None?
    ensures Tidy(ExecuteChi(t, i, a).value.seats) && ExecuteChi(t, i, a).value.deck == t.deck
  {
    var others := Others(a.tiles, t.last.value.tile.value);
    var hand, meld := RemoveEach(t.seats[i].hand, others), OpenMeld(ChiMeld, a.tiles);
    RemoveEachSorted(t.seats[i].hand, others);
    hide RemoveEach, TakeDiscard, WithCall, Sorted, Others, IsRun;
    CallTidy(t.seats, i, hand, meld);
    TakeTidy(WithCall(t.seats, i, hand, meld), t.last.value.player);
  }

  lemma InitialTidy(rules: Rules, ids: seq<string>, deck: seq<Tile>)
    requires DealtFrom(|ids|) <= |deck|
    ensures Tidy(Initial(rules, ids, deck).seats)
  {
    DealtSeats(rules, ids, deck, |ids|);
    forall i | 0 <= i < |ids|
      ensures TidySeat(DealSeat(rules, ids, deck, i))
    {
      SortProperties(deck[DealtFrom(i)..DealtFrom(i + 1)]);
    }
    hide DealSeats, DealSeat, TidySeat;
  }

  lemma NextTidy(rules: Rules, t: Table, e: Event)
    requires Tidy(t.seats)
    ensures Tidy(Next(rules, t, e).seats) && IsTail(Next(rules, t, e).deck, t.deck)
  {
    if e.Act? && Handle(rules, t, e.action, e.deadline).Ok? {
      ExecuteTidy(rules, t, e.action);
      hide Tidy, Validate, Execute, IsTail;
      HandleKeepsSeats(rules, t, e.action, e.deadline);
    }
  }

  // Handling adds nothing to seats and deck that executing has not done.
  lemma HandleKeepsSeats(rules: Rules, t: Table, a: Action, deadline: int)
    requires Handle(rules, t, a, deadline).Ok?
    ensures Validate(rules, t, a).None? && Execute(rules, t, a).Ok?
    ensures var r, done := Handle(rules, t, a, deadline).value, Execute(rules, t, a).value;
      r.seats == done.seats && r.deck == done.deck
  {
    hide Validate, Execute, Judge;
  }

  lemma {:induction false} RunTidy(rules: Rules, t: Table, events: seq<Event>)
    requires Tidy(t.seats)
    ensures Tidy(Run(rules, t, events).seats) && IsTail(Run(rules, t, events).deck, t.deck)
    decreases |events|
  {
    hide Tidy, Next;
    if events != [] {
      NextTidy(rules, t, events[0]);
      RunTidy(rules, Next(rules, t, events[0]), events[1..]);
      TailOfTail(Run(rules, t, events).deck, Next(rules, t, events[0]).deck, t.deck);
    }
  }

  // On every table of every game the hands are sorted, each open meld is of its kind, and the deck is what is
  // left of the dealt one behind a front that has been drawn.
  lemma GameIsTidy(rules: Rules, ids: seq<string>, deck: seq<Tile>, events: seq<Event>)
    requires DealtFrom(|ids|) <= |deck|
    ensures var r := Run(rules, Initial(rules, ids, deck), events); Tidy(r.seats) && IsTail(r.deck, deck)
  {
    InitialTidy(rules, ids, deck);
    RunTidy(rules, Initial(rules, ids, deck), events);
    assert IsTail(Initial(rules, ids, deck).deck, deck);
    hide Initial, Tidy;
    TailOfTail(Run(rules, Initial(rules, ids, deck), events).deck, Initial(rules, ids, deck).deck, deck);
  }

  // The dealer gets fourteen tiles and everybody else thirteen, the deck keeps the others, and the dealer begins.
  lemma DealtHands(rules: Rules, ids: seq<string>, deck: seq<Tile>, i: nat)
    requires i < |ids| && DealtFrom(|ids|) <= |deck|
    ensures var t := Initial(rules, ids, deck);
      && |t.seats| == |ids| && t.seats[i].id == ids[i] && |t.seats[i].hand| == (if i == 0 then 14 else 13)
      && t.seats[i].discards == [] && t.seats[i].melds == []
      && |t.deck| == |deck| - 13 * |ids| - 1 && t.current == 0 && t.pending == [] && t.last.None?
  {
    DealtSeats(rules, ids, deck, |ids|);
    SortProperties(deck[DealtFrom(i)..DealtFrom(i + 1)]);
    hide Sort, DealSeats;
  }

  // ---------- Whose turn it is ----------

  // Which requests are accepted and carried out, for a player at the table. A chi is the business of ChiAccepted.
  lemma AcceptedIff(rules: Rules, t: Table, a: Action, deadline: int)
    requires Find(t.seats, a.player) >= 0 && a.kind != CallChi
    ensures var i := Find(t.seats, a.player);
      var hand, extra := t.seats[i].hand, t.seats[i].extra;
      Handle(rules, t, a, deadline).Ok? <==>
        match a.kind
        case DrawTile => t.current == i && t.deck != []
        case DiscardTile => t.current == i && a.tile.Some? && a.tile.value in hand
        case CallPong => AfterDiscard(t) && t.last.value.tile.Some? && CountIn(hand, t.last.value.tile.value) >= 2
        case CallKong =>
          if AfterDiscard(t) then
            a.tile.Some? && t.last.value.tile.Some? && CountIn(hand, t.last.value.tile.value) >= 3
          else a.tile.Some? && CountIn(hand, a.tile.value) >= 4
        case DeclareTing => rules.Huitong? && t.round <= 1 && extra.HuitongExtra? && !extra.isTing
        case ReplaceFlower => rules.Taihu? && a.tile.Some? && a.tile.value.suit == Flower && a.tile.value in hand
        case Pass => true
        case _ => false
  {
    hide Find, CountIn, DrawOne, AutoFlower, Kong, RemoveOne, RemoveTimes, TakeDiscard, Conclude;
  }

  lemma StrangersRefused(rules: Rules, t: Table, a: Action, deadline: int)
    requires forall i :: 0 <= i < |t.seats| ==> t.seats[i].id != a.player
    ensures Handle(rules, t, a, deadline).Err?
  {
  }

  // Accepted draws and discards come from the player whose turn it is; a discard is a tile of the hand.
  lemma OnlyCurrentActs(rules: Rules, t: Table, a: Action, deadline: int)
    requires Handle(rules, t, a, deadline).Ok? && (a.kind == DrawTile || a.kind == DiscardTile)
    ensures Find(t.seats, a.player) == t.current
    ensures a.kind == DiscardTile ==> a.tile.Some? && a.tile.value in t.seats[t.current].hand
    ensures a.kind == DrawTile ==> t.deck != []
  {
  }

  // After an accepted discard the turn moves on exactly when no other player may answer it.
  lemma TurnMovesIff(rules: Rules, t: Table, a: Action, deadline: int)
    requires Inv(rules, t) && UniqueIds(t.seats) && Handle(rules, t, a, deadline).Ok? && a.kind == DiscardTile
    ensures var r, n := Handle(rules, t, a, deadline).value, |t.seats|;
      && r.current == (if NobodyMayAnswer(rules, r.seats, a) then (t.current + 1) % n else t.current)
  {
    var done := Execute(rules, t, a).value;
    PendingAfterDiscard(rules, t, a, deadline);
    ExecuteFits(rules, t, a);
    HandleKeepsSeats(rules, t, a, deadline);
    assert a.tile.Some?;
    hide Handle, Execute, Inv, SeatsFit, Fits;
    NoTasksIff(rules, done, a, deadline);
  }

  // The player in seat j is another one and may answer the discard this way.
  ghost predicate MayAnswerAt(rules: Rules, seats: seq<Seat>, a: Action, j: nat, kind: ActionType) {
    a.tile.Some? && j < |seats| && seats[j].id != a.player &&
    MayAnswer(rules, seats[j].hand, a.tile.value, true, (Find(seats, a.player) + 1) % |seats| == j, kind)
  }

  ghost predicate NobodyMayAnswer(rules: Rules, seats: seq<Seat>, a: Action) {
    forall j, kind :: !MayAnswerAt(rules, seats, a, j, kind)
  }

  lemma OfferedHere(rules: Rules, t: Table, a: Action, deadline: int, j: nat, kind: ActionType)
    requires UniqueIds(t.seats) && a.kind == DiscardTile && a.tile.Some? && j < |t.seats| && t.seats[j].id != a.player
    ensures Offered(Judge(rules, t, a, deadline), t.seats[j].id, kind) <==> MayAnswerAt(rules, t.seats, a, j, kind)
  {
    hide Judge, Offered, MayAnswer, Find;
    OffersAre(rules, t, a, deadline, j, kind);
  }

  // A task is an offer to somebody else.
  lemma SomethingOffered(rules: Rules, t: Table, a: Action, deadline: int) returns (j: nat, kind: ActionType)
    requires Judge(rules, t, a, deadline) != []
    ensures j < |t.seats| && t.seats[j].id != a.player && Offered(Judge(rules, t, a, deadline), t.seats[j].id, kind)
  {
    var tasks := Judge(rules, t, a, deadline);
    var task := tasks[0];
    TasksAre(rules, t, a, deadline, |t.seats|, task);
    hide Judge, TasksBefore, Answers;
    j :| 0 <= j < |t.seats| && IsTaskOf(rules, t, a, deadline, j, task);
    kind := task.types[0];
    assert task in tasks && kind in task.types;
  }

  lemma NoTasksIff(rules: Rules, t: Table, a: Action, deadline: int)
    requires UniqueIds(t.seats) && a.kind == DiscardTile && a.tile.Some?
    ensures Judge(rules, t, a, deadline) == [] <==> NobodyMayAnswer(rules, t.seats, a)
  {
    hide Judge, Offered, MayAnswer, Find;
    if Judge(rules, t, a, deadline) != [] {
      var j, kind := SomethingOffered(rules, t, a, deadline);
      OfferedHere(rules, t, a, deadline, j, kind);
    } else {
      NothingOffered();
      forall j: nat, kind
        ensures !MayAnswerAt(rules, t.seats, a, j, kind)
      {
        if j < |t.seats| && t.seats[j].id != a.player {
          OfferedHere(rules, t, a, deadline, j, kind);
        }
      }
    }
  }

  // Of all other accepted actions only a pass moves the turn on.
  lemma OnlyPassMovesOn(rules: Rules, t: Table, a: Action, deadline: int)
    requires Inv(rules, t) && Handle(rules, t, a, deadline).Ok? && a.kind != DiscardTile
    ensures var r := Handle(rules, t, a, deadline).value;
      r.current == if a.kind == Pass then (t.current + 1) % |t.seats| else t.current
  {
    ExecuteFits(rules, t, a);
    ExecuteFailsIff(rules, t, a);
    hide Execute, Validate, SeatsFit, Fits;
    if a.kind == Pass {
      assert Judge(rules, Execute(rules, t, a).value, a, deadline) == [];
    }
    hide Judge;
  }

  // No offer outlives its time limit when the time is checked: the check changes something exactly when an
  // offer is overdue, and then it clears them all and passes the turn on.
  lemma ExpireIff(t: Table, now: int)
    requires 0 <= t.current < |t.seats|
    ensures var r, overdue := Expire(t, now), exists task :: task in t.pending && task.timeout < now;
      && (r == t <==> !overdue)
      && (overdue ==> r == t.(pending := [], current := (t.current + 1) % |t.seats|))
      && (forall task :: task in r.pending ==> now <= task.timeout)
  {
    if i :| 0 <= i < |t.pending| && now > t.pending[i].timeout {
      assert t.pending[i] in t.pending;
    }
  }

  // ---------- Declared ready hands ----------

  ghost predicate Ready(t: Table, i: nat) {
    i < |t.seats| && t.seats[i].extra.HuitongExtra? && t.seats[i].extra.isTing
  }

  // The event is an accepted declaration by the player in seat i.
  ghost predicate Declares(t: Table, e: Event, i: nat) {
    e.Act? && e.action.kind == DeclareTing && Handle(Huitong, t, e.action, e.deadline).Ok? &&
    Find(t.seats, e.action.player) == i
  }

  // Some event of the run is.
  ghost predicate Declared(t: Table, events: seq<Event>, i: nat)
    decreases |events|
  {
    events != [] && (Declares(t, events[0], i) || Declared(Next(Huitong, t, events[0]), events[1..], i))
  }

  lemma DrawKeepsExtra(d: Drawn)
    requires d.deck != []
    ensures DrawOne(Huitong, d).extra == d.extra
  {
  }

  lemma KongKeepsExtra(t: Table, i: nat, tile: Tile, l: nat)
    requires i < |t.seats| && l < |t.seats|
    ensures Kong(Huitong, t, i, tile).seats[l].extra == t.seats[l].extra
  {
    var laid := LayKong(Huitong, t, i, tile);
    if t.deck != [] {
      DrawKeepsExtra(DrawnOf(laid, i));
    }
    hide RemoveTimes, DrawOne;
  }

  lemma ExecuteExtra(t: Table, a: Action, l: nat)
    requires Validate(Huitong, t, a).None? && Execute(Huitong, t, a).Ok? && l < |t.seats|
    ensures var r := Execute(Huitong, t, a).value;
      && |r.seats| == |t.seats|
      && if a.kind == DeclareTing && Find(t.seats, a.player) == l
         then r.seats[l].extra == HuitongExtra(true, t.round) && !Ready(t, l)
         else r.seats[l].extra == t.seats[l].extra
  {
    var i := Find(t.seats, a.player);
    hide RemoveOne, RemoveTimes, RemoveEach, DrawOne, IsRun;
    match a.kind
    case DrawTile => DrawKeepsExtra(DrawnOf(t, i));
    case CallKong =>
      KongKeepsExtra(t, i, a.tile.value, l);
      hide Kong;
    case _ =>
  }

  lemma NextReady(t: Table, e: Event, i: nat)
    requires i < |t.seats|
    ensures |Next(Huitong, t, e).seats| == |t.seats|
    ensures Ready(Next(Huitong, t, e), i) <==> Ready(t, i) || Declares(t, e, i)
    ensures Declares(t, e, i) ==> !Ready(t, i)
  {
    if e.Act? && Handle(Huitong, t, e.action, e.deadline).Ok? {
      HandleKeepsSeats(Huitong, t, e.action, e.deadline);
      ExecuteExtra(t, e.action, i);
    }
    hide Handle, Execute, Validate;
  }

  // A player is ready exactly if ready before or after an accepted declaration in the run; a ready player's
  // declaration is refused.
  lemma {:induction false} ReadyIffDeclared(t: Table, events: seq<Event>, i: nat)
    requires i < |t.seats|
    ensures |Run(Huitong, t, events).seats| == |t.seats|
    ensures Ready(Run(Huitong, t, events), i) <==> Ready(t, i) || Declared(t, events, i)
    decreases |events|
  {
    hide Ready, Declares, Next;
    if events != [] {
      NextReady(t, events[0], i);
      ReadyIffDeclared(Next(Huitong, t, events[0]), events[1..], i);
    }
  }

  // So in a game from the deal on.
  lemma GameReadyIff(ids: seq<string>, deck: seq<Tile>, events: seq<Event>, i: nat)
    requires i < |ids| && DealtFrom(|ids|) <= |deck|
    ensures var t := Initial(Huitong, ids, deck); Ready(Run(Huitong, t, events), i) <==> Declared(t, events, i)
  {
    DealtSeats(Huitong, ids, deck, |ids|);
    ReadyIffDeclared(Initial(Huitong, ids, deck), events, i);
    hide DealSeats, Run, Declared;
  }
}
