// Whole games: the invariant of every reachable table, conservation over runs, and the agreement
// between the tasks offered after a discard and the calls that are then accepted.
module GameRuns {
  import opened Tiles
  import opened Winning
  import opened Options
  import opened Game
  import opened GameProofs

  ghost predicate Fits(rules: Rules, s: seq<Tile>) {
    forall k :: CountIn(s, k) > 0 ==> InDeck(rules, k)
  }

  ghost function Kongs(melds: seq<OpenMeld>): nat {
    if melds == [] then 0 else Kongs(melds[..|melds| - 1]) + if melds[|melds| - 1].kind == KongMeld then 1 else 0
  }

  // A seat of a running game: a hand of deck tiles and the rule set's state; under Taihu no flower
  // has been counted and the kong count is the number of kongs laid open.
  ghost predicate SeatFits(rules: Rules, s: Seat) {
    Fits(rules, s.hand) &&
    match rules
    case Huitong => s.extra.HuitongExtra? && (s.extra.isTing ==> s.extra.tingRound == 1)
    case Taihu => s.extra.TaihuExtra? && s.extra.flowerCount == 0 && s.extra.kongCount == Kongs(s.melds)
  }

  ghost predicate SeatsFit(rules: Rules, seats: seq<Seat>) {
    forall i :: 0 <= i < |seats| ==> SeatFits(rules, seats[i])
  }

  // What holds in every state the engine reaches.
  ghost predicate Inv(rules: Rules, t: Table) {
    0 <= t.current < |t.seats| && !t.over && t.round == 1 && LastOnTop(t) &&
    Fits(rules, t.deck) && SeatsFit(rules, t.seats)
  }

  // ---------- Deck tiles stay deck tiles ----------

  lemma FitsNoFlower(rules: Rules, s: seq<Tile>)
    requires Fits(rules, s)
    ensures NoFlower(s)
  {
    forall i | 0 <= i < |s|
      ensures s[i].suit != Flower
    {
      assert s[i] in multiset(s);
      assert CountIn(s, s[i]) > 0;
    }
  }

  lemma InvNoFlowers(rules: Rules, t: Table)
    requires Inv(rules, t)
    ensures NoFlowers(t)
  {
    FitsNoFlower(rules, t.deck);
    forall i | 0 <= i < |t.seats|
      ensures NoFlower(t.seats[i].hand)
    {
      FitsNoFlower(rules, t.seats[i].hand);
    }
  }

  // Fewer copies of every kind.
  ghost predicate Fewer(a: seq<Tile>, b: seq<Tile>) {
    forall k :: CountIn(a, k) <= CountIn(b, k)
  }

  lemma FitsFewer(rules: Rules, a: seq<Tile>, b: seq<Tile>)
    requires Fits(rules, b) && Fewer(a, b)
    ensures Fits(rules, a)
  {
  }

  lemma RemovedIsFewer(s: seq<Tile>, t: Tile, times: nat, targets: seq<Tile>)
    ensures Fewer(RemoveOne(s, t), s) && Fewer(RemoveTimes(s, t, times), s)
    ensures multiset(targets) <= multiset(s) ==> Fewer(RemoveEach(s, targets), s)
  {
    forall k
      ensures CountIn(RemoveOne(s, t), k) <= CountIn(s, k) && CountIn(RemoveTimes(s, t, times), k) <= CountIn(s, k)
    {
      CountRemoveOne(s, t, k);
      CountRemoveTimes(s, t, times, k);
    }
    if multiset(targets) <= multiset(s) {
      RemoveEachProperties(s, targets);
    }
  }

  // Drawing from a deck without flowers is one tile to the hand.
  lemma DrawFits(rules: Rules, d: Drawn)
    requires d.deck != [] && Fits(rules, d.deck) && Fits(rules, d.hand)
    ensures var r := DrawOne(rules, d); Fits(rules, r.hand) && Fits(rules, r.deck) && r.extra == d.extra
  {
    FitsNoFlower(rules, d.deck);
    var tile := d.deck[0];
    assert DrawOne(rules, d) == Drawn(Sort(d.hand + [tile]), d.extra, d.deck[1..]);
    forall k
      ensures CountIn(d.deck[1..], k) <= CountIn(d.deck, k)
      ensures CountIn(Sort(d.hand + [tile]), k) <= CountIn(d.hand, k) + CountIn(d.deck, k)
    {
      CountHeadTail(d.deck, k);
      CountSort(d.hand + [tile], k);
      CountAppend(d.hand, [tile], k);
      CountOne(tile, k);
    }
  }

  // ---------- Every accepted action keeps the invariant ----------

  // What executing an action leaves alone.
  ghost predicate SameFrame(t: Table, r: Table) {
    |r.seats| == |t.seats| && (forall i :: 0 <= i < |t.seats| ==> r.seats[i].id == t.seats[i].id) &&
    r.current == t.current && r.last == t.last && r.round == t.round && r.over == t.over && r.pending == t.pending
  }

  lemma CallFits(rules: Rules, t: Table, i: nat, hand: seq<Tile>, meld: OpenMeld)
    requires SeatsFit(rules, t.seats) && i < |t.seats| && Fewer(hand, t.seats[i].hand) && meld.kind != KongMeld
    ensures SeatsFit(rules, WithCall(t.seats, i, hand, meld))
  {
    var s := t.seats[i];
    FitsFewer(rules, hand, s.hand);
    assert (s.melds + [meld])[..|s.melds|] == s.melds;
    assert Kongs(s.melds + [meld]) == Kongs(s.melds);
  }

  // The seats are the same but for their discards.
  ghost predicate SameButDiscards(a: seq<Seat>, b: seq<Seat>) {
    |a| == |b| && forall i :: 0 <= i < |a| ==> a[i].(discards := []) == b[i].(discards := [])
  }

  lemma TakeKeeps(seats: seq<Seat>, id: string)
    ensures SameButDiscards(TakeDiscard(seats, id), seats)
  {
  }

  lemma FitsButDiscards(rules: Rules, a: seq<Seat>, b: seq<Seat>)
    requires SameButDiscards(a, b) && SeatsFit(rules, b)
    ensures SeatsFit(rules, a)
  {
    forall i | 0 <= i < |a|
      ensures SeatFits(rules, a[i])
    {
      assert a[i].(discards := []) == b[i].(discards := []);
      assert SeatFits(rules, b[i]);
    }
  }

  // A call other than a kong.
  lemma TakenCallFits(rules: Rules, t: Table, i: nat, hand: seq<Tile>, meld: OpenMeld, id: string)
    requires SeatsFit(rules, t.seats) && i < |t.seats| && Fewer(hand, t.seats[i].hand) && meld.kind != KongMeld
    ensures var r := t.(seats := TakeDiscard(WithCall(t.seats, i, hand, meld), id));
      SeatsFit(rules, r.seats) && SameFrame(t, r)
  {
    CallFits(rules, t, i, hand, meld);
    var called := WithCall(t.seats, i, hand, meld);
    TakeKeeps(called, id);
    FitsButDiscards(rules, TakeDiscard(called, id), called);
    SameIds(t.seats, called);
    SameIds(called, TakeDiscard(called, id));
  }

  lemma SameIds(a: seq<Seat>, b: seq<Seat>)
    requires |a| == |b|
    ensures SameButDiscards(a, b) ==> forall i :: 0 <= i < |a| ==> a[i].id == b[i].id
  {
    if SameButDiscards(a, b) {
      forall i | 0 <= i < |a|
        ensures a[i].id == b[i].id
      {
        assert a[i].(discards := []) == b[i].(discards := []);
      }
    }
  }

  // The seats after laying a kong, as if no discard had been taken.
  function KongSeats(rules: Rules, seats: seq<Seat>, i: nat, tile: Tile, times: nat): seq<Seat>
    requires i < |seats|
  {
    var s := seats[i];
    seats[i := s.(hand := RemoveTimes(s.hand, tile, times),
                  melds := s.melds + [OpenMeld(KongMeld, [tile, tile, tile, tile])],
                  extra := if rules.Taihu? then AddKong(s.extra) else s.extra)]
  }

  lemma KongSeatsFit(rules: Rules, seats: seq<Seat>, i: nat, tile: Tile, times: nat)
    requires SeatsFit(rules, seats) && i < |seats|
    ensures SeatsFit(rules, KongSeats(rules, seats, i, tile, times))
  {
    var s := seats[i];
    var hand := RemoveTimes(s.hand, tile, times);
    var meld := OpenMeld(KongMeld, [tile, tile, tile, tile]);
    RemovedIsFewer(s.hand, tile, times, []);
    FitsFewer(rules, hand, s.hand);
    assert (s.melds + [meld])[..|s.melds|] == s.melds;
    assert Kongs(s.melds + [meld]) == Kongs(s.melds) + 1;
    hide Fits, RemoveTimes, Kongs;
  }

  lemma LaidSeats(rules: Rules, t: Table, i: nat, tile: Tile)
    requires i < |t.seats|
    ensures var times := if AfterDiscard(t) then 3 else 4;
      SameButDiscards(LayKong(rules, t, i, tile).seats, KongSeats(rules, t.seats, i, tile, times))
  {
    var exposed := AfterDiscard(t);
    var hand := RemoveTimes(t.seats[i].hand, tile, if exposed then 3 else 4);
    var called := WithCall(t.seats, i, hand, OpenMeld(KongMeld, [tile, tile, tile, tile]));
    hide RemoveTimes, TakeDiscard;
    if exposed {
      TakeKeeps(called, t.last.value.player);
      var taken := TakeDiscard(called, t.last.value.player);
      forall l | 0 <= l < |taken|
        ensures taken[l].(discards := []) == called[l].(discards := [])
      {
      }
    }
  }

  lemma LayKongFits(rules: Rules, t: Table, i: nat, tile: Tile)
    requires SeatsFit(rules, t.seats) && i < |t.seats|
    ensures SeatsFit(rules, LayKong(rules, t, i, tile).seats) && SameFrame(t, LayKong(rules, t, i, tile))
    ensures LayKong(rules, t, i, tile).deck == t.deck
  {
    var fit := KongSeats(rules, t.seats, i, tile, if AfterDiscard(t) then 3 else 4);
    KongSeatsFit(rules, t.seats, i, tile, if AfterDiscard(t) then 3 else 4);
    LaidSeats(rules, t, i, tile);
    hide SeatsFit, RemoveTimes, TakeDiscard;
    FitsButDiscards(rules, LayKong(rules, t, i, tile).seats, fit);
    SameIds(LayKong(rules, t, i, tile).seats, fit);
  }

  lemma WithDrawnFits(rules: Rules, t: Table, i: nat)
    requires SeatsFit(rules, t.seats) && Fits(rules, t.deck) && i < |t.seats| && t.deck != []
    ensures var r := WithDrawn(t, i, DrawOne(rules, DrawnOf(t, i)));
      SeatsFit(rules, r.seats) && Fits(rules, r.deck) && SameFrame(t, r)
  {
    DrawFits(rules, DrawnOf(t, i));
    hide Fits, DrawOne;
  }

  lemma DiscardFits(rules: Rules, t: Table, i: nat, a: Action)
    requires SeatsFit(rules, t.seats) && i < |t.seats| && a.tile.Some?
    ensures var r := ExecuteDiscard(t, i, a).value; SeatsFit(rules, r.seats) && SameFrame(t, r) && r.deck == t.deck
  {
    var hand := t.seats[i].hand;
    RemovedIsFewer(hand, a.tile.value, 0, []);
    FitsFewer(rules, RemoveOne(hand, a.tile.value), hand);
    hide Fits, RemoveOne;
  }

  lemma PongFits(rules: Rules, t: Table, i: nat)
    requires SeatsFit(rules, t.seats) && i < |t.seats| && t.last.Some? && t.last.value.tile.Some?
    ensures var r := ExecutePong(t, i).value; SeatsFit(rules, r.seats) && SameFrame(t, r) && r.deck == t.deck
  {
    var tile := t.last.value.tile.value;
    RemovedIsFewer(t.seats[i].hand, tile, 2, []);
    var meld := OpenMeld(PongMeld, [tile, tile, tile]);
    TakenCallFits(rules, t, i, RemoveTimes(t.seats[i].hand, tile, 2), meld, t.last.value.player);
  }

  lemma ChiFits(rules: Rules, t: Table, i: nat, a: Action)
    requires SeatsFit(rules, t.seats) && i < |t.seats| && ValidateChi(t, i, a).None?
    ensures var r := ExecuteChi(t, i, a).value; SeatsFit(rules, r.seats) && SameFrame(t, r) && r.deck == t.deck
  {
    hide Fits, RemoveEach, SeatsFit, Find, IsRun, Others, Fewer;
    var last := t.last.value.tile.value;
    var hand := RemoveEach(t.seats[i].hand, Others(a.tiles, last));
    RemovedIsFewer(t.seats[i].hand, last, 0, Others(a.tiles, last));
    TakenCallFits(rules, t, i, hand, OpenMeld(ChiMeld, a.tiles), t.last.value.player);
  }

  lemma KongFits(rules: Rules, t: Table, i: nat, tile: Tile)
    requires SeatsFit(rules, t.seats) && Fits(rules, t.deck) && i < |t.seats|
    ensures var r := Kong(rules, t, i, tile); SeatsFit(rules, r.seats) && SameFrame(t, r) && Fits(rules, r.deck)
  {
    LayKongFits(rules, t, i, tile);
    hide LayKong, WithDrawn, SeatsFit, Fits, DrawOne;
    if t.deck != [] {
      WithDrawnFits(rules, LayKong(rules, t, i, tile), i);
    }
  }

  lemma TingFits(t: Table, i: nat)
    requires SeatsFit(Huitong, t.seats) && i < |t.seats| && t.round == 1 && t.seats[i].extra.HuitongExtra?
    ensures var r := ExecuteTing(t, i).value; SeatsFit(Huitong, r.seats) && SameFrame(t, r) && r.deck == t.deck
  {
    hide Fits;
  }

  // Executing an accepted action keeps seats and deck fit and touches nothing else.
  lemma ExecuteFits(rules: Rules, t: Table, a: Action)
    requires Inv(rules, t) && Validate(rules, t, a).None? && Execute(rules, t, a).Ok?
    ensures var r := Execute(rules, t, a).value; SeatsFit(rules, r.seats) && Fits(rules, r.deck) && SameFrame(t, r)
  {
    InvNoFlowers(rules, t);
    var i := Find(t.seats, a.player);
    hide Fits, SeatsFit, Kong, LayKong, WithDrawn, DrawOne, RemoveOne, RemoveTimes, RemoveEach, TakeDiscard, WithCall,
      LastOnTop;
    match a.kind
    case DrawTile => WithDrawnFits(rules, t, i);
    case DiscardTile => DiscardFits(rules, t, i, a);
    case CallPong => PongFits(rules, t, i);
    case CallChi => ChiFits(rules, t, i, a);
    case CallKong => KongFits(rules, t, i, a.tile.value);
    case DeclareTing => TingFits(t, i);
    case ReplaceFlower => assert false;
    case Pass =>
  }

  lemma {:induction false} JudgedFrame(rules: Rules, t: Table, a: Action, deadline: int)
    requires |t.seats| > 0 && 0 <= t.current < |t.seats|
    ensures var r := Conclude(rules, t, a, deadline);
      r.seats == t.seats && r.deck == t.deck && r.round == t.round && r.over == t.over && r.last == Some(a) &&
      0 <= r.current < |r.seats|
  {
    hide Judge;
  }

  // Once validated, an action fails to execute exactly when it is a win or the robbing of a kong:
  // neither has a case in the execution.
  lemma ExecuteFailsIff(rules: Rules, t: Table, a: Action)
    requires Validate(rules, t, a).None?
    ensures Execute(rules, t, a).Err? <==> a.kind == CallWin || a.kind == RobKong
  {
  }

  // The invariant holds after every accepted action.
  lemma HandleKeepsInv(rules: Rules, t: Table, a: Action, deadline: int)
    requires Inv(rules, t) && Handle(rules, t, a, deadline).Ok?
    ensures Inv(rules, Handle(rules, t, a, deadline).value)
  {
    var done := Execute(rules, t, a).value;
    ExecuteFailsIff(rules, t, a);
    ExecuteFits(rules, t, a);
    JudgedFrame(rules, done, a, deadline);
    if a.kind == DiscardTile {
      DiscardOnTop(t, a);
    }
  }

  lemma DiscardOnTop(t: Table, a: Action)
    requires Find(t.seats, a.player) >= 0 && a.tile.Some? && a.kind == DiscardTile
    ensures LastOnTop(ExecuteDiscard(t, Find(t.seats, a.player), a).value.(last := Some(a)))
  {
    var i := Find(t.seats, a.player);
    FindSameIds(ExecuteDiscard(t, i, a).value.seats, t.seats, a.player);
  }

  // ---------- Runs ----------

  datatype Event = Act(action: Action, deadline: int) | Clock(now: int)

  // A refused action leaves the table as it is.
  ghost function Next(rules: Rules, t: Table, e: Event): Table {
    match e
    case Act(a, deadline) =>
      var r := Handle(rules, t, a, deadline);
      if r.Ok? then r.value else t
    case Clock(now) => Expire(t, now)
  }

  ghost function Run(rules: Rules, t: Table, events: seq<Event>): Table
    decreases |events|
  {
    if events == [] then t else Run(rules, Next(rules, t, events[0]), events[1..])
  }

  // The run up to the n-th event and then that event.
  lemma {:induction false} RunLast(rules: Rules, t: Table, events: seq<Event>, n: nat)
    requires n < |events|
    ensures Run(rules, t, events[..n + 1]) == Next(rules, Run(rules, t, events[..n]), events[n])
    decreases n
  {
    hide Next;
    if n > 0 {
      RunLast(rules, Next(rules, t, events[0]), events[1..], n - 1);
      assert events[1..][..n] == events[..n + 1][1..] && events[1..][..n - 1] == events[..n][1..];
    } else {
      assert events[..1][1..] == [] && events[..0] == [];
    }
  }

  lemma NextKeepsInv(rules: Rules, t: Table, e: Event)
    requires Inv(rules, t)
    ensures Inv(rules, Next(rules, t, e))
  {
    if e.Act? && Handle(rules, t, e.action, e.deadline).Ok? {
      HandleKeepsInv(rules, t, e.action, e.deadline);
    }
  }

  lemma {:induction false} RunKeepsInv(rules: Rules, t: Table, events: seq<Event>)
    requires Inv(rules, t)
    ensures Inv(rules, Run(rules, t, events))
    decreases |events|
  {
    if events != [] {
      NextKeepsInv(rules, t, events[0]);
      RunKeepsInv(rules, Next(rules, t, events[0]), events[1..]);
    }
  }

  // So no game ever ends: wins are always refused, and every reachable table is still in play.
  lemma NeverOver(rules: Rules, t: Table, events: seq<Event>, a: Action, deadline: int)
    requires Inv(rules, t)
    ensures !Run(rules, t, events).over
    ensures a.kind == CallWin ==> Handle(rules, t, a, deadline).Err?
  {
    RunKeepsInv(rules, t, events);
    if a.kind == CallWin && Validate(rules, t, a).None? {
      ExecuteFailsIff(rules, t, a);
    }
  }

  // ---------- Conservation over runs ----------

  lemma HandleConserves(rules: Rules, t: Table, a: Action, deadline: int, k: Tile)
    requires Inv(rules, t) && Handle(rules, t, a, deadline).Ok? && NamesTheDiscard(t, a)
    ensures InPlay(Handle(rules, t, a, deadline).value, k) == InPlay(t, k)
  {
    InvNoFlowers(rules, t);
    ExecuteConserves(rules, t, a, k);
    JudgedFrame(rules, Execute(rules, t, a).value, a, deadline) by {
      ExecuteFits(rules, t, a);
    }
  }

  // For any table with the last discard on top: tiles that flower replacement does not touch are conserved.
  lemma ExecuteConserves(rules: Rules, t: Table, a: Action, k: Tile)
    requires LastOnTop(t) && (k.suit != Flower || (NoFlowers(t) && a.kind != ReplaceFlower) || Inv(rules, t))
    requires Validate(rules, t, a).None? && Execute(rules, t, a).Ok? && NamesTheDiscard(t, a)
    ensures InPlay(Execute(rules, t, a).value, k) == InPlay(t, k)
  {
    if Inv(rules, t) {
      InvNoFlowers(rules, t);
    }
    var i := Find(t.seats, a.player);
    hide InPlay, DrawOne, AutoFlower, LayKong, RemoveOne, RemoveTimes, RemoveEach, Sort, Inv, LastOnTop, IsRun;
    match a.kind
    case DrawTile => DrawConserves(rules, t, i, k);
    case DiscardTile => DiscardConserves(t, i, a, k);
    case CallPong => PongConserves(t, i, k);
    case CallChi => ChiConserves(t, i, a, k);
    case CallKong => NamedKongConserves(rules, t, i, a, k);
    case DeclareTing => TingConserves(t, i, k);
    case ReplaceFlower => FlowerConserves(t, i, a, k);
    case Pass =>
  }

  lemma TingConserves(t: Table, i: nat, k: Tile)
    requires i < |t.seats| && t.seats[i].extra.HuitongExtra?
    ensures InPlay(ExecuteTing(t, i).value, k) == InPlay(t, k)
  {
    SeatsCountUpdate(t.seats, i, t.seats[i].(extra := HuitongExtra(true, t.round)), k);
  }

  lemma FlowerConserves(t: Table, i: nat, a: Action, k: Tile)
    requires i < |t.seats| && ValidateFlower(t, i, a).None? && Steady(t, k)
    ensures InPlay(ExecuteFlower(t, i, a).value, k) == InPlay(t, k)
  {
    if k.suit == Flower {
      assert false;
    }
    AutoFlowerCounts(DrawnOf(t, i), a.tile.value, k);
    WithDrawnCounts(t, i, AutoFlower(DrawnOf(t, i), a.tile.value), k);
  }

  lemma NamedKongConserves(rules: Rules, t: Table, i: nat, a: Action, k: Tile)
    requires i < |t.seats| && LastOnTop(t) && a.kind == CallKong && ValidateKong(t, i, a).None?
    requires NamesTheDiscard(t, a) && Steady(t, k)
    ensures InPlay(Kong(rules, t, i, a.tile.value), k) == InPlay(t, k)
  {
    KongDrawCounts(rules, t, i, a, k);
    LayKongCounts(rules, t, i, a.tile.value, k);
  }

  lemma ConcludeKeepsInPlay(rules: Rules, t: Table, a: Action, deadline: int, k: Tile)
    ensures InPlay(Conclude(rules, t, a, deadline), k) == InPlay(t, k)
  {
    hide Judge;
  }

  lemma MisnamedKongLoses(rules: Rules, t: Table, a: Action, deadline: int)
    requires Inv(rules, t) && Handle(rules, t, a, deadline).Ok? && !NamesTheDiscard(t, a)
    ensures t.last.value.tile.Some?
    ensures var lost := t.last.value.tile.value;
      InPlay(Handle(rules, t, a, deadline).value, lost) == InPlay(t, lost) - 1
  {
    InvNoFlowers(rules, t);
    var lost := t.last.value.tile.value;
    assert Handle(rules, t, a, deadline).value == Conclude(rules, Execute(rules, t, a).value, a, deadline);
    assert Execute(rules, t, a).value == Kong(rules, t, Find(t.seats, a.player), a.tile.value);
    hide Handle, InPlay, Conclude, Execute, Kong, LayKong;
    KongConservesIff(rules, t, Find(t.seats, a.player), a);
    ConcludeKeepsInPlay(rules, Execute(rules, t, a).value, a, deadline, lost);
  }

  // An accepted action of a reachable table conserves every tile if and only if an exposed kong among
  // them names the discard that it claims; otherwise that discard is lost.
  lemma ConservesIff(rules: Rules, t: Table, a: Action, deadline: int)
    requires Inv(rules, t) && Handle(rules, t, a, deadline).Ok?
    ensures (forall k :: InPlay(Handle(rules, t, a, deadline).value, k) == InPlay(t, k)) <==> NamesTheDiscard(t, a)
    ensures !NamesTheDiscard(t, a) ==>
      t.last.value.tile.Some? &&
      var lost := t.last.value.tile.value;
      InPlay(Handle(rules, t, a, deadline).value, lost) == InPlay(t, lost) - 1
  {
    hide Handle, InPlay, Inv;
    if NamesTheDiscard(t, a) {
      forall k
        ensures InPlay(Handle(rules, t, a, deadline).value, k) == InPlay(t, k)
      {
        HandleConserves(rules, t, a, deadline, k);
      }
    } else {
      MisnamedKongLoses(rules, t, a, deadline);
    }
  }

  // Every accepted exposed kong of the run names the discard it claims.
  ghost predicate KongsNamed(rules: Rules, t: Table, events: seq<Event>)
    decreases |events|
  {
    events == [] ||
    ((events[0].Act? && Handle(rules, t, events[0].action, events[0].deadline).Ok? ==>
       NamesTheDiscard(t, events[0].action))
     && KongsNamed(rules, Next(rules, t, events[0]), events[1..]))
  }

  lemma {:induction false} RunConserves(rules: Rules, t: Table, events: seq<Event>, k: Tile)
    requires Inv(rules, t) && KongsNamed(rules, t, events)
    ensures InPlay(Run(rules, t, events), k) == InPlay(t, k)
    decreases |events|
  {
    if events != [] {
      var e := events[0];
      NextKeepsInv(rules, t, e);
      if e.Act? && Handle(rules, t, e.action, e.deadline).Ok? {
        HandleConserves(rules, t, e.action, e.deadline, k);
      }
      RunConserves(rules, Next(rules, t, e), events[1..], k);
    }
  }

  // ---------- The deal ----------

  lemma {:induction false} DealtSeats(rules: Rules, ids: seq<string>, deck: seq<Tile>, n: nat)
    requires n <= |ids| && DealtFrom(|ids|) <= |deck|
    ensures forall i :: 0 <= i < n ==> DealSeats(rules, ids, deck, n)[i] == DealSeat(rules, ids, deck, i)
  {
    if n > 0 {
      DealtSeats(rules, ids, deck, n - 1);
    }
  }

  lemma DealSeatCount(rules: Rules, ids: seq<string>, deck: seq<Tile>, i: nat, k: Tile)
    requires i < |ids| && DealtFrom(|ids|) <= |deck|
    ensures SeatCount(DealSeat(rules, ids, deck, i), k) == CountIn(deck[DealtFrom(i)..DealtFrom(i + 1)], k)
  {
    CountSort(deck[DealtFrom(i)..DealtFrom(i + 1)], k);
    assert MeldCount([], k) == 0 && CountIn([], k) == 0;
  }

  lemma SeatsCountAdd(seats: seq<Seat>, s: Seat, k: Tile)
    ensures SeatsCount(seats + [s], k) == SeatsCount(seats, k) + SeatCount(s, k)
  {
    assert (seats + [s])[..|seats|] == seats;
  }

  lemma CountSlices(s: seq<Tile>, from: nat, to: nat, k: Tile)
    requires from <= to <= |s|
    ensures CountIn(s[..to], k) == CountIn(s[..from], k) + CountIn(s[from..to], k)
  {
    assert s[..to] == s[..from] + s[from..to];
  }

  lemma {:induction false} DealCounts(rules: Rules, ids: seq<string>, deck: seq<Tile>, n: nat, k: Tile)
    requires n <= |ids| && DealtFrom(|ids|) <= |deck|
    ensures DealtFrom(n) <= |deck| && SeatsCount(DealSeats(rules, ids, deck, n), k) == CountIn(deck[..DealtFrom(n)], k)
  {
    assert deck[..0] == [] && CountIn([], k) == 0 && SeatsCount([], k) == 0;
    hide SeatsCount, SeatCount, CountIn, DealSeat;
    if n > 0 {
      DealCounts(rules, ids, deck, n - 1, k);
      DealSeatCount(rules, ids, deck, n - 1, k);
      SeatsCountAdd(DealSeats(rules, ids, deck, n - 1), DealSeat(rules, ids, deck, n - 1), k);
      CountSlices(deck, DealtFrom(n - 1), DealtFrom(n), k);
    }
  }

  // The deal puts every tile of the deck into play once.
  lemma InitialCounts(rules: Rules, ids: seq<string>, deck: seq<Tile>, k: Tile)
    requires DealtFrom(|ids|) <= |deck|
    ensures InPlay(Initial(rules, ids, deck), k) == CountIn(deck, k)
  {
    var n := DealtFrom(|ids|);
    DealCounts(rules, ids, deck, |ids|, k);
    CountSlices(deck, n, |deck|, k);
    assert deck[..|deck|] == deck && deck[n..|deck|] == deck[n..];
    hide SeatsCount, CountIn, DealSeats;
  }

  lemma SliceFewer(s: seq<Tile>, from: nat, to: nat)
    requires from <= to <= |s|
    ensures Fewer(s[from..to], s)
  {
    assert s == s[..from] + s[from..to] + s[to..];
    forall k
      ensures CountIn(s[from..to], k) <= CountIn(s, k)
    {
      CountAppend(s[..from] + s[from..to], s[to..], k);
      CountAppend(s[..from], s[from..to], k);
    }
  }

  lemma {:induction false} DealFits(rules: Rules, ids: seq<string>, deck: seq<Tile>, n: nat)
    requires n <= |ids| && DealtFrom(|ids|) <= |deck| && Fits(rules, deck)
    ensures SeatsFit(rules, DealSeats(rules, ids, deck, n))
  {
    if n > 0 {
      DealFits(rules, ids, deck, n - 1);
      var from, to := DealtFrom(n - 1), DealtFrom(n);
      SliceFewer(deck, from, to);
      FitsFewer(rules, deck[from..to], deck);
      forall k
        ensures CountIn(Sort(deck[from..to]), k) == CountIn(deck[from..to], k)
      {
        CountSort(deck[from..to], k);
      }
      assert SeatFits(rules, DealSeat(rules, ids, deck, n - 1));
    }
  }

  // A fresh game satisfies the invariant.
  lemma InitialInv(rules: Rules, ids: seq<string>, deck: seq<Tile>)
    requires |ids| >= 1 && DealtFrom(|ids|) <= |deck| && Fits(rules, deck)
    ensures Inv(rules, Initial(rules, ids, deck))
  {
    DealFits(rules, ids, deck, |ids|);
    SliceFewer(deck, DealtFrom(|ids|), |deck|);
    assert deck[DealtFrom(|ids|)..|deck|] == deck[DealtFrom(|ids|)..];
    FitsFewer(rules, deck[DealtFrom(|ids|)..], deck);
  }

  // In every state of every game whose exposed kongs name the discards they claim, the table holds
  // exactly the tiles of the deck that was dealt.
  lemma GameConserves(rules: Rules, ids: seq<string>, deck: seq<Tile>, events: seq<Event>, k: Tile)
    requires |ids| >= 1 && DealtFrom(|ids|) <= |deck| && Fits(rules, deck)
    requires KongsNamed(rules, Initial(rules, ids, deck), events)
    ensures InPlay(Run(rules, Initial(rules, ids, deck), events), k) == CountIn(deck, k)
  {
    InitialInv(rules, ids, deck);
    InitialCounts(rules, ids, deck, k);
    RunConserves(rules, Initial(rules, ids, deck), events, k);
  }

  // In every Taihu game the flower counts stay zero, no flower is ever replaced, and each kong count
  // is the number of kongs that the player has laid open.
  lemma TaihuNeverFlowers(ids: seq<string>, deck: seq<Tile>, events: seq<Event>, a: Action, deadline: int)
    requires |ids| >= 1 && DealtFrom(|ids|) <= |deck| && Fits(Taihu, deck)
    ensures var t := Run(Taihu, Initial(Taihu, ids, deck), events);
      (forall i :: 0 <= i < |t.seats| ==> t.seats[i].extra == TaihuExtra(Kongs(t.seats[i].melds), 0)) &&
      (a.kind == ReplaceFlower ==> Handle(Taihu, t, a, deadline).Err?)
  {
    InitialInv(Taihu, ids, deck);
    RunKeepsInv(Taihu, Initial(Taihu, ids, deck), events);
    var t := Run(Taihu, Initial(Taihu, ids, deck), events);
    InvNoFlowers(Taihu, t);
    assert forall i :: 0 <= i < |t.seats| ==> SeatFits(Taihu, t.seats[i]);
  }

  // ---------- Tasks and calls agree ----------

  ghost predicate UniqueIds(seats: seq<Seat>) {
    forall i, j :: 0 <= i < j < |seats| ==> seats[i].id != seats[j].id
  }

  ghost predicate IsTaskOf(rules: Rules, t: Table, a: Action, deadline: int, j: nat, task: Task)
    requires j < |t.seats|
  {
    var types := Answers(rules, t, a, j);
    t.seats[j].id != a.player && types != [] &&
    task == Task(t.seats[j].id, types, a.tile, Priority(rules, types), deadline)
  }

  // The tasks are those of the other seats that can answer, and no others.
  lemma {:induction false} TasksAre(rules: Rules, t: Table, a: Action, deadline: int, n: nat, task: Task)
    requires n <= |t.seats|
    ensures task in TasksBefore(rules, t, a, deadline, n) <==>
      exists j :: 0 <= j < n && IsTaskOf(rules, t, a, deadline, j, task)
  {
    NoTasksYet(rules, t, a, deadline);
    hide TasksBefore, IsTaskOf;
    if n > 0 {
      TasksAre(rules, t, a, deadline, n - 1, task);
      OneMoreTask(rules, t, a, deadline, n, task);
    }
  }

  lemma NoTasksYet(rules: Rules, t: Table, a: Action, deadline: int)
    ensures TasksBefore(rules, t, a, deadline, 0) == []
  {
  }

  lemma OneMoreTask(rules: Rules, t: Table, a: Action, deadline: int, n: nat, task: Task)
    requires 0 < n <= |t.seats|
    ensures task in TasksBefore(rules, t, a, deadline, n) <==>
      task in TasksBefore(rules, t, a, deadline, n - 1) || IsTaskOf(rules, t, a, deadline, n - 1, task)
  {
    hide Answers, Priority;
  }

  // The priority of a list, answer by answer: a win before the robbing of a kong before a kong before a pong
  // before a chi, where the rule set has them.
  lemma PriorityIs(rules: Rules, types: seq<ActionType>)
    ensures Priority(rules, types) ==
      if CallWin in types then 100
      else if RobKong in types && rules.Huitong? then 90
      else if CallKong in types then 80
      else if CallPong in types then 70
      else if CallChi in types && rules.Taihu? then 60
      else 0
  {
    PriorityIsBest(rules, types);
    assert types == [] ==> Priority(rules, types) == 0;
    hide Priority;
    if types != [] {
      var best :| best in types && Rank(rules, best) == Priority(rules, types);
    }
  }

  // The priority of a task is the rank of the best answer that it offers.
  lemma {:induction false} PriorityIsBest(rules: Rules, types: seq<ActionType>)
    ensures forall kind :: kind in types ==> Rank(rules, kind) <= Priority(rules, types)
    ensures types != [] ==> exists kind :: kind in types && Rank(rules, kind) == Priority(rules, types)
    ensures Priority(rules, types) == 100 <==> CallWin in types
  {
    Ranks(rules);
    hide Rank;
    if types != [] {
      var before, last := types[..|types| - 1], types[|types| - 1];
      PriorityIsBest(rules, before);
      forall kind
        ensures kind in types <==> kind in before || kind == last
      {
        assert types == before + [last];
      }
      if Priority(rules, types) == Priority(rules, before) && before != [] {
        var best :| best in before && Rank(rules, best) == Priority(rules, before);
        assert best in types;
      } else {
        assert last in types && Rank(rules, last) == Priority(rules, types);
      }
    }
  }

  lemma Ranks(rules: Rules)
    ensures forall kind :: 0 <= Rank(rules, kind) <= 100 && (Rank(rules, kind) == 100 <==> kind == CallWin)
  {
  }

  // Some task offers the player this answer.
  ghost predicate Offered(tasks: seq<Task>, player: string, kind: ActionType) {
    exists task :: task in tasks && task.player == player && kind in task.types
  }

  lemma OfferedIff(rules: Rules, t: Table, a: Action, deadline: int, j: nat, kind: ActionType)
    requires j < |t.seats| && UniqueIds(t.seats) && t.seats[j].id != a.player
    requires a.kind == DiscardTile || a.kind == CallKong
    ensures Offered(Judge(rules, t, a, deadline), t.seats[j].id, kind) <==> kind in Answers(rules, t, a, j)
  {
    var tasks := TasksBefore(rules, t, a, deadline, |t.seats|);
    var types := Answers(rules, t, a, j);
    hide Answers, TasksBefore, Priority, Find;
    if kind in types {
      var task := Task(t.seats[j].id, types, a.tile, Priority(rules, types), deadline);
      assert IsTaskOf(rules, t, a, deadline, j, task);
      TasksAre(rules, t, a, deadline, |t.seats|, task);
    }
    forall task | task in tasks && task.player == t.seats[j].id
      ensures task.types == types
    {
      TasksAre(rules, t, a, deadline, |t.seats|, task);
      TaskOfPlayer(rules, t, a, deadline, j, task);
    }
  }

  // What a player with the hand may answer to a discard or kong of the tile, next after the actor or not.
  ghost predicate MayAnswer(rules: Rules, hand: seq<Tile>, tile: Tile, discard: bool, next: bool, kind: ActionType) {
    match kind
    case CallWin => Wins(multiset(hand + [tile]))
    case CallKong => discard && CountIn(hand, tile) >= 3
    case CallPong => discard && CountIn(hand, tile) >= 2
    case CallChi => rules.Taihu? && discard && next && CanChi(hand, tile)
    case RobKong => rules.Huitong? && !discard && Wins(multiset(hand + [tile]))
    case _ => false
  }

  // Every offer: after a discard or kong of a tile another player is offered exactly the answers that the
  // hand allows, among them a win exactly when hand and tile win, and robbing exactly a Huitong kong.
  lemma OffersAre(rules: Rules, t: Table, a: Action, deadline: int, j: nat, kind: ActionType)
    requires j < |t.seats| && UniqueIds(t.seats) && t.seats[j].id != a.player && a.tile.Some?
    requires a.kind == DiscardTile || a.kind == CallKong
    ensures var next := (Find(t.seats, a.player) + 1) % |t.seats| == j;
      Offered(Judge(rules, t, a, deadline), t.seats[j].id, kind) <==>
        MayAnswer(rules, t.seats[j].hand, a.tile.value, a.kind == DiscardTile, next, kind)
  {
    AnswersHold(rules, t, a, j);
    hide Judge, Answers, Find, MayAnswer;
    OfferedIff(rules, t, a, deadline, j, kind);
  }

  // Nobody is offered anything after other actions or without a tile, and nobody ever to the own action;
  // every task carries the tile, the time limit and the rank of its best answer.
  lemma TasksCarry(rules: Rules, t: Table, a: Action, deadline: int, task: Task)
    requires task in Judge(rules, t, a, deadline)
    ensures (a.kind == DiscardTile || a.kind == CallKong) && a.tile.Some?
    ensures task.player != a.player && task.types != [] && task.tile == a.tile && task.timeout == deadline
    ensures task.priority == Priority(rules, task.types)
  {
    TasksAre(rules, t, a, deadline, |t.seats|, task);
    hide TasksBefore, Priority;
  }

  lemma TaskOfPlayer(rules: Rules, t: Table, a: Action, deadline: int, j: nat, task: Task)
    requires j < |t.seats| && UniqueIds(t.seats) && task.player == t.seats[j].id
    requires exists l :: 0 <= l < |t.seats| && IsTaskOf(rules, t, a, deadline, l, task)
    ensures IsTaskOf(rules, t, a, deadline, j, task)
  {
    var l :| 0 <= l < |t.seats| && IsTaskOf(rules, t, a, deadline, l, task);
    hide Answers, Priority;
    assert l == j;
  }

  // Some action of this kind by the player would be accepted.
  ghost predicate Acceptable(rules: Rules, t: Table, player: string, kind: ActionType) {
    exists b: Action :: b.kind == kind && b.player == player && Validate(rules, t, b).None?
  }

  // After an accepted discard every other player is offered a pong, kong or chi exactly when some
  // such call of theirs would be accepted in the resulting state.
  lemma OfferedIffAcceptable(rules: Rules, t: Table, a: Action, deadline: int, j: nat, kind: ActionType)
    requires Inv(rules, t) && UniqueIds(t.seats) && Handle(rules, t, a, deadline).Ok? && a.kind == DiscardTile
    requires j < |t.seats| && t.seats[j].id != a.player
    requires kind == CallPong || kind == CallKong || kind == CallChi
    ensures Offered(Judge(rules, Execute(rules, t, a).value, a, deadline), t.seats[j].id, kind) <==>
      Acceptable(rules, Handle(rules, t, a, deadline).value, t.seats[j].id, kind)
  {
    var done := Execute(rules, t, a).value;
    var r := Handle(rules, t, a, deadline).value;
    ExecuteFits(rules, t, a);
    JudgedFrame(rules, done, a, deadline);
    HandleKeepsInv(rules, t, a, deadline);
    assert CountIn(t.seats[Find(t.seats, a.player)].hand, a.tile.value) > 0;
    assert InDeck(rules, a.tile.value);
    assert SeatFits(rules, r.seats[j]);
    hide Execute, Handle, Judge, Answers, Acceptable, Inv, SeatsFit, Find, CountIn, InDeck;
    OfferedIff(rules, done, a, deadline, j, kind);
    UniqueFind(r.seats, j);
    AnswersIff(rules, done, r, a, j, kind);
  }

  // ---------- The offers on the table ----------

  predicate ClaimsDiscard(kind: ActionType) {
    kind == CallPong || kind == CallKong || kind == CallChi
  }

  // The open offers of the table name the calls that would be accepted from players other than this one.
  ghost predicate OffersAgree(rules: Rules, t: Table, thrower: string) {
    forall j, kind :: 0 <= j < |t.seats| && t.seats[j].id != thrower && ClaimsDiscard(kind) ==>
      (Offered(t.pending, t.seats[j].id, kind) <==> Acceptable(rules, t, t.seats[j].id, kind))
  }

  // Some open offer names such a call at all.
  ghost predicate OffersCall(t: Table, thrower: string) {
    exists j, kind :: 0 <= j < |t.seats| && t.seats[j].id != thrower && ClaimsDiscard(kind) &&
      Offered(t.pending, t.seats[j].id, kind)
  }

  // New offers replace the old ones, but when there are none the old ones stay open. So after an accepted
  // discard the table's open offers agree with the calls that would be accepted if and only if the discard
  // brings new offers or no old one names a call.
  lemma PendingAgreesIff(rules: Rules, t: Table, a: Action, deadline: int)
    requires Inv(rules, t) && UniqueIds(t.seats) && Handle(rules, t, a, deadline).Ok? && a.kind == DiscardTile
    ensures OffersAgree(rules, Handle(rules, t, a, deadline).value, a.player) <==>
      Judge(rules, Execute(rules, t, a).value, a, deadline) != [] || !OffersCall(t, a.player)
  {
    var r, tasks := Handle(rules, t, a, deadline).value, Judge(rules, Execute(rules, t, a).value, a, deadline);
    PendingAfterDiscard(rules, t, a, deadline);
    forall j, kind | 0 <= j < |t.seats| && t.seats[j].id != a.player && ClaimsDiscard(kind)
      ensures Offered(tasks, t.seats[j].id, kind) <==> Acceptable(rules, r, t.seats[j].id, kind)
    {
      OfferedIffAcceptable(rules, t, a, deadline, j, kind);
    }
    hide Handle, Execute, Judge, Acceptable, Inv, Offered, OffersAgree, OffersCall;
    NothingOffered();
    AgreeIff(rules, t, r, tasks, a.player);
  }

  lemma NothingOffered()
    ensures forall player, kind :: !Offered([], player, kind)
  {
  }

  lemma AgreeIff(rules: Rules, t: Table, r: Table, tasks: seq<Task>, thrower: string)
    requires |r.seats| == |t.seats| && forall j :: 0 <= j < |t.seats| ==> r.seats[j].id == t.seats[j].id
    requires r.pending == if tasks == [] then t.pending else tasks
    requires forall j, kind :: 0 <= j < |t.seats| && t.seats[j].id != thrower && ClaimsDiscard(kind) ==>
      (Offered(tasks, t.seats[j].id, kind) <==> Acceptable(rules, r, t.seats[j].id, kind))
    requires forall player, kind :: !Offered([], player, kind)
    ensures OffersAgree(rules, r, thrower) <==> tasks != [] || !OffersCall(t, thrower)
  {
    hide Acceptable, Offered, ClaimsDiscard;
  }

  lemma PendingAfterDiscard(rules: Rules, t: Table, a: Action, deadline: int)
    requires Inv(rules, t) && Handle(rules, t, a, deadline).Ok? && a.kind == DiscardTile
    ensures var r, tasks := Handle(rules, t, a, deadline).value, Judge(rules, Execute(rules, t, a).value, a, deadline);
      && |r.seats| == |t.seats| && (forall j :: 0 <= j < |t.seats| ==> r.seats[j].id == t.seats[j].id)
      && r.pending == (if tasks == [] then t.pending else tasks)
      && r.current == if tasks == [] then (t.current + 1) % |t.seats| else t.current
  {
    ExecuteFits(rules, t, a);
    hide Judge, Execute, Validate;
  }

  lemma UniqueFind(seats: seq<Seat>, j: nat)
    requires j < |seats| && UniqueIds(seats)
    ensures Find(seats, seats[j].id) == j
  {
  }

  lemma AnswersHold(rules: Rules, t: Table, a: Action, j: nat)
    requires j < |t.seats| && a.tile.Some? && (a.kind == DiscardTile || a.kind == CallKong)
    ensures var next := (Find(t.seats, a.player) + 1) % |t.seats| == j;
      forall kind :: kind in Answers(rules, t, a, j) <==>
        MayAnswer(rules, t.seats[j].hand, a.tile.value, a.kind == DiscardTile, next, kind)
  {
    hide CountIn, CanChi, Wins, Find;
    var tile, hand, discard := a.tile.value, t.seats[j].hand, a.kind == DiscardTile;
    var wins, next := Wins(multiset(hand + [tile])), (Find(t.seats, a.player) + 1) % |t.seats| == j;
    var kong, pong := discard && CountIn(hand, tile) >= 3, discard && CountIn(hand, tile) >= 2;
    var rob, chi := a.kind == CallKong && wins, discard && next && CanChi(hand, tile);
    assert Answers(rules, t, a, j) ==
      if rules.Huitong? then AllListed(wins, kong, pong, rob, RobKong) else AllListed(wins, kong, pong, chi, CallChi);
    hide Answers, MayAnswer;
    AllListedMembers(wins, kong, pong, rob, RobKong);
    AllListedMembers(wins, kong, pong, chi, CallChi);
    hide AllListed;
    forall kind
      ensures MayAnswer(rules, hand, tile, discard, next, kind) <==>
        (wins && kind == CallWin) || (kong && kind == CallKong) || (pong && kind == CallPong) ||
        (rules.Huitong? && rob && kind == RobKong) || (rules.Taihu? && chi && kind == CallChi)
    {
      MayAnswerIs(rules, hand, tile, discard, next, kind);
    }
  }

  lemma MayAnswerIs(rules: Rules, hand: seq<Tile>, tile: Tile, discard: bool, next: bool, kind: ActionType)
    ensures var wins := Wins(multiset(hand + [tile]));
      MayAnswer(rules, hand, tile, discard, next, kind) <==>
        || (wins && kind == CallWin)
        || (discard && CountIn(hand, tile) >= 3 && kind == CallKong)
        || (discard && CountIn(hand, tile) >= 2 && kind == CallPong)
        || (rules.Huitong? && !discard && wins && kind == RobKong)
        || (rules.Taihu? && discard && next && CanChi(hand, tile) && kind == CallChi)
  {
    hide CountIn, CanChi, Wins;
  }

  // The answers in the order in which they are appended; the rule sets differ in the last one.
  function AllListed(wins: bool, kong: bool, pong: bool, b: bool, last: ActionType): seq<ActionType> {
    ListIf(ListIf(ListIf(ListIf([], wins, CallWin), kong, CallKong), pong, CallPong), b, last)
  }

  lemma AllListedMembers(wins: bool, kong: bool, pong: bool, b: bool, last: ActionType)
    ensures forall kind :: kind in AllListed(wins, kong, pong, b, last) <==>
      (wins && kind == CallWin) || (kong && kind == CallKong) || (pong && kind == CallPong) || (b && kind == last)
  {
    var winning := ListIf([], wins, CallWin);
    var konging := ListIf(winning, kong, CallKong);
    ListIfMembers([], wins, CallWin);
    ListIfMembers(winning, kong, CallKong);
    ListIfMembers(konging, pong, CallPong);
    ListIfMembers(ListIf(konging, pong, CallPong), b, last);
    hide ListIf;
  }

  lemma ListIfMembers(types: seq<ActionType>, b: bool, kind: ActionType)
    ensures forall k :: k in ListIf(types, b, kind) <==> k in types || (b && k == kind)
  {
  }

  lemma AnswersIff(rules: Rules, done: Table, r: Table, a: Action, j: nat, kind: ActionType)
    requires r.seats == done.seats && r.last == Some(a) && a.kind == DiscardTile && a.tile.Some?
    requires j < |r.seats| && Find(r.seats, r.seats[j].id) == j
    requires SeatFits(rules, r.seats[j]) && InDeck(rules, a.tile.value)
    requires kind == CallPong || kind == CallKong || kind == CallChi
    ensures kind in Answers(rules, done, a, j) <==> Acceptable(rules, r, r.seats[j].id, kind)
  {
    AnswersHold(rules, done, a, j);
    var id, hand, tile := r.seats[j].id, r.seats[j].hand, a.tile.value;
    if rules.Taihu? && (Find(r.seats, a.player) + 1) % |r.seats| == j {
      ChiIff(rules, r, a, j);
    }
    hide Answers, CanChi, CountIn, InDeck, SeatFits, IsRun, Find, Acceptable;
    match kind
    case CallPong => PongIff(rules, r, j);
    case CallKong => KongIff(rules, r, j);
    case CallChi =>
      if !(rules.Taihu? && (Find(r.seats, a.player) + 1) % |r.seats| == j) {
        ChiNeedsTurn(rules, r, a, j);
      }
  }

  lemma PongIff(rules: Rules, r: Table, j: nat)
    requires AfterDiscard(r) && r.last.value.tile.Some? && j < |r.seats| && Find(r.seats, r.seats[j].id) == j
    ensures Acceptable(rules, r, r.seats[j].id, CallPong) <==> CountIn(r.seats[j].hand, r.last.value.tile.value) >= 2
  {
    hide Find, CountIn;
    var b := Action(CallPong, r.seats[j].id, None, []);
    assert Validate(rules, r, b).None? <==> CountIn(r.seats[j].hand, r.last.value.tile.value) >= 2;
  }

  lemma KongIff(rules: Rules, r: Table, j: nat)
    requires AfterDiscard(r) && r.last.value.tile.Some? && j < |r.seats| && Find(r.seats, r.seats[j].id) == j
    ensures Acceptable(rules, r, r.seats[j].id, CallKong) <==> CountIn(r.seats[j].hand, r.last.value.tile.value) >= 3
  {
    hide Find, CountIn;
    var b := Action(CallKong, r.seats[j].id, r.last.value.tile, []);
    assert Validate(rules, r, b).None? <==> CountIn(r.seats[j].hand, r.last.value.tile.value) >= 3;
  }

  lemma ChiNeedsTurn(rules: Rules, r: Table, a: Action, j: nat)
    requires r.last == Some(a) && a.kind == DiscardTile && a.tile.Some?
    requires j < |r.seats| && Find(r.seats, r.seats[j].id) == j
    requires rules.Huitong? || (Find(r.seats, a.player) + 1) % |r.seats| != j
    ensures !Acceptable(rules, r, r.seats[j].id, CallChi)
  {
    hide Find, IsRun, Others;
  }

  // What makes an accepted chi once the turn is right.
  ghost predicate FormsRun(hand: seq<Tile>, tile: Tile, tiles: seq<Tile>) {
    tile.suit < Wind && |tiles| == 3 && tile in tiles && IsRun(tiles) && multiset(Others(tiles, tile)) <= multiset(hand)
  }

  lemma ChiAccepted(r: Table, a: Action, j: nat, b: Action)
    requires r.last == Some(a) && a.kind == DiscardTile && a.tile.Some?
    requires j < |r.seats| && Find(r.seats, r.seats[j].id) == j && (Find(r.seats, a.player) + 1) % |r.seats| == j
    requires b.kind == CallChi && b.player == r.seats[j].id
    ensures Validate(Taihu, r, b).None? <==> FormsRun(r.seats[j].hand, a.tile.value, b.tiles)
  {
    hide IsRun, Others;
  }

  // The three windows find a run exactly when one can be called.
  lemma ChiIff(rules: Rules, r: Table, a: Action, j: nat)
    requires rules.Taihu? && r.last == Some(a) && a.kind == DiscardTile && a.tile.Some?
    requires j < |r.seats| && Find(r.seats, r.seats[j].id) == j && (Find(r.seats, a.player) + 1) % |r.seats| == j
    requires SeatFits(rules, r.seats[j]) && InDeck(rules, a.tile.value)
    ensures CanChi(r.seats[j].hand, a.tile.value) <==> Acceptable(rules, r, r.seats[j].id, CallChi)
  {
    var id, hand, tile := r.seats[j].id, r.seats[j].hand, a.tile.value;
    assert Fits(rules, hand);
    hide IsRun, CanChi, Find, Validate, Others, Fits, InDeck;
    if CanChi(hand, tile) {
      CanChiSuited(hand, tile);
      var tiles := WindowFor(hand, tile);
      var b := Action(CallChi, id, None, tiles);
      ChiAccepted(r, a, j, b);
      assert Validate(rules, r, b).None?;
    }
    forall b: Action | b.kind == CallChi && b.player == id && Validate(rules, r, b).None?
      ensures CanChi(hand, tile)
    {
      ChiAccepted(r, a, j, b);
      RunNeedsWindow(rules, hand, tile, b.tiles);
    }
  }

  lemma CanChiSuited(hand: seq<Tile>, t: Tile)
    ensures CanChi(hand, t) ==> t.suit < Wind
  {
  }

  // What a run around t needs besides t.
  ghost predicate RestInHand(first: Tile, t: Tile, hand: seq<Tile>)
    requires RunStart(first)
  {
    t in RunFrom(first) && forall k :: k in RunFrom(first) && k != t ==> k in hand
  }

  lemma RunMembers(tiles: seq<Tile>, first: Tile)
    requires RunStart(first) && multiset(tiles) == multiset(RunFrom(first))
    ensures forall k :: k in tiles <==> k in RunFrom(first)
    ensures forall k :: CountIn(tiles, k) <= 1
  {
    forall k
      ensures k in tiles <==> k in RunFrom(first)
    {
      assert k in tiles <==> k in multiset(tiles);
      assert k in RunFrom(first) <==> k in multiset(RunFrom(first));
    }
  }

  // Since the tiles of a run differ, containment with multiplicity is containment.
  lemma RestIff(tiles: seq<Tile>, first: Tile, t: Tile, hand: seq<Tile>)
    requires RunStart(first) && multiset(tiles) == multiset(RunFrom(first)) && t in tiles
    ensures multiset(Others(tiles, t)) <= multiset(hand) <==> RestInHand(first, t, hand)
  {
    RunMembers(tiles, first);
    forall k: Tile
      ensures CountIn(Others(tiles, t), k) == if k == t then 0 else CountIn(tiles, k)
    {
      CountOthers(tiles, t, k);
    }
    hide Others, RunFrom;
    if multiset(Others(tiles, t)) <= multiset(hand) {
      forall k | k in tiles && k != t
        ensures k in hand
      {
        assert CountIn(tiles, k) > 0;
        assert CountIn(Others(tiles, t), k) <= CountIn(hand, k);
      }
    }
    if RestInHand(first, t, hand) {
      forall k
        ensures multiset(Others(tiles, t))[k] <= multiset(hand)[k]
      {
        assert CountIn(Others(tiles, t), k) <= CountIn(tiles, k) <= 1;
        if CountIn(Others(tiles, t), k) > 0 {
          assert k in tiles;
        }
      }
    }
  }

  lemma WindowIsRun(hand: seq<Tile>, t: Tile)
    requires CanChi(hand, t)
    ensures exists first: Tile :: RunStart(first) && RestInHand(first, t, hand)
  {
    if t.value >= 3 && Tile(t.suit, t.value - 2) in hand && Tile(t.suit, t.value - 1) in hand {
      assert RestInHand(Tile(t.suit, t.value - 2), t, hand);
    } else if 2 <= t.value <= 8 && Tile(t.suit, t.value - 1) in hand && Tile(t.suit, t.value + 1) in hand {
      assert RestInHand(Tile(t.suit, t.value - 1), t, hand);
    } else {
      assert RestInHand(t, t, hand);
    }
  }

  lemma RunIsWindow(first: Tile, hand: seq<Tile>, t: Tile)
    requires RunStart(first) && 1 <= first.value <= 7 && RestInHand(first, t, hand)
    ensures CanChi(hand, t)
  {
    var run := RunFrom(first);
    assert run[0] in run && run[1] in run && run[2] in run;
    assert t == run[0] || t == run[1] || t == run[2];
  }

  // The windows of canChi are the runs around t that start at a value of at least 1 and at most 7.
  lemma WindowsAre(hand: seq<Tile>, t: Tile)
    requires t.suit < Wind
    ensures CanChi(hand, t) ==> exists first: Tile :: RunStart(first) && RestInHand(first, t, hand)
    ensures (exists first: Tile :: RunStart(first) && 1 <= first.value <= 7 && RestInHand(first, t, hand)) ==>
      CanChi(hand, t)
  {
    hide RestInHand, CanChi;
    if CanChi(hand, t) {
      WindowIsRun(hand, t);
    }
    if first: Tile :| RunStart(first) && 1 <= first.value <= 7 && RestInHand(first, t, hand) {
      RunIsWindow(first, hand, t);
    }
  }

  // The run that canChi found.
  lemma WindowFor(hand: seq<Tile>, t: Tile) returns (tiles: seq<Tile>)
    requires CanChi(hand, t)
    ensures |tiles| == 3 && t in tiles && IsRun(tiles) && multiset(Others(tiles, t)) <= multiset(hand)
  {
    WindowsAre(hand, t);
    var first: Tile :| RunStart(first) && RestInHand(first, t, hand);
    tiles := RunFrom(first);
    RestIff(tiles, first, t, hand);
  }

  lemma InHandInDeck(rules: Rules, hand: seq<Tile>, t: Tile, k: Tile)
    requires Fits(rules, hand) && InDeck(rules, t)
    ensures k == t || k in hand ==> InDeck(rules, k)
  {
    if k in hand {
      assert k in multiset(hand);
      assert CountIn(hand, k) > 0;
    }
  }

  // Conversely, with tiles of the deck only, an accepted run lies in one of the three windows.
  lemma RunNeedsWindow(rules: Rules, hand: seq<Tile>, t: Tile, tiles: seq<Tile>)
    requires Fits(rules, hand) && InDeck(rules, t) && t.suit < Wind && t in tiles && IsRun(tiles)
    requires multiset(Others(tiles, t)) <= multiset(hand)
    ensures CanChi(hand, t)
  {
    var first: Tile :| RunStart(first) && multiset(tiles) == multiset(RunFrom(first));
    RestIff(tiles, first, t, hand);
    assert RunFrom(first)[0] in RunFrom(first) && RunFrom(first)[2] in RunFrom(first);
    InHandInDeck(rules, hand, t, RunFrom(first)[0]);
    InHandInDeck(rules, hand, t, RunFrom(first)[2]);
    assert 1 <= first.value <= 7;
    WindowsAre(hand, t);
  }
}
