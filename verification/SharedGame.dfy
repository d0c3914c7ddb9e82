// Whole games on the slices that the dealer hands out. As long as every draw finds room behind the
// hand, the game on slices of one array is the game of module Game, in which each hand has storage of
// its own; so the theorems about that game hold for it, with the room as an explicit hypothesis.
module SharedGame {
  import opened Tiles
  import opened Options
  import opened Game
  import opened GameProofs
  import opened GameRuns
  import opened SharedStorage

  // The slices, and the rest of the table; the hands and the deck in rest play no part.
  datatype Shared = Shared(rest: Table, dealt: Dealt)

  predicate Fitting(s: Shared) {
    Placed(s.dealt) && |s.rest.seats| == |s.dealt.hands|
  }

  // The hands have no place in common.
  ghost predicate Valid(s: Shared) {
    Fitting(s) && Separate(s.dealt)
  }

  function SeenSeats(seats: seq<Seat>, d: Dealt): (r: seq<Seat>)
    requires Placed(d) && |seats| == |d.hands|
    ensures |r| == |seats|
  {
    seq(|seats|, i requires 0 <= i < |seats| => seats[i].(hand := HandAt(d, i)))
  }

  // The table as the players see it.
  function Seen(s: Shared): Table
    requires Fitting(s)
  {
    s.rest.(seats := SeenSeats(s.rest.seats, s.dealt), deck := s.dealt.store[s.dealt.deck..])
  }

  // ---------- Execution on slices ----------

  function TakeTimes(d: Dealt, i: nat, t: Tile, times: nat): (r: Dealt)
    requires Placed(d) && i < |d.hands|
    ensures Placed(r) && |r.hands| == |d.hands| && |r.store| == |d.store| && r.deck == d.deck
    decreases times
  {
    RemoveKeepsSizes(d, i, t);
    if times == 0 then d else TakeTimes(RemoveInPlace(d, i, t), i, t, times - 1)
  }

  function TakeEach(d: Dealt, i: nat, tiles: seq<Tile>): (r: Dealt)
    requires Placed(d) && i < |d.hands|
    ensures Placed(r) && |r.hands| == |d.hands| && |r.store| == |d.store| && r.deck == d.deck
    decreases |tiles|
  {
    RemoveKeepsSizes(d, i, if tiles == [] then Tile(0, 0) else tiles[0]);
    if tiles == [] then d else TakeEach(RemoveInPlace(d, i, tiles[0]), i, tiles[1..])
  }

  lemma RemoveKeepsSizes(d: Dealt, i: nat, t: Tile)
    requires Placed(d) && i < |d.hands|
    ensures var r := RemoveInPlace(d, i, t); |r.hands| == |d.hands| && |r.store| == |d.store| && r.deck == d.deck
  {
    RemoveOneProperties(HandAt(d, i), t);
    WithHandAt(d, i, RemoveOne(HandAt(d, i), t), d.deck);
  }

  lemma DrawKeepsSizes(d: Dealt, i: nat)
    requires Placed(d) && i < |d.hands| && d.deck < |d.store|
    ensures var r := DrawInPlace(d, i); |r.hands| == |d.hands| && |r.store| == |d.store| && r.deck == d.deck + 1
  {
    hide DrawInPlace, Sort, HandAt;
    DrawAt(d, i);
  }

  datatype Hand = Hand(dealt: Dealt, extra: Extra)

  // Drawing, with the replacement of flowers under Taihu.
  function DrawShared(rules: Rules, h: Hand, i: nat): (r: Hand)
    requires Placed(h.dealt) && i < |h.dealt.hands| && h.dealt.deck < |h.dealt.store|
    ensures Placed(r.dealt) && |r.dealt.hands| == |h.dealt.hands|
    decreases |h.dealt.store| - h.dealt.deck, 0
  {
    var tile := h.dealt.store[h.dealt.deck];
    DrawKeepsSizes(h.dealt, i);
    var drawn := Hand(DrawInPlace(h.dealt, i), h.extra);
    if rules.Taihu? && tile.suit == Flower then FlowerShared(drawn, i, tile) else drawn
  }

  function FlowerShared(h: Hand, i: nat, flower: Tile): (r: Hand)
    requires Placed(h.dealt) && i < |h.dealt.hands|
    ensures Placed(r.dealt) && |r.dealt.hands| == |h.dealt.hands|
    decreases |h.dealt.store| - h.dealt.deck, 1
  {
    RemoveKeepsSizes(h.dealt, i, flower);
    var without := Hand(RemoveInPlace(h.dealt, i, flower), AddFlower(h.extra));
    if h.dealt.deck == |h.dealt.store| then without else DrawShared(Taihu, without, i)
  }

  function WithExtra(seats: seq<Seat>, i: nat, extra: Extra): (r: seq<Seat>)
    requires i < |seats|
    ensures |r| == |seats|
  {
    seats[i := seats[i].(extra := extra)]
  }

  function WithDraw(s: Shared, i: nat, h: Hand): (r: Shared)
    requires i < |s.rest.seats|
    ensures r.dealt == h.dealt && |r.rest.seats| == |s.rest.seats|
  {
    Shared(s.rest.(seats := WithExtra(s.rest.seats, i, h.extra)), h.dealt)
  }

  function HandOf(s: Shared, i: nat): Hand
    requires i < |s.rest.seats|
  {
    Hand(s.dealt, s.rest.seats[i].extra)
  }

  // A call's tiles have left the hand; the meld is laid open, and the claimed discard taken if there is one.
  function Called(s: Shared, i: nat, d: Dealt, meld: OpenMeld, claimed: Option<string>): (r: Shared)
    requires i < |s.rest.seats|
    ensures r.dealt == d && |r.rest.seats| == |s.rest.seats|
  {
    var called := WithCall(s.rest.seats, i, s.rest.seats[i].hand, meld);
    Shared(s.rest.(seats := if claimed.Some? then TakeDiscard(called, claimed.value) else called), d)
  }

  function KongShared(rules: Rules, s: Shared, i: nat, tile: Tile): (r: Shared)
    requires Fitting(s) && i < |s.rest.seats|
    ensures Fitting(r)
  {
    var exposed := AfterDiscard(s.rest);
    var taken := TakeTimes(s.dealt, i, tile, if exposed then 3 else 4);
    var meld := OpenMeld(KongMeld, [tile, tile, tile, tile]);
    var called := Called(s, i, taken, meld, if exposed then Some(s.rest.last.value.player) else None);
    var counted :=
      if rules.Taihu? then WithDraw(called, i, Hand(taken, AddKong(called.rest.seats[i].extra))) else called;
    if taken.deck == |taken.store| then counted else WithDraw(counted, i, DrawShared(rules, HandOf(counted, i), i))
  }

  // ExecuteAction on slices.
  function ExecuteShared(rules: Rules, s: Shared, a: Action): (r: Result<Shared, GameError>)
    requires Fitting(s)
    ensures r.Ok? ==> Fitting(r.value)
  {
    var i := Find(s.rest.seats, a.player);
    var last := s.rest.last;
    if i < 0 then Err(NoSuchPlayer)
    else match a.kind
      case DrawTile =>
        if s.dealt.deck == |s.dealt.store| then Err(DeckEmpty)
        else Ok(WithDraw(s, i, DrawShared(rules, HandOf(s, i), i)))
      case DiscardTile =>
        if a.tile.None? then Err(NoTileGiven)
        else
          var seat := s.rest.seats[i];
          Ok(Shared(s.rest.(seats := s.rest.seats[i := seat.(discards := seat.discards + [a.tile.value])]),
                    RemoveInPlace(s.dealt, i, a.tile.value)))
      case CallPong =>
        if last.None? || last.value.tile.None? then Err(NothingToClaim)
        else
          var tile := last.value.tile.value;
          var meld := OpenMeld(PongMeld, [tile, tile, tile]);
          Ok(Called(s, i, TakeTimes(s.dealt, i, tile, 2), meld, Some(last.value.player)))
      case CallChi =>
        if rules.Huitong? then Err(Unsupported)
        else if last.None? || last.value.tile.None? then Err(NothingToClaim)
        else
          var others := Others(a.tiles, last.value.tile.value);
          Ok(Called(s, i, TakeEach(s.dealt, i, others), OpenMeld(ChiMeld, a.tiles), Some(last.value.player)))
      case CallKong => if a.tile.None? then Err(NoTileGiven) else Ok(KongShared(rules, s, i, a.tile.value))
      case DeclareTing =>
        if rules.Taihu? then Err(Unsupported)
        else if !s.rest.seats[i].extra.HuitongExtra? then Err(WrongState)
        else Ok(s.(rest := s.rest.(seats := WithExtra(s.rest.seats, i, HuitongExtra(true, s.rest.round)))))
      case ReplaceFlower =>
        if rules.Huitong? then Err(Unsupported)
        else if a.tile.None? then Err(NoTileGiven)
        else Ok(WithDraw(s, i, FlowerShared(HandOf(s, i), i, a.tile.value)))
      case Pass => Ok(s)
      case CallWin => Err(Unsupported)
      case RobKong => Err(Unsupported)
      case OtherAction => Err(Unsupported)
  }

  // ---------- The same game as long as there is room ----------

  // Hand i of r has the tiles, all other hands are as in s, and the deck of r is deck.
  ghost predicate Refines(s: Dealt, r: Dealt, i: nat, hand: seq<Tile>, deck: seq<Tile>) {
    Separate(s) && i < |s.hands| && OthersKept(s, r, i) && HandAt(r, i) == hand && r.store[r.deck..] == deck
  }

  lemma RefinesTrans(s: Dealt, m: Dealt, r: Dealt, i: nat, hand: seq<Tile>, deck: seq<Tile>,
                     before: seq<Tile>, rest: seq<Tile>)
    requires Refines(s, m, i, before, rest) && Refines(m, r, i, hand, deck)
    ensures Refines(s, r, i, hand, deck)
  {
  }

  lemma RefinesSelf(s: Dealt, i: nat)
    requires Separate(s) && i < |s.hands|
    ensures Refines(s, s, i, HandAt(s, i), s.store[s.deck..])
  {
  }

  lemma {:induction false} TakeTimesRefines(d: Dealt, i: nat, t: Tile, times: nat)
    requires Separate(d) && i < |d.hands|
    ensures Refines(d, TakeTimes(d, i, t, times), i, RemoveTimes(HandAt(d, i), t, times), d.store[d.deck..])
    decreases times
  {
    if times == 0 {
      RefinesSelf(d, i);
    } else {
      RemoveKeepsOthers(d, i, t);
      var m, r := RemoveInPlace(d, i, t), TakeTimes(d, i, t, times);
      TakeTimesRefines(m, i, t, times - 1);
      hide RemoveInPlace, OthersKept, RemoveOne, Separate;
      RefinesTrans(d, m, r, i, HandAt(r, i), d.store[d.deck..], HandAt(m, i), d.store[d.deck..]);
    }
  }

  lemma {:induction false} TakeEachRefines(d: Dealt, i: nat, tiles: seq<Tile>)
    requires Separate(d) && i < |d.hands|
    ensures Refines(d, TakeEach(d, i, tiles), i, RemoveEach(HandAt(d, i), tiles), d.store[d.deck..])
    decreases |tiles|
  {
    if tiles == [] {
      RefinesSelf(d, i);
    } else {
      RemoveKeepsOthers(d, i, tiles[0]);
      var m, r := RemoveInPlace(d, i, tiles[0]), TakeEach(d, i, tiles);
      TakeEachRefines(m, i, tiles[1..]);
      hide RemoveInPlace, OthersKept, RemoveOne, Separate;
      RefinesTrans(d, m, r, i, HandAt(r, i), d.store[d.deck..], HandAt(m, i), d.store[d.deck..]);
    }
  }

  function DrawnOfHand(h: Hand, i: nat): Drawn
    requires Placed(h.dealt) && i < |h.dealt.hands|
  {
    Drawn(HandAt(h.dealt, i), h.extra, h.dealt.store[h.dealt.deck..])
  }

  lemma DrawRefines(d: Dealt, i: nat)
    requires Separate(d) && i < |d.hands| && d.deck < |d.store| && HasRoom(d, i)
    ensures var r, tile := DrawInPlace(d, i), d.store[d.deck];
      && Refines(d, r, i, Sort(HandAt(d, i) + [tile]), d.store[d.deck..][1..])
      && r.deck == d.deck + 1 && |r.store| == |d.store| && tile in HandAt(r, i)
  {
    var tile := d.store[d.deck];
    DrawKeepsOthers(d, i);
    DrawKeepsSizes(d, i);
    SortProperties(HandAt(d, i) + [tile]);
    assert d.store[d.deck..][1..] == d.store[d.deck + 1..];
    assert tile in multiset(Sort(HandAt(d, i) + [tile]));
    hide DrawInPlace, Sort, Separate, HasRoom;
  }

  lemma {:induction false} DrawSharedRefines(rules: Rules, h: Hand, i: nat)
    requires Separate(h.dealt) && i < |h.dealt.hands| && h.dealt.deck < |h.dealt.store| && HasRoom(h.dealt, i)
    ensures var r, d := DrawShared(rules, h, i), DrawOne(rules, DrawnOfHand(h, i));
      Refines(h.dealt, r.dealt, i, d.hand, d.deck) && r.extra == d.extra
    decreases |h.dealt.store| - h.dealt.deck, 0
  {
    var tile, m := h.dealt.store[h.dealt.deck], DrawInPlace(h.dealt, i);
    DrawRefines(h.dealt, i);
    if rules.Taihu? && tile.suit == Flower {
      FlowerSharedRefines(Hand(m, h.extra), i, tile);
      hide DrawInPlace, OthersKept, Sort, Separate, HasRoom;
      var r := DrawShared(rules, h, i).dealt;
      RefinesTrans(h.dealt, m, r, i, HandAt(r, i), r.store[r.deck..], HandAt(m, i), m.store[m.deck..]);
    }
  }

  // The flower gives up its place, so the tile that replaces it has room.
  lemma {:induction false} FlowerSharedRefines(h: Hand, i: nat, flower: Tile)
    requires Separate(h.dealt) && i < |h.dealt.hands| && flower in HandAt(h.dealt, i)
    ensures var r, d := FlowerShared(h, i, flower), AutoFlower(DrawnOfHand(h, i), flower);
      Refines(h.dealt, r.dealt, i, d.hand, d.deck) && r.extra == d.extra
    decreases |h.dealt.store| - h.dealt.deck, 1
  {
    var m := RemoveInPlace(h.dealt, i, flower);
    RemoveKeepsOthers(h.dealt, i, flower);
    RemoveKeepsSizes(h.dealt, i, flower);
    RemoveMakesRoom(h.dealt, i, flower);
    if h.dealt.deck < |h.dealt.store| {
      DrawSharedRefines(Taihu, Hand(m, AddFlower(h.extra)), i);
      hide RemoveInPlace, OthersKept, RemoveOne, Separate, HasRoom;
      var r := FlowerShared(h, i, flower).dealt;
      RefinesTrans(h.dealt, m, r, i, HandAt(r, i), r.store[r.deck..], HandAt(m, i), m.store[m.deck..]);
    }
  }

  // ---------- The table as it is seen ----------

  lemma SeenFind(seats: seq<Seat>, d: Dealt, id: string)
    requires Placed(d) && |seats| == |d.hands|
    ensures Find(SeenSeats(seats, d), id) == Find(seats, id)
  {
    FindSameIds(SeenSeats(seats, d), seats, id);
  }

  lemma SeenRefined(seats: seq<Seat>, s: Dealt, r: Dealt, i: nat, hand: seq<Tile>, deck: seq<Tile>)
    requires Refines(s, r, i, hand, deck) && |seats| == |s.hands|
    ensures SeenSeats(seats, r) == SeenSeats(seats, s)[i := seats[i].(hand := hand)]
  {
  }

  lemma SeenCall(seats: seq<Seat>, d: Dealt, i: nat, meld: OpenMeld)
    requires Placed(d) && |seats| == |d.hands| && i < |seats|
    ensures SeenSeats(WithCall(seats, i, seats[i].hand, meld), d) ==
      WithCall(SeenSeats(seats, d), i, HandAt(d, i), meld)
  {
  }

  lemma SeenTake(seats: seq<Seat>, d: Dealt, id: string)
    requires Placed(d) && |seats| == |d.hands|
    ensures SeenSeats(TakeDiscard(seats, id), d) == TakeDiscard(SeenSeats(seats, d), id)
  {
    SeenFind(seats, d, id);
  }

  lemma SeenExtra(seats: seq<Seat>, d: Dealt, i: nat, extra: Extra)
    requires Placed(d) && |seats| == |d.hands| && i < |seats|
    ensures SeenSeats(WithExtra(seats, i, extra), d) == WithExtra(SeenSeats(seats, d), i, extra)
  {
  }

  // Drawing is seen as drawing.
  lemma SeenDraw(s: Shared, i: nat, h: Hand, d: Drawn)
    requires Valid(s) && i < |s.rest.seats| && Refines(s.dealt, h.dealt, i, d.hand, d.deck) && h.extra == d.extra
    ensures Valid(WithDraw(s, i, h)) && Seen(WithDraw(s, i, h)) == WithDrawn(Seen(s), i, d)
  {
    SeenRefined(s.rest.seats, s.dealt, h.dealt, i, d.hand, d.deck);
    SeenExtra(s.rest.seats, h.dealt, i, h.extra);
    hide HandAt, Separate, Placed;
  }

  // A call is seen as a call.
  lemma SeenCalled(s: Shared, i: nat, d: Dealt, meld: OpenMeld, claimed: Option<string>, hand: seq<Tile>)
    requires Valid(s) && i < |s.rest.seats| && Refines(s.dealt, d, i, hand, s.dealt.store[s.dealt.deck..])
    ensures var r, called := Called(s, i, d, meld, claimed), WithCall(Seen(s).seats, i, hand, meld);
      Valid(r) &&
      Seen(r) == Seen(s).(seats := if claimed.Some? then TakeDiscard(called, claimed.value) else called)
  {
    var seats := s.rest.seats;
    SeenRefined(seats, s.dealt, d, i, hand, s.dealt.store[s.dealt.deck..]);
    SeenCall(seats, d, i, meld);
    if claimed.Some? {
      SeenTake(WithCall(seats, i, seats[i].hand, meld), d, claimed.value);
    }
    hide HandAt, Separate, Placed, TakeDiscard;
    assert WithCall(SeenSeats(seats, d), i, hand, meld) == WithCall(SeenSeats(seats, s.dealt), i, hand, meld);
  }

  // ---------- Accepted actions ----------

  // Where the action draws outright, there is room behind the hand at that moment.
  ghost predicate Roomy(s: Shared, a: Action)
    requires Fitting(s)
  {
    var i := Find(s.rest.seats, a.player);
    i >= 0 && s.dealt.deck < |s.dealt.store| ==>
      (a.kind == DrawTile ==> HasRoom(s.dealt, i)) &&
      (a.kind == CallKong && a.tile.Some? ==>
        HasRoom(TakeTimes(s.dealt, i, a.tile.value, if AfterDiscard(s.rest) then 3 else 4), i))
  }

  lemma KongRefines(rules: Rules, s: Shared, i: nat, tile: Tile)
    requires Valid(s) && i < |s.rest.seats|
    requires s.dealt.deck < |s.dealt.store| ==>
      HasRoom(TakeTimes(s.dealt, i, tile, if AfterDiscard(s.rest) then 3 else 4), i)
    ensures Valid(KongShared(rules, s, i, tile)) && Seen(KongShared(rules, s, i, tile)) == Kong(rules, Seen(s), i, tile)
  {
    var exposed := AfterDiscard(s.rest);
    var times := if exposed then 3 else 4;
    var taken, hand := TakeTimes(s.dealt, i, tile, times), RemoveTimes(HandAt(s.dealt, i), tile, times);
    var meld := OpenMeld(KongMeld, [tile, tile, tile, tile]);
    var claimed := if exposed then Some(s.rest.last.value.player) else None;
    TakeTimesRefines(s.dealt, i, tile, times);
    SeenCalled(s, i, taken, meld, claimed, hand);
    var called := Called(s, i, taken, meld, claimed);
    var counted :=
      if rules.Taihu? then WithDraw(called, i, Hand(taken, AddKong(called.rest.seats[i].extra))) else called;
    hide Called, TakeTimes, RemoveTimes, TakeDiscard, HasRoom;
    Counted(rules, called, i);
    assert Seen(counted) == LayKong(rules, Seen(s), i, tile);
    if taken.deck < |taken.store| {
      DrawSharedRefines(rules, HandOf(counted, i), i);
      hide DrawShared, DrawOne, LayKong;
      SeenDraw(counted, i, DrawShared(rules, HandOf(counted, i), i),
        DrawOne(rules, DrawnOfHand(HandOf(counted, i), i)));
    }
  }

  lemma Counted(rules: Rules, s: Shared, i: nat)
    requires Valid(s) && i < |s.rest.seats|
    ensures var r := WithDraw(s, i, Hand(s.dealt, AddKong(s.rest.seats[i].extra)));
      var seen := Seen(s).seats;
      Valid(r) && Seen(r) == Seen(s).(seats := seen[i := seen[i].(extra := AddKong(seen[i].extra))])
  {
    SeenExtra(s.rest.seats, s.dealt, i, AddKong(s.rest.seats[i].extra));
    hide Separate, HandAt;
  }

  lemma DrawActionRefines(rules: Rules, s: Shared, i: nat)
    requires Valid(s) && i < |s.rest.seats| && s.dealt.deck < |s.dealt.store| && HasRoom(s.dealt, i)
    ensures var r := WithDraw(s, i, DrawShared(rules, HandOf(s, i), i));
      Valid(r) && ExecuteDraw(rules, Seen(s), i) == Ok(Seen(r))
  {
    hide HasRoom, DrawShared, DrawOne, Refines, Separate;
    DrawSharedRefines(rules, HandOf(s, i), i);
    SeenDraw(s, i, DrawShared(rules, HandOf(s, i), i), DrawOne(rules, DrawnOfHand(HandOf(s, i), i)));
  }

  lemma FlowerActionRefines(s: Shared, i: nat, flower: Tile)
    requires Valid(s) && i < |s.rest.seats| && flower in HandAt(s.dealt, i)
    ensures var r := WithDraw(s, i, FlowerShared(HandOf(s, i), i, flower));
      Valid(r) && WithDrawn(Seen(s), i, AutoFlower(DrawnOf(Seen(s), i), flower)) == Seen(r)
  {
    hide FlowerShared, AutoFlower, Refines, Separate;
    FlowerSharedRefines(HandOf(s, i), i, flower);
    SeenDraw(s, i, FlowerShared(HandOf(s, i), i, flower), AutoFlower(DrawnOfHand(HandOf(s, i), i), flower));
  }

  lemma PongRefines(s: Shared, i: nat, tile: Tile)
    requires Valid(s) && i < |s.rest.seats| && s.rest.last.Some? && s.rest.last.value.tile == Some(tile)
    ensures var meld := OpenMeld(PongMeld, [tile, tile, tile]);
      var r := Called(s, i, TakeTimes(s.dealt, i, tile, 2), meld, Some(s.rest.last.value.player));
      Valid(r) && ExecutePong(Seen(s), i) == Ok(Seen(r))
  {
    hide TakeTimes, RemoveTimes, TakeDiscard, Called, Refines, Separate;
    TakeTimesRefines(s.dealt, i, tile, 2);
    var meld := OpenMeld(PongMeld, [tile, tile, tile]);
    SeenCalled(s, i, TakeTimes(s.dealt, i, tile, 2), meld, Some(s.rest.last.value.player),
      RemoveTimes(HandAt(s.dealt, i), tile, 2));
  }

  lemma ChiRefines(s: Shared, i: nat, a: Action)
    requires Valid(s) && i < |s.rest.seats| && s.rest.last.Some? && s.rest.last.value.tile.Some?
    ensures var others := Others(a.tiles, s.rest.last.value.tile.value);
      var r := Called(s, i, TakeEach(s.dealt, i, others), OpenMeld(ChiMeld, a.tiles), Some(s.rest.last.value.player));
      Valid(r) && ExecuteChi(Seen(s), i, a) == Ok(Seen(r))
  {
    hide TakeEach, RemoveEach, Others, TakeDiscard, Called, Refines, Separate;
    var others := Others(a.tiles, s.rest.last.value.tile.value);
    TakeEachRefines(s.dealt, i, others);
    SeenCalled(s, i, TakeEach(s.dealt, i, others), OpenMeld(ChiMeld, a.tiles), Some(s.rest.last.value.player),
      RemoveEach(HandAt(s.dealt, i), others));
  }

  // An accepted action with room where it draws is executed on the slices as on hands of their own.
  lemma ExecuteRefines(rules: Rules, s: Shared, a: Action)
    requires Valid(s) && Validate(rules, Seen(s), a).None? && Roomy(s, a)
    ensures match ExecuteShared(rules, s, a)
      case Ok(r) => Valid(r) && Execute(rules, Seen(s), a) == Ok(Seen(r))
      case Err(e) => Execute(rules, Seen(s), a) == Err(e)
  {
    SeenFind(s.rest.seats, s.dealt, a.player);
    var i := Find(s.rest.seats, a.player);
    hide HasRoom, DrawShared, DrawOne, FlowerShared, AutoFlower, RemoveInPlace, TakeTimes, TakeEach, KongShared, Kong,
      Called, TakeDiscard, WithDraw, WithDrawn, Separate, Others;
    match a.kind
    case DrawTile => DrawActionRefines(rules, s, i);
    case DiscardTile => DiscardRefines(s, i, a.tile.value);
    case CallPong =>
      hide ExecutePong;
      PongRefines(s, i, s.rest.last.value.tile.value);
    case CallChi =>
      hide ExecuteChi;
      ChiRefines(s, i, a);
    case CallKong => KongRefines(rules, s, i, a.tile.value);
    case DeclareTing => SeenExtra(s.rest.seats, s.dealt, i, HuitongExtra(true, s.rest.round));
    case ReplaceFlower => FlowerActionRefines(s, i, a.tile.value);
    case _ =>
  }

  lemma DiscardRefines(s: Shared, i: nat, tile: Tile)
    requires Valid(s) && i < |s.rest.seats|
    ensures var seats, seat := s.rest.seats, s.rest.seats[i];
      var thrown := seats[i := seat.(discards := seat.discards + [tile])];
      var r := Shared(s.rest.(seats := thrown), RemoveInPlace(s.dealt, i, tile));
      var seen := Seen(s).seats;
      Valid(r) && Seen(r) == Seen(s).(seats :=
        seen[i := seen[i].(hand := RemoveOne(seen[i].hand, tile), discards := seen[i].discards + [tile])])
  {
    RemoveKeepsOthers(s.dealt, i, tile);
    var r := RemoveInPlace(s.dealt, i, tile);
    var seat := s.rest.seats[i];
    var seats := s.rest.seats[i := seat.(discards := seat.discards + [tile])];
    SeenRefined(seats, s.dealt, r, i, RemoveOne(HandAt(s.dealt, i), tile), s.dealt.store[s.dealt.deck..]);
    hide RemoveInPlace, RemoveOne, Separate, HandAt;
  }

  // ---------- Handling and runs ----------

  // HandleAction on slices. Validation and judgement only read, and judging a hand works on a clone.
  ghost function HandleShared(rules: Rules, s: Shared, a: Action, deadline: int): (r: Result<Shared, GameError>)
    requires Fitting(s)
    ensures r.Ok? ==> Fitting(r.value)
  {
    var refusal := Validate(rules, Seen(s), a);
    if refusal.Some? then Err(refusal.value)
    else
      var done := ExecuteShared(rules, s, a);
      if done.Err? then Err(done.error)
      else if a.kind == CallWin then Ok(done.value.(rest := done.value.rest.(over := true)))
      else
        ConcludeKeeps(rules, done.value, a, deadline);
        Ok(Shared(Conclude(rules, Seen(done.value), a, deadline), done.value.dealt))
  }

  // Concluding changes neither the seats nor the deck.
  lemma ConcludeKeeps(rules: Rules, s: Shared, a: Action, deadline: int)
    requires Fitting(s)
    ensures var r := Conclude(rules, Seen(s), a, deadline);
      |r.seats| == |s.rest.seats| && Seen(Shared(r, s.dealt)) == r
  {
    hide Judge;
    var t := Seen(s);
    assert SeenSeats(t.seats, s.dealt) == t.seats;
  }

  // With room where it draws, an action on the slices is the action on hands of their own.
  lemma HandleRefines(rules: Rules, s: Shared, a: Action, deadline: int)
    requires Valid(s) && (Validate(rules, Seen(s), a).None? ==> Roomy(s, a))
    ensures match HandleShared(rules, s, a, deadline)
      case Ok(r) => Valid(r) && Handle(rules, Seen(s), a, deadline) == Ok(Seen(r))
      case Err(e) => Handle(rules, Seen(s), a, deadline) == Err(e)
  {
    hide Validate, Execute, ExecuteShared, Conclude, Placed, Separate, SeenSeats, Roomy;
    if Validate(rules, Seen(s), a).None? {
      ExecuteRefines(rules, s, a);
      var done := ExecuteShared(rules, s, a);
      if done.Ok? {
        ConcludeKeeps(rules, done.value, a, deadline);
      }
    }
  }

  // A refused action leaves the game as it is.
  ghost function NextShared(rules: Rules, s: Shared, e: Event): (r: Shared)
    requires Fitting(s)
    ensures Fitting(r)
  {
    match e
    case Act(a, deadline) =>
      var r := HandleShared(rules, s, a, deadline);
      if r.Ok? then r.value else s
    case Clock(now) => Shared(Expire(s.rest, now), s.dealt)
  }

  ghost function RunShared(rules: Rules, s: Shared, events: seq<Event>): (r: Shared)
    requires Fitting(s)
    ensures Fitting(r)
    decreases |events|
  {
    if events == [] then s else RunShared(rules, NextShared(rules, s, events[0]), events[1..])
  }

  // Whenever an action is accepted there is room where it draws.
  ghost predicate RoomyEvent(rules: Rules, s: Shared, e: Event)
    requires Fitting(s)
  {
    e.Act? && Validate(rules, Seen(s), e.action).None? ==> Roomy(s, e.action)
  }

  ghost predicate RoomyRun(rules: Rules, s: Shared, events: seq<Event>)
    requires Fitting(s)
    decreases |events|
  {
    events == [] || (RoomyEvent(rules, s, events[0]) && RoomyRun(rules, NextShared(rules, s, events[0]), events[1..]))
  }

  lemma NextRefines(rules: Rules, s: Shared, e: Event)
    requires Valid(s) && RoomyEvent(rules, s, e)
    ensures Valid(NextShared(rules, s, e)) && Seen(NextShared(rules, s, e)) == Next(rules, Seen(s), e)
  {
    hide HandleShared, Handle, Validate, Roomy, Separate;
    if e.Act? {
      HandleRefines(rules, s, e.action, e.deadline);
    }
  }

  // A run on the slices with room for its draws is the run on hands of their own.
  lemma {:induction false} RunRefines(rules: Rules, s: Shared, events: seq<Event>)
    requires Valid(s) && RoomyRun(rules, s, events)
    ensures Valid(RunShared(rules, s, events)) && Seen(RunShared(rules, s, events)) == Run(rules, Seen(s), events)
    decreases |events|
  {
    hide Separate, NextShared, Next, RoomyEvent;
    if events != [] {
      NextRefines(rules, s, events[0]);
      RunRefines(rules, NextShared(rules, s, events[0]), events[1..]);
    }
  }

  // ---------- From the deal on ----------

  // Initialize: the hands are slices of the shuffled deck, each sorted in place.
  function InitialShared(rules: Rules, ids: seq<string>, deck: seq<Tile>): (r: Shared)
    requires DealtFrom(|ids|) <= |deck|
    ensures Fitting(r)
  {
    Shared(Initial(rules, ids, deck), SortHands(Deal(deck, |ids|), |ids|))
  }

  // The first n hands are sorted, the others and the deck as they were.
  ghost predicate SortedUpTo(d: Dealt, r: Dealt, n: nat) {
    && Placed(d) && Separate(r) && |r.hands| == |d.hands| && r.deck == d.deck && r.store[r.deck..] == d.store[d.deck..]
    && forall i :: 0 <= i < |d.hands| ==> HandAt(r, i) == if i < n then Sort(HandAt(d, i)) else HandAt(d, i)
  }

  lemma SortedOneMore(d: Dealt, m: Dealt, n: nat)
    requires SortedUpTo(d, m, n) && n < |d.hands|
    ensures SortedUpTo(d, SortInPlace(m, n), n + 1)
  {
    SortKeepsOthers(m, n);
    hide SortInPlace, Sort, Separate, Placed, HandAt;
  }

  lemma {:induction false} SortHandsKeeps(d: Dealt, n: nat)
    requires Separate(d) && n <= |d.hands|
    ensures SortedUpTo(d, SortHands(d, n), n)
  {
    if n > 0 {
      SortHandsKeeps(d, n - 1);
      hide SortedUpTo, SortInPlace, Separate, Placed;
      SortedOneMore(d, SortHands(d, n - 1), n - 1);
    }
  }

  lemma DealIsSeparate(deck: seq<Tile>, players: nat)
    requires DealtFrom(players) <= |deck|
    ensures var d := Deal(deck, players);
      && Separate(d) && |d.hands| == players && d.deck == DealtFrom(players)
      && forall i {:trigger HandAt(d, i)} :: 0 <= i < players ==> HandAt(d, i) == deck[DealtFrom(i)..DealtFrom(i + 1)]
  {
  }

  lemma InitialRefines(rules: Rules, ids: seq<string>, deck: seq<Tile>)
    requires DealtFrom(|ids|) <= |deck|
    ensures Valid(InitialShared(rules, ids, deck)) && Seen(InitialShared(rules, ids, deck)) == Initial(rules, ids, deck)
  {
    DealIsSeparate(deck, |ids|);
    SortHandsKeeps(Deal(deck, |ids|), |ids|);
    DealtSeats(rules, ids, deck, |ids|);
    hide Deal, Placed, Separate, SortHands, Sort, DealSeats, HandAt, DealtFrom;
    assert Seen(InitialShared(rules, ids, deck)).seats == DealSeats(rules, ids, deck, |ids|);
  }

  // ---------- Which draws can lack room ----------

  lemma {:induction false} RoomStays(d: Dealt, i: nat, t: Tile, times: nat)
    requires Separate(d) && i < |d.hands| && (HasRoom(d, i) || (times > 0 && t in HandAt(d, i)))
    ensures HasRoom(TakeTimes(d, i, t, times), i)
    decreases times
  {
    if times > 0 {
      RemoveKeepsOthers(d, i, t);
      if t in HandAt(d, i) {
        RemoveMakesRoom(d, i, t);
      } else {
        NothingToRemove(d, i, t);
      }
      hide RemoveInPlace, HasRoom, Separate;
      RoomStays(RemoveInPlace(d, i, t), i, t, times - 1);
    }
  }

  // An accepted kong that names its discard gives up places, so its draw has room.
  lemma NamedKongHasRoom(rules: Rules, s: Shared, a: Action)
    requires Valid(s) && Validate(rules, Seen(s), a).None? && a.kind == CallKong && NamesTheDiscard(Seen(s), a)
    ensures Roomy(s, a)
  {
    SeenFind(s.rest.seats, s.dealt, a.player);
    var i, tile := Find(s.rest.seats, a.player), a.tile.value;
    assert Find(Seen(s).seats, a.player) == i >= 0 && Seen(s).seats[i].hand == HandAt(s.dealt, i);
    assert CountIn(HandAt(s.dealt, i), tile) >= 3;
    assert tile in multiset(HandAt(s.dealt, i));
    RoomStays(s.dealt, i, tile, if AfterDiscard(s.rest) then 3 else 4);
    hide HasRoom, TakeTimes, Separate;
  }

  // When a player's draw from the deck is accepted there is room behind the hand.
  ghost predicate DrawHasRoom(rules: Rules, s: Shared, e: Event)
    requires Fitting(s)
  {
    var i := if e.Act? then Find(s.rest.seats, e.action.player) else -1;
    e.Act? && e.action.kind == DrawTile && Validate(rules, Seen(s), e.action).None? && i >= 0 ==> HasRoom(s.dealt, i)
  }

  ghost predicate DrawsHaveRoom(rules: Rules, s: Shared, events: seq<Event>)
    requires Fitting(s)
    decreases |events|
  {
    events == [] ||
    (DrawHasRoom(rules, s, events[0]) && DrawsHaveRoom(rules, NextShared(rules, s, events[0]), events[1..]))
  }

  lemma {:induction false} NamedRunIsRoomy(rules: Rules, s: Shared, events: seq<Event>)
    requires Valid(s) && DrawsHaveRoom(rules, s, events) && KongsNamed(rules, Seen(s), events) && Inv(rules, Seen(s))
    ensures RoomyRun(rules, s, events)
    decreases |events|
  {
    if events != [] {
      var e := events[0];
      EventIsRoomy(rules, s, e);
      hide DrawHasRoom, RoomyEvent, NextShared, Next, Handle, Inv, Separate;
      NextRefines(rules, s, e);
      NextKeepsInv(rules, Seen(s), e);
      NamedRunIsRoomy(rules, NextShared(rules, s, e), events[1..]);
    }
  }

  lemma EventIsRoomy(rules: Rules, s: Shared, e: Event)
    requires Valid(s) && DrawHasRoom(rules, s, e)
    requires e.Act? && Handle(rules, Seen(s), e.action, e.deadline).Ok? ==> NamesTheDiscard(Seen(s), e.action)
    ensures RoomyEvent(rules, s, e)
  {
    if e.Act? && Validate(rules, Seen(s), e.action).None? && e.action.kind == CallKong {
      ExecuteFailsIff(rules, Seen(s), e.action);
      NamedKongHasRoom(rules, s, e.action);
    }
    hide HasRoom, TakeTimes, Separate, Validate, Handle;
  }

  // Conservation for the code as it deals and plays: in every state of every game whose accepted draws from
  // the deck find room behind the hand and whose exposed kongs name the discards they claim, the slices, the
  // deck, the discards and the melds hold exactly the tiles of the deck that was dealt.
  lemma SharedGameConserves(rules: Rules, ids: seq<string>, deck: seq<Tile>, events: seq<Event>, k: Tile)
    requires |ids| >= 1 && DealtFrom(|ids|) <= |deck| && Fits(rules, deck)
    requires DrawsHaveRoom(rules, InitialShared(rules, ids, deck), events)
    requires KongsNamed(rules, Initial(rules, ids, deck), events)
    ensures InPlay(Seen(RunShared(rules, InitialShared(rules, ids, deck), events)), k) == CountIn(deck, k)
  {
    InitialRefines(rules, ids, deck);
    InitialInv(rules, ids, deck);
    hide InitialShared, Initial, DrawsHaveRoom, RoomyRun, KongsNamed, Inv, InPlay;
    NamedRunIsRoomy(rules, InitialShared(rules, ids, deck), events);
    RunRefines(rules, InitialShared(rules, ids, deck), events);
    GameConserves(rules, ids, deck, events, k);
  }
}
