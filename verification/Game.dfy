// The rules of the game as functions from table to table: what core/engine.go and the two rule sets'
// actions.go and judge.go make of a table and an action. Every hand has storage of its own here;
// module SharedStorage is about the hands the dealer really hands out.
module Game {
  import opened Tiles
  import opened Winning
  import opened Options

  datatype Rules = Huitong | Taihu

  datatype ActionType =
    | DrawTile | DiscardTile | CallPong | CallKong | CallWin | CallChi | DeclareTing | ReplaceFlower | RobKong | Pass
    | OtherAction

  datatype Action = Action(kind: ActionType, player: string, tile: Option<Tile>, tiles: seq<Tile>)

  datatype MeldKind = PongMeld | KongMeld | ChiMeld

  datatype OpenMeld = OpenMeld(kind: MeldKind, tiles: seq<Tile>)

  // The state each rule set keeps for its players.
  datatype Extra =
    | NoExtra
    | HuitongExtra(isTing: bool, tingRound: int)
    | TaihuExtra(kongCount: int, flowerCount: int)

  datatype Seat = Seat(id: string, hand: seq<Tile>, discards: seq<Tile>, melds: seq<OpenMeld>, extra: Extra)

  datatype Task = Task(player: string, types: seq<ActionType>, tile: Option<Tile>, priority: int, timeout: int)

  datatype Table = Table(seats: seq<Seat>, deck: seq<Tile>, current: int, last: Option<Action>, round: int, over: bool,
                         pending: seq<Task>)

  datatype GameError =
    | NoSuchPlayer | NotCurrentPlayer | DeckEmpty | NoTileGiven | NotInHand | NothingToClaim | TooFewTiles
    | NotLeftNeighbour | HonoursCannotRun | NotThreeTiles | LastTileMissing | NotARun | NotFirstRound | WrongState
    | AlreadyTing | NoKongToRob | NotAFlower | Unsupported

  // The kinds in the deck of the rule set, four copies each; neither deck holds flowers.
  predicate InDeck(rules: Rules, t: Tile) {
    (Wan <= t.suit <= Tong && 1 <= t.value <= 9) ||
    (rules.Taihu? && ((t.suit == Wind && 1 <= t.value <= 4) || (t.suit == Dragon && 1 <= t.value <= 3)))
  }

  // ---------- Looking things up ----------

  // GetPlayerIndex, and the position of what GetPlayer returns; -1 for nil.
  function Find(seats: seq<Seat>, id: string): (i: int)
    ensures -1 <= i < |seats|
    ensures i >= 0 ==> seats[i].id == id
    ensures forall k :: 0 <= k < |seats| && (i < 0 || k < i) ==> seats[k].id != id
  {
    if seats == [] then -1
    else if seats[0].id == id then 0
    else var r := Find(seats[1..], id); if r < 0 then -1 else r + 1
  }

  function CountIn(hand: seq<Tile>, t: Tile): nat {
    multiset(hand)[t]
  }

  // The last action was a discard.
  predicate AfterDiscard(t: Table) {
    t.last.Some? && t.last.value.kind == DiscardTile
  }

  // The tiles of a called run that must come from the hand.
  function Others(tiles: seq<Tile>, last: Tile): seq<Tile> {
    if tiles == [] then [] else (if tiles[0] == last then [] else [tiles[0]]) + Others(tiles[1..], last)
  }

  // ---------- Validation ----------

  function Check(ok: bool, error: GameError): Option<GameError> {
    if ok then None else Some(error)
  }

  function ValidateDraw(t: Table, i: nat): Option<GameError> {
    if t.current != i then Some(NotCurrentPlayer) else Check(t.deck != [], DeckEmpty)
  }

  function ValidateDiscard(t: Table, i: nat, a: Action): Option<GameError>
    requires i < |t.seats|
  {
    if t.current != i then Some(NotCurrentPlayer)
    else if a.tile.None? then Some(NoTileGiven)
    else Check(a.tile.value in t.seats[i].hand, NotInHand)
  }

  function ValidatePong(t: Table, i: nat): Option<GameError>
    requires i < |t.seats|
  {
    if !AfterDiscard(t) then Some(NothingToClaim)
    else if t.last.value.tile.None? then Some(NoTileGiven)
    else Check(CountIn(t.seats[i].hand, t.last.value.tile.value) >= 2, TooFewTiles)
  }

  // An exposed kong is checked against the last discard, a concealed one against the named tile.
  function ValidateKong(t: Table, i: nat, a: Action): Option<GameError>
    requires i < |t.seats|
  {
    if a.tile.None? then Some(NoTileGiven)
    else if AfterDiscard(t) then
      if t.last.value.tile.None? then Some(NoTileGiven)
      else Check(CountIn(t.seats[i].hand, t.last.value.tile.value) >= 3, TooFewTiles)
    else Check(CountIn(t.seats[i].hand, a.tile.value) >= 4, TooFewTiles)
  }

  ghost function ValidateChi(t: Table, i: nat, a: Action): Option<GameError>
    requires i < |t.seats|
  {
    if !AfterDiscard(t) then Some(NothingToClaim)
    else if t.last.value.tile.None? then Some(NoTileGiven)
    else
      var last := t.last.value.tile.value;
      var thrower := Find(t.seats, t.last.value.player);
      if (thrower + 1) % |t.seats| != Find(t.seats, t.seats[i].id) then Some(NotLeftNeighbour)
      else if last.suit >= Wind then Some(HonoursCannotRun)
      else ValidateRun(t.seats[i].hand, a.tiles, last)
  }

  // The tiles of a chi: a run with the claimed tile, of which the hand holds the rest.
  ghost function ValidateRun(hand: seq<Tile>, tiles: seq<Tile>, last: Tile): Option<GameError> {
    if |tiles| != 3 then Some(NotThreeTiles)
    else if last !in tiles then Some(LastTileMissing)
    else if !IsRun(tiles) then Some(NotARun)
    else Check(multiset(Others(tiles, last)) <= multiset(hand), NotInHand)
  }

  function ValidateTing(t: Table, i: nat): Option<GameError>
    requires i < |t.seats|
  {
    if t.round > 1 then Some(NotFirstRound)
    else if !t.seats[i].extra.HuitongExtra? then Some(WrongState)
    else Check(!t.seats[i].extra.isTing, AlreadyTing)
  }

  function ValidateQiangKong(t: Table): Option<GameError> {
    Check(t.last.Some? && t.last.value.kind == CallKong, NoKongToRob)
  }

  function ValidateFlower(t: Table, i: nat, a: Action): Option<GameError>
    requires i < |t.seats|
  {
    if a.tile.None? then Some(NoTileGiven)
    else if a.tile.value.suit != Flower then Some(NotAFlower)
    else Check(a.tile.value in t.seats[i].hand, NotInHand)
  }

  // ValidateAction of either rule set: None when the action is accepted.
  ghost function Validate(rules: Rules, t: Table, a: Action): Option<GameError> {
    var i := Find(t.seats, a.player);
    if i < 0 then Some(NoSuchPlayer)
    else match a.kind
      case DrawTile => ValidateDraw(t, i)
      case DiscardTile => ValidateDiscard(t, i, a)
      case CallPong => ValidatePong(t, i)
      case CallKong => ValidateKong(t, i, a)
      case CallWin => None
      case CallChi => if rules.Taihu? then ValidateChi(t, i, a) else Some(Unsupported)
      case DeclareTing => if rules.Huitong? then ValidateTing(t, i) else Some(Unsupported)
      case RobKong => if rules.Huitong? then ValidateQiangKong(t) else Some(Unsupported)
      case ReplaceFlower => if rules.Taihu? then ValidateFlower(t, i, a) else Some(Unsupported)
      case Pass => None
      case OtherAction => Some(Unsupported)
  }

  // ---------- Execution ----------

  // What drawing touches: the drawing player's hand and state, and the deck.
  datatype Drawn = Drawn(hand: seq<Tile>, extra: Extra, deck: seq<Tile>)

  function AddFlower(e: Extra): Extra {
    if e.TaihuExtra? then e.(flowerCount := e.flowerCount + 1) else e
  }

  function AddKong(e: Extra): Extra {
    if e.TaihuExtra? then e.(kongCount := e.kongCount + 1) else e
  }

  // The first tile of the deck goes to the hand, which is sorted; Taihu replaces a flower at once.
  function DrawOne(rules: Rules, d: Drawn): Drawn
    requires d.deck != []
    decreases |d.deck|, 0
  {
    var tile := d.deck[0];
    var drawn := Drawn(Sort(d.hand + [tile]), d.extra, d.deck[1..]);
    if rules.Taihu? && tile.suit == Flower then AutoFlower(drawn, tile) else drawn
  }

  // autoFlower: the flower leaves the hand and is counted, and a tile is drawn for it.
  function AutoFlower(d: Drawn, flower: Tile): Drawn
    decreases |d.deck|, 1
  {
    var without := Drawn(RemoveOne(d.hand, flower), AddFlower(d.extra), d.deck);
    if d.deck == [] then without else DrawOne(Taihu, without)
  }

  function DrawnOf(t: Table, i: nat): Drawn
    requires i < |t.seats|
  {
    Drawn(t.seats[i].hand, t.seats[i].extra, t.deck)
  }

  function WithDrawn(t: Table, i: nat, d: Drawn): Table
    requires i < |t.seats|
  {
    t.(seats := t.seats[i := t.seats[i].(hand := d.hand, extra := d.extra)], deck := d.deck)
  }

  function ExecuteDraw(rules: Rules, t: Table, i: nat): Result<Table, GameError>
    requires i < |t.seats|
  {
    if t.deck == [] then Err(DeckEmpty) else Ok(WithDrawn(t, i, DrawOne(rules, DrawnOf(t, i))))
  }

  function ExecuteDiscard(t: Table, i: nat, a: Action): Result<Table, GameError>
    requires i < |t.seats|
  {
    if a.tile.None? then Err(NoTileGiven)
    else
      var s := t.seats[i];
      var tile := a.tile.value;
      Ok(t.(seats := t.seats[i := s.(hand := RemoveOne(s.hand, tile), discards := s.discards + [tile])]))
  }

  // The last discard of the player with the id is taken away, if there is such a player and discard.
  function TakeDiscard(seats: seq<Seat>, id: string): (r: seq<Seat>)
    ensures |r| == |seats|
  {
    var j := Find(seats, id);
    if j < 0 || seats[j].discards == [] then seats
    else seats[j := seats[j].(discards := seats[j].discards[..|seats[j].discards| - 1])]
  }

  // The player's hand after a call and the meld it lays open.
  function WithCall(seats: seq<Seat>, i: nat, hand: seq<Tile>, meld: OpenMeld): (r: seq<Seat>)
    requires i < |seats|
    ensures |r| == |seats|
  {
    seats[i := seats[i].(hand := hand, melds := seats[i].melds + [meld])]
  }

  function ExecutePong(t: Table, i: nat): Result<Table, GameError>
    requires i < |t.seats|
  {
    if t.last.None? || t.last.value.tile.None? then Err(NothingToClaim)
    else
      var tile := t.last.value.tile.value;
      var called := WithCall(t.seats, i, RemoveTimes(t.seats[i].hand, tile, 2), OpenMeld(PongMeld, [tile, tile, tile]));
      Ok(t.(seats := TakeDiscard(called, t.last.value.player)))
  }

  function ExecuteChi(t: Table, i: nat, a: Action): Result<Table, GameError>
    requires i < |t.seats|
  {
    if t.last.None? || t.last.value.tile.None? then Err(NothingToClaim)
    else
      var hand := RemoveEach(t.seats[i].hand, Others(a.tiles, t.last.value.tile.value));
      var called := WithCall(t.seats, i, hand, OpenMeld(ChiMeld, a.tiles));
      Ok(t.(seats := TakeDiscard(called, t.last.value.player)))
  }

  // The table after the kong's tiles are laid open, before the replacement tile is drawn. The tile
  // named by the action is taken from the hand, also for an exposed kong.
  function LayKong(rules: Rules, t: Table, i: nat, tile: Tile): (r: Table)
    requires i < |t.seats|
    ensures |r.seats| == |t.seats|
  {
    var exposed := AfterDiscard(t);
    var meld := OpenMeld(KongMeld, [tile, tile, tile, tile]);
    var called := WithCall(t.seats, i, RemoveTimes(t.seats[i].hand, tile, if exposed then 3 else 4), meld);
    var taken := if exposed then TakeDiscard(called, t.last.value.player) else called;
    t.(seats := if rules.Taihu? then taken[i := taken[i].(extra := AddKong(taken[i].extra))] else taken)
  }

  function Kong(rules: Rules, t: Table, i: nat, tile: Tile): Table
    requires i < |t.seats|
  {
    var laid := LayKong(rules, t, i, tile);
    if t.deck == [] then laid else WithDrawn(laid, i, DrawOne(rules, DrawnOf(laid, i)))
  }

  function ExecuteKong(rules: Rules, t: Table, i: nat, a: Action): Result<Table, GameError>
    requires i < |t.seats|
  {
    if a.tile.None? then Err(NoTileGiven) else Ok(Kong(rules, t, i, a.tile.value))
  }

  function ExecuteTing(t: Table, i: nat): Result<Table, GameError>
    requires i < |t.seats|
  {
    if !t.seats[i].extra.HuitongExtra? then Err(WrongState)
    else Ok(t.(seats := t.seats[i := t.seats[i].(extra := HuitongExtra(true, t.round))]))
  }

  function ExecuteFlower(t: Table, i: nat, a: Action): Result<Table, GameError>
    requires i < |t.seats|
  {
    if a.tile.None? then Err(NoTileGiven) else Ok(WithDrawn(t, i, AutoFlower(DrawnOf(t, i), a.tile.value)))
  }

  // ExecuteAction of either rule set. Neither has a case for a win.
  function Execute(rules: Rules, t: Table, a: Action): Result<Table, GameError> {
    var i := Find(t.seats, a.player);
    if i < 0 then Err(NoSuchPlayer)
    else match a.kind
      case DrawTile => ExecuteDraw(rules, t, i)
      case DiscardTile => ExecuteDiscard(t, i, a)
      case CallPong => ExecutePong(t, i)
      case CallKong => ExecuteKong(rules, t, i, a)
      case CallChi => if rules.Taihu? then ExecuteChi(t, i, a) else Err(Unsupported)
      case DeclareTing => if rules.Huitong? then ExecuteTing(t, i) else Err(Unsupported)
      case ReplaceFlower => if rules.Taihu? then ExecuteFlower(t, i, a) else Err(Unsupported)
      case Pass => Ok(t)
      case CallWin => Err(Unsupported)
      case RobKong => Err(Unsupported)
      case OtherAction => Err(Unsupported)
  }

  // ---------- Tasks for the other players ----------

  // canChi: the three windows around the tile.
  predicate CanChi(hand: seq<Tile>, t: Tile) {
    t.suit < Wind &&
    ((t.value >= 3 && Tile(t.suit, t.value - 2) in hand && Tile(t.suit, t.value - 1) in hand) ||
     (2 <= t.value <= 8 && Tile(t.suit, t.value - 1) in hand && Tile(t.suit, t.value + 1) in hand) ||
     (t.value <= 7 && Tile(t.suit, t.value + 1) in hand && Tile(t.suit, t.value + 2) in hand))
  }

  function ListIf(types: seq<ActionType>, b: bool, kind: ActionType): seq<ActionType> {
    if b then types + [kind] else types
  }

  // What the player in seat j may answer to the action.
  ghost function Answers(rules: Rules, t: Table, a: Action, j: nat): seq<ActionType>
    requires j < |t.seats|
  {
    if a.tile.None? then []
    else
      var tile, hand := a.tile.value, t.seats[j].hand;
      var discard := a.kind == DiscardTile;
      var wins := Wins(multiset(hand + [tile]));
      var winning := ListIf([], wins, CallWin);
      var konging := ListIf(winning, discard && CountIn(hand, tile) >= 3, CallKong);
      var ponging := ListIf(konging, discard && CountIn(hand, tile) >= 2, CallPong);
      match rules
      case Huitong => ListIf(ponging, a.kind == CallKong && wins, RobKong)
      case Taihu =>
        ListIf(ponging, discard && (Find(t.seats, a.player) + 1) % |t.seats| == j && CanChi(hand, tile), CallChi)
  }

  // The rank of one answer: winning before robbing a kong before kong before pong before chi.
  function Rank(rules: Rules, kind: ActionType): int {
    match kind
    case CallWin => 100
    case RobKong => if rules.Huitong? then 90 else 0
    case CallKong => 80
    case CallPong => 70
    case CallChi => if rules.Taihu? then 60 else 0
    case _ => 0
  }

  // GetTaskPriority
  function Priority(rules: Rules, types: seq<ActionType>): int {
    if types == [] then 0
    else
      var rest := Priority(rules, types[..|types| - 1]);
      var rank := Rank(rules, types[|types| - 1]);
      if rank > rest then rank else rest
  }

  // The tasks of the seats before n, in seat order.
  ghost function TasksBefore(rules: Rules, t: Table, a: Action, deadline: int, n: nat): seq<Task>
    requires n <= |t.seats|
  {
    if n == 0 then []
    else
      var before := TasksBefore(rules, t, a, deadline, n - 1);
      var seat := t.seats[n - 1];
      var types := Answers(rules, t, a, n - 1);
      if seat.id == a.player || types == [] then before
      else before + [Task(seat.id, types, a.tile, Priority(rules, types), deadline)]
  }

  // JudgeTasks
  ghost function Judge(rules: Rules, t: Table, a: Action, deadline: int): seq<Task> {
    if a.kind != DiscardTile && a.kind != CallKong then [] else TasksBefore(rules, t, a, deadline, |t.seats|)
  }

  // ---------- The engine's steps ----------

  function NextSeat(t: Table): Table {
    if t.seats == [] then t else t.(current := (t.current + 1) % |t.seats|)
  }

  // What HandleAction does once the action has been executed.
  ghost function Conclude(rules: Rules, t: Table, a: Action, deadline: int): Table {
    var tasks := Judge(rules, t, a, deadline);
    var judged :=
      if |tasks| > 0 then t.(pending := tasks)
      else if a.kind == DiscardTile || a.kind == Pass then NextSeat(t)
      else t;
    judged.(last := Some(a))
  }

  // HandleAction: deadline is the time until which the answers stay open. A win that has been executed
  // ends the game and is not recorded.
  ghost function Handle(rules: Rules, t: Table, a: Action, deadline: int): Result<Table, GameError> {
    var refusal := Validate(rules, t, a);
    if refusal.Some? then Err(refusal.value)
    else
      var done := Execute(rules, t, a);
      if done.Err? then Err(done.error)
      else if a.kind == CallWin then Ok(done.value.(over := true))
      else Ok(Conclude(rules, done.value, a, deadline))
  }

  // ProcessTaskTimeout
  function Expire(t: Table, now: int): Table {
    if exists i :: 0 <= i < |t.pending| && now > t.pending[i].timeout then NextSeat(t.(pending := [])) else t
  }

  // Initialize: the shuffled deck is dealt, thirteen tiles each and one more to seat 0, the dealer.
  function HandSize(i: nat): nat {
    if i == 0 then 14 else 13
  }

  function DealtFrom(i: nat): nat {
    if i == 0 then 0 else 13 * i + 1
  }

  function FreshExtra(rules: Rules): Extra {
    match rules
    case Huitong => HuitongExtra(false, 0)
    case Taihu => TaihuExtra(0, 0)
  }

  function DealSeat(rules: Rules, ids: seq<string>, deck: seq<Tile>, i: nat): Seat
    requires i < |ids| && DealtFrom(|ids|) <= |deck|
  {
    Seat(ids[i], Sort(deck[DealtFrom(i)..DealtFrom(i + 1)]), [], [], FreshExtra(rules))
  }

  function DealSeats(rules: Rules, ids: seq<string>, deck: seq<Tile>, n: nat): (r: seq<Seat>)
    requires n <= |ids| && DealtFrom(|ids|) <= |deck|
    ensures |r| == n
  {
    if n == 0 then [] else DealSeats(rules, ids, deck, n - 1) + [DealSeat(rules, ids, deck, n - 1)]
  }

  function Initial(rules: Rules, ids: seq<string>, deck: seq<Tile>): Table
    requires DealtFrom(|ids|) <= |deck|
  {
    Table(DealSeats(rules, ids, deck, |ids|), deck[DealtFrom(|ids|)..], 0, None, 1, false, [])
  }
}
