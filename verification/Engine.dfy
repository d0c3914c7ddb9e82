// The engine and its players as the objects that the source updates in place. Every method is proved
// to do to the objects what module Game says about their values.
module Engines {
  import opened Tiles
  import opened Winning
  import opened Options
  import opened Game
  import opened GameRuns

  class Player {
    const id: string
    var hand: seq<Tile>
    var discards: seq<Tile>
    var melds: seq<OpenMeld>
    var extra: Extra

    constructor (id: string, hand: seq<Tile>, extra: Extra)
      ensures View() == Seat(id, hand, [], [], extra)
    {
      this.id, this.hand, this.discards, this.melds, this.extra := id, hand, [], [], extra;
    }

    function View(): Seat
      reads this
    {
      Seat(id, hand, discards, melds, extra)
    }

    // SortTiles on the hand
    method SortHand()
      modifies this`hand
      ensures hand == Sort(old(hand))
    {
      var a := FromSeq(hand);
      assert a[..a.Length] == hand;
      SortProperties(hand);
      SortTiles(a, a.Length);
      hand := a[..a.Length];
    }

    // RemoveTile on the hand
    method Remove(t: Tile)
      modifies this`hand
      ensures hand == RemoveOne(old(hand), t)
    {
      var a := FromSeq(hand);
      assert a[..a.Length] == hand;
      var m := RemoveTile(a, a.Length, t);
      hand := a[..m];
    }

    method Count(t: Tile) returns (count: nat)
      ensures count == CountIn(hand, t)
    {
      var a := FromSeq(hand);
      assert a[..a.Length] == hand;
      count := CountTile(a, a.Length, t);
    }

    method Has(t: Tile) returns (found: bool)
      ensures found <==> t in hand
    {
      found := Contains(hand, t);
    }
  }

  method Contains(s: seq<Tile>, t: Tile) returns (found: bool)
    ensures found <==> t in s
  {
    var a := FromSeq(s);
    assert a[..a.Length] == s;
    found := ContainsTile(a, a.Length, t);
  }

  // canChi
  method CanChiNow(hand: seq<Tile>, t: Tile) returns (ok: bool)
    ensures ok <==> CanChi(hand, t)
  {
    if t.suit >= Wind {
      return false;
    }
    if t.value >= 3 {
      var a := Contains(hand, Tile(t.suit, t.value - 2));
      var b := Contains(hand, Tile(t.suit, t.value - 1));
      if a && b {
        return true;
      }
    }
    if t.value >= 2 && t.value <= 8 {
      var a := Contains(hand, Tile(t.suit, t.value - 1));
      var b := Contains(hand, Tile(t.suit, t.value + 1));
      if a && b {
        return true;
      }
    }
    if t.value <= 7 {
      var a := Contains(hand, Tile(t.suit, t.value + 1));
      var b := Contains(hand, Tile(t.suit, t.value + 2));
      if a && b {
        return true;
      }
    }
    return false;
  }

  // GetTaskPriority
  method GetTaskPriority(rules: Rules, types: seq<ActionType>) returns (priority: int)
    ensures priority == Priority(rules, types)
  {
    priority := 0;
    for i := 0 to |types|
      invariant priority == Priority(rules, types[..i])
    {
      var rank := Rank(rules, types[i]);
      if rank > priority {
        priority := rank;
      }
      assert types[..i + 1][..i] == types[..i];
    }
    assert types[..|types|] == types;
  }

  // The tiles of a chi other than the claimed one.
  method OtherTiles(tiles: seq<Tile>, last: Tile) returns (others: seq<Tile>)
    ensures others == Others(tiles, last)
  {
    others := [];
    for i := 0 to |tiles|
      invariant others + Others(tiles[i..], last) == Others(tiles, last)
    {
      if tiles[i] != last {
        others := others + [tiles[i]];
      }
    }
  }

  // The seats of the players, in order.
  method CheckRun(hand: seq<Tile>, tiles: seq<Tile>, last: Tile) returns (e: Option<GameError>)
    ensures e == ValidateRun(hand, tiles, last)
  {
    hide IsRun, Others;
    if |tiles| != 3 {
      return Some(NotThreeTiles);
    }
    var holdsLast := Contains(tiles, last);
    if !holdsLast {
      return Some(LastTileMissing);
    }
    var run := IsSequence(tiles);
    if !run {
      return Some(NotARun);
    }
    var others := OtherTiles(tiles, last);
    var inHand := ContainsTiles(hand, others);
    if !inHand {
      return Some(NotInHand);
    }
    return None;
  }

  function SeatsOf(players: seq<Player>): (r: seq<Seat>)
    reads players
    ensures |r| == |players| && forall i :: 0 <= i < |players| ==> r[i] == players[i].View()
  {
    seq(|players|, i requires 0 <= i < |players| reads players => players[i].View())
  }

  // What a method that may fail has done: the result, or the error and nothing else.
  predicate Done(r: Result<Table, GameError>, e: Option<GameError>, before: Table, after: Table) {
    match r
    case Ok(t) => e.None? && after == t
    case Err(x) => e == Some(x) && after == before
  }

  // The engine with the game state that it holds.
  class Engine {
    const rules: Rules
    var players: seq<Player>
    var deck: seq<Tile>
    var current: int
    var last: Option<Action>
    var round: int
    var over: bool
    var pending: seq<Task>

    ghost predicate Valid()
      reads this
    {
      players != [] && forall i, j :: 0 <= i < j < |players| ==> players[i] != players[j]
    }

    function View(): Table
      reads this, players
    {
      Table(SeatsOf(players), deck, current, last, round, over, pending)
    }

    // Initialize, once the number of players has been checked and the deck shuffled.
    constructor (rules: Rules, ids: seq<string>, shuffled: seq<Tile>)
      requires |ids| >= 1 && DealtFrom(|ids|) <= |shuffled|
      ensures this.rules == rules && Valid() && fresh(players)
      ensures View() == Initial(rules, ids, shuffled)
    {
      var seated: seq<Player> := [];
      var index := 0;
      for i := 0 to |ids|
        invariant index == DealtFrom(i) && |seated| == i && fresh(seated)
        invariant forall j :: 0 <= j < i ==> seated[j].View() == DealSeat(rules, ids, shuffled, j)
        invariant forall j, k :: 0 <= j < k < i ==> seated[j] != seated[k]
      {
        var handSize := HandSize(i);
        var p := new Player(ids[i], shuffled[index..index + handSize], FreshExtra(rules));
        p.SortHand();
        index := index + handSize;
        seated := seated + [p];
      }
      this.rules := rules;
      players, deck, current, last, round, over, pending := seated, shuffled[index..], 0, None, 1, false, [];
      DealtSeats(rules, ids, shuffled, |ids|);
    }

    // GetPlayerIndex
    method FindPlayer(id: string) returns (i: int)
      ensures i == Find(View().seats, id)
    {
      for k := 0 to |players|
        invariant forall l :: 0 <= l < k ==> players[l].id != id
      {
        if players[k].id == id {
          return k;
        }
      }
      return -1;
    }

    // ---------- Validation ----------

    method CheckPong(i: nat) returns (e: Option<GameError>)
      requires i < |players|
      ensures e == ValidatePong(View(), i)
    {
      if last.None? || last.value.kind != DiscardTile {
        return Some(NothingToClaim);
      }
      if last.value.tile.None? {
        return Some(NoTileGiven);
      }
      var count := players[i].Count(last.value.tile.value);
      if count < 2 {
        return Some(TooFewTiles);
      }
      return None;
    }

    method CheckKong(i: nat, a: Action) returns (e: Option<GameError>)
      requires i < |players|
      ensures e == ValidateKong(View(), i, a)
    {
      if a.tile.None? {
        return Some(NoTileGiven);
      }
      if last.Some? && last.value.kind == DiscardTile {
        if last.value.tile.None? {
          return Some(NoTileGiven);
        }
        var count := players[i].Count(last.value.tile.value);
        if count < 3 {
          return Some(TooFewTiles);
        }
        return None;
      }
      var count := players[i].Count(a.tile.value);
      if count < 4 {
        return Some(TooFewTiles);
      }
      return None;
    }

    method CheckChi(i: nat, a: Action) returns (e: Option<GameError>)
      requires i < |players|
      ensures e == ValidateChi(View(), i, a)
    {
      hide ValidateRun, Find;
      if last.None? || last.value.kind != DiscardTile {
        return Some(NothingToClaim);
      }
      if last.value.tile.None? {
        return Some(NoTileGiven);
      }
      var lastTile := last.value.tile.value;
      var lastIndex := FindPlayer(last.value.player);
      var ownIndex := FindPlayer(players[i].id);
      if (lastIndex + 1) % |players| != ownIndex {
        return Some(NotLeftNeighbour);
      }
      if lastTile.suit >= Wind {
        return Some(HonoursCannotRun);
      }
      e := CheckRun(players[i].hand, a.tiles, lastTile);
    }

    // ValidateAction
    method ValidateAction(a: Action) returns (e: Option<GameError>)
      ensures e == Validate(rules, View(), a)
    {
      var i := FindPlayer(a.player);
      if i < 0 {
        return Some(NoSuchPlayer);
      }
      var player := players[i];
      match a.kind
      case DrawTile =>
        if current != i {
          return Some(NotCurrentPlayer);
        }
        if |deck| == 0 {
          return Some(DeckEmpty);
        }
        return None;
      case DiscardTile =>
        if current != i {
          return Some(NotCurrentPlayer);
        }
        if a.tile.None? {
          return Some(NoTileGiven);
        }
        var has := player.Has(a.tile.value);
        return if has then None else Some(NotInHand);
      case CallPong =>
        e := CheckPong(i);
      case CallKong =>
        e := CheckKong(i, a);
      case CallWin =>
        return None;
      case CallChi =>
        if rules.Huitong? {
          return Some(Unsupported);
        }
        e := CheckChi(i, a);
      case DeclareTing =>
        if rules.Taihu? {
          return Some(Unsupported);
        }
        if round > 1 {
          return Some(NotFirstRound);
        }
        if !player.extra.HuitongExtra? {
          return Some(WrongState);
        }
        return if player.extra.isTing then Some(AlreadyTing) else None;
      case RobKong =>
        if rules.Taihu? {
          return Some(Unsupported);
        }
        return if last.None? || last.value.kind != CallKong then Some(NoKongToRob) else None;
      case ReplaceFlower =>
        if rules.Huitong? {
          return Some(Unsupported);
        }
        if a.tile.None? {
          return Some(NoTileGiven);
        }
        if a.tile.value.suit != Flower {
          return Some(NotAFlower);
        }
        var has := player.Has(a.tile.value);
        return if has then None else Some(NotInHand);
      case Pass =>
        return None;
      case OtherAction =>
        return Some(Unsupported);
    }

    // ---------- Execution ----------

    // Only the player in seat i has changed.
    twostate lemma OneSeat(i: nat)
      requires old(Valid()) && players == old(players) && i < |players|
      requires forall j :: 0 <= j < |players| && j != i ==> players[j].View() == old(players[j].View())
      ensures SeatsOf(players) == old(SeatsOf(players))[i := players[i].View()]
    {
    }

    // The first tile of the deck goes to the hand, which is sorted; Taihu replaces a flower.
    method TakeFromDeck(i: nat)
      requires Valid() && i < |players| && deck != []
      modifies this`deck, players
      ensures View() == WithDrawn(old(View()), i, DrawOne(rules, DrawnOf(old(View()), i)))
      decreases |deck|, 0
    {
      var player := players[i];
      var tile := deck[0];
      deck := deck[1..];
      player.hand := player.hand + [tile];
      player.SortHand();
      OneSeat(i);
      ghost var drawn := View();
      assert DrawnOf(drawn, i) == Drawn(Sort(old(player.hand) + [tile]), old(player.extra), old(deck)[1..]);
      if rules.Taihu? && tile.suit == Flower {
        ReplaceFlowerAutomatically(i, tile);
      }
    }

    // autoFlower
    method ReplaceFlowerAutomatically(i: nat, flower: Tile)
      requires Valid() && i < |players| && rules.Taihu?
      modifies this`deck, players
      ensures View() == WithDrawn(old(View()), i, AutoFlower(DrawnOf(old(View()), i), flower))
      decreases |deck|, 1
    {
      hide DrawOne, RemoveOne, Sort;
      var player := players[i];
      player.Remove(flower);
      if player.extra.TaihuExtra? {
        player.extra := player.extra.(flowerCount := player.extra.flowerCount + 1);
      }
      OneSeat(i);
      if |deck| > 0 {
        TakeFromDeck(i);
      }
    }

    method PerformDiscard(i: nat, a: Action) returns (e: Option<GameError>)
      requires Valid() && i < |players|
      modifies players
      ensures Done(ExecuteDiscard(old(View()), i, a), e, old(View()), View())
    {
      if a.tile.None? {
        return Some(NoTileGiven);
      }
      var player := players[i];
      player.Remove(a.tile.value);
      player.discards := player.discards + [a.tile.value];
      OneSeat(i);
      return None;
    }

    // A call's tiles leave the hand and are laid open.
    method LayOpen(i: nat, hand: seq<Tile>, meld: OpenMeld)
      requires Valid() && i < |players|
      modifies players
      ensures View() == old(View()).(seats := WithCall(old(View()).seats, i, hand, meld))
    {
      var player := players[i];
      player.hand := hand;
      player.melds := player.melds + [meld];
      OneSeat(i);
    }

    // The claimed discard leaves the discards of the player who threw it.
    method TakeLastDiscard(id: string)
      requires Valid()
      modifies players
      ensures View() == old(View()).(seats := TakeDiscard(old(View()).seats, id))
    {
      var j := FindPlayer(id);
      if j >= 0 && |players[j].discards| > 0 {
        players[j].discards := players[j].discards[..|players[j].discards| - 1];
        OneSeat(j);
      }
    }

    method PerformPong(i: nat) returns (e: Option<GameError>)
      requires Valid() && i < |players|
      modifies players
      ensures Done(ExecutePong(old(View()), i), e, old(View()), View())
    {
      if last.None? || last.value.tile.None? {
        return Some(NothingToClaim);
      }
      var tile := last.value.tile.value;
      var hand := WithoutCopies(players[i].hand, tile, 2);
      LayOpen(i, hand, OpenMeld(PongMeld, [tile, tile, tile]));
      TakeLastDiscard(last.value.player);
      return None;
    }

    method PerformChi(i: nat, a: Action) returns (e: Option<GameError>)
      requires Valid() && i < |players|
      modifies players
      ensures Done(ExecuteChi(old(View()), i, a), e, old(View()), View())
    {
      if last.None? || last.value.tile.None? {
        return Some(NothingToClaim);
      }
      var hand := WithoutOthers(players[i].hand, a.tiles, last.value.tile.value);
      LayOpen(i, hand, OpenMeld(ChiMeld, a.tiles));
      TakeLastDiscard(last.value.player);
      return None;
    }

    method PerformKong(i: nat, a: Action) returns (e: Option<GameError>)
      requires Valid() && i < |players|
      modifies this`deck, players
      ensures Done(ExecuteKong(rules, old(View()), i, a), e, old(View()), View())
    {
      if a.tile.None? {
        return Some(NoTileGiven);
      }
      var tile := a.tile.value;
      LayKongOpen(i, tile);
      if |deck| > 0 {
        TakeFromDeck(i);
      }
      return None;
    }

    method LayKongOpen(i: nat, tile: Tile)
      requires Valid() && i < |players|
      modifies players
      ensures View() == LayKong(rules, old(View()), i, tile)
    {
      hide TakeDiscard, RemoveTimes;
      var exposed := last.Some? && last.value.kind == DiscardTile;
      var hand := WithoutCopies(players[i].hand, tile, if exposed then 3 else 4);
      LayOpen(i, hand, OpenMeld(KongMeld, [tile, tile, tile, tile]));
      if exposed {
        TakeLastDiscard(last.value.player);
      }
      if rules.Taihu? {
        CountKong(i);
      }
    }

    // KongCount++ where the player keeps one.
    method CountKong(i: nat)
      requires Valid() && i < |players|
      modifies players
      ensures var before := old(View());
        View() == before.(seats := before.seats[i := before.seats[i].(extra := AddKong(before.seats[i].extra))])
    {
      if players[i].extra.TaihuExtra? {
        players[i].extra := players[i].extra.(kongCount := players[i].extra.kongCount + 1);
      }
      OneSeat(i);
    }

    method PerformTing(i: nat) returns (e: Option<GameError>)
      requires Valid() && i < |players|
      modifies players
      ensures Done(ExecuteTing(old(View()), i), e, old(View()), View())
    {
      if !players[i].extra.HuitongExtra? {
        return Some(WrongState);
      }
      players[i].extra := HuitongExtra(true, round);
      OneSeat(i);
      return None;
    }

    // ExecuteAction
    method ExecuteAction(a: Action) returns (e: Option<GameError>)
      requires Valid()
      modifies this`deck, players
      ensures Done(Execute(rules, old(View()), a), e, old(View()), View())
    {
      var i := FindPlayer(a.player);
      if i < 0 {
        return Some(NoSuchPlayer);
      }
      hide DrawOne, AutoFlower, LayKong, TakeDiscard, WithDrawn;
      match a.kind
      case DrawTile =>
        if |deck| == 0 {
          return Some(DeckEmpty);
        }
        TakeFromDeck(i);
        return None;
      case DiscardTile =>
        e := PerformDiscard(i, a);
      case CallPong =>
        e := PerformPong(i);
      case CallKong =>
        e := PerformKong(i, a);
      case CallChi =>
        if rules.Huitong? {
          return Some(Unsupported);
        }
        e := PerformChi(i, a);
      case DeclareTing =>
        if rules.Taihu? {
          return Some(Unsupported);
        }
        e := PerformTing(i);
      case ReplaceFlower =>
        if rules.Huitong? {
          return Some(Unsupported);
        }
        if a.tile.None? {
          return Some(NoTileGiven);
        }
        ReplaceFlowerAutomatically(i, a.tile.value);
        return None;
      case Pass =>
        return None;
      case CallWin =>
        return Some(Unsupported);
      case RobKong =>
        return Some(Unsupported);
      case OtherAction =>
        return Some(Unsupported);
    }

    // ---------- Judging and handling ----------

    // The answers that one player may give.
    method AnswersOf(a: Action, j: nat) returns (types: seq<ActionType>)
      requires j < |players|
      ensures types == Answers(rules, View(), a, j)
    {
      hide Wins, CanChi, CountIn, Find;
      types := [];
      if a.tile.None? {
        return;
      }
      var tile := a.tile.value;
      var player := players[j];
      var wins := CanWin(player.hand, Some(tile));
      if wins {
        types := types + [CallWin];
      }
      if a.kind == DiscardTile {
        var count := player.Count(tile);
        if count >= 3 {
          types := types + [CallKong];
        }
        if count >= 2 {
          types := types + [CallPong];
        }
      }
      if rules.Taihu? && a.kind == DiscardTile {
        var thrower := FindPlayer(a.player);
        if (thrower + 1) % |players| == j {
          var chi := CanChiNow(player.hand, tile);
          if chi {
            types := types + [CallChi];
          }
        }
      }
      if rules.Huitong? && a.kind == CallKong && wins {
        types := types + [RobKong];
      }
    }

    // JudgeTasks
    method JudgeTasks(a: Action, deadline: int) returns (tasks: seq<Task>)
      ensures tasks == Judge(rules, View(), a, deadline)
    {
      hide TasksBefore, SeatsOf;
      tasks := [];
      if a.kind == DiscardTile || a.kind == CallKong {
        tasks := TasksOfOthers(a, deadline);
      }
    }

    // The loop over the players.
    method TasksOfOthers(a: Action, deadline: int) returns (tasks: seq<Task>)
      ensures |View().seats| == |players| && tasks == TasksBefore(rules, View(), a, deadline, |players|)
    {
      tasks := [];
      hide TasksBefore, SeatsOf, SeatTask;
      NoTasksYet(rules, View(), a, deadline);
      for j := 0 to |players|
        invariant |View().seats| == |players| && tasks == TasksBefore(rules, View(), a, deadline, j)
      {
        var task := TaskOf(a, deadline, j);
        NextTask(rules, View(), a, deadline, j);
        if task.Some? {
          tasks := tasks + [task.value];
        }
      }
    }

    // The task for one player, if there is one.
    method TaskOf(a: Action, deadline: int, j: nat) returns (task: Option<Task>)
      requires j < |players|
      ensures |View().seats| == |players| && task == SeatTask(rules, View(), a, deadline, j)
    {
      hide Answers, Priority;
      if players[j].id == a.player {
        return None;
      }
      var types := AnswersOf(a, j);
      if |types| == 0 {
        return None;
      }
      var priority := GetTaskPriority(rules, types);
      return Some(Task(players[j].id, types, a.tile, priority, deadline));
    }

    // HandleAction: either the error is returned and nothing has changed, or the action is done. A win
    // ends the game, if one is ever executed.
    method HandleAction(a: Action, now: int) returns (e: Option<GameError>)
      requires Valid()
      modifies this, players
      ensures Valid() && players == old(players)
      ensures Done(Handle(rules, old(View()), a, now + 30), e, old(View()), View())
    {
      hide Validate, Execute, Conclude;
      e := ValidateAction(a);
      if e.Some? {
        return;
      }
      e := ExecuteAction(a);
      if e.Some? {
        return;
      }
      if a.kind == CallWin {
        over := true;
        return;
      }
      JudgeAndRecord(a, now + 30);
    }

    // The tasks are offered or the turn passes on, and the action becomes the last one.
    method JudgeAndRecord(a: Action, deadline: int)
      requires Valid()
      modifies this
      ensures Valid() && players == old(players)
      ensures View() == Conclude(rules, old(View()), a, deadline)
    {
      hide Judge;
      var tasks := JudgeTasks(a, deadline);
      if |tasks| > 0 {
        pending := tasks;
      } else if a.kind == DiscardTile || a.kind == Pass {
        current := (current + 1) % |players|;
      }
      last := Some(a);
    }

    // ProcessTaskTimeout
    method ProcessTaskTimeout(now: int)
      requires Valid()
      modifies this
      ensures Valid() && players == old(players)
      ensures View() == Expire(old(View()), now)
    {
      var timedOut := false;
      for i := 0 to |pending|
        invariant !timedOut && forall j :: 0 <= j < i ==> now <= pending[j].timeout
      {
        if now > pending[i].timeout {
          timedOut := true;
          break;
        }
      }
      if timedOut {
        pending := [];
        current := (current + 1) % |players|;
      }
    }
  }

  // The task for the player in seat j, if there is one.
  ghost function SeatTask(rules: Rules, t: Table, a: Action, deadline: int, j: nat): Option<Task>
    requires j < |t.seats|
  {
    var types := Answers(rules, t, a, j);
    if t.seats[j].id == a.player || types == [] then None
    else Some(Task(t.seats[j].id, types, a.tile, Priority(rules, types), deadline))
  }

  lemma NextTask(rules: Rules, t: Table, a: Action, deadline: int, j: nat)
    requires j < |t.seats|
    ensures var task := SeatTask(rules, t, a, deadline, j);
      TasksBefore(rules, t, a, deadline, j + 1) ==
        TasksBefore(rules, t, a, deadline, j) + if task.Some? then [task.value] else []
  {
    hide Answers, Priority;
  }

  method WithoutCopies(hand: seq<Tile>, t: Tile, times: nat) returns (r: seq<Tile>)
    ensures r == RemoveTimes(hand, t, times)
  {
    var a := FromSeq(hand);
    var m := a.Length;
    assert a[..m] == hand;
    for i := 0 to times
      invariant 0 <= m <= a.Length && RemoveTimes(a[..m], t, times - i) == RemoveTimes(hand, t, times)
    {
      m := RemoveTile(a, m, t);
    }
    r := a[..m];
  }

  lemma OthersStep(tiles: seq<Tile>, i: nat, last: Tile)
    requires i < |tiles|
    ensures var now, next := Others(tiles[i..], last), Others(tiles[i + 1..], last);
      if tiles[i] == last then now == next else now != [] && now[0] == tiles[i] && now[1..] == next
  {
    assert tiles[i..][1..] == tiles[i + 1..];
  }

  method WithoutOthers(hand: seq<Tile>, tiles: seq<Tile>, last: Tile) returns (r: seq<Tile>)
    ensures r == RemoveEach(hand, Others(tiles, last))
  {
    var a := FromSeq(hand);
    var m := a.Length;
    assert a[..m] == hand && tiles[0..] == tiles;
    for i := 0 to |tiles|
      invariant 0 <= m <= a.Length
      invariant RemoveEach(a[..m], Others(tiles[i..], last)) == RemoveEach(hand, Others(tiles, last))
    {
      OthersStep(tiles, i, last);
      if tiles[i] != last {
        m := RemoveTile(a, m, tiles[i]);
      }
    }
    r := a[..m];
  }

  datatype InitError = WrongPlayerCount(expected: int, actual: nat)

  // Initialize: the shuffle is a parameter, of which only "a permutation of the generated deck" is
  // known. The source fails outright when there are no players or too few tiles for them.
  method Start(rules: Rules, ids: seq<string>, playerCount: int, shuffled: seq<Tile>)
    returns (r: Result<Engine, InitError>)
    requires forall k :: CountIn(shuffled, k) == if InDeck(rules, k) then 4 else 0
    requires |ids| == playerCount ==> 1 <= |ids| && DealtFrom(|ids|) <= |shuffled|
    ensures r.Err? <==> |ids| != playerCount
    ensures r.Ok? ==> fresh(r.value) && fresh(r.value.players) && r.value.Valid() && r.value.rules == rules
    ensures r.Ok? ==> r.value.View() == Initial(rules, ids, shuffled) && Inv(rules, r.value.View())
  {
    if |ids| != playerCount {
      return Err(WrongPlayerCount(playerCount, |ids|));
    }
    InitialInv(rules, ids, shuffled);
    var engine := new Engine(rules, ids, shuffled);
    return Ok(engine);
  }
}
