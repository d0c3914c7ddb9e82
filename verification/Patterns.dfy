// The scored patterns of a winning hand, for both rule sets, and the Huitong settlement.
module Patterns {
  import opened Tiles
  import opened Melds
  import opened Winning
  import opened Options
  import opened Game

  datatype PatternName =
    | OneSuit | DragonSevenPairs | SevenPairs | Triplets | MissingSuit | ReadyHand | Plain
    | NoFlowerSelfDraw | SingleWait | DealerStays

  datatype WinPattern = WinPattern(name: PatternName, score: int)

  // CalculateScore
  function TotalScore(patterns: seq<WinPattern>): int {
    if patterns == [] then 0 else patterns[0].score + TotalScore(patterns[1..])
  }

  method CalculateScore(patterns: seq<WinPattern>) returns (total: int)
    ensures total == TotalScore(patterns)
  {
    total := 0;
    for i := 0 to |patterns|
      invariant total + TotalScore(patterns[i..]) == TotalScore(patterns)
    {
      total := total + patterns[i].score;
    }
  }

  // The list with one more pattern if the check b succeeded.
  function AddIf(patterns: seq<WinPattern>, b: bool, name: PatternName, score: int): seq<WinPattern> {
    if b then patterns + [WinPattern(name, score)] else patterns
  }

  lemma {:induction false} TotalScoreAdd(patterns: seq<WinPattern>, b: bool, name: PatternName, score: int)
    ensures TotalScore(AddIf(patterns, b, name, score)) == TotalScore(patterns) + if b then score else 0
  {
    if b && patterns != [] {
      assert (patterns + [WinPattern(name, score)])[1..] == patterns[1..] + [WinPattern(name, score)];
      TotalScoreAdd(patterns[1..], b, name, score);
    }
  }

  // ---------- Shapes that depend on suits only ----------

  // All tiles, and there are some, share a suit.
  ghost predicate SameSuit(s: seq<Tile>) {
    s != [] && forall t :: t in s ==> t.suit == s[0].suit
  }

  ghost predicate SameNumberedSuit(s: seq<Tile>) {
    SameSuit(s) && s[0].suit < Wind
  }

  // The numbered suits that occur.
  ghost function NumberedSuits(s: seq<Tile>): set<Int8> {
    set t | t in s && t.suit <= Tong :: t.suit
  }

  ghost predicate MissesASuit(s: seq<Tile>) {
    |NumberedSuits(s)| == 2
  }

  ghost predicate SevenPairHand(s: seq<Tile>) {
    |s| == 14 && SevenDifferentPairs(multiset(s))
  }

  // The order of the tiles plays no part.
  lemma SuitShapesOfSorted(s: seq<Tile>)
    ensures SameSuit(Sort(s)) == SameSuit(s) && MissesASuit(Sort(s)) == MissesASuit(s)
    ensures SevenPairHand(Sort(s)) == SevenPairHand(s)
  {
    SortProperties(s);
    var u := Sort(s);
    assert multiset(u) == multiset(s);
    assert forall t :: t in u <==> t in s by {
      assert forall t :: t in u <==> t in multiset(u);
      assert forall t :: t in s <==> t in multiset(s);
    }
    assert NumberedSuits(u) == NumberedSuits(s);
    if s != [] {
      assert s[0] in u && u[0] in s;
    }
  }

  // checkQingYiSe of Huitong
  method CheckQingYiSe(a: array<Tile>, n: nat) returns (ok: bool)
    requires n <= a.Length
    ensures ok <==> SameSuit(a[..n])
  {
    if n == 0 {
      return false;
    }
    var firstSuit := a[0].suit;
    for i := 0 to n
      invariant forall j :: 0 <= j < i ==> a[j].suit == firstSuit
    {
      if a[i].suit != firstSuit {
        assert a[i] in a[..n];
        return false;
      }
    }
    return true;
  }

  // checkQingYiSe of Taihu: the suit must be a numbered one.
  method CheckNumberedQingYiSe(a: array<Tile>, n: nat) returns (ok: bool)
    requires n <= a.Length
    ensures ok <==> SameNumberedSuit(a[..n])
  {
    if n == 0 {
      return false;
    }
    if a[0].suit >= Wind {
      return false;
    }
    ok := CheckQingYiSe(a, n);
  }

  // checkQueYiMen
  method CheckQueYiMen(a: array<Tile>, n: nat) returns (ok: bool)
    requires n <= a.Length
    ensures ok <==> MissesASuit(a[..n])
  {
    var suits: set<Int8> := {};
    for i := 0 to n
      invariant suits == NumberedSuits(a[..i])
    {
      assert a[..i + 1] == a[..i] + [a[i]];
      if a[i].suit <= Tong {
        suits := suits + {a[i].suit};
      }
    }
    return |suits| == 2;
  }

  ghost predicate DragonHand(s: seq<Tile>) {
    |s| == 14 && DragonPairs(multiset(s))
  }

  method CheckSevenPairHand(a: array<Tile>, n: nat) returns (ok: bool)
    requires n <= a.Length
    ensures ok <==> SevenPairHand(a[..n])
  {
    ok := CheckSevenPairs(a, n);
  }

  method CheckDragonHand(a: array<Tile>, n: nat) returns (ok: bool)
    requires n <= a.Length
    ensures ok <==> DragonHand(a[..n])
  {
    ok := CheckLongQiDui(a, n);
  }

  // A hand without any special pattern is plain.
  function OrPlain(special: seq<WinPattern>): seq<WinPattern> {
    if |special| == 0 then [WinPattern(Plain, 1)] else special
  }

  // The two pair patterns exclude each other.
  ghost function AddPairs(patterns: seq<WinPattern>, s: seq<Tile>): seq<WinPattern> {
    if DragonHand(s) then patterns + [WinPattern(DragonSevenPairs, 8)]
    else AddIf(patterns, SevenPairHand(s), SevenPairs, 6)
  }

  // ---------- Huitong ----------

  // The special patterns of a hand in the order in which they are listed.
  ghost function HuitongSpecial(s: seq<Tile>, ready: bool): seq<WinPattern> {
    var suited := AddIf([], SameSuit(s), OneSuit, 10);
    var paired := AddPairs(suited, s);
    var tripled := AddIf(paired, TripletHand(s), Triplets, 6);
    var missed := AddIf(tripled, MissesASuit(s), MissingSuit, 2);
    AddIf(missed, ready, ReadyHand, 5)
  }

  // The player with the id declared a ready hand in round one.
  predicate DeclaredReady(seats: seq<Seat>, id: string) {
    var i := Find(seats, id);
    i >= 0 && seats[i].extra.HuitongExtra? && seats[i].extra.isTing && seats[i].extra.tingRound == 1
  }

  // GetWinPatterns of Huitong, for the player with the id.
  method HuitongWinPatterns(hand: seq<Tile>, newTile: Option<Tile>, seats: seq<Seat>, id: string)
    returns (patterns: seq<WinPattern>)
    ensures patterns == OrPlain(HuitongSpecial(WithNew(hand, newTile), DeclaredReady(seats, id)))
  {
    patterns := [];
    var s := WithNew(hand, newTile);
    var all := FromSeq(s);
    var n := all.Length;
    assert all[..n] == s;
    SuitShapesOfSorted(s);
    hide SameSuit, MissesASuit, SevenPairHand, TripletHand, DragonHand, DeclaredReady;

    var oneSuit := CheckQingYiSe(all, n);
    if oneSuit {
      patterns := patterns + [WinPattern(OneSuit, 10)];
    }
    var dragon := CheckDragonHand(all, n);
    if dragon {
      patterns := patterns + [WinPattern(DragonSevenPairs, 8)];
    } else {
      var seven := CheckSevenPairHand(all, n);
      if seven {
        patterns := patterns + [WinPattern(SevenPairs, 6)];
      }
    }
    var triplets := CheckTripletHand(all, n);
    if triplets {
      patterns := patterns + [WinPattern(Triplets, 6)];
    }
    var missing := CheckQueYiMen(all, n);
    if missing {
      patterns := patterns + [WinPattern(MissingSuit, 2)];
    }
    if DeclaredReady(seats, id) {
      patterns := patterns + [WinPattern(ReadyHand, 5)];
    }
    if |patterns| == 0 {
      patterns := patterns + [WinPattern(Plain, 1)];
    }
  }

  // One suit leaves no second one, triplets leave no seven pairs, and pairs hold no quad.
  lemma ExclusivePatterns(s: seq<Tile>)
    ensures !(SameSuit(s) && MissesASuit(s))
    ensures !(SevenPairHand(s) && TripletHand(s))
    ensures !DragonHand(s)
  {
    if SameSuit(s) {
      SubsetSize(NumberedSuits(s), {s[0].suit});
    }
    if TripletHand(s) {
      TripletsWin(multiset(s));
    }
    NoDragonPairs(multiset(s));
  }

  function Score(b: bool, score: int): int {
    if b then score else 0
  }

  lemma HuitongSum(s: seq<Tile>, ready: bool)
    ensures TotalScore(HuitongSpecial(s, ready)) ==
      Score(SameSuit(s), 10) + Score(SevenPairHand(s), 6) + Score(TripletHand(s), 6) +
      Score(MissesASuit(s), 2) + Score(ready, 5)
  {
    ExclusivePatterns(s);
    hide SameSuit, MissesASuit, SevenPairHand, TripletHand, DragonHand;
    var suited := AddIf([], SameSuit(s), OneSuit, 10);
    var paired := AddPairs(suited, s);
    var tripled := AddIf(paired, TripletHand(s), Triplets, 6);
    var missed := AddIf(tripled, MissesASuit(s), MissingSuit, 2);
    TotalScoreAdd([], SameSuit(s), OneSuit, 10);
    TotalScoreAdd(suited, SevenPairHand(s), SevenPairs, 6);
    TotalScoreAdd(paired, TripletHand(s), Triplets, 6);
    TotalScoreAdd(tripled, MissesASuit(s), MissingSuit, 2);
    TotalScoreAdd(missed, ready, ReadyHand, 5);
  }

  lemma AddIfMembers(patterns: seq<WinPattern>, b: bool, name: PatternName, score: int)
    ensures forall p :: p in AddIf(patterns, b, name, score) <==> p in patterns || (b && p == WinPattern(name, score))
  {
  }

  // What is listed for a hand, with which score.
  lemma HuitongListedIff(s: seq<Tile>, ready: bool, p: WinPattern)
    ensures p in OrPlain(HuitongSpecial(s, ready)) <==>
      || (SameSuit(s) && p == WinPattern(OneSuit, 10))
      || (SevenPairHand(s) && p == WinPattern(SevenPairs, 6))
      || (TripletHand(s) && p == WinPattern(Triplets, 6))
      || (MissesASuit(s) && p == WinPattern(MissingSuit, 2))
      || (ready && p == WinPattern(ReadyHand, 5))
      || (!SameSuit(s) && !SevenPairHand(s) && !TripletHand(s) && !MissesASuit(s) && !ready &&
          p == WinPattern(Plain, 1))
  {
    ExclusivePatterns(s);
    hide SameSuit, MissesASuit, SevenPairHand, TripletHand, DragonHand;
    var suited := AddIf([], SameSuit(s), OneSuit, 10);
    var paired := AddPairs(suited, s);
    var tripled := AddIf(paired, TripletHand(s), Triplets, 6);
    var missed := AddIf(tripled, MissesASuit(s), MissingSuit, 2);
    AddIfMembers([], SameSuit(s), OneSuit, 10);
    AddIfMembers(suited, SevenPairHand(s), SevenPairs, 6);
    AddIfMembers(paired, TripletHand(s), Triplets, 6);
    AddIfMembers(tripled, MissesASuit(s), MissingSuit, 2);
    AddIfMembers(missed, ready, ReadyHand, 5);
    var special := HuitongSpecial(s, ready);
    EmptyOrNot(special);
    assert special == AddIf(missed, ready, ReadyHand, 5) && paired == AddIf(suited, SevenPairHand(s), SevenPairs, 6);
    hide AddIf, AddPairs, HuitongSpecial;
    assert SameSuit(s) ==> WinPattern(OneSuit, 10) in special;
    assert SevenPairHand(s) ==> WinPattern(SevenPairs, 6) in special;
    assert TripletHand(s) ==> WinPattern(Triplets, 6) in special;
    assert MissesASuit(s) ==> WinPattern(MissingSuit, 2) in special;
    assert ready ==> WinPattern(ReadyHand, 5) in special;
  }

  lemma EmptyOrNot(patterns: seq<WinPattern>)
    ensures |patterns| == 0 <==> forall p :: p !in patterns
  {
    if |patterns| > 0 {
      assert patterns[0] in patterns;
    }
  }

  // Huitong patterns of any hand total between 1 and 21, and at most 16 without a declared ready hand.
  lemma HuitongTotal(s: seq<Tile>, ready: bool)
    ensures 1 <= TotalScore(OrPlain(HuitongSpecial(s, ready))) <= if ready then 21 else 16
  {
    ExclusivePatterns(s);
    HuitongSum(s, ready);
    hide SameSuit, MissesASuit, SevenPairHand, TripletHand, DragonHand;
  }

  // The bound is met: seven pairs 1 to 7 of one suit, declared ready.
  lemma HuitongMaximum() returns (s: seq<Tile>)
    ensures Wins(multiset(s)) && TotalScore(OrPlain(HuitongSpecial(s, true))) == 21
  {
    s := OneToSevenTwice();
    ExclusivePatterns(s);
    HuitongSum(s, true);
  }

  lemma OneToSevenTwice() returns (s: seq<Tile>)
    ensures SameSuit(s) && SameNumberedSuit(s) && SevenPairHand(s) && Wins(multiset(s))
  {
    var pairs := seq(7, i requires 0 <= i < 7 => Tile(Wan, 1 + i));
    s := pairs + pairs;
    var kinds := set i | 0 <= i < 7 :: pairs[i];
    PairsTwice(pairs, kinds);
    assert SevenDifferentPairs(multiset(s));
    forall t | t in s
      ensures t.suit == Wan
    {
      var i :| 0 <= i < |s| && s[i] == t;
    }
    assert |multiset(s)| == |s| == 14;
  }

  lemma PairsTwice(pairs: seq<Tile>, kinds: set<Tile>)
    requires Distinct(pairs) && forall t :: t in kinds <==> t in pairs
    ensures TwiceEach(kinds, multiset(pairs + pairs)) && |kinds| == |pairs|
  {
    assert multiset(pairs + pairs) == multiset(pairs) + multiset(pairs);
    OnceEach(pairs, kinds);
  }

  lemma {:induction false} OnceEach(s: seq<Tile>, kinds: set<Tile>)
    requires Distinct(s) && forall t :: t in kinds <==> t in s
    ensures |kinds| == |s| && forall t :: multiset(s)[t] == if t in kinds then 1 else 0
  {
    if s == [] {
      assert kinds == {};
    } else {
      OnceEach(s[1..], kinds - {s[0]});
      MultisetCons(s);
    }
  }

  // ---------- Taihu ----------

  // The single wait as the code tests it: thirteen tiles that split into threes.
  ghost predicate WaitsSingly(hand: seq<Tile>, newTile: Option<Tile>) {
    newTile.Some? && |hand| == 13 && MianZi(hand)
  }

  lemma NobodyWaitsSingly(hand: seq<Tile>, newTile: Option<Tile>)
    ensures !WaitsSingly(hand, newTile)
  {
    if MianZi(hand) {
      MianZiSize(hand);
    }
  }

  // checkDaDiaoChe
  method CheckDaDiaoChe(hand: seq<Tile>, newTile: Option<Tile>) returns (ok: bool)
    ensures ok <==> WaitsSingly(hand, newTile)
  {
    if newTile.None? || |hand| != 13 {
      return false;
    }
    var a := FromSeq(hand);
    assert a[..13] == hand;
    ok := CheckMianZi(a, 13);
  }

  ghost function TaihuSpecial(hand: seq<Tile>, newTile: Option<Tile>, noFlowerSelfDraw: bool): seq<WinPattern> {
    var s := WithNew(hand, newTile);
    var drawn := AddIf([], noFlowerSelfDraw, NoFlowerSelfDraw, 10);
    var suited := AddIf(drawn, SameNumberedSuit(s), OneSuit, 10);
    var paired := AddPairs(suited, s);
    var tripled := AddIf(paired, TripletHand(s), Triplets, 6);
    AddIf(tripled, WaitsSingly(hand, newTile), SingleWait, 5)
  }

  // The flowers of the player with the id; none when there is no such player.
  function FlowersOfPlayer(seats: seq<Seat>, id: string): int {
    var i := Find(seats, id);
    if i >= 0 && seats[i].extra.TaihuExtra? then seats[i].extra.flowerCount else 0
  }

  // A win straight off a discard is no self-draw.
  predicate FlowerlessSelfDraw(seats: seq<Seat>, id: string, last: Option<Action>) {
    !(last.Some? && last.value.kind == DiscardTile) && FlowersOfPlayer(seats, id) == 0
  }

  // checkWuHuaGuoZiMo and the lookup before it
  method CheckWuHuaGuoZiMo(seats: seq<Seat>, id: string, last: Option<Action>) returns (ok: bool)
    ensures ok <==> FlowerlessSelfDraw(seats, id, last)
  {
    var player, flowerCount := Find(seats, id), 0;
    if player >= 0 && seats[player].extra.TaihuExtra? {
      flowerCount := seats[player].extra.flowerCount;
    }
    if last.Some? && last.value.kind == DiscardTile {
      return false;
    }
    return flowerCount == 0;
  }

  // GetWinPatterns of Taihu, for the player with the id.
  method TaihuWinPatterns(hand: seq<Tile>, newTile: Option<Tile>, seats: seq<Seat>, id: string, last: Option<Action>)
    returns (patterns: seq<WinPattern>)
    ensures patterns == OrPlain(TaihuSpecial(hand, newTile, FlowerlessSelfDraw(seats, id, last)))
  {
    patterns := [];
    var s := WithNew(hand, newTile);
    var all := FromSeq(s);
    var n := all.Length;
    assert all[..n] == s;
    hide MissesASuit, SevenPairHand, TripletHand, DragonHand, WaitsSingly, SameNumberedSuit, FlowerlessSelfDraw;

    var selfDraw := CheckWuHuaGuoZiMo(seats, id, last);
    if selfDraw {
      patterns := patterns + [WinPattern(NoFlowerSelfDraw, 10)];
    }
    ghost var drawn := AddIf([], selfDraw, NoFlowerSelfDraw, 10);
    assert patterns == drawn;
    var oneSuit := CheckNumberedQingYiSe(all, n);
    if oneSuit {
      patterns := patterns + [WinPattern(OneSuit, 10)];
    }
    ghost var suited := AddIf(drawn, oneSuit, OneSuit, 10);
    assert patterns == suited;
    var dragon := CheckDragonHand(all, n);
    if dragon {
      patterns := patterns + [WinPattern(DragonSevenPairs, 8)];
    } else {
      var seven := CheckSevenPairHand(all, n);
      if seven {
        patterns := patterns + [WinPattern(SevenPairs, 6)];
      }
    }
    ghost var paired := AddPairs(suited, s);
    assert patterns == paired;
    var triplets := CheckTripletHand(all, n);
    if triplets {
      patterns := patterns + [WinPattern(Triplets, 6)];
    }
    assert patterns == AddIf(paired, TripletHand(s), Triplets, 6);
    var single := CheckDaDiaoChe(hand, newTile);
    if single {
      patterns := patterns + [WinPattern(SingleWait, 5)];
    }
    assert patterns == TaihuSpecial(hand, newTile, selfDraw);
    hide TaihuSpecial;
    if |patterns| == 0 {
      patterns := patterns + [WinPattern(Plain, 1)];
    }
  }

  // Neither rule set ever lists the dragon's seven pairs, nor Taihu the single wait.
  lemma NeverListed(hand: seq<Tile>, newTile: Option<Tile>, flag: bool, p: WinPattern)
    requires p in OrPlain(HuitongSpecial(WithNew(hand, newTile), flag)) ||
      p in OrPlain(TaihuSpecial(hand, newTile, flag))
    ensures p.name != DragonSevenPairs && p.name != SingleWait
  {
    ExclusivePatterns(WithNew(hand, newTile));
    NobodyWaitsSingly(hand, newTile);
    hide SameSuit, MissesASuit, SevenPairHand, TripletHand, DragonHand, WaitsSingly, SameNumberedSuit;
  }

  // What is listed for a hand, with which score.
  lemma TaihuListedIff(hand: seq<Tile>, newTile: Option<Tile>, noFlowerSelfDraw: bool, p: WinPattern)
    ensures var s := WithNew(hand, newTile);
      p in OrPlain(TaihuSpecial(hand, newTile, noFlowerSelfDraw)) <==>
      || (noFlowerSelfDraw && p == WinPattern(NoFlowerSelfDraw, 10))
      || (SameNumberedSuit(s) && p == WinPattern(OneSuit, 10))
      || (SevenPairHand(s) && p == WinPattern(SevenPairs, 6))
      || (TripletHand(s) && p == WinPattern(Triplets, 6))
      || (!noFlowerSelfDraw && !SameNumberedSuit(s) && !SevenPairHand(s) && !TripletHand(s) &&
          p == WinPattern(Plain, 1))
  {
    var s := WithNew(hand, newTile);
    ExclusivePatterns(s);
    NobodyWaitsSingly(hand, newTile);
    hide SameSuit, MissesASuit, SevenPairHand, TripletHand, DragonHand, WaitsSingly, SameNumberedSuit;
    var drawn := AddIf([], noFlowerSelfDraw, NoFlowerSelfDraw, 10);
    var suited := AddIf(drawn, SameNumberedSuit(s), OneSuit, 10);
    var paired := AddPairs(suited, s);
    var tripled := AddIf(paired, TripletHand(s), Triplets, 6);
    AddIfMembers([], noFlowerSelfDraw, NoFlowerSelfDraw, 10);
    AddIfMembers(drawn, SameNumberedSuit(s), OneSuit, 10);
    AddIfMembers(suited, SevenPairHand(s), SevenPairs, 6);
    AddIfMembers(paired, TripletHand(s), Triplets, 6);
    AddIfMembers(tripled, WaitsSingly(hand, newTile), SingleWait, 5);
    var special := TaihuSpecial(hand, newTile, noFlowerSelfDraw);
    EmptyOrNot(special);
    assert special == AddIf(tripled, WaitsSingly(hand, newTile), SingleWait, 5);
    assert paired == AddIf(suited, SevenPairHand(s), SevenPairs, 6);
    hide AddIf, AddPairs, TaihuSpecial;
    assert noFlowerSelfDraw ==> WinPattern(NoFlowerSelfDraw, 10) in special;
    assert SameNumberedSuit(s) ==> WinPattern(OneSuit, 10) in special;
    assert SevenPairHand(s) ==> WinPattern(SevenPairs, 6) in special;
    assert TripletHand(s) ==> WinPattern(Triplets, 6) in special;
  }

  // Taihu patterns of any hand total between 1 and 26.
  lemma TaihuTotal(hand: seq<Tile>, newTile: Option<Tile>, noFlowerSelfDraw: bool)
    ensures var total := TotalScore(OrPlain(TaihuSpecial(hand, newTile, noFlowerSelfDraw)));
      1 <= total <= if noFlowerSelfDraw then 26 else 16
  {
    var s := WithNew(hand, newTile);
    ExclusivePatterns(s);
    NobodyWaitsSingly(hand, newTile);
    hide SameSuit, MissesASuit, SevenPairHand, TripletHand, DragonHand, WaitsSingly, SameNumberedSuit;
    var drawn := AddIf([], noFlowerSelfDraw, NoFlowerSelfDraw, 10);
    var suited := AddIf(drawn, SameNumberedSuit(s), OneSuit, 10);
    var paired := AddPairs(suited, s);
    TotalScoreAdd([], noFlowerSelfDraw, NoFlowerSelfDraw, 10);
    TotalScoreAdd(drawn, SameNumberedSuit(s), OneSuit, 10);
    TotalScoreAdd(suited, SevenPairHand(s), SevenPairs, 6);
    TotalScoreAdd(paired, TripletHand(s), Triplets, 6);
  }

  // The bound is met: the same hand drawn without flowers.
  lemma TaihuMaximum() returns (s: seq<Tile>)
    ensures Wins(multiset(s)) && TotalScore(OrPlain(TaihuSpecial(s, None, true))) == 26
  {
    s := OneToSevenTwice();
    ExclusivePatterns(s);
    assert WithNew(s, None) == s;
    hide SameSuit, MissesASuit, SevenPairHand, TripletHand, DragonHand, WaitsSingly, SameNumberedSuit;
    NobodyWaitsSingly(s, None);
    var drawn := AddIf([], true, NoFlowerSelfDraw, 10);
    var suited := AddIf(drawn, SameNumberedSuit(s), OneSuit, 10);
    TotalScoreAdd([], true, NoFlowerSelfDraw, 10);
    TotalScoreAdd(drawn, SameNumberedSuit(s), OneSuit, 10);
    TotalScoreAdd(suited, SevenPairHand(s), SevenPairs, 6);
  }

  // ---------- Settlement (Huitong) ----------

  datatype WinType = WinDraw | WinDiscard | WinTing | WinQiangKong

  datatype Transfer = Transfer(payer: string, payee: string, amount: int, reason: string)

  // WinType.String
  function NameOf(winType: WinType): string {
    match winType
    case WinDraw => "自摸"
    case WinDiscard => "点炮"
    case WinTing => "报听胡"
    case WinQiangKong => "抢杠胡"
  }

  datatype Settlement = Settlement(winner: string, loser: string, winType: WinType, patterns: seq<WinPattern>,
                                   baseScore: int, totalScore: int, transfers: seq<Transfer>)

  function Doubled(b: bool): int {
    if b then 2 else 1
  }

  ghost predicate Lists(patterns: seq<WinPattern>, name: PatternName) {
    exists i :: 0 <= i < |patterns| && patterns[i].name == name
  }

  // hasTingPattern
  method HasTingPattern(patterns: seq<WinPattern>) returns (found: bool)
    ensures found <==> Lists(patterns, ReadyHand)
  {
    for i := 0 to |patterns|
      invariant forall j :: 0 <= j < i ==> patterns[j].name != ReadyHand
    {
      if patterns[i].name == ReadyHand {
        return true;
      }
    }
    return false;
  }

  // The base in force: zero stands for one.
  function BaseInForce(baseScore: int): int {
    if baseScore == 0 then 1 else baseScore
  }

  // Each of the four circumstances doubles the score once.
  ghost function ScoreOf(baseScore: int, winType: WinType, patterns: seq<WinPattern>, winnerDeals: bool): int {
    BaseInForce(baseScore) * TotalScore(patterns)
    * Doubled(winType == WinDraw) * Doubled(Lists(patterns, ReadyHand)) * Doubled(winType == WinQiangKong)
    * Doubled(winnerDeals)
  }

  // The payers: after a self-draw everyone whose id is not the winner's, else the loser if there is one.
  function Payers(players: seq<string>, winner: string): seq<string> {
    if players == [] then []
    else (if players[0] != winner then [players[0]] else []) + Payers(players[1..], winner)
  }

  // GetPlayerIndex
  method PlayerIndex(players: seq<string>, id: string) returns (index: int)
    ensures -1 <= index < |players|
    ensures index >= 0 ==> players[index] == id && id !in players[..index]
    ensures index == -1 ==> id !in players
  {
    for i := 0 to |players|
      invariant id !in players[..i]
    {
      if players[i] == id {
        return i;
      }
    }
    return -1;
  }

  // Whether the dealer's seat is the first seat with the winner's id.
  ghost predicate Deals(players: seq<string>, dealer: nat, winner: string) {
    dealer < |players| && players[dealer] == winner && winner !in players[..dealer]
  }

  method Transfers(players: seq<string>, winner: string, loser: string, winType: WinType, amount: int)
    returns (transfers: seq<Transfer>)
    ensures |transfers| == if winType == WinDraw then |Payers(players, winner)| else if loser != "" then 1 else 0
    ensures forall i :: 0 <= i < |transfers| ==>
      transfers[i] ==
        Transfer(if winType == WinDraw then Payers(players, winner)[i] else loser, winner, amount, NameOf(winType))
  {
    transfers := [];
    if winType == WinDraw {
      for i := 0 to |players|
        invariant |transfers| + |Payers(players[i..], winner)| == |Payers(players, winner)|
        invariant Payers(players, winner)[|transfers|..] == Payers(players[i..], winner)
        invariant forall j :: 0 <= j < |transfers| ==>
          transfers[j] == Transfer(Payers(players, winner)[j], winner, amount, "自摸")
      {
        if players[i] != winner {
          transfers := transfers + [Transfer(players[i], winner, amount, "自摸")];
        }
      }
    } else if loser != "" {
      transfers := [Transfer(loser, winner, amount, NameOf(winType))];
    }
  }

  // Calculate
  method Calculate(players: seq<string>, dealer: nat, baseScore: int, winner: string, loser: string, winType: WinType,
                   patterns: seq<WinPattern>) returns (r: Settlement)
    ensures r.totalScore == ScoreOf(baseScore, winType, patterns, Deals(players, dealer, winner))
    ensures r.patterns == patterns + if Deals(players, dealer, winner) then [WinPattern(DealerStays, 0)] else []
    ensures r.winner == winner && r.loser == loser && r.winType == winType && r.baseScore == BaseInForce(baseScore)
    ensures |r.transfers| == if winType == WinDraw then |Payers(players, winner)| else if loser != "" then 1 else 0
    ensures forall i :: 0 <= i < |r.transfers| ==>
      r.transfers[i] ==
        Transfer(if winType == WinDraw then Payers(players, winner)[i] else loser, winner, r.totalScore,
                 NameOf(winType))
  {
    var totalFan := CalculateScore(patterns);
    var base := baseScore;
    if base == 0 {
      base := 1;
    }
    var totalScore := base * totalFan;
    if winType == WinDraw {
      totalScore := totalScore * 2;
    }
    var ready := HasTingPattern(patterns);
    if ready {
      totalScore := totalScore * 2;
    }
    if winType == WinQiangKong {
      totalScore := totalScore * 2;
    }
    var listed := patterns;
    var index := PlayerIndex(players, winner);
    if index != -1 && index == dealer {
      totalScore := totalScore * 2;
      listed := listed + [WinPattern(DealerStays, 0)];
    }
    assert index == dealer <==> Deals(players, dealer, winner);
    var transfers := Transfers(players, winner, loser, winType, totalScore);
    r := Settlement(winner, loser, winType, listed, base, totalScore, transfers);
  }

  lemma {:induction false} PayersAre(players: seq<string>, winner: string, id: string)
    ensures id in Payers(players, winner) <==> id in players && id != winner
  {
    if players != [] {
      PayersAre(players[1..], winner, id);
    }
  }

  // What doubles a score and what does not: a self-draw, the robbing of a kong, a listed ready hand and the
  // dealer's seat each double it, whichever of the others hold; the other kinds of win do not.
  lemma ScoreDoubles(baseScore: int, winType: WinType, patterns: seq<WinPattern>, deals: bool)
    ensures ScoreOf(baseScore, winType, patterns, true) == 2 * ScoreOf(baseScore, winType, patterns, false)
    ensures ScoreOf(baseScore, WinDraw, patterns, deals) == 2 * ScoreOf(baseScore, WinDiscard, patterns, deals)
    ensures ScoreOf(baseScore, WinQiangKong, patterns, deals) == 2 * ScoreOf(baseScore, WinDiscard, patterns, deals)
    ensures ScoreOf(baseScore, WinTing, patterns, deals) == ScoreOf(baseScore, WinDiscard, patterns, deals)
    ensures ScoreOf(baseScore, WinDiscard, patterns, false) ==
      (if baseScore == 0 then 1 else baseScore) * TotalScore(patterns) * if Lists(patterns, ReadyHand) then 2 else 1
  {
    var fan, ready := BaseInForce(baseScore) * TotalScore(patterns), Lists(patterns, ReadyHand);
    hide TotalScore, Lists;
    Factors(fan, winType == WinDraw, ready, winType == WinQiangKong);
    Factors(fan, false, ready, false);
    Factors(fan, true, ready, false);
    Factors(fan, false, ready, true);
  }

  // Doublings are counted, in whatever order.
  lemma Factors(fan: int, draw: bool, ready: bool, rob: bool)
    ensures var product, times := fan * Doubled(draw) * Doubled(ready) * Doubled(rob), Times(fan, draw, ready, rob);
      product * Doubled(true) == 2 * times && product * Doubled(false) == times
  {
    TwoTimes(fan, Doubled(draw));
    TwoTimes(fan * Doubled(draw), Doubled(ready));
    TwoTimes(fan * Doubled(draw) * Doubled(ready), Doubled(rob));
  }

  function Times(fan: int, draw: bool, ready: bool, rob: bool): int {
    var drawn := if draw then 2 * fan else fan;
    var readied := if ready then 2 * drawn else drawn;
    if rob then 2 * readied else readied
  }

  // With the patterns of some hand a settlement never exceeds 168 times the base in force.
  lemma ScoreBound(baseScore: int, winType: WinType, s: seq<Tile>, ready: bool, winnerDeals: bool)
    requires baseScore >= 0
    ensures var score := ScoreOf(baseScore, winType, OrPlain(HuitongSpecial(s, ready)), winnerDeals);
      BaseInForce(baseScore) <= score <= 168 * BaseInForce(baseScore)
  {
    var patterns := OrPlain(HuitongSpecial(s, ready));
    HuitongTotal(s, ready);
    ReadyListed(s, ready);
    var fan, base := TotalScore(patterns), BaseInForce(baseScore);
    hide OrPlain, HuitongSpecial, Lists, TotalScore;
    ProductBound(base, fan, Doubled(winType == WinDraw) * Doubled(winType == WinQiangKong),
      Doubled(ready), Doubled(winnerDeals));
    assert ScoreOf(baseScore, winType, patterns, winnerDeals)
      == base * fan * (Doubled(winType == WinDraw) * Doubled(winType == WinQiangKong))
         * Doubled(ready) * Doubled(winnerDeals);
  }

  lemma ReadyListed(s: seq<Tile>, ready: bool)
    ensures Lists(OrPlain(HuitongSpecial(s, ready)), ReadyHand) == ready
  {
    hide SameSuit, MissesASuit, SevenPairHand, TripletHand, DragonHand;
    var patterns := HuitongSpecial(s, ready);
    if ready {
      assert patterns[|patterns| - 1].name == ReadyHand;
    } else {
      assert forall p :: p in patterns ==> p.name != ReadyHand;
    }
  }

  lemma ProductBound(base: int, fan: int, drawOrRob: int, ready: int, dealer: int)
    requires base >= 1 && 1 <= fan <= (if ready == 2 then 21 else 16)
    requires 1 <= drawOrRob <= 2 && 1 <= ready <= 2 && 1 <= dealer <= 2
    ensures base <= base * fan * drawOrRob * ready * dealer <= 168 * base
  {
    var a := base * fan;
    TwoTimes(a, drawOrRob);
    TwoTimes(a * drawOrRob, ready);
    TwoTimes(a * drawOrRob * ready, dealer);
    Between(base, fan, if ready == 2 then 21 else 16);
  }

  lemma TwoTimes(x: int, d: int)
    requires 1 <= d <= 2
    ensures x * d == if d == 1 then x else 2 * x
  {
  }

  lemma Between(base: int, fan: int, most: int)
    requires base >= 1 && 1 <= fan <= most
    ensures base <= base * fan <= most * base
  {
  }

  // The bound is met by a dealer's self-drawn, declared hand.
  lemma ScoreBoundMet(baseScore: int)
    requires baseScore >= 0
    ensures exists s, winType ::
      ScoreOf(baseScore, winType, OrPlain(HuitongSpecial(s, true)), true) == 168 * BaseInForce(baseScore)
  {
    var s := HuitongMaximum();
    ReadyListed(s, true);
    var patterns := OrPlain(HuitongSpecial(s, true));
    assert ScoreOf(baseScore, WinDraw, patterns, true) == BaseInForce(baseScore) * 21 * 2 * 2 * 1 * 2;
  }
}
