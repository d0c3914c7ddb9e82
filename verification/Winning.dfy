// The hand recognition shared, line for line, by the two rule sets (winning.go of htmajong and of
// thmahjong): searches over sorted slices, proved against the shapes of module Melds.
module Winning {
  import opened Tiles
  import opened Melds
  import opened Options

  // The hand with the new tile appended, when there is one.
  function WithNew(hand: seq<Tile>, newTile: Option<Tile>): seq<Tile> {
    match newTile
    case None => hand
    case Some(t) => hand + [t]
  }

  // ---------- checkMianZi ----------

  // The tiles of the slice split into melds.
  ghost predicate MianZi(s: seq<Tile>) {
    Splits(multiset(s))
  }

  ghost predicate BasicWin(s: seq<Tile>) {
    |s| == 14 && PairAndFourMelds(multiset(s))
  }

  ghost predicate TripletHand(s: seq<Tile>) {
    |s| == 14 && PairAndFourTriplets(multiset(s))
  }

  lemma SortKeepsShape(s: seq<Tile>)
    ensures BasicWin(Sort(s)) == BasicWin(s) && TripletHand(Sort(s)) == TripletHand(s) && MianZi(Sort(s)) == MianZi(s)
    ensures Sorted(Sort(s)) && |Sort(s)| == |s|
  {
    SortProperties(s);
  }

  lemma MianZiSize(s: seq<Tile>)
    requires MianZi(s)
    ensures |s| % 3 == 0
  {
    SplitsSize(multiset(s));
    assert |multiset(s)| == |s|;
  }

  lemma FirstIsSmallest(s: seq<Tile>)
    requires s != [] && Sorted(s)
    ensures Smallest(s[0], multiset(s))
  {
    forall u | u in multiset(s)
      ensures AtMost(s[0], u)
    {
      var i :| 0 <= i < |s| && s[i] == u;
    }
  }

  function WithoutRun(s: seq<Tile>, t: Tile): seq<Tile>
    requires StartsRun(t)
  {
    RemoveOne(RemoveOne(RemoveOne(s, t), Second(t)), Third(t))
  }

  lemma TakeInTurn<T>(m: multiset<T>, a: T, b: T, c: T)
    ensures m - multiset{a} - multiset{b} - multiset{c} == m - multiset{a, b, c}
    ensures m - multiset{a} - multiset{b} == m - multiset{a, b}
  {
  }

  lemma ThreeOut(s: seq<Tile>, t: Tile)
    requires multiset(s)[t] >= 3
    ensures TilesOf(Triplet(t)) <= multiset(s)
    ensures multiset(RemoveTimes(s, t, 3)) == multiset(s) - TilesOf(Triplet(t))
    ensures |RemoveTimes(s, t, 3)| == |s| - 3
  {
    var s1 := RemoveOne(s, t);
    var s2 := RemoveOne(s1, t);
    assert RemoveTimes(s, t, 3) == RemoveTimes(s1, t, 2) == RemoveTimes(s2, t, 1) == RemoveOne(s2, t);
    RemoveOneProperties(s, t);
    RemoveOneProperties(s1, t);
    RemoveOneProperties(s2, t);
    TakeInTurn(multiset(s), t, t, t);
  }

  lemma RunOut(s: seq<Tile>, t: Tile)
    requires StartsRun(t) && t in s && Second(t) in s && Third(t) in s
    ensures TilesOf(Run(t)) <= multiset(s)
    ensures multiset(WithoutRun(s, t)) == multiset(s) - TilesOf(Run(t))
    ensures |WithoutRun(s, t)| == |s| - 3
  {
    var s1 := RemoveOne(s, t);
    var s2 := RemoveOne(s1, Second(t));
    RemoveOneProperties(s, t);
    assert Second(t) in multiset(s1) && Third(t) in multiset(s1);
    RemoveOneProperties(s1, Second(t));
    assert Third(t) in multiset(s2);
    RemoveOneProperties(s2, Third(t));
    TakeInTurn(multiset(s), t, Second(t), Third(t));
  }

  lemma ThreeOutSize(s: seq<Tile>, t: Tile)
    requires multiset(s)[t] >= 3
    ensures |RemoveTimes(s, t, 3)| == |s| - 3
  {
    ThreeOut(s, t);
  }

  lemma RunOutSize(s: seq<Tile>, t: Tile)
    requires StartsRun(t) && t in s && Second(t) in s && Third(t) in s
    ensures |WithoutRun(s, t)| == |s| - 3
  {
    RunOut(s, t);
  }

  // On a sorted slice the two attempts of the search cover every decomposition.
  lemma MianZiStep(s: seq<Tile>)
    requires s != [] && Sorted(s)
    ensures MianZi(s) <==>
      (multiset(s)[s[0]] >= 3 && MianZi(RemoveTimes(s, s[0], 3))) ||
      (StartsRun(s[0]) && Second(s[0]) in s && Third(s[0]) in s && MianZi(WithoutRun(s, s[0])))
  {
    var t := s[0];
    FirstIsSmallest(s);
    SplitsBySmallest(t, multiset(s));
    if multiset(s)[t] >= 3 {
      ThreeOut(s, t);
    } else {
      assert TilesOf(Triplet(t))[t] == 3;
    }
    if StartsRun(t) {
      if Second(t) in s && Third(t) in s {
        RunOut(s, t);
      } else {
        assert Second(t) in TilesOf(Run(t)) && Third(t) in TilesOf(Run(t));
      }
    }
  }

  // Backtracks over the smallest tile. The slice may come back sorted; nothing else changes.
  method CheckMianZi(a: array<Tile>, n: nat) returns (ok: bool)
    requires n <= a.Length
    modifies a
    ensures ok <==> MianZi(old(a[..n]))
    ensures a[..n] == old(a[..n]) || a[..n] == Sort(old(a[..n]))
    ensures a[n..] == old(a[n..])
    decreases n, 1
  {
    if n == 0 {
      EmptySplits();
      return true;
    }
    if n % 3 != 0 {
      if MianZi(a[..n]) {
        MianZiSize(a[..n]);
      }
      return false;
    }
    SortKeepsShape(a[..n]);
    SortTiles(a, n);
    MianZiStep(a[..n]);
    ok := TryTriplet(a, n);
    if !ok {
      ok := TryRun(a, n);
    }
  }

  // The attempt with three of the first tile.
  method TryTriplet(a: array<Tile>, n: nat) returns (ok: bool)
    requires 0 < n <= a.Length
    ensures ok <==> multiset(a[..n])[a[0]] >= 3 && MianZi(RemoveTimes(a[..n], a[0], 3))
    decreases n, 0
  {
    var first := a[0];
    var count := CountTile(a, n, first);
    if count < 3 {
      return false;
    }
    ThreeOutSize(a[..n], first);
    var remaining, m := CloneWithoutThree(a, n, first);
    ok := CheckMianZi(remaining, m);
  }

  // The attempt with a run that starts at the first tile: only the numbered suits form runs.
  method TryRun(a: array<Tile>, n: nat) returns (ok: bool)
    requires 0 < n <= a.Length
    ensures ok <==>
      StartsRun(a[0]) && Second(a[0]) in a[..n] && Third(a[0]) in a[..n] && MianZi(WithoutRun(a[..n], a[0]))
    decreases n, 0
  {
    hide MianZi, RemoveOne;
    var first := a[0];
    if !(first.suit < Wind && first.value <= 7) {
      return false;
    }
    var tile2 := Tile(first.suit, first.value + 1);
    var tile3 := Tile(first.suit, first.value + 2);
    var has2 := ContainsTile(a, n, tile2);
    var has3 := ContainsTile(a, n, tile3);
    if !(has2 && has3) {
      return false;
    }
    RunOutSize(a[..n], first);
    var remaining, m := CloneWithoutRun(a, n, first, tile2, tile3);
    ok := CheckMianZi(remaining, m);
  }

  method CloneWithoutThree(a: array<Tile>, n: nat, t: Tile) returns (b: array<Tile>, m: nat)
    requires n <= a.Length
    ensures fresh(b) && m <= b.Length
    ensures b[..m] == RemoveTimes(a[..n], t, 3)
  {
    b := CloneTiles(a, n);
    m := n;
    assert b[..m] == a[..n];
    for i := 0 to 3
      invariant m <= b.Length
      invariant RemoveTimes(b[..m], t, 3 - i) == RemoveTimes(a[..n], t, 3)
    {
      m := RemoveTile(b, m, t);
    }
  }

  method CloneWithoutRun(a: array<Tile>, n: nat, t: Tile, t2: Tile, t3: Tile) returns (b: array<Tile>, m: nat)
    requires n <= a.Length && StartsRun(t) && t2 == Second(t) && t3 == Third(t)
    ensures fresh(b) && m <= b.Length
    ensures b[..m] == WithoutRun(a[..n], t)
  {
    b := CloneTiles(a, n);
    assert b[..n] == a[..n];
    m := RemoveTile(b, n, t);
    m := RemoveTile(b, m, t2);
    m := RemoveTile(b, m, t3);
  }

  // ---------- checkBasicWin ----------

  // Taking the tile as the pair leaves melds.
  ghost predicate EyesOf(p: Tile, s: seq<Tile>) {
    multiset(s)[p] >= 2 && MianZi(RemoveTimes(s, p, 2))
  }

  lemma TwoOut(s: seq<Tile>, p: Tile)
    requires multiset(s)[p] >= 2
    ensures PairOf(p) <= multiset(s)
    ensures multiset(RemoveTimes(s, p, 2)) == multiset(s) - PairOf(p)
  {
    var s1 := RemoveOne(s, p);
    assert RemoveTimes(s, p, 2) == RemoveTimes(s1, p, 1) == RemoveOne(s1, p);
    RemoveOneProperties(s, p);
    RemoveOneProperties(s1, p);
    TakeInTurn(multiset(s), p, p, p);
  }

  // The search over the kinds of a slice of fourteen decides the shape.
  lemma EyesDecide(s: seq<Tile>, kinds: seq<Tile>)
    requires |s| == 14 && forall t :: t in kinds <==> t in s
    ensures BasicWin(s) <==> exists i :: 0 <= i < |kinds| && EyesOf(kinds[i], s)
  {
    assert |multiset(s)| == 14;
    PairLeavesMelds(multiset(s));
    forall p | EyesAt(p, multiset(s)) || EyesOf(p, s)
      ensures p in kinds && EyesOf(p, s) && EyesAt(p, multiset(s))
    {
      assert PairOf(p)[p] == 2;
      TwoOut(s, p);
      assert p in multiset(s);
    }
  }

  method CheckBasicWin(a: array<Tile>, n: nat) returns (ok: bool)
    requires n <= a.Length
    modifies a
    ensures ok <==> BasicWin(old(a[..n]))
    ensures a[..n] == old(a[..n]) || a[..n] == Sort(old(a[..n]))
  {
    if n != 14 {
      return false;
    }
    SortKeepsShape(a[..n]);
    SortTiles(a, n);
    var kinds := GetUniqueTiles(a, n);
    EyesDecide(a[..n], kinds);
    ok := TryEyes(a, n, kinds);
  }

  // Tries every kind as the pair.
  method TryEyes(a: array<Tile>, n: nat, kinds: seq<Tile>) returns (ok: bool)
    requires n <= a.Length
    ensures ok <==> exists i :: 0 <= i < |kinds| && EyesOf(kinds[i], a[..n])
  {
    hide MianZi, RemoveTimes;
    for i := 0 to |kinds|
      invariant forall j :: 0 <= j < i ==> !EyesOf(kinds[j], a[..n])
    {
      var count := CountTile(a, n, kinds[i]);
      if count < 2 {
        continue;
      }
      var remaining, m := WithoutPair(a, n, kinds[i]);
      var splits := CheckMianZi(remaining, m);
      if splits {
        return true;
      }
    }
    return false;
  }

  // The clone with the pair removed.
  method WithoutPair(a: array<Tile>, n: nat, p: Tile) returns (b: array<Tile>, m: nat)
    requires n <= a.Length
    ensures fresh(b) && m <= b.Length
    ensures b[..m] == RemoveTimes(a[..n], p, 2)
  {
    b := CloneTiles(a, n);
    assert b[..n] == a[..n];
    m := RemoveTile(b, n, p);
    m := RemoveTile(b, m, p);
  }

  // ---------- checkSevenPairs, checkLongQiDui ----------

  // The tileCount map that several checks fill.
  method TileCounts(a: array<Tile>, n: nat) returns (counts: map<Tile, nat>)
    requires n <= a.Length
    ensures CountsOf(counts, multiset(a[..n]))
  {
    counts := map[];
    for i := 0 to n
      invariant CountsOf(counts, multiset(a[..i]))
    {
      assert a[..i + 1] == a[..i] + [a[i]];
      counts := counts[a[i] := if a[i] in counts then counts[a[i]] + 1 else 1];
    }
  }

  ghost predicate CountsOf(counts: map<Tile, nat>, tiles: multiset<Tile>) {
    (forall t :: t in counts <==> t in tiles) && forall t :: t in counts ==> counts[t] == tiles[t]
  }

  // The map is walked in an arbitrary order.
  method CheckSevenPairs(a: array<Tile>, n: nat) returns (ok: bool)
    requires n <= a.Length
    ensures ok <==> n == 14 && SevenDifferentPairs(multiset(a[..n]))
  {
    if n != 14 {
      return false;
    }
    ghost var tiles := multiset(a[..n]);
    assert |tiles| == 14;
    var counts := TileCounts(a, n);
    var keys := counts.Keys;
    var pairCount := 0;
    ghost var pairs: set<Tile> := {};
    while keys != {}
      invariant keys <= counts.Keys
      invariant forall t :: t in counts && t !in keys ==> counts[t] == 2 || counts[t] == 4
      invariant forall t :: t in pairs <==> t in counts && t !in keys && counts[t] == 2
      invariant pairCount == |pairs|
      decreases keys
    {
      var t :| t in keys;
      keys := keys - {t};
      var count := counts[t];
      if count == 2 {
        pairCount := pairCount + 1;
        pairs := pairs + {t};
      } else if count != 4 && count != 0 {
        if SevenDifferentPairs(tiles) {
          SevenPairsCounts(tiles);
        }
        return false;
      }
    }
    SevenPairsTest(counts, pairs, tiles);
    return pairCount >= 7 || |counts| == 7;
  }

  // Although counts of four are let through, fourteen tiles pass only as seven different kinds.
  lemma SevenPairsTest(counts: map<Tile, nat>, pairs: set<Tile>, tiles: multiset<Tile>)
    requires CountsOf(counts, tiles) && |tiles| == 14
    requires forall t :: t in counts ==> counts[t] == 2 || counts[t] == 4
    requires forall t :: t in pairs <==> t in counts && counts[t] == 2
    ensures SevenDifferentPairs(tiles) <==> |pairs| >= 7 || |counts| == 7
  {
    var kinds := counts.Keys;
    assert |kinds| == |counts|;
    CountOverAll(tiles, kinds);
    TwosAndFours(tiles, kinds);
    SubsetSize(pairs, kinds);
    if |kinds| == 7 {
      assert TwiceEach(kinds, tiles);
    }
    if SevenDifferentPairs(tiles) {
      var seven: set<Tile> :| |seven| == 7 && TwiceEach(seven, tiles);
      assert forall t :: t in kinds <==> t in seven;
      assert kinds == seven;
    }
  }

  lemma {:induction false} SubsetSize<T>(a: set<T>, b: set<T>)
    requires a <= b
    ensures |a| <= |b|
  {
    if a != {} {
      var x :| x in a;
      SubsetSize(a - {x}, b - {x});
    }
  }

  // Seven pairs with a quad among them.
  ghost predicate DragonPairs(tiles: multiset<Tile>) {
    SevenDifferentPairs(tiles) && exists t :: tiles[t] == 4
  }

  // There is no such hand: seven pairs never hold a quad.
  lemma NoDragonPairs(tiles: multiset<Tile>)
    ensures !DragonPairs(tiles)
  {
    if SevenDifferentPairs(tiles) {
      SevenPairsCounts(tiles);
      assert forall t :: t !in tiles ==> tiles[t] == 0;
    }
  }

  method CheckLongQiDui(a: array<Tile>, n: nat) returns (ok: bool)
    requires n <= a.Length
    ensures ok <==> n == 14 && DragonPairs(multiset(a[..n]))
  {
    var seven := CheckSevenPairs(a, n);
    if !seven {
      return false;
    }
    hide SevenDifferentPairs;
    var counts := TileCounts(a, n);
    ghost var tiles := multiset(a[..n]);
    var keys := counts.Keys;
    while keys != {}
      invariant keys <= counts.Keys
      invariant forall t :: t in counts && t !in keys ==> counts[t] != 4
      decreases keys
    {
      var t :| t in keys;
      keys := keys - {t};
      if counts[t] == 4 {
        assert tiles[t] == 4;
        return true;
      }
    }
    assert forall t :: t !in tiles ==> tiles[t] == 0;
    return false;
  }

  // ---------- checkJiangJiangHu (Huitong), checkPengPengHu (Taihu) ----------

  ghost predicate TripletEyesOf(p: Tile, s: seq<Tile>) {
    multiset(s)[p] >= 2 && CountsInThrees(multiset(RemoveTimes(s, p, 2)))
  }

  lemma TripletEyesDecide(s: seq<Tile>, kinds: seq<Tile>)
    requires |s| == 14 && forall t :: t in kinds <==> t in s
    ensures TripletHand(s) <==> exists i :: 0 <= i < |kinds| && TripletEyesOf(kinds[i], s)
  {
    assert |multiset(s)| == 14;
    PairLeavesTriplets(multiset(s));
    forall p | TripletEyesAt(p, multiset(s)) || TripletEyesOf(p, s)
      ensures p in kinds && TripletEyesOf(p, s) && TripletEyesAt(p, multiset(s))
    {
      assert PairOf(p)[p] == 2;
      TwoOut(s, p);
      assert p in multiset(s);
    }
  }

  method CheckTripletHand(a: array<Tile>, n: nat) returns (ok: bool)
    requires n <= a.Length
    modifies a
    ensures ok <==> TripletHand(old(a[..n]))
    ensures a[..n] == old(a[..n]) || a[..n] == Sort(old(a[..n]))
  {
    if n != 14 {
      return false;
    }
    SortKeepsShape(a[..n]);
    SortTiles(a, n);
    var kinds := GetUniqueTiles(a, n);
    TripletEyesDecide(a[..n], kinds);
    ok := TryTripletEyes(a, n, kinds);
  }

  method TryTripletEyes(a: array<Tile>, n: nat, kinds: seq<Tile>) returns (ok: bool)
    requires n <= a.Length
    ensures ok <==> exists i :: 0 <= i < |kinds| && TripletEyesOf(kinds[i], a[..n])
  {
    for i := 0 to |kinds|
      invariant forall j :: 0 <= j < i ==> !TripletEyesOf(kinds[j], a[..n])
    {
      var count := CountTile(a, n, kinds[i]);
      if count < 2 {
        continue;
      }
      var remaining, m := WithoutPair(a, n, kinds[i]);
      var triplets := CheckAllTriplets(remaining, m);
      if triplets {
        return true;
      }
    }
    return false;
  }

  lemma ThreesSize(s: seq<Tile>)
    requires CountsInThrees(multiset(s))
    ensures |s| % 3 == 0
  {
    hide Union;
    var tiles := multiset(s);
    assert |tiles| == |s|;
    var melds := TripletsFor(tiles);
    UnionSize(melds);
  }

  // checkAllTriplets: every count a multiple of three.
  method CheckAllTriplets(a: array<Tile>, n: nat) returns (ok: bool)
    requires n <= a.Length
    ensures ok <==> CountsInThrees(multiset(a[..n]))
  {
    if n == 0 {
      return true;
    }
    if n % 3 != 0 {
      if CountsInThrees(multiset(a[..n])) {
        ThreesSize(a[..n]);
      }
      return false;
    }
    var counts := TileCounts(a, n);
    ghost var tiles := multiset(a[..n]);
    var keys := counts.Keys;
    while keys != {}
      invariant keys <= counts.Keys
      invariant forall t :: t in counts && t !in keys ==> counts[t] % 3 == 0
      decreases keys
    {
      var t :| t in keys;
      keys := keys - {t};
      if counts[t] % 3 != 0 {
        assert t in tiles && tiles[t] % 3 != 0;
        return false;
      }
    }
    assert forall t :: t in tiles ==> tiles[t] == counts[t];
    return true;
  }

  // ---------- CanWin ----------

  // Fourteen tiles win as a pair with four melds or as seven different pairs.
  ghost predicate Wins(tiles: multiset<Tile>) {
    |tiles| == 14 && (PairAndFourMelds(tiles) || SevenDifferentPairs(tiles))
  }

  method CanWin(hand: seq<Tile>, newTile: Option<Tile>) returns (ok: bool)
    ensures ok <==> Wins(multiset(WithNew(hand, newTile)))
  {
    var s := WithNew(hand, newTile);
    var all := FromSeq(s);
    var n := all.Length;
    assert all[..n] == s && |multiset(s)| == |s|;
    ok := CheckBasicWin(all, n);
    if !ok {
      SortProperties(s);
      ok := CheckSevenPairs(all, n);
    }
  }

  // A hand of triplets always wins, and it wins as a basic hand.
  lemma TripletHandWins(tiles: multiset<Tile>)
    requires |tiles| == 14 && PairAndFourTriplets(tiles)
    ensures Wins(tiles) && PairAndFourMelds(tiles) && !SevenDifferentPairs(tiles)
  {
    TripletsWin(tiles);
  }

  // ---------- Hands that cannot win ----------

  // A tile without a second copy and without any tile of its suit within two values is part of no meld
  // and no pair.
  ghost predicate Lone(t: Tile, tiles: multiset<Tile>) {
    tiles[t] == 1 &&
    forall k :: k in tiles && k != t && k.suit == t.suit ==> k.value < t.value - 2 || k.value > t.value + 2
  }

  lemma LoneLoses(t: Tile, tiles: multiset<Tile>)
    requires Lone(t, tiles)
    ensures !Wins(tiles)
  {
    if SevenDifferentPairs(tiles) {
      SevenPairsCounts(tiles);
    }
    if PairAndFourMelds(tiles) {
      var pair, melds :| |melds| == 4 && LaysOutHand(pair, melds, tiles);
      LoneInNoMeld(t, pair, melds, tiles);
    }
  }

  lemma LoneInNoMeld(t: Tile, pair: Tile, melds: seq<Meld>, tiles: multiset<Tile>)
    requires Lone(t, tiles)
    ensures !LaysOutHand(pair, melds, tiles)
  {
    if LaysOutHand(pair, melds, tiles) {
      assert tiles[pair] >= 2;
      hide Lone;
      var m, others := MeldWith(t, melds);
      Regroup(TilesOf(m), Union(others));
      LoneOutsideMeld(t, m, tiles);
    }
  }

  lemma LoneOutsideMeld(t: Tile, m: Meld, tiles: multiset<Tile>)
    requires Lone(t, tiles) && Legal(m) && TilesOf(m) <= tiles
    ensures t !in TilesOf(m)
  {
    match m
    case Triplet(k) => assert tiles[k] >= TilesOf(m)[k] == 3;
    case Run(first) =>
      assert first in TilesOf(m) && Second(first) in TilesOf(m) && Third(first) in TilesOf(m);
      assert first in tiles && Second(first) in tiles && Third(first) in tiles;
  }
}
