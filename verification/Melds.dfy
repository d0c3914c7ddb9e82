// What it means for tiles to make up a winning hand, independently of any search.
module Melds {
  import opened Tiles

  // A meld of a concealed hand: three equal tiles, or three suited tiles that follow each other.
  datatype Meld = Triplet(tile: Tile) | Run(first: Tile)

  // A run may start at value 7 at the latest and only in the three numbered suits.
  predicate Legal(m: Meld) {
    m.Run? ==> StartsRun(m.first)
  }

  predicate StartsRun(t: Tile) {
    t.suit < Wind && t.value <= 7
  }

  function Second(t: Tile): Tile
    requires StartsRun(t)
  {
    Tile(t.suit, t.value + 1)
  }

  function Third(t: Tile): Tile
    requires StartsRun(t)
  {
    Tile(t.suit, t.value + 2)
  }

  ghost function TilesOf(m: Meld): multiset<Tile>
    requires Legal(m)
  {
    match m
    case Triplet(t) => multiset{t, t, t}
    case Run(t) => multiset{t, Second(t), Third(t)}
  }

  ghost predicate AllLegal(melds: seq<Meld>) {
    forall i :: 0 <= i < |melds| ==> Legal(melds[i])
  }

  // All the tiles of the melds together.
  ghost function Union(melds: seq<Meld>): multiset<Tile>
    requires AllLegal(melds)
  {
    if melds == [] then multiset{} else TilesOf(melds[0]) + Union(melds[1..])
  }

  function PairOf(t: Tile): multiset<Tile> {
    multiset{t, t}
  }

  // The melds use exactly these tiles.
  ghost predicate LaysOut(melds: seq<Meld>, tiles: multiset<Tile>) {
    AllLegal(melds) && Union(melds) == tiles
  }

  // The tiles can be laid out as melds with none left over.
  ghost predicate Splits(tiles: multiset<Tile>) {
    exists melds: seq<Meld> :: LaysOut(melds, tiles)
  }

  // The pair and the four melds use exactly these tiles.
  ghost predicate LaysOutHand(pair: Tile, melds: seq<Meld>, tiles: multiset<Tile>) {
    |melds| == 4 && AllLegal(melds) && tiles == PairOf(pair) + Union(melds)
  }

  // A pair and four melds.
  ghost predicate PairAndFourMelds(tiles: multiset<Tile>) {
    exists pair: Tile, melds: seq<Meld> :: LaysOutHand(pair, melds, tiles)
  }

  // Seven different kinds, each exactly twice.
  ghost predicate SevenDifferentPairs(tiles: multiset<Tile>) {
    exists kinds: set<Tile> :: |kinds| == 7 && TwiceEach(kinds, tiles)
  }

  ghost predicate TwiceEach(kinds: set<Tile>, tiles: multiset<Tile>) {
    forall t :: tiles[t] == if t in kinds then 2 else 0
  }

  ghost predicate AllTriplets(melds: seq<Meld>) {
    forall i :: 0 <= i < |melds| ==> melds[i].Triplet?
  }

  // A pair and four triplets.
  ghost predicate PairAndFourTriplets(tiles: multiset<Tile>) {
    exists pair: Tile, melds: seq<Meld> :: AllTriplets(melds) && LaysOutHand(pair, melds, tiles)
  }

  // t is a smallest tile of the multiset.
  ghost predicate Smallest(t: Tile, tiles: multiset<Tile>) {
    t in tiles && forall u :: u in tiles ==> AtMost(t, u)
  }

  lemma {:induction false} UnionSize(melds: seq<Meld>)
    requires AllLegal(melds)
    ensures |Union(melds)| == 3 * |melds|
  {
    if melds != [] {
      UnionSize(melds[1..]);
    }
  }

  // Only multiples of three split.
  lemma SplitsSize(tiles: multiset<Tile>)
    requires Splits(tiles)
    ensures |tiles| % 3 == 0
  {
    hide Union, AllLegal;
    var melds :| LaysOut(melds, tiles);
    UnionSize(melds);
  }

  lemma EmptySplits()
    ensures Splits(multiset{})
  {
    assert LaysOut([], multiset{});
  }

  lemma UnionCons(m: Meld, melds: seq<Meld>)
    requires Legal(m) && AllLegal(melds)
    ensures AllLegal([m] + melds) && Union([m] + melds) == TilesOf(m) + Union(melds)
  {
    assert ([m] + melds)[1..] == melds;
  }

  // One more meld.
  lemma AddMeld(m: Meld, tiles: multiset<Tile>)
    requires Legal(m) && Splits(tiles)
    ensures Splits(TilesOf(m) + tiles)
  {
    var melds :| LaysOut(melds, tiles);
    UnionCons(m, melds);
    assert LaysOut([m] + melds, TilesOf(m) + tiles);
  }

  // A tile of the union lies in one of the melds; taking that meld away leaves the union of the others.
  lemma {:induction false} MeldWith(t: Tile, melds: seq<Meld>) returns (m: Meld, others: seq<Meld>)
    requires AllLegal(melds) && t in Union(melds)
    ensures Legal(m) && t in TilesOf(m)
    ensures AllLegal(others) && Union(melds) == TilesOf(m) + Union(others)
  {
    if t in TilesOf(melds[0]) {
      m, others := melds[0], melds[1..];
    } else {
      var rest;
      m, rest := MeldWith(t, melds[1..]);
      UnionCons(melds[0], rest);
      others := [melds[0]] + rest;
    }
  }

  // m can be taken out so that the rest still splits.
  ghost predicate Takes(m: Meld, tiles: multiset<Tile>) {
    Legal(m) && TilesOf(m) <= tiles && Splits(tiles - TilesOf(m))
  }

  lemma Regroup<T>(part: multiset<T>, rest: multiset<T>)
    ensures part <= part + rest && part + rest - part == rest
  {
  }

  lemma PutBack<T>(part: multiset<T>, whole: multiset<T>)
    requires part <= whole
    ensures part + (whole - part) == whole && |whole - part| == |whole| - |part|
  {
    assert part + (whole - part) == whole;
  }

  lemma TakesSplits(m: Meld, tiles: multiset<Tile>)
    requires Takes(m, tiles)
    ensures Splits(tiles)
  {
    AddMeld(m, tiles - TilesOf(m));
    PutBack(TilesOf(m), tiles);
  }

  lemma MeldOfSmallest(t: Tile, m: Meld, tiles: multiset<Tile>)
    requires Smallest(t, tiles) && Legal(m) && TilesOf(m) <= tiles && t in TilesOf(m)
    ensures m == Triplet(t) || m == Run(t)
  {
    if m.Run? {
      assert m.first in TilesOf(m);
      assert m.first in tiles;
    }
  }

  // The step that makes the search complete: whatever the decomposition, its smallest tile is the
  // tile of a triplet or the first tile of a run.
  lemma SplitsBySmallest(t: Tile, tiles: multiset<Tile>)
    requires Smallest(t, tiles)
    ensures Splits(tiles) <==> Takes(Triplet(t), tiles) || Takes(Run(t), tiles)
  {
    if Splits(tiles) {
      var melds :| LaysOut(melds, tiles);
      var m, others := MeldWith(t, melds);
      Regroup(TilesOf(m), Union(others));
      assert LaysOut(others, tiles - TilesOf(m));
      MeldOfSmallest(t, m, tiles);
    }
    if Takes(Triplet(t), tiles) {
      TakesSplits(Triplet(t), tiles);
    }
    if Takes(Run(t), tiles) {
      TakesSplits(Run(t), tiles);
    }
  }

  // ---------- The pair ----------

  // p occurs twice and the rest splits.
  ghost predicate EyesAt(p: Tile, tiles: multiset<Tile>) {
    PairOf(p) <= tiles && Splits(tiles - PairOf(p))
  }

  // A pair taken out of fourteen tiles leaves four melds exactly when the rest splits.
  lemma PairLeavesMelds(tiles: multiset<Tile>)
    requires |tiles| == 14
    ensures PairAndFourMelds(tiles) <==> exists p :: EyesAt(p, tiles)
  {
    if PairAndFourMelds(tiles) {
      var pair: Tile, melds: seq<Meld> :| LaysOutHand(pair, melds, tiles);
      Regroup(PairOf(pair), Union(melds));
      assert LaysOut(melds, tiles - PairOf(pair));
      assert EyesAt(pair, tiles);
    }
    if p :| EyesAt(p, tiles) {
      var melds :| LaysOut(melds, tiles - PairOf(p));
      PutBack(PairOf(p), tiles);
      UnionSize(melds);
      assert LaysOutHand(p, melds, tiles);
    }
  }

  // ---------- Triplets only ----------

  ghost predicate CountsInThrees(tiles: multiset<Tile>) {
    forall t :: t in tiles ==> tiles[t] % 3 == 0
  }

  lemma {:induction false} TripletsCountInThrees(melds: seq<Meld>)
    requires AllLegal(melds) && AllTriplets(melds)
    ensures forall t :: Union(melds)[t] % 3 == 0
  {
    if melds != [] {
      TripletsCountInThrees(melds[1..]);
      TripletCounts(melds[0]);
      hide TilesOf, AllLegal, AllTriplets;
      SumOfThrees(TilesOf(melds[0]), Union(melds[1..]));
    }
  }

  lemma TripletCounts(m: Meld)
    requires Legal(m) && m.Triplet?
    ensures forall t :: TilesOf(m)[t] == if t == m.tile then 3 else 0
  {
  }

  lemma SumOfThrees(a: multiset<Tile>, b: multiset<Tile>)
    requires forall t :: a[t] % 3 == 0
    requires forall t :: b[t] % 3 == 0
    ensures forall t :: (a + b)[t] % 3 == 0
  {
    forall t
      ensures (a + b)[t] % 3 == 0
    {
      assert (a + b)[t] == a[t] + b[t];
    }
  }

  lemma TripletOut(t: Tile, tiles: multiset<Tile>)
    requires CountsInThrees(tiles) && t in tiles
    ensures TilesOf(Triplet(t)) <= tiles && CountsInThrees(tiles - TilesOf(Triplet(t)))
  {
    var three := TilesOf(Triplet(t));
    assert three[t] == 3 && forall u :: u != t ==> three[u] == 0;
    assert tiles[t] % 3 == 0 && tiles[t] >= 3;
    hide TilesOf;
    forall u | u in tiles - three
      ensures (tiles - three)[u] % 3 == 0
    {
      assert u in tiles && (tiles - three)[u] == tiles[u] - three[u];
    }
  }

  lemma {:induction false} TripletsFor(tiles: multiset<Tile>) returns (melds: seq<Meld>)
    requires CountsInThrees(tiles)
    ensures AllLegal(melds) && AllTriplets(melds) && Union(melds) == tiles
    decreases |tiles|
  {
    if tiles == multiset{} {
      melds := [];
    } else {
      var t :| t in tiles;
      var m := Triplet(t);
      TripletOut(t, tiles);
      PutBack(TilesOf(m), tiles);
      var rest := TripletsFor(tiles - TilesOf(m));
      UnionCons(m, rest);
      melds := [m] + rest;
    }
  }

  ghost predicate TripletEyesAt(p: Tile, tiles: multiset<Tile>) {
    PairOf(p) <= tiles && CountsInThrees(tiles - PairOf(p))
  }

  // The count test of the all-triplets check decides whether a hand is a pair and four triplets.
  lemma PairLeavesTriplets(tiles: multiset<Tile>)
    requires |tiles| == 14
    ensures PairAndFourTriplets(tiles) <==> exists p :: TripletEyesAt(p, tiles)
  {
    if PairAndFourTriplets(tiles) {
      var pair: Tile, melds: seq<Meld> :| AllTriplets(melds) && LaysOutHand(pair, melds, tiles);
      TripletsCountInThrees(melds);
      Regroup(PairOf(pair), Union(melds));
      assert TripletEyesAt(pair, tiles);
    }
    if p :| TripletEyesAt(p, tiles) {
      var melds := TripletsFor(tiles - PairOf(p));
      PutBack(PairOf(p), tiles);
      UnionSize(melds);
      assert LaysOutHand(p, melds, tiles);
    }
  }

  lemma SevenPairsCounts(tiles: multiset<Tile>)
    requires SevenDifferentPairs(tiles)
    ensures forall t :: t in tiles ==> tiles[t] == 2
  {
  }

  lemma TripletHandCount(tiles: multiset<Tile>) returns (t: Tile)
    requires PairAndFourTriplets(tiles)
    ensures tiles[t] >= 3
  {
    var pair: Tile, melds: seq<Meld> :| AllTriplets(melds) && LaysOutHand(pair, melds, tiles);
    t := melds[0].tile;
    assert TilesOf(melds[0])[t] == 3;
    assert Union(melds)[t] >= 3;
  }

  // A hand of triplets is a basic win and never seven pairs.
  lemma TripletsWin(tiles: multiset<Tile>)
    requires PairAndFourTriplets(tiles)
    ensures PairAndFourMelds(tiles) && !SevenDifferentPairs(tiles)
  {
    var t := TripletHandCount(tiles);
    if SevenDifferentPairs(tiles) {
      SevenPairsCounts(tiles);
      assert false;
    }
  }

  // ---------- Pairs ----------

  // The multiset is the sum of its kinds' counts; stated for any part of the kinds.
  ghost function CountOver(tiles: multiset<Tile>, kinds: set<Tile>): nat
    decreases kinds
  {
    if kinds == {} then 0 else var t :| t in kinds; tiles[t] + CountOver(tiles, kinds - {t})
  }

  lemma {:induction false} CountOverSplit(tiles: multiset<Tile>, kinds: set<Tile>, t: Tile)
    requires t in kinds
    ensures CountOver(tiles, kinds) == tiles[t] + CountOver(tiles, kinds - {t})
    decreases kinds
  {
    var u :| u in kinds && CountOver(tiles, kinds) == tiles[u] + CountOver(tiles, kinds - {u});
    if u != t {
      CountOverSplit(tiles, kinds - {u}, t);
      CountOverSplit(tiles, kinds - {t}, u);
      assert kinds - {u} - {t} == kinds - {t} - {u};
    }
  }

  lemma {:induction false} CountOverAll(tiles: multiset<Tile>, kinds: set<Tile>)
    requires forall t :: t in tiles <==> t in kinds
    ensures CountOver(tiles, kinds) == |tiles|
    decreases kinds
  {
    if kinds != {} {
      var t :| t in kinds;
      var rest := tiles[t := 0];
      CountOverAll(rest, kinds - {t});
      CountOverSame(tiles, rest, kinds - {t});
      CountOverSplit(tiles, kinds, t);
      assert |tiles| == |rest| + tiles[t];
    } else {
      assert tiles == multiset{};
    }
  }

  lemma {:induction false} CountOverSame(a: multiset<Tile>, b: multiset<Tile>, kinds: set<Tile>)
    requires forall t :: t in kinds ==> a[t] == b[t]
    ensures CountOver(a, kinds) == CountOver(b, kinds)
    decreases kinds
  {
    if kinds != {} {
      var t :| t in kinds;
      CountOverSame(a, b, kinds - {t});
      CountOverSplit(a, kinds, t);
      CountOverSplit(b, kinds, t);
    }
  }

  // Counts of two and four only: the total is at least twice the kinds, with equality only for pairs.
  lemma {:induction false} TwosAndFours(tiles: multiset<Tile>, kinds: set<Tile>)
    requires forall t :: t in kinds ==> tiles[t] == 2 || tiles[t] == 4
    ensures CountOver(tiles, kinds) >= 2 * |kinds|
    ensures CountOver(tiles, kinds) == 2 * |kinds| <==> forall t :: t in kinds ==> tiles[t] == 2
    decreases kinds
  {
    if kinds != {} {
      var t :| t in kinds;
      TwosAndFours(tiles, kinds - {t});
      CountOverSplit(tiles, kinds, t);
      assert forall u :: u in kinds <==> u == t || u in kinds - {t};
    }
  }
}
