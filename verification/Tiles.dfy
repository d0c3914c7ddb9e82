// Tiles and the slice operations of core/tile.go.
//
// A Go slice that is sorted or shifted in place is an array together with the number of its
// elements that the slice still covers; an operation that returns a shorter slice over the same
// storage returns the new number.
module Tiles {

  // Go's int8, the type of suits and values.
  type Int8 = x: int | -128 <= x <= 127

  const Wan: Int8 := 0
  const Tiao: Int8 := 1
  const Tong: Int8 := 2
  const Wind: Int8 := 3
  const Dragon: Int8 := 4
  const Flower: Int8 := 5

  datatype Tile = Tile(suit: Int8, value: Int8)

  // ---------- Order ----------

  // The comparison passed to the sort: by suit, then by value.
  predicate Less(a: Tile, b: Tile) {
    if a.suit != b.suit then a.suit < b.suit else a.value < b.value
  }

  predicate AtMost(a: Tile, b: Tile) {
    !Less(b, a)
  }

  ghost predicate Sorted(s: seq<Tile>) {
    forall i, j :: 0 <= i < j < |s| ==> AtMost(s[i], s[j])
  }

  // ---------- Pure counterparts of the slice operations ----------

  function Insert(t: Tile, s: seq<Tile>): seq<Tile> {
    if s == [] || AtMost(t, s[0]) then [t] + s else [s[0]] + Insert(t, s[1..])
  }

  // The sorted permutation of s.
  function Sort(s: seq<Tile>): seq<Tile> {
    if s == [] then [] else Insert(s[0], Sort(s[1..]))
  }

  // s without its first t.
  function RemoveOne(s: seq<Tile>, t: Tile): seq<Tile> {
    if s == [] then [] else if s[0] == t then s[1..] else [s[0]] + RemoveOne(s[1..], t)
  }

  function RemoveTimes(s: seq<Tile>, t: Tile, times: nat): seq<Tile>
    decreases times
  {
    if times == 0 then s else RemoveTimes(RemoveOne(s, t), t, times - 1)
  }

  // s without its first target for each target in turn.
  function RemoveEach(s: seq<Tile>, targets: seq<Tile>): seq<Tile>
    decreases |targets|
  {
    if targets == [] then s else RemoveEach(RemoveOne(s, targets[0]), targets[1..])
  }

  // No tile twice.
  ghost predicate Distinct(s: seq<Tile>) {
    forall i, j :: 0 <= i < j < |s| ==> s[i] != s[j]
  }

  // ---------- Lemmas ----------

  lemma {:induction false} MultisetCons(s: seq<Tile>)
    requires s != []
    ensures multiset(s) == multiset{s[0]} + multiset(s[1..])
  {
    assert s == [s[0]] + s[1..];
  }

  lemma {:induction false} InsertProperties(t: Tile, s: seq<Tile>)
    requires Sorted(s)
    ensures Sorted(Insert(t, s)) && multiset(Insert(t, s)) == multiset(s) + multiset{t}
  {
    if s == [] || AtMost(t, s[0]) {
    } else {
      InsertProperties(t, s[1..]);
      MultisetCons(s);
      var r := Insert(t, s[1..]);
      forall x | x in r
        ensures AtMost(s[0], x)
      {
        assert x in multiset(r);
        assert x == t || x in multiset(s[1..]);
      }
    }
  }

  // Sort yields a sorted permutation.
  lemma {:induction false} SortProperties(s: seq<Tile>)
    ensures Sorted(Sort(s)) && multiset(Sort(s)) == multiset(s) && |Sort(s)| == |s|
  {
    if s != [] {
      SortProperties(s[1..]);
      InsertProperties(s[0], Sort(s[1..]));
      MultisetCons(s);
    }
    assert |multiset(Sort(s))| == |multiset(s)|;
  }

  // A sorted permutation is unique, so nothing depends on which sorting algorithm the library uses.
  lemma {:induction false} SortedIsUnique(a: seq<Tile>, b: seq<Tile>)
    requires Sorted(a) && Sorted(b) && multiset(a) == multiset(b)
    ensures a == b
  {
    assert |multiset(a)| == |multiset(b)|;
    if a != [] {
      assert a[0] in multiset(b) && b[0] in multiset(a);
      assert a[0] == b[0];
      MultisetCons(a);
      MultisetCons(b);
      assert multiset(a[1..]) == multiset(a) - multiset{a[0]} == multiset(b[1..]);
      SortedIsUnique(a[1..], b[1..]);
    }
  }

  lemma {:induction false} RemoveOneProperties(s: seq<Tile>, t: Tile)
    ensures multiset(RemoveOne(s, t)) == multiset(s) - multiset{t}
    ensures |RemoveOne(s, t)| == if t in s then |s| - 1 else |s|
  {
    if s != [] {
      MultisetCons(s);
      if s[0] != t {
        RemoveOneProperties(s[1..], t);
      }
    }
  }

  lemma {:induction false} RemoveTimesCount(s: seq<Tile>, t: Tile, times: nat, k: Tile)
    ensures multiset(RemoveTimes(s, t, times))[k] ==
      if k != t then multiset(s)[k] else if multiset(s)[t] <= times then 0 else multiset(s)[t] - times
    decreases times
  {
    if times > 0 {
      RemoveOneProperties(s, t);
      hide RemoveOne;
      RemoveTimesCount(RemoveOne(s, t), t, times - 1, k);
    }
  }

  lemma RemoveTimesProperties(s: seq<Tile>, t: Tile, times: nat)
    ensures multiset(RemoveTimes(s, t, times)) ==
      multiset(s)[t := if multiset(s)[t] <= times then 0 else multiset(s)[t] - times]
  {
    hide RemoveTimes;
    forall k
      ensures multiset(RemoveTimes(s, t, times))[k] ==
        if k != t then multiset(s)[k] else if multiset(s)[t] <= times then 0 else multiset(s)[t] - times
    {
      RemoveTimesCount(s, t, times, k);
    }
  }

  lemma {:induction false} RemoveEachProperties(s: seq<Tile>, targets: seq<Tile>)
    requires multiset(targets) <= multiset(s)
    ensures multiset(RemoveEach(s, targets)) == multiset(s) - multiset(targets)
    decreases |targets|
  {
    if targets != [] {
      MultisetCons(targets);
      RemoveOneProperties(s, targets[0]);
      RemoveEachProperties(RemoveOne(s, targets[0]), targets[1..]);
    }
  }

  // The position of the first t cuts s where RemoveOne does.
  lemma {:induction false} RemoveOneAt(s: seq<Tile>, t: Tile, i: nat)
    requires i < |s| && s[i] == t && t !in s[..i]
    ensures RemoveOne(s, t) == s[..i] + s[i + 1..]
  {
    if i > 0 {
      assert s[0] == s[..i][0];
      assert s[..i][1..] == s[1..][..i - 1];
      RemoveOneAt(s[1..], t, i - 1);
    }
  }

  lemma {:induction false} RemoveOneAbsent(s: seq<Tile>, t: Tile)
    requires t !in s
    ensures RemoveOne(s, t) == s
  {
    if s != [] {
      RemoveOneAbsent(s[1..], t);
    }
  }

  // ---------- The operations ----------

  // SortTiles: in place over the first n elements. The library sort is modelled by insertion sort;
  // by SortedIsUnique every sort leaves the same elements in the same places.
  method SortTiles(a: array<Tile>, n: nat)
    requires n <= a.Length
    modifies a
    ensures a[..n] == Sort(old(a[..n]))
    ensures a[n..] == old(a[n..])
  {
    var i := 0;
    while i < n
      invariant i <= n
      invariant Sorted(a[..i])
      invariant multiset(a[..i]) == multiset(old(a[..i]))
      invariant a[i..] == old(a[i..])
    {
      assert a[i + 1..] == a[i..][1..] == old(a[i + 1..]) && a[i] == a[i..][0];
      assert old(a[..i + 1]) == old(a[..i]) + [old(a[i])];
      SiftLeft(a, i);
      i := i + 1;
    }
    SortProperties(old(a[..n]));
    SortedIsUnique(a[..n], Sort(old(a[..n])));
  }

  // Sorted but for the tile at j, which may be too large a place to the right.
  ghost predicate SortedBut(s: seq<Tile>, j: nat) {
    forall p, q :: 0 <= p < q < |s| && q != j ==> AtMost(s[p], s[q])
  }

  lemma SwapMovesGap(s: seq<Tile>, j: nat)
    requires 0 < j < |s| && SortedBut(s, j) && Less(s[j], s[j - 1])
    ensures SortedBut(s[j := s[j - 1]][j - 1 := s[j]], j - 1)
  {
  }

  lemma GapCloses(s: seq<Tile>, j: nat)
    requires j < |s| && SortedBut(s, j) && (j == 0 || !Less(s[j], s[j - 1]))
    ensures Sorted(s)
  {
  }

  // Moves a[i] left to its place among the sorted a[..i].
  method SiftLeft(a: array<Tile>, i: nat)
    requires i < a.Length && Sorted(a[..i])
    modifies a
    ensures Sorted(a[..i + 1])
    ensures multiset(a[..i + 1]) == multiset(old(a[..i])) + multiset{old(a[i])}
    ensures a[i + 1..] == old(a[i + 1..])
  {
    ghost var before := a[..i + 1];
    assert before == a[..i] + [a[i]];
    var j := i;
    assert SortedBut(before, i);
    hide Sorted, SortedBut, AtMost;
    while j > 0 && Less(a[j], a[j - 1])
      invariant j <= i
      invariant a[i + 1..] == old(a[i + 1..])
      invariant SortedBut(a[..i + 1], j)
      invariant multiset(a[..i + 1]) == multiset(before)
    {
      SwapMovesGap(a[..i + 1], j);
      SwapDown(a, j, i + 1);
      j := j - 1;
    }
    GapCloses(a[..i + 1], j);
  }

  method SwapDown(a: array<Tile>, j: nat, n: nat)
    requires 0 < j < n <= a.Length
    modifies a
    ensures a[..n] == old(a[..n][j := a[j - 1]][j - 1 := a[j]])
    ensures a[n..] == old(a[n..])
    ensures multiset(a[..n]) == multiset(old(a[..n]))
  {
    ghost var s := a[..n];
    a[j], a[j - 1] := a[j - 1], a[j];
    assert a[..n] == s[j := s[j - 1]][j - 1 := s[j]];
  }

  // CountTile
  method CountTile(a: array<Tile>, n: nat, target: Tile) returns (count: nat)
    requires n <= a.Length
    ensures count == multiset(a[..n])[target]
  {
    count := 0;
    for i := 0 to n
      invariant count == multiset(a[..i])[target]
    {
      assert a[..i + 1] == a[..i] + [a[i]];
      if a[i] == target {
        count := count + 1;
      }
    }
  }

  function MovedUp(s: seq<Tile>, from: nat, to: nat): (r: seq<Tile>)
    requires from < to <= |s|
    ensures |r| == |s|
  {
    s[..from] + s[from + 1..to] + s[to - 1..]
  }

  // The tiles behind place from move one place up; the one before to stays where it is, too.
  method MoveUp(a: array<Tile>, from: nat, to: nat)
    requires from < to <= a.Length
    modifies a
    ensures a[..] == MovedUp(old(a[..]), from, to)
  {
    for p := from to to - 1
      invariant forall k :: 0 <= k < a.Length && !(from <= k < p) ==> a[k] == old(a[k])
      invariant forall k :: from <= k < p ==> a[k] == old(a[k + 1])
    {
      a[p] := a[p + 1];
    }
  }

  // RemoveTile: shifts the tiles behind the first match one place to the left.
  method RemoveTile(a: array<Tile>, n: nat, target: Tile) returns (m: nat)
    requires n <= a.Length
    modifies a
    ensures m <= n && a[..m] == RemoveOne(old(a[..n]), target)
    ensures m == if target in old(a[..n]) then n - 1 else n
    ensures forall k :: m <= k < a.Length ==> a[k] == old(a[k])
  {
    ghost var s := a[..n];
    for i := 0 to n
      invariant target !in s[..i] && a[..] == old(a[..])
    {
      if a[i] == target {
        RemoveOneAt(s, target, i);
        MoveUp(a, i, n);
        assert a[..n - 1] == s[..i] + s[i + 1..];
        return n - 1;
      }
    }
    RemoveOneAbsent(s, target);
    assert s[..n] == s;
    return n;
  }

  // ContainsTile
  method ContainsTile(a: array<Tile>, n: nat, target: Tile) returns (found: bool)
    requires n <= a.Length
    ensures found <==> target in a[..n]
  {
    for i := 0 to n
      invariant target !in a[..i]
    {
      if a[i] == target {
        return true;
      }
    }
    return false;
  }

  // CloneTiles
  method CloneTiles(a: array<Tile>, n: nat) returns (b: array<Tile>)
    requires n <= a.Length
    ensures fresh(b) && b.Length == n && b[..] == a[..n]
  {
    b := FromSeq(a[..n]);
  }

  // A slice with storage of its own.
  method FromSeq(s: seq<Tile>) returns (b: array<Tile>)
    ensures fresh(b) && b.Length == |s| && b[..] == s
  {
    b := new Tile[|s|](i requires 0 <= i < |s| => s[i]);
  }

  // The targets can be taken out of the hand one after the other.
  predicate Holds(hand: seq<Tile>, targets: seq<Tile>)
    decreases |targets|
  {
    targets == [] || (targets[0] in hand && Holds(RemoveOne(hand, targets[0]), targets[1..]))
  }

  lemma {:induction false} HoldsIsInclusion(hand: seq<Tile>, targets: seq<Tile>)
    ensures Holds(hand, targets) <==> multiset(targets) <= multiset(hand)
    decreases |targets|
  {
    if targets != [] {
      var t, rest := targets[0], RemoveOne(hand, targets[0]);
      MultisetCons(targets);
      RemoveOneProperties(hand, t);
      HoldsIsInclusion(rest, targets[1..]);
      InclusionStep(t, multiset(targets[1..]), multiset(hand));
    }
  }

  lemma InclusionStep(t: Tile, part: multiset<Tile>, whole: multiset<Tile>)
    ensures multiset{t} + part <= whole <==> t in whole && part <= whole - multiset{t}
  {
    if multiset{t} + part <= whole {
      assert (multiset{t} + part)[t] >= 1;
      assert forall u :: part[u] <= (whole - multiset{t})[u] by {
        assert forall u :: (multiset{t} + part)[u] <= whole[u];
      }
    }
  }

  lemma HoldsStep(hand: seq<Tile>, targets: seq<Tile>, i: nat)
    requires i < |targets|
    ensures Holds(hand, targets[i..]) <==> targets[i] in hand && Holds(RemoveOne(hand, targets[i]), targets[i + 1..])
  {
    assert targets[i..][1..] == targets[i + 1..];
    hide RemoveOne;
  }

  lemma NoTargets(hand: seq<Tile>)
    ensures Holds(hand, [])
  {
  }

  // ContainsTiles: whether the hand holds the targets, counted with multiplicity.
  method ContainsTiles(hand: seq<Tile>, targets: seq<Tile>) returns (found: bool)
    ensures found <==> multiset(targets) <= multiset(hand)
  {
    HoldsIsInclusion(hand, targets);
    hide Holds, RemoveOne;
    var copy := FromSeq(hand);
    var n: nat := copy.Length;
    assert copy[..n] == hand && targets[0..] == targets;
    for i := 0 to |targets|
      invariant n <= copy.Length
      invariant Holds(hand, targets) == Holds(copy[..n], targets[i..])
    {
      HoldsStep(copy[..n], targets, i);
      var present := ContainsTile(copy, n, targets[i]);
      if !present {
        return false;
      }
      n := RemoveTile(copy, n, targets[i]);
    }
    NoTargets(copy[..n]);
    assert targets[|targets|..] == [];
    return true;
  }

  // GetUniqueTiles: each kind once.
  method GetUniqueTiles(a: array<Tile>, n: nat) returns (kinds: seq<Tile>)
    requires n <= a.Length
    ensures Distinct(kinds)
    ensures forall t :: t in kinds <==> t in a[..n]
  {
    var seen: set<Tile> := {};
    kinds := [];
    for i := 0 to n
      invariant forall t :: t in seen <==> t in kinds
      invariant forall t :: t in kinds <==> t in a[..i]
      invariant Distinct(kinds)
    {
      assert a[..i + 1] == a[..i] + [a[i]];
      if a[i] !in seen {
        seen := seen + {a[i]};
        kinds := kinds + [a[i]];
      }
    }
  }

  // ---------- Sequences ----------

  // Go's int8 addition wraps.
  function Add8(a: Int8, b: Int8): Int8 {
    if a + b > 127 then a + b - 256 else if a + b < -128 then a + b + 256 else a + b
  }

  predicate RunStart(t: Tile) {
    t.suit < Wind && t.value <= 125
  }

  // Three tiles of a numbered suit whose values follow each other.
  function RunFrom(t: Tile): seq<Tile>
    requires RunStart(t)
  {
    [t, Tile(t.suit, t.value + 1), Tile(t.suit, t.value + 2)]
  }

  // Some order of s is such a run.
  ghost predicate IsRun(s: seq<Tile>) {
    exists t: Tile :: RunStart(t) && multiset(s) == multiset(RunFrom(t))
  }

  // IsSequence
  method IsSequence(tiles: seq<Tile>) returns (ok: bool)
    ensures ok <==> IsRun(tiles)
  {
    RunShape(tiles);
    if |tiles| != 3 {
      return false;
    }
    if tiles[0].suit != tiles[1].suit || tiles[1].suit != tiles[2].suit {
      return false;
    }
    if tiles[0].suit >= Wind {
      return false;
    }
    var sorted := FromSeq(tiles);
    assert sorted[..3] == tiles;
    SortTiles(sorted, 3);
    SortProperties(tiles);
    SequenceTest(tiles, sorted[..3]);
    ok := sorted[1].value == Add8(sorted[0].value, 1) && sorted[2].value == Add8(sorted[1].value, 1);
  }

  lemma RunShape(s: seq<Tile>)
    ensures IsRun(s) ==> |s| == 3 && s[0].suit == s[1].suit == s[2].suit < Wind
  {
    if IsRun(s) {
      var t: Tile :| RunStart(t) && multiset(s) == multiset(RunFrom(t));
      assert |multiset(s)| == |multiset(RunFrom(t))| == 3;
      forall i | 0 <= i < |s|
        ensures s[i].suit == t.suit
      {
        assert s[i] in multiset(RunFrom(t));
        assert s[i] in RunFrom(t);
      }
    }
  }

  // On a sorted copy the test of neighbouring values decides whether the tiles are a run.
  lemma SequenceTest(tiles: seq<Tile>, s: seq<Tile>)
    requires |tiles| == 3 && tiles[0].suit == tiles[1].suit == tiles[2].suit < Wind
    requires Sorted(s) && multiset(s) == multiset(tiles) && |s| == 3
    ensures IsRun(tiles) <==> s[1].value == Add8(s[0].value, 1) && s[2].value == Add8(s[1].value, 1)
  {
    if IsRun(tiles) {
      var t: Tile :| RunStart(t) && multiset(tiles) == multiset(RunFrom(t));
      RunIsSorted(t);
      hide RunFrom, IsRun, Sorted;
      SortedIsUnique(s, RunFrom(t));
    }
    if s[1].value == Add8(s[0].value, 1) && s[2].value == Add8(s[1].value, 1) {
      hide IsRun, Sorted;
      SortedSuits(tiles, s);
      ArithmeticRun(s);
      SameTilesSameRun(s, tiles);
    }
  }

  lemma SameTilesSameRun(a: seq<Tile>, b: seq<Tile>)
    requires multiset(a) == multiset(b)
    ensures IsRun(a) <==> IsRun(b)
  {
  }

  lemma RunIsSorted(t: Tile)
    requires RunStart(t)
    ensures Sorted(RunFrom(t)) && |RunFrom(t)| == 3
    ensures RunFrom(t)[1].value == Add8(RunFrom(t)[0].value, 1) && RunFrom(t)[2].value == Add8(RunFrom(t)[1].value, 1)
  {
  }

  lemma ArithmeticRun(s: seq<Tile>)
    requires |s| == 3 && s[0].suit == s[1].suit == s[2].suit < Wind && s[0].value <= s[1].value <= s[2].value
    requires s[1].value == Add8(s[0].value, 1) && s[2].value == Add8(s[1].value, 1)
    ensures IsRun(s)
  {
    assert RunStart(s[0]) && s == RunFrom(s[0]);
  }

  lemma SortedSuits(tiles: seq<Tile>, s: seq<Tile>)
    requires |tiles| == 3 && tiles[0].suit == tiles[1].suit == tiles[2].suit
    requires Sorted(s) && multiset(s) == multiset(tiles) && |s| == 3
    ensures s[0].suit == s[1].suit == s[2].suit == tiles[0].suit
    ensures s[0].value <= s[1].value <= s[2].value
  {
    forall i | 0 <= i < 3
      ensures s[i].suit == tiles[0].suit
    {
      assert s[i] in multiset(tiles);
      assert s[i] in tiles;
    }
    assert AtMost(s[0], s[1]) && AtMost(s[1], s[2]);
  }
}
