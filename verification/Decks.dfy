// GenerateDeck of the two rule sets.
module Decks {
  import opened Tiles
  import opened Game

  // Four copies of each value from 1 to top in the suit.
  function SuitTiles(suit: Int8, top: nat): (r: seq<Tile>)
    requires top <= 9
    ensures |r| == 4 * top
  {
    seq(4 * top, p requires 0 <= p < 4 * top => Tile(suit, 1 + p / 4))
  }

  // The deck before it is shuffled.
  function OrderedDeck(rules: Rules): seq<Tile> {
    var numbered := SuitTiles(Wan, 9) + SuitTiles(Tiao, 9) + SuitTiles(Tong, 9);
    if rules.Huitong? then numbered else numbered + SuitTiles(Wind, 4) + SuitTiles(Dragon, 3)
  }

  lemma {:induction false} SuitCount(suit: Int8, top: nat, k: Tile)
    requires top <= 9
    ensures CountIn(SuitTiles(suit, top), k) == if k.suit == suit && 1 <= k.value <= top then 4 else 0
  {
    if top > 0 {
      SuitCount(suit, top - 1, k);
      var t := Tile(suit, top);
      assert SuitTiles(suit, top) == SuitTiles(suit, top - 1) + [t, t, t, t];
    }
  }

  // Four copies of every kind of the rule set and nothing else: 108 tiles for Huitong, 136 for Taihu
  // (whose source comment promises eight flowers more than the code adds).
  lemma OrderedDeckHolds(rules: Rules, k: Tile)
    ensures |OrderedDeck(rules)| == if rules.Huitong? then 108 else 136
    ensures CountIn(OrderedDeck(rules), k) == if InDeck(rules, k) then 4 else 0
  {
    SuitCount(Wan, 9, k);
    SuitCount(Tiao, 9, k);
    SuitCount(Tong, 9, k);
    SuitCount(Wind, 4, k);
    SuitCount(Dragon, 3, k);
    hide SuitTiles;
  }

  // It is dealt out in order.
  lemma OrderedIsSorted()
    ensures |OrderedDeck(Huitong)| == 108 && Sorted(OrderedDeck(Huitong))
    ensures forall p :: 0 <= p < 108 ==> OrderedDeck(Huitong)[p] == Tile(p / 36, 1 + p % 36 / 4)
  {
    var deck := OrderedDeck(Huitong);
    assert forall p :: 0 <= p < 36 ==> deck[p] == Tile(Wan, 1 + p / 4);
    assert forall p :: 36 <= p < 72 ==> deck[p] == Tile(Tiao, 1 + (p - 36) / 4);
    assert forall p :: 72 <= p < 108 ==> deck[p] == Tile(Tong, 1 + (p - 72) / 4);
    hide OrderedDeck;
    forall p, q | 0 <= p < q < 108
      ensures AtMost(deck[p], deck[q])
    {
      assert deck[p] == Tile(p / 36, 1 + p % 36 / 4) && deck[q] == Tile(q / 36, 1 + q % 36 / 4);
    }
  }

  method AddSuit(deck: seq<Tile>, suit: Int8, top: Int8) returns (r: seq<Tile>)
    requires 0 <= top <= 9
    ensures r == deck + SuitTiles(suit, top)
  {
    r := deck;
    var value: Int8 := 1;
    while value <= top
      invariant 1 <= value <= top + 1
      invariant r == deck + SuitTiles(suit, value - 1)
    {
      for count := 0 to 4
        invariant r == deck + SuitTiles(suit, value)[..4 * (value - 1) + count]
      {
        r := r + [Tile(suit, value)];
      }
      value := value + 1;
    }
  }

  method GenerateDeck(rules: Rules) returns (deck: seq<Tile>)
    ensures deck == OrderedDeck(rules)
    ensures forall k :: CountIn(deck, k) == if InDeck(rules, k) then 4 else 0
  {
    hide SuitTiles, CountIn;
    deck := [];
    deck := AddSuit(deck, Wan, 9);
    deck := AddSuit(deck, Tiao, 9);
    deck := AddSuit(deck, Tong, 9);
    if rules.Taihu? {
      deck := AddSuit(deck, Wind, 4);
      deck := AddSuit(deck, Dragon, 3);
    }
    assert deck == OrderedDeck(rules);
    forall k
      ensures CountIn(deck, k) == if InDeck(rules, k) then 4 else 0
    {
      OrderedDeckHolds(rules, k);
    }
  }
}
