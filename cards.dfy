/** The card and hand model of the blackjack server: ranks, suits, card values,
    the soft/hard ace rule of hand valuation, and the ordered 52-card deck. */
module Cards {

  /** The thirteen ranks; the source writes them as "A", "2", ..., "10", "J", "Q", "K". */
  datatype Rank = Ace | Two | Three | Four | Five | Six | Seven | Eight | Nine | Ten | Jack | Queen | King

  /** The four suits; the source writes them as "S", "H", "D", "C". */
  datatype Suit = Spades | Hearts | Diamonds | Clubs

  /** The rank list in the source's order. */
  const Ranks: seq<Rank> := [Ace, Two, Three, Four, Five, Six, Seven, Eight, Nine, Ten, Jack, Queen, King]

  /** The suit list in the source's order. */
  const Suits: seq<Suit> := [Spades, Hearts, Diamonds, Clubs]

  /** A card. The source's string rank + suit; its rank, recovered there as c[:-1], is `rank` here. */
  datatype Card = Card(rank: Rank, suit: Suit)

  /** Position of a rank in `Ranks`. */
  function RankIndex(r: Rank): (i: nat)
    ensures i < |Ranks| && Ranks[i] == r
  {
    match r
    case Ace => 0
    case Two => 1
    case Three => 2
    case Four => 3
    case Five => 4
    case Six => 5
    case Seven => 6
    case Eight => 7
    case Nine => 8
    case Ten => 9
    case Jack => 10
    case Queen => 11
    case King => 12
  }

  /** Position of a suit in `Suits`. */
  function SuitIndex(s: Suit): (i: nat)
    ensures i < |Suits| && Suits[i] == s
  {
    match s
    case Spades => 0
    case Hearts => 1
    case Diamonds => 2
    case Clubs => 3
  }

  /** card_value: face cards are worth 10, an ace 11, a numeric rank its face value. */
  function CardValue(r: Rank): (v: int)
    ensures 2 <= v <= 11
    ensures v == 11 <==> r == Ace
    ensures v == 10 <==> r in {Ten, Jack, Queen, King}
  {
    match r
    case Jack | Queen | King => 10
    case Ace => 11
    case Two => 2
    case Three => 3
    case Four => 4
    case Five => 5
    case Six => 6
    case Seven => 7
    case Eight => 8
    case Nine => 9
    case Ten => 10
  }

  /** The value of the rank at position i of the source's rank list: the ace 11,
      the numeric ranks "2".."10" their face value i + 1, the face cards 10. */
  lemma {:induction false} CardValueByPosition(i: nat)
    requires i < |Ranks|
    ensures CardValue(Ranks[i]) == if i == 0 then 11 else if i <= 9 then i + 1 else 10
  {
    assert RankIndex(Ranks[i]) == i;
  }

  /** Sum of the card values, every ace counted as 11. */
  function RawSum(cards: seq<Card>): (s: int)
    ensures 2 * |cards| <= s <= 11 * |cards|
  {
    if cards == [] then 0 else CardValue(cards[0].rank) + RawSum(cards[1..])
  }

  /** Number of aces in a hand (ranks.count("A")). */
  function AceCount(cards: seq<Card>): (n: nat)
    ensures n <= |cards|
  {
    if cards == [] then 0 else (if cards[0].rank == Ace then 1 else 0) + AceCount(cards[1..])
  }

  /** The downgrade loop of hand_total: while the total is over 21 and an ace is
      still counted as 11, count one more ace as 1. */
  function Soften(total: int, aces: nat): (s: int)
    decreases aces
    ensures total - 10 * aces <= s <= total && (total - s) % 10 == 0
    ensures s > 21 ==> s == total - 10 * aces
    ensures s < total ==> s + 10 > 21
  {
    if total > 21 && aces > 0 then Soften(total - 10, aces - 1) else total
  }

  /** hand_total. */
  function HandTotal(cards: seq<Card>): (t: int)
    ensures RawSum(cards) - 10 * AceCount(cards) <= t <= RawSum(cards)
    ensures t > 21 ==> t == RawSum(cards) - 10 * AceCount(cards)
  {
    Soften(RawSum(cards), AceCount(cards))
  }

  /** Fewest aces to downgrade to bring `raw` to 21 or below, capped at `aces`. */
  function Downgrades(raw: int, aces: nat): (k: nat)
    ensures k <= aces
  {
    if raw <= 21 then 0
    else if (raw - 12) / 10 <= aces then (raw - 12) / 10
    else aces
  }

  /** The downgrade loop removes exactly Downgrades(raw, aces) tens. */
  lemma {:induction false} SoftenClosedForm(raw: int, aces: nat)
    ensures Soften(raw, aces) == raw - 10 * Downgrades(raw, aces)
    decreases aces
  {
    if raw > 21 && aces > 0 {
      SoftenClosedForm(raw - 10, aces - 1);
      if raw - 10 <= 21 {
        assert (raw - 12) / 10 == 1;
      } else {
        assert (raw - 12) / 10 == 1 + (raw - 22) / 10;
      }
    }
  }

  /** hand_total is the all-aces-high sum minus 10 for each of k downgraded aces, where
      k is at most the number of aces; every downgrade is made while the total is above 21,
      an ace stays high only if the total is then at most 21, and a total still above 21
      means every ace was downgraded. */
  lemma {:induction false} HandTotalDowngrades(cards: seq<Card>)
    ensures var k := Downgrades(RawSum(cards), AceCount(cards));
      && HandTotal(cards) == RawSum(cards) - 10 * k
      && k <= AceCount(cards)
      && (k > 0 ==> HandTotal(cards) + 10 > 21)
      && (k < AceCount(cards) ==> HandTotal(cards) <= 21)
      && (HandTotal(cards) > 21 ==> k == AceCount(cards))
  {
    SoftenClosedForm(RawSum(cards), AceCount(cards));
  }

  /** RawSum and AceCount distribute over concatenation. */
  lemma {:induction false} CountsAppend(a: seq<Card>, b: seq<Card>)
    ensures RawSum(a + b) == RawSum(a) + RawSum(b)
    ensures AceCount(a + b) == AceCount(a) + AceCount(b)
    decreases |a|
  {
    if a == [] {
      assert a + b == b;
    } else {
      assert (a + b)[0] == a[0] && (a + b)[1..] == a[1..] + b;
      CountsAppend(a[1..], b);
    }
  }

  /** Removing one card from a hand removes its value and its ace from the counts. */
  lemma {:induction false} CountsRemove(s: seq<Card>, i: nat)
    requires i < |s|
    ensures RawSum(s) == CardValue(s[i].rank) + RawSum(s[..i] + s[i + 1..])
    ensures AceCount(s) == (if s[i].rank == Ace then 1 else 0) + AceCount(s[..i] + s[i + 1..])
  {
    var pre, post := s[..i], s[i + 1..];
    var tail := [s[i]] + post;
    assert tail[0] == s[i] && tail[1..] == post;
    assert s == pre + tail;
    CountsAppend(pre, tail);
    CountsAppend(pre, post);
  }

  /** Valuation depends only on which cards a hand holds, not on their order. */
  lemma {:induction false} HandTotalOrderIndependent(a: seq<Card>, b: seq<Card>)
    requires multiset(a) == multiset(b)
    ensures RawSum(a) == RawSum(b) && AceCount(a) == AceCount(b)
    ensures HandTotal(a) == HandTotal(b)
  {
    CountsOrderIndependent(a, b);
  }

  /** The all-aces-high sum and the ace count depend only on which cards a hand holds. */
  lemma {:induction false} CountsOrderIndependent(a: seq<Card>, b: seq<Card>)
    requires multiset(a) == multiset(b)
    ensures RawSum(a) == RawSum(b) && AceCount(a) == AceCount(b)
    decreases |a|
  {
    if a != [] {
      assert a[0] in multiset(b);
      var i :| 0 <= i < |b| && b[i] == a[0];
      var rest := b[..i] + b[i + 1..];
      RemoveAtMultiset(b, i);
      assert a == [a[0]] + a[1..];
      calc {
        multiset(a[1..]);
        multiset(a) - multiset{a[0]};
        multiset(b) - multiset{b[i]};
        multiset(rest);
      }
      CountsOrderIndependent(a[1..], rest);
      CountsRemove(b, i);
    } else {
      assert b == [];
    }
  }

  /** Removing the element at position i removes one occurrence of it. */
  lemma {:induction false} RemoveAtMultiset(s: seq<Card>, i: nat)
    requires i < |s|
    ensures multiset(s) == multiset(s[..i] + s[i + 1..]) + multiset{s[i]}
  {
    assert s == s[..i] + [s[i]] + s[i + 1..];
  }

  /** Worked examples of the ace rule. */
  lemma ValuationExamples()
    ensures HandTotal([Card(Ace, Spades), Card(Ace, Hearts), Card(Nine, Clubs)]) == 21
    ensures HandTotal([Card(King, Spades), Card(Queen, Hearts)]) == 20
    ensures HandTotal([Card(Ace, Spades), Card(King, Hearts)]) == 21
    ensures HandTotal([Card(Ace, Spades), Card(Ace, Hearts), Card(Ace, Diamonds), Card(Eight, Clubs)]) == 21
  {
  }

  /** hand_total as the source computes it: the all-aces-high sum and the ace count,
      then one ace downgraded per round of the loop. */
  method ComputeHandTotal(cards: seq<Card>) returns (total: int)
    ensures total == HandTotal(cards)
  {
    total := RawSum(cards);
    var aces := AceCount(cards);
    while total > 21 && aces > 0
      invariant Soften(total, aces) == HandTotal(cards)
      decreases aces
    {
      total := total - 10;
      aces := aces - 1;
    }
  }

  /** No element occurs twice. */
  predicate Distinct(s: seq<Card>)
  {
    forall i, j :: 0 <= i < j < |s| ==> s[i] != s[j]
  }

  /** The deck before shuffling: every suit in turn, and within a suit every rank in turn. */
  function OrderedDeck(): (d: seq<Card>)
    ensures |d| == |Ranks| * |Suits|
  {
    seq(52, i requires 0 <= i < 52 => Card(Ranks[i % 13], Suits[i / 13]))
  }

  /** The position of a card in the ordered deck. */
  function DeckPosition(c: Card): (k: nat)
    ensures k < 52
  {
    13 * SuitIndex(c.suit) + RankIndex(c.rank)
  }

  /** The rank list and the suit list have no repeats, so an index is recovered from its entry. */
  lemma {:induction false} IndexInverse(r: nat, s: nat)
    requires r < |Ranks| && s < |Suits|
    ensures RankIndex(Ranks[r]) == r && SuitIndex(Suits[s]) == s
  {
    if r < 7 {
      assert r in {0, 1, 2, 3, 4, 5, 6};
    } else {
      assert r in {7, 8, 9, 10, 11, 12};
    }
  }

  /** No card occurs twice in the ordered deck: the card at position i has position i. */
  lemma OrderedDeckDistinct()
    ensures Distinct(OrderedDeck())
  {
    var d := OrderedDeck();
    forall i | 0 <= i < |d| ensures DeckPosition(d[i]) == i {
      IndexInverse(i % 13, i / 13);
    }
  }

  /** Every rank of every suit is in the ordered deck. */
  lemma OrderedDeckCovers()
    ensures forall c: Card :: c in OrderedDeck()
  {
    var d := OrderedDeck();
    forall c: Card ensures c in d {
      var k := 13 * SuitIndex(c.suit) + RankIndex(c.rank);
      assert k % 13 == RankIndex(c.rank) && k / 13 == SuitIndex(c.suit);
      assert d[k] == c;
    }
  }

  /** The ordered deck is the rank-by-suit cross product: every card once. */
  lemma OrderedDeckComplete()
    ensures Distinct(OrderedDeck())
    ensures forall c: Card :: c in OrderedDeck()
  {
    OrderedDeckDistinct();
    OrderedDeckCovers();
  }

  /** A sequence without repeats holds each element at most once. */
  lemma {:induction false} DistinctMultiplicity(s: seq<Card>, c: Card)
    requires Distinct(s)
    ensures multiset(s)[c] <= 1
    decreases |s|
  {
    if s != [] {
      assert s == [s[0]] + s[1..];
      assert Distinct(s[1..]) by {
        forall i, j | 0 <= i < j < |s[1..]| ensures s[1..][i] != s[1..][j] {
          assert s[1..][i] == s[i + 1] && s[1..][j] == s[j + 1];
        }
      }
      DistinctMultiplicity(s[1..], c);
      if s[0] == c {
        assert c !in s[1..];
      }
    }
  }

  /** Two equal elements at different positions make the element occur at least twice. */
  lemma {:induction false} RepeatMultiplicity(s: seq<Card>, i: nat, j: nat)
    requires i < j < |s| && s[i] == s[j]
    ensures multiset(s)[s[i]] >= 2
  {
    assert s == s[..j] + s[j..];
    assert s[i] in s[..j];
    assert s[j] == s[j..][0];
  }

  /** Every card occurs exactly once in the ordered deck. */
  lemma {:induction false} OrderedDeckMultiplicity(c: Card)
    ensures multiset(OrderedDeck())[c] == 1
  {
    OrderedDeckComplete();
    assert c in OrderedDeck();
    DistinctMultiplicity(OrderedDeck(), c);
  }

  /** A shuffle of the ordered deck: the 52 cards new_deck returns, in some order. */
  predicate IsShuffledDeck(d: seq<Card>)
  {
    |d| == 52 && multiset(d) == multiset(OrderedDeck())
  }

  /** Deck integrity: a shuffled deck has 52 cards, no repeats, and every rank of every suit. */
  lemma {:induction false} ShuffledDeckIntegrity(d: seq<Card>)
    requires IsShuffledDeck(d)
    ensures Distinct(d)
    ensures forall c: Card :: c in d
  {
    OrderedDeckComplete();
    forall c: Card ensures c in d {
      assert c in OrderedDeck();
      assert c in multiset(d);
    }
    forall i, j | 0 <= i < j < |d| ensures d[i] != d[j] {
      if d[i] == d[j] {
        RepeatMultiplicity(d, i, j);
        OrderedDeckMultiplicity(d[i]);
        assert false;
      }
    }
  }
}
