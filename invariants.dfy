/** What every action keeps: the round invariant of module Rules holds after new_game
    and after each player action, so hands and bets stay aligned, the cursor stays in
    range, no card is ever dealt twice, and a finished round holds one result per hand. */
module Invariants {
  import opened Cards
  import opened Rules

  // ----- Card bookkeeping -----

  lemma {:induction false} HeldCardsConcat(a: seq<seq<Card>>, b: seq<seq<Card>>)
    ensures HeldCards(a + b) == HeldCards(a) + HeldCards(b)
    decreases |a|
  {
    if a == [] {
      assert a + b == b;
    } else {
      assert (a + b)[0] == a[0] && (a + b)[1..] == a[1..] + b;
      HeldCardsConcat(a[1..], b);
    }
  }

  /** The cards of the hands are those before index i, those of hand i, and those after. */
  lemma {:induction false} HeldCardsAround(hands: seq<seq<Card>>, i: nat)
    requires i < |hands|
    ensures HeldCards(hands) == HeldCards(hands[..i]) + multiset(hands[i]) + HeldCards(hands[i + 1..])
  {
    assert hands == hands[..i] + ([hands[i]] + hands[i + 1..]);
    HeldCardsConcat(hands[..i], [hands[i]] + hands[i + 1..]);
    assert ([hands[i]] + hands[i + 1..])[1..] == hands[i + 1..];
  }

  /** Adding a card to hand i adds it to the cards held. */
  lemma {:induction false} HeldCardsAddCard(hands: seq<seq<Card>>, i: nat, c: Card)
    requires i < |hands|
    ensures HeldCards(hands[i := hands[i] + [c]]) == HeldCards(hands) + multiset{c}
  {
    var hs := hands[i := hands[i] + [c]];
    HeldCardsAround(hands, i);
    HeldCardsAround(hs, i);
    assert hs[..i] == hands[..i] && hs[i + 1..] == hands[i + 1..];
    assert multiset(hs[i]) == multiset(hands[i]) + multiset{c};
  }

  // ----- new_game -----

  /** Dealing two cards to the player and two to the dealer moves them out of the deck. */
  lemma {:induction false} DealConserves(d: seq<Card>)
    requires |d| >= 4
    ensures var n := |d|;
      multiset(d[..n - 4]) + multiset([d[n - 1], d[n - 2]]) + multiset([d[n - 3], d[n - 4]]) == multiset(d)
  {
    var n := |d|;
    assert d == d[..n - 4] + [d[n - 4], d[n - 3]] + [d[n - 2], d[n - 1]];
  }

  /** new_game moves four cards from the shuffled deck into the hands and loses none. */
  lemma {:induction false} NewGameConserves(id: string, shuffled: seq<Card>)
    requires IsShuffledDeck(shuffled)
    ensures Conserved(NewGame(id, shuffled))
  {
    var g, d := NewGame(id, shuffled), shuffled;
    assert g.deck == d[..48] && g.hands == [[d[51], d[50]]] && g.dealer == [d[49], d[48]];
    assert HeldCards(g.hands) == multiset([d[51], d[50]]) by {
      assert g.hands[1..] == [];
    }
    DealConserves(d);
  }

  /** new_game starts a valid round. */
  lemma {:induction false} NewGameIsValid(id: string, shuffled: seq<Card>)
    requires IsShuffledDeck(shuffled)
    ensures Valid(NewGame(id, shuffled))
  {
    NewGameConserves(id, shuffled);
  }

  // ----- Advance and Resolve -----

  /** Moving on from a finished hand (to the next hand, or resolving the round) gives a
      valid round, provided the hand just finished is the last one that may be marked. */
  lemma {:induction false} AdvanceKeepsValid(g: Game)
    requires WellFormed(g) && g.status == PlayerTurn && g.results == []
    requires Settled(g, g.activeHand + 1) && CanAdvance(g)
    ensures Valid(Advance(g))
  {
    if g.activeHand + 1 >= |g.hands| {
      var r := Resolve(g);
      var table := PlayOut(g.dealer, g.deck);
      assert r.dealer == table.0 && r.deck == table.1;
      calc {
        multiset(r.deck) + HeldCards(r.hands) + multiset(r.dealer);
        HeldCards(g.hands) + (multiset(table.0) + multiset(table.1));
        HeldCards(g.hands) + (multiset(g.dealer) + multiset(g.deck));
        multiset(g.deck) + HeldCards(g.hands) + multiset(g.dealer);
      }
    }
  }

  /** Drawing onto the active hand keeps the shape of the round and every card accounted for. */
  lemma {:induction false} DrawKeepsWellFormed(g: Game)
    requires WellFormed(g) && |g.deck| > 0
    ensures WellFormed(Draw(g))
  {
    var n, i := Draw(g), g.activeHand;
    HeldCardsAddCard(g.hands, i, Top(g.deck));
    assert HeldCards(n.hands) == HeldCards(g.hands) + multiset{Top(g.deck)};
  }

  // ----- The player actions -----

  /** hit keeps the round valid. */
  lemma {:induction false} HitKeepsValid(g: Game)
    requires Valid(g) && HitDefined(g)
    ensures Valid(After(g, Hit(g)))
  {
    if g.status == PlayerTurn {
      var d := Draw(g);
      DrawKeepsWellFormed(g);
      if Busted(d.hands[g.activeHand]) {
        AdvanceKeepsValid(d);
      }
    }
  }

  /** stand keeps the round valid. */
  lemma {:induction false} StandKeepsValid(g: Game)
    requires Valid(g) && (g.status == PlayerTurn ==> CanAdvance(g))
    ensures Valid(After(g, Stand(g)))
  {
    if g.status == PlayerTurn {
      AdvanceKeepsValid(g);
    }
  }

  /** double_down keeps the round valid: the doubled bet lies on the hand just finished. */
  lemma {:induction false} DoubleDownKeepsValid(g: Game)
    requires Valid(g) && DoubleDefined(g)
    ensures Valid(After(g, DoubleDown(g)))
  {
    if g.status == PlayerTurn && CanDouble(g) {
      var i := g.activeHand;
      var b := g.(bets := g.bets[i := g.bets[i] * 2]);
      assert WellFormed(b);
      DrawKeepsWellFormed(b);
      AdvanceKeepsValid(Draw(b));
    }
  }

  /** surrender keeps the round valid: the new mark lies on the hand just finished. */
  lemma {:induction false} SurrenderKeepsValid(g: Game)
    requires Valid(g) && (g.status == PlayerTurn ==> CanAdvance(g))
    ensures Valid(After(g, Surrender(g)))
  {
    if g.status == PlayerTurn {
      AdvanceKeepsValid(g.(surrendered := g.surrendered[g.activeHand := true]));
    }
  }

  /** A hand surrendered before the last one is scored as surrendered when the player
      then stands on the last hand. */
  lemma {:induction false} SurrenderedHandScoredAtStand(g: Game)
    requires Valid(g) && g.status == PlayerTurn && g.activeHand + 2 == |g.hands|
    requires CanPlayOut(g.dealer, g.deck)
    ensures var n := Surrender(g).value;
      && Valid(n) && n.activeHand + 1 == |n.hands| && CanAdvance(n)
      && Stand(n).value.results[g.activeHand] == Surrendered
  {
    SurrenderKeepsValid(g);
  }

  lemma {:induction false} HeldCardsCons(x: seq<Card>, rest: seq<seq<Card>>)
    ensures HeldCards([x] + rest) == multiset(x) + HeldCards(rest)
  {
    assert ([x] + rest)[0] == x && ([x] + rest)[1..] == rest;
  }

  /** The cards held after a split: those before the pair, the two new hands, those after. */
  lemma {:induction false} SplitHandsCards(hands: seq<seq<Card>>, i: nat, hand1: seq<Card>, hand2: seq<Card>)
    requires i < |hands|
    ensures HeldCards(hands[..i] + [hand1, hand2] + hands[i + 1..])
      == HeldCards(hands[..i]) + (multiset(hand1) + (multiset(hand2) + HeldCards(hands[i + 1..])))
  {
    var pre, post := hands[..i], hands[i + 1..];
    var tail := [hand1] + ([hand2] + post);
    assert hands[..i] + [hand1, hand2] + hands[i + 1..] == pre + tail;
    HeldCardsConcat(pre, tail);
    HeldCardsCons(hand1, [hand2] + post);
    HeldCardsCons(hand2, post);
  }

  /** Topping up the two cards of a pair with c1 and c2 adds exactly c1 and c2. */
  lemma {:induction false} PairCards(h: seq<Card>, c1: Card, c2: Card)
    requires |h| == 2
    ensures multiset([h[0], c1]) + multiset([h[1], c2]) == multiset(h) + multiset{c1, c2}
  {
    assert h == [h[0], h[1]];
  }

  /** Popping twice removes the two top cards. */
  lemma {:induction false} PopTwoCards(deck: seq<Card>)
    requires |deck| >= 2
    ensures multiset(deck) == multiset(deck[..|deck| - 2]) + multiset{deck[|deck| - 1], deck[|deck| - 2]}
  {
    var k := |deck|;
    assert deck == deck[..k - 2] + [deck[k - 2], deck[k - 1]];
  }

  lemma {:induction false} MultisetRegroup<T>(d: multiset<T>, p: multiset<T>, m1: multiset<T>, m2: multiset<T>, q: multiset<T>,
                           m: multiset<T>, c: multiset<T>, held: multiset<T>, heldAfter: multiset<T>,
                           deck: multiset<T>)
    requires heldAfter == p + (m1 + (m2 + q)) && held == p + m + q
    requires m1 + m2 == m + c && deck == d + c
    ensures d + heldAfter == deck + held
  {
    forall x ensures (d + heldAfter)[x] == (deck + held)[x] {
      assert (m1 + m2)[x] == (m + c)[x];
    }
  }

  /** Replacing a pair at index i by two hands, each topped up with one of the two top
      cards of the deck, moves those two cards from the deck into the hands. */
  lemma {:induction false} SplitConserves(deck: seq<Card>, hands: seq<seq<Card>>, i: nat)
    requires |deck| >= 2 && i < |hands| && |hands[i]| == 2
    ensures var h, k := hands[i], |deck|;
      multiset(deck[..k - 2]) + HeldCards(hands[..i] + [[h[0], deck[k - 1]], [h[1], deck[k - 2]]] + hands[i + 1..])
      == multiset(deck) + HeldCards(hands)
  {
    var h, k := hands[i], |deck|;
    var c1, c2 := deck[k - 1], deck[k - 2];
    SplitHandsCards(hands, i, [h[0], c1], [h[1], c2]);
    HeldCardsAround(hands, i);
    PairCards(h, c1, c2);
    PopTwoCards(deck);
    MultisetRegroup(multiset(deck[..k - 2]), HeldCards(hands[..i]), multiset([h[0], c1]), multiset([h[1], c2]),
      HeldCards(hands[i + 1..]), multiset(h), multiset{c1, c2}, HeldCards(hands),
      HeldCards(hands[..i] + [[h[0], c1], [h[1], c2]] + hands[i + 1..]), multiset(deck));
  }

  /** Replacing hand i by two hands of at least two cards keeps every hand at two cards or more. */
  lemma {:induction false} SplitHandSizes(hands: seq<seq<Card>>, i: nat, hand1: seq<Card>, hand2: seq<Card>)
    requires i < |hands| && |hand1| >= 2 && |hand2| >= 2
    requires forall j :: 0 <= j < |hands| ==> |hands[j]| >= 2
    ensures var split := hands[..i] + [hand1, hand2] + hands[i + 1..];
      forall j :: 0 <= j < |split| ==> |split[j]| >= 2
  {
    var split := hands[..i] + [hand1, hand2] + hands[i + 1..];
    forall j | 0 <= j < |split| ensures |split[j]| >= 2 {
      if j > i + 1 {
        assert split[j] == hands[j - 1];
      }
    }
  }

  /** Copying bet i to position i + 1 keeps every bet 100 or 200, and keeps the bets from i on
      at the starting stake when they were so before. */
  lemma {:induction false} SplitBets(bets: seq<int>, i: nat)
    requires i < |bets|
    requires forall j :: 0 <= j < |bets| ==> bets[j] == StartingBet || bets[j] == 2 * StartingBet
    requires forall j :: 0 <= j < |bets| && i <= j ==> bets[j] == StartingBet
    ensures var split := bets[..i + 1] + [bets[i]] + bets[i + 1..];
      && |split| == |bets| + 1
      && (forall j :: 0 <= j < |split| ==> split[j] == StartingBet || split[j] == 2 * StartingBet)
      && (forall j :: 0 <= j < |split| && i <= j ==> split[j] == StartingBet)
  {
    var split := bets[..i + 1] + [bets[i]] + bets[i + 1..];
    forall j | 0 <= j < |split| ensures split[j] == bets[if j <= i then j else j - 1] {
    }
  }

  /** The record a split of a pair produces is valid. */
  lemma {:induction false} SplitRecordValid(g: Game, n: Game)
    requires Valid(g) && g.status == PlayerTurn && IsPair(g.hands[g.activeHand]) && |g.deck| >= 2
    requires var i, h, k := g.activeHand, g.hands[g.activeHand], |g.deck|;
      n == g.(deck := g.deck[..k - 2],
              hands := g.hands[..i] + [[h[0], g.deck[k - 1]], [h[1], g.deck[k - 2]]] + g.hands[i + 1..],
              bets := g.bets[..i + 1] + [g.bets[i]] + g.bets[i + 1..])
    ensures Valid(n)
  {
    var i, h, k := g.activeHand, g.hands[g.activeHand], |g.deck|;
    SplitConserves(g.deck, g.hands, i);
    SplitHandSizes(g.hands, i, [h[0], g.deck[k - 1]], [h[1], g.deck[k - 2]]);
    SplitBets(g.bets, i);
  }

  /** The record split returns for a pair, written out. */
  lemma {:induction false} SplitPairResult(g: Game)
    requires Valid(g) && SplitDefined(g) && g.status == PlayerTurn && IsPair(g.hands[g.activeHand])
    ensures var i, h, k := g.activeHand, g.hands[g.activeHand], |g.deck|;
      Split(g) == Ok(g.(deck := g.deck[..k - 2],
                        hands := g.hands[..i] + [[h[0], g.deck[k - 1]], [h[1], g.deck[k - 2]]] + g.hands[i + 1..],
                        bets := g.bets[..i + 1] + [g.bets[i]] + g.bets[i + 1..]))
  {
  }

  /** A split pair: hand i becomes the first card plus the top card, the new hand i + 1
      the second card plus the next card, and its bet a copy of bet i; the hands and bets
      before i stay in place and those after it move one position right. */
  lemma {:induction false} SplitPairPlacement(g: Game)
    requires Valid(g) && SplitDefined(g) && g.status == PlayerTurn && IsPair(g.hands[g.activeHand])
    ensures var n, i, h, k := Split(g).value, g.activeHand, g.hands[g.activeHand], |g.deck|;
      && n.hands[i] == [h[0], g.deck[k - 1]] && n.hands[i + 1] == [h[1], g.deck[k - 2]]
      && n.bets[i] == g.bets[i] && n.bets[i + 1] == g.bets[i]
      && (forall j :: 0 <= j < i ==> n.hands[j] == g.hands[j] && n.bets[j] == g.bets[j])
      && (forall j :: i < j < |g.hands| ==> n.hands[j + 1] == g.hands[j] && n.bets[j + 1] == g.bets[j])
  {
    var i, h, k := g.activeHand, g.hands[g.activeHand], |g.deck|;
    SplitPairResult(g);
    ReplaceByTwoIndices(g.hands, i, [h[0], g.deck[k - 1]], [h[1], g.deck[k - 2]]);
    InsertIndices(g.bets, i + 1, g.bets[i]);
  }

  /** split keeps the round valid: hands and bets stay aligned, both new hands hold two
      cards, the two cards dealt leave the deck, and the inserted bet is an undoubled one. */
  lemma {:induction false} SplitKeepsValid(g: Game)
    requires Valid(g) && SplitDefined(g)
    ensures Valid(After(g, Split(g)))
  {
    if g.status == PlayerTurn && IsPair(g.hands[g.activeHand]) {
      SplitPairResult(g);
      SplitRecordValid(g, Split(g).value);
    }
  }

  // ----- Consequences of the invariant -----

  /** In a valid round each of the 52 cards is in exactly one place. */
  lemma {:induction false} CardsNeverDuplicated(g: Game, c: Card)
    requires Valid(g)
    ensures multiset(g.deck)[c] + HeldCards(g.hands)[c] + multiset(g.dealer)[c] == 1
  {
    OrderedDeckMultiplicity(c);
  }

  /** The double-down bet limit never refuses: the active hand's bet is always the
      starting stake while the player is to act, so only the two-card rule can refuse. */
  lemma {:induction false} DoubleLimitNeverBinds(g: Game)
    requires Valid(g) && g.status == PlayerTurn
    ensures g.bets[g.activeHand] == StartingBet <= DoubleLimit
    ensures CanDouble(g) <==> |g.hands[g.activeHand]| == 2
  {
  }

  /** A finished round holds one result per hand, and the dealer's total is at least 17. */
  lemma {:induction false} FinishedRoundScored(g: Game, i: int)
    requires Valid(g) && g.status == Finished && 0 <= i < |g.hands|
    ensures |g.results| == |g.hands| && HandTotal(g.dealer) >= DealerStand
    ensures g.results[i] == Judge(IsSurrendered(g.surrendered, i), HandTotal(g.hands[i]), HandTotal(g.dealer))
  {
  }

  // ----- The client view -----

  /** Masking: while the player is to act, the view depends on the dealer's first card only;
      the hole card, any later dealer card and the order of the deck cannot be read from it. */
  lemma {:induction false} MaskHidesDealer(g: Game, dealer: seq<Card>, deck: seq<Card>)
    requires g.status == PlayerTurn && |g.dealer| > 0 && |dealer| > 0 && dealer[0] == g.dealer[0]
    ensures Summarize(g.(dealer := dealer, deck := deck)) == Summarize(g)
    ensures Summarize(g).dealer == [FaceUp(g.dealer[0]), FaceDown] && Summarize(g).dealerTotal == None
  {
  }

  /** Once the player's turn is over, the view shows the whole dealer hand and its total,
      and the per-hand totals cover every hand. */
  lemma {:induction false} RevealShowsDealer(g: Game)
    requires g.status != PlayerTurn
    ensures var v := Summarize(g);
      && |v.dealer| == |g.dealer|
      && (forall i :: 0 <= i < |g.dealer| ==> v.dealer[i] == FaceUp(g.dealer[i]))
      && v.dealerTotal == Some(HandTotal(g.dealer))
      && |v.handTotals| == |g.hands|
      && (forall i :: 0 <= i < |g.hands| ==> v.handTotals[i] == HandTotal(g.hands[i]))
  {
  }

  /** After the turn is over, two rounds with the same view have the same dealer hand. */
  lemma {:induction false} RevealedViewDeterminesDealer(g1: Game, g2: Game)
    requires g1.status != PlayerTurn && g2.status != PlayerTurn
    requires Summarize(g1) == Summarize(g2)
    ensures g1.dealer == g2.dealer
  {
    var v := Summarize(g1);
    assert |g1.dealer| == |v.dealer| == |g2.dealer|;
    forall i | 0 <= i < |g1.dealer| ensures g1.dealer[i] == g2.dealer[i] {
      assert v.dealer[i] == FaceUp(g1.dealer[i]) == FaceUp(g2.dealer[i]);
    }
  }
}
