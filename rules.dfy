/** The rules of one blackjack round, as a value: the round record, its invariant,
    every player action as a transition from one record to the next, the dealer's
    play-out and scoring, and the client view. The class in module Engine performs
    these transitions in place. */
module Rules {
  import opened Cards

  /** The round's state-machine state. */
  datatype Status = PlayerTurn | PlayerBlackjack | Finished

  /** Per-hand outcome; the source's strings are "surrender", "player_bust",
      "player_win", "dealer_win" and "push". */
  datatype Outcome = Surrendered | PlayerBust | PlayerWin | DealerWin | Push

  /** The two failure replies: "Invalid game" and "Can only double on first move". */
  datatype Error = InvalidGame | DoubleRefused

  datatype Option<T> = None | Some(value: T)

  datatype Result<T> = Ok(value: T) | Err(error: Error)

  /** The stake new_game places on the first hand. */
  const StartingBet := 100
  /** double_down refuses a bet above this. */
  const DoubleLimit := 500
  /** The dealer draws while below this total. */
  const DealerStand := 17
  /** A natural, and the bust threshold. */
  const Blackjack := 21

  /** The round record: the deck is a stack whose top is its last element; hands and
      bets are index-aligned; surrendered maps a hand index to True. */
  datatype Game = Game(
    id: string,
    deck: seq<Card>,
    hands: seq<seq<Card>>,
    bets: seq<int>,
    activeHand: int,
    dealer: seq<Card>,
    status: Status,
    surrendered: map<int, bool>,
    results: seq<Outcome>)

  // ----- The deck as a stack -----

  /** The card deck.pop() returns. */
  function Top(deck: seq<Card>): (c: Card)
    requires |deck| > 0
  {
    deck[|deck| - 1]
  }

  /** The deck after deck.pop(). */
  function Pop(deck: seq<Card>): (rest: seq<Card>)
    requires |deck| > 0
    ensures rest + [Top(deck)] == deck
    ensures multiset(rest) + multiset{Top(deck)} == multiset(deck)
  {
    deck[..|deck| - 1]
  }

  predicate Busted(cards: seq<Card>)
  {
    HandTotal(cards) > Blackjack
  }

  /** game.get("surrendered", {}).get(i) is truthy. */
  predicate IsSurrendered(marks: map<int, bool>, i: int)
  {
    i in marks && marks[i]
  }

  // ----- The invariant -----

  /** All cards held in the player's hands. */
  function HeldCards(hands: seq<seq<Card>>): (m: multiset<Card>)
  {
    if hands == [] then multiset{} else multiset(hands[0]) + HeldCards(hands[1..])
  }

  /** Every card of the 52 is in exactly one place: the deck, a player hand or the dealer's hand. */
  predicate Conserved(g: Game)
  {
    multiset(g.deck) + HeldCards(g.hands) + multiset(g.dealer) == multiset(OrderedDeck())
  }

  /** The shape every round keeps, whatever its status. */
  predicate WellFormed(g: Game)
  {
    && |g.hands| == |g.bets| >= 1
    && 0 <= g.activeHand < |g.hands|
    && |g.dealer| >= 2
    && (forall i :: 0 <= i < |g.hands| ==> |g.hands[i]| >= 2)
    && (forall i :: 0 <= i < |g.bets| ==> g.bets[i] == StartingBet || g.bets[i] == 2 * StartingBet)
    && Conserved(g)
  }

  /** Surrender marks and doubled bets lie only on hands before index `from`. */
  predicate Settled(g: Game, from: int)
  {
    && (forall k :: k in g.surrendered ==> 0 <= k < from)
    && (forall j :: 0 <= j < |g.bets| && from <= j ==> g.bets[j] == StartingBet)
  }

  /** The round invariant. */
  predicate Valid(g: Game)
  {
    && WellFormed(g)
    && match g.status
       case PlayerTurn => Settled(g, g.activeHand) && g.results == []
       case PlayerBlackjack =>
         |g.hands| == 1 && |g.hands[0]| == 2 && HandTotal(g.hands[0]) == Blackjack && g.results == []
       case Finished =>
         HandTotal(g.dealer) >= DealerStand && g.results == Score(g.hands, g.surrendered, HandTotal(g.dealer))
  }

  // ----- Dealer play-out and scoring (stand_logic) -----

  /** The deck holds enough cards for the dealer's draw loop to finish. */
  predicate CanPlayOut(dealer: seq<Card>, deck: seq<Card>)
    decreases |deck|
  {
    HandTotal(dealer) >= DealerStand || (|deck| > 0 && CanPlayOut(dealer + [Top(deck)], Pop(deck)))
  }

  /** The dealer's draw loop: the final dealer hand and the deck left over. */
  function PlayOut(dealer: seq<Card>, deck: seq<Card>): (r: (seq<Card>, seq<Card>))
    requires CanPlayOut(dealer, deck)
    decreases |deck|
    ensures HandTotal(r.0) >= DealerStand
    ensures |dealer| <= |r.0| && r.0[..|dealer|] == dealer
    ensures |r.0| + |r.1| == |dealer| + |deck|
    ensures multiset(r.0) + multiset(r.1) == multiset(dealer) + multiset(deck)
  {
    if HandTotal(dealer) >= DealerStand then (dealer, deck)
    else
      var r := PlayOut(dealer + [Top(deck)], Pop(deck));
      assert r.0[..|dealer| + 1][..|dealer|] == dealer;
      r
  }

  /** The deck left after the dealer's play-out is the part that lay under the cards drawn. */
  lemma {:induction false} PlayOutLeavesBottom(dealer: seq<Card>, deck: seq<Card>)
    requires CanPlayOut(dealer, deck)
    ensures PlayOut(dealer, deck).1 == deck[..|PlayOut(dealer, deck).1|]
    decreases |deck|
  {
    if HandTotal(dealer) < DealerStand {
      var d1, k1 := dealer + [Top(deck)], Pop(deck);
      PlayOutLeavesBottom(d1, k1);
      var rest := PlayOut(d1, k1).1;
      assert PlayOut(dealer, deck).1 == rest;
      assert rest == k1[..|rest|];
    }
  }

  /** The dealer's cards come off the top of the deck, one at a time, in pop order. */
  lemma {:induction false} PlayOutFromTop(dealer: seq<Card>, deck: seq<Card>)
    requires CanPlayOut(dealer, deck)
    ensures forall j :: |dealer| <= j < |PlayOut(dealer, deck).0| ==>
      PlayOut(dealer, deck).0[j] == deck[|deck| + |dealer| - 1 - j]
    decreases |deck|
  {
    if HandTotal(dealer) < DealerStand {
      var d1, k1 := dealer + [Top(deck)], Pop(deck);
      PlayOutFromTop(d1, k1);
      var hand := PlayOut(d1, k1).0;
      assert PlayOut(dealer, deck).0 == hand;
      forall j | |dealer| <= j < |hand|
        ensures hand[j] == deck[|deck| + |dealer| - 1 - j]
      {
        if j == |dealer| {
          assert hand[j] == hand[..|d1|][j] == Top(deck);
        } else {
          assert hand[j] == k1[|k1| + |d1| - 1 - j];
        }
      }
    }
  }

  /** The dealer draws only while the dealer's total is below 17: every hand the dealer
      held before a draw totals less than 17. */
  lemma {:induction false} PlayOutDrawsBelowStand(dealer: seq<Card>, deck: seq<Card>)
    requires CanPlayOut(dealer, deck)
    ensures forall j :: |dealer| <= j < |PlayOut(dealer, deck).0| ==>
      HandTotal(PlayOut(dealer, deck).0[..j]) < DealerStand
    decreases |deck|
  {
    if HandTotal(dealer) < DealerStand {
      var d1, k1 := dealer + [Top(deck)], Pop(deck);
      PlayOutDrawsBelowStand(d1, k1);
      var r := PlayOut(d1, k1);
      assert PlayOut(dealer, deck) == r;
      assert r.0[..|d1|] == d1;
      forall j | |dealer| <= j < |r.0|
        ensures HandTotal(r.0[..j]) < DealerStand
      {
        if j == |dealer| {
          assert r.0[..j] == r.0[..|d1|][..j] == dealer;
        }
      }
    }
  }

  /** The outcome of one hand against the dealer's final total, by the source's priority. */
  function Judge(surrendered: bool, player: int, dealer: int): (o: Outcome)
    ensures o == Surrendered <==> surrendered
    ensures o == PlayerBust <==> !surrendered && player > Blackjack
    ensures o == PlayerWin <==> !surrendered && player <= Blackjack && (dealer > Blackjack || player > dealer)
    ensures o == DealerWin <==> !surrendered && player <= Blackjack && dealer <= Blackjack && dealer > player
    ensures o == Push <==> !surrendered && player <= Blackjack && dealer <= Blackjack && player == dealer
  {
    if surrendered then Surrendered
    else if player > Blackjack then PlayerBust
    else if dealer > Blackjack || player > dealer then PlayerWin
    else if dealer > player then DealerWin
    else Push
  }

  /** One outcome per hand, in hand order. */
  function Score(hands: seq<seq<Card>>, marks: map<int, bool>, dealerTotal: int): (r: seq<Outcome>)
    ensures |r| == |hands|
    ensures forall i :: 0 <= i < |hands| ==> r[i] == Judge(IsSurrendered(marks, i), HandTotal(hands[i]), dealerTotal)
  {
    seq(|hands|, i requires 0 <= i < |hands| => Judge(IsSurrendered(marks, i), HandTotal(hands[i]), dealerTotal))
  }

  /** stand_logic: the dealer plays out, every hand is scored, the round is finished. */
  function Resolve(g: Game): (r: Game)
    requires CanPlayOut(g.dealer, g.deck)
    ensures r.status == Finished
    ensures r.id == g.id && r.hands == g.hands && r.bets == g.bets
    ensures r.activeHand == g.activeHand && r.surrendered == g.surrendered
    ensures (r.dealer, r.deck) == PlayOut(g.dealer, g.deck)
    ensures HandTotal(r.dealer) >= DealerStand
    ensures |g.dealer| <= |r.dealer| && r.dealer[..|g.dealer|] == g.dealer
    ensures |r.results| == |g.hands|
    ensures forall i :: 0 <= i < |g.hands| ==>
      r.results[i] == Judge(IsSurrendered(g.surrendered, i), HandTotal(g.hands[i]), HandTotal(r.dealer))
  {
    var table := PlayOut(g.dealer, g.deck);
    g.(deck := table.1, dealer := table.0, results := Score(g.hands, g.surrendered, HandTotal(table.0)),
       status := Finished)
  }

  // ----- Player actions -----

  /** After a hand is done: move to the next hand, or resolve the round after the last one. */
  predicate CanAdvance(g: Game)
  {
    g.activeHand + 1 < |g.hands| || CanPlayOut(g.dealer, g.deck)
  }

  function Advance(g: Game): (r: Game)
    requires CanAdvance(g)
    ensures r.id == g.id && r.hands == g.hands && r.bets == g.bets && r.surrendered == g.surrendered
    ensures g.activeHand + 1 < |g.hands| ==>
      r.activeHand == g.activeHand + 1 && r.status == g.status && r.deck == g.deck
      && r.dealer == g.dealer && r.results == g.results
    ensures g.activeHand + 1 >= |g.hands| ==>
      && r.activeHand == g.activeHand && r.status == Finished && |r.results| == |g.hands|
      && HandTotal(r.dealer) >= DealerStand && |g.dealer| <= |r.dealer| && r.dealer[..|g.dealer|] == g.dealer
    ensures g.activeHand + 1 >= |g.hands| ==> r == Resolve(g)
  {
    if g.activeHand + 1 < |g.hands| then g.(activeHand := g.activeHand + 1) else Resolve(g)
  }

  /** Pop the deck onto the active hand. */
  function Draw(g: Game): (r: Game)
    requires 0 <= g.activeHand < |g.hands| && |g.deck| > 0
    ensures |r.hands| == |g.hands| && r.hands[g.activeHand] == g.hands[g.activeHand] + [Top(g.deck)]
    ensures forall j :: 0 <= j < |g.hands| && j != g.activeHand ==> r.hands[j] == g.hands[j]
    ensures r.deck + [Top(g.deck)] == g.deck
    ensures r == g.(deck := r.deck, hands := r.hands)
  {
    g.(deck := Pop(g.deck), hands := g.hands[g.activeHand := g.hands[g.activeHand] + [Top(g.deck)]])
  }

  /** new_game: deal two cards to the player, then two to the dealer, each from the top. */
  function NewGame(id: string, shuffled: seq<Card>): (g: Game)
    requires IsShuffledDeck(shuffled)
    ensures |g.deck| == 48 && g.deck == shuffled[..48]
    ensures g.hands == [[shuffled[51], shuffled[50]]] && g.dealer == [shuffled[49], shuffled[48]]
    ensures g.bets == [StartingBet] && g.activeHand == 0
    ensures g.status == PlayerBlackjack <==> HandTotal(g.hands[0]) == Blackjack
    ensures g.status != PlayerBlackjack ==> g.status == PlayerTurn
  {
    ShuffledDeckIntegrity(shuffled);
    var d0 := shuffled;
    var p1 := Top(d0);
    var d1 := Pop(d0);
    var p2 := Top(d1);
    var d2 := Pop(d1);
    var q1 := Top(d2);
    var d3 := Pop(d2);
    var q2 := Top(d3);
    var d4 := Pop(d3);
    Game(id, d4, [[p1, p2]], [StartingBet], 0, [q1, q2],
         if HandTotal([p1, p2]) == Blackjack then PlayerBlackjack else PlayerTurn, map[], [])
  }

  /** The deck suffices for hit: a card to draw, and the dealer's play-out if that card
      busts the last hand. */
  predicate HitDefined(g: Game)
    requires Valid(g)
  {
    g.status == PlayerTurn ==>
      |g.deck| > 0 && (Busted(Draw(g).hands[g.activeHand]) ==> CanAdvance(Draw(g)))
  }

  /** hit: one card from the top of the deck onto the active hand; on a bust, move on
      to the next hand or resolve the round. */
  function Hit(g: Game): (r: Result<Game>)
    requires Valid(g) && HitDefined(g)
    ensures r.Err? <==> g.status != PlayerTurn
    ensures r.Err? ==> r.error == InvalidGame
    ensures r.Ok? ==>
      var n, i := r.value, g.activeHand;
      && |n.hands| == |g.hands| && n.hands[i] == g.hands[i] + [Top(g.deck)]
      && (forall j :: 0 <= j < |g.hands| && j != i ==> n.hands[j] == g.hands[j])
      && n.bets == g.bets && n.surrendered == g.surrendered
      && (!Busted(n.hands[i]) ==>
            n.status == PlayerTurn && n.activeHand == i && n.deck == Pop(g.deck) && n.dealer == g.dealer)
      && (Busted(n.hands[i]) && i + 1 < |g.hands| ==>
            n.status == PlayerTurn && n.activeHand == i + 1 && n.deck == Pop(g.deck) && n.dealer == g.dealer)
      && (Busted(n.hands[i]) && i + 1 == |g.hands| ==>
            n.status == Finished && |n.results| == |n.hands| && n.results[i] == PlayerBust)
      && (Busted(n.hands[i]) && i + 1 == |g.hands| ==> n == Resolve(Draw(g)))
  {
    if g.status != PlayerTurn then Err(InvalidGame)
    else
      var drawn := Draw(g);
      if Busted(drawn.hands[g.activeHand]) then Ok(Advance(drawn)) else Ok(drawn)
  }

  /** stand: move to the next hand, or resolve the round after the last one. */
  function Stand(g: Game): (r: Result<Game>)
    requires Valid(g) && (g.status == PlayerTurn ==> CanAdvance(g))
    ensures r.Err? <==> g.status != PlayerTurn
    ensures r.Err? ==> r.error == InvalidGame
    ensures r.Ok? && g.activeHand + 1 < |g.hands| ==> r.value == g.(activeHand := g.activeHand + 1)
    ensures r.Ok? && g.activeHand + 1 == |g.hands| ==>
      && r.value.status == Finished && r.value.hands == g.hands && r.value.bets == g.bets
      && |r.value.results| == |g.hands| && HandTotal(r.value.dealer) >= DealerStand
    ensures r.Ok? && g.activeHand + 1 == |g.hands| ==> r.value == Resolve(g)
  {
    if g.status != PlayerTurn then Err(InvalidGame) else Ok(Advance(g))
  }

  /** double_down is allowed on a two-card hand whose bet is at most the limit. */
  predicate CanDouble(g: Game)
    requires 0 <= g.activeHand < |g.hands| == |g.bets|
  {
    |g.hands[g.activeHand]| == 2 && g.bets[g.activeHand] <= DoubleLimit
  }

  /** The deck suffices for double_down: a card to draw, and the dealer's play-out
      when the doubled hand is the last one. */
  predicate DoubleDefined(g: Game)
    requires Valid(g)
  {
    g.status == PlayerTurn && CanDouble(g) ==> |g.deck| > 0 && CanAdvance(Draw(g))
  }

  /** double_down: double the active bet, draw exactly one card, then stand. */
  function DoubleDown(g: Game): (r: Result<Game>)
    requires Valid(g) && DoubleDefined(g)
    ensures g.status != PlayerTurn ==> r == Err(InvalidGame)
    ensures g.status == PlayerTurn ==> (r == Err(DoubleRefused) <==> !CanDouble(g))
    ensures r.Ok? ==>
      var n, i := r.value, g.activeHand;
      && n.bets == g.bets[i := 2 * g.bets[i]]
      && |n.hands| == |g.hands| && n.hands[i] == g.hands[i] + [Top(g.deck)] && |n.hands[i]| == 3
      && (forall j :: 0 <= j < |g.hands| && j != i ==> n.hands[j] == g.hands[j])
      && n.surrendered == g.surrendered
      && (i + 1 < |g.hands| ==> n.status == PlayerTurn && n.activeHand == i + 1 && n.deck == Pop(g.deck))
      && (i + 1 < |g.hands| ==>
            n == g.(bets := g.bets[i := 2 * g.bets[i]], hands := g.hands[i := g.hands[i] + [Top(g.deck)]],
                    deck := Pop(g.deck), activeHand := i + 1))
      && (i + 1 == |g.hands| ==> n.status == Finished && |n.results| == |n.hands|)
      && (i + 1 == |g.hands| ==>
            HandTotal(n.dealer) >= DealerStand && |g.dealer| <= |n.dealer| && n.dealer[..|g.dealer|] == g.dealer)
      && (i + 1 == |g.hands| ==> n == Resolve(Draw(g.(bets := g.bets[i := 2 * g.bets[i]]))))
  {
    if g.status != PlayerTurn then Err(InvalidGame)
    else if !CanDouble(g) then Err(DoubleRefused)
    else
      var i := g.activeHand;
      Ok(Advance(Draw(g.(bets := g.bets[i := g.bets[i] * 2]))))
  }

  /** surrender: mark the active hand surrendered, then stand. */
  function Surrender(g: Game): (r: Result<Game>)
    requires Valid(g) && (g.status == PlayerTurn ==> CanAdvance(g))
    ensures r.Err? <==> g.status != PlayerTurn
    ensures r.Err? ==> r.error == InvalidGame
    ensures r.Ok? ==>
      var n, i := r.value, g.activeHand;
      && IsSurrendered(n.surrendered, i)
      && (forall k :: k != i ==> (IsSurrendered(n.surrendered, k) <==> IsSurrendered(g.surrendered, k)))
      && n.hands == g.hands && n.bets == g.bets
      && (i + 1 < |g.hands| ==> n.status == PlayerTurn && n.activeHand == i + 1 && n.deck == g.deck)
      && (i + 1 < |g.hands| ==> n == g.(surrendered := g.surrendered[i := true], activeHand := i + 1))
      && (i + 1 == |g.hands| ==> n.status == Finished && |n.results| == |n.hands| && n.results[i] == Surrendered)
      && (i + 1 == |g.hands| ==>
            HandTotal(n.dealer) >= DealerStand && |g.dealer| <= |n.dealer| && n.dealer[..|g.dealer|] == g.dealer)
      && (i + 1 == |g.hands| ==> n == Resolve(g.(surrendered := g.surrendered[i := true])))
  {
    if g.status != PlayerTurn then Err(InvalidGame)
    else Ok(Advance(g.(surrendered := g.surrendered[g.activeHand := true])))
  }

  /** Where the elements of s land when element i is replaced by a and b. */
  lemma {:induction false} ReplaceByTwoIndices<T>(s: seq<T>, i: nat, a: T, b: T)
    requires i < |s|
    ensures var t := s[..i] + [a, b] + s[i + 1..];
      && |t| == |s| + 1 && t[i] == a && t[i + 1] == b
      && (forall j :: 0 <= j < i ==> t[j] == s[j])
      && (forall j :: i < j < |s| ==> t[j + 1] == s[j])
  {
    var t := s[..i] + [a, b] + s[i + 1..];
    forall j | i < j < |s| ensures t[j + 1] == s[j] {
      assert t[j + 1] == s[i + 1..][j - i - 1];
    }
  }

  /** Where the elements of s land when x is inserted at position k. */
  lemma {:induction false} InsertIndices<T>(s: seq<T>, k: nat, x: T)
    requires k <= |s|
    ensures var t := s[..k] + [x] + s[k..];
      && |t| == |s| + 1 && t[k] == x
      && (forall j :: 0 <= j < k ==> t[j] == s[j])
      && (forall j :: k <= j < |s| ==> t[j + 1] == s[j])
  {
    var t := s[..k] + [x] + s[k..];
    forall j | k <= j < |s| ensures t[j + 1] == s[j] {
      assert t[j + 1] == s[k..][j - k];
    }
  }

  /** Two cards of equal rank. */
  predicate IsPair(hand: seq<Card>)
  {
    |hand| == 2 && hand[0].rank == hand[1].rank
  }

  /** The deck suffices for split: two cards when the active hand is a pair. */
  predicate SplitDefined(g: Game)
    requires Valid(g)
  {
    g.status == PlayerTurn && IsPair(g.hands[g.activeHand]) ==> |g.deck| >= 2
  }

  /** split: a pair becomes two hands, each topped up from the deck; the second hand and
      a copy of the bet are inserted right after the active hand. Not a pair: no change. */
  function Split(g: Game): (r: Result<Game>)
    requires Valid(g) && SplitDefined(g)
    ensures r.Err? <==> g.status != PlayerTurn
    ensures r.Err? ==> r.error == InvalidGame
    ensures r.Ok? && !IsPair(g.hands[g.activeHand]) ==> r.value == g
    ensures r.Ok? && IsPair(g.hands[g.activeHand]) ==>
      var n := r.value;
      && |n.hands| == |g.hands| + 1 && |n.bets| == |n.hands|
      && n.deck == g.deck[..|g.deck| - 2]
      && n.activeHand == g.activeHand && n.status == PlayerTurn && n.dealer == g.dealer
      && n.surrendered == g.surrendered
  {
    if g.status != PlayerTurn then Err(InvalidGame)
    else
      var i, h := g.activeHand, g.hands[g.activeHand];
      if IsPair(h) then
        var c1 := Top(g.deck);
        var c2 := Top(Pop(g.deck));
        Ok(g.(deck := Pop(Pop(g.deck)),
              hands := g.hands[..i] + [[h[0], c1], [h[1], c2]] + g.hands[i + 1..],
              bets := g.bets[..i + 1] + [g.bets[i]] + g.bets[i + 1..]))
      else Ok(g)
  }

  /** The round after an action: the new record, or the old one when the action failed. */
  function After(g: Game, r: Result<Game>): (n: Game)
  {
    if r.Ok? then r.value else g
  }

  // ----- The client view (summarize) -----

  /** A dealer card as shown to the client: face up, or the placeholder "??". */
  datatype Shown = FaceUp(card: Card) | FaceDown

  datatype Snapshot = Snapshot(
    gameId: string,
    hands: seq<seq<Card>>,
    activeHand: int,
    dealer: seq<Shown>,
    status: Status,
    bets: seq<int>,
    dealerTotal: Option<int>,
    handTotals: seq<int>)

  /** summarize: while the player is to act, only the dealer's first card is shown and
      the dealer total is withheld. */
  function Summarize(g: Game): (s: Snapshot)
    requires g.status == PlayerTurn ==> |g.dealer| > 0
    ensures s.gameId == g.id && s.hands == g.hands && s.activeHand == g.activeHand
    ensures s.status == g.status && s.bets == g.bets
    ensures g.status == PlayerTurn ==> s.dealer == [FaceUp(g.dealer[0]), FaceDown] && s.dealerTotal == None
    ensures g.status != PlayerTurn ==>
      && |s.dealer| == |g.dealer| && (forall i :: 0 <= i < |g.dealer| ==> s.dealer[i] == FaceUp(g.dealer[i]))
      && s.dealerTotal == Some(HandTotal(g.dealer))
    ensures |s.handTotals| == |g.hands| && forall i :: 0 <= i < |g.hands| ==> s.handTotals[i] == HandTotal(g.hands[i])
  {
    Snapshot(
      g.id, g.hands, g.activeHand,
      if g.status != PlayerTurn then seq(|g.dealer|, i requires 0 <= i < |g.dealer| => FaceUp(g.dealer[i]))
      else [FaceUp(g.dealer[0]), FaceDown],
      g.status, g.bets,
      if g.status != PlayerTurn then Some(HandTotal(g.dealer)) else None,
      seq(|g.hands|, i requires 0 <= i < |g.hands| => HandTotal(g.hands[i])))
  }
}
