/** The round as the server keeps it: one object whose fields the actions update in
    place. Each action is proved to perform the transition of module Rules, and to keep
    the round invariant. */
module Engine {
  import opened Cards
  import opened Rules
  import opened Invariants

  /** The reply to an action: the view of the new round, or the action's error. */
  function Reply(res: Result<Game>, now: Game): (r: Result<Snapshot>)
    requires now.status == PlayerTurn ==> |now.dealer| > 0
  {
    if res.Ok? then Ok(Summarize(now)) else Err(res.error)
  }

  /** The scoring loop of stand_logic: each hand in order against the dealer's final
      total, surrender first, then a player bust, then the higher total. */
  method ScoreHands(playerHands: seq<seq<Card>>, marks: map<int, bool>, dealerTotal: int)
    returns (outcomes: seq<Outcome>)
    ensures outcomes == Score(playerHands, marks, dealerTotal)
  {
    outcomes := [];
    for idx := 0 to |playerHands|
      invariant outcomes == Score(playerHands[..idx], marks, dealerTotal)
    {
      var playerTotal := ComputeHandTotal(playerHands[idx]);
      var outcome;
      if IsSurrendered(marks, idx) {
        outcome := Surrendered;
      } else if playerTotal > Blackjack {
        outcome := PlayerBust;
      } else if dealerTotal > Blackjack || playerTotal > dealerTotal {
        outcome := PlayerWin;
      } else if dealerTotal > playerTotal {
        outcome := DealerWin;
      } else {
        outcome := Push;
      }
      outcomes := outcomes + [outcome];
    }
    assert playerHands[..|playerHands|] == playerHands;
  }

  /** Replacing element i by a and then inserting b after it is the same as putting a, b
      in place of element i. */
  lemma {:induction false} ReplaceThenInsert<T>(s: seq<T>, i: nat, a: T, b: T)
    requires i < |s|
    ensures var replaced := s[i := a];
      replaced[..i + 1] + [b] + replaced[i + 1..] == s[..i] + [a, b] + s[i + 1..]
  {
    var replaced := s[i := a];
    assert replaced[..i + 1] == s[..i] + [a];
    assert replaced[i + 1..] == s[i + 1..];
  }

  /** One pass of the dealer's draw loop leaves the play-out's result unchanged. */
  lemma PlayOutStep(dealer: seq<Card>, deck: seq<Card>)
    requires CanPlayOut(dealer, deck) && HandTotal(dealer) < DealerStand
    ensures |deck| > 0 && CanPlayOut(dealer + [Top(deck)], Pop(deck))
    ensures PlayOut(dealer + [Top(deck)], Pop(deck)) == PlayOut(dealer, deck)
  {
  }

  /** Once the dealer stands, the play-out draws nothing more. */
  lemma PlayOutDone(dealer: seq<Card>, deck: seq<Card>)
    requires CanPlayOut(dealer, deck) && HandTotal(dealer) >= DealerStand
    ensures PlayOut(dealer, deck) == (dealer, deck)
  {
  }

  class Round {
    var id: string
    /** A stack: deck.pop() takes the last card. */
    var deck: seq<Card>
    var hands: seq<seq<Card>>
    var bets: seq<int>
    var activeHand: int
    var dealer: seq<Card>
    var status: Status
    var surrendered: map<int, bool>
    var results: seq<Outcome>

    /** The round's fields as a value. */
    function Model(): Game
      reads this
    {
      Game(id, deck, hands, bets, activeHand, dealer, status, surrendered, results)
    }

    predicate Valid()
      reads this
    {
      Rules.Valid(Model())
    }

    /** new_game: pop two cards for the player and two for the dealer, bet the starting
        stake, and detect a natural. `shuffled` stands for new_deck()'s shuffled deck. */
    constructor NewGame(gameId: string, shuffled: seq<Card>)
      requires IsShuffledDeck(shuffled)
      ensures Model() == Rules.NewGame(gameId, shuffled)
      ensures Valid()
    {
      var d := shuffled;
      var p1 := d[|d| - 1];
      d := d[..|d| - 1];
      var p2 := d[|d| - 1];
      d := d[..|d| - 1];
      var q1 := d[|d| - 1];
      d := d[..|d| - 1];
      var q2 := d[|d| - 1];
      d := d[..|d| - 1];
      var player := [p1, p2];
      var total := ComputeHandTotal(player);
      id := gameId;
      deck := d;
      hands := [player];
      activeHand := 0;
      dealer := [q1, q2];
      bets := [StartingBet];
      status := if total == Blackjack then PlayerBlackjack else PlayerTurn;
      surrendered := map[];
      results := [];
      NewGameIsValid(gameId, shuffled);
    }

    /** The dealer's draw loop of stand_logic: while the dealer's total is below 17, pop
        the deck onto the dealer's hand. */
    method DealerPlays()
      requires CanPlayOut(dealer, deck)
      modifies this`dealer, this`deck
      ensures (dealer, deck) == PlayOut(old(dealer), old(deck))
    {
      ghost var table := PlayOut(dealer, deck);
      var total := ComputeHandTotal(dealer);
      while total < DealerStand
        invariant CanPlayOut(dealer, deck)
        invariant PlayOut(dealer, deck) == table
        invariant total == HandTotal(dealer)
        decreases |deck|
      {
        PlayOutStep(dealer, deck);
        dealer, deck := dealer + [Top(deck)], Pop(deck);
        total := ComputeHandTotal(dealer);
      }
      PlayOutDone(dealer, deck);
    }

    /** stand_logic: the dealer draws while below 17, then every hand is scored in order
        and the round is finished. */
    method StandLogic() returns (s: Snapshot)
      requires CanPlayOut(dealer, deck)
      modifies this
      ensures Model() == Resolve(old(Model()))
      ensures s == Summarize(Model())
    {
      DealerPlays();
      var dealerTotal := ComputeHandTotal(dealer);
      var outcomes := ScoreHands(hands, surrendered, dealerTotal);
      results := outcomes;
      status := Finished;
      s := Summarize(Model());
    }

    /** The tail the actions share: move to the next hand, or after the last one run
        stand_logic; the reply is the summary either way. */
    method NextHandOrResolve() returns (s: Snapshot)
      requires |dealer| > 0 && CanAdvance(Model())
      modifies this
      ensures Model() == Advance(old(Model()))
      ensures s == Summarize(Model())
    {
      if activeHand + 1 < |hands| {
        activeHand := activeHand + 1;
        s := Summarize(Model());
      } else {
        s := StandLogic();
      }
    }

    /** hit: pop a card onto the active hand; on a bust, move to the next hand or, after
        the last one, resolve the round. */
    method Hit() returns (r: Result<Snapshot>)
      requires Valid() && HitDefined(Model())
      modifies this
      ensures Valid()
      ensures Model() == After(old(Model()), Rules.Hit(old(Model())))
      ensures r == Reply(Rules.Hit(old(Model())), Model())
    {
      ghost var g := Model();
      HitKeepsValid(g);
      if status != PlayerTurn {
        return Err(InvalidGame);
      }
      var card := Top(deck);
      deck := Pop(deck);
      hands := hands[activeHand := hands[activeHand] + [card]];
      assert Model() == Draw(g);
      var total := ComputeHandTotal(hands[activeHand]);
      if total > Blackjack {
        var s := NextHandOrResolve();
        r := Ok(s);
      } else {
        r := Ok(Summarize(Model()));
      }
    }

    /** stand: move to the next hand or, after the last one, resolve the round. */
    method Stand() returns (r: Result<Snapshot>)
      requires Valid() && (status == PlayerTurn ==> CanAdvance(Model()))
      modifies this
      ensures Valid()
      ensures Model() == After(old(Model()), Rules.Stand(old(Model())))
      ensures r == Reply(Rules.Stand(old(Model())), Model())
    {
      StandKeepsValid(Model());
      if status != PlayerTurn {
        return Err(InvalidGame);
      }
      var s := NextHandOrResolve();
      r := Ok(s);
    }

    /** double_down: on a two-card hand whose bet is within the limit, double the bet,
        pop exactly one card onto the hand, then stand. */
    method DoubleDown() returns (r: Result<Snapshot>)
      requires Valid() && DoubleDefined(Model())
      modifies this
      ensures Valid()
      ensures Model() == After(old(Model()), Rules.DoubleDown(old(Model())))
      ensures r == Reply(Rules.DoubleDown(old(Model())), Model())
    {
      ghost var g := Model();
      DoubleDownKeepsValid(g);
      if status != PlayerTurn {
        return Err(InvalidGame);
      }
      var idx := activeHand;
      if |hands[idx]| != 2 || bets[idx] > DoubleLimit {
        return Err(DoubleRefused);
      }
      bets := bets[idx := bets[idx] * 2];
      hands := hands[idx := hands[idx] + [Top(deck)]];
      deck := Pop(deck);
      assert Model() == Draw(g.(bets := g.bets[idx := g.bets[idx] * 2]));
      var s := NextHandOrResolve();
      r := Ok(s);
    }

    /** surrender: mark the active hand surrendered, then stand. */
    method Surrender() returns (r: Result<Snapshot>)
      requires Valid() && (status == PlayerTurn ==> CanAdvance(Model()))
      modifies this
      ensures Valid()
      ensures Model() == After(old(Model()), Rules.Surrender(old(Model())))
      ensures r == Reply(Rules.Surrender(old(Model())), Model())
    {
      ghost var g := Model();
      SurrenderKeepsValid(g);
      if status != PlayerTurn {
        return Err(InvalidGame);
      }
      var idx := activeHand;
      surrendered := surrendered[idx := true];
      assert Model() == g.(surrendered := g.surrendered[g.activeHand := true]);
      var s := NextHandOrResolve();
      r := Ok(s);
    }

    /** split: a pair at the active hand becomes two hands, each given one popped card;
        the second hand and a copy of the bet go right after it. Otherwise nothing changes. */
    method Split() returns (r: Result<Snapshot>)
      requires Valid() && SplitDefined(Model())
      modifies this
      ensures Valid()
      ensures Model() == After(old(Model()), Rules.Split(old(Model())))
      ensures r == Reply(Rules.Split(old(Model())), Model())
    {
      ghost var g := Model();
      SplitKeepsValid(g);
      if status != PlayerTurn {
        return Err(InvalidGame);
      }
      var idx := activeHand;
      var hand := hands[idx];
      if |hand| == 2 && hand[0].rank == hand[1].rank {
        var card1, card2 := hand[0], hand[1];
        var newHand1 := [card1, Top(deck)];
        deck := Pop(deck);
        var newHand2 := [card2, Top(deck)];
        deck := Pop(deck);
        ReplaceThenInsert(hands, idx, newHand1, newHand2);
        hands := hands[idx := newHand1];
        hands := hands[..idx + 1] + [newHand2] + hands[idx + 1..];
        bets := bets[..idx + 1] + [bets[idx]] + bets[idx + 1..];
        SplitPairResult(g);
      }
      r := Ok(Summarize(Model()));
    }
  }
}
