# Blackjack round engine

A model of the round engine of a small blackjack web game (`CasinoWang.py`), without its
HTTP layer. A round is dealt from a shuffled 52-card deck: two cards to the player, two
to the dealer. The player then plays one or more hands in turn with hit, stand, double
down, surrender and split. When the last hand is done, the dealer draws until reaching
17 or more, and every hand is scored against the dealer. The client sees the round
through a summary that hides the dealer's second card and total while the player is
still to act.

The model has four modules:

- `Cards` (`cards.dfy`) covers ranks, suits and cards, and `card_value`. It states
  `hand_total` as a function (the all-aces-high sum, then the ace-downgrade loop) and
  implements it as a method with the source's `while` loop. It also holds the ordered
  52-card deck of `new_deck` and the facts about shuffles of it.
- `Rules` (`rules.dfy`) models the round record as a value. It holds the round
  invariant and each action as a pure transition to the next record (or to an error).
  It also holds the dealer's play-out, the scoring of `stand_logic`, and `summarize`.
- `Invariants` (`invariants.dfy`) proves that every transition keeps the round invariant,
  and states what the invariant gives:
  - card conservation;
  - the double-down limit never binds;
  - one result per hand in a finished round;
  - the masking of the dealer's hand.
- `Engine` (`round.dfy`) holds the class `Round`, whose fields are the source's round
  dictionary. The class updates them in place, as the source does: pops from the deck,
  appends to hands, inserts a hand and a bet, doubles a bet, moves the cursor, marks a
  surrender. Its `StandLogic` has the dealer's draw loop, which pops onto the `dealer`
  field one card per pass, and the scoring loop. The constructor and the five actions
  (hit, stand, double down, surrender, split) are proved to perform the matching `Rules`
  transition and to keep the invariant. The shared tails `StandLogic` and
  `NextHandOrResolve` are proved to perform `Resolve` and `Advance`. The constructor
  returns no value. The reply that `new_game` sends is `Summarize(Model())` of the new
  round.

The deck is a stack whose top is its last element, as with Python's `list.pop()`. Randomness
enters only through the deck order. `new_deck` followed by `random.shuffle` is replaced by
a parameter `shuffled`, which must be some permutation of the 52 cards.

One behaviour of the source is kept as it is. A round whose first two cards total 21 has
status `player_blackjack`. From that status every action answers "Invalid game", and the
dealer's hand is never played out.

## Model

| member | source | states |
|---|---|---|
| Cards.CardValue | CasinoWang.py:15-20 | a card's value is between 2 and 11; it is 11 exactly for an ace and 10 exactly for ten, jack, queen and king |
| Cards.CardValueByPosition | CasinoWang.py:15-20 | in the rank list, the ace is worth 11, the ranks "2" to "10" their face value, and the face cards 10 |
| Cards.RawSum | CasinoWang.py:24 | the all-aces-high sum of a hand of n cards lies between 2n and 11n |
| Cards.AceCount | CasinoWang.py:25 | a hand has at most as many aces as cards |
| Cards.Soften | CasinoWang.py:26-28 | the downgrade loop lowers the total by a multiple of 10, at most 10 per ace; it stops above 21 only when every ace is downgraded; it downgrades an ace only while the total is above 21 |
| Cards.HandTotal | CasinoWang.py:22-29 | hand_total lies between the all-aces-low and the all-aces-high sum; a total above 21 is the all-aces-low sum |
| Cards.SoftenClosedForm | CasinoWang.py:26-28 | the downgrade loop subtracts exactly 10 times the number of aces needed to reach 21 or below, capped at the number of aces |
| Cards.HandTotalDowngrades | CasinoWang.py:22-29 | hand_total is the all-aces-high sum minus 10k, with k at most the number of aces; an ace is downgraded only while the total is above 21; an ace stays high only if the total is then 21 or below; a total above 21 means every ace was downgraded |
| Cards.HandTotalOrderIndependent | CasinoWang.py:22-29 | two hands holding the same cards in any order have the same sum, ace count and hand_total |
| Cards.ValuationExamples | CasinoWang.py:22-29 | A+A+9 is 21, K+Q is 20, A+K is 21, A+A+A+8 is 21 |
| Cards.ComputeHandTotal | CasinoWang.py:22-29 | the source's loop (sum, count aces, downgrade one ace at a time) returns hand_total |
| Cards.OrderedDeck | CasinoWang.py:11 | the unshuffled deck has 13 x 4 cards |
| Cards.OrderedDeckDistinct | CasinoWang.py:7-11 | no card occurs twice in the unshuffled deck |
| Cards.OrderedDeckCovers | CasinoWang.py:7-11 | every rank of every suit is in the unshuffled deck |
| Cards.OrderedDeckComplete | CasinoWang.py:7-11 | the unshuffled deck holds every rank of every suit, and no card twice |
| Cards.ShuffledDeckIntegrity | CasinoWang.py:10-13 | any shuffle of the deck has 52 distinct cards, including every rank of every suit |
| Rules.Pop | CasinoWang.py:48 | deck.pop() leaves the deck without its last card; the popped card and the rest together are the old deck |
| Rules.PlayOut | CasinoWang.py:47-48 | the dealer's final total is at least 17; the dealer's hand only grows at the end; no card is lost or created |
| Rules.PlayOutFromTop | CasinoWang.py:47-48 | the dealer's new cards are the deck's top cards, in pop order |
| Rules.PlayOutLeavesBottom | CasinoWang.py:47-48 | the deck left after the dealer's play-out is the part that lay under the cards drawn |
| Rules.PlayOutDrawsBelowStand | CasinoWang.py:47 | the dealer draws a card only when the dealer's total is below 17 |
| Rules.Score | CasinoWang.py:53-64 | one outcome per hand; the outcome of hand i is Judge applied to its surrender mark, its total and the dealer's total |
| Rules.Judge | CasinoWang.py:54-64 | outcome priority: surrender, then player bust whatever the dealer holds, then player win (dealer bust or higher total), then dealer win, then push; each outcome is characterised both ways |
| Rules.Resolve | CasinoWang.py:45-67 | stand_logic finishes the round; the dealer's hand and the deck are those PlayOut leaves; hands, bets, cursor and surrender marks are unchanged; the dealer's total is at least 17; there is one result per hand, in hand order, as Judge rules |
| Rules.Advance | CasinoWang.py:128-132 | hands, bets and marks are kept; before the last hand only the cursor moves; after it the record is Resolve of the round: the cursor stays, the round finishes with one result per hand, and the dealer's hand is extended to 17 or more |
| Rules.Draw | CasinoWang.py:109-110 | the top card leaves the deck and is appended to the active hand; the other hands and every other field are unchanged |
| Rules.Summarize | CasinoWang.py:31-43 | the view copies id, hands, cursor, status and bets, and gives each hand's total. While the player is to act, the dealer shows the first card and a placeholder, with no total; otherwise the whole dealer hand and its total |
| Rules.NewGame | CasinoWang.py:76-97 | the player gets the top two cards and the dealer the next two; 48 cards remain; one hand, one bet of 100, cursor 0; status is player_blackjack exactly when the player's total is 21 |
| Rules.Hit | CasinoWang.py:106-119 | an error exactly when it is not the player's turn. Otherwise exactly the top card is appended to the active hand and nothing else changes in hands, bets or marks. Without a bust, the cursor and dealer are unchanged and the deck loses only its top card. After a bust the cursor moves to the next hand, or, on the last hand, the round finishes with that hand a player bust and the record is Resolve of the drawn round |
| Rules.Stand | CasinoWang.py:125-132 | an error exactly when it is not the player's turn; otherwise only the cursor advances, or after the last hand the round finishes with one result per hand and the dealer at 17 or more, and the record is exactly Resolve of the old round, so the surrender marks decide the results |
| Rules.DoubleDown | CasinoWang.py:138-154 | "Invalid game" when it is not the player's turn. "Can only double on first move" exactly when the hand does not have two cards or its bet is above 500. Otherwise only the active bet doubles, and exactly the top card is added, making three cards. Then the cursor advances and the rest of the record, dealer included, is unchanged; or, on the last hand, the round finishes with the dealer's hand extended to 17 or more, and the record is Resolve of the round with the doubled bet and the drawn card |
| Rules.Surrender | CasinoWang.py:160-170 | an error exactly when it is not the player's turn; otherwise the active hand and no other is newly marked, hands and bets are unchanged. Then the cursor advances and the rest of the record, dealer and deck included, is unchanged; or, on the last hand, the round finishes with that hand scored as surrendered and the dealer's hand extended to 17 or more, and the record is Resolve of the marked round |
| Rules.Split | CasinoWang.py:176-187 | an error exactly when it is not the player's turn. A non-pair changes nothing. On a pair there is one more hand, bets stay aligned with hands, and the deck loses exactly its top two cards. The cursor, status, dealer and marks are unchanged |
| Invariants.SplitPairPlacement | CasinoWang.py:181-186 | on a pair, the active hand becomes its first card plus the top card. The new hand right after it is the second card plus the next card, with a copy of the active bet. Hands and bets before the pair stay in place, and those after it move one position right |
| Invariants.NewGameConserves | CasinoWang.py:77-79 | the four cards dealt leave the deck for the hands; with the deck, the hands hold exactly the 52 cards |
| Invariants.NewGameIsValid | CasinoWang.py:76-97 | a new round satisfies the invariant: the 52 cards are split between deck, hand and dealer; the shape holds; a natural has two cards totalling 21 |
| Invariants.SurrenderedHandScoredAtStand | CasinoWang.py:160-170 | surrendering a hand that is not the last, then standing on the last hand, finishes the round with the surrendered hand scored as surrendered |
| Invariants.AdvanceKeepsValid | CasinoWang.py:128-132 | moving to the next hand, or resolving after the last, keeps the invariant |
| Invariants.HitKeepsValid | CasinoWang.py:106-119 | hit keeps the invariant |
| Invariants.StandKeepsValid | CasinoWang.py:125-132 | stand keeps the invariant |
| Invariants.DoubleDownKeepsValid | CasinoWang.py:138-154 | double_down keeps the invariant |
| Invariants.SurrenderKeepsValid | CasinoWang.py:160-170 | surrender keeps the invariant |
| Invariants.SplitKeepsValid | CasinoWang.py:176-187 | split keeps the invariant, including len(hands) == len(bets) and conservation of the 52 cards |
| Invariants.SplitConserves | CasinoWang.py:181-186 | the two popped cards and the pair's cards are exactly the cards of the two new hands |
| Invariants.DrawKeepsWellFormed | CasinoWang.py:109-110 | popping a card onto the active hand keeps the shape and card conservation |
| Invariants.CardsNeverDuplicated | CasinoWang.py:76-97 | in a valid round each of the 52 cards is in exactly one place: the deck, a player hand or the dealer's hand |
| Invariants.DoubleLimitNeverBinds | CasinoWang.py:144 | while the player is to act, the active bet is 100; so the 500 limit never refuses, and double_down is allowed exactly on a two-card hand |
| Invariants.FinishedRoundScored | CasinoWang.py:50-67 | a finished round has one result per hand, each as Judge rules against the dealer's total, which is at least 17 |
| Invariants.MaskHidesDealer | CasinoWang.py:36-40 | while the player is to act, the view shows the dealer's first card and a placeholder, with no dealer total; changing the hole card, later dealer cards or the deck does not change the view |
| Invariants.RevealShowsDealer | CasinoWang.py:36-41 | otherwise the whole dealer hand is shown with its total, and there is one total per player hand |
| Invariants.RevealedViewDeterminesDealer | CasinoWang.py:36 | once revealed, the view determines the dealer's hand |
| Engine.ScoreHands | CasinoWang.py:50-64 | the scoring loop returns one outcome per hand, in hand order, as Judge rules |
| Engine.Round.NewGame | CasinoWang.py:76-97 | the dealt round is the NewGame record, and satisfies the invariant |
| Engine.Round.DealerPlays | CasinoWang.py:47-48 | the loop that pops onto the dealer's hand while its total is below 17 leaves the dealer and deck that PlayOut gives; it changes no other field |
| Engine.Round.StandLogic | CasinoWang.py:45-68 | the dealer's draw loop and the scoring loop leave the round in the Resolve state, and the reply is its summary |
| Engine.Round.NextHandOrResolve | CasinoWang.py:128-132 | the cursor moves to the next hand, or after the last hand stand_logic resolves the round; the reply is the summary |
| Engine.Round.Hit | CasinoWang.py:102-119 | the round becomes the Hit record, or stays unchanged on an error; the reply is the error or the new summary; the invariant holds |
| Engine.Round.Stand | CasinoWang.py:121-132 | the round becomes the Stand record, or stays unchanged on an error; the invariant holds |
| Engine.Round.DoubleDown | CasinoWang.py:134-154 | the round becomes the DoubleDown record, or stays unchanged on either error; the invariant holds |
| Engine.Round.Surrender | CasinoWang.py:156-170 | the round becomes the Surrender record, or stays unchanged on an error; the invariant holds |
| Engine.Round.Split | CasinoWang.py:172-187 | the round becomes the Split record, or stays unchanged on an error; the invariant holds |

## Left out

- The Flask application, its routes, `request.get_json`, `jsonify`, `send_from_directory`
  and `app.run` are HTTP plumbing. An action's reply is modelled as an error value or the
  summary record. The JSON shape and the HTTP status 400 are not modelled.
- The `GAMES` registry and the `secrets.token_urlsafe` ids are process-wide storage and key
  generation. The model is one `Round` object whose id is a constructor parameter. The
  "unknown game id" case, which the source folds into "Invalid game", is not modelled.
- `random.shuffle` is a library random-number call. It is replaced by the `shuffled`
  parameter, which is required to be a permutation of the 52 cards.
- Deck exhaustion. In the source, `deck.pop()` on an empty deck raises an exception. Each
  action instead requires that its pops stay within the deck: `HitDefined`,
  `DoubleDefined`, `SplitDefined`, `CanAdvance` and `CanPlayOut`. The exception path is
  not modelled.
- Engine.Round.Hit, Engine.Round.Stand, Engine.Round.DoubleDown, Engine.Round.Surrender
  and Engine.Round.Split require a deck large enough for their pops. This is stronger
  than the source, which would raise instead.
- The per-hand results are not part of the client view: `summarize` (CasinoWang.py:31-43)
  has no `results` field, so `Snapshot` carries none.
- The source's round dictionary has no `results` key before `stand_logic`. The model
  starts `results` as the empty sequence.
- Cards are a (rank, suit) pair rather than the string `rank + suit`. The rank the
  source recovers with `c[:-1]` is the `rank` field. Rank strings are enumerated, so
  `int(rank)` on a malformed rank cannot happen.
- Aliasing between the `hand` local and `game["hands"][idx]` in the source is modelled
  as an update of the `hands` field at the active index.
