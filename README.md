# Badugi engine — a Dafny model

This project models the game-logic engine of a two-player Badugi poker game.
Badugi is a draw-poker variant in which the lowest hand of four cards, all of
different suits and ranks, wins. The engine covers five parts:

- the deck: building the 52 cards, a Fisher–Yates shuffle and dealing from
  the front;
- the hand evaluator: one card per suit, then one card per rank, then an
  ascending sort, a category chosen by the number of surviving cards, and an
  integer comparison value in which lower is better;
- the betting state machine: call, raise, fold and check, the search for the
  next seat to act, and the end of a betting round;
- the card exchange and the showdown;
- the computer player's heuristics: hand strength, the betting decision tree
  and the choice of cards to discard.

Every engine operation takes a game snapshot and returns a new one, so the
snapshot is a Dafny `datatype`. Operations that are plain expressions are
Dafny functions. The source implements some operations with loops: building
and shuffling the deck, the two passes of the evaluator, the value
accumulation, the showdown scan, the next-seat scan, the exchange and the AI's
two discard loops. Each of these is a `method` with loop invariants, proved
equal to a specification function. Lemmas then state what the source promises
about that function.

Modules follow the source files:

- `Types` (`types.dfy`) covers `src/types/index.ts` and the tables of
  `src/constants/index.ts`.
- `CardUtils` (`card_utils.dfy`) covers `src/utils/cardUtils.ts`.
- `GameUtils` (`game_utils.dfy`) covers `src/utils/gameUtils.ts`.
- `AiUtils` (`ai_utils.dfy`) covers `src/utils/aiUtils.ts`.

The random and time-dependent inputs are parameters. The shuffle receives its
swap choices as a sequence `picks`, with `picks[i] <= i` standing for
`Math.floor(Math.random() * (i + 1))`. The AI's bluff roll is a `real`
parameter compared with the bluff chance. The game id is a string parameter.

Behaviour of the code that a reader might not expect:

- `exchangeCards` never reads or decrements `exchangesRemaining`. An
  exchange with a budget of 0 goes ahead like any other. No error value is
  produced.
- An unknown player id returns the snapshot unchanged instead of failing.
- `drawCards` silently returns fewer cards when the deck is short.
- The quantity conserved by a betting action is the sum of the stacks plus
  the pot. Bets already sit in the pot, so "stacks + bets + pot" is not
  conserved.
- `startNewRound` sets the pot to 0 without paying it to anyone. It is
  only called on a freshly created game (`src/hooks/useGame.ts` dispatches it
  from the lobby), whose pot is 0, so in practice nothing is lost; after a
  showdown a new game is created instead.
- A `raise` caps the player's whole bet at the remaining stack, without
  adding what the player has already posted. A short-stacked raise can
  therefore lower the player's bet and take chips back out of the pot
  (`GameUtils.RaiseMayLowerCommitment`).
- After any action the acting seat's turn flag is cleared. A check with
  matched bets therefore usually ends the round at once
  (`GameUtils.CheckWithMatchedBetsEndsRound`).

## Model

| member | source | states |
|---|---|---|
| `Types.HandRanking` | src/constants/index.ts:17-22 | the category base lies in 1..4 and is 1 exactly for a badugi |
| `Types.CardValue` | src/constants/index.ts:25-39 | every rank is worth 1 (ace) to 13 (king) |
| `Types.RankTable` | src/constants/index.ts:5 | RANKS lists the ranks in increasing value order, and no two ranks share a value |
| `CardUtils.CardIdInjective` | src/utils/cardUtils.ts:16 | two cards get the same id `suit-rank` exactly when they have the same suit and rank |
| `CardUtils.BuildDeck` | src/utils/cardUtils.ts:8-20 | the nested suit/rank loops produce the ordered 52-card deck |
| `CardUtils.OrderedDeckIsFull` | src/utils/cardUtils.ts:8-20 | the ordered deck has 52 cards, each suit×rank card exactly once, with pairwise distinct ids |
| `CardUtils.ShuffleDeck` | src/utils/cardUtils.ts:26-35 | the in-place descending swap loop over a copy yields the Fisher–Yates result for the given swap choices, a permutation of the input |
| `CardUtils.Shuffled` | src/utils/cardUtils.ts:26-35 | for every admissible choice of swaps the shuffle keeps the length and the multiset of cards |
| `CardUtils.PermutationOfFullDeck` | src/utils/cardUtils.ts:8-35 | any permutation of a full deck is a full deck |
| `CardUtils.CreateDeck` | src/utils/cardUtils.ts:8-23 | createDeck returns the shuffle of the ordered deck, which is a full deck of 52 distinct cards |
| `CardUtils.DrawCards` | src/utils/cardUtils.ts:38-43 | drawn cards followed by the remaining deck give back the deck, and min(count, deck size) cards are drawn |
| `CardUtils.SortProps` | src/utils/cardUtils.ts:76 | the stable sort by card value permutes its input into ascending (or descending) value order |
| `CardUtils.SuitPass` | src/utils/cardUtils.ts:48-57 | the suit map loop yields one entry per suit, in first-appearance order, equal to the suit pass |
| `CardUtils.SuitRepsPassed` | src/utils/cardUtils.ts:52-57 | the suit pass keeps distinct suits, only held cards, an entry for every suit held, each no higher than any card of its suit |
| `CardUtils.RankPass` | src/utils/cardUtils.ts:64-73 | walking the map entries with a used-rank set keeps exactly the rank-filtered entries |
| `CardUtils.RankFilterPassed` | src/utils/cardUtils.ts:64-73 | the rank pass keeps distinct ranks, only its input's cards, a card for every rank seen, and keeps suits distinct |
| `CardUtils.CalculateHandValue` | src/utils/cardUtils.ts:107-119 | the accumulated value equals base·10^8 + the weighted card part, whose quotient by 10^8 is the category base and remainder the card part |
| `CardUtils.EvaluateHand` | src/utils/cardUtils.ts:46-104 | the imperative evaluator returns exactly the specified hand result |
| `CardUtils.HandOf` | src/utils/cardUtils.ts:46-104 | the evaluated hand holds at most four cards, and is a badugi exactly when it holds four |
| `CardUtils.HandOfShape` | src/utils/cardUtils.ts:78-97 | the result holds the surviving cards, its category matches their number (4/3/2/≤1), and its value is computed from them |
| `CardUtils.HandOfSelected` | src/utils/cardUtils.ts:48-76 | the selected cards are at most four, drawn from the hand, pairwise distinct in suit and rank, and strictly ascending in value |
| `CardUtils.HandOfLowest` | src/utils/cardUtils.ts:52-57 | each selected card is the lowest card of its suit in the hand |
| `CardUtils.FourDistinctIsBadugi` | src/utils/cardUtils.ts:82-84 | four cards of distinct suits and ranks evaluate to a badugi holding all four |
| `CardUtils.BadugiOfFourIsDistinct` | src/utils/cardUtils.ts:82-84 | conversely, a four-card hand that evaluates to badugi has distinct suits and ranks |
| `CardUtils.HandValueSplit` | src/utils/cardUtils.ts:107-119 | the card part stays below 10^8, so value div 10^8 is the category base |
| `CardUtils.CategoryDominates` | src/utils/cardUtils.ts:107-124 | any hand of a better category has a lower value and compares as better |
| `CardUtils.BadugiBeatsLowThreeCard` | src/utils/cardUtils.ts:46-124 | 2♠5♥9♦K♣ is a badugi; A♠A♥3♦7♣ reduces to the three-card A♠3♦7♣; the badugi wins |
| `CardUtils.CompareHands` | src/utils/cardUtils.ts:122-124 | the sign of the comparison is the order of the two values |
| `CardUtils.CompareHandsOrder` | src/utils/cardUtils.ts:122-124 | the comparison is antisymmetric and its "better" and "no worse" relations are transitive |
| `CardUtils.IsValidBadugiCard` | src/utils/cardUtils.ts:127-131 | a card already held is never valid |
| `CardUtils.ValidCardExtends` | src/utils/cardUtils.ts:127-131 | a card is valid against a badugi-valid set exactly when adding it keeps suits and ranks pairwise distinct |
| `CardUtils.SelectedCardsAreValid` | src/utils/cardUtils.ts:127-131 | every card the evaluator selects is valid against the other selected cards |
| `CardUtils.GetCombinations` | src/utils/cardUtils.ts:154-163 | there are C(n, k) combinations |
| `CardUtils.CombinationsAreSubsequences` | src/utils/cardUtils.ts:154-163 | every combination has the requested size and is a subsequence of the input |
| `CardUtils.CombinationsComplete` | src/utils/cardUtils.ts:154-163 | every subsequence of the requested size is among the combinations |
| `CardUtils.ChooseFactorial` | src/utils/cardUtils.ts:154-163 | the count of combinations agrees with n!/(k!(n−k)!) |
| `CardUtils.FirstMin` | src/utils/cardUtils.ts:143-148 | the strict-improvement scan picks a minimal value, and the first position holding it |
| `CardUtils.BestFourIsCandidate` | src/utils/cardUtils.ts:139-150 | with more than four cards the chosen combination is a four-card subsequence of the hand |
| `CardUtils.BestFourMinimal` | src/utils/cardUtils.ts:139-150 | no four-card subsequence has a lower value than the chosen one |
| `CardUtils.BestCombination` | src/utils/cardUtils.ts:134-151 | the best combination holds at most four cards, all of them held |
| `CardUtils.FindBestBadugiCombination` | src/utils/cardUtils.ts:134-151 | the loop over combinations returns the evaluated cards of the hand (≤4 cards) or of the first best four-card combination |
| `GameUtils.FindPlayer` | src/utils/gameUtils.ts:86 | the index is the first seat with the id, or −1 when no seat has it |
| `GameUtils.Active` | src/utils/gameUtils.ts:222 | the active list holds exactly the unfolded players |
| `GameUtils.CreateGameState` | src/utils/gameUtils.ts:6-46 | a new game is in the lobby with two seats, a full 52-card deck, no pot and no table bet, under the given id |
| `GameUtils.CreateGameStateProps` | src/utils/gameUtils.ts:6-46 | a new game seats the human (dealer, to act) and the AI with the initial stack, a full deck, the lobby phase and the whole exchange budget |
| `GameUtils.DealKeepsSeats` | src/utils/gameUtils.ts:53-65 | dealing, from any deck, keeps every seat's id, kind and stack, and clears its bet and fold |
| `GameUtils.DealProps` | src/utils/gameUtils.ts:53-65 | seat k receives deck cards 4k..4k+3 and is reset; the rest of the deck is what follows |
| `GameUtils.StartNewRound` | src/utils/gameUtils.ts:49-76 | a new round keeps who sits where and every stack, clears bets and folds, opens betting round 1 and empties the pot |
| `GameUtils.StartNewRoundProps` | src/utils/gameUtils.ts:49-76 | four cards per seat from the front of a fresh full deck, 52−4n left, bets and pot 0, nobody folded, betting phase, round 1, seat 0; stacks kept, so any pot left over is dropped |
| `GameUtils.AfterAction` | src/utils/gameUtils.ts:89-135 | what an action adds to the pot is exactly what leaves the actor's stack, seats keep their ids, and the table bet never drops |
| `GameUtils.AfterActionConservesChips` | src/utils/gameUtils.ts:93-134 | every action keeps the sum of stacks plus pot |
| `GameUtils.AfterActionFrame` | src/utils/gameUtils.ts:89-136 | only the acting seat changes, and it loses the turn; deck, phase, round and budget are kept |
| `GameUtils.CallMovesCallAmount` | src/utils/gameUtils.ts:94-103 | call moves exactly min(table bet − own bet, chips) from the stack to the pot, leaving a non-negative stack |
| `GameUtils.RaiseSetsBet` | src/utils/gameUtils.ts:105-118 | raise sets the bet to min(amount or 2·table bet, chips), moves the difference to the pot and never lowers the table bet |
| `GameUtils.RaiseCappedByChips` | src/utils/gameUtils.ts:105-117 | raising 50 with 30 chips commits 30 |
| `GameUtils.RaiseMayLowerCommitment` | src/utils/gameUtils.ts:105-117 | a short-stacked raise with a posted bet lowers that bet and takes chips back from the pot |
| `GameUtils.FoldAndCheckMoveNoChips` | src/utils/gameUtils.ts:120-133 | fold and check keep pot and table bet; fold changes only the seat's folded and turn flags, check only its turn flag |
| `GameUtils.AfterActionKeepsStakes` | src/utils/gameUtils.ts:93-134 | with non-negative amounts, stacks stay non-negative and no bet exceeds the table bet |
| `GameUtils.ScanFromProps` | src/utils/gameUtils.ts:313-325 | the seat scan returns an eligible seat other than the actor, or −1 only when no later seat is eligible |
| `GameUtils.NextPlayerIndex` | src/utils/gameUtils.ts:297-326 | the next seat is −1 or an unfolded seat, and always −1 when at most one player is active |
| `GameUtils.NextPlayerIndexProps` | src/utils/gameUtils.ts:297-326 | the next seat is −1 or an unfolded seat other than the actor; −1 when at most one is active or everyone acted with bets settled |
| `GameUtils.GetNextPlayerIndex` | src/utils/gameUtils.ts:297-326 | the imperative scan returns the specified next seat |
| `GameUtils.Winner` | src/utils/gameUtils.ts:221-250 | the winner is an active (unfolded) player |
| `GameUtils.WinnerIsBest` | src/utils/gameUtils.ts:221-250 | the winner is the sole active player, or an active player with a minimal value and strictly better than every active player seated earlier |
| `GameUtils.PayoutProps` | src/utils/gameUtils.ts:252-262 | paying the winner adds the pot to that seat only, empties the pot, ends the game and keeps the chips in play |
| `GameUtils.Showdown` | src/utils/gameUtils.ts:221-263 | the showdown ends the game with an empty pot and names an active player as winner |
| `GameUtils.ShowdownProps` | src/utils/gameUtils.ts:221-263 | determineWinner ends the game, gives the whole pot to an active winner, leaves others unchanged and keeps the chips in play |
| `GameUtils.DetermineWinner` | src/utils/gameUtils.ts:221-263 | the loop with the strict comparison returns the specified showdown |
| `GameUtils.EndBettingRound` | src/utils/gameUtils.ts:266-294 | a round ends either in game-over or in the card exchange of round 2 with the table bet cleared |
| `GameUtils.EndBettingRoundProps` | src/utils/gameUtils.ts:266-294 | one active player goes to the showdown; round 1 moves to card-exchange with round 2, bets 0 and seat 0; otherwise the showdown; chips in play are kept |
| `GameUtils.ApplyAction` | src/utils/gameUtils.ts:89-135 | the switch on the action updates only the acting seat, the pot and the table bet, exactly as the per-action specification says |
| `GameUtils.BettingResult` | src/utils/gameUtils.ts:80-152 | a betting action keeps the seats and leaves the phase unchanged or moves it to card-exchange or game-over |
| `GameUtils.ProcessBettingAction` | src/utils/gameUtils.ts:80-152 | the action applied to a copy, then the turn passed or the round ended, returns the specified snapshot |
| `GameUtils.BettingUnknownPlayer` | src/utils/gameUtils.ts:86-87 | an unknown player id returns the snapshot unchanged |
| `GameUtils.BettingConservesChips` | src/utils/gameUtils.ts:80-152 | with distinct ids no betting action creates or destroys chips, through turn passing and round ends |
| `GameUtils.CheckWithMatchedBetsEndsRound` | src/utils/gameUtils.ts:302-310 | in round 1 a check with both bets matched and no turn flag left moves to the exchange at once |
| `GameUtils.FoldToOneAwardsPot` | src/utils/gameUtils.ts:120-152 | folding down to one player gives that player the pot and ends the game |
| `GameUtils.Kept` | src/utils/gameUtils.ts:160 | the kept cards are exactly the held cards whose ids are not listed |
| `GameUtils.KeptSize` | src/utils/gameUtils.ts:160 | discarding k distinct held ids keeps |hand| − k cards |
| `GameUtils.ExchangeResult` | src/utils/gameUtils.ts:155-218 | an exchange keeps the seats, the pot and the game id, and leaves the phase unchanged or opens final betting |
| `GameUtils.ExchangeCards` | src/utils/gameUtils.ts:155-218 | the imperative exchange returns the specified snapshot |
| `GameUtils.ExchangeUnknownPlayer` | src/utils/gameUtils.ts:156-157 | an unknown player id returns the snapshot unchanged |
| `GameUtils.ExchangeHand` | src/utils/gameUtils.ts:160-177 | an empty list keeps hand and deck; otherwise the hand is the kept cards then the first deck cards, and the deck loses exactly those |
| `GameUtils.ExchangeKeepsHandSize` | src/utils/gameUtils.ts:160-170 | with k distinct held ids and enough cards, the hand keeps its size and the deck loses k cards |
| `GameUtils.ExchangeTurn` | src/utils/gameUtils.ts:180-216 | seat 0 hands the turn to an unfolded seat 1; otherwise final-betting opens with bets 0, seat 0 and round 2 |
| `GameUtils.ExchangeKeepsBudgetAndChips` | src/utils/gameUtils.ts:209-217 | the exchange budget, pot, stacks, folds and ids are unchanged |
| `AiUtils.PersonalityOf` | src/utils/aiUtils.ts:13-36 | every profile has probabilities for its chances and orders its thresholds: raise < exchange < fold |
| `AiUtils.ExchangeThresholdIsBadugi` | src/utils/aiUtils.ts:101-110 | under the medium profile in force, a hand is below the exchange threshold exactly when it is a badugi |
| `AiUtils.CalculateHandStrength` | src/utils/aiUtils.ts:139-154 | for non-negative values the strength lies in [0.1, 1] |
| `AiUtils.StrengthMonotone` | src/utils/aiUtils.ts:139-154 | a higher value never gives a higher strength |
| `AiUtils.StrengthSegmentsMeet` | src/utils/aiUtils.ts:145-153 | the segments meet at 1.5e8, 2.5e8 and 3.5e8 and each stays within its band |
| `AiUtils.EffectiveStrength` | src/utils/aiUtils.ts:52-53 | the effective strength is never below the plain strength, for strengths up to 1 |
| `AiUtils.BluffNeverLowers` | src/utils/aiUtils.ts:52-53 | a bluff gives min(s + 0.3, 1), no bluff gives s, and neither exceeds 1 |
| `AiUtils.Decide` | src/utils/aiUtils.ts:58-97 | a raise always carries an amount within the chips, other actions carry none, a check happens only when nothing is owed, and with nothing owed and chips left the AI only checks or raises |
| `AiUtils.GetAIBettingAction` | src/utils/aiUtils.ts:38-98 | the AI never raises beyond its chips and checks only when its bet already matches the table bet |
| `AiUtils.FreeActionIsCheckOrRaise` | src/utils/aiUtils.ts:59-83 | with chips left and nothing owed the AI checks or raises, and raises exactly above strength 0.7 |
| `AiUtils.FoldThenAllInTests` | src/utils/aiUtils.ts:58-70 | weak strength with a call above 20% of the stack folds; past that, a call covering the stack is made iff strength > 0.6 or pot odds > 3 |
| `AiUtils.OwingDecision` | src/utils/aiUtils.ts:84-97 | owing less than the stack: raise to min(2·table bet, chips) above 0.8, call above 0.4 or pot odds above 2, else fold |
| `AiUtils.BadugiRaisesWhenFree` | src/utils/aiUtils.ts:38-83 | holding a badugi with nothing owed, the AI raises |
| `AiUtils.HighCards` | src/utils/aiUtils.ts:164-169 | at most k cards, each from the first k and valued above 8 |
| `AiUtils.FindImprovementCandidates` | src/utils/aiUtils.ts:157-172 | the sort-then-loop returns the specified candidates |
| `AiUtils.Candidates` | src/utils/aiUtils.ts:157-172 | at most two candidates, each held and valued above 8 |
| `AiUtils.CandidatesProps` | src/utils/aiUtils.ts:157-172 | no held card outside the two highest is valued above any candidate |
| `AiUtils.CollectDiscards` | src/utils/aiUtils.ts:116-123 | the first loop lists the ids of held cards not in the evaluated hand |
| `AiUtils.AddImprovements` | src/utils/aiUtils.ts:126-133 | the second loop adds new candidate ids while fewer than three are listed |
| `AiUtils.GetAICardExchange` | src/utils/aiUtils.ts:101-136 | the imperative exchange choice returns the specified id list |
| `AiUtils.DiscardsProps` | src/utils/aiUtils.ts:116-123 | the discards are exactly the ids of held cards outside the evaluated hand |
| `AiUtils.DiscardsDistinct` | src/utils/aiUtils.ts:116-123 | with distinct card ids the discards are distinct |
| `AiUtils.AddCandidatesProps` | src/utils/aiUtils.ts:126-133 | topping up keeps the earlier ids as a prefix, caps at three, adds only new candidate ids |
| `AiUtils.StrongHandKeptWhole` | src/utils/aiUtils.ts:105-110 | a hand valued below 200000000, every badugi among them, exchanges nothing |
| `AiUtils.AIExchange` | src/utils/aiUtils.ts:101-136 | the exchange lists only ids of held cards, and nothing for a badugi |
| `AiUtils.AIExchangeProps` | src/utils/aiUtils.ts:101-136 | only held ids are returned, every card outside the evaluated hand is discarded first in hand order, and ids are distinct when card ids are |
| `AiUtils.AIExchangeAtMostThree` | src/utils/aiUtils.ts:113-135 | a hand of at most four cards gives at most three ids |
| `AiUtils.IsAITurn` | src/utils/aiUtils.ts:193-196 | the AI's turn needs an existing current seat that is not the human's |
| `AiUtils.AITurnFollowsHuman` | src/utils/aiUtils.ts:193-196 | at the human-and-AI table, once the human acts and the round goes on, it is the AI's turn |
| `AiUtils.TurnsAfterStart` | src/utils/aiUtils.ts:193-196 | after dealing it is not the AI's turn; after the human exchanges it is |

## Left out

- Rendering, styling and animation (`src/components/`) and the React hook in
  `src/hooks/useGame.ts` are not part of this model. That code stores the
  snapshot, schedules AI turns with timers and derives button states. It
  carries no game rules.
- `getAIActionDelay` is left out. It is a random presentation delay.
- `analyzePlayerBehavior` is left out. It returns a constant.
- `generateGameId` is left out because it reads the clock and a random
  source. The id is a parameter of `CreateGameState`.
- `Math.random` is not modelled as randomness. The shuffle's swap choices
  and the AI's bluff roll are inputs. The model says nothing about the
  distribution of shuffles or bluffs.
- The card field `selected` is left out. The engine only ever sets it to
  false.
- `AiUtils.CalculateHandStrength` uses exact rationals, not IEEE-754
  doubles. So do the `0.2·chips` and pot-odds comparisons in `AiUtils.Decide`.
  Rounding at the segment boundaries is not modelled.
- Chip amounts are unbounded integers. JavaScript numbers lose precision
  above 2^53, which the model does not capture.
- `GameUtils.DetermineWinner` requires at least one unfolded player. With
  none, the source reads a field of `activePlayers[0]`, which is undefined,
  and throws.
  - `GameUtils.ProcessBettingAction` and `GameUtils.EndBettingRound` carry
    the same precondition (`BettingDefined`, `CanEndRound`) wherever they
    reach the showdown.
- `GameUtils.ExchangeCards` requires a second seat when seat 0 acts,
  because the source reads `players[1]` there.
- `GameUtils.BettingConservesChips` and `GameUtils.ShowdownProps` assume
  distinct player ids. The pot goes to every seat that carries the winner's
  id, so duplicate ids would create chips.
- `GameUtils.StartNewRoundProps` assumes at most 13 seats. With more, the
  deck runs out and later seats receive fewer than four cards.
