/** The computer player's heuristics: hand strength, the betting decision tree and the choice of cards
    to exchange. The random draws are parameters. */
module AiUtils {
  import opened Types
  import opened CardUtils
  import opened GameUtils

  // ---------------------------------------------------------------------------
  // Personalities
  // ---------------------------------------------------------------------------

  datatype Personality = Personality(
    bluffChance: real,
    aggressiveness: real,
    cardExchangeThreshold: int,
    foldThreshold: int,
    raiseThreshold: int)

  /** AI_PERSONALITIES. In every profile the chances are probabilities, and the thresholds are ordered:
      a hand good enough to raise on is never exchanged, and a hand bad enough to fold on always is. */
  function PersonalityOf(d: Difficulty): (p: Personality)
    ensures 0.0 < p.bluffChance < 1.0 && 0.0 < p.aggressiveness < 1.0
    ensures p.raiseThreshold < p.cardExchangeThreshold < p.foldThreshold
  {
    match d
    case Easy => Personality(0.1, 0.3, 300000000, 400000000, 200000000)
    case Medium => Personality(0.2, 0.5, 200000000, 350000000, 150000000)
    case Hard => Personality(0.3, 0.7, 150000000, 300000000, 100000000)
  }

  /** Both decisions read the medium profile whatever the game settings say. */
  const AI_DIFFICULTY: Difficulty := Medium

  /** The exchange threshold in force (200000000, the base of a three-card hand) separates exactly the
      badugis from every other hand: the AI stands pat on a badugi and considers an exchange otherwise. */
  lemma ExchangeThresholdIsBadugi(cards: seq<Card>)
    ensures HandOf(cards).value < PersonalityOf(AI_DIFFICULTY).cardExchangeThreshold <==> HandOf(cards).rank == Badugi
  {
    HandOfShape(cards);
    HandOfSelected(cards);
    HandValueSplit(HandOf(cards).rank, HandOf(cards).cards);
  }

  // ---------------------------------------------------------------------------
  // Hand strength
  // ---------------------------------------------------------------------------

  function RMax(a: real, b: real): real
  {
    if a >= b then a else b
  }

  function RMin(a: real, b: real): real
  {
    if a <= b then a else b
  }

  /** calculateHandStrength: a piecewise-linear map from the comparison value (lower is better) to a
      strength, 0.9-1 below 1.5e8, 0.6-0.9 below 2.5e8, 0.3-0.6 below 3.5e8 and 0.1-0.3 above. */
  function CalculateHandStrength(handValue: int): (strength: real)
    ensures handValue >= 0 ==> 0.1 <= strength <= 1.0
  {
    var v := handValue as real;
    if handValue < 150000000 then 0.9 + (150000000.0 - v) / 150000000.0 * 0.1
    else if handValue < 250000000 then 0.6 + (250000000.0 - v) / 100000000.0 * 0.3
    else if handValue < 350000000 then 0.3 + (350000000.0 - v) / 100000000.0 * 0.3
    else RMax(0.1, 0.3 - (v - 350000000.0) / 100000000.0 * 0.2)
  }

  /** A worse (higher) value never gives a higher strength. */
  lemma StrengthMonotone(v: int, w: int)
    requires v <= w
    ensures CalculateHandStrength(w) <= CalculateHandStrength(v)
  {
  }

  /** Adjacent segments meet: the strength is 0.9, 0.6 and 0.3 exactly at 1.5e8, 2.5e8 and 3.5e8, each
      segment's formula takes the same value there, and each segment lies above its right end. */
  lemma StrengthSegmentsMeet()
    ensures CalculateHandStrength(150000000) == 0.9 == 0.9 + (150000000.0 - 150000000.0) / 150000000.0 * 0.1
    ensures CalculateHandStrength(250000000) == 0.6 == 0.6 + (250000000.0 - 250000000.0) / 100000000.0 * 0.3
    ensures CalculateHandStrength(350000000) == 0.3 == 0.3 + (350000000.0 - 350000000.0) / 100000000.0 * 0.3
    ensures CalculateHandStrength(450000000) == 0.1
    ensures forall v :: v < 150000000 ==> CalculateHandStrength(v) > 0.9
    ensures forall v :: 150000000 <= v < 250000000 ==> 0.6 < CalculateHandStrength(v) <= 0.9
    ensures forall v :: 250000000 <= v < 350000000 ==> 0.3 < CalculateHandStrength(v) <= 0.6
    ensures forall v :: 350000000 <= v ==> 0.1 <= CalculateHandStrength(v) <= 0.3
  {
  }

  /** A bluff adds 0.3, capped at 1. */
  function EffectiveStrength(strength: real, bluff: bool): (e: real)
    ensures e >= strength || strength > 1.0
  {
    if bluff then RMin(strength + 0.3, 1.0) else strength
  }

  /** Bluffing never lowers a strength of at most 1 and never pushes it above 1. */
  lemma BluffNeverLowers(strength: real, bluff: bool)
    requires strength <= 1.0
    ensures strength <= EffectiveStrength(strength, bluff) <= 1.0
    ensures !bluff ==> EffectiveStrength(strength, bluff) == strength
    ensures bluff ==> EffectiveStrength(strength, bluff) == RMin(strength + 0.3, 1.0)
  {
  }

  // ---------------------------------------------------------------------------
  // Betting decision
  // ---------------------------------------------------------------------------

  datatype AIDecision = AIDecision(action: BettingAction, amount: Option<int>)

  /** What the AI owes to stay in. */
  function CallAmount(s: GameState, ai: Player): int
  {
    s.currentBet - ai.currentBet
  }

  /** The strength the decision uses: the hand's strength, raised by a bluff when `roll` falls under
      the bluff chance (roll stands for Math.random()). */
  function DecisionStrength(ai: Player, roll: real): real
  {
    var strength := CalculateHandStrength(HandOf(ai.cards).value);
    EffectiveStrength(strength, roll < PersonalityOf(AI_DIFFICULTY).bluffChance)
  }

  function PotOdds(s: GameState, ai: Player): real
  {
    s.pot as real / (Max(CallAmount(s, ai), 1) as real)
  }

  /** The decision tree of getAIBettingAction over its inputs: the fold test, the all-in test, then
      check-or-raise when nothing is owed and raise, call or fold otherwise. */
  function Decide(effectiveStrength: real, potOdds: real, callAmount: int, chips: int, tableBet: int, pot: int): (d: AIDecision)
    ensures d.action == Raise ==> d.amount.Some? && d.amount.value <= chips
    ensures d.action != Raise ==> d.amount == None
    ensures d.action == Check ==> callAmount == 0
    ensures callAmount == 0 && chips > 0 ==> d.action in {Check, Raise}
  {
    if effectiveStrength < 0.3 && callAmount as real > chips as real * 0.2 then AIDecision(Fold, None)
    else if callAmount >= chips then
      if effectiveStrength > 0.6 || potOdds > 3.0 then AIDecision(Call, None) else AIDecision(Fold, None)
    else if callAmount == 0 then
      if effectiveStrength > 0.7 then AIDecision(Raise, Some(Min(tableBet + pot / 2, chips)))
      else AIDecision(Check, None)
    else if effectiveStrength > 0.8 then AIDecision(Raise, Some(Min(tableBet * 2, chips)))
    else if effectiveStrength > 0.4 || potOdds > 2.0 then AIDecision(Call, None)
    else AIDecision(Fold, None)
  }

  /** getAIBettingAction: the medium profile's decision for the AI seat `ai` in state `s`. Every raise
      carries an amount no larger than the AI's chips, no other action carries one, and the AI checks only
      when its bet already matches the table's. */
  function GetAIBettingAction(s: GameState, ai: Player, roll: real): (d: AIDecision)
    ensures d.action == Raise ==> d.amount.Some? && d.amount.value <= ai.chips
    ensures d.action != Raise ==> d.amount == None
    ensures d.action == Check ==> ai.currentBet == s.currentBet
  {
    Decide(DecisionStrength(ai, roll), PotOdds(s, ai), CallAmount(s, ai), ai.chips, s.currentBet, s.pot)
  }

  /** With chips left and nothing owed, the AI only checks or raises. */
  lemma FreeActionIsCheckOrRaise(s: GameState, ai: Player, roll: real)
    requires ai.chips > 0 && CallAmount(s, ai) == 0
    ensures GetAIBettingAction(s, ai, roll).action in {Check, Raise}
    ensures GetAIBettingAction(s, ai, roll).action == Raise <==> DecisionStrength(ai, roll) > 0.7
  {
  }

  /** The fold test comes first; failing it, an all-in call is made exactly when the strength exceeds
      0.6 or the pot odds exceed 3, and a fold otherwise. */
  lemma FoldThenAllInTests(s: GameState, ai: Player, roll: real)
    ensures var e := DecisionStrength(ai, roll);
            e < 0.3 && CallAmount(s, ai) as real > ai.chips as real * 0.2 ==>
              GetAIBettingAction(s, ai, roll) == AIDecision(Fold, None)
    ensures var e := DecisionStrength(ai, roll);
            var d := GetAIBettingAction(s, ai, roll);
            !(e < 0.3 && CallAmount(s, ai) as real > ai.chips as real * 0.2) && CallAmount(s, ai) >= ai.chips ==>
              (d.action in {Call, Fold}) && (d.action == Call <==> e > 0.6 || PotOdds(s, ai) > 3.0)
  {
  }

  /** Owing chips but less than the stack, past the fold test: raise to twice the table bet (capped)
      above 0.8, call above 0.4 or with pot odds above 2, otherwise fold. */
  lemma OwingDecision(s: GameState, ai: Player, roll: real)
    requires 0 < CallAmount(s, ai) < ai.chips
    requires !(DecisionStrength(ai, roll) < 0.3 && CallAmount(s, ai) as real > ai.chips as real * 0.2)
    ensures var e := DecisionStrength(ai, roll);
            var d := GetAIBettingAction(s, ai, roll);
            && (d.action == Raise <==> e > 0.8)
            && (d.action == Raise ==> d.amount == Some(Min(s.currentBet * 2, ai.chips)))
            && (d.action == Call <==> e <= 0.8 && (e > 0.4 || PotOdds(s, ai) > 2.0))
            && d.action != Check
  {
  }

  /** Holding a badugi with chips left and nothing owed, the AI always raises, bluff or not. */
  lemma BadugiRaisesWhenFree(s: GameState, ai: Player, roll: real)
    requires HandOf(ai.cards).rank == Badugi
    requires ai.chips > 0 && CallAmount(s, ai) == 0
    ensures GetAIBettingAction(s, ai, roll).action == Raise
  {
    HandOfShape(ai.cards);
    HandOfSelected(ai.cards);
    HandValueSplit(HandOf(ai.cards).rank, HandOf(ai.cards).cards);
    var v := HandOf(ai.cards).value;
    assert v < 150000000;
    var st := CalculateHandStrength(v);
    assert st > 0.9;
    BluffNeverLowers(st, roll < PersonalityOf(AI_DIFFICULTY).bluffChance);
  }

  // ---------------------------------------------------------------------------
  // Card exchange
  // ---------------------------------------------------------------------------

  /** One card per position of the first k of `sorted`, kept when its value is above 8. */
  function HighCards(sorted: seq<Card>, k: nat): (r: seq<Card>)
    requires k <= |sorted|
    ensures |r| <= k
    ensures forall c :: c in r ==> c in sorted[..k] && CardValue(c.rank) > 8
  {
    if k == 0 then []
    else
      var prev := HighCards(sorted, k - 1);
      assert sorted[..k] == sorted[..k - 1] + [sorted[k - 1]];
      if CardValue(sorted[k - 1].rank) > 8 then prev + [sorted[k - 1]] else prev
  }

  /** What findImprovementCandidates returns: among the two highest cards (by a stable descending sort),
      those above 8. */
  function Candidates(cards: seq<Card>): (r: seq<Card>)
    ensures |r| <= 2
    ensures forall c :: c in r ==> c in cards && CardValue(c.rank) > 8
  {
    var sorted := SortByValue(cards, true);
    SortProps(cards, true);
    SameElements(sorted, cards);
    HighCards(sorted, Min(2, |sorted|))
  }

  /** findImprovementCandidates: sort a copy high to low and keep the first two that are above 8. */
  method FindImprovementCandidates(cards: seq<Card>) returns (candidates: seq<Card>)
    ensures candidates == Candidates(cards)
  {
    candidates := [];
    var sortedCards := SortByValue(cards, true);
    for i := 0 to Min(2, |sortedCards|)
      invariant candidates == HighCards(sortedCards, i)
    {
      var card := sortedCards[i];
      if CardValue(card.rank) > 8 {
        candidates := candidates + [card];
      }
    }
  }

  /** Each card HighCards keeps is at least as high as every card after the first k. */
  lemma HighCardsBeatRest(sorted: seq<Card>, k: nat)
    requires k <= |sorted| && SortedBy(sorted, true)
    ensures forall c, j :: c in HighCards(sorted, k) && k <= j < |sorted| ==> CardValue(sorted[j].rank) <= CardValue(c.rank)
  {
    forall c, j | c in HighCards(sorted, k) && k <= j < |sorted| ensures CardValue(sorted[j].rank) <= CardValue(c.rank) {
      var i :| 0 <= i < k && sorted[i] == c;
      SortedPairwise(sorted, true, i, j);
    }
  }

  /** The cards of a sorted sequence left after its first k are those of the input minus the first k. */
  lemma RestIsDifference(cards: seq<Card>, sorted: seq<Card>, k: nat)
    requires multiset(sorted) == multiset(cards) && k <= |sorted|
    ensures forall d :: d in multiset(cards) - multiset(sorted[..k]) ==> d in sorted[k..]
  {
    assert sorted == sorted[..k] + sorted[k..];
    assert multiset(cards) - multiset(sorted[..k]) == multiset(sorted[k..]);
  }

  /** No card of the input outside the two highest has a higher value than any candidate. */
  lemma CandidatesProps(cards: seq<Card>)
    ensures var r := Candidates(cards);
            var sorted := SortByValue(cards, true);
            var k := Min(2, |cards|);
            forall c, d :: c in r && d in multiset(cards) - multiset(sorted[..k]) ==> CardValue(d.rank) <= CardValue(c.rank)
  {
    var sorted := SortByValue(cards, true);
    var k := Min(2, |cards|);
    var r := HighCards(sorted, k);
    SortProps(cards, true);
    SameElements(sorted, cards);
    HighCardsBeatRest(sorted, k);
    RestIsDifference(cards, sorted, k);
    forall c, d | c in r && d in multiset(cards) - multiset(sorted[..k]) ensures CardValue(d.rank) <= CardValue(c.rank) {
      var j :| k <= j < |sorted| && sorted[j] == d;
    }
  }

  /** Whether some kept card carries this card's id (keptCards.some). */
  predicate InKept(card: Card, kept: seq<Card>)
  {
    exists k :: k in kept && k.id == card.id
  }

  /** The ids of the held cards that are not among the kept ones, in hand order. */
  function Discards(cards: seq<Card>, kept: seq<Card>): (ids: seq<string>)
    ensures |ids| <= |cards|
  {
    if cards == [] then []
    else
      var prev := Discards(cards[..|cards| - 1], kept);
      var c := cards[|cards| - 1];
      if InKept(c, kept) then prev else prev + [c.id]
  }

  /** Appends each candidate's id while fewer than three ids are listed and the id is new. */
  function AddCandidates(ids: seq<string>, candidates: seq<Card>): seq<string>
  {
    if candidates == [] then ids
    else
      var prev := AddCandidates(ids, candidates[..|candidates| - 1]);
      var c := candidates[|candidates| - 1];
      if |prev| < 3 && c.id !in prev then prev + [c.id] else prev
  }

  /** What getAICardExchange returns: only ids of held cards, and none for a badugi. */
  function AIExchange(cards: seq<Card>): (ids: seq<string>)
    ensures forall id :: id in ids ==> exists c :: c in cards && c.id == id
    ensures HandOf(cards).rank == Badugi ==> ids == []
  {
    var hand := HandOf(cards);
    ExchangeThresholdIsBadugi(cards);
    if hand.value < PersonalityOf(AI_DIFFICULTY).cardExchangeThreshold then []
    else
      var ids := Discards(cards, hand.cards);
      HandOfSelected(cards);
      ExchangeIdsHeld(cards, hand.cards);
      if |ids| < 3 then AddCandidates(ids, Candidates(hand.cards)) else ids
  }

  /** The discards, topped up with candidates from the kept cards, name only held cards. */
  lemma ExchangeIdsHeld(cards: seq<Card>, kept: seq<Card>)
    requires forall x :: x in kept ==> x in cards
    ensures forall id :: id in Discards(cards, kept) ==> exists c :: c in cards && c.id == id
    ensures forall id :: id in AddCandidates(Discards(cards, kept), Candidates(kept)) ==> exists c :: c in cards && c.id == id
  {
    var d := Discards(cards, kept);
    DiscardsProps(cards, kept);
    AddCandidatesProps(d, Candidates(kept));
    forall id | id in AddCandidates(d, Candidates(kept)) ensures exists c :: c in cards && c.id == id {
      if id !in d {
        var c :| c in Candidates(kept) && c.id == id;
        assert c in kept;
      }
    }
  }

  /** getAICardExchange's first loop: the id of every held card not among the kept ones. */
  method CollectDiscards(cards: seq<Card>, keptCards: seq<Card>) returns (ids: seq<string>)
    ensures ids == Discards(cards, keptCards)
  {
    ids := [];
    for i := 0 to |cards|
      invariant ids == Discards(cards[..i], keptCards)
    {
      var card := cards[i];
      assert cards[..i + 1][..i] == cards[..i];
      var isInBestHand := exists kept :: kept in keptCards && kept.id == card.id;
      if !isInBestHand {
        ids := ids + [card.id];
      }
    }
    assert cards[..|cards|] == cards;
  }

  /** getAICardExchange's second loop: top up with new candidate ids while fewer than three are listed. */
  method AddImprovements(start: seq<string>, candidates: seq<Card>) returns (ids: seq<string>)
    ensures ids == AddCandidates(start, candidates)
  {
    ids := start;
    for j := 0 to |candidates|
      invariant ids == AddCandidates(start, candidates[..j])
    {
      var candidate := candidates[j];
      assert candidates[..j + 1][..j] == candidates[..j];
      if |ids| < 3 && candidate.id !in ids {
        ids := ids + [candidate.id];
      }
    }
    assert candidates[..|candidates|] == candidates;
  }

  /** getAICardExchange: nothing from a hand below the threshold; otherwise every card outside the
      evaluated hand, then improvement candidates while fewer than three are listed. */
  method GetAICardExchange(aiPlayer: Player) returns (cardsToExchange: seq<string>)
    ensures cardsToExchange == AIExchange(aiPlayer.cards)
  {
    var personality := PersonalityOf(AI_DIFFICULTY);
    var handResult := EvaluateHand(aiPlayer.cards);
    if handResult.value < personality.cardExchangeThreshold {
      return [];
    }
    var keptCards := handResult.cards;
    cardsToExchange := CollectDiscards(aiPlayer.cards, keptCards);
    if |cardsToExchange| < 3 {
      var improvementCandidates := FindImprovementCandidates(keptCards);
      cardsToExchange := AddImprovements(cardsToExchange, improvementCandidates);
    }
  }

  /** Every discard is the id of a held card outside the kept ones, and every such card is discarded. */
  lemma {:induction false} DiscardsProps(cards: seq<Card>, kept: seq<Card>)
    ensures forall id :: id in Discards(cards, kept) ==> exists c :: c in cards && c.id == id && !InKept(c, kept)
    ensures forall c :: c in cards && !InKept(c, kept) ==> c.id in Discards(cards, kept)
    decreases |cards|
  {
    if cards != [] {
      var init := cards[..|cards| - 1];
      DiscardsProps(init, kept);
      assert cards == init + [cards[|cards| - 1]];
    }
  }

  /** With distinct card ids the discards are distinct. */
  lemma {:induction false} DiscardsDistinct(cards: seq<Card>, kept: seq<Card>)
    requires DistinctIds(cards)
    ensures DistinctStrings(Discards(cards, kept))
    decreases |cards|
  {
    if cards != [] {
      var init := cards[..|cards| - 1];
      var c := cards[|cards| - 1];
      assert DistinctIds(init) by {
        forall i, j | 0 <= i < j < |init| ensures init[i].id != init[j].id {
          assert init[i] == cards[i] && init[j] == cards[j];
        }
      }
      DiscardsDistinct(init, kept);
      DiscardsProps(init, kept);
      var prev := Discards(init, kept);
      forall id | id in prev ensures id != c.id {
        var d :| d in init && d.id == id && !InKept(d, kept);
        var j :| 0 <= j < |init| && init[j] == d;
        assert cards[j] == d;
      }
      if !InKept(c, kept) {
        var r := prev + [c.id];
        forall i, j | 0 <= i < j < |r| ensures r[i] != r[j] {
          assert r[i] == prev[i];
          if j < |prev| {
            assert r[j] == prev[j];
          } else {
            assert r[i] in prev;
          }
        }
      }
    }
  }

  /** A held card that is kept is not discarded, so the discards are fewer than the cards. */
  lemma {:induction false} DiscardsShorter(cards: seq<Card>, kept: seq<Card>, k: nat)
    requires k < |cards| && InKept(cards[k], kept)
    ensures |Discards(cards, kept)| < |cards|
    decreases |cards|
  {
    var init := cards[..|cards| - 1];
    if k < |cards| - 1 {
      assert init[k] == cards[k];
      DiscardsShorter(init, kept, k);
    }
  }

  /** Adding candidates keeps what was listed as a prefix, lists at most three when fewer than three were
      listed, adds only candidate ids, and adds nothing already listed. */
  lemma {:induction false} AddCandidatesProps(ids: seq<string>, candidates: seq<Card>)
    ensures var r := AddCandidates(ids, candidates);
            && |ids| <= |r| && r[..|ids|] == ids
            && (|ids| <= 3 ==> |r| <= 3)
            && (|ids| >= 3 ==> r == ids)
            && (forall id :: id in r ==> id in ids || exists c :: c in candidates && c.id == id)
            && (DistinctStrings(ids) ==> DistinctStrings(r))
    decreases |candidates|
  {
    if candidates != [] {
      var init := candidates[..|candidates| - 1];
      var c := candidates[|candidates| - 1];
      AddCandidatesProps(ids, init);
      var prev := AddCandidates(ids, init);
      assert forall x :: x in init ==> x in candidates;
      if |prev| < 3 && c.id !in prev {
        var r := prev + [c.id];
        assert r[..|ids|] == prev[..|ids|];
        if DistinctStrings(prev) {
          assert DistinctStrings(r) by {
            forall i, j | 0 <= i < j < |r| ensures r[i] != r[j] {
              if j == |prev| {
                assert r[i] == prev[i];
              } else {
                assert r[i] == prev[i] && r[j] == prev[j];
              }
            }
          }
        }
      }
    }
  }

  /** A hand better than the threshold (every badugi among them) is kept whole. */
  lemma StrongHandKeptWhole(cards: seq<Card>)
    requires HandOf(cards).value < 200000000 || HandOf(cards).rank == Badugi
    ensures AIExchange(cards) == []
  {
    HandOfShape(cards);
    HandOfSelected(cards);
    HandValueSplit(HandOf(cards).rank, HandOf(cards).cards);
  }

  /** The ids returned belong to held cards; every held card outside the evaluated hand is among them,
      first and in hand order; and with distinct card ids they are distinct. */
  lemma AIExchangeProps(cards: seq<Card>)
    ensures var ids := AIExchange(cards);
            && (forall id :: id in ids ==> exists c :: c in cards && c.id == id)
            && (HandOf(cards).value >= 200000000 ==>
                  var d := Discards(cards, HandOf(cards).cards);
                  |d| <= |ids| && ids[..|d|] == d
                  && forall c :: c in cards && !InKept(c, HandOf(cards).cards) ==> c.id in ids)
            && (DistinctIds(cards) ==> DistinctStrings(ids))
  {
    var hand := HandOf(cards);
    if hand.value >= 200000000 {
      var d := Discards(cards, hand.cards);
      DiscardsProps(cards, hand.cards);
      HandOfSelected(cards);
      var cands := Candidates(hand.cards);
      CandidatesProps(hand.cards);
      if DistinctIds(cards) {
        DiscardsDistinct(cards, hand.cards);
      }
      if |d| < 3 {
        AddCandidatesProps(d, cands);
        forall id | id in AIExchange(cards) ensures exists c :: c in cards && c.id == id {
          if id !in d {
            var c :| c in cands && c.id == id;
            assert c in hand.cards;
          }
        }
        forall c | c in cards && !InKept(c, hand.cards) ensures c.id in AIExchange(cards) {
          var i :| 0 <= i < |d| && d[i] == c.id;
          assert AIExchange(cards)[..|d|][i] == c.id;
        }
      }
    }
  }

  /** For a hand of at most four cards the AI asks for at most three new cards. */
  lemma AIExchangeAtMostThree(cards: seq<Card>)
    requires |cards| <= 4
    ensures |AIExchange(cards)| <= 3
  {
    var hand := HandOf(cards);
    if hand.value >= 200000000 {
      var d := Discards(cards, hand.cards);
      if d != [] {
        HandOfShape(cards);
        SurvivorsNonEmpty(cards);
        HandOfSelected(cards);
        var x := hand.cards[0];
        assert x in cards;
        var k :| 0 <= k < |cards| && cards[k] == x;
        assert InKept(cards[k], hand.cards);
        DiscardsShorter(cards, hand.cards, k);
      }
      if |d| < 3 {
        AddCandidatesProps(d, Candidates(hand.cards));
      }
    }
  }

  /** A non-empty hand keeps at least one card through both passes. */
  lemma SurvivorsNonEmpty(cards: seq<Card>)
    ensures cards != [] ==> Survivors(cards) != []
  {
    if cards != [] {
      SuitRepsPassed(cards);
      var reps := SuitReps(cards);
      assert cards[0] in cards;
      assert reps != [];
      RankFilterPassed(reps);
      assert reps[0] in reps;
      assert |SortByValue(RankFilter(reps), false)| == |RankFilter(reps)|;
    }
  }

  // ---------------------------------------------------------------------------
  // Whose turn
  // ---------------------------------------------------------------------------

  /** isAITurn: the seat at currentPlayerIndex exists, is the AI, and has the turn; so it is never the
      AI's turn at an empty table or while the current seat is the human's. */
  predicate IsAITurn(s: GameState)
    ensures IsAITurn(s) ==> 0 <= s.currentPlayerIndex < |s.players| && s.players[s.currentPlayerIndex].kind != Human
  {
    0 <= s.currentPlayerIndex < |s.players| && s.players[s.currentPlayerIndex].kind == AI
    && s.players[s.currentPlayerIndex].isTurn
  }

  /** A freshly created and dealt game starts with the human, and after the human exchanges (with the
      AI still in) it is the AI's turn. */
  lemma TurnsAfterStart(settings: GameSettings, gameId: string, p1: seq<nat>, p2: seq<nat>, cardIds: seq<string>)
    requires ValidPicks(p1, 52) && ValidPicks(p2, 52)
    ensures var s := StartNewRound(CreateGameState(settings, gameId, p1), p2);
            && !IsAITurn(s)
            && ExchangeDefined(s, "human")
            && IsAITurn(ExchangeResult(s, "human", cardIds))
  {
    var g := CreateGameState(settings, gameId, p1);
    NewPlayersProps(settings);
    var s := StartNewRound(g, p2);
    StartNewRoundProps(g, p2);
    assert FindPlayer(s.players, "human") == 0;
    ExchangeTurn(s, "human", cardIds);
    AfterExchangeKinds(s, "human", cardIds);
  }

  /** At a two-seat table of the human and the AI, once the human has acted and the round goes on, it is
      the AI's turn. */
  lemma AITurnFollowsHuman(s: GameState, action: BettingAction, amount: Option<int>)
    requires |s.players| == 2 && s.players[0].id == "human" && s.players[1].kind == AI
    requires BettingDefined(s, "human", action, amount)
    requires NextPlayerIndex(AfterAction(s, 0, action, amount), 0) != -1
    ensures IsAITurn(BettingResult(s, "human", action, amount))
  {
    assert FindPlayer(s.players, "human") == 0;
    var mid := AfterAction(s, 0, action, amount);
    AfterActionFrame(s, 0, action, amount);
    NextPlayerIndexProps(mid, 0);
    assert NextPlayerIndex(mid, 0) == 1;
  }

  /** An exchange never changes who sits where. */
  lemma AfterExchangeKinds(s: GameState, playerId: string, cardIds: seq<string>)
    requires ExchangeDefined(s, playerId)
    ensures |ExchangeResult(s, playerId, cardIds).players| == |s.players|
    ensures forall j :: 0 <= j < |s.players| ==> ExchangeResult(s, playerId, cardIds).players[j].kind == s.players[j].kind
  {
  }
}
