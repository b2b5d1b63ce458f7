/** The game state machine: setup, dealing, betting, card exchange and showdown.
    Every operation takes a snapshot and returns a new one. */
module GameUtils {
  import opened Types
  import opened CardUtils

  // ---------------------------------------------------------------------------
  // Seats, active players and chip totals
  // ---------------------------------------------------------------------------

  /** Array.prototype.findIndex by id: the first seat with that id, or -1. */
  function FindPlayer(players: seq<Player>, id: string): (i: int)
    ensures -1 <= i < |players|
    ensures i >= 0 ==> players[i].id == id && forall j :: 0 <= j < i ==> players[j].id != id
    ensures i == -1 ==> forall j :: 0 <= j < |players| ==> players[j].id != id
  {
    if players == [] then -1
    else if players[0].id == id then 0
    else
      var k := FindPlayer(players[1..], id);
      if k == -1 then -1 else k + 1
  }

  /** The players who have not folded, in seat order. */
  function Active(players: seq<Player>): (r: seq<Player>)
    ensures |r| <= |players|
    ensures forall p :: p in r ==> p in players && !p.folded
    ensures forall p :: p in players && !p.folded ==> p in r
  {
    if players == [] then []
    else (if players[0].folded then [] else [players[0]]) + Active(players[1..])
  }

  function SumChips(players: seq<Player>): int
  {
    if players == [] then 0 else players[0].chips + SumChips(players[1..])
  }

  /** The chips in play: every stack plus the pot. */
  function Total(s: GameState): int
  {
    SumChips(s.players) + s.pot
  }

  predicate DistinctPlayerIds(players: seq<Player>)
  {
    forall i, j :: 0 <= i < j < |players| ==> players[i].id != players[j].id
  }

  /** Replacing one seat changes the chip sum by the difference of the two stacks. */
  lemma {:induction false} SumChipsUpdate(players: seq<Player>, i: nat, p: Player)
    requires i < |players|
    ensures SumChips(players[i := p]) == SumChips(players) - players[i].chips + p.chips
    decreases |players|
  {
    if i > 0 {
      assert players[i := p][1..] == players[1..][i - 1 := p];
      SumChipsUpdate(players[1..], i - 1, p);
    }
  }

  /** A change that keeps every stack keeps the chip sum. */
  lemma {:induction false} SumChipsSameStacks(a: seq<Player>, b: seq<Player>)
    requires |a| == |b|
    requires forall i :: 0 <= i < |a| ==> a[i].chips == b[i].chips
    ensures SumChips(a) == SumChips(b)
    decreases |a|
  {
    if a != [] {
      SumChipsSameStacks(a[1..], b[1..]);
    }
  }

  // ---------------------------------------------------------------------------
  // Creating a game and dealing
  // ---------------------------------------------------------------------------

  /** The two seats of a new game: the human (dealer, to act) and the AI, each with the initial stack. */
  function NewPlayers(settings: GameSettings): seq<Player>
  {
    [Player("human", "\U{D50C}\U{B808}\U{C774}\U{C5B4}", Human, settings.initialChips, [], 0, false, true, true),
     Player("ai", "AI", AI, settings.initialChips, [], 0, false, false, false)]
  }

  /** createGameState: two players, a fresh shuffled deck, the lobby phase and the exchange budget.
      The game id is supplied by the caller. */
  function CreateGameState(settings: GameSettings, gameId: string, picks: seq<nat>): (s: GameState)
    requires ValidPicks(picks, 52)
    ensures s.phase == Lobby && s.pot == 0 && s.currentBet == 0 && s.id == gameId
    ensures |s.players| == 2 && FullDeck(s.deck)
  {
    ShuffledDeckIsFull(picks);
    GameState(gameId, Lobby, NewPlayers(settings), 0, 0, 0, Shuffled(OrderedDeck(), picks), 1, settings.maxExchanges, None)
  }

  /** A new game seats the human then the AI, with distinct ids and the initial stack each, the human
      to act, no pot, a full deck and the whole exchange budget. */
  lemma CreateGameStateProps(settings: GameSettings, gameId: string, picks: seq<nat>)
    requires ValidPicks(picks, 52)
    ensures var s := CreateGameState(settings, gameId, picks);
            && |s.players| == 2 && DistinctPlayerIds(s.players)
            && s.players[0].kind == Human && s.players[1].kind == AI
            && s.players[0].isTurn && !s.players[1].isTurn && s.players[0].isDealer
            && Total(s) == 2 * settings.initialChips
            && FullDeck(s.deck)
            && s.phase == Lobby && s.round == 1 && s.exchangesRemaining == settings.maxExchanges && s.winner == None
  {
    NewPlayersProps(settings);
    ShuffledDeckIsFull(picks);
  }

  lemma NewPlayersProps(settings: GameSettings)
    ensures var ps := NewPlayers(settings);
            && |ps| == 2 && DistinctPlayerIds(ps)
            && ps[0].kind == Human && ps[1].kind == AI && ps[0].id == "human" && ps[1].id == "ai"
            && ps[0].isTurn && !ps[1].isTurn && ps[0].isDealer
            && SumChips(ps) == 2 * settings.initialChips
  {
    var ps := NewPlayers(settings);
    assert ps[1..] == [ps[1]] && ps[1..][1..] == [];
    assert SumChips(ps) == ps[0].chips + (ps[1].chips + SumChips([]));
    assert ps[0].id[0] != ps[1].id[0];
  }

  /** startNewRound's map: each seat in turn draws four cards from what the previous seats left. */
  function Deal(players: seq<Player>, deck: seq<Card>): (r: (seq<Player>, seq<Card>))
    ensures |r.0| == |players|
    decreases |players|
  {
    if players == [] then ([], deck)
    else
      var (cards, remaining) := DrawCards(deck, 4);
      var p := players[0].(cards := cards, currentBet := 0, folded := false, isTurn := players[0].id == "human");
      var (rest, left) := Deal(players[1..], remaining);
      ([p] + rest, left)
  }

  /** However short the deck, dealing keeps every seat's id, kind and stack and clears its bet and fold. */
  lemma {:induction false} DealKeepsSeats(players: seq<Player>, deck: seq<Card>)
    ensures var dealt := Deal(players, deck).0;
            forall k :: 0 <= k < |players| ==>
              && dealt[k].id == players[k].id && dealt[k].kind == players[k].kind && dealt[k].chips == players[k].chips
              && dealt[k].currentBet == 0 && !dealt[k].folded
    decreases |players|
  {
    if players != [] {
      var (cards, remaining) := DrawCards(deck, 4);
      DealKeepsSeats(players[1..], remaining);
    }
  }

  /** With enough cards, seat k receives deck[4k..4k+4], the rest of the deck is deck[4n..], and every
      seat is reset: no bet, not folded, the human to act; stacks, ids and kinds are kept. */
  lemma DealProps(players: seq<Player>, deck: seq<Card>)
    requires |deck| >= 4 * |players|
    ensures var (dealt, left) := Deal(players, deck);
            && left == deck[4 * |players|..]
            && forall k :: 0 <= k < |players| ==>
                 dealt[k] == players[k].(cards := deck[4 * k..4 * k + 4], currentBet := 0, folded := false,
                                         isTurn := players[k].id == "human")
  {
    DealLeft(players, deck);
    forall k | 0 <= k < |players|
      ensures Deal(players, deck).0[k] == players[k].(cards := deck[4 * k..4 * k + 4], currentBet := 0,
                                                      folded := false, isTurn := players[k].id == "human")
    {
      DealSeat(players, deck, k);
    }
  }

  /** One step of dealing: the first seat takes the top four cards and the others are dealt from the rest. */
  lemma DealStep(players: seq<Player>, deck: seq<Card>)
    requires players != [] && |deck| >= 4
    ensures Deal(players, deck).0 ==
              [players[0].(cards := deck[..4], currentBet := 0, folded := false, isTurn := players[0].id == "human")]
              + Deal(players[1..], deck[4..]).0
    ensures Deal(players, deck).1 == Deal(players[1..], deck[4..]).1
  {
    var (cards, remaining) := DrawCards(deck, 4);
    assert cards == deck[..4] && remaining == deck[4..];
  }

  /** After dealing n seats from a deck of at least 4n cards, the deck from card 4n on is left. */
  lemma {:induction false} DealLeft(players: seq<Player>, deck: seq<Card>)
    requires |deck| >= 4 * |players|
    ensures Deal(players, deck).1 == deck[4 * |players|..]
    decreases |players|
  {
    if players != [] {
      DealStep(players, deck);
      DealLeft(players[1..], deck[4..]);
      assert deck[4..][4 * (|players| - 1)..] == deck[4 * |players|..];
    }
  }

  /** Seat k is dealt cards 4k to 4k+3 and has its bet, fold and turn flags reset. */
  lemma {:induction false} DealSeat(players: seq<Player>, deck: seq<Card>, k: nat)
    requires |deck| >= 4 * |players| && k < |players|
    ensures Deal(players, deck).0[k] == players[k].(cards := deck[4 * k..4 * k + 4], currentBet := 0,
                                                    folded := false, isTurn := players[k].id == "human")
    decreases k
  {
    DealStep(players, deck);
    if k == 0 {
      assert deck[4 * k..4 * k + 4] == deck[..4];
    } else {
      DealSeat(players[1..], deck[4..], k - 1);
      assert players[1..][k - 1] == players[k];
      assert deck[4..][4 * (k - 1)..4 * (k - 1) + 4] == deck[4 * k..4 * k + 4];
    }
  }

  /** startNewRound: a fresh shuffled deck, four cards per seat, bets and folds cleared, the betting
      phase of round 1 with seat 0 to act and an empty pot. */
  function StartNewRound(s: GameState, picks: seq<nat>): (r: GameState)
    requires ValidPicks(picks, 52)
    ensures |r.players| == |s.players|
    ensures forall k :: 0 <= k < |r.players| ==>
              && r.players[k].id == s.players[k].id && r.players[k].kind == s.players[k].kind
              && r.players[k].chips == s.players[k].chips && r.players[k].currentBet == 0 && !r.players[k].folded
    ensures r.phase == Betting && r.round == 1 && r.pot == 0 && r.currentBet == 0
  {
    DealKeepsSeats(s.players, Shuffled(OrderedDeck(), picks));
    var (players, remaining) := Deal(s.players, Shuffled(OrderedDeck(), picks));
    s.(phase := Betting, players := players, currentPlayerIndex := 0, pot := 0, currentBet := 0,
       deck := remaining, round := 1)
  }

  /** With at most 13 seats every seat gets four cards from the front of the fresh deck, in seat order,
      and 52 - 4n cards remain; nothing is bet, nobody has folded, and the round starts at seat 0.
      Stacks are kept and the pot is cleared without being paid to anyone. */
  lemma StartNewRoundProps(s: GameState, picks: seq<nat>)
    requires ValidPicks(picks, 52)
    requires |s.players| <= 13
    ensures var r := StartNewRound(s, picks);
            var deck := Shuffled(OrderedDeck(), picks);
            && FullDeck(deck)
            && |r.players| == |s.players|
            && (forall k :: 0 <= k < |r.players| ==>
                  && r.players[k].cards == deck[4 * k..4 * k + 4]
                  && r.players[k].currentBet == 0 && !r.players[k].folded
                  && r.players[k].chips == s.players[k].chips && r.players[k].id == s.players[k].id
                  && r.players[k].kind == s.players[k].kind
                  && r.players[k].isTurn == (s.players[k].id == "human"))
            && r.deck == deck[4 * |s.players|..] && |r.deck| == 52 - 4 * |s.players|
            && r.phase == Betting && r.round == 1 && r.currentPlayerIndex == 0
            && r.pot == 0 && r.currentBet == 0
            && r.exchangesRemaining == s.exchangesRemaining && r.id == s.id
            && Total(r) == Total(s) - s.pot
  {
    var deck := Shuffled(OrderedDeck(), picks);
    ShuffledDeckIsFull(picks);
    DealProps(s.players, deck);
    SumChipsSameStacks(StartNewRound(s, picks).players, s.players);
  }

  // ---------------------------------------------------------------------------
  // Betting
  // ---------------------------------------------------------------------------

  /** `amount || currentBet * 2`: a missing or zero amount means twice the table bet. */
  function RaiseTarget(amount: Option<int>, tableBet: int): int
  {
    if amount.None? || amount.value == 0 then tableBet * 2 else amount.value
  }

  function Min(a: int, b: int): int
  {
    if a <= b then a else b
  }

  function Max(a: int, b: int): int
  {
    if a >= b then a else b
  }

  /** The snapshot after the player at `idx` acts, before the turn moves on. */
  function AfterAction(s: GameState, idx: nat, action: BettingAction, amount: Option<int>): (r: GameState)
    requires idx < |s.players|
    ensures |r.players| == |s.players| && r.players[idx].id == s.players[idx].id
    ensures r.pot - s.pot == s.players[idx].chips - r.players[idx].chips
    ensures r.currentBet >= s.currentBet
  {
    var p := s.players[idx];
    match action
    case Call =>
      var callAmount := Min(s.currentBet - p.currentBet, p.chips);
      s.(players := s.players[idx := p.(currentBet := p.currentBet + callAmount, chips := p.chips - callAmount, isTurn := false)],
         pot := s.pot + callAmount)
    case Raise =>
      var totalBet := Min(RaiseTarget(amount, s.currentBet), p.chips);
      var addedAmount := totalBet - p.currentBet;
      s.(players := s.players[idx := p.(currentBet := totalBet, chips := p.chips - addedAmount, isTurn := false)],
         pot := s.pot + addedAmount,
         currentBet := Max(s.currentBet, totalBet))
    case Fold =>
      s.(players := s.players[idx := p.(folded := true, isTurn := false)])
    case Check =>
      s.(players := s.players[idx := p.(isTurn := false)])
  }

  /** Every action keeps the chips in play: what leaves a stack enters the pot. */
  lemma AfterActionConservesChips(s: GameState, idx: nat, action: BettingAction, amount: Option<int>)
    requires idx < |s.players|
    ensures Total(AfterAction(s, idx, action, amount)) == Total(s)
  {
    var r := AfterAction(s, idx, action, amount);
    SumChipsUpdate(s.players, idx, r.players[idx]);
    assert r.players == s.players[idx := r.players[idx]];
  }

  /** Only the acting seat changes; the others, the deck, phase, round and exchange budget are kept. */
  lemma AfterActionFrame(s: GameState, idx: nat, action: BettingAction, amount: Option<int>)
    requires idx < |s.players|
    ensures var r := AfterAction(s, idx, action, amount);
            && |r.players| == |s.players|
            && (forall j :: 0 <= j < |s.players| && j != idx ==> r.players[j] == s.players[j])
            && r.players[idx].id == s.players[idx].id && r.players[idx].cards == s.players[idx].cards
            && !r.players[idx].isTurn
            && r.deck == s.deck && r.phase == s.phase && r.round == s.round
            && r.exchangesRemaining == s.exchangesRemaining && r.currentPlayerIndex == s.currentPlayerIndex
  {
  }

  /** call moves exactly min(table bet - own bet, chips) from the stack to the pot. */
  lemma CallMovesCallAmount(s: GameState, idx: nat)
    requires idx < |s.players|
    ensures var p := s.players[idx];
            var r := AfterAction(s, idx, Call, None);
            var moved := Min(s.currentBet - p.currentBet, p.chips);
            && r.players[idx].chips == p.chips - moved
            && r.players[idx].currentBet == p.currentBet + moved
            && r.pot == s.pot + moved && r.currentBet == s.currentBet
            && (p.currentBet <= s.currentBet && p.chips >= 0 ==> r.players[idx].chips >= 0 && r.players[idx].currentBet <= s.currentBet)
  {
  }

  /** raise commits min(target, chips) as the player's whole bet, adds the difference to the pot,
      and never lowers the table bet. */
  lemma RaiseSetsBet(s: GameState, idx: nat, amount: Option<int>)
    requires idx < |s.players|
    ensures var p := s.players[idx];
            var r := AfterAction(s, idx, Raise, amount);
            var bet := Min(RaiseTarget(amount, s.currentBet), p.chips);
            && r.players[idx].currentBet == bet
            && r.players[idx].chips == p.chips - (bet - p.currentBet)
            && r.pot == s.pot + (bet - p.currentBet)
            && r.currentBet == Max(s.currentBet, bet) && r.currentBet >= s.currentBet
            && r.players[idx].currentBet <= r.currentBet
  {
  }

  /** Raising 50 with 30 chips left commits 30, all-in, not 50. */
  lemma RaiseCappedByChips(s: GameState, idx: nat)
    requires idx < |s.players|
    requires s.players[idx].chips == 30 && s.players[idx].currentBet == 0
    ensures var r := AfterAction(s, idx, Raise, Some(50));
            r.players[idx].currentBet == 30 && r.players[idx].chips == 0 && r.pot == s.pot + 30
  {
  }

  /** As written the cap is the remaining stack, not stack plus posted bet, so a short-stacked raise
      can lower the player's commitment and take chips back out of the pot. */
  lemma RaiseMayLowerCommitment(s: GameState, idx: nat)
    requires idx < |s.players|
    requires s.currentBet == 20 && s.players[idx].currentBet == 20 && s.players[idx].chips == 10
    ensures var r := AfterAction(s, idx, Raise, None);
            r.players[idx].currentBet == 10 && r.players[idx].chips == 20 && r.pot == s.pot - 10
  {
  }

  /** fold and check move no chips and leave the pot and the table bet alone; fold changes nothing of the
      seat but its folded and turn flags, check nothing but its turn flag. */
  lemma FoldAndCheckMoveNoChips(s: GameState, idx: nat)
    requires idx < |s.players|
    ensures var r := AfterAction(s, idx, Fold, None);
            && r.pot == s.pot && r.currentBet == s.currentBet && r.players[idx].folded
            && r.players[idx].(folded := s.players[idx].folded, isTurn := s.players[idx].isTurn) == s.players[idx]
    ensures var r := AfterAction(s, idx, Check, None);
            && r.pot == s.pot && r.currentBet == s.currentBet
            && r.players[idx].(isTurn := s.players[idx].isTurn) == s.players[idx]
  {
  }

  /** Stacks are non-negative and no bet exceeds the table bet. */
  predicate Stakes(s: GameState)
  {
    && s.currentBet >= 0
    && forall i :: 0 <= i < |s.players| ==> s.players[i].chips >= 0 && 0 <= s.players[i].currentBet <= s.currentBet
  }

  /** Every action with a non-negative raise amount keeps the stakes well-formed. */
  lemma AfterActionKeepsStakes(s: GameState, idx: nat, action: BettingAction, amount: Option<int>)
    requires idx < |s.players| && Stakes(s)
    requires amount.Some? ==> amount.value >= 0
    ensures Stakes(AfterAction(s, idx, action, amount))
  {
  }

  /** Some active player has not yet acted in this round. */
  predicate SomeoneToAct(active: seq<Player>)
  {
    exists p :: p in active && p.isTurn
  }

  /** Every active player has matched the table bet or is all-in. */
  predicate BetsSettled(active: seq<Player>, tableBet: int)
  {
    forall p :: p in active ==> p.currentBet == tableBet || p.chips == 0
  }

  /** A seat the scan may hand the turn to: not folded, and either owing chips or still to act. */
  predicate Eligible(s: GameState, k: int)
  {
    0 <= k < |s.players| && !s.players[k].folded && (s.players[k].currentBet < s.currentBet || s.players[k].isTurn)
  }

  /** The seat `offset` places after `cur`, going round the table. */
  predicate EligibleAt(s: GameState, cur: nat, offset: nat)
    requires |s.players| > 0
  {
    Eligible(s, (cur + offset) % |s.players|)
  }

  /** The seat scan from offset i onwards: the first eligible seat (cur + i) % n, or -1. */
  function ScanFrom(s: GameState, cur: nat, i: nat): (r: int)
    requires |s.players| > 0
    ensures r == -1 || Eligible(s, r)
    decreases |s.players| - i
  {
    if i >= |s.players| then -1
    else
      var k := (cur + i) % |s.players|;
      if !s.players[k].folded && (s.players[k].currentBet < s.currentBet || s.players[k].isTurn) then k
      else ScanFrom(s, cur, i + 1)
  }

  /** What getNextPlayerIndex returns. */
  function NextPlayerIndex(s: GameState, cur: nat): (next: int)
    ensures next == -1 || (0 <= next < |s.players| && !s.players[next].folded)
    ensures |Active(s.players)| <= 1 ==> next == -1
  {
    var active := Active(s.players);
    if |active| <= 1 then -1
    else if !SomeoneToAct(active) && BetsSettled(active, s.currentBet) then -1
    else ScanFrom(s, cur, 1)
  }

  lemma ModOffset(cur: nat, i: nat, n: nat)
    requires cur < n && 0 < i < n
    ensures (cur + i) % n != cur
  {
    if cur + i < n {
      assert (cur + i) % n == cur + i;
    } else {
      assert (cur + i) % n == cur + i - n;
    }
  }

  /** The scan result is an eligible seat other than the current one, and every seat it passed over
      is not eligible. */
  lemma {:induction false} ScanFromProps(s: GameState, cur: nat, i: nat)
    requires 0 < i && cur < |s.players|
    ensures var r := ScanFrom(s, cur, i);
            && (r == -1 || (Eligible(s, r) && r != cur))
            && (r == -1 ==> forall j :: i <= j < |s.players| ==> !EligibleAt(s, cur, j))
    decreases |s.players| - i
  {
    var n := |s.players|;
    if i < n {
      var k := (cur + i) % n;
      ModOffset(cur, i, n);
      ScanFromProps(s, cur, i + 1);
      if !Eligible(s, k) {
        assert ScanFrom(s, cur, i) == ScanFrom(s, cur, i + 1);
      }
    }
  }

  /** getNextPlayerIndex returns -1 or an unfolded seat other than the current one; -1 whenever at most
      one player is active or everyone has acted with the bets settled; and -1 from the scan only when
      no other seat is eligible. */
  lemma NextPlayerIndexProps(s: GameState, cur: nat)
    requires cur < |s.players|
    ensures var r := NextPlayerIndex(s, cur);
            && (r == -1 || (0 <= r < |s.players| && r != cur && !s.players[r].folded))
            && (|Active(s.players)| <= 1 ==> r == -1)
            && (!SomeoneToAct(Active(s.players)) && BetsSettled(Active(s.players), s.currentBet) ==> r == -1)
            && (r == -1 && |Active(s.players)| > 1 && (SomeoneToAct(Active(s.players)) || !BetsSettled(Active(s.players), s.currentBet))
                ==> forall j :: 1 <= j < |s.players| ==> !EligibleAt(s, cur, j))
  {
    ScanFromProps(s, cur, 1);
  }

  /** getNextPlayerIndex: the two round-completion tests, then a scan of the other seats in order. */
  method GetNextPlayerIndex(s: GameState, currentIndex: nat) returns (r: int)
    ensures r == NextPlayerIndex(s, currentIndex)
  {
    var activePlayers := Active(s.players);
    if |activePlayers| <= 1 {
      return -1;
    }
    var allPlayersActed := !SomeoneToAct(activePlayers);
    var bettingComplete := BetsSettled(activePlayers, s.currentBet);
    if allPlayersActed && bettingComplete {
      return -1;
    }
    for i := 1 to |s.players|
      invariant ScanFrom(s, currentIndex, i) == ScanFrom(s, currentIndex, 1)
    {
      var nextIndex := (currentIndex + i) % |s.players|;
      var nextPlayer := s.players[nextIndex];
      if !nextPlayer.folded {
        if nextPlayer.currentBet < s.currentBet || nextPlayer.isTurn {
          return nextIndex;
        }
      }
    }
    return -1;
  }

  // ---------------------------------------------------------------------------
  // Showdown
  // ---------------------------------------------------------------------------

  /** The cards of each player. */
  function Hands(players: seq<Player>): (hands: seq<seq<Card>>)
    ensures |hands| == |players|
    ensures forall j :: 0 <= j < |players| ==> hands[j] == players[j].cards
  {
    seq(|players|, j requires 0 <= j < |players| => players[j].cards)
  }

  /** Adds the pot to every seat carrying the winner's id. */
  function PayWinner(players: seq<Player>, id: string, pot: int): (r: seq<Player>)
    ensures |r| == |players|
  {
    seq(|players|, j requires 0 <= j < |players| =>
      if players[j].id == id then players[j].(chips := players[j].chips + pot) else players[j])
  }

  /** The game-over snapshot once `winner` is chosen. */
  function Payout(s: GameState, winner: Player): GameState
  {
    s.(phase := GameOver, players := PayWinner(s.players, winner.id, s.pot), winner := Some(winner), pot := 0)
  }

  /** The winner of determineWinner: the only active player without evaluating any hand, otherwise the
      first active player whose hand value is minimal. */
  function Winner(players: seq<Player>): (w: Player)
    requires |Active(players)| >= 1
    ensures w in Active(players)
  {
    var active := Active(players);
    if |active| == 1 then active[0]
    else active[FirstMin(HandValues(Hands(active)), |active|)]
  }

  /** What determineWinner returns. */
  function Showdown(s: GameState): (r: GameState)
    requires |Active(s.players)| >= 1
    ensures r.phase == GameOver && r.pot == 0 && |r.players| == |s.players|
    ensures r.winner.Some? && r.winner.value in Active(s.players)
  {
    Payout(s, Winner(s.players))
  }

  /** The winner is an active player; with two or more active players no active hand beats theirs,
      and every active player seated before them has a strictly worse hand. */
  lemma WinnerIsBest(players: seq<Player>)
    requires |Active(players)| >= 1
    ensures Winner(players) in Active(players) && !Winner(players).folded
    ensures |Active(players)| == 1 ==> Winner(players) == Active(players)[0]
    ensures |Active(players)| >= 2 ==>
              exists b :: 0 <= b < |Active(players)| && Winner(players) == Active(players)[b]
                && (forall j :: 0 <= j < |Active(players)| ==> HandOf(Winner(players).cards).value <= HandOf(Active(players)[j].cards).value)
                && (forall j :: 0 <= j < b ==> HandOf(Active(players)[j].cards).value > HandOf(Winner(players).cards).value)
  {
    var active := Active(players);
    if |active| >= 2 {
      var vals := HandValues(Hands(active));
      var b := FirstMin(vals, |active|);
      assert Winner(players) == active[b];
      assert forall j :: 0 <= j < |active| ==> vals[j] == HandOf(active[j].cards).value;
    }
  }

  /** Number of seats carrying the id. */
  function CountId(players: seq<Player>, id: string): nat
  {
    if players == [] then 0 else (if players[0].id == id then 1 else 0) + CountId(players[1..], id)
  }

  lemma {:induction false} PayWinnerSum(players: seq<Player>, id: string, pot: int)
    ensures SumChips(PayWinner(players, id, pot)) == SumChips(players) + pot * CountId(players, id)
    decreases |players|
  {
    if players != [] {
      assert PayWinner(players, id, pot)[1..] == PayWinner(players[1..], id, pot);
      PayWinnerSum(players[1..], id, pot);
    }
  }

  lemma {:induction false} CountIdOne(players: seq<Player>, k: nat)
    requires k < |players| && DistinctPlayerIds(players)
    ensures CountId(players, players[k].id) == 1
    decreases |players|
  {
    var id := players[k].id;
    if k == 0 {
      assert forall j :: 0 <= j < |players[1..]| ==> players[1..][j].id != id by {
        forall j | 0 <= j < |players[1..]| ensures players[1..][j].id != id {
          assert players[1..][j] == players[j + 1];
        }
      }
      CountIdNone(players[1..], id);
    } else {
      assert DistinctPlayerIds(players[1..]) by {
        forall i, j | 0 <= i < j < |players[1..]| ensures players[1..][i].id != players[1..][j].id {
          assert players[1..][i] == players[i + 1] && players[1..][j] == players[j + 1];
        }
      }
      assert players[1..][k - 1] == players[k];
      CountIdOne(players[1..], k - 1);
    }
  }

  lemma {:induction false} CountIdNone(players: seq<Player>, id: string)
    requires forall j :: 0 <= j < |players| ==> players[j].id != id
    ensures CountId(players, id) == 0
    decreases |players|
  {
    if players != [] {
      CountIdNone(players[1..], id);
    }
  }

  lemma SameIdSameSeat(players: seq<Player>, j: nat, k: nat)
    requires j < |players| && k < |players| && DistinctPlayerIds(players)
    ensures players[j].id == players[k].id ==> j == k
  {
  }

  /** Paying a winner drawn from the table, with distinct ids: the winner's seat gains the pot, every
      other seat is unchanged, and the chips in play are the same. */
  lemma PayoutProps(s: GameState, w: Player)
    requires w in s.players && DistinctPlayerIds(s.players)
    ensures var r := Payout(s, w);
            && r.phase == GameOver && r.pot == 0 && r.winner == Some(w)
            && |r.players| == |s.players|
            && (forall j :: 0 <= j < |s.players| ==>
                  r.players[j] == (if s.players[j] == w then s.players[j].(chips := s.players[j].chips + s.pot) else s.players[j]))
            && Total(r) == Total(s)
            && r.deck == s.deck && r.round == s.round && r.exchangesRemaining == s.exchangesRemaining
  {
    var k :| 0 <= k < |s.players| && s.players[k] == w;
    CountIdOne(s.players, k);
    PayWinnerSum(s.players, w.id, s.pot);
    forall j | 0 <= j < |s.players| ensures s.players[j].id == w.id <==> s.players[j] == w {
      SameIdSameSeat(s.players, j, k);
    }
  }

  /** determineWinner: game over, the whole pot to the winner, nobody else's stack changes. */
  lemma ShowdownProps(s: GameState)
    requires |Active(s.players)| >= 1 && DistinctPlayerIds(s.players)
    ensures var r := Showdown(s);
            var w := Winner(s.players);
            && r.phase == GameOver && r.pot == 0 && r.winner == Some(w) && w in Active(s.players)
            && (forall j :: 0 <= j < |s.players| ==>
                  r.players[j] == (if s.players[j] == w then s.players[j].(chips := s.players[j].chips + s.pot) else s.players[j]))
            && Total(r) == Total(s)
  {
    WinnerIsBest(s.players);
    PayoutProps(s, Winner(s.players));
  }

  /** determineWinner: the sole active player wins outright; otherwise a scan keeps the first strictly
      better hand. */
  method DetermineWinner(s: GameState) returns (r: GameState)
    requires |Active(s.players)| >= 1
    ensures r == Showdown(s)
  {
    var activePlayers := Active(s.players);
    if |activePlayers| == 1 {
      var winner := activePlayers[0];
      return Payout(s, winner);
    }
    var bestHand := EvaluateHand(activePlayers[0].cards);
    var winner := activePlayers[0];
    ghost var vals := HandValues(Hands(activePlayers));
    ghost var bi := 0;
    for i := 1 to |activePlayers|
      invariant bi == FirstMin(vals, i) && winner == activePlayers[bi] && bestHand == HandOf(activePlayers[bi].cards)
    {
      var playerHand := EvaluateHand(activePlayers[i].cards);
      FirstMinStep(vals, i);
      if CompareHands(playerHand, bestHand) < 0 {
        bestHand, winner, bi := playerHand, activePlayers[i], i;
      }
    }
    r := Payout(s, winner);
  }

  // ---------------------------------------------------------------------------
  // End of a betting round and the betting action
  // ---------------------------------------------------------------------------

  /** Every bet cleared and seat 0 to act. */
  function ResetBets(players: seq<Player>): (r: seq<Player>)
    ensures |r| == |players|
    ensures forall j :: 0 <= j < |players| ==> r[j] == players[j].(currentBet := 0, isTurn := j == 0)
  {
    seq(|players|, j requires 0 <= j < |players| => players[j].(currentBet := 0, isTurn := j == 0))
  }

  /** endBettingRound can decide: someone is active, or round 1 moves on to the exchange without a showdown. */
  predicate CanEndRound(s: GameState)
  {
    |Active(s.players)| >= 1 || s.round == 1
  }

  /** endBettingRound: one active player wins at once; round 1 moves to the card exchange with bets
      cleared; any other round goes to the showdown. */
  function EndBettingRound(s: GameState): (r: GameState)
    requires CanEndRound(s)
    ensures |r.players| == |s.players|
    ensures r.phase == GameOver || (r.phase == CardExchange && r.round == 2 && r.currentBet == 0)
  {
    var active := Active(s.players);
    if |active| == 1 then Showdown(s)
    else if s.round == 1 then
      s.(phase := CardExchange, round := 2, currentBet := 0, currentPlayerIndex := 0, players := ResetBets(s.players))
    else Showdown(s)
  }

  /** The three outcomes of endBettingRound, and that the chips in play are kept. */
  lemma EndBettingRoundProps(s: GameState)
    requires CanEndRound(s)
    ensures var r := EndBettingRound(s);
            && (|Active(s.players)| == 1 ==> r == Showdown(s))
            && (|Active(s.players)| != 1 && s.round == 1 ==>
                  && r.phase == CardExchange && r.round == 2 && r.currentBet == 0 && r.currentPlayerIndex == 0
                  && |r.players| == |s.players|
                  && (forall j :: 0 <= j < |s.players| ==> r.players[j].currentBet == 0 && r.players[j].isTurn == (j == 0))
                  && r.pot == s.pot && r.deck == s.deck)
            && (|Active(s.players)| != 1 && s.round != 1 ==> r == Showdown(s) && r.phase == GameOver)
            && (DistinctPlayerIds(s.players) ==> Total(r) == Total(s))
  {
    if |Active(s.players)| == 1 || s.round != 1 {
      if DistinctPlayerIds(s.players) {
        ShowdownProps(s);
      }
    } else {
      SumChipsSameStacks(ResetBets(s.players), s.players);
    }
  }

  /** The turn passes to `next` when there is one; otherwise the round ends. */
  function PassTurn(mid: GameState, next: int): GameState
    requires next == -1 || 0 <= next < |mid.players|
    requires next == -1 ==> CanEndRound(mid)
  {
    if next != -1 then
      mid.(players := mid.players[next := mid.players[next].(isTurn := true)], currentPlayerIndex := next)
    else EndBettingRound(mid)
  }

  /** processBettingAction can finish: an unknown id, or a snapshot after the action that a round end can handle. */
  predicate BettingDefined(s: GameState, playerId: string, action: BettingAction, amount: Option<int>)
  {
    var idx := FindPlayer(s.players, playerId);
    idx == -1 || CanEndRound(AfterAction(s, idx, action, amount))
  }

  lemma NextImpliesCanEnd(mid: GameState, idx: nat)
    requires idx < |mid.players|
    ensures var next := NextPlayerIndex(mid, idx); next == -1 || 0 <= next < |mid.players|
    ensures NextPlayerIndex(mid, idx) != -1 ==> CanEndRound(mid)
  {
    NextPlayerIndexProps(mid, idx);
  }

  /** What processBettingAction returns. */
  function BettingResult(s: GameState, playerId: string, action: BettingAction, amount: Option<int>): (r: GameState)
    requires BettingDefined(s, playerId, action, amount)
    ensures |r.players| == |s.players|
    ensures r.phase == s.phase || r.phase == CardExchange || r.phase == GameOver
  {
    var idx := FindPlayer(s.players, playerId);
    if idx == -1 then s
    else
      var mid := AfterAction(s, idx, action, amount);
      NextImpliesCanEnd(mid, idx);
      PassTurn(mid, NextPlayerIndex(mid, idx))
  }

  /** The switch of processBettingAction: the acting seat's stake, stack and flags, the pot and the
      table bet after one action. */
  method ApplyAction(s: GameState, playerIndex: nat, action: BettingAction, amount: Option<int>)
    returns (newGameState: GameState)
    requires playerIndex < |s.players|
    ensures newGameState == AfterAction(s, playerIndex, action, amount)
  {
    var player := s.players[playerIndex];
    newGameState := s;
    var newPlayers := s.players;
    match action {
      case Call =>
        var callAmount := Min(s.currentBet - player.currentBet, player.chips);
        newPlayers := newPlayers[playerIndex := player.(currentBet := player.currentBet + callAmount,
                                                        chips := player.chips - callAmount, isTurn := false)];
        newGameState := newGameState.(pot := newGameState.pot + callAmount);
      case Raise =>
        var raiseAmount := RaiseTarget(amount, s.currentBet);
        var totalBet := Min(raiseAmount, player.chips);
        var addedAmount := totalBet - player.currentBet;
        newPlayers := newPlayers[playerIndex := player.(currentBet := totalBet, chips := player.chips - addedAmount,
                                                        isTurn := false)];
        newGameState := newGameState.(pot := newGameState.pot + addedAmount);
        newGameState := newGameState.(currentBet := Max(newGameState.currentBet, totalBet));
      case Fold =>
        newPlayers := newPlayers[playerIndex := player.(folded := true, isTurn := false)];
      case Check =>
        newPlayers := newPlayers[playerIndex := player.(isTurn := false)];
    }
    newGameState := newGameState.(players := newPlayers);
  }

  /** processBettingAction: apply the action to a copy of the seats and the pot, then hand the turn on
      or end the round. */
  method ProcessBettingAction(s: GameState, playerId: string, action: BettingAction, amount: Option<int>)
    returns (r: GameState)
    requires BettingDefined(s, playerId, action, amount)
    ensures r == BettingResult(s, playerId, action, amount)
  {
    var playerIndex := FindPlayer(s.players, playerId);
    if playerIndex == -1 {
      return s;
    }
    var newGameState := ApplyAction(s, playerIndex, action, amount);
    var newPlayers := newGameState.players;
    var nextPlayerIndex := GetNextPlayerIndex(newGameState, playerIndex);
    NextImpliesCanEnd(newGameState, playerIndex);
    if nextPlayerIndex != -1 {
      newPlayers := newPlayers[nextPlayerIndex := newPlayers[nextPlayerIndex].(isTurn := true)];
      newGameState := newGameState.(players := newPlayers, currentPlayerIndex := nextPlayerIndex);
    } else {
      newGameState := EndBettingRound(newGameState);
    }
    r := newGameState;
  }

  /** An unknown player id leaves the snapshot unchanged. */
  lemma BettingUnknownPlayer(s: GameState, playerId: string, action: BettingAction, amount: Option<int>)
    requires FindPlayer(s.players, playerId) == -1
    ensures BettingDefined(s, playerId, action, amount)
    ensures BettingResult(s, playerId, action, amount) == s
  {
  }

  /** With distinct ids no betting action creates or destroys chips. */
  lemma BettingConservesChips(s: GameState, playerId: string, action: BettingAction, amount: Option<int>)
    requires BettingDefined(s, playerId, action, amount) && DistinctPlayerIds(s.players)
    ensures Total(BettingResult(s, playerId, action, amount)) == Total(s)
  {
    var idx := FindPlayer(s.players, playerId);
    if idx != -1 {
      var mid := AfterAction(s, idx, action, amount);
      AfterActionConservesChips(s, idx, action, amount);
      AfterActionFrame(s, idx, action, amount);
      assert DistinctPlayerIds(mid.players) by {
        forall i, j | 0 <= i < j < |mid.players| ensures mid.players[i].id != mid.players[j].id {
          assert mid.players[i].id == s.players[i].id && mid.players[j].id == s.players[j].id;
        }
      }
      NextImpliesCanEnd(mid, idx);
      var next := NextPlayerIndex(mid, idx);
      if next != -1 {
        var p := mid.players[next].(isTurn := true);
        SumChipsUpdate(mid.players, next, p);
      } else {
        EndBettingRoundProps(mid);
      }
    }
  }

  /** A check by one of two players, when both have matched the table bet and neither still has the turn
      flag set after the check, ends the round at once: in round 1 the game moves to the card exchange. */
  lemma CheckWithMatchedBetsEndsRound(s: GameState, idx: nat)
    requires |s.players| == 2 && idx < 2 && DistinctPlayerIds(s.players)
    requires !s.players[0].folded && !s.players[1].folded
    requires s.players[0].currentBet == s.currentBet && s.players[1].currentBet == s.currentBet
    requires !s.players[1 - idx].isTurn
    requires s.round == 1
    ensures BettingDefined(s, s.players[idx].id, Check, None)
    ensures var r := BettingResult(s, s.players[idx].id, Check, None);
            r.phase == CardExchange && r.round == 2 && r.currentPlayerIndex == 0 && r.pot == s.pot
  {
    var id := s.players[idx].id;
    assert FindPlayer(s.players, id) == idx;
    var k := idx;
    var mid := AfterAction(s, k, Check, None);
    assert mid.players[0].currentBet == s.currentBet && mid.players[1].currentBet == s.currentBet;
    assert !mid.players[0].isTurn && !mid.players[1].isTurn;
    assert !mid.players[0].folded && !mid.players[1].folded;
    assert mid.players[1..] == [mid.players[1]] && mid.players[1..][1..] == [];
    assert Active(mid.players) == [mid.players[0], mid.players[1]];
    assert !SomeoneToAct(Active(mid.players));
    assert NextPlayerIndex(mid, k) == -1;
  }

  /** With two seated players and distinct ids, a fold that leaves one player active ends the game at once:
      that player wins the whole pot without any hand being evaluated. */
  lemma FoldToOneAwardsPot(s: GameState, idx: nat)
    requires |s.players| == 2 && idx < 2 && DistinctPlayerIds(s.players)
    requires !s.players[1 - idx].folded
    ensures BettingDefined(s, s.players[idx].id, Fold, None)
    ensures var r := BettingResult(s, s.players[idx].id, Fold, None);
            && r.phase == GameOver && r.pot == 0 && r.winner == Some(s.players[1 - idx])
            && r.players[1 - idx].chips == s.players[1 - idx].chips + s.pot
            && r.players[idx].chips == s.players[idx].chips
  {
    var id := s.players[idx].id;
    assert FindPlayer(s.players, id) == idx;
    var mid := AfterAction(s, idx, Fold, None);
    var other := s.players[1 - idx];
    assert mid.players[1 - idx] == other && mid.players[idx].folded;
    assert mid.players[1..] == [mid.players[1]] && mid.players[1..][1..] == [];
    assert Active(mid.players) == [other];
    assert NextPlayerIndex(mid, idx) == -1;
    assert EndBettingRound(mid) == Payout(mid, other);
    assert DistinctPlayerIds(mid.players);
    PayoutProps(mid, other);
  }

  // ---------------------------------------------------------------------------
  // Card exchange
  // ---------------------------------------------------------------------------

  /** The held cards whose ids are not listed, in hand order. */
  function Kept(cards: seq<Card>, cardIds: seq<string>): (r: seq<Card>)
    ensures |r| <= |cards|
    ensures forall c :: c in r <==> c in cards && c.id !in cardIds
  {
    if cards == [] then []
    else (if cards[0].id in cardIds then [] else [cards[0]]) + Kept(cards[1..], cardIds)
  }

  predicate DistinctStrings(xs: seq<string>)
  {
    forall i, j :: 0 <= i < j < |xs| ==> xs[i] != xs[j]
  }

  /** Discarding k distinct ids of held cards (card ids distinct) keeps exactly |cards| - k cards. */
  lemma {:induction false} KeptSize(cards: seq<Card>, cardIds: seq<string>)
    requires DistinctIds(cards) && DistinctStrings(cardIds)
    requires forall id :: id in cardIds ==> exists c :: c in cards && c.id == id
    ensures |Kept(cards, cardIds)| == |cards| - |cardIds|
    decreases |cards|
  {
    if cards == [] {
      NoIdsOfNoCards(cards, cardIds);
    } else {
      var c := cards[0];
      var tail := cards[1..];
      TailIds(cards);
      if c.id in cardIds {
        var k :| 0 <= k < |cardIds| && cardIds[k] == c.id;
        var rest := cardIds[..k] + cardIds[k + 1..];
        RemoveId(cardIds, k);
        forall id | id in rest ensures exists d :: d in tail && d.id == id {
          var d :| d in cards && d.id == id;
          assert d != c;
        }
        KeptSize(tail, rest);
        KeptSameOn(tail, rest, cardIds);
      } else {
        forall id | id in cardIds ensures exists d :: d in tail && d.id == id {
          var d :| d in cards && d.id == id;
          assert d != c;
        }
        KeptSize(tail, cardIds);
      }
    }
  }

  lemma NoIdsOfNoCards(cards: seq<Card>, cardIds: seq<string>)
    requires cards == []
    requires forall id :: id in cardIds ==> exists c :: c in cards && c.id == id
    ensures |cardIds| == 0
  {
    if cardIds != [] {
      HeadIsMember(cardIds);
      assert false;
    }
  }

  lemma HeadIsMember(xs: seq<string>)
    requires xs != []
    ensures xs[0] in xs
  {
  }

  /** The tail of a hand with distinct ids has distinct ids, none equal to the head's. */
  lemma TailIds(cards: seq<Card>)
    requires DistinctIds(cards) && cards != []
    ensures DistinctIds(cards[1..])
    ensures forall d :: d in cards[1..] ==> d.id != cards[0].id
  {
    var tail := cards[1..];
    forall i, j | 0 <= i < j < |tail| ensures tail[i].id != tail[j].id {
      assert tail[i] == cards[i + 1] && tail[j] == cards[j + 1];
    }
    forall d | d in tail ensures d.id != cards[0].id {
      var j :| 0 <= j < |tail| && tail[j] == d;
      assert cards[j + 1] == d;
    }
  }

  /** Removing position k from a list of distinct ids removes exactly that id. */
  lemma RemoveId(cardIds: seq<string>, k: nat)
    requires DistinctStrings(cardIds) && k < |cardIds|
    ensures var rest := cardIds[..k] + cardIds[k + 1..];
            && |rest| == |cardIds| - 1 && DistinctStrings(rest)
            && forall id :: id in rest <==> id in cardIds && id != cardIds[k]
  {
    var rest := cardIds[..k] + cardIds[k + 1..];
    assert cardIds == cardIds[..k] + [cardIds[k]] + cardIds[k + 1..];
    forall i, j | 0 <= i < j < |rest| ensures rest[i] != rest[j] {
      var i' := if i < k then i else i + 1;
      var j' := if j < k then j else j + 1;
      assert rest[i] == cardIds[i'] && rest[j] == cardIds[j'];
    }
    forall id ensures id in rest <==> id in cardIds && id != cardIds[k] {
      if id in rest {
        var j :| 0 <= j < |rest| && rest[j] == id;
        var j' := if j < k then j else j + 1;
        assert cardIds[j'] == id && j' != k;
      }
    }
  }

  /** Two id lists that agree on the ids of the held cards keep the same cards. */
  lemma {:induction false} KeptSameOn(cards: seq<Card>, a: seq<string>, b: seq<string>)
    requires forall c :: c in cards ==> (c.id in a <==> c.id in b)
    ensures Kept(cards, a) == Kept(cards, b)
    decreases |cards|
  {
    if cards != [] {
      KeptSameOn(cards[1..], a, b);
    }
  }

  /** exchangeCards indexes seat 1 when seat 0 acts, so a lone seat 0 cannot exchange. */
  predicate ExchangeDefined(s: GameState, playerId: string)
  {
    FindPlayer(s.players, playerId) == 0 ==> |s.players| >= 2
  }

  /** What exchangeCards returns. */
  function ExchangeResult(s: GameState, playerId: string, cardIds: seq<string>): (r: GameState)
    requires ExchangeDefined(s, playerId)
    ensures |r.players| == |s.players| && r.pot == s.pot && r.id == s.id
    ensures r.phase == s.phase || r.phase == FinalBetting
  {
    var idx := FindPlayer(s.players, playerId);
    if idx == -1 then s
    else
      var player := s.players[idx];
      var n := Min(|cardIds|, |s.deck|);
      var updatedCards := if |cardIds| > 0 then Kept(player.cards, cardIds) + s.deck[..n] else player.cards;
      var remainingDeck := if |cardIds| > 0 then s.deck[n..] else s.deck;
      var newPlayers := s.players[idx := player.(cards := updatedCards, isTurn := false)];
      if idx == 0 && !s.players[1].folded then
        var newPhase := s.phase;
        s.(phase := newPhase, players := newPlayers[1 := newPlayers[1].(isTurn := true)], deck := remainingDeck,
           currentPlayerIndex := 1,
           currentBet := if newPhase == FinalBetting then 0 else s.currentBet,
           round := if newPhase == FinalBetting then 2 else s.round)
      else
        s.(phase := FinalBetting, players := ResetBets(newPlayers), deck := remainingDeck, currentPlayerIndex := 0,
           currentBet := 0, round := 2)
  }

  /** exchangeCards: keep the unlisted cards, draw as many as were listed, then pass the turn to seat 1
      or open the final betting round. */
  method ExchangeCards(s: GameState, playerId: string, cardIds: seq<string>) returns (r: GameState)
    requires ExchangeDefined(s, playerId)
    ensures r == ExchangeResult(s, playerId, cardIds)
  {
    var playerIndex := FindPlayer(s.players, playerId);
    if playerIndex == -1 {
      return s;
    }
    var player := s.players[playerIndex];
    var cardsToKeep := Kept(player.cards, cardIds);
    var remainingDeck := s.deck;
    var updatedCards := player.cards;
    if |cardIds| > 0 {
      var (newCards, newDeck) := DrawCards(s.deck, |cardIds|);
      remainingDeck := newDeck;
      updatedCards := cardsToKeep + newCards;
    }
    var newPlayers := s.players[playerIndex := player.(cards := updatedCards, isTurn := false)];
    var nextPlayerIndex := s.currentPlayerIndex;
    var newPhase := s.phase;
    if playerIndex == 0 && !s.players[1].folded {
      nextPlayerIndex := 1;
      newPlayers := newPlayers[1 := newPlayers[1].(isTurn := true)];
    } else {
      newPhase := FinalBetting;
      nextPlayerIndex := 0;
      ghost var before := newPlayers;
      newPlayers := newPlayers[0 := newPlayers[0].(isTurn := true)];
      for index := 0 to |newPlayers|
        invariant |newPlayers| == |before|
        invariant forall j :: 0 <= j < index ==> newPlayers[j] == before[j].(currentBet := 0, isTurn := j == 0)
        invariant forall j :: index <= j < |newPlayers| ==> newPlayers[j] == if j == 0 then before[0].(isTurn := true) else before[j]
      {
        newPlayers := newPlayers[index := newPlayers[index].(currentBet := 0, isTurn := index == 0)];
      }
      assert newPlayers == ResetBets(before);
    }
    r := s.(phase := newPhase, players := newPlayers, deck := remainingDeck, currentPlayerIndex := nextPlayerIndex,
            currentBet := if newPhase == FinalBetting then 0 else s.currentBet,
            round := if newPhase == FinalBetting then 2 else s.round);
  }

  /** An unknown player id leaves the snapshot unchanged. */
  lemma ExchangeUnknownPlayer(s: GameState, playerId: string, cardIds: seq<string>)
    requires FindPlayer(s.players, playerId) == -1
    ensures ExchangeResult(s, playerId, cardIds) == s
  {
  }

  /** The exchanging seat's new hand: unchanged for an empty list; otherwise the kept cards in order,
      then the first cards of the deck, which loses exactly those. */
  lemma ExchangeHand(s: GameState, playerId: string, cardIds: seq<string>)
    requires ExchangeDefined(s, playerId)
    requires FindPlayer(s.players, playerId) != -1
    ensures var idx := FindPlayer(s.players, playerId);
            var r := ExchangeResult(s, playerId, cardIds);
            var n := Min(|cardIds|, |s.deck|);
            && |r.players| == |s.players|
            && (cardIds == [] ==> r.players[idx].cards == s.players[idx].cards && r.deck == s.deck)
            && (cardIds != [] ==> r.players[idx].cards == Kept(s.players[idx].cards, cardIds) + s.deck[..n]
                                  && r.deck == s.deck[n..] && s.deck == s.deck[..n] + r.deck)
            && (forall j :: 0 <= j < |s.players| && j != idx ==> r.players[j].cards == s.players[j].cards)
  {
    var idx := FindPlayer(s.players, playerId);
    var r := ExchangeResult(s, playerId, cardIds);
    var player := s.players[idx];
    var n := Min(|cardIds|, |s.deck|);
    var updatedCards := if |cardIds| > 0 then Kept(player.cards, cardIds) + s.deck[..n] else player.cards;
    var newPlayers := s.players[idx := player.(cards := updatedCards, isTurn := false)];
    if idx == 0 && !s.players[1].folded {
      assert r.players == newPlayers[1 := newPlayers[1].(isTurn := true)];
    } else {
      assert r.players == ResetBets(newPlayers);
    }
    assert forall j :: 0 <= j < |s.players| ==> r.players[j].cards == newPlayers[j].cards;
    if cardIds != [] {
      assert s.deck == s.deck[..n] + s.deck[n..];
    }
  }

  /** Exchanging k distinct held ids from a deck of at least k cards keeps the hand size. */
  lemma ExchangeKeepsHandSize(s: GameState, playerId: string, cardIds: seq<string>)
    requires ExchangeDefined(s, playerId)
    requires FindPlayer(s.players, playerId) != -1
    requires var p := s.players[FindPlayer(s.players, playerId)];
             && DistinctIds(p.cards) && DistinctStrings(cardIds)
             && (forall id :: id in cardIds ==> exists c :: c in p.cards && c.id == id)
    requires |cardIds| <= |s.deck|
    ensures var idx := FindPlayer(s.players, playerId);
            |ExchangeResult(s, playerId, cardIds).players[idx].cards| == |s.players[idx].cards|
            && |ExchangeResult(s, playerId, cardIds).deck| == |s.deck| - |cardIds|
  {
    var idx := FindPlayer(s.players, playerId);
    KeptSize(s.players[idx].cards, cardIds);
    ExchangeHand(s, playerId, cardIds);
  }

  /** The turn after an exchange: seat 0 hands it to an unfolded seat 1; otherwise the final betting
      round opens with every bet cleared, seat 0 to act and round 2. */
  lemma ExchangeTurn(s: GameState, playerId: string, cardIds: seq<string>)
    requires ExchangeDefined(s, playerId)
    requires FindPlayer(s.players, playerId) != -1
    ensures var idx := FindPlayer(s.players, playerId);
            var r := ExchangeResult(s, playerId, cardIds);
            && (idx == 0 && !s.players[1].folded ==>
                  r.currentPlayerIndex == 1 && r.players[1].isTurn && !r.players[0].isTurn && r.phase == s.phase
                  && (s.phase != FinalBetting ==> r.currentBet == s.currentBet && r.round == s.round))
            && (!(idx == 0 && !s.players[1].folded) ==>
                  && r.phase == FinalBetting && r.currentPlayerIndex == 0 && r.currentBet == 0 && r.round == 2
                  && forall j :: 0 <= j < |r.players| ==> r.players[j].currentBet == 0 && r.players[j].isTurn == (j == 0))
  {
  }

  /** exchangeCards never reads or spends the exchange budget, and moves no chips. */
  lemma ExchangeKeepsBudgetAndChips(s: GameState, playerId: string, cardIds: seq<string>)
    requires ExchangeDefined(s, playerId)
    ensures var r := ExchangeResult(s, playerId, cardIds);
            && r.exchangesRemaining == s.exchangesRemaining && r.pot == s.pot
            && |r.players| == |s.players|
            && (forall j :: 0 <= j < |s.players| ==>
                  r.players[j].chips == s.players[j].chips && r.players[j].folded == s.players[j].folded
                  && r.players[j].id == s.players[j].id)
            && Total(r) == Total(s)
  {
    var r := ExchangeResult(s, playerId, cardIds);
    SumChipsSameStacks(r.players, s.players);
  }
}
