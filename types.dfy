/** Shared vocabulary of the engine: cards, players, the game snapshot and the
    constant tables (suits, ranks, hand categories, card values, default settings). */
module Types {

  datatype Option<T> = None | Some(value: T)

  datatype Suit = Spades | Hearts | Diamonds | Clubs

  datatype Rank = Ace | Two | Three | Four | Five | Six | Seven | Eight | Nine | Ten | Jack | Queen | King

  /** A playing card; `id` is "suit-rank", unique within one deck. */
  datatype Card = Card(suit: Suit, rank: Rank, id: string)

  datatype GamePhase = Lobby | Dealing | Betting | CardExchange | FinalBetting | Showdown | GameOver

  datatype PlayerType = Human | AI

  datatype BettingAction = Call | Raise | Fold | Check

  datatype Difficulty = Easy | Medium | Hard

  datatype Player = Player(
    id: string,
    name: string,
    kind: PlayerType,
    chips: int,
    cards: seq<Card>,
    currentBet: int,
    folded: bool,
    isDealer: bool,
    isTurn: bool)

  /** Hand categories, best first. */
  datatype HandRank = Badugi | ThreeCard | TwoCard | OneCard

  /** The evaluator's verdict: category, the cards that count, and the comparison value (lower is better). */
  datatype HandResult = HandResult(rank: HandRank, cards: seq<Card>, value: int)

  datatype GameState = GameState(
    id: string,
    phase: GamePhase,
    players: seq<Player>,
    currentPlayerIndex: int,
    pot: int,
    currentBet: int,
    deck: seq<Card>,
    round: int,
    exchangesRemaining: int,
    winner: Option<Player>)

  datatype GameSettings = GameSettings(
    initialChips: int,
    smallBlind: int,
    bigBlind: int,
    maxExchanges: int,
    aiDifficulty: Difficulty)

  const SUITS: seq<Suit> := [Spades, Hearts, Diamonds, Clubs]

  const RANKS: seq<Rank> := [Ace, Two, Three, Four, Five, Six, Seven, Eight, Nine, Ten, Jack, Queen, King]

  const DEFAULT_GAME_SETTINGS: GameSettings := GameSettings(1000, 10, 20, 3, Medium)

  /** Category base of the comparison value (HAND_RANKINGS). */
  function HandRanking(r: HandRank): (n: int)
    ensures 1 <= n <= 4
    ensures r == Badugi <==> n == 1
  {
    match r
    case Badugi => 1
    case ThreeCard => 2
    case TwoCard => 3
    case OneCard => 4
  }

  /** Rank value, ace low (CARD_VALUES). */
  function CardValue(r: Rank): (v: int)
    ensures 1 <= v <= 13
  {
    match r
    case Ace => 1
    case Two => 2
    case Three => 3
    case Four => 4
    case Five => 5
    case Six => 6
    case Seven => 7
    case Eight => 8
    case Nine => 9
    case Ten => 10
    case Jack => 11
    case Queen => 12
    case King => 13
  }

  function SuitName(s: Suit): string
  {
    match s
    case Spades => "spades"
    case Hearts => "hearts"
    case Diamonds => "diamonds"
    case Clubs => "clubs"
  }

  function RankName(r: Rank): string
  {
    match r
    case Ace => "A"
    case Two => "2"
    case Three => "3"
    case Four => "4"
    case Five => "5"
    case Six => "6"
    case Seven => "7"
    case Eight => "8"
    case Nine => "9"
    case Ten => "10"
    case Jack => "J"
    case Queen => "Q"
    case King => "K"
  }

  /** RANKS lists the ranks in increasing CARD_VALUES order, and distinct ranks have distinct values. */
  lemma RankTable()
    ensures forall i :: 0 <= i < |RANKS| ==> CardValue(RANKS[i]) == i + 1
    ensures forall r1: Rank, r2: Rank :: CardValue(r1) == CardValue(r2) ==> r1 == r2
  {
  }
}
