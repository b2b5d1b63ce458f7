/** Deck construction, shuffling, dealing, hand evaluation and the combination search. */
module CardUtils {
  import opened Types

  // ---------------------------------------------------------------------------
  // Card identities
  // ---------------------------------------------------------------------------

  /** The id every card of a deck carries: "suit-rank". */
  function CardId(s: Suit, r: Rank): string
  {
    SuitName(s) + "-" + RankName(r)
  }

  function MakeCard(s: Suit, r: Rank): Card
  {
    Card(s, r, CardId(s, r))
  }

  function RankOfName(name: string): Option<Rank>
  {
    if name == "A" then Some(Ace)
    else if name == "2" then Some(Two)
    else if name == "3" then Some(Three)
    else if name == "4" then Some(Four)
    else if name == "5" then Some(Five)
    else if name == "6" then Some(Six)
    else if name == "7" then Some(Seven)
    else if name == "8" then Some(Eight)
    else if name == "9" then Some(Nine)
    else if name == "10" then Some(Ten)
    else if name == "J" then Some(Jack)
    else if name == "Q" then Some(Queen)
    else if name == "K" then Some(King)
    else None
  }

  lemma RankOfNameInverts(r: Rank)
    ensures RankOfName(RankName(r)) == Some(r)
  {
  }

  /** Two cards built by MakeCard share an id only if they are the same card. */
  lemma CardIdInjective(s1: Suit, r1: Rank, s2: Suit, r2: Rank)
    ensures CardId(s1, r1) == CardId(s2, r2) <==> s1 == s2 && r1 == r2
  {
    if CardId(s1, r1) == CardId(s2, r2) {
      var id := CardId(s1, r1);
      assert SuitName(s1)[0] == id[0] == SuitName(s2)[0];
      assert s1 == s2;
      var n := |SuitName(s1)|;
      assert id[n + 1..] == RankName(r1);
      assert CardId(s2, r2)[n + 1..] == RankName(r2);
      RankOfNameInverts(r1);
      RankOfNameInverts(r2);
    }
  }

  // ---------------------------------------------------------------------------
  // Deck
  // ---------------------------------------------------------------------------

  /** The 52 cards in the order the nested suit/rank loops push them. */
  function OrderedDeck(): seq<Card>
  {
    seq(52, i requires 0 <= i < 52 => MakeCard(SUITS[i / 13], RANKS[i % 13]))
  }

  /** The first m cards of suit s, ace first. */
  function SuitRow(s: Suit, m: nat): (r: seq<Card>)
    requires m <= 13
    ensures |r| == m
  {
    if m == 0 then [] else SuitRow(s, m - 1) + [MakeCard(s, RANKS[m - 1])]
  }

  predicate DistinctIds(cards: seq<Card>)
  {
    forall i, j :: 0 <= i < j < |cards| ==> cards[i].id != cards[j].id
  }

  /** A full deck: 52 cards, every suit-rank card in it exactly once, all ids distinct. */
  predicate FullDeck(deck: seq<Card>)
  {
    && |deck| == 52
    && (forall s: Suit, r: Rank :: MakeCard(s, r) in deck)
    && (forall c :: c in deck ==> c == MakeCard(c.suit, c.rank))
    && (forall s: Suit, r: Rank :: multiset(deck)[MakeCard(s, r)] == 1)
    && DistinctIds(deck)
  }

  /** Builds the unshuffled deck, suit by suit and rank by rank. */
  method BuildDeck() returns (deck: seq<Card>)
    ensures deck == OrderedDeck()
  {
    deck := [];
    for si := 0 to |SUITS|
      invariant deck == OrderedDeck()[..13 * si]
    {
      for ri := 0 to |RANKS|
        invariant deck == OrderedDeck()[..13 * si] + SuitRow(SUITS[si], ri)
      {
        deck := deck + [MakeCard(SUITS[si], RANKS[ri])];
      }
      SuitRowIsSlice(si, 13);
      assert OrderedDeck()[..13 * (si + 1)] == OrderedDeck()[..13 * si] + OrderedDeck()[13 * si..13 * si + 13];
    }
    assert OrderedDeck()[..52] == OrderedDeck();
  }

  /** The first m cards of suit si's row are the ordered deck from position 13 * si on. */
  lemma {:induction false} SuitRowIsSlice(si: nat, m: nat)
    requires si < 4 && m <= 13
    ensures SuitRow(SUITS[si], m) == OrderedDeck()[13 * si..13 * si + m]
  {
    if m > 0 {
      SuitRowIsSlice(si, m - 1);
      var i := 13 * si + m - 1;
      assert i / 13 == si && i % 13 == m - 1;
      SliceSnoc(OrderedDeck(), 13 * si, i);
    }
  }

  lemma SliceSnoc(xs: seq<Card>, a: nat, b: nat)
    requires a <= b < |xs|
    ensures xs[a..b + 1] == xs[a..b] + [xs[b]]
  {
  }

  lemma SuitIndex(s: Suit) returns (k: nat)
    ensures k < 4 && SUITS[k] == s
  {
    k := match s case Spades => 0 case Hearts => 1 case Diamonds => 2 case Clubs => 3;
  }

  lemma RankIndex(r: Rank) returns (k: nat)
    ensures k < 13 && RANKS[k] == r
  {
    RankTable();
    k := CardValue(r) - 1;
  }

  /** In a sequence whose ids are pairwise distinct, no card occurs twice. */
  lemma DistinctIdsCountOne(cards: seq<Card>, c: Card)
    requires DistinctIds(cards)
    requires c in cards
    ensures multiset(cards)[c] == 1
    decreases |cards|
  {
    var last := cards[|cards| - 1];
    var init := cards[..|cards| - 1];
    assert cards == init + [last];
    assert DistinctIds(init);
    if c == last {
      assert forall i :: 0 <= i < |init| ==> cards[i].id != cards[|cards| - 1].id;
      assert c !in init;
    } else {
      DistinctIdsCountOne(init, c);
    }
  }

  lemma OrderedDeckAt(i: nat)
    requires i < 52
    ensures OrderedDeck()[i] == MakeCard(SUITS[i / 13], RANKS[i % 13])
    ensures i == 13 * (i / 13) + i % 13 && i / 13 < 4 && i % 13 < 13
  {
  }

  lemma OrderedDeckHasEveryCard(s: Suit, r: Rank)
    ensures MakeCard(s, r) in OrderedDeck()
  {
    var a := SuitIndex(s);
    var b := RankIndex(r);
    var i := 13 * a + b;
    assert i / 13 == a && i % 13 == b;
    assert OrderedDeck()[i] == MakeCard(s, r);
  }

  lemma OrderedDeckDistinctIds()
    ensures DistinctIds(OrderedDeck())
  {
    var d := OrderedDeck();
    forall i, j | 0 <= i < j < 52 ensures d[i].id != d[j].id {
      OrderedDeckAt(i);
      OrderedDeckAt(j);
      CardIdInjective(SUITS[i / 13], RANKS[i % 13], SUITS[j / 13], RANKS[j % 13]);
      TablesInjective(i / 13, j / 13, i % 13, j % 13);
    }
  }

  lemma TablesInjective(a: nat, b: nat, c: nat, e: nat)
    requires a < 4 && b < 4 && c < 13 && e < 13
    ensures SUITS[a] == SUITS[b] ==> a == b
    ensures RANKS[c] == RANKS[e] ==> c == e
  {
    RankTable();
  }

  /** The unshuffled deck is a full deck. */
  lemma OrderedDeckIsFull()
    ensures FullDeck(OrderedDeck())
  {
    var d := OrderedDeck();
    forall s: Suit, r: Rank ensures MakeCard(s, r) in d {
      OrderedDeckHasEveryCard(s, r);
    }
    forall c | c in d ensures c == MakeCard(c.suit, c.rank) {
      var i :| 0 <= i < 52 && d[i] == c;
      OrderedDeckAt(i);
    }
    OrderedDeckDistinctIds();
    forall s: Suit, r: Rank ensures multiset(d)[MakeCard(s, r)] == 1 {
      OrderedDeckHasEveryCard(s, r);
      DistinctIdsCountOne(d, MakeCard(s, r));
    }
  }

  /** Two positions holding the same card make it count twice. */
  lemma RepeatedCardCountsTwice(cards: seq<Card>, i: nat, j: nat)
    requires i < j < |cards| && cards[i] == cards[j]
    ensures multiset(cards)[cards[i]] >= 2
  {
    assert cards == cards[..j] + cards[j..];
    assert cards[i] in cards[..j];
    assert cards[j] in cards[j..];
    assert multiset(cards[..j])[cards[i]] >= 1;
    assert multiset(cards[j..])[cards[i]] >= 1;
  }

  /** Any permutation of a full deck is a full deck. */
  lemma PermutationOfFullDeck(d: seq<Card>, e: seq<Card>)
    requires FullDeck(d)
    requires multiset(d) == multiset(e)
    ensures FullDeck(e)
  {
    assert |e| == |multiset(e)| == |multiset(d)| == |d|;
    forall s: Suit, r: Rank ensures MakeCard(s, r) in e {
      assert MakeCard(s, r) in multiset(e);
    }
    forall c | c in e ensures c == MakeCard(c.suit, c.rank) {
      assert c in multiset(d);
    }
    forall i, j | 0 <= i < j < |e| ensures e[i].id != e[j].id {
      assert e[i] in multiset(d) && e[j] in multiset(d);
      assert e[i] == MakeCard(e[i].suit, e[i].rank) && e[j] == MakeCard(e[j].suit, e[j].rank);
      CardIdInjective(e[i].suit, e[i].rank, e[j].suit, e[j].rank);
      assert multiset(e)[e[i]] == 1;
      if e[i] == e[j] {
        RepeatedCardCountsTwice(e, i, j);
      }
    }
  }

  // ---------------------------------------------------------------------------
  // Fisher–Yates shuffle
  // ---------------------------------------------------------------------------

  /** The swap choices of one shuffle: step i (from the top down to 1) swaps i with picks[i] in [0, i].
      They stand for the values Math.floor(Math.random() * (i + 1)). */
  predicate ValidPicks(picks: seq<nat>, n: nat)
  {
    |picks| == n && forall i :: 0 <= i < n ==> picks[i] <= i
  }

  function Swap(s: seq<Card>, i: nat, j: nat): seq<Card>
    requires i < |s| && j < |s|
  {
    s[i := s[j]][j := s[i]]
  }

  /** Performs the remaining Fisher–Yates steps i, i-1, ..., 1 on s. */
  function FisherYates(s: seq<Card>, picks: seq<nat>, i: int): (r: seq<Card>)
    requires ValidPicks(picks, |s|)
    requires i < |s|
    ensures |r| == |s|
    decreases i
  {
    if i <= 0 then s
    else FisherYates(Swap(s, i, picks[i]), picks, i - 1)
  }

  /** Every run of steps only swaps, so it permutes its input. */
  lemma {:induction false} FisherYatesIsPermutation(s: seq<Card>, picks: seq<nat>, i: int)
    requires ValidPicks(picks, |s|)
    requires i < |s|
    ensures multiset(FisherYates(s, picks, i)) == multiset(s)
    decreases i
  {
    if i > 0 {
      SwapIsPermutation(s, i, picks[i]);
      FisherYatesIsPermutation(Swap(s, i, picks[i]), picks, i - 1);
    }
  }

  lemma SwapIsPermutation(s: seq<Card>, i: nat, j: nat)
    requires i < |s| && j < |s|
    ensures multiset(Swap(s, i, j)) == multiset(s)
  {
    var t := s[i := s[j]];
    assert multiset(t) == multiset(s) - multiset{s[i]} + multiset{s[j]};
    assert multiset(t[j := s[i]]) == multiset(t) - multiset{t[j]} + multiset{s[i]};
  }

  /** The result of shuffleDeck for the given swap choices: for every choice of swaps, a permutation of
      its input. */
  function Shuffled(deck: seq<Card>, picks: seq<nat>): (r: seq<Card>)
    requires ValidPicks(picks, |deck|)
    ensures |r| == |deck|
    ensures multiset(r) == multiset(deck)
  {
    FisherYatesIsPermutation(deck, picks, |deck| - 1);
    FisherYates(deck, picks, |deck| - 1)
  }

  /** One Fisher–Yates step: swap position i with picks[i], then carry on from i - 1. */
  lemma FisherYatesStep(s: seq<Card>, picks: seq<nat>, i: nat)
    requires ValidPicks(picks, |s|)
    requires 0 < i < |s|
    ensures FisherYates(s, picks, i) == FisherYates(Swap(s, i, picks[i]), picks, i - 1)
  {
  }

  /** Shuffles a copy of the deck in place, swapping from the top down. */
  method ShuffleDeck(deck: seq<Card>, picks: seq<nat>) returns (shuffled: seq<Card>)
    requires ValidPicks(picks, |deck|)
    ensures shuffled == Shuffled(deck, picks)
    ensures multiset(shuffled) == multiset(deck)
  {
    var a := new Card[|deck|](k requires 0 <= k < |deck| => deck[k]);
    assert a[..] == deck;
    ghost var target := Shuffled(deck, picks);
    ghost var cur := deck;
    var i := |deck| - 1;
    while i > 0
      invariant -1 <= i < |deck| == a.Length == |cur|
      invariant a[..] == cur
      invariant FisherYates(cur, picks, i) == target
      decreases i
    {
      var j := picks[i];
      FisherYatesStep(cur, picks, i);
      cur := Swap(cur, i, j);
      var tmp := a[i];
      a[i] := a[j];
      a[j] := tmp;
      i := i - 1;
    }
    shuffled := a[..];
  }

  /** Every shuffle of the ordered deck is a full deck. */
  lemma ShuffledDeckIsFull(picks: seq<nat>)
    requires ValidPicks(picks, 52)
    ensures FullDeck(Shuffled(OrderedDeck(), picks))
  {
    OrderedDeckIsFull();
    PermutationOfFullDeck(OrderedDeck(), Shuffled(OrderedDeck(), picks));
  }

  /** A freshly made, shuffled deck (createDeck). */
  method CreateDeck(picks: seq<nat>) returns (deck: seq<Card>)
    requires ValidPicks(picks, 52)
    ensures deck == Shuffled(OrderedDeck(), picks)
    ensures FullDeck(deck)
  {
    var ordered := BuildDeck();
    deck := ShuffleDeck(ordered, picks);
    OrderedDeckIsFull();
    PermutationOfFullDeck(ordered, deck);
  }

  /** Takes the first `count` cards, or all of them when fewer remain. */
  function DrawCards(deck: seq<Card>, count: nat): (r: (seq<Card>, seq<Card>))
    ensures r.0 + r.1 == deck
    ensures |r.0| == if count <= |deck| then count else |deck|
  {
    var n := if count <= |deck| then count else |deck|;
    (deck[..n], deck[n..])
  }

  // ---------------------------------------------------------------------------
  // Sorting (Array.prototype.sort is stable, so a stable insertion sort)
  // ---------------------------------------------------------------------------

  /** Sort key: CARD_VALUES ascending, or descending when `descending` holds. */
  function Key(c: Card, descending: bool): int
  {
    if descending then -CardValue(c.rank) else CardValue(c.rank)
  }

  /** Each card's key is at most the next one's. */
  predicate SortedBy(xs: seq<Card>, descending: bool)
  {
    forall i :: 0 <= i < |xs| - 1 ==> Key(xs[i], descending) <= Key(xs[i + 1], descending)
  }

  /** Puts c in front of the first element whose key is not smaller. */
  function Insert(c: Card, xs: seq<Card>, descending: bool): (r: seq<Card>)
    ensures |r| == |xs| + 1
  {
    if xs == [] || Key(c, descending) <= Key(xs[0], descending) then [c] + xs
    else [xs[0]] + Insert(c, xs[1..], descending)
  }

  /** Inserting into a sorted sequence keeps it sorted and adds exactly c. */
  lemma {:induction false} InsertProps(c: Card, xs: seq<Card>, descending: bool)
    requires SortedBy(xs, descending)
    ensures var r := Insert(c, xs, descending);
            && (r[0] == c || (xs != [] && r[0] == xs[0]))
            && multiset(r) == multiset{c} + multiset(xs)
            && SortedBy(r, descending)
  {
    if !(xs == [] || Key(c, descending) <= Key(xs[0], descending)) {
      assert xs == [xs[0]] + xs[1..];
      InsertProps(c, xs[1..], descending);
    }
  }

  /** The stable insertion sort by rank value, ascending or descending. */
  function SortByValue(xs: seq<Card>, descending: bool): (r: seq<Card>)
    ensures |r| == |xs|
  {
    if xs == [] then [] else Insert(xs[0], SortByValue(xs[1..], descending), descending)
  }

  /** Sorting permutes its input into key order. */
  lemma {:induction false} SortProps(xs: seq<Card>, descending: bool)
    ensures multiset(SortByValue(xs, descending)) == multiset(xs)
    ensures SortedBy(SortByValue(xs, descending), descending)
  {
    if xs != [] {
      var rest := SortByValue(xs[1..], descending);
      SortProps(xs[1..], descending);
      InsertProps(xs[0], rest, descending);
      assert SortByValue(xs, descending) == Insert(xs[0], rest, descending);
      assert xs == [xs[0]] + xs[1..];
      assert multiset(xs) == multiset{xs[0]} + multiset(xs[1..]);
    }
  }

  /** A sorted sequence is ordered between any two positions, not only adjacent ones. */
  lemma {:induction false} SortedPairwise(xs: seq<Card>, descending: bool, i: nat, j: nat)
    requires SortedBy(xs, descending)
    requires i <= j < |xs|
    ensures Key(xs[i], descending) <= Key(xs[j], descending)
    decreases j - i
  {
    if i < j {
      SortedPairwise(xs, descending, i + 1, j);
    }
  }

  lemma SameElements(xs: seq<Card>, ys: seq<Card>)
    requires multiset(xs) == multiset(ys)
    ensures forall y :: y in xs <==> y in ys
  {
    assert forall y :: y in xs <==> y in multiset(xs);
    assert forall y :: y in ys <==> y in multiset(ys);
  }

  // ---------------------------------------------------------------------------
  // Hand evaluation
  // ---------------------------------------------------------------------------

  /** No two cards share a suit or a rank. */
  predicate PairwiseDistinct(cs: seq<Card>)
  {
    forall i, j :: 0 <= i < j < |cs| ==> cs[i].suit != cs[j].suit && cs[i].rank != cs[j].rank
  }

  predicate DistinctSuits(cs: seq<Card>)
  {
    forall i, j :: 0 <= i < j < |cs| ==> cs[i].suit != cs[j].suit
  }

  predicate DistinctRanks(cs: seq<Card>)
  {
    forall i, j :: 0 <= i < j < |cs| ==> cs[i].rank != cs[j].rank
  }

  lemma FiveSuitsClash(a: Suit, b: Suit, c: Suit, d: Suit, e: Suit)
    ensures a == b || a == c || a == d || a == e || b == c || b == d || b == e || c == d || c == e || d == e
  {
  }

  /** There are only four suits. */
  lemma DistinctSuitsAtMostFour(cs: seq<Card>)
    requires DistinctSuits(cs)
    ensures |cs| <= 4
  {
    if |cs| >= 5 {
      FiveSuitsClash(cs[0].suit, cs[1].suit, cs[2].suit, cs[3].suit, cs[4].suit);
    }
  }

  /** Position of the entry for suit s, or |reps| when there is none yet. */
  function SuitSlot(reps: seq<Card>, s: Suit): (k: nat)
    ensures k <= |reps|
    ensures k < |reps| ==> reps[k].suit == s
    ensures forall j :: 0 <= j < k ==> reps[j].suit != s
  {
    if reps == [] then 0
    else if reps[0].suit == s then 0
    else 1 + SuitSlot(reps[1..], s)
  }

  /** One step of the suit pass: a new suit is appended; a lower card replaces its suit's entry in place. */
  function KeepLowest(reps: seq<Card>, c: Card): seq<Card>
  {
    var k := SuitSlot(reps, c.suit);
    if k == |reps| then reps + [c]
    else if CardValue(c.rank) < CardValue(reps[k].rank) then reps[k := c]
    else reps
  }

  /** The suit pass: one card per suit, the lowest-ranked (the first of equal ones),
      listed in order of each suit's first appearance. */
  function SuitReps(cards: seq<Card>): seq<Card>
  {
    if cards == [] then []
    else KeepLowest(SuitReps(cards[..|cards| - 1]), cards[|cards| - 1])
  }

  /** What the suit pass guarantees about its entries `r` for the cards seen so far. */
  ghost predicate SuitPassed(r: seq<Card>, cards: seq<Card>)
  {
    DistinctSuits(r) && RepsFrom(r, cards) && RepsCover(r, cards) && RepsLowest(r, cards)
  }

  ghost predicate RepsFrom(r: seq<Card>, cards: seq<Card>)
  {
    forall x :: x in r ==> x in cards
  }

  /** Every suit of the hand has an entry. */
  ghost predicate RepsCover(r: seq<Card>, cards: seq<Card>)
  {
    forall c :: c in cards ==> exists k :: 0 <= k < |r| && r[k].suit == c.suit
  }

  /** Each entry is no higher than any card of its suit. */
  ghost predicate RepsLowest(r: seq<Card>, cards: seq<Card>)
  {
    forall c, k :: c in cards && 0 <= k < |r| && r[k].suit == c.suit ==> CardValue(r[k].rank) <= CardValue(c.rank)
  }

  lemma KeepLowestNewSuit(prev: seq<Card>, init: seq<Card>, c: Card)
    requires SuitPassed(prev, init)
    requires SuitSlot(prev, c.suit) == |prev|
    ensures SuitPassed(prev + [c], init + [c])
  {
    var cards := init + [c];
    var r := prev + [c];
    assert forall d :: d in cards ==> d in init || d == c;
    assert forall j :: 0 <= j < |prev| ==> r[j] == prev[j];
    assert r[|prev|] == c;
    forall d | d in init ensures d.suit != c.suit {
      var j :| 0 <= j < |prev| && prev[j].suit == d.suit;
    }
    assert DistinctSuits(r);
    assert RepsFrom(r, cards);
    forall d | d in cards ensures exists j :: 0 <= j < |r| && r[j].suit == d.suit {
      if d == c {
        assert r[|prev|].suit == d.suit;
      } else {
        var j :| 0 <= j < |prev| && prev[j].suit == d.suit;
        assert r[j].suit == d.suit;
      }
    }
    forall d, j | d in cards && 0 <= j < |r| && r[j].suit == d.suit
      ensures CardValue(r[j].rank) <= CardValue(d.rank)
    {
      if j < |prev| {
        assert d != c;
      } else {
        assert d !in init;
      }
    }
  }

  lemma KeepLowestReplace(prev: seq<Card>, init: seq<Card>, c: Card, k: nat)
    requires SuitPassed(prev, init)
    requires k < |prev| && prev[k].suit == c.suit
    requires CardValue(c.rank) < CardValue(prev[k].rank)
    ensures SuitPassed(prev[k := c], init + [c])
  {
    var cards := init + [c];
    var r := prev[k := c];
    assert forall d :: d in cards ==> d in init || d == c;
    assert forall j :: 0 <= j < |r| ==> r[j].suit == prev[j].suit;
    assert DistinctSuits(r);
    forall d | d in cards ensures exists j :: 0 <= j < |r| && r[j].suit == d.suit {
      if d == c {
        assert r[k].suit == d.suit;
      } else {
        var j :| 0 <= j < |prev| && prev[j].suit == d.suit;
        assert r[j].suit == d.suit;
      }
    }
    forall x | x in r ensures x in cards {
      var j :| 0 <= j < |r| && r[j] == x;
      if j != k {
        assert prev[j] == x;
      }
    }
    forall d, j | d in cards && 0 <= j < |r| && r[j].suit == d.suit
      ensures CardValue(r[j].rank) <= CardValue(d.rank)
    {
      if j == k {
        if d != c {
          assert CardValue(prev[k].rank) <= CardValue(d.rank);
        }
      } else {
        assert d != c;
        assert r[j] == prev[j];
      }
    }
  }

  lemma KeepLowestKeep(prev: seq<Card>, init: seq<Card>, c: Card, k: nat)
    requires SuitPassed(prev, init)
    requires k < |prev| && prev[k].suit == c.suit
    requires CardValue(prev[k].rank) <= CardValue(c.rank)
    ensures SuitPassed(prev, init + [c])
  {
    assert forall d :: d in init + [c] <==> d in init || d == c;
  }

  lemma KeepLowestStep(prev: seq<Card>, init: seq<Card>, c: Card)
    requires SuitPassed(prev, init)
    ensures SuitPassed(KeepLowest(prev, c), init + [c])
  {
    var k := SuitSlot(prev, c.suit);
    if k == |prev| {
      KeepLowestNewSuit(prev, init, c);
    } else if CardValue(c.rank) < CardValue(prev[k].rank) {
      KeepLowestReplace(prev, init, c, k);
    } else {
      KeepLowestKeep(prev, init, c, k);
    }
  }

  lemma {:induction false} SuitRepsPassed(cards: seq<Card>)
    ensures SuitPassed(SuitReps(cards), cards)
    decreases |cards|
  {
    if cards != [] {
      var init := cards[..|cards| - 1];
      assert cards == init + [cards[|cards| - 1]];
      SuitRepsPassed(init);
      KeepLowestStep(SuitReps(init), init, cards[|cards| - 1]);
    }
  }

  /** The rank pass: keeps an entry unless an earlier kept entry has its rank. */
  function RankFilter(reps: seq<Card>): seq<Card>
  {
    if reps == [] then []
    else
      var prev := RankFilter(reps[..|reps| - 1]);
      var c := reps[|reps| - 1];
      if exists x :: x in prev && x.rank == c.rank then prev else prev + [c]
  }

  /** What the rank pass guarantees about its output `r` for the entries seen so far. */
  ghost predicate RankPassed(r: seq<Card>, reps: seq<Card>)
  {
    && DistinctRanks(r)
    && (forall x :: x in r ==> x in reps)
    && (forall x :: x in reps ==> exists k :: 0 <= k < |r| && r[k].rank == x.rank)
    && (DistinctSuits(reps) ==> DistinctSuits(r))
  }

  lemma RankFilterSkip(prev: seq<Card>, init: seq<Card>, c: Card)
    requires RankPassed(prev, init)
    requires exists x :: x in prev && x.rank == c.rank
    ensures RankPassed(prev, init + [c])
  {
    var reps := init + [c];
    assert forall d :: d in reps <==> d in init || d == c;
    var x :| x in prev && x.rank == c.rank;
    var k :| 0 <= k < |prev| && prev[k] == x;
    assert forall d :: d in reps ==> exists j :: 0 <= j < |prev| && prev[j].rank == d.rank;
    if DistinctSuits(reps) {
      assert DistinctSuits(init) by {
        forall i, j | 0 <= i < j < |init| ensures init[i].suit != init[j].suit {
          assert reps[i] == init[i] && reps[j] == init[j];
        }
      }
    }
  }

  lemma RankFilterAppend(prev: seq<Card>, init: seq<Card>, c: Card)
    requires RankPassed(prev, init)
    requires !exists x :: x in prev && x.rank == c.rank
    ensures RankPassed(prev + [c], init + [c])
  {
    var reps := init + [c];
    var r := prev + [c];
    assert forall d :: d in reps <==> d in init || d == c;
    assert DistinctRanks(r);
    forall d | d in reps ensures exists j :: 0 <= j < |r| && r[j].rank == d.rank {
      if d == c {
        assert r[|prev|].rank == d.rank;
      } else {
        var j :| 0 <= j < |prev| && prev[j].rank == d.rank;
        assert r[j].rank == d.rank;
      }
    }
    if DistinctSuits(reps) {
      assert DistinctSuits(init) by {
        forall i, j | 0 <= i < j < |init| ensures init[i].suit != init[j].suit {
          assert reps[i] == init[i] && reps[j] == init[j];
        }
      }
      forall x | x in prev ensures x.suit != c.suit {
        var i :| 0 <= i < |init| && init[i] == x;
        assert reps[i] == x && reps[|init|] == c;
      }
      assert DistinctSuits(r);
    }
  }

  lemma {:induction false} RankFilterPassed(reps: seq<Card>)
    ensures RankPassed(RankFilter(reps), reps)
    decreases |reps|
  {
    if reps != [] {
      var init := reps[..|reps| - 1];
      var c := reps[|reps| - 1];
      assert reps == init + [c];
      RankFilterPassed(init);
      if exists x :: x in RankFilter(init) && x.rank == c.rank {
        RankFilterSkip(RankFilter(init), init, c);
      } else {
        RankFilterAppend(RankFilter(init), init, c);
      }
    }
  }

  lemma RankFilterShorter(reps: seq<Card>)
    ensures |RankFilter(reps)| <= |reps|
  {
  }

  /** Sorting keeps the cards pairwise distinct in suit and rank. */
  lemma {:induction false} InsertKeepsDistinct(c: Card, xs: seq<Card>, descending: bool)
    requires PairwiseDistinct(xs)
    requires forall y :: y in xs ==> y.suit != c.suit && y.rank != c.rank
    ensures PairwiseDistinct(Insert(c, xs, descending))
  {
    if xs == [] || Key(c, descending) <= Key(xs[0], descending) {
      ConsDistinct(c, xs);
    } else {
      var tail := xs[1..];
      TailDistinct(xs);
      InsertKeepsDistinct(c, tail, descending);
      var rest := Insert(c, tail, descending);
      InsertMembers(c, tail, descending);
      assert xs[0] in xs;
      ConsDistinct(xs[0], rest);
    }
  }

  /** Insert adds c and nothing else. */
  lemma {:induction false} InsertMembers(c: Card, xs: seq<Card>, descending: bool)
    ensures forall y :: y in Insert(c, xs, descending) ==> y == c || y in xs
  {
    if !(xs == [] || Key(c, descending) <= Key(xs[0], descending)) {
      InsertMembers(c, xs[1..], descending);
      assert forall y :: y in xs[1..] ==> y in xs;
    }
  }

  /** A card clashing with nothing in a pairwise-distinct sequence can go in front of it. */
  lemma ConsDistinct(h: Card, t: seq<Card>)
    requires PairwiseDistinct(t)
    requires forall y :: y in t ==> y.suit != h.suit && y.rank != h.rank
    ensures PairwiseDistinct([h] + t)
  {
    var r := [h] + t;
    forall i, j | 0 <= i < j < |r| ensures r[i].suit != r[j].suit && r[i].rank != r[j].rank {
      assert r[j] == t[j - 1];
      if i > 0 {
        assert r[i] == t[i - 1];
      }
    }
  }

  /** The tail of a pairwise-distinct sequence is pairwise distinct and clashes nowhere with the head. */
  lemma TailDistinct(xs: seq<Card>)
    requires PairwiseDistinct(xs) && xs != []
    ensures PairwiseDistinct(xs[1..])
    ensures forall y :: y in xs[1..] ==> y.suit != xs[0].suit && y.rank != xs[0].rank
  {
    forall y | y in xs[1..] ensures y.suit != xs[0].suit && y.rank != xs[0].rank {
      var i :| 0 <= i < |xs[1..]| && xs[1..][i] == y;
      assert xs[i + 1] == y;
    }
  }

  lemma {:induction false} SortKeepsDistinct(xs: seq<Card>, descending: bool)
    requires PairwiseDistinct(xs)
    ensures PairwiseDistinct(SortByValue(xs, descending))
  {
    if xs != [] {
      assert xs == [xs[0]] + xs[1..];
      SortKeepsDistinct(xs[1..], descending);
      var rest := SortByValue(xs[1..], descending);
      SortProps(xs[1..], descending);
      SameElements(rest, xs[1..]);
      forall y | y in rest ensures y.suit != xs[0].suit && y.rank != xs[0].rank {
        var i :| 0 <= i < |xs[1..]| && xs[1..][i] == y;
        assert xs[i + 1] == y;
      }
      InsertKeepsDistinct(xs[0], rest, descending);
    }
  }

  /** The cards that survive both passes, ascending by value. */
  function Survivors(cards: seq<Card>): seq<Card>
  {
    SortByValue(RankFilter(SuitReps(cards)), false)
  }

  /** The survivors are drawn from the hand, pairwise distinct in suit and rank, at most four, and sorted. */
  lemma SurvivorsProps(cards: seq<Card>)
    ensures PairwiseDistinct(Survivors(cards))
    ensures |Survivors(cards)| <= 4
    ensures forall x :: x in Survivors(cards) ==> x in cards
    ensures SortedBy(Survivors(cards), false)
  {
    var reps := SuitReps(cards);
    SuitRepsPassed(cards);
    var passed := RankFilter(reps);
    RankFilterPassed(reps);
    assert PairwiseDistinct(passed);
    SortKeepsDistinct(passed, false);
    var r := SortByValue(passed, false);
    SortProps(passed, false);
    SameElements(r, passed);
    DistinctSuitsAtMostFour(r);
  }

  /** Names the category by the number of surviving cards and keeps at most four (or one). */
  function Classify(sorted: seq<Card>): (HandRank, seq<Card>)
  {
    if |sorted| >= 4 then (Badugi, sorted[..4])
    else if |sorted| == 3 then (ThreeCard, sorted)
    else if |sorted| == 2 then (TwoCard, sorted)
    else (OneCard, sorted[..if |sorted| >= 1 then 1 else 0])
  }

  const MULTIPLIERS: seq<int> := [1000000, 10000, 100, 1]

  /** The weighted card part of the comparison value. */
  function CardsPart(cards: seq<Card>): (v: int)
    requires |cards| <= 4
    ensures 0 <= v <= 13 * PartialWeight(|cards|)
  {
    if cards == [] then 0
    else CardsPart(cards[..|cards| - 1]) + CardValue(cards[|cards| - 1].rank) * MULTIPLIERS[|cards| - 1]
  }

  /** Sum of the first n multipliers. */
  function PartialWeight(n: nat): int
    requires n <= 4
  {
    if n == 0 then 0 else PartialWeight(n - 1) + MULTIPLIERS[n - 1]
  }

  /** The comparison value: category base times 10^8 plus the card part. */
  function HandValue(rank: HandRank, cards: seq<Card>): int
    requires |cards| <= 4
  {
    HandRanking(rank) * 100000000 + CardsPart(cards)
  }

  /** What evaluateHand returns for `cards`. */
  function HandOf(cards: seq<Card>): (h: HandResult)
    ensures |h.cards| <= 4
    ensures h.rank == Badugi <==> |h.cards| == 4
  {
    SurvivorsProps(cards);
    var (rank, chosen) := Classify(Survivors(cards));
    HandResult(rank, chosen, HandValue(rank, chosen))
  }

  /** Accumulates the card part the way calculateHandValue does. */
  method CalculateHandValue(rank: HandRank, cards: seq<Card>) returns (value: int)
    requires |cards| <= 4
    ensures value == HandValue(rank, cards)
    ensures value / 100000000 == HandRanking(rank)
    ensures value % 100000000 == CardsPart(cards)
  {
    var baseValue := HandRanking(rank) * 100000000;
    var cardValue := 0;
    var multipliers := MULTIPLIERS;
    for i := 0 to |cards|
      invariant cardValue == CardsPart(cards[..i])
    {
      assert cards[..i + 1][..i] == cards[..i];
      cardValue := cardValue + CardValue(cards[i].rank) * multipliers[i];
    }
    assert cards[..|cards|] == cards;
    value := baseValue + cardValue;
  }

  /** The suit map of evaluateHand, as a map plus its key insertion order, stands for the list of entries. */
  ghost predicate MapMatches(m: map<Suit, Card>, order: seq<Suit>, reps: seq<Card>)
  {
    && |order| == |reps|
    && (forall k :: 0 <= k < |order| ==> order[k] == reps[k].suit && order[k] in m && m[order[k]] == reps[k])
    && (forall s :: s in m ==> s in order)
  }

  /** The suit pass never holds two entries of one suit. */
  lemma SuitRepsDistinct(cards: seq<Card>)
    ensures DistinctSuits(SuitReps(cards))
  {
    SuitRepsPassed(cards);
  }

  /** Map.set on a new key appends it to the iteration order; on a present key it keeps its place. */
  lemma MapSetStep(m: map<Suit, Card>, order: seq<Suit>, prev: seq<Card>, card: Card)
    requires MapMatches(m, order, prev) && DistinctSuits(prev)
    ensures var update := card.suit !in m || CardValue(card.rank) < CardValue(m[card.suit].rank);
            var order' := if card.suit !in m then order + [card.suit] else order;
            var m' := if update then m[card.suit := card] else m;
            MapMatches(m', order', KeepLowest(prev, card))
  {
    if card.suit in m {
      var k :| 0 <= k < |order| && order[k] == card.suit;
      SlotOfPresentSuit(prev, card.suit, k);
      if CardValue(card.rank) < CardValue(m[card.suit].rank) {
        MapSetReplace(m, order, prev, card, k);
      }
    } else {
      MapSetNew(m, order, prev, card);
    }
  }

  /** In entries of distinct suits, the slot of a suit held at position k is k. */
  lemma SlotOfPresentSuit(prev: seq<Card>, s: Suit, k: nat)
    requires DistinctSuits(prev) && k < |prev| && prev[k].suit == s
    ensures SuitSlot(prev, s) == k
  {
  }

  /** A suit not yet in the map is appended, at the end of the order and of the entries. */
  lemma MapSetNew(m: map<Suit, Card>, order: seq<Suit>, prev: seq<Card>, card: Card)
    requires MapMatches(m, order, prev) && card.suit !in m
    ensures SuitSlot(prev, card.suit) == |prev|
    ensures MapMatches(m[card.suit := card], order + [card.suit], prev + [card])
  {
    assert forall k :: 0 <= k < |prev| ==> prev[k].suit != card.suit;
    forall k | 0 <= k < |order| + 1
      ensures (order + [card.suit])[k] == (prev + [card])[k].suit
      ensures (order + [card.suit])[k] in m[card.suit := card]
      ensures m[card.suit := card][(order + [card.suit])[k]] == (prev + [card])[k]
    {
    }
  }

  /** A lower card of a suit already present takes its entry's place. */
  lemma MapSetReplace(m: map<Suit, Card>, order: seq<Suit>, prev: seq<Card>, card: Card, k: nat)
    requires MapMatches(m, order, prev) && DistinctSuits(prev)
    requires k < |order| && order[k] == card.suit
    ensures MapMatches(m[card.suit := card], order, prev[k := card])
  {
    var m', r := m[card.suit := card], prev[k := card];
    forall j | 0 <= j < |order| ensures order[j] == r[j].suit && order[j] in m' && m'[order[j]] == r[j] {
      if j != k {
        assert prev[j].suit != prev[k].suit;
        assert order[j] != card.suit;
      }
    }
  }

  /** One step of the suit pass over `cards[i]`. */
  lemma SuitMapStep(m: map<Suit, Card>, order: seq<Suit>, cards: seq<Card>, i: nat)
    requires i < |cards|
    requires MapMatches(m, order, SuitReps(cards[..i]))
    ensures var card := cards[i];
            var update := card.suit !in m || CardValue(card.rank) < CardValue(m[card.suit].rank);
            var order' := if card.suit !in m then order + [card.suit] else order;
            var m' := if update then m[card.suit := card] else m;
            MapMatches(m', order', SuitReps(cards[..i + 1]))
  {
    SuitRepsDistinct(cards[..i]);
    assert cards[..i + 1][..i] == cards[..i];
    MapSetStep(m, order, SuitReps(cards[..i]), cards[i]);
  }

  /** The rank pass over the map's entries: a card is kept when its rank is not yet used. */
  /** The k-th key of the insertion order looks up the k-th entry. */
  lemma MapEntry(m: map<Suit, Card>, order: seq<Suit>, reps: seq<Card>, k: nat)
    requires MapMatches(m, order, reps) && k < |order|
    ensures k < |reps| && order[k] in m && m[order[k]] == reps[k]
  {
  }

  /** The usedRanks set of the rank pass. */
  ghost function RanksOf(cs: seq<Card>): set<Rank>
  {
    set c | c in cs :: c.rank
  }

  lemma RankStep(valid: seq<Card>, used: set<Rank>, reps: seq<Card>, k: nat)
    requires k < |reps|
    requires valid == RankFilter(reps[..k])
    requires used == RanksOf(valid)
    ensures var card := reps[k];
            var valid' := if card.rank !in used then valid + [card] else valid;
            valid' == RankFilter(reps[..k + 1]) && RanksOf(valid') == used + (if card.rank !in used then {card.rank} else {})
  {
    assert reps[..k + 1][..k] == reps[..k];
    var card := reps[k];
    assert card.rank in used <==> exists x :: x in valid && x.rank == card.rank;
  }

  /** The first pass of evaluateHand: a Map from suit to the lowest card of that suit seen so far. */
  method SuitPass(cards: seq<Card>) returns (suitMap: map<Suit, Card>, order: seq<Suit>)
    ensures MapMatches(suitMap, order, SuitReps(cards))
  {
    suitMap, order := map[], [];
    for i := 0 to |cards|
      invariant MapMatches(suitMap, order, SuitReps(cards[..i]))
    {
      var card := cards[i];
      SuitMapStep(suitMap, order, cards, i);
      if card.suit !in suitMap || CardValue(card.rank) < CardValue(suitMap[card.suit].rank) {
        if card.suit !in suitMap {
          order := order + [card.suit];
        }
        suitMap := suitMap[card.suit := card];
      }
    }
    assert cards[..|cards|] == cards;
  }

  /** The second pass of evaluateHand: walks the Map's entries in insertion order and keeps a card when its rank is unused. */
  method RankPass(suitMap: map<Suit, Card>, order: seq<Suit>, ghost reps: seq<Card>) returns (validCards: seq<Card>)
    requires MapMatches(suitMap, order, reps)
    ensures validCards == RankFilter(reps)
  {
    assert |order| == |reps|;
    validCards := [];
    var usedRanks: set<Rank> := {};
    for k := 0 to |order|
      invariant validCards == RankFilter(reps[..k])
      invariant usedRanks == RanksOf(validCards)
    {
      MapEntry(suitMap, order, reps, k);
      var card := suitMap[order[k]];
      RankStep(validCards, usedRanks, reps, k);
      if card.rank !in usedRanks {
        validCards := validCards + [card];
        usedRanks := usedRanks + {card.rank};
      }
    }
    assert reps[..|order|] == reps;
  }

  /** evaluateHand: suit pass, rank pass, ascending sort, classification by count, comparison value. */
  method EvaluateHand(cards: seq<Card>) returns (result: HandResult)
    ensures result == HandOf(cards)
  {
    var suitMap, order := SuitPass(cards);
    var validCards := RankPass(suitMap, order, SuitReps(cards));
    validCards := SortByValue(validCards, false);
    SurvivorsProps(cards);
    var rank: HandRank;
    var resultCards: seq<Card>;
    if |validCards| >= 4 {
      rank, resultCards := Badugi, validCards[..4];
    } else if |validCards| == 3 {
      rank, resultCards := ThreeCard, validCards;
    } else if |validCards| == 2 {
      rank, resultCards := TwoCard, validCards;
    } else {
      rank, resultCards := OneCard, validCards[..if |validCards| >= 1 then 1 else 0];
    }
    var value := CalculateHandValue(rank, resultCards);
    result := HandResult(rank, resultCards, value);
  }

  // ---------------------------------------------------------------------------
  // Properties of the evaluator
  // ---------------------------------------------------------------------------

  /** With distinct suits the suit pass keeps every card, in order. */
  lemma {:induction false} SuitRepsOfDistinct(cards: seq<Card>)
    requires DistinctSuits(cards)
    ensures SuitReps(cards) == cards
    decreases |cards|
  {
    if cards != [] {
      var init := cards[..|cards| - 1];
      var c := cards[|cards| - 1];
      InitSuitsDistinct(cards);
      SuitRepsOfDistinct(init);
      assert SuitReps(cards) == KeepLowest(init, c);
      var k := SuitSlot(init, c.suit);
      if k < |init| {
        assert false;
      }
      assert cards == init + [c];
    }
  }

  /** Dropping the last card keeps the suits distinct, and the last card's suit is new. */
  lemma InitSuitsDistinct(cards: seq<Card>)
    requires DistinctSuits(cards) && cards != []
    ensures DistinctSuits(cards[..|cards| - 1])
    ensures forall j :: 0 <= j < |cards| - 1 ==> cards[j].suit != cards[|cards| - 1].suit
  {
  }

  /** With distinct ranks the rank pass keeps every entry, in order. */
  lemma {:induction false} RankFilterOfDistinct(reps: seq<Card>)
    requires DistinctRanks(reps)
    ensures RankFilter(reps) == reps
    decreases |reps|
  {
    if reps != [] {
      var init := reps[..|reps| - 1];
      var c := reps[|reps| - 1];
      assert DistinctRanks(init) by {
        forall i, j | 0 <= i < j < |init| ensures init[i].rank != init[j].rank {
          assert init[i] == reps[i] && init[j] == reps[j];
        }
      }
      RankFilterOfDistinct(init);
      forall x | x in init ensures x.rank != c.rank {
        var j :| 0 <= j < |init| && init[j] == x;
        assert reps[j] == x;
      }
      assert reps == init + [c];
    }
  }

  /** evaluateHand keeps exactly the survivors of both passes, and names the category by their number. */
  lemma HandOfShape(cards: seq<Card>)
    ensures HandOf(cards).cards == Survivors(cards)
    ensures HandOf(cards).rank == Badugi <==> |Survivors(cards)| == 4
    ensures HandOf(cards).rank == ThreeCard <==> |Survivors(cards)| == 3
    ensures HandOf(cards).rank == TwoCard <==> |Survivors(cards)| == 2
    ensures HandOf(cards).rank == OneCard <==> |Survivors(cards)| <= 1
    ensures HandOf(cards).value == HandValue(HandOf(cards).rank, HandOf(cards).cards)
  {
    SurvivorsProps(cards);
    var s := Survivors(cards);
    if |s| == 4 {
      assert s[..4] == s;
    } else if |s| == 1 {
      assert s[..1] == s;
    }
  }

  /** The selected cards come from the hand, share no suit and no rank, and are strictly ascending in value. */
  lemma HandOfSelected(cards: seq<Card>)
    ensures |HandOf(cards).cards| <= 4
    ensures forall x :: x in HandOf(cards).cards ==> x in cards
    ensures PairwiseDistinct(HandOf(cards).cards)
    ensures forall i, j :: 0 <= i < j < |HandOf(cards).cards| ==>
              CardValue(HandOf(cards).cards[i].rank) < CardValue(HandOf(cards).cards[j].rank)
  {
    HandOfShape(cards);
    SurvivorsProps(cards);
    var s := Survivors(cards);
    forall i, j | 0 <= i < j < |s| ensures CardValue(s[i].rank) < CardValue(s[j].rank) {
      SortedPairwise(s, false, i, j);
      RankTable();
    }
  }

  /** Each selected card is the lowest card of its suit in the hand. */
  lemma HandOfLowest(cards: seq<Card>)
    ensures forall x, c :: x in HandOf(cards).cards && c in cards && c.suit == x.suit ==> CardValue(x.rank) <= CardValue(c.rank)
  {
    HandOfShape(cards);
    SurvivorsAreReps(cards);
    RepsAreLowest(cards);
  }

  lemma SurvivorsAreReps(cards: seq<Card>)
    ensures forall x :: x in Survivors(cards) ==> x in SuitReps(cards)
  {
    var reps := SuitReps(cards);
    RankFilterPassed(reps);
    SortProps(RankFilter(reps), false);
    SameElements(Survivors(cards), RankFilter(reps));
  }

  lemma RepsAreLowest(cards: seq<Card>)
    ensures forall x, c :: x in SuitReps(cards) && c in cards && c.suit == x.suit ==> CardValue(x.rank) <= CardValue(c.rank)
  {
    var reps := SuitReps(cards);
    SuitRepsPassed(cards);
    forall x, c | x in reps && c in cards && c.suit == x.suit ensures CardValue(x.rank) <= CardValue(c.rank) {
      var k :| 0 <= k < |reps| && reps[k] == x;
      assert RepsLowest(reps, cards);
    }
  }

  /** A hand of cards with distinct suits and ranks keeps all of them, sorted ascending. */
  lemma DistinctHandKeepsAll(cards: seq<Card>)
    requires PairwiseDistinct(cards)
    ensures Survivors(cards) == SortByValue(cards, false)
  {
    SuitRepsOfDistinct(cards);
    RankFilterOfDistinct(cards);
  }

  /** A four-card hand of distinct suits and distinct ranks is a badugi of all four cards. */
  lemma FourDistinctIsBadugi(cards: seq<Card>)
    requires |cards| == 4 && PairwiseDistinct(cards)
    ensures HandOf(cards).rank == Badugi
    ensures multiset(HandOf(cards).cards) == multiset(cards)
  {
    DistinctHandKeepsAll(cards);
    HandOfShape(cards);
    SortProps(cards, false);
  }

  lemma {:induction false} SeqSetSize(s: seq<Card>)
    ensures |set x | x in s| <= |s|
    decreases |s|
  {
    if s != [] {
      var init := s[..|s| - 1];
      SeqSetSize(init);
      assert (set x | x in s) == (set x | x in init) + {s[|s| - 1]};
    }
  }

  lemma {:induction false} DistinctSeqSetSize(s: seq<Card>)
    requires forall i, j :: 0 <= i < j < |s| ==> s[i] != s[j]
    ensures |set x | x in s| == |s|
    decreases |s|
  {
    if s != [] {
      var init := s[..|s| - 1];
      assert forall i, j :: 0 <= i < j < |init| ==> init[i] != init[j] by {
        forall i, j | 0 <= i < j < |init| ensures init[i] != init[j] {
          assert init[i] == s[i] && init[j] == s[j];
        }
      }
      DistinctSeqSetSize(init);
      assert (set x | x in s) == (set x | x in init) + {s[|s| - 1]};
      forall x | x in init ensures x != s[|s| - 1] {
        var j :| 0 <= j < |init| && init[j] == x;
        assert s[j] == x;
      }
    }
  }

  lemma DuplicateSetSize(s: seq<Card>, i: nat, j: nat)
    requires i < j < |s| && s[i] == s[j]
    ensures |set x | x in s| < |s|
  {
    var t := s[..j] + s[j + 1..];
    assert s == s[..j] + [s[j]] + s[j + 1..];
    assert t[i] == s[i];
    assert (set x | x in s) == (set x | x in t);
    SeqSetSize(t);
  }

  lemma SubsetSize(a: set<Card>, b: set<Card>)
    requires a <= b
    ensures |a| <= |b|
  {
    assert b == a + (b - a);
  }

  /** Conversely, a four-card hand that evaluates to badugi has distinct suits and distinct ranks. */
  lemma BadugiOfFourIsDistinct(cards: seq<Card>)
    requires |cards| == 4 && HandOf(cards).rank == Badugi
    ensures PairwiseDistinct(cards)
  {
    HandOfShape(cards);
    HandOfSelected(cards);
    var s := Survivors(cards);
    assert forall i, j :: 0 <= i < j < |s| ==> s[i] != s[j];
    DistinctSeqSetSize(s);
    var S := set x | x in s;
    var C := set x | x in cards;
    SubsetSize(S, C);
    SeqSetSize(cards);
    forall i, j | 0 <= i < j < |cards| ensures cards[i].suit != cards[j].suit && cards[i].rank != cards[j].rank {
      assert cards[i] != cards[j] by {
        if cards[i] == cards[j] {
          DuplicateSetSize(cards, i, j);
        }
      }
      assert cards[i] in S by {
        if cards[i] !in S {
          SubsetSize(S, C - {cards[i]});
        }
      }
      assert cards[j] in S by {
        if cards[j] !in S {
          SubsetSize(S, C - {cards[j]});
        }
      }
      var a :| 0 <= a < |s| && s[a] == cards[i];
      var b :| 0 <= b < |s| && s[b] == cards[j];
      assert a != b;
      if a < b {
        assert s[a].suit != s[b].suit && s[a].rank != s[b].rank;
      } else {
        assert s[b].suit != s[a].suit && s[b].rank != s[a].rank;
      }
    }
  }

  /** The card part stays below 10^8, so the category is the quotient and the cards the remainder. */
  lemma HandValueSplit(rank: HandRank, cards: seq<Card>)
    requires |cards| <= 4
    ensures HandValue(rank, cards) / 100000000 == HandRanking(rank)
    ensures HandValue(rank, cards) % 100000000 == CardsPart(cards)
  {
    var w := PartialWeight(|cards|);
    assert w <= 1010101 by {
      assert PartialWeight(0) == 0 && PartialWeight(1) == 1000000 && PartialWeight(2) == 1010000;
      assert PartialWeight(3) == 1010100 && PartialWeight(4) == 1010101;
    }
  }

  /** A better category always gives a lower value: badugi beats three-card beats two-card beats one-card. */
  lemma CategoryDominates(x: seq<Card>, y: seq<Card>)
    requires HandRanking(HandOf(x).rank) < HandRanking(HandOf(y).rank)
    ensures HandOf(x).value < HandOf(y).value
    ensures CompareHands(HandOf(x), HandOf(y)) < 0
  {
    HandOfShape(x);
    HandOfShape(y);
    HandOfSelected(x);
    HandOfSelected(y);
    HandValueSplit(HandOf(x).rank, HandOf(x).cards);
    HandValueSplit(HandOf(y).rank, HandOf(y).cards);
  }

  /** The rank pass on one more entry. */
  lemma RankFilterSnoc(reps: seq<Card>, c: Card)
    ensures RankFilter(reps + [c]) ==
            if exists x :: x in RankFilter(reps) && x.rank == c.rank then RankFilter(reps) else RankFilter(reps) + [c]
  {
    assert (reps + [c])[..|reps|] == reps;
  }

  /** Entries whose first two share a rank and whose other ranks are new: the rank pass drops the second. */
  lemma PairedFirstTwoRankFilter(w: Card, x: Card, y: Card, z: Card)
    requires w.rank == x.rank && y.rank != w.rank && z.rank != w.rank && z.rank != y.rank
    ensures RankFilter([w, x, y, z]) == [w, y, z]
  {
    RankFilterPair(w, x);
    RankFilterThird(w, x, y);
    RankFilterFourth(w, x, y, z);
  }

  lemma RankFilterPair(w: Card, x: Card)
    requires w.rank == x.rank
    ensures RankFilter([w, x]) == [w]
  {
    assert RankFilter([w]) == [w] by {
      RankFilterSnoc([], w);
      assert [] + [w] == [w];
    }
    RankFilterSnoc([w], x);
    assert [w] + [x] == [w, x];
    assert w in RankFilter([w]);
  }

  lemma RankFilterThird(w: Card, x: Card, y: Card)
    requires RankFilter([w, x]) == [w] && y.rank != w.rank
    ensures RankFilter([w, x, y]) == [w, y]
  {
    RankFilterSnoc([w, x], y);
    assert [w, x] + [y] == [w, x, y];
  }

  lemma RankFilterFourth(w: Card, x: Card, y: Card, z: Card)
    requires RankFilter([w, x, y]) == [w, y] && z.rank != w.rank && z.rank != y.rank
    ensures RankFilter([w, x, y, z]) == [w, y, z]
  {
    RankFilterSnoc([w, x, y], z);
    assert [w, x, y] + [z] == [w, x, y, z];
  }

  /** Three cards already ascending in value stay as they are. */
  lemma AscendingThreeSorted(w: Card, y: Card, z: Card)
    requires CardValue(w.rank) <= CardValue(y.rank) <= CardValue(z.rank)
    ensures SortByValue([w, y, z], false) == [w, y, z]
  {
    assert [w, y, z][1..] == [y, z] && [y, z][1..] == [z] && [z][1..] == [];
    assert SortByValue([z], false) == [z];
    assert SortByValue([y, z], false) == Insert(y, [z], false) == [y, z];
    assert SortByValue([w, y, z], false) == Insert(w, [y, z], false);
    assert Insert(w, [y, z], false) == [w] + [y, z];
  }

  /** Four cards of distinct suits whose first two share a rank and whose values otherwise ascend:
      the second card is dropped. This is the shape of {A spades, A hearts, 3 diamonds, 7 clubs}. */
  lemma PairedFirstTwoSurvivors(w: Card, x: Card, y: Card, z: Card)
    requires DistinctSuits([w, x, y, z])
    requires w.rank == x.rank && CardValue(w.rank) < CardValue(y.rank) < CardValue(z.rank)
    ensures Survivors([w, x, y, z]) == [w, y, z]
  {
    SuitRepsOfDistinct([w, x, y, z]);
    PairedFirstTwoRankFilter(w, x, y, z);
    AscendingThreeSorted(w, y, z);
  }

  /** A badugi of 2, 5, 9, K beats the three-card hand that {A, A, 3, 7} in four suits reduces to
      (A, 3, 7), although its ranks are higher: the category decides first. Ids play no part. */
  lemma BadugiBeatsLowThreeCard(first: seq<Card>, second: seq<Card>)
    requires |first| == 4 && |second| == 4
    requires first[0].suit == Spades && first[1].suit == Hearts && first[2].suit == Diamonds && first[3].suit == Clubs
    requires first[0].rank == Two && first[1].rank == Five && first[2].rank == Nine && first[3].rank == King
    requires second[0].suit == Spades && second[1].suit == Hearts && second[2].suit == Diamonds && second[3].suit == Clubs
    requires second[0].rank == Ace && second[1].rank == Ace && second[2].rank == Three && second[3].rank == Seven
    ensures HandOf(first).rank == Badugi
    ensures HandOf(second).rank == ThreeCard && HandOf(second).cards == [second[0], second[2], second[3]]
    ensures CompareHands(HandOf(first), HandOf(second)) < 0
  {
    TwoFiveNineKingIsBadugi(first);
    AceAceThreeSevenIsThreeCard(second);
    CategoryDominates(first, second);
  }

  lemma TwoFiveNineKingIsBadugi(first: seq<Card>)
    requires |first| == 4
    requires first[0].suit == Spades && first[1].suit == Hearts && first[2].suit == Diamonds && first[3].suit == Clubs
    requires first[0].rank == Two && first[1].rank == Five && first[2].rank == Nine && first[3].rank == King
    ensures HandOf(first).rank == Badugi
  {
    assert PairwiseDistinct(first);
    FourDistinctIsBadugi(first);
  }

  lemma AceAceThreeSevenIsThreeCard(second: seq<Card>)
    requires |second| == 4
    requires second[0].suit == Spades && second[1].suit == Hearts && second[2].suit == Diamonds && second[3].suit == Clubs
    requires second[0].rank == Ace && second[1].rank == Ace && second[2].rank == Three && second[3].rank == Seven
    ensures HandOf(second).rank == ThreeCard && HandOf(second).cards == [second[0], second[2], second[3]]
  {
    assert second == [second[0], second[1], second[2], second[3]];
    PairedFirstTwoSurvivors(second[0], second[1], second[2], second[3]);
    HandOfShape(second);
  }

  // ---------------------------------------------------------------------------
  // Comparison and validity
  // ---------------------------------------------------------------------------

  /** compareHands: negative when the first hand is better, zero on a tie, positive when the second is better. */
  function CompareHands(a: HandResult, b: HandResult): (d: int)
    ensures d < 0 <==> a.value < b.value
    ensures d == 0 <==> a.value == b.value
    ensures d > 0 <==> a.value > b.value
  {
    a.value - b.value
  }

  /** Swapping the hands negates the comparison, and "better than" is transitive. */
  lemma CompareHandsOrder(a: HandResult, b: HandResult, c: HandResult)
    ensures CompareHands(a, b) == -CompareHands(b, a)
    ensures CompareHands(a, b) < 0 && CompareHands(b, c) < 0 ==> CompareHands(a, c) < 0
    ensures CompareHands(a, b) <= 0 && CompareHands(b, c) <= 0 ==> CompareHands(a, c) <= 0
  {
  }

  /** isValidBadugiCard: true when no existing card shares the new card's suit or rank. */
  function IsValidBadugiCard(newCard: Card, existingCards: seq<Card>): (ok: bool)
    ensures ok ==> newCard !in existingCards
  {
    !exists c :: c in existingCards && (c.suit == newCard.suit || c.rank == newCard.rank)
  }

  /** Adding a card to a badugi-valid set keeps it valid exactly when the card is valid against it. */
  lemma ValidCardExtends(c: Card, xs: seq<Card>)
    requires PairwiseDistinct(xs)
    ensures IsValidBadugiCard(c, xs) <==> PairwiseDistinct(xs + [c])
  {
    var ys := xs + [c];
    if IsValidBadugiCard(c, xs) {
      forall i, j | 0 <= i < j < |ys| ensures ys[i].suit != ys[j].suit && ys[i].rank != ys[j].rank {
        if j == |xs| {
          assert ys[i] == xs[i] && ys[j] == c;
        } else {
          assert ys[i] == xs[i] && ys[j] == xs[j];
        }
      }
    } else {
      var x :| x in xs && (x.suit == c.suit || x.rank == c.rank);
      var i :| 0 <= i < |xs| && xs[i] == x;
      assert ys[i] == x && ys[|xs|] == c;
    }
  }

  /** Every card evaluateHand selects is valid against the other selected cards. */
  lemma SelectedCardsAreValid(cards: seq<Card>, i: nat)
    requires i < |HandOf(cards).cards|
    ensures var sel := HandOf(cards).cards; IsValidBadugiCard(sel[i], sel[..i] + sel[i + 1..])
  {
    HandOfSelected(cards);
    DistinctCardIsValid(HandOf(cards).cards, i);
  }

  /** In a badugi-valid sequence each card is valid against all the others. */
  lemma DistinctCardIsValid(sel: seq<Card>, i: nat)
    requires PairwiseDistinct(sel) && i < |sel|
    ensures IsValidBadugiCard(sel[i], sel[..i] + sel[i + 1..])
  {
    var others := sel[..i] + sel[i + 1..];
    forall k | 0 <= k < |others| ensures others[k].suit != sel[i].suit && others[k].rank != sel[i].rank {
      if k < i {
        assert others[k] == sel[k];
      } else {
        assert others[k] == sel[k + 1];
      }
    }
    assert !exists x :: x in others && (x.suit == sel[i].suit || x.rank == sel[i].rank);
  }

  // ---------------------------------------------------------------------------
  // Combination search
  // ---------------------------------------------------------------------------

  /** c picks elements of xs in their order. */
  predicate IsSubsequence<T(==)>(c: seq<T>, xs: seq<T>)
    decreases |xs|
  {
    c == [] || (xs != [] && ((c[0] == xs[0] && IsSubsequence(c[1..], xs[1..])) || IsSubsequence(c, xs[1..])))
  }

  /** Binomial coefficient by Pascal's rule. */
  function Choose(n: nat, k: nat): nat
  {
    if k == 0 then 1 else if n == 0 then 0 else Choose(n - 1, k - 1) + Choose(n - 1, k)
  }

  function Factorial(n: nat): (f: nat)
    ensures f >= 1
  {
    if n == 0 then 1 else n * Factorial(n - 1)
  }

  lemma {:induction false} ChooseAbove(n: nat, k: nat)
    requires k > n
    ensures Choose(n, k) == 0
    decreases n
  {
    if n > 0 {
      ChooseAbove(n - 1, k - 1);
      ChooseAbove(n - 1, k);
    }
  }

  lemma {:induction false} ChooseAll(n: nat)
    ensures Choose(n, n) == 1
  {
    if n > 0 {
      ChooseAll(n - 1);
      ChooseAbove(n - 1, n);
    }
  }

  /** The algebra of one Pascal step of the closed form. */
  lemma PascalStep(a: int, b: int, k: int, m: int, x: int, y: int, f: int)
    requires a * x * (m * y) == f
    requires b * (k * x) * y == f
    ensures (a + b) * (k * x) * (m * y) == (k + m) * f
  {
    calc {
      (a + b) * (k * x) * (m * y);
      a * (k * x) * (m * y) + b * (k * x) * (m * y);
      { assert a * (k * x) * (m * y) == k * (a * x * (m * y)); }
      k * f + b * (k * x) * (m * y);
      { assert b * (k * x) * (m * y) == m * (b * (k * x) * y); }
      k * f + m * f;
    }
  }

  /** Pascal's rule agrees with the closed form n! / (k! (n-k)!). */
  lemma {:induction false} ChooseFactorial(n: nat, k: nat)
    requires k <= n
    ensures Choose(n, k) * Factorial(k) * Factorial(n - k) == Factorial(n)
    decreases n
  {
    if k == 0 {
    } else if k == n {
      ChooseAll(n);
    } else {
      ChooseFactorial(n - 1, k - 1);
      ChooseFactorial(n - 1, k);
      assert n - 1 - (k - 1) == n - k;
      PascalStep(Choose(n - 1, k - 1), Choose(n - 1, k), k, n - k, Factorial(k - 1), Factorial(n - k - 1), Factorial(n - 1));
    }
  }

  /** There is at least one way to choose k of n items when k <= n. */
  lemma ChoosePositive(n: nat, k: nat)
    requires k <= n
    ensures Choose(n, k) >= 1
  {
    ChooseFactorial(n, k);
  }

  /** [x, ...combo] for every combo, in order. */
  function PrependAll<T>(x: T, combos: seq<seq<T>>): (r: seq<seq<T>>)
    ensures |r| == |combos|
    ensures forall i :: 0 <= i < |combos| ==> r[i] == [x] + combos[i]
  {
    if combos == [] then [] else [[x] + combos[0]] + PrependAll(x, combos[1..])
  }

  lemma PrependAllMember<T>(x: T, combos: seq<seq<T>>, d: seq<T>)
    requires d in combos
    ensures [x] + d in PrependAll(x, combos)
  {
    var i :| 0 <= i < |combos| && combos[i] == d;
    assert PrependAll(x, combos)[i] == [x] + d;
  }

  lemma PrependAllMemberOf<T>(x: T, combos: seq<seq<T>>, c: seq<T>)
    requires c in PrependAll(x, combos)
    ensures |c| > 0 && c[0] == x && c[1..] in combos
  {
    var i :| 0 <= i < |combos| && PrependAll(x, combos)[i] == c;
    assert c == [x] + combos[i];
    assert c[1..] == combos[i];
  }

  /** getCombinations: the size-element combinations of xs, those with the first element first;
      there are C(|xs|, size) of them. */
  function GetCombinations<T>(xs: seq<T>, size: nat): (r: seq<seq<T>>)
    ensures |r| == Choose(|xs|, size)
    decreases |xs|
  {
    if size == 0 then [[]]
    else if xs == [] then []
    else PrependAll(xs[0], GetCombinations(xs[1..], size - 1)) + GetCombinations(xs[1..], size)
  }

  /** Every combination has the requested length and is a subsequence of xs. */
  lemma {:induction false} CombinationsAreSubsequences<T>(xs: seq<T>, size: nat, c: seq<T>)
    requires c in GetCombinations(xs, size)
    ensures |c| == size && IsSubsequence(c, xs)
    decreases |xs|
  {
    if size > 0 && xs != [] {
      var rest := GetCombinations(xs[1..], size - 1);
      var withFirst := PrependAll(xs[0], rest);
      var withoutFirst := GetCombinations(xs[1..], size);
      assert GetCombinations(xs, size) == withFirst + withoutFirst;
      if c in withFirst {
        PrependAllMemberOf(xs[0], rest, c);
        CombinationsAreSubsequences(xs[1..], size - 1, c[1..]);
        assert IsSubsequence(c[1..], xs[1..]);
      } else {
        assert c in withoutFirst;
        CombinationsAreSubsequences(xs[1..], size, c);
        assert IsSubsequence(c, xs[1..]);
      }
    }
  }

  /** Every subsequence of xs of the given length is among the combinations. */
  lemma {:induction false} CombinationsComplete<T>(xs: seq<T>, size: nat, c: seq<T>)
    requires |c| == size && IsSubsequence(c, xs)
    ensures c in GetCombinations(xs, size)
    decreases |xs|
  {
    if size > 0 {
      assert xs != [];
      var rest := GetCombinations(xs[1..], size - 1);
      var withFirst := PrependAll(xs[0], rest);
      var withoutFirst := GetCombinations(xs[1..], size);
      assert GetCombinations(xs, size) == withFirst + withoutFirst;
      if c[0] == xs[0] && IsSubsequence(c[1..], xs[1..]) {
        CombinationsComplete(xs[1..], size - 1, c[1..]);
        PrependAllMember(xs[0], rest, c[1..]);
        assert c == [xs[0]] + c[1..];
      } else {
        assert IsSubsequence(c, xs[1..]);
        CombinationsComplete(xs[1..], size, c);
        assert c in withoutFirst;
      }
    }
  }

  /** Index of the first minimum among vals[..n]: a later value replaces the best only when strictly lower. */
  function FirstMin(vals: seq<int>, n: nat): (b: nat)
    requires 0 < n <= |vals|
    ensures b < n
    ensures forall j :: 0 <= j < n ==> vals[b] <= vals[j]
    ensures forall j :: 0 <= j < b ==> vals[b] < vals[j]
  {
    if n == 1 then 0
    else
      var b := FirstMin(vals, n - 1);
      if vals[n - 1] < vals[b] then n - 1 else b
  }

  /** One more value replaces the best only when it is strictly lower. */
  lemma FirstMinStep(vals: seq<int>, i: nat)
    requires i < |vals|
    ensures i == 0 ==> FirstMin(vals, 1) == 0
    ensures i > 0 ==> FirstMin(vals, i + 1) == if vals[i] < vals[FirstMin(vals, i)] then i else FirstMin(vals, i)
  {
  }

  function HandValues(hands: seq<seq<Card>>): (vals: seq<int>)
    ensures |vals| == |hands|
    ensures forall j :: 0 <= j < |hands| ==> vals[j] == HandOf(hands[j]).value
  {
    seq(|hands|, j requires 0 <= j < |hands| => HandOf(hands[j]).value)
  }

  /** The first best-valued four-card combination of a hand of more than four cards. */
  function BestFour(cards: seq<Card>): seq<Card>
    requires |cards| > 4
  {
    var combos := GetCombinations(cards, 4);
    ChoosePositive(|cards|, 4);
    combos[FirstMin(HandValues(combos), |combos|)]
  }

  /** What findBestBadugiCombination returns. */
  function BestCombination(cards: seq<Card>): (best: seq<Card>)
    ensures |best| <= 4 && forall x :: x in best ==> x in cards
  {
    if |cards| <= 4 then
      HandOfSelected(cards);
      HandOf(cards).cards
    else
      BestFourIsCandidate(cards);
      SubsequenceMembers(BestFour(cards), cards);
      HandOfSelected(BestFour(cards));
      HandOf(BestFour(cards)).cards
  }

  /** Every element of a subsequence occurs in the sequence. */
  lemma {:induction false} SubsequenceMembers<T>(c: seq<T>, xs: seq<T>)
    requires IsSubsequence(c, xs)
    ensures forall x :: x in c ==> x in xs
    decreases |xs|
  {
    if c != [] {
      if c[0] == xs[0] && IsSubsequence(c[1..], xs[1..]) {
        SubsequenceMembers(c[1..], xs[1..]);
        assert c == [c[0]] + c[1..];
      } else {
        SubsequenceMembers(c, xs[1..]);
      }
    }
  }

  /** The chosen combination is a four-card subsequence of the hand... */
  lemma BestFourIsCandidate(cards: seq<Card>)
    requires |cards| > 4
    ensures |BestFour(cards)| == 4 && IsSubsequence(BestFour(cards), cards)
  {
    CombinationsAreSubsequences(cards, 4, BestFour(cards));
  }

  /** ...and no four-card subsequence has a lower value. */
  lemma BestFourMinimal(cards: seq<Card>, s: seq<Card>)
    requires |cards| > 4 && |s| == 4 && IsSubsequence(s, cards)
    ensures HandOf(BestFour(cards)).value <= HandOf(s).value
  {
    var combos := GetCombinations(cards, 4);
    ChoosePositive(|cards|, 4);
    var vals := HandValues(combos);
    CombinationsComplete(cards, 4, s);
    var j :| 0 <= j < |combos| && combos[j] == s;
    assert vals[FirstMin(vals, |combos|)] <= vals[j];
  }

  /** findBestBadugiCombination: evaluates the hand directly when it has at most four cards, and otherwise
      keeps the first best-valued four-card combination. */
  method FindBestBadugiCombination(cards: seq<Card>) returns (best: seq<Card>)
    ensures best == BestCombination(cards)
  {
    if |cards| <= 4 {
      var hand := EvaluateHand(cards);
      return hand.cards;
    }
    var bestHand: Option<HandResult> := None;
    var combinations := GetCombinations(cards, 4);
    ghost var vals := HandValues(combinations);
    ghost var bi := 0;
    for i := 0 to |combinations|
      invariant i == 0 ==> bestHand == None
      invariant i > 0 ==> bi == FirstMin(vals, i) && bestHand == Some(HandOf(combinations[bi]))
    {
      var hand := EvaluateHand(combinations[i]);
      FirstMinStep(vals, i);
      if bestHand.None? || CompareHands(hand, bestHand.value) < 0 {
        bestHand, bi := Some(hand), i;
      }
    }
    ChoosePositive(|cards|, 4);
    best := if bestHand.Some? then bestHand.value.cards else [];
  }
}
