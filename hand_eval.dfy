/**
 * The hand evaluator `get_best_hand` of backend/models/poker_game.py.
 *
 * The functions below follow the source's scans one by one: the per-suit
 * straight-flush scan over descending suited ranks, the descending rank scans
 * (14 down to 2) for four of a kind, full house, three of a kind, two pair and
 * pair, the first-suit flush scan, the straight scan over the distinct ranks,
 * and finally the highest card. The second half of the module states what the
 * evaluator computes independently of the scans (`ReferenceCategory`,
 * `ValueFits`) and proves that the scans agree with it.
 */
module HandEval {
  import opened Util
  import opened Cards

  /** The nine categories, weakest first. */
  datatype Category =
    | HighCard | Pair | TwoPair | ThreeOfAKind | Straight
    | Flush | FullHouse | FourOfAKind | StraightFlush

  /**
   * An evaluated hand: the category and its tie-break value. The source returns a
   * single rank, a (rank, rank) tuple or a list of five ranks; all of them are a
   * sequence of ranks here, compared the way Python compares them.
   */
  datatype Hand = Hand(category: Category, value: seq<int>)

  // ---------------------------------------------------------------------------
  // Counting and sorting ranks

  function Count(xs: seq<int>, v: int): (n: nat)
    ensures n <= |xs|
  {
    if |xs| == 0 then 0 else (if xs[0] == v then 1 else 0) + Count(xs[1..], v)
  }

  predicate InRankRange(xs: seq<int>) {
    forall i :: 0 <= i < |xs| ==> 2 <= xs[i] <= 14
  }

  predicate NonIncreasing(xs: seq<int>) {
    forall i, j :: 0 <= i < j < |xs| ==> xs[i] >= xs[j]
  }

  predicate StrictlyDecreasing(xs: seq<int>) {
    forall i, j :: 0 <= i < j < |xs| ==> xs[i] > xs[j]
  }

  /** `x` placed in the non-increasing `sorted` in front of the first smaller entry. */
  function Insert(x: int, sorted: seq<int>): (r: seq<int>)
    ensures |r| == |sorted| + 1
    ensures multiset(r) == multiset(sorted) + multiset{x}
  {
    if |sorted| == 0 || x >= sorted[0] then [x] + sorted
    else
      assert sorted == [sorted[0]] + sorted[1..];
      [sorted[0]] + Insert(x, sorted[1..])
  }

  /** `sorted(xs, reverse=True)`: an insertion sort, highest first (see SortDescIsSorting). */
  function SortDesc(xs: seq<int>): (r: seq<int>)
    ensures |r| == |xs|
  {
    if |xs| == 0 then [] else Insert(xs[0], SortDesc(xs[1..]))
  }

  /** The distinct ranks r, r-1, ..., 2 that occur in `xs`. */
  function DistinctFrom(xs: seq<int>, r: int): (d: seq<int>)
    ensures forall i :: 0 <= i < |d| ==> 2 <= d[i] <= r
    ensures forall x :: x in d <==> 2 <= x <= r && x in xs
    ensures StrictlyDecreasing(d)
    decreases r
  {
    if r < 2 then [] else (if r in xs then [r] else []) + DistinctFrom(xs, r - 1)
  }

  /** `sorted(list(set(xs)), reverse=True)` for ranks 2..14. */
  function DistinctDesc(xs: seq<int>): (d: seq<int>)
    ensures InRankRange(xs) ==> forall x :: x in d <==> x in xs
    ensures StrictlyDecreasing(d)
  {
    DistinctFrom(xs, 14)
  }

  lemma {:induction false} CountIsMultiplicity(xs: seq<int>, v: int)
    ensures Count(xs, v) == multiset(xs)[v]
  {
    if |xs| > 0 {
      assert xs == [xs[0]] + xs[1..];
      CountIsMultiplicity(xs[1..], v);
    }
  }

  /** Putting an upper bound of `t` in front keeps `t`'s order. */
  lemma PrependKeepsOrder(h: int, t: seq<int>)
    ensures NonIncreasing(t) && (forall y :: y in t ==> y <= h) ==> NonIncreasing([h] + t)
    ensures StrictlyDecreasing(t) && (forall y :: y in t ==> y < h) ==> StrictlyDecreasing([h] + t)
  {
    var u := [h] + t;
    forall j | 0 < j < |u| ensures u[j] == t[j - 1] && u[j] in t {
    }
  }

  /** Every element after the head of a non-increasing sequence is at most the head. */
  lemma HeadIsLargest(xs: seq<int>)
    requires |xs| > 0
    ensures NonIncreasing(xs) ==> forall y :: y in xs ==> y <= xs[0]
    ensures StrictlyDecreasing(xs) ==> forall y :: y in xs[1..] ==> y < xs[0]
  {
    if StrictlyDecreasing(xs) {
      forall y | y in xs[1..] ensures y < xs[0] {
        var j :| 0 <= j < |xs[1..]| && xs[1..][j] == y;
        assert xs[j + 1] == y;
      }
    }
  }

  /** The elements of Insert(x, sorted) are `x` and those of `sorted`. */
  lemma InsertElements(x: int, sorted: seq<int>)
    ensures forall y :: y in Insert(x, sorted) <==> y == x || y in sorted
  {
    forall y ensures y in Insert(x, sorted) <==> y == x || y in sorted {
      assert y in Insert(x, sorted) <==> y in multiset(Insert(x, sorted));
      assert y in sorted <==> y in multiset(sorted);
    }
  }

  /** Insertion keeps a sequence non-increasing. */
  lemma {:induction false} InsertKeepsOrder(x: int, sorted: seq<int>)
    requires NonIncreasing(sorted)
    ensures NonIncreasing(Insert(x, sorted))
  {
    if |sorted| > 0 {
      HeadIsLargest(sorted);
    }
    if |sorted| == 0 || x >= sorted[0] {
      PrependKeepsOrder(x, sorted);
    } else {
      var h, rest := sorted[0], sorted[1..];
      InsertKeepsOrder(x, rest);
      InsertElements(x, rest);
      PrependKeepsOrder(h, Insert(x, rest));
    }
  }

  /** Inserting a new value keeps a sequence strictly decreasing. */
  lemma {:induction false} InsertKeepsStrictOrder(x: int, sorted: seq<int>)
    requires StrictlyDecreasing(sorted) && x !in sorted
    ensures StrictlyDecreasing(Insert(x, sorted))
  {
    if |sorted| > 0 {
      HeadIsLargest(sorted);
    }
    if |sorted| == 0 || x >= sorted[0] {
      PrependKeepsOrder(x, sorted);
    } else {
      var h, rest := sorted[0], sorted[1..];
      InsertKeepsStrictOrder(x, rest);
      InsertElements(x, rest);
      PrependKeepsOrder(h, Insert(x, rest));
    }
  }

  lemma {:induction false} SortDescOrdered(xs: seq<int>)
    ensures NonIncreasing(SortDesc(xs))
  {
    if |xs| > 0 {
      SortDescOrdered(xs[1..]);
      InsertKeepsOrder(xs[0], SortDesc(xs[1..]));
    }
  }

  lemma {:induction false} SortDescPermutes(xs: seq<int>)
    ensures multiset(SortDesc(xs)) == multiset(xs)
  {
    if |xs| > 0 {
      SortDescPermutes(xs[1..]);
      assert xs == [xs[0]] + xs[1..];
    }
  }

  /** SortDesc returns a non-increasing permutation of its input: the one result Python's sort can give. */
  lemma SortDescIsSorting(xs: seq<int>)
    ensures NonIncreasing(SortDesc(xs))
    ensures multiset(SortDesc(xs)) == multiset(xs)
  {
    SortDescOrdered(xs);
    SortDescPermutes(xs);
  }

  /** Sorting ranks without repeats gives a strictly decreasing sequence. */
  lemma {:induction false} SortDescStrict(xs: seq<int>)
    requires NoDuplicates(xs)
    ensures StrictlyDecreasing(SortDesc(xs))
  {
    if |xs| > 0 {
      var rest := xs[1..];
      SortDescStrict(rest);
      SortDescPermutes(rest);
      assert xs[0] !in multiset(SortDesc(rest));
      InsertKeepsStrictOrder(xs[0], SortDesc(rest));
    }
  }

  // ---------------------------------------------------------------------------
  // Views of a card list

  /** The ranks of the cards, in card order (`processed_cards` without the suits). */
  function RanksOf(cards: seq<Card>): (r: seq<int>)
    ensures |r| == |cards| && InRankRange(r)
    ensures forall i :: 0 <= i < |cards| ==> r[i] == cards[i].rank
  {
    seq(|cards|, i requires 0 <= i < |cards| => cards[i].rank)
  }

  /** `sum(1 for card in processed_cards if card[0] == rank)` */
  function CountRank(cards: seq<Card>, r: int): nat {
    Count(RanksOf(cards), r)
  }

  /** The card of rank `r` and suit `s` is among `cards`. */
  predicate HasCard(cards: seq<Card>, r: int, s: Suit) {
    2 <= r <= 14 && Card(r, s) in cards
  }

  /** The ranks of the cards of suit `s`, in card order. */
  function SuitRanks(cards: seq<Card>, s: Suit): (r: seq<int>)
    ensures InRankRange(r)
    ensures forall x :: x in r <==> HasCard(cards, x, s)
  {
    if |cards| == 0 then []
    else (if cards[0].suit == s then [cards[0].rank as int] else []) + SuitRanks(cards[1..], s)
  }

  /** The number of cards of suit `s`. */
  function CountSuit(cards: seq<Card>, s: Suit): nat {
    if |cards| == 0 then 0 else (if cards[0].suit == s then 1 else 0) + CountSuit(cards[1..], s)
  }

  lemma {:induction false} SuitRanksLength(cards: seq<Card>, s: Suit)
    ensures |SuitRanks(cards, s)| == CountSuit(cards, s)
  {
    if |cards| > 0 {
      SuitRanksLength(cards[1..], s);
    }
  }

  lemma {:induction false} SuitRanksNoDuplicates(cards: seq<Card>, s: Suit)
    requires NoDuplicates(cards)
    ensures NoDuplicates(SuitRanks(cards, s))
  {
    if |cards| > 0 {
      var rest := cards[1..];
      assert NoDuplicates(rest);
      SuitRanksNoDuplicates(rest, s);
      if cards[0].suit == s {
        assert cards[0] !in rest;
        assert cards[0].rank as int !in SuitRanks(rest, s);
      }
    }
  }

  /** `suited_cards` after `suited_cards.sort(reverse=True)`. */
  function Suited(cards: seq<Card>, s: Suit): seq<int> {
    SortDesc(SuitRanks(cards, s))
  }

  lemma SuitedFacts(cards: seq<Card>, s: Suit)
    ensures |Suited(cards, s)| == CountSuit(cards, s)
    ensures forall x :: x in Suited(cards, s) <==> HasCard(cards, x, s)
    ensures NoDuplicates(cards) ==> StrictlyDecreasing(Suited(cards, s))
  {
    var xs := SuitRanks(cards, s);
    SortDescIsSorting(xs);
    SuitRanksLength(cards, s);
    assert |Suited(cards, s)| == |multiset(Suited(cards, s))| == |multiset(xs)| == |xs|;
    forall x ensures x in Suited(cards, s) <==> x in xs {
      assert x in Suited(cards, s) <==> x in multiset(Suited(cards, s));
    }
    if NoDuplicates(cards) {
      SuitRanksNoDuplicates(cards, s);
      SortDescStrict(xs);
    }
  }

  // ---------------------------------------------------------------------------
  // The scans of get_best_hand

  /** Positions i, i+4 of `xs` are four apart (`xs[i] - xs[i+4] == 4`). */
  predicate Window(xs: seq<int>, i: int) {
    0 <= i && i + 4 < |xs| && xs[i] - xs[i + 4] == 4
  }

  /** `for i in range(len(xs) - 4): if xs[i] - xs[i+4] == 4: ...` — the first such i. */
  function FirstWindow(xs: seq<int>, from: nat): (r: Option<nat>)
    ensures r.Some? ==> from <= r.value && Window(xs, r.value)
    ensures r.Some? ==> forall k :: from <= k < r.value ==> !Window(xs, k)
    ensures r.None? ==> forall k :: from <= k ==> !Window(xs, k)
    decreases |xs| - from
  {
    if from + 4 >= |xs| then None
    else if xs[from] - xs[from + 4] == 4 then Some(from)
    else FirstWindow(xs, from + 1)
  }

  /**
   * The straight-flush check, suit by suit in SUITS order: the top of the first run found. The
   * lowest run it can find is 2 to 6; an ace never counts low.
   */
  function StraightFlushScan(cards: seq<Card>, suits: seq<Suit>): (r: Option<int>)
    ensures r.Some? ==> 6 <= r.value <= 14
  {
    if |suits| == 0 then None
    else
      var suited := Suited(cards, suits[0]);
      if |suited| >= 5 && FirstWindow(suited, 0).Some? then
        SuitedFacts(cards, suits[0]);
        var i := FirstWindow(suited, 0).value;
        assert HasCard(cards, suited[i], suits[0]) && HasCard(cards, suited[i + 4], suits[0]);
        Some(suited[i])
      else StraightFlushScan(cards, suits[1..])
  }

  /** The flush check: the five highest ranks of the first suit with at least five cards. */
  function FlushScan(cards: seq<Card>, suits: seq<Suit>): (r: Option<seq<int>>)
    ensures r.Some? ==> |r.value| == 5
  {
    if |suits| == 0 then None
    else
      var suited := Suited(cards, suits[0]);
      if |suited| >= 5 then Some(suited[..5]) else FlushScan(cards, suits[1..])
  }

  /** The conditions checked by the descending rank scans. */
  datatype RankTest =
    | CountIs(n: nat)           // exactly n cards of the rank
    | PairBesides(other: int)   // a rank other than `other` with at least two cards

  predicate Passes(cards: seq<Card>, t: RankTest, r: int) {
    match t
    case CountIs(n) => CountRank(cards, r) == n
    case PairBesides(other) => r != other && CountRank(cards, r) >= 2
  }

  /** `for rank in range(r, 1, -1): if test(rank): return rank` */
  function HighestFrom(cards: seq<Card>, t: RankTest, r: int): (res: Option<int>)
    ensures res.Some? ==> 2 <= res.value <= r && Passes(cards, t, res.value)
    ensures res.Some? ==> forall w :: res.value < w <= r ==> !Passes(cards, t, w)
    ensures res.None? ==> forall w :: 2 <= w <= r ==> !Passes(cards, t, w)
    decreases r
  {
    if r < 2 then None
    else if Passes(cards, t, r) then Some(r)
    else HighestFrom(cards, t, r - 1)
  }

  /** A triple at `r` that the inner pair scan can complete. */
  predicate TripleWithPair(cards: seq<Card>, r: int) {
    CountRank(cards, r) == 3 && HighestFrom(cards, PairBesides(r), 14).Some?
  }

  /** The nested full-house scan: the first triple (from r down) that has a pair beside it. */
  function FullHouseScan(cards: seq<Card>, r: int): (res: Option<(int, int)>)
    ensures res.Some? ==> 2 <= res.value.0 <= r && TripleWithPair(cards, res.value.0)
    ensures res.Some? ==> HighestFrom(cards, PairBesides(res.value.0), 14) == Some(res.value.1)
    ensures res.Some? ==> forall w :: res.value.0 < w <= r ==> !TripleWithPair(cards, w)
    ensures res.None? ==> forall w :: 2 <= w <= r ==> !TripleWithPair(cards, w)
    decreases r
  {
    if r < 2 then None
    else if CountRank(cards, r) == 3 && HighestFrom(cards, PairBesides(r), 14).Some? then
      Some((r, HighestFrom(cards, PairBesides(r), 14).value))
    else FullHouseScan(cards, r - 1)
  }

  /** The two-pair scan: collect ranks with exactly two cards, stop at the second one. */
  function TwoPairScan(cards: seq<Card>, r: int, pairs: seq<int>): (res: Option<seq<int>>)
    requires |pairs| < 2
    ensures res.Some? ==> |res.value| == 2 && res.value[..|pairs|] == pairs
    decreases r
  {
    if r < 2 then None
    else
      var found := if CountRank(cards, r) == 2 then pairs + [r] else pairs;
      if |found| == 2 then Some(found) else TwoPairScan(cards, r - 1, found)
  }

  /** `processed_cards[0][0]` after sorting the cards by rank, highest first. */
  function HighCardRank(cards: seq<Card>): (r: int)
    requires |cards| > 0
    ensures r in RanksOf(cards)
  {
    SortDescIsSorting(RanksOf(cards));
    assert |SortDesc(RanksOf(cards))| == |multiset(RanksOf(cards))| == |cards|;
    assert SortDesc(RanksOf(cards))[0] in multiset(RanksOf(cards));
    SortDesc(RanksOf(cards))[0]
  }

  /** get_best_hand on parsed cards: the first category that matches, strongest first. */
  function BestHand(cards: seq<Card>): (r: Hand)
    requires |cards| > 0
    ensures 1 <= |r.value| <= 5
  {
    var straightFlush := StraightFlushScan(cards, SUITS);
    if straightFlush.Some? then Hand(StraightFlush, [straightFlush.value])
    else
    var quads := HighestFrom(cards, CountIs(4), 14);
    if quads.Some? then Hand(FourOfAKind, [quads.value])
    else
    var fullHouse := FullHouseScan(cards, 14);
    if fullHouse.Some? then Hand(FullHouse, [fullHouse.value.0, fullHouse.value.1])
    else
    var flush := FlushScan(cards, SUITS);
    if flush.Some? then Hand(Flush, flush.value)
    else
    var ranks := DistinctDesc(RanksOf(cards));
    var straight := FirstWindow(ranks, 0);
    if straight.Some? then Hand(Straight, [ranks[straight.value]])
    else
    var trips := HighestFrom(cards, CountIs(3), 14);
    if trips.Some? then Hand(ThreeOfAKind, [trips.value])
    else
    var twoPair := TwoPairScan(cards, 14, []);
    if twoPair.Some? then Hand(TwoPair, twoPair.value)
    else
    var pair := HighestFrom(cards, CountIs(2), 14);
    if pair.Some? then Hand(Pair, [pair.value])
    else Hand(HighCard, [HighCardRank(cards)])
  }

  /** Parses every "<rank> of <suit>" string; None if one of them does not parse. */
  function ParseCards(names: seq<string>): (r: Option<seq<Card>>)
    ensures r.Some? ==> |r.value| == |names|
  {
    if |names| == 0 then Some([])
    else
      match (ParseCard(names[0]), ParseCards(names[1..]))
      case (Some(c), Some(rest)) => Some([c] + rest)
      case _ => None
  }

  /**
   * get_best_hand on card strings; None for an empty list and for any text that is not a card
   * name. Python raises for an empty list or an unknown rank, but evaluates a text whose suit
   * part is not a suit name; the model answers None there as well.
   */
  function GetBestHand(names: seq<string>): (r: Option<Hand>)
    ensures r.Some? <==> |names| > 0 && ParseCards(names).Some?
  {
    match ParseCards(names)
    case Some(cards) => if |cards| > 0 then Some(BestHand(cards)) else None
    case None => None
  }

  function Names(cards: seq<Card>): (r: seq<string>)
    ensures |r| == |cards|
  {
    seq(|cards|, i requires 0 <= i < |cards| => CardName(cards[i]))
  }

  lemma NamesCons(cards: seq<Card>)
    requires |cards| > 0
    ensures Names(cards) == [CardName(cards[0])] + Names(cards[1..])
  {
  }

  lemma {:induction false} ParseCardsNames(cards: seq<Card>)
    ensures ParseCards(Names(cards)) == Some(cards)
  {
    if |cards| > 0 {
      var head, tail := cards[0], cards[1..];
      var names := Names(cards);
      NamesCons(cards);
      assert names[1..] == Names(tail);
      ParseCardName(head);
      ParseCardsNames(tail);
      assert cards == [head] + tail;
    }
  }

  /** Evaluating the text form of dealt cards is evaluating the cards. */
  lemma GetBestHandOfNames(cards: seq<Card>)
    requires |cards| > 0
    ensures GetBestHand(Names(cards)) == Some(BestHand(cards))
  {
    ParseCardsNames(cards);
  }

  // ---------------------------------------------------------------------------
  // What the evaluator computes, stated without the scans

  /** Five cards of suit `s` with consecutive ranks t, t-1, ..., t-4. */
  ghost predicate IsStraightFlushTop(cards: seq<Card>, s: Suit, t: int) {
    HasCard(cards, t, s) && HasCard(cards, t - 1, s) && HasCard(cards, t - 2, s)
    && HasCard(cards, t - 3, s) && HasCard(cards, t - 4, s)
  }

  /** Cards of five consecutive ranks t, t-1, ..., t-4 (no ace-low wheel). */
  ghost predicate IsStraightTop(cards: seq<Card>, t: int) {
    6 <= t <= 14
    && CountRank(cards, t) > 0 && CountRank(cards, t - 1) > 0 && CountRank(cards, t - 2) > 0
    && CountRank(cards, t - 3) > 0 && CountRank(cards, t - 4) > 0
  }

  ghost predicate HasStraightFlush(cards: seq<Card>) {
    exists s, t :: IsStraightFlushTop(cards, s, t)
  }

  ghost predicate HasFourOfAKind(cards: seq<Card>) {
    exists r :: 2 <= r <= 14 && CountRank(cards, r) == 4
  }

  ghost predicate HasFullHouse(cards: seq<Card>) {
    exists a, b :: 2 <= a <= 14 && 2 <= b <= 14 && a != b && CountRank(cards, a) == 3 && CountRank(cards, b) >= 2
  }

  ghost predicate HasFlush(cards: seq<Card>) {
    exists s :: CountSuit(cards, s) >= 5
  }

  ghost predicate HasStraight(cards: seq<Card>) {
    exists t :: IsStraightTop(cards, t)
  }

  ghost predicate HasThreeOfAKind(cards: seq<Card>) {
    exists r :: 2 <= r <= 14 && CountRank(cards, r) == 3
  }

  ghost predicate HasTwoPair(cards: seq<Card>) {
    exists a, b :: 2 <= b < a <= 14 && CountRank(cards, a) == 2 && CountRank(cards, b) == 2
  }

  ghost predicate HasPair(cards: seq<Card>) {
    exists r :: 2 <= r <= 14 && CountRank(cards, r) == 2
  }

  /** The strongest category whose condition holds, given the nine conditions strongest first. */
  function Precedence(straightFlush: bool, quads: bool, fullHouse: bool, flush: bool, straight: bool,
                      trips: bool, twoPair: bool, pair: bool): (c: Category)
    ensures c == StraightFlush <==> straightFlush
    ensures c == HighCard <==> !(straightFlush || quads || fullHouse || flush || straight || trips || twoPair || pair)
  {
    if straightFlush then StraightFlush
    else if quads then FourOfAKind
    else if fullHouse then FullHouse
    else if flush then Flush
    else if straight then Straight
    else if trips then ThreeOfAKind
    else if twoPair then TwoPair
    else if pair then Pair
    else HighCard
  }

  /** Standard precedence: the strongest category the cards contain. */
  ghost function ReferenceCategory(cards: seq<Card>): Category {
    Precedence(HasStraightFlush(cards), HasFourOfAKind(cards), HasFullHouse(cards), HasFlush(cards),
               HasStraight(cards), HasThreeOfAKind(cards), HasTwoPair(cards), HasPair(cards))
  }

  /** `v` is the highest rank passing `t`. */
  ghost predicate IsHighest(cards: seq<Card>, t: RankTest, v: int) {
    2 <= v <= 14 && Passes(cards, t, v) && forall w :: v < w <= 14 ==> !Passes(cards, t, w)
  }

  /** The five highest ranks among `ranks`, highest first. */
  ghost predicate IsTopFive(five: seq<int>, ranks: seq<int>) {
    |five| == 5 && NonIncreasing(five)
    && multiset(five) <= multiset(ranks)
    && forall x :: x in multiset(ranks) - multiset(five) ==> x <= five[4]
  }

  /** t, t-1, ..., t-4 all occur in `xs`. */
  predicate RunTop(xs: seq<int>, t: int) {
    t in xs && t - 1 in xs && t - 2 in xs && t - 3 in xs && t - 4 in xs
  }

  /** In a strictly decreasing sequence, the value one below xs[i], if present, sits at i+1. */
  lemma NextIsPredecessor(xs: seq<int>, i: int)
    requires StrictlyDecreasing(xs) && 0 <= i < |xs| && xs[i] - 1 in xs
    ensures i + 1 < |xs| && xs[i + 1] == xs[i] - 1
  {
    var j :| 0 <= j < |xs| && xs[j] == xs[i] - 1;
    assert i < j;
  }

  /** A window of a strictly decreasing sequence is exactly a run of five consecutive values. */
  lemma WindowIsRun(xs: seq<int>, i: int)
    requires StrictlyDecreasing(xs) && 0 <= i < |xs|
    ensures Window(xs, i) <==> RunTop(xs, xs[i])
  {
    var t := xs[i];
    assert t in xs;
    if Window(xs, i) {
      assert xs[i] > xs[i + 1] > xs[i + 2] > xs[i + 3] > xs[i + 4];
      assert xs[i + 1] == t - 1 && xs[i + 2] == t - 2 && xs[i + 3] == t - 3 && xs[i + 4] == t - 4;
    } else if RunTop(xs, t) {
      NextIsPredecessor(xs, i);
      NextIsPredecessor(xs, i + 1);
      NextIsPredecessor(xs, i + 2);
      NextIsPredecessor(xs, i + 3);
      assert false;
    }
  }

  /** The window scan over a strictly decreasing sequence finds the highest run top, if any. */
  lemma RunScan(xs: seq<int>)
    requires StrictlyDecreasing(xs)
    ensures FirstWindow(xs, 0).None? <==> forall t :: !RunTop(xs, t)
    ensures FirstWindow(xs, 0).Some? ==>
      RunTop(xs, xs[FirstWindow(xs, 0).value]) && forall t :: RunTop(xs, t) ==> t <= xs[FirstWindow(xs, 0).value]
  {
    var w := FirstWindow(xs, 0);
    forall t | RunTop(xs, t) ensures w.Some? && t <= xs[w.value] {
      var p :| 0 <= p < |xs| && xs[p] == t;
      WindowIsRun(xs, p);
      assert Window(xs, p);
    }
    if w.Some? {
      WindowIsRun(xs, w.value);
    }
  }

  ghost predicate SuitHasRun(cards: seq<Card>, s: Suit) {
    exists t :: IsStraightFlushTop(cards, s, t)
  }

  /** `suits[k]` is the first of `suits` that holds a straight flush. */
  ghost predicate FirstRunSuit(cards: seq<Card>, suits: seq<Suit>, k: int) {
    0 <= k < |suits| && SuitHasRun(cards, suits[k]) && forall j :: 0 <= j < k ==> !SuitHasRun(cards, suits[j])
  }

  /** `t` is the top of the highest straight flush in suit `s`. */
  ghost predicate IsTopRun(cards: seq<Card>, s: Suit, t: int) {
    IsStraightFlushTop(cards, s, t) && forall u :: IsStraightFlushTop(cards, s, u) ==> u <= t
  }

  /** Over the ranks of one suit, a run of five ranks is a straight flush. */
  lemma RunsOfSuit(cards: seq<Card>, s: Suit, xs: seq<int>)
    requires forall x :: x in xs <==> HasCard(cards, x, s)
    ensures forall t :: IsStraightFlushTop(cards, s, t) <==> RunTop(xs, t)
  {
    forall t ensures IsStraightFlushTop(cards, s, t) <==> RunTop(xs, t) {
      if IsStraightFlushTop(cards, s, t) {
        assert t in xs && t - 1 in xs && t - 2 in xs && t - 3 in xs && t - 4 in xs;
      }
    }
  }

  /** One step of the straight-flush scan: the suited window scan finds the suit's highest straight flush. */
  lemma SuitRunScan(cards: seq<Card>, s: Suit)
    requires NoDuplicates(cards)
    ensures var suited := Suited(cards, s);
      && ((|suited| >= 5 && FirstWindow(suited, 0).Some?) <==> SuitHasRun(cards, s))
      && (|suited| >= 5 && FirstWindow(suited, 0).Some? ==>
            IsTopRun(cards, s, suited[FirstWindow(suited, 0).value]))
  {
    var suited := Suited(cards, s);
    SuitedFacts(cards, s);
    RunScan(suited);
    RunsOfSuit(cards, s, suited);
  }

  /** The straight-flush scan over `suits` succeeds exactly when one of them holds a run. */
  lemma {:induction false} StraightFlushScanSucceeds(cards: seq<Card>, suits: seq<Suit>)
    requires NoDuplicates(cards)
    ensures StraightFlushScan(cards, suits).Some? <==> exists k :: 0 <= k < |suits| && SuitHasRun(cards, suits[k])
  {
    if |suits| > 0 {
      var rest := suits[1..];
      SuitRunScan(cards, suits[0]);
      if SuitHasRun(cards, suits[0]) {
        assert StraightFlushScan(cards, suits).Some?;
      } else {
        assert StraightFlushScan(cards, suits) == StraightFlushScan(cards, rest);
        StraightFlushScanSucceeds(cards, rest);
        if exists k :: 0 <= k < |suits| && SuitHasRun(cards, suits[k]) {
          var k :| 0 <= k < |suits| && SuitHasRun(cards, suits[k]);
          assert rest[k - 1] == suits[k];
        }
        if StraightFlushScan(cards, rest).Some? {
          var k :| 0 <= k < |rest| && SuitHasRun(cards, rest[k]);
          assert rest[k] == suits[k + 1];
        }
      }
    }
  }

  /** What the straight-flush scan over `suits` returns is the highest run of the first of them with one. */
  lemma {:induction false} StraightFlushScanFinds(cards: seq<Card>, suits: seq<Suit>)
    requires NoDuplicates(cards)
    ensures StraightFlushScan(cards, suits).Some? ==>
      exists k :: FirstRunSuit(cards, suits, k) && IsTopRun(cards, suits[k], StraightFlushScan(cards, suits).value)
  {
    if |suits| > 0 {
      var rest := suits[1..];
      var r := StraightFlushScan(cards, suits);
      SuitRunScan(cards, suits[0]);
      if SuitHasRun(cards, suits[0]) {
        assert FirstRunSuit(cards, suits, 0) && IsTopRun(cards, suits[0], r.value);
      } else {
        StraightFlushScanFinds(cards, rest);
        if r.Some? {
          var k :| FirstRunSuit(cards, rest, k) && IsTopRun(cards, rest[k], r.value);
          assert rest[k] == suits[k + 1];
          FirstRunSuitShift(cards, suits, k);
        }
      }
    }
  }

  /** Past a first suit without a run, the first suit with one moves up by one place. */
  lemma FirstRunSuitShift(cards: seq<Card>, suits: seq<Suit>, k: int)
    requires |suits| > 0 && !SuitHasRun(cards, suits[0]) && FirstRunSuit(cards, suits[1..], k)
    ensures FirstRunSuit(cards, suits, k + 1)
  {
    forall j | 0 <= j < k + 1 ensures !SuitHasRun(cards, suits[j]) {
      if j > 0 {
        assert suits[j] == suits[1..][j - 1];
      }
    }
  }

  lemma SuitsCoverEverySuit(s: Suit)
    ensures exists k :: 0 <= k < |SUITS| && SUITS[k] == s
  {
    match s
    case Hearts => assert SUITS[0] == s;
    case Diamonds => assert SUITS[1] == s;
    case Clubs => assert SUITS[2] == s;
    case Spades => assert SUITS[3] == s;
  }

  /** The straight-flush check finds a straight flush exactly when the cards hold one, and reports
   * the highest run of the first suit, in SUITS order, that holds one. */
  lemma StraightFlushFinds(cards: seq<Card>)
    requires NoDuplicates(cards)
    ensures StraightFlushScan(cards, SUITS).Some? <==> HasStraightFlush(cards)
    ensures StraightFlushScan(cards, SUITS).Some? ==>
      exists k :: FirstRunSuit(cards, SUITS, k) && IsTopRun(cards, SUITS[k], StraightFlushScan(cards, SUITS).value)
  {
    StraightFlushScanSucceeds(cards, SUITS);
    StraightFlushScanFinds(cards, SUITS);
    if HasStraightFlush(cards) {
      var s, t :| IsStraightFlushTop(cards, s, t);
      SuitsCoverEverySuit(s);
      var k :| 0 <= k < |SUITS| && SUITS[k] == s;
      assert SuitHasRun(cards, SUITS[k]);
    }
  }

  /** `five` is the five highest ranks of suit `s`, which has at least five cards. */
  ghost predicate IsFlushOf(cards: seq<Card>, s: Suit, five: seq<int>) {
    CountSuit(cards, s) >= 5 && IsTopFive(five, SuitRanks(cards, s))
  }

  /** `suits[k]` is the first of `suits` with at least five cards. */
  ghost predicate FirstFlushSuit(cards: seq<Card>, suits: seq<Suit>, k: int) {
    0 <= k < |suits| && CountSuit(cards, suits[k]) >= 5 && forall j :: 0 <= j < k ==> CountSuit(cards, suits[j]) < 5
  }

  /** The first five entries of a non-increasing arrangement of `ranks` are its five highest. */
  lemma TopFiveOfSorted(sorted: seq<int>, ranks: seq<int>)
    requires NonIncreasing(sorted) && multiset(sorted) == multiset(ranks) && |sorted| >= 5
    ensures IsTopFive(sorted[..5], ranks)
  {
    var five, more := sorted[..5], sorted[5..];
    assert sorted == five + more;
    assert multiset(sorted) == multiset(five) + multiset(more);
    forall x | x in multiset(ranks) - multiset(five) ensures x <= five[4] {
      assert x in more;
    }
  }

  lemma SuitFlush(cards: seq<Card>, s: Suit)
    ensures |Suited(cards, s)| == CountSuit(cards, s)
    ensures CountSuit(cards, s) >= 5 ==> IsFlushOf(cards, s, Suited(cards, s)[..5])
  {
    SuitedFacts(cards, s);
    SortDescIsSorting(SuitRanks(cards, s));
    if CountSuit(cards, s) >= 5 {
      TopFiveOfSorted(Suited(cards, s), SuitRanks(cards, s));
    }
  }

  /** The flush scan over `suits` succeeds exactly when one of them has five cards. */
  lemma {:induction false} FlushScanSucceeds(cards: seq<Card>, suits: seq<Suit>)
    ensures FlushScan(cards, suits).Some? <==> exists k :: 0 <= k < |suits| && CountSuit(cards, suits[k]) >= 5
  {
    if |suits| > 0 {
      var rest := suits[1..];
      assert |Suited(cards, suits[0])| == CountSuit(cards, suits[0]) by { SuitedFacts(cards, suits[0]); }
      if CountSuit(cards, suits[0]) < 5 {
        assert FlushScan(cards, suits) == FlushScan(cards, rest);
        FlushScanSucceeds(cards, rest);
        if exists k :: 0 <= k < |suits| && CountSuit(cards, suits[k]) >= 5 {
          var k :| 0 <= k < |suits| && CountSuit(cards, suits[k]) >= 5;
          assert rest[k - 1] == suits[k];
        }
        if FlushScan(cards, rest).Some? {
          var k :| 0 <= k < |rest| && CountSuit(cards, rest[k]) >= 5;
          assert rest[k] == suits[k + 1];
        }
      }
    }
  }

  /** What the flush scan over `suits` returns is the top five of the first of them with five cards. */
  lemma {:induction false} FlushScanFinds(cards: seq<Card>, suits: seq<Suit>)
    ensures FlushScan(cards, suits).Some? ==>
      exists k :: FirstFlushSuit(cards, suits, k) && |Suited(cards, suits[k])| >= 5
        && FlushScan(cards, suits).value == Suited(cards, suits[k])[..5]
  {
    if |suits| > 0 {
      var rest := suits[1..];
      SuitedFacts(cards, suits[0]);
      if |Suited(cards, suits[0])| < 5 {
        FlushScanFinds(cards, rest);
        if FlushScan(cards, rest).Some? {
          var k :| FirstFlushSuit(cards, rest, k) && |Suited(cards, rest[k])| >= 5
            && FlushScan(cards, rest).value == Suited(cards, rest[k])[..5];
          assert rest[k] == suits[k + 1];
          forall j | 0 <= j < k + 1 ensures CountSuit(cards, suits[j]) < 5 {
            if j > 0 {
              assert suits[j] == rest[j - 1];
            }
          }
          assert FirstFlushSuit(cards, suits, k + 1);
        }
      } else {
        assert FirstFlushSuit(cards, suits, 0);
      }
    }
  }

  /** The flush check finds a flush exactly when some suit has five cards, and reports the five
   * highest ranks of the first such suit in SUITS order. */
  lemma FlushFinds(cards: seq<Card>)
    ensures FlushScan(cards, SUITS).Some? <==> HasFlush(cards)
    ensures FlushScan(cards, SUITS).Some? ==>
      exists k :: FirstFlushSuit(cards, SUITS, k) && IsFlushOf(cards, SUITS[k], FlushScan(cards, SUITS).value)
  {
    FlushScanSucceeds(cards, SUITS);
    if HasFlush(cards) {
      var s :| CountSuit(cards, s) >= 5;
      SuitsCoverEverySuit(s);
    }
    if FlushScan(cards, SUITS).Some? {
      FlushScanFinds(cards, SUITS);
      var k :| FirstFlushSuit(cards, SUITS, k) && |Suited(cards, SUITS[k])| >= 5
        && FlushScan(cards, SUITS).value == Suited(cards, SUITS[k])[..5];
      SuitFlush(cards, SUITS[k]);
    }
  }

  /** `t` is the top of the highest straight the cards hold. */
  ghost predicate IsTopStraight(cards: seq<Card>, t: int) {
    IsStraightTop(cards, t) && forall u :: IsStraightTop(cards, u) ==> u <= t
  }

  /** The scan over the distinct ranks finds the highest straight, if there is one. */
  lemma StraightFinds(cards: seq<Card>)
    ensures var ranks := DistinctDesc(RanksOf(cards));
      && (FirstWindow(ranks, 0).Some? <==> HasStraight(cards))
      && (FirstWindow(ranks, 0).Some? ==> IsTopStraight(cards, ranks[FirstWindow(ranks, 0).value]))
  {
    var xs := RanksOf(cards);
    var ranks := DistinctDesc(xs);
    RunScan(ranks);
    forall x ensures x in ranks <==> 2 <= x <= 14 && CountRank(cards, x) > 0 {
      CountIsMultiplicity(xs, x);
    }
    forall t ensures IsStraightTop(cards, t) <==> RunTop(ranks, t) {
    }
  }

  /** The nested full-house scan finds a full house exactly when the cards hold one. */
  lemma FullHouseFinds(cards: seq<Card>)
    ensures FullHouseScan(cards, 14).Some? <==> HasFullHouse(cards)
  {
    if HasFullHouse(cards) {
      var a, b :| 2 <= a <= 14 && 2 <= b <= 14 && a != b && CountRank(cards, a) == 3 && CountRank(cards, b) >= 2;
      assert Passes(cards, PairBesides(a), b);
      assert TripleWithPair(cards, a);
    }
    if FullHouseScan(cards, 14).Some? {
      var (a, b) := FullHouseScan(cards, 14).value;
      assert Passes(cards, PairBesides(a), b);
    }
  }

  lemma {:induction false} TwoPairScanFinds(cards: seq<Card>, r: int, pairs: seq<int>)
    requires |pairs| < 2
    ensures TwoPairScan(cards, r, pairs) ==
      match HighestFrom(cards, CountIs(2), r)
      case None => None
      case Some(a) =>
        if |pairs| == 1 then Some(pairs + [a])
        else match HighestFrom(cards, CountIs(2), a - 1)
          case None => None
          case Some(b) => Some([a, b])
    decreases r
  {
    if r >= 2 {
      if CountRank(cards, r) == 2 {
        assert HighestFrom(cards, CountIs(2), r) == Some(r);
        if |pairs| == 0 {
          assert pairs + [r] == [r];
          TwoPairScanFinds(cards, r - 1, [r]);
          var b := HighestFrom(cards, CountIs(2), r - 1);
          if b.Some? {
            assert [r] + [b.value] == [r, b.value];
          }
        }
      } else {
        assert HighestFrom(cards, CountIs(2), r) == HighestFrom(cards, CountIs(2), r - 1);
        TwoPairScanFinds(cards, r - 1, pairs);
      }
    }
  }

  /** The two-pair scan returns the two highest ranks held exactly twice. */
  lemma TwoPairFinds(cards: seq<Card>)
    ensures TwoPairScan(cards, 14, []).Some? <==> HasTwoPair(cards)
    ensures TwoPairScan(cards, 14, []).Some? ==>
      var v := TwoPairScan(cards, 14, []).value;
      |v| == 2 && IsHighest(cards, CountIs(2), v[0])
      && 2 <= v[1] < v[0] && Passes(cards, CountIs(2), v[1])
      && forall w :: v[1] < w < v[0] ==> !Passes(cards, CountIs(2), w)
  {
    TwoPairScanFinds(cards, 14, []);
    if HasTwoPair(cards) {
      var a, b :| 2 <= b < a <= 14 && CountRank(cards, a) == 2 && CountRank(cards, b) == 2;
      assert Passes(cards, CountIs(2), a);
      assert Passes(cards, CountIs(2), b);
    }
  }

  /** A descending rank scan finds a rank exactly when one passes its test. */
  lemma HighestFinds(cards: seq<Card>, t: RankTest)
    ensures HighestFrom(cards, t, 14).Some? <==> exists r :: 2 <= r <= 14 && Passes(cards, t, r)
    ensures HighestFrom(cards, t, 14).Some? ==> IsHighest(cards, t, HighestFrom(cards, t, 14).value)
  {
    if HighestFrom(cards, t, 14).Some? {
      assert Passes(cards, t, HighestFrom(cards, t, 14).value);
    }
  }

  /** A scan for a rank held exactly `n` times succeeds exactly when such a rank exists. */
  lemma CountScanFinds(cards: seq<Card>, n: nat)
    ensures HighestFrom(cards, CountIs(n), 14).Some? <==> exists r :: 2 <= r <= 14 && CountRank(cards, r) == n
  {
    HighestFinds(cards, CountIs(n));
    if exists r :: 2 <= r <= 14 && CountRank(cards, r) == n {
      var r :| 2 <= r <= 14 && CountRank(cards, r) == n;
      assert Passes(cards, CountIs(n), r);
    }
  }

  /** get_best_hand tries the scans strongest first. */
  lemma BestHandTriesInOrder(cards: seq<Card>)
    requires |cards| > 0
    ensures BestHand(cards).category == Precedence(
      StraightFlushScan(cards, SUITS).Some?, HighestFrom(cards, CountIs(4), 14).Some?,
      FullHouseScan(cards, 14).Some?, FlushScan(cards, SUITS).Some?,
      FirstWindow(DistinctDesc(RanksOf(cards)), 0).Some?, HighestFrom(cards, CountIs(3), 14).Some?,
      TwoPairScan(cards, 14, []).Some?, HighestFrom(cards, CountIs(2), 14).Some?)
  {
  }

  /** The four strongest scans succeed exactly when the cards hold their category. */
  lemma UpperScansDecide(cards: seq<Card>)
    requires NoDuplicates(cards)
    ensures StraightFlushScan(cards, SUITS).Some? == HasStraightFlush(cards)
    ensures HighestFrom(cards, CountIs(4), 14).Some? == HasFourOfAKind(cards)
    ensures FullHouseScan(cards, 14).Some? == HasFullHouse(cards)
    ensures FlushScan(cards, SUITS).Some? == HasFlush(cards)
  {
    assert StraightFlushScan(cards, SUITS).Some? == HasStraightFlush(cards) by { StraightFlushFinds(cards); }
    assert HighestFrom(cards, CountIs(4), 14).Some? == HasFourOfAKind(cards) by { CountScanFinds(cards, 4); }
    assert FullHouseScan(cards, 14).Some? == HasFullHouse(cards) by { FullHouseFinds(cards); }
    assert FlushScan(cards, SUITS).Some? == HasFlush(cards) by { FlushFinds(cards); }
  }

  /** The four weakest scans succeed exactly when the cards hold their category. */
  lemma LowerScansDecide(cards: seq<Card>)
    ensures FirstWindow(DistinctDesc(RanksOf(cards)), 0).Some? == HasStraight(cards)
    ensures HighestFrom(cards, CountIs(3), 14).Some? == HasThreeOfAKind(cards)
    ensures TwoPairScan(cards, 14, []).Some? == HasTwoPair(cards)
    ensures HighestFrom(cards, CountIs(2), 14).Some? == HasPair(cards)
  {
    assert FirstWindow(DistinctDesc(RanksOf(cards)), 0).Some? == HasStraight(cards) by { StraightFinds(cards); }
    assert HighestFrom(cards, CountIs(3), 14).Some? == HasThreeOfAKind(cards) by { CountScanFinds(cards, 3); }
    assert TwoPairScan(cards, 14, []).Some? == HasTwoPair(cards) by { TwoPairFinds(cards); }
    assert HighestFrom(cards, CountIs(2), 14).Some? == HasPair(cards) by { CountScanFinds(cards, 2); }
  }

  /** get_best_hand returns the strongest category the cards hold (for distinct cards). */
  lemma BestHandCategory(cards: seq<Card>)
    requires |cards| > 0 && NoDuplicates(cards)
    ensures BestHand(cards).category == ReferenceCategory(cards)
  {
    BestHandTriesInOrder(cards);
    UpperScansDecide(cards);
    LowerScansDecide(cards);
  }

  /** The high-card rank is the highest rank among the cards. */
  lemma HighCardIsHighest(cards: seq<Card>)
    requires |cards| > 0
    ensures HighCardRank(cards) in RanksOf(cards)
    ensures forall i :: 0 <= i < |cards| ==> cards[i].rank <= HighCardRank(cards)
  {
    var ranks := RanksOf(cards);
    var sorted := SortDesc(ranks);
    SortDescIsSorting(ranks);
    assert sorted[0] in multiset(sorted);
    forall i | 0 <= i < |cards| ensures cards[i].rank <= sorted[0] {
      assert ranks[i] in multiset(sorted);
      var j :| 0 <= j < |sorted| && sorted[j] == ranks[i];
    }
  }

  /** What the tie-break value of each category holds. */
  ghost predicate ValueFits(cards: seq<Card>, h: Hand) {
    match h.category
    case StraightFlush =>
      |h.value| == 1 && exists k :: FirstRunSuit(cards, SUITS, k) && IsTopRun(cards, SUITS[k], h.value[0])
    case FourOfAKind => |h.value| == 1 && IsHighest(cards, CountIs(4), h.value[0])
    case FullHouse =>
      |h.value| == 2 && 2 <= h.value[0] <= 14 && TripleWithPair(cards, h.value[0])
      && (forall w :: h.value[0] < w <= 14 ==> !TripleWithPair(cards, w))
      && IsHighest(cards, PairBesides(h.value[0]), h.value[1])
    case Flush => exists k :: FirstFlushSuit(cards, SUITS, k) && IsFlushOf(cards, SUITS[k], h.value)
    case Straight => |h.value| == 1 && IsTopStraight(cards, h.value[0])
    case ThreeOfAKind => |h.value| == 1 && IsHighest(cards, CountIs(3), h.value[0])
    case TwoPair =>
      |h.value| == 2 && IsHighest(cards, CountIs(2), h.value[0])
      && 2 <= h.value[1] < h.value[0] && Passes(cards, CountIs(2), h.value[1])
      && forall w :: h.value[1] < w < h.value[0] ==> !Passes(cards, CountIs(2), w)
    case Pair => |h.value| == 1 && IsHighest(cards, CountIs(2), h.value[0])
    case HighCard =>
      |h.value| == 1 && h.value[0] in RanksOf(cards)
      && forall i :: 0 <= i < |cards| ==> cards[i].rank <= h.value[0]
  }

  lemma StraightFlushValue(cards: seq<Card>)
    requires NoDuplicates(cards) && StraightFlushScan(cards, SUITS).Some?
    ensures ValueFits(cards, Hand(StraightFlush, [StraightFlushScan(cards, SUITS).value]))
  {
    StraightFlushFinds(cards);
  }

  lemma RankScanValue(cards: seq<Card>, c: Category, n: nat)
    requires HighestFrom(cards, CountIs(n), 14).Some?
    requires (c == FourOfAKind && n == 4) || (c == ThreeOfAKind && n == 3) || (c == Pair && n == 2)
    ensures ValueFits(cards, Hand(c, [HighestFrom(cards, CountIs(n), 14).value]))
  {
    HighestFinds(cards, CountIs(n));
  }

  lemma FullHouseValue(cards: seq<Card>)
    requires FullHouseScan(cards, 14).Some?
    ensures ValueFits(cards, Hand(FullHouse, [FullHouseScan(cards, 14).value.0, FullHouseScan(cards, 14).value.1]))
  {
    HighestFinds(cards, PairBesides(FullHouseScan(cards, 14).value.0));
  }

  lemma FlushValue(cards: seq<Card>)
    requires FlushScan(cards, SUITS).Some?
    ensures ValueFits(cards, Hand(Flush, FlushScan(cards, SUITS).value))
  {
    FlushFinds(cards);
  }

  lemma StraightValue(cards: seq<Card>)
    ensures var ranks := DistinctDesc(RanksOf(cards));
      FirstWindow(ranks, 0).Some? ==> ValueFits(cards, Hand(Straight, [ranks[FirstWindow(ranks, 0).value]]))
  {
    StraightFinds(cards);
  }

  lemma TwoPairValue(cards: seq<Card>)
    requires TwoPairScan(cards, 14, []).Some?
    ensures ValueFits(cards, Hand(TwoPair, TwoPairScan(cards, 14, []).value))
  {
    TwoPairFinds(cards);
  }

  lemma HighCardValue(cards: seq<Card>)
    requires |cards| > 0
    ensures ValueFits(cards, Hand(HighCard, [HighCardRank(cards)]))
  {
    HighCardIsHighest(cards);
  }

  /** The value get_best_hand attaches to the category is the one the category calls for. */
  lemma BestHandValue(cards: seq<Card>)
    requires |cards| > 0 && NoDuplicates(cards)
    ensures ValueFits(cards, BestHand(cards))
  {
    if StraightFlushScan(cards, SUITS).Some? {
      StraightFlushValue(cards);
    } else if HighestFrom(cards, CountIs(4), 14).Some? {
      RankScanValue(cards, FourOfAKind, 4);
    } else if FullHouseScan(cards, 14).Some? {
      FullHouseValue(cards);
    } else if FlushScan(cards, SUITS).Some? {
      FlushValue(cards);
    } else if FirstWindow(DistinctDesc(RanksOf(cards)), 0).Some? {
      StraightValue(cards);
    } else if HighestFrom(cards, CountIs(3), 14).Some? {
      RankScanValue(cards, ThreeOfAKind, 3);
    } else if TwoPairScan(cards, 14, []).Some? {
      TwoPairValue(cards);
    } else if HighestFrom(cards, CountIs(2), 14).Some? {
      RankScanValue(cards, Pair, 2);
    } else {
      HighCardValue(cards);
    }
  }
}
