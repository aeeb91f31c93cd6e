/**
 * Winner resolution: `get_winner` of backend/models/poker_game.py.
 *
 * The hands are compared first by the ranking of their category (high card 0 ..
 * straight flush 8), then by the tie-break value, which Python compares
 * lexicographically (a single rank, a (rank, rank) tuple or a list of five ranks).
 * The result is the position of the single best hand in the list, or the list of
 * positions of the tied best hands.
 */
module Winners {
  import opened Util
  import opened HandEval

  /** The result of get_winner: one position, or the positions of a split pot. */
  datatype Winner = Single(index: nat) | Split(indices: seq<nat>)

  /** The hand_rankings table. */
  function Ranking(c: Category): (n: nat)
    ensures n <= 8
  {
    match c
    case StraightFlush => 8
    case FourOfAKind => 7
    case FullHouse => 6
    case Flush => 5
    case Straight => 4
    case ThreeOfAKind => 3
    case TwoPair => 2
    case Pair => 1
    case HighCard => 0
  }

  /** The table gives every category its own ranking, in the evaluator's order of precedence. */
  lemma RankingFollowsPrecedence(a: Category, b: Category)
    ensures Ranking(a) == Ranking(b) ==> a == b
    ensures Ranking(StraightFlush) > Ranking(FourOfAKind) > Ranking(FullHouse) > Ranking(Flush)
      > Ranking(Straight) > Ranking(ThreeOfAKind) > Ranking(TwoPair) > Ranking(Pair) > Ranking(HighCard)
  {
  }

  /** Python's `<` on sequences of ints: the first difference decides, a proper prefix is smaller. */
  predicate LexLess(a: seq<int>, b: seq<int>) {
    if |a| == 0 then |b| > 0
    else if |b| == 0 then false
    else if a[0] != b[0] then a[0] < b[0]
    else LexLess(a[1..], b[1..])
  }

  lemma {:induction false} LexIrreflexive(a: seq<int>)
    ensures !LexLess(a, a)
  {
    if |a| > 0 {
      LexIrreflexive(a[1..]);
    }
  }

  lemma {:induction false} LexTransitive(a: seq<int>, b: seq<int>, c: seq<int>)
    requires LexLess(a, b) && LexLess(b, c)
    ensures LexLess(a, c)
  {
    if |a| > 0 && |b| > 0 && |c| > 0 && a[0] == b[0] == c[0] {
      LexTransitive(a[1..], b[1..], c[1..]);
    }
  }

  /** Any two different sequences are ordered one way round. */
  lemma {:induction false} LexTotal(a: seq<int>, b: seq<int>)
    ensures a == b || LexLess(a, b) || LexLess(b, a)
  {
    if |a| > 0 && |b| > 0 && a[0] == b[0] {
      LexTotal(a[1..], b[1..]);
      if a[1..] == b[1..] {
        assert a == [a[0]] + a[1..] && b == [b[0]] + b[1..];
      }
    }
  }

  lemma LexAsymmetric(a: seq<int>, b: seq<int>)
    requires LexLess(a, b)
    ensures !LexLess(b, a)
  {
    if LexLess(b, a) {
      LexTransitive(a, b, a);
      LexIrreflexive(a);
    }
  }

  /** `max(values)`: Python keeps the current maximum and replaces it only by a larger item. */
  function MaxValue(values: seq<seq<int>>): (r: seq<int>)
    requires |values| > 0
    ensures r in values
  {
    if |values| == 1 then values[0]
    else
      var current := MaxValue(values[..|values| - 1]);
      if LexLess(current, values[|values| - 1]) then values[|values| - 1] else current
  }

  lemma {:induction false} MaxValueIsMaximum(values: seq<seq<int>>)
    requires |values| > 0
    ensures MaxValue(values) in values
    ensures forall k :: 0 <= k < |values| ==> !LexLess(MaxValue(values), values[k])
  {
    if |values| > 1 {
      var front, last := values[..|values| - 1], values[|values| - 1];
      MaxValueIsMaximum(front);
      var current := MaxValue(front);
      assert MaxValue(values) == if LexLess(current, last) then last else current;
      assert current in values;
      forall k | 0 <= k < |values| ensures !LexLess(MaxValue(values), values[k]) {
        if k == |values| - 1 {
          if LexLess(current, last) {
            LexIrreflexive(last);
          }
        } else {
          assert values[k] == front[k];
          if LexLess(current, last) && LexLess(last, values[k]) {
            LexTransitive(current, last, values[k]);
          }
        }
      }
    } else {
      LexIrreflexive(values[0]);
    }
  }

  /** `max(hand_rankings[hand[0]] for hand in best_hands)` */
  function MaxRanking(hands: seq<Hand>): (m: nat)
    requires |hands| > 0
    ensures exists i :: 0 <= i < |hands| && Ranking(hands[i].category) == m
    ensures forall i :: 0 <= i < |hands| ==> Ranking(hands[i].category) <= m
  {
    if |hands| == 1 then Ranking(hands[0].category)
    else
      var rest := MaxRanking(hands[1..]);
      assert forall i :: 1 <= i < |hands| ==> hands[i] == hands[1..][i - 1];
      if Ranking(hands[0].category) >= rest then Ranking(hands[0].category) else rest
  }

  predicate Increasing(xs: seq<nat>) {
    forall a, b :: 0 <= a < b < |xs| ==> xs[a] < xs[b]
  }

  /** `[i for i, hand in enumerate(best_hands) if hand_rankings[hand[0]] == m]`, from position `from` on. */
  function IndicesRanked(hands: seq<Hand>, m: nat, from: nat): (r: seq<nat>)
    requires from <= |hands|
    ensures forall k :: 0 <= k < |r| ==> from <= r[k] < |hands| && Ranking(hands[r[k]].category) == m
    ensures forall i :: from <= i < |hands| && Ranking(hands[i].category) == m ==> i in r
    ensures Increasing(r)
    decreases |hands| - from
  {
    if from == |hands| then []
    else if Ranking(hands[from].category) == m then [from] + IndicesRanked(hands, m, from + 1)
    else IndicesRanked(hands, m, from + 1)
  }

  /** `[i for i, v in zip(best_indices, values) if v == max_value]` */
  function KeepValue(hands: seq<Hand>, indices: seq<nat>, top: seq<int>): (r: seq<nat>)
    requires forall k :: 0 <= k < |indices| ==> indices[k] < |hands|
    ensures forall x :: x in r <==> x in indices && hands[x].value == top
  {
    if |indices| == 0 then []
    else
      var rest := KeepValue(hands, indices[1..], top);
      if hands[indices[0]].value == top then [indices[0]] + rest else rest
  }

  lemma {:induction false} KeepValueIncreasing(hands: seq<Hand>, indices: seq<nat>, top: seq<int>)
    requires forall k :: 0 <= k < |indices| ==> indices[k] < |hands|
    requires Increasing(indices)
    ensures Increasing(KeepValue(hands, indices, top))
  {
    if |indices| > 0 {
      var rest := KeepValue(hands, indices[1..], top);
      KeepValueIncreasing(hands, indices[1..], top);
      forall b | 0 <= b < |rest| ensures indices[0] < rest[b] {
        assert rest[b] in rest;
        var k :| 0 <= k < |indices[1..]| && indices[1..][k] == rest[b];
        assert rest[b] == indices[k + 1];
      }
    }
  }

  /** The tie-break values of the hands at `indices`. */
  function ValuesAt(hands: seq<Hand>, indices: seq<nat>): (r: seq<seq<int>>)
    requires forall k :: 0 <= k < |indices| ==> indices[k] < |hands|
    ensures |r| == |indices| && forall k :: 0 <= k < |r| ==> r[k] == hands[indices[k]].value
  {
    seq(|indices|, k requires 0 <= k < |indices| => hands[indices[k]].value)
  }

  /** `best_indices`: the positions of the hands of the highest ranking. */
  function BestIndices(hands: seq<Hand>): (r: seq<nat>)
    requires |hands| > 0
    ensures forall k :: 0 <= k < |r| ==> r[k] < |hands| && Ranking(hands[r[k]].category) == MaxRanking(hands)
  {
    IndicesRanked(hands, MaxRanking(hands), 0)
  }

  /** `max(values)` over the hands of the highest ranking. */
  function TopValue(hands: seq<Hand>): (r: seq<int>)
    requires |hands| > 0
    ensures r in ValuesAt(hands, BestIndices(hands))
  {
    MaxValue(ValuesAt(hands, BestIndices(hands)))
  }

  /** get_winner; None where `max` of an empty list raises. */
  function GetWinner(hands: seq<Hand>): (r: Option<Winner>)
    ensures r.None? <==> |hands| == 0
  {
    if |hands| == 0 then None
    else
      var best := BestIndices(hands);
      if |best| == 1 then Some(Single(best[0]))
      else
        var winners := KeepValue(hands, best, TopValue(hands));
        if |winners| == 1 then Some(Single(winners[0])) else Some(Split(winners))
  }

  /** Hand `a` beats hand `b`: a higher category, or the same one with a larger tie-break value. */
  predicate Beats(a: Hand, b: Hand) {
    Ranking(a.category) > Ranking(b.category)
    || (Ranking(a.category) == Ranking(b.category) && LexLess(b.value, a.value))
  }

  /** No hand in the list beats the hand at position `i`. */
  predicate IsTopHand(hands: seq<Hand>, i: int) {
    0 <= i < |hands| && forall j :: 0 <= j < |hands| ==> !Beats(hands[j], hands[i])
  }

  lemma BestFacts(hands: seq<Hand>)
    requires |hands| > 0
    ensures |BestIndices(hands)| > 0
    ensures TopValue(hands) in ValuesAt(hands, BestIndices(hands))
    ensures forall k :: 0 <= k < |BestIndices(hands)| ==>
      !LexLess(TopValue(hands), hands[BestIndices(hands)[k]].value)
  {
    var m := MaxRanking(hands);
    var w :| 0 <= w < |hands| && Ranking(hands[w].category) == m;
    assert w in BestIndices(hands);
    MaxValueIsMaximum(ValuesAt(hands, BestIndices(hands)));
  }

  lemma TopHandIsBest(hands: seq<Hand>, i: int)
    requires |hands| > 0 && IsTopHand(hands, i)
    ensures i in BestIndices(hands) && hands[i].value == TopValue(hands)
  {
    BestFacts(hands);
    var best, top := BestIndices(hands), TopValue(hands);
    var values := ValuesAt(hands, best);
    var w :| 0 <= w < |hands| && Ranking(hands[w].category) == MaxRanking(hands);
    assert !Beats(hands[w], hands[i]);
    assert i in best;
    var p :| 0 <= p < |values| && values[p] == top;
    assert !Beats(hands[best[p]], hands[i]);
    var k :| 0 <= k < |best| && best[k] == i;
    assert !LexLess(top, hands[i].value);
    LexTotal(hands[i].value, top);
  }

  lemma BestIsTopHand(hands: seq<Hand>, i: int)
    requires |hands| > 0 && i in BestIndices(hands) && hands[i].value == TopValue(hands)
    ensures IsTopHand(hands, i)
  {
    BestFacts(hands);
  }

  /** The top hands are those of the highest ranking whose value is the maximum among them. */
  lemma TopHands(hands: seq<Hand>)
    requires |hands| > 0
    ensures forall i :: IsTopHand(hands, i) <==> i in BestIndices(hands) && hands[i].value == TopValue(hands)
  {
    forall i ensures IsTopHand(hands, i) <==> i in BestIndices(hands) && hands[i].value == TopValue(hands) {
      if IsTopHand(hands, i) {
        TopHandIsBest(hands, i);
      } else if i in BestIndices(hands) && hands[i].value == TopValue(hands) {
        BestIsTopHand(hands, i);
      }
    }
  }

  /** When one hand alone has the highest ranking, it is the only top hand. */
  lemma OneBestIsUniqueTop(hands: seq<Hand>)
    requires |hands| > 0 && |BestIndices(hands)| == 1
    ensures IsTopHand(hands, BestIndices(hands)[0])
    ensures forall j :: IsTopHand(hands, j) ==> j == BestIndices(hands)[0]
  {
    var best := BestIndices(hands);
    TopHands(hands);
    var values := ValuesAt(hands, best);
    assert TopValue(hands) == MaxValue(values) == values[0];
  }

  /** When several hands share the highest ranking, the kept ones are exactly the top hands. */
  lemma KeptAreTopHands(hands: seq<Hand>)
    requires |hands| > 0
    ensures var winners := KeepValue(hands, BestIndices(hands), TopValue(hands));
      && |winners| > 0 && Increasing(winners)
      && forall j :: IsTopHand(hands, j) <==> j in winners
  {
    var best := BestIndices(hands);
    TopHands(hands);
    BestFacts(hands);
    var winners := KeepValue(hands, best, TopValue(hands));
    KeepValueIncreasing(hands, best, TopValue(hands));
    var p :| 0 <= p < |best| && hands[best[p]].value == TopValue(hands);
    assert best[p] in winners;
  }

  /** get_winner names the unique top hand, or lists every top hand of a split pot. */
  lemma GetWinnerFindsTopHands(hands: seq<Hand>)
    requires |hands| > 0
    ensures GetWinner(hands).Some?
    ensures GetWinner(hands).value.Single? ==>
      var i := GetWinner(hands).value.index;
      IsTopHand(hands, i) && forall j :: IsTopHand(hands, j) ==> j == i
    ensures GetWinner(hands).value.Split? ==>
      var ws := GetWinner(hands).value.indices;
      && |ws| >= 2 && Increasing(ws)
      && (forall k :: 0 <= k < |ws| ==> IsTopHand(hands, ws[k]))
      && forall j :: IsTopHand(hands, j) ==> j in ws
  {
    if |BestIndices(hands)| == 1 {
      OneBestIsUniqueTop(hands);
    } else {
      KeptAreTopHands(hands);
      var ws := KeepValue(hands, BestIndices(hands), TopValue(hands));
      assert forall k :: 0 <= k < |ws| ==> ws[k] in ws;
    }
  }

  /** A single winner is exactly the case of one top hand. */
  lemma SingleWinnerIffUniqueTop(hands: seq<Hand>, i: nat)
    requires |hands| > 0
    ensures GetWinner(hands) == Some(Single(i)) <==>
      IsTopHand(hands, i) && forall j :: IsTopHand(hands, j) ==> j == i
  {
    GetWinnerFindsTopHands(hands);
    var w := GetWinner(hands).value;
    if w.Split? {
      assert IsTopHand(hands, w.indices[0]) && IsTopHand(hands, w.indices[1]);
    }
  }
}
