/** The hand evaluator of the equity module: the straight finder, the
    five-card scorer and the best-of-all-five-card-subsets evaluator. */
module Evaluator {
  import opened Wrappers
  import opened Seqs
  import opened Models
  import opened Sorting
  import opened Runs
  import opened Counts
  import opened HandScores

  /** `RANK_ORDER[card.rank]` for each card: a card holds its rank as this
      value already (2 for a deuce up to 14 for an ace). */
  function Values(cards: seq<Card>): (vs: seq<int>)
    ensures |vs| == |cards|
    ensures forall i :: 0 <= i < |cards| ==> vs[i] == cards[i].rank as int
  {
    seq(|cards|, i requires 0 <= i < |cards| => cards[i].rank as int)
  }

  predicate RankValues(vs: seq<int>) {
    forall i :: 0 <= i < |vs| ==> 2 <= vs[i] <= 14
  }

  /** `j` is one of the ranks, an ace counting also as a one. */
  predicate InExtended(ranks: seq<int>, j: int) {
    j in ranks || (j == 1 && 14 in ranks)
  }

  /** Five consecutive values ending at `h` are all among the ranks (the
      ace may play low, so the wheel A-2-3-4-5 tops at 5). */
  predicate IsStraightTop(ranks: seq<int>, h: int) {
    forall j :: h - 4 <= j <= h ==> InExtended(ranks, j)
  }

  /** `set(ranks)` with 1 added when an ace is present, as a list. */
  function ExtendedKeys(ranks: seq<int>): (ext: seq<int>)
    requires RankValues(ranks)
    ensures Distinct(ext)
    ensures forall x :: x in ext <==> InExtended(ranks, x)
  {
    var keys := Keys(ranks);
    assert 1 !in keys by {
      assert forall i :: 0 <= i < |ranks| ==> ranks[i] != 1;
    }
    if 14 in ranks then keys + [1] else keys
  }

  /** `sorted(set(ranks))`, with 1 added when an ace is present; as every
      rank is at least 2, sorting again after appending 1 puts it first. */
  function UniqueRanks(ranks: seq<int>): (u: seq<int>)
    requires RankValues(ranks)
    ensures Ascending(u)
    ensures forall x :: x in u <==> InExtended(ranks, x)
  {
    SortAsc(ExtendedKeys(ranks))
  }

  /** `_straight_high`: the sorted distinct ranks (ace also low) are walked
      pairwise and the top of the last run of five is kept. The branch for
      a best of 1 can never be taken: 1 is the smallest value, never the
      second of a consecutive pair. */
  function StraightHigh(ranks: seq<int>): (r: Option<int>)
    requires RankValues(ranks)
    ensures r.Some? ==> 5 <= r.value <= 14 && IsStraightTop(ranks, r.value)
    ensures r.Some? ==> forall h :: IsStraightTop(ranks, h) ==> h <= r.value
    ensures r.None? <==> forall h :: !IsStraightTop(ranks, h)
  {
    var u := UniqueRanks(ranks);
    var best := StraightWalk(u);
    StraightWalkMeaning(ranks, u, best);
    if best == Some(1) then Some(5) else best
  }

  lemma StraightWalkMeaning(ranks: seq<int>, u: seq<int>, best: Option<int>)
    requires RankValues(ranks) && u == UniqueRanks(ranks) && best == StraightWalk(u)
    ensures best.Some? ==> 5 <= best.value <= 14 && IsStraightTop(ranks, best.value)
    ensures best.Some? ==> forall h :: IsStraightTop(ranks, h) ==> h <= best.value
    ensures best.None? <==> forall h :: !IsStraightTop(ranks, h)
  {
    if best.Some? {
      var v := best.value;
      CoversIsStraightTop(ranks, u, v);
      assert v - 4 in u;
      forall h | IsStraightTop(ranks, h) ensures h <= v {
        CoversIsStraightTop(ranks, u, h);
      }
    } else {
      forall h ensures !IsStraightTop(ranks, h) {
        CoversIsStraightTop(ranks, u, h);
      }
    }
  }

  lemma CoversIsStraightTop(ranks: seq<int>, u: seq<int>, h: int)
    requires RankValues(ranks) && u == UniqueRanks(ranks)
    ensures IsStraightTop(ranks, h) <==> h in u && Covers(u, h - 4, h)
  {
  }

  /** `len(set(suits)) == 1`: the cards share one suit. */
  predicate IsFlush(cards: seq<Card>) {
    |cards| > 0 && forall i :: 0 <= i < |cards| ==> cards[i].suit == cards[0].suit
  }

  /** `sorted(ranks, reverse=True)` for the cards' values. */
  function SortedRanks(cards: seq<Card>): (ranks: seq<int>)
    ensures |ranks| == |cards|
    ensures SortedDesc(ranks) && RankValues(ranks)
    ensures multiset(ranks) == multiset(Values(cards))
  {
    var ranks := SortDesc(Values(cards));
    ValuesAreRanks(cards);
    PermutedRankValues(ranks, Values(cards));
    ranks
  }

  lemma ValuesAreRanks(cards: seq<Card>)
    ensures RankValues(Values(cards))
  {
  }

  /** Reordering keeps every value a rank. */
  lemma PermutedRankValues(a: seq<int>, b: seq<int>)
    requires multiset(a) == multiset(b) && RankValues(b)
    ensures RankValues(a)
  {
    forall i | 0 <= i < |a| ensures 2 <= a[i] <= 14 {
      assert a[i] in multiset(b);
      assert a[i] in b;
    }
  }

  /** `_score_five_cards`. Each `max(rank for rank, cnt in counts.items()
      if cnt == c)` is the head of the values occurring `c` times, sorted
      highest first. */
  function ScoreFive(cards: seq<Card>): (s: HandScore)
    requires |cards| == 5
    ensures 0 <= s.category <= 8
    ensures ScoreShape(s)
  {
    var ranks := SortedRanks(cards);
    var flush := IsFlush(cards);
    var straight := StraightHigh(ranks);
    if flush && straight.Some? then HandScore(8, [straight.value])
    else ScoreByCounts(ranks, flush, straight)
  }

  /** The number of tie-break ranks each category carries. */
  predicate ScoreShape(s: HandScore) {
    (s.category == 8 || s.category == 4 ==> |s.ranks| == 1) &&
    (s.category == 7 || s.category == 6 ==> |s.ranks| == 2) &&
    (s.category == 3 || s.category == 2 ==> |s.ranks| == 3) &&
    (s.category == 1 ==> |s.ranks| == 4) &&
    (s.category == 5 || s.category == 0 ==> |s.ranks| == 5)
  }

  /** `_score_five_cards` from the four-of-a-kind test on. */
  function ScoreByCounts(ranks: seq<int>, flush: bool, straight: Option<int>): (s: HandScore)
    requires |ranks| == 5
    ensures 0 <= s.category <= 7
    ensures ScoreShape(s)
  {
    FiveCounts(ranks);
    var top := MaxOf(CountValues(multiset(ranks), Keys(ranks)));
    if top == 4 then QuadsScore(ranks)
    else if PrefixSlice(Profile(ranks), 2) == [3, 2] then FullHouseScore(ranks)
    else if flush then HandScore(5, SortDesc(ranks))
    else if straight.Some? then HandScore(4, [straight.value])
    else ScoreByKinds(ranks, top)
  }

  /** `_score_five_cards` from the three-of-a-kind test on. */
  function ScoreByKinds(ranks: seq<int>, top: int): (s: HandScore)
    requires |ranks| == 5
    requires top == MaxOf(CountValues(multiset(ranks), Keys(ranks)))
    requires top != 4 && PrefixSlice(Profile(ranks), 2) != [3, 2]
    ensures 0 <= s.category <= 3
    ensures ScoreShape(s)
  {
    FiveCounts(ranks);
    if top == 3 then TripsScore(ranks)
    else
      var pairs := RanksWithCount(ranks, 2);
      if |pairs| >= 2 then TwoPairScore(ranks)
      else if |pairs| == 1 then OnePairScore(ranks)
      else HandScore(0, SortDesc(ranks))
  }

  /** Four of a kind: the quad rank, then the kicker. */
  function QuadsScore(ranks: seq<int>): (s: HandScore)
    requires |Occurring(ranks, 4)| == 1 && |Occurring(ranks, 1)| == 1
    ensures s.category == 7 && |s.ranks| == 2
    ensures multiset(ranks)[s.ranks[0]] == 4 && multiset(ranks)[s.ranks[1]] == 1
  {
    HandScore(7, [RanksWithCount(ranks, 4)[0], RanksWithCount(ranks, 1)[0]])
  }

  /** Full house: the trip rank, then the pair rank. */
  function FullHouseScore(ranks: seq<int>): (s: HandScore)
    requires |Occurring(ranks, 3)| == 1 && |Occurring(ranks, 2)| == 1
    ensures s.category == 6 && |s.ranks| == 2
    ensures multiset(ranks)[s.ranks[0]] == 3 && multiset(ranks)[s.ranks[1]] == 2
  {
    HandScore(6, [RanksWithCount(ranks, 3)[0], RanksWithCount(ranks, 2)[0]])
  }

  /** Three of a kind: the trip rank, then the two kickers, highest first. */
  function TripsScore(ranks: seq<int>): (s: HandScore)
    requires |Occurring(ranks, 3)| == 1 && |Occurring(ranks, 1)| == 2
    ensures s.category == 3 && |s.ranks| == 3
    ensures multiset(ranks)[s.ranks[0]] == 3
    ensures multiset(ranks)[s.ranks[1]] == 1 && multiset(ranks)[s.ranks[2]] == 1
    ensures s.ranks[1] > s.ranks[2]
  {
    var singles := RanksWithCount(ranks, 1);
    var kickers := PrefixSlice(singles, 2);
    assert kickers == singles;
    HandScore(3, [RanksWithCount(ranks, 3)[0]] + kickers)
  }

  /** Two pair: the higher pair, the lower pair, then the kicker. */
  function TwoPairScore(ranks: seq<int>): (s: HandScore)
    requires |Occurring(ranks, 2)| == 2 && |Occurring(ranks, 1)| == 1
    ensures s.category == 2 && |s.ranks| == 3
    ensures multiset(ranks)[s.ranks[0]] == 2 && multiset(ranks)[s.ranks[1]] == 2
    ensures s.ranks[0] > s.ranks[1]
    ensures multiset(ranks)[s.ranks[2]] == 1
  {
    var pairs := RanksWithCount(ranks, 2);
    HandScore(2, [pairs[0], pairs[1], RanksWithCount(ranks, 1)[0]])
  }

  /** One pair: the pair rank, then the three kickers, highest first. */
  function OnePairScore(ranks: seq<int>): (s: HandScore)
    requires |Occurring(ranks, 2)| == 1 && |Occurring(ranks, 1)| == 3
    ensures s.category == 1 && |s.ranks| == 4
    ensures multiset(ranks)[s.ranks[0]] == 2
    ensures forall i :: 1 <= i < 4 ==> multiset(ranks)[s.ranks[i]] == 1
    ensures s.ranks[1] > s.ranks[2] > s.ranks[3]
  {
    var singles := RanksWithCount(ranks, 1);
    var kickers := PrefixSlice(singles, 3);
    assert kickers == singles;
    HandScore(1, [RanksWithCount(ranks, 2)[0]] + kickers)
  }

  /** `sorted((rank for rank, cnt in counts.items() if cnt == c),
      reverse=True)`: the values occurring exactly `c` times, strictly
      descending. */
  function RanksWithCount(ranks: seq<int>, c: int): (r: seq<int>)
    requires c >= 1
    ensures |r| == |Occurring(ranks, c)|
    ensures forall i, j :: 0 <= i < j < |r| ==> r[i] > r[j]
    ensures forall i :: 0 <= i < |r| ==> multiset(ranks)[r[i]] == c
  {
    var occ := Occurring(ranks, c);
    var r := SortDesc(occ);
    SortDescStrict(occ);
    assert forall i :: 0 <= i < |r| ==> r[i] in multiset(occ) by {
      forall i | 0 <= i < |r| ensures r[i] in multiset(occ) {
        assert r[i] in r;
      }
    }
    r
  }

  datatype EvalError = NeedFiveCards

  /** The loop of `evaluate_best_hand`: the best score among the
      combinations, a later one replacing the current best only when it
      is strictly better. */
  function BestScore(combos: seq<seq<Card>>): (best: HandScore)
    requires |combos| > 0
    requires forall c :: c in combos ==> |c| == 5
    ensures forall i :: 0 <= i < |combos| ==> LessEq(ScoreFive(combos[i]), best)
    decreases |combos|
  {
    var last := ScoreFive(combos[|combos| - 1]);
    if |combos| == 1 then
      BoundKept(combos, [], last, last);
      last
    else
      var init := combos[..|combos| - 1];
      var prev := BestScore(init);
      var next := Max(prev, last);
      BoundKept(combos, init, prev, next);
      next
  }

  /** A bound on all scores but the last that the new best dominates, and
      the last score also below it, bound every score. */
  lemma BoundKept(combos: seq<seq<Card>>, init: seq<seq<Card>>, prev: HandScore, next: HandScore)
    requires |combos| > 0 && init == combos[..|combos| - 1]
    requires forall c :: c in combos ==> |c| == 5
    requires forall i :: 0 <= i < |init| ==> LessEq(ScoreFive(init[i]), prev)
    requires LessEq(prev, next) && LessEq(ScoreFive(combos[|combos| - 1]), next)
    ensures forall i :: 0 <= i < |combos| ==> LessEq(ScoreFive(combos[i]), next)
  {
    BoundKeptBy(ScoreFive, combos, init, prev, next);
  }

  /** `BoundKept` for any scoring function `f`. */
  lemma BoundKeptBy(f: seq<Card> --> HandScore, combos: seq<seq<Card>>, init: seq<seq<Card>>,
                    prev: HandScore, next: HandScore)
    requires |combos| > 0 && init == combos[..|combos| - 1]
    requires forall c :: c in combos ==> f.requires(c)
    requires forall i :: 0 <= i < |init| ==> LessEq(f(init[i]), prev)
    requires LessEq(prev, next) && LessEq(f(combos[|combos| - 1]), next)
    ensures forall i :: 0 <= i < |combos| ==> LessEq(f(combos[i]), next)
  {
    forall i | 0 <= i < |combos| ensures LessEq(f(combos[i]), next) {
      if i < |combos| - 1 {
        assert init[i] == combos[i];
        LessIsStrictTotalOrder(f(combos[i]), prev, next);
      }
    }
  }

  /** The best score is the score of one of the combinations. */
  lemma {:induction false} BestScoreAttained(combos: seq<seq<Card>>) returns (i: nat)
    requires |combos| > 0
    requires forall c :: c in combos ==> |c| == 5
    ensures i < |combos| && BestScore(combos) == ScoreFive(combos[i])
    decreases |combos|
  {
    if |combos| == 1 {
      i := 0;
    } else {
      var init := combos[..|combos| - 1];
      if BestScore(combos) == ScoreFive(combos[|combos| - 1]) {
        i := |combos| - 1;
      } else {
        i := BestScoreAttained(init);
      }
    }
  }

  /** `evaluate_best_hand`: fewer than five cards is an error; otherwise
      the best score over every five-card combination. */
  function EvaluateBestHand(cards: seq<Card>): (r: Result<HandScore, EvalError>)
    ensures r.Failure? <==> |cards| < 5
    ensures r.Success? ==> forall c :: c in Combinations(cards, 5) ==> LessEq(ScoreFive(c), r.value)
  {
    if |cards| < 5 then Failure(NeedFiveCards)
    else
      var combos := Combinations(cards, 5);
      ChoosePositive(|cards|, 5);
      var best := BestScore(combos);
      assert forall c :: c in combos ==> exists i :: 0 <= i < |combos| && combos[i] == c;
      Success(best)
  }

  /** The best hand is the score of one of the five-card combinations. */
  lemma BestHandAttained(cards: seq<Card>) returns (c: seq<Card>)
    requires |cards| >= 5
    ensures c in Combinations(cards, 5) && |c| == 5
    ensures EvaluateBestHand(cards).value == ScoreFive(c)
  {
    var combos := Combinations(cards, 5);
    ChoosePositive(|cards|, 5);
    var i := BestScoreAttained(combos);
    c := combos[i];
  }

  /** The best hand is the best score over all five-card subsets of the
      cards, and it is the score of one of them. */
  lemma BestHandOverSubsets(cards: seq<Card>)
    requires |cards| >= 5
    ensures forall c :: |c| == 5 && SubseqOf(c, cards) ==> LessEq(ScoreFive(c), EvaluateBestHand(cards).value)
    ensures exists c :: |c| == 5 && SubseqOf(c, cards) && EvaluateBestHand(cards).value == ScoreFive(c)
  {
    var best := EvaluateBestHand(cards).value;
    forall c | |c| == 5 && SubseqOf(c, cards) ensures LessEq(ScoreFive(c), best) {
      SubsequenceIsCombination(cards, 5, c);
    }
    var c := BestHandAttained(cards);
    CombinationIsSubsequence(cards, 5, c);
  }

  /** Five cards are scored as they are. */
  lemma EvaluateFiveCards(cards: seq<Card>)
    requires |cards| == 5
    ensures EvaluateBestHand(cards) == Success(ScoreFive(cards))
  {
    CombinationsOfAll(cards);
    var c := BestHandAttained(cards);
  }

  /** More cards never make the best hand worse. */
  lemma MoreCardsNeverWorse(cards: seq<Card>, extra: seq<Card>)
    requires |cards| >= 5
    ensures LessEq(EvaluateBestHand(cards).value, EvaluateBestHand(cards + extra).value)
  {
    BestHandOverSubsets(cards + extra);
    var c := BestHandAttained(cards);
    CombinationIsSubsequence(cards, 5, c);
    SubseqOfAppend(c, cards, extra);
  }

  /** Some value occurs exactly `n` times. */
  ghost predicate HasKind(vs: seq<int>, n: int) {
    exists v :: multiset(vs)[v] == n
  }

  /** Two different values occur exactly twice each. */
  ghost predicate HasTwoPair(vs: seq<int>) {
    exists v, w :: v != w && multiset(vs)[v] == 2 && multiset(vs)[w] == 2
  }

  ghost predicate IsStraight(vs: seq<int>) {
    exists h :: IsStraightTop(vs, h)
  }

  /** The poker category of five cards, independently of how the
      evaluator computes it: the first of the patterns below that the
      cards show, strongest first. */
  ghost function Category(cards: seq<Card>): int
    requires |cards| == 5
  {
    var vs := Values(cards);
    if IsFlush(cards) && IsStraight(vs) then 8
    else if HasKind(vs, 4) then 7
    else if HasKind(vs, 3) && HasKind(vs, 2) then 6
    else if IsFlush(cards) then 5
    else if IsStraight(vs) then 4
    else if HasKind(vs, 3) then 3
    else if HasTwoPair(vs) then 2
    else if HasKind(vs, 2) then 1
    else 0
  }

  lemma KindOfOccurring(ranks: seq<int>, n: int)
    requires n >= 1
    ensures HasKind(ranks, n) <==> |Occurring(ranks, n)| >= 1
  {
    var occ := Occurring(ranks, n);
    if |occ| >= 1 {
      var v := occ[0];
      assert v in occ;
      assert multiset(ranks)[v] == n;
    }
    if HasKind(ranks, n) {
      var v :| multiset(ranks)[v] == n;
      assert v in occ;
    }
  }

  lemma TwoPairOfOccurring(ranks: seq<int>)
    ensures HasTwoPair(ranks) <==> |Occurring(ranks, 2)| >= 2
  {
    var occ := Occurring(ranks, 2);
    if |occ| >= 2 {
      assert occ[0] in occ && occ[1] in occ && occ[0] != occ[1];
    }
    if HasTwoPair(ranks) {
      var v, w :| v != w && multiset(ranks)[v] == 2 && multiset(ranks)[w] == 2;
      assert v in occ && w in occ;
    }
  }

  /** The category tests read the same on the values in any order. */
  lemma SameValuesSameTests(vs: seq<int>, ranks: seq<int>)
    requires multiset(vs) == multiset(ranks)
    ensures IsStraight(vs) == IsStraight(ranks)
    ensures forall n :: HasKind(vs, n) == HasKind(ranks, n)
    ensures HasTwoPair(vs) == HasTwoPair(ranks)
  {
    assert forall x :: x in ranks <==> x in vs by {
      assert forall x :: x in ranks <==> x in multiset(vs);
    }
    forall h ensures IsStraightTop(ranks, h) == IsStraightTop(vs, h) {
      assert forall j :: InExtended(ranks, j) == InExtended(vs, j);
    }
  }

  /** The evaluator's category is the poker category. */
  lemma ScoreFiveCategory(cards: seq<Card>)
    requires |cards| == 5
    ensures ScoreFive(cards).category == Category(cards)
  {
    var vs := Values(cards);
    var ranks := SortedRanks(cards);
    SameValuesSameTests(vs, ranks);
    var straight := StraightHigh(ranks);
    assert IsStraight(ranks) <==> straight.Some?;
    if !(IsFlush(cards) && straight.Some?) {
      ScoreByCountsCategory(ranks, IsFlush(cards), straight);
    }
  }

  lemma ScoreByCountsCategory(ranks: seq<int>, flush: bool, straight: Option<int>)
    requires |ranks| == 5
    ensures ScoreByCounts(ranks, flush, straight).category ==
              if HasKind(ranks, 4) then 7
              else if HasKind(ranks, 3) && HasKind(ranks, 2) then 6
              else if flush then 5
              else if straight.Some? then 4
              else if HasKind(ranks, 3) then 3
              else if HasTwoPair(ranks) then 2
              else if HasKind(ranks, 2) then 1
              else 0
  {
    KindOfOccurring(ranks, 4);
    KindOfOccurring(ranks, 3);
    KindOfOccurring(ranks, 2);
    TwoPairOfOccurring(ranks);
    FiveKinds(ranks);
  }
}
