/** Equity and made-hand description of `ml/src/equity.py`: the win/tie
    count of the hero against the best of several opponents over every
    completion of the board (or over caller-supplied random draws), the
    label of a score, and the percentile of a made hand against every
    other two-card holding. */
module Equity {
  import opened Wrappers
  import opened Seqs
  import opened Models
  import opened HandScores
  import opened Evaluator

  datatype EquityError =
    | TooFewOpponents   // fewer than one opponent
    | NotEnoughCards    // the deck cannot deal the board and every opponent

  datatype EquityEstimate = EquityEstimate(equity: real, wins: nat, ties: nat, trials: int)

  /** How one deal ends for the hero. */
  datatype Outcome = Win | Tie | Loss

  /** The best score of at least five cards. */
  function BestOf(cards: seq<Card>): HandScore
    requires |cards| >= 5
  {
    EvaluateBestHand(cards).value
  }

  /** The running maximum of `best = score if best is None or score > best`:
      the first of the highest scores. */
  function MaxScore(scores: seq<HandScore>): (best: HandScore)
    requires |scores| > 0
    ensures best in scores
    ensures forall i :: 0 <= i < |scores| ==> LessEq(scores[i], best)
    decreases |scores|
  {
    if |scores| == 1 then scores[0]
    else
      var init := scores[..|scores| - 1];
      var prev := MaxScore(init);
      var next := Max(prev, scores[|scores| - 1]);
      MaxDominates(scores, init, prev, next);
      next
  }

  lemma MaxDominates(scores: seq<HandScore>, init: seq<HandScore>, prev: HandScore, next: HandScore)
    requires |scores| > 0 && init == scores[..|scores| - 1]
    requires prev in init || prev == scores[|scores| - 1]
    requires forall i :: 0 <= i < |init| ==> LessEq(init[i], prev)
    requires next == prev || next == scores[|scores| - 1]
    requires LessEq(prev, next) && LessEq(scores[|scores| - 1], next)
    ensures next in scores
    ensures forall i :: 0 <= i < |scores| ==> LessEq(scores[i], next)
  {
    forall i | 0 <= i < |scores| ensures LessEq(scores[i], next) {
      if i < |scores| - 1 {
        assert init[i] == scores[i];
        LessIsStrictTotalOrder(scores[i], prev, next);
      }
    }
    if next == prev && prev in init {
      var j :| 0 <= j < |init| && init[j] == prev;
      assert scores[j] == prev;
    }
  }

  /** The hero against the best opponent: a win only when strictly above
      it, a tie only when equal to it. */
  function Judge(hero: HandScore, villains: seq<HandScore>): (o: Outcome)
    requires |villains| > 0
    ensures o == Win <==> forall i :: 0 <= i < |villains| ==> Less(villains[i], hero)
    ensures o == Tie <==> (forall i :: 0 <= i < |villains| ==> LessEq(villains[i], hero)) && hero in villains
    ensures o == Loss <==> exists i :: 0 <= i < |villains| && Less(hero, villains[i])
  {
    var best := MaxScore(villains);
    JudgeMeaning(hero, villains, best);
    if Less(best, hero) then Win
    else if hero == best then Tie
    else Loss
  }

  lemma JudgeMeaning(hero: HandScore, villains: seq<HandScore>, best: HandScore)
    requires best in villains
    requires forall i :: 0 <= i < |villains| ==> LessEq(villains[i], best)
    ensures Less(best, hero) <==> forall i :: 0 <= i < |villains| ==> Less(villains[i], hero)
    ensures hero == best <==> (forall i :: 0 <= i < |villains| ==> LessEq(villains[i], hero)) && hero in villains
    ensures (!Less(best, hero) && hero != best) <==> exists i :: 0 <= i < |villains| && Less(hero, villains[i])
  {
    var k :| 0 <= k < |villains| && villains[k] == best;
    LessIsStrictTotalOrder(best, hero, best);
    LessIsStrictTotalOrder(hero, best, hero);
    forall i | 0 <= i < |villains| ensures LessEq(villains[i], best) {
    }
    if Less(best, hero) {
      forall i | 0 <= i < |villains| ensures Less(villains[i], hero) {
        LessIsStrictTotalOrder(villains[i], best, hero);
      }
    }
    if hero in villains && forall i :: 0 <= i < |villains| ==> LessEq(villains[i], hero) {
      var j :| 0 <= j < |villains| && villains[j] == hero;
      assert LessEq(hero, best) && LessEq(best, hero);
    }
    if !Less(best, hero) && hero != best {
      assert Less(hero, villains[k]);
    }
    if exists i :: 0 <= i < |villains| && Less(hero, villains[i]) {
      var i :| 0 <= i < |villains| && Less(hero, villains[i]);
      LessIsStrictTotalOrder(hero, villains[i], best);
      LessIsStrictTotalOrder(hero, villains[i], hero);
    }
  }

  /** Each opponent's best hand: opponent `i` holds `rest[2i..2i+2]` and
      shares the completed board. */
  function VillainScores(board: seq<Card>, rest: seq<Card>, opponents: nat): (r: seq<HandScore>)
    requires |board| == 5 && |rest| == 2 * opponents
    ensures |r| == opponents
    ensures forall i :: 0 <= i < opponents ==> r[i] == BestOf(rest[2 * i..2 * i + 2] + board)
  {
    seq(opponents, i requires 0 <= i < opponents => BestOf(rest[2 * i..2 * i + 2] + board))
  }

  /** One deal: the first `5 - |board|` drawn cards complete the board, the
      following pairs go to the opponents in turn. */
  function SampleOutcome(hero: seq<Card>, board: seq<Card>, opponents: nat, sample: seq<Card>): (o: Outcome)
    requires |hero| == 2 && |board| <= 5 && opponents >= 1
    requires |sample| == 2 * opponents + (5 - |board|)
    ensures var full := board + sample[..5 - |board|];
            var villains := VillainScores(full, sample[5 - |board|..], opponents);
            o == Win <==> forall i :: 0 <= i < opponents ==> Less(villains[i], BestOf(hero + full))
  {
    var missing := 5 - |board|;
    var full := board + sample[..missing];
    Judge(BestOf(hero + full), VillainScores(full, sample[missing..], opponents))
  }

  function Outcomes(hero: seq<Card>, board: seq<Card>, opponents: nat, samples: seq<seq<Card>>): (r: seq<Outcome>)
    requires |hero| == 2 && |board| <= 5 && opponents >= 1
    requires forall s :: s in samples ==> |s| == 2 * opponents + (5 - |board|)
    ensures |r| == |samples|
    ensures forall i :: 0 <= i < |samples| ==> r[i] == SampleOutcome(hero, board, opponents, samples[i])
  {
    seq(|samples|, i requires 0 <= i < |samples| => SampleOutcome(hero, board, opponents, samples[i]))
  }

  /** `(wins + ties / 2) / total if total else 0.0`. */
  function Share(wins: nat, ties: nat, total: int): (r: real)
    ensures wins + ties <= total ==> 0.0 <= r <= 1.0
    ensures 0 < total && wins + ties <= total ==> (r == 1.0 <==> wins == total)
    ensures 0 < total ==> (r == 0.0 <==> wins == 0 && ties == 0)
    ensures total == 0 || wins + ties == 0 ==> r == 0.0
  {
    if total == 0 then 0.0
    else
      var x := wins as real + ties as real / 2.0;
      ShareBounds(wins, ties, total, x);
      x / (total as real)
  }

  lemma ShareBounds(wins: nat, ties: nat, total: int, x: real)
    requires total != 0 && x == wins as real + ties as real / 2.0
    ensures wins + ties <= total ==> 0.0 <= x / (total as real) <= 1.0
    ensures 0 < total && wins + ties <= total ==> (x / (total as real) == 1.0 <==> wins == total)
    ensures 0 < total ==> (x / (total as real) == 0.0 <==> wins == 0 && ties == 0)
    ensures wins + ties == 0 ==> x / (total as real) == 0.0
  {
    var t := total as real;
    var q := x / t;
    assert q * t == x;
    if 0 < total {
      if q < 0.0 { assert q * t < 0.0; }
      if q == 1.0 { assert x == t; }
    }
  }

  /** Every outcome is a win, a tie or a loss. */
  lemma {:induction false} CountOutcomes(os: seq<Outcome>)
    ensures Count(os, Win) + Count(os, Tie) + Count(os, Loss) == |os|
  {
    if |os| > 0 {
      assert os[0] == Win || os[0] == Tie || os[0] == Loss;
      CountOutcomes(os[1..]);
    }
  }

  /** The hero's cards, the board and the deck remainder once the
      opponent count is accepted. */
  function CardsNeeded(board: seq<Card>, opponents: int): int {
    opponents * 2 + (5 - |board|)
  }

  /** With a valid state, the remainder is the deck minus the known cards. */
  lemma RemainingCount(state: GameState)
    requires state.Valid()
    ensures |RemainingCards(state.Known())| == 50 - |state.community.cards|
  {
    ElementsCardinality(state.Known());
  }

  /** The deck runs short exactly when there are 23 or more opponents:
      each takes two of the 50 - |board| undealt cards, and the board
      takes the rest of its five. */
  lemma NotEnoughCardsIff(state: GameState, opponents: int)
    requires state.Valid() && opponents >= 1
    ensures CardsNeeded(state.community.cards, opponents) > |RemainingCards(state.Known())| <==> opponents >= 23
  {
    RemainingCount(state);
  }

  /** The sampler's promise in the sampled branch: `trials` draws (none
      when `trials` is not positive), each `needed` distinct undealt cards. */
  predicate DrawsFit(remaining: seq<Card>, needed: int, trials: int, draws: seq<seq<Card>>) {
    needed < 0 || needed > |remaining| || Choose(|remaining|, needed) <= trials ||
    (&& |draws| == (if trials > 0 then trials else 0)
     && forall d :: d in draws ==> |d| == needed && Distinct(d) && forall c :: c in d ==> c in remaining)
  }

  /** The deals `estimate_equity` scores: every combination of `needed`
      undealt cards when there are at most `trials` of them, otherwise the
      supplied random draws. */
  function Samples(remaining: seq<Card>, needed: nat, trials: int, draws: seq<seq<Card>>): (r: seq<seq<Card>>)
    requires needed <= |remaining| && DrawsFit(remaining, needed, trials, draws)
    ensures forall s :: s in r ==> |s| == needed
    ensures Choose(|remaining|, needed) <= trials ==> |r| == Choose(|remaining|, needed)
    ensures Choose(|remaining|, needed) > trials ==> |r| == (if trials > 0 then trials else 0)
  {
    if Choose(|remaining|, needed) <= trials then Combinations(remaining, needed) else draws
  }

  /** The counting loop shared by the equity and the percentile: how many
      outcomes are wins and how many are ties. */
  method Tally(os: seq<Outcome>) returns (wins: nat, ties: nat)
    ensures wins == Count(os, Win) && ties == Count(os, Tie)
    ensures wins + ties <= |os|
  {
    wins, ties := 0, 0;
    var k := 0;
    while k < |os|
      invariant 0 <= k <= |os|
      invariant wins == Count(os[..k], Win) && ties == Count(os[..k], Tie)
    {
      CountPrefixStep(os, k, Win);
      CountPrefixStep(os, k, Tie);
      if os[k] == Win {
        wins := wins + 1;
      } else if os[k] == Tie {
        ties := ties + 1;
      }
      k := k + 1;
    }
    assert os[..|os|] == os;
    CountOutcomes(os);
  }

  /** Extending a prefix by one outcome counts that outcome once more. */
  lemma CountPrefixStep(os: seq<Outcome>, k: nat, v: Outcome)
    requires k < |os|
    ensures Count(os[..k + 1], v) == Count(os[..k], v) + (if os[k] == v then 1 else 0)
  {
    assert os[..k + 1] == os[..k] + [os[k]];
    CountAppend(os[..k], [os[k]], v);
  }

  /** What `estimate_equity` reports once its checks pass: the number of
      deals (all combinations, or `trials` draws), the deals the hero wins
      and ties against the best opponent, and the resulting equity. */
  predicate Reports(e: EquityEstimate, hero: seq<Card>, board: seq<Card>, opponents: nat,
                    remaining: seq<Card>, trials: int, draws: seq<seq<Card>>)
    requires |hero| == 2 && |board| <= 5 && opponents >= 1
    requires CardsNeeded(board, opponents) <= |remaining|
    requires DrawsFit(remaining, CardsNeeded(board, opponents), trials, draws)
  {
    var needed := CardsNeeded(board, opponents);
    var total := Choose(|remaining|, needed);
    var os := Outcomes(hero, board, opponents, Samples(remaining, needed, trials, draws));
    && e.trials == (if total <= trials then total else trials)
    && e.wins == Count(os, Win)
    && e.ties == Count(os, Tie)
    && e.equity == Share(e.wins, e.ties, e.trials)
  }

  /** The counting part of `estimate_equity`, once the deck is known to
      suffice. */
  method Deal(hero: seq<Card>, board: seq<Card>, opponents: nat, remaining: seq<Card>, trials: int, draws: seq<seq<Card>>)
    returns (e: EquityEstimate)
    requires |hero| == 2 && |board| <= 5 && opponents >= 1
    requires CardsNeeded(board, opponents) <= |remaining|
    requires DrawsFit(remaining, CardsNeeded(board, opponents), trials, draws)
    ensures Reports(e, hero, board, opponents, remaining, trials, draws)
    ensures 0.0 <= e.equity <= 1.0
    ensures e.trials >= 0 ==> e.wins + e.ties <= e.trials
  {
    var needed := opponents * 2 + (5 - |board|);
    var total := Choose(|remaining|, needed);
    var actual := if total <= trials then total else trials;
    var samples := Samples(remaining, needed, trials, draws);
    var wins, ties := Tally(Outcomes(hero, board, opponents, samples));
    assert wins + ties <= actual || (wins == 0 && ties == 0);
    e := EquityEstimate(Share(wins, ties, actual), wins, ties, actual);
  }

  /** The defaults of `estimate_equity`'s `opponents` and `trials`. */
  const DefaultOpponents := 1
  const DefaultTrials := 2000

  /** `estimate_equity(state, opponents, trials)` with the random draws of
      the sampled branch supplied by the caller. */
  method EstimateEquity(state: GameState, opponents: int, trials: int, draws: seq<seq<Card>>)
    returns (r: Result<EquityEstimate, EquityError>)
    requires state.Valid()
    requires DrawsFit(RemainingCards(state.Known()), CardsNeeded(state.community.cards, opponents), trials, draws)
    ensures opponents < 1 <==> r == Failure(TooFewOpponents)
    ensures opponents >= 1 ==>
              (r == Failure(NotEnoughCards) <==>
                 CardsNeeded(state.community.cards, opponents) > |RemainingCards(state.Known())|)
    ensures r.Success? ==>
              && opponents >= 1
              && CardsNeeded(state.community.cards, opponents) <= |RemainingCards(state.Known())|
              && Reports(r.value, state.hand.cards, state.community.cards, opponents,
                         RemainingCards(state.Known()), trials, draws)
    ensures r.Success? ==> 0.0 <= r.value.equity <= 1.0
    ensures r.Success? && r.value.trials >= 0 ==> r.value.wins + r.value.ties <= r.value.trials
  {
    if opponents < 1 {
      return Failure(TooFewOpponents);
    }
    var hero := state.hand.cards;
    var board := state.community.cards;
    var remaining := RemainingCards(hero + board);
    var missing := 5 - |board|;
    var needed := opponents * 2 + missing;
    if needed > |remaining| {
      return Failure(NotEnoughCards);
    }
    var e := Deal(hero, board, opponents, remaining, trials, draws);
    return Success(e);
  }

  /** In the exact branch the deals are every choice of `needed` undealt
      cards, each once. */
  lemma ExactDealsAreAllCompletions(remaining: seq<Card>, needed: nat, trials: int, draws: seq<seq<Card>>, s: seq<Card>)
    requires needed <= |remaining| && DrawsFit(remaining, needed, trials, draws)
    requires Choose(|remaining|, needed) <= trials
    ensures s in Samples(remaining, needed, trials, draws) <==> |s| == needed && SubseqOf(s, remaining)
  {
    CombinationsAreSubsequences(remaining, needed, s);
  }

  /** With at least one deal, the equity is 1 exactly when the hero wins
      every deal outright, and 0 exactly when the hero neither wins nor
      ties any. */
  lemma EquityExtremes(e: EquityEstimate, hero: seq<Card>, board: seq<Card>, opponents: nat,
                       remaining: seq<Card>, trials: int, draws: seq<seq<Card>>)
    requires |hero| == 2 && |board| <= 5 && opponents >= 1
    requires CardsNeeded(board, opponents) <= |remaining|
    requires DrawsFit(remaining, CardsNeeded(board, opponents), trials, draws)
    requires Reports(e, hero, board, opponents, remaining, trials, draws) && e.trials > 0
    ensures var os := Outcomes(hero, board, opponents,
                               Samples(remaining, CardsNeeded(board, opponents), trials, draws));
            && |os| == e.trials
            && (e.equity == 1.0 <==> forall i :: 0 <= i < |os| ==> os[i] == Win)
            && (e.equity == 0.0 <==> forall i :: 0 <= i < |os| ==> os[i] == Loss)
  {
    var os := Outcomes(hero, board, opponents,
                       Samples(remaining, CardsNeeded(board, opponents), trials, draws));
    ShareExtremes(os);
  }

  lemma ShareExtremes(os: seq<Outcome>)
    requires |os| > 0
    ensures Share(Count(os, Win), Count(os, Tie), |os|) == 1.0 <==> forall i :: 0 <= i < |os| ==> os[i] == Win
    ensures Share(Count(os, Win), Count(os, Tie), |os|) == 0.0 <==> forall i :: 0 <= i < |os| ==> os[i] == Loss
  {
    CountOutcomes(os);
    CountAll(os, Win);
    CountAll(os, Loss);
  }

  /** `HAND_CATEGORY_LABELS`, indexed by category. */
  const CategoryLabels: seq<string> := [
    "High Card", "One Pair", "Two Pair", "Three of a Kind", "Straight",
    "Flush", "Full House", "Four of a Kind", "Straight Flush"]

  /** `_score_to_label`: an ace-high straight flush is a royal flush, any
      other known category its table name, anything else "Unknown". */
  function ScoreToLabel(score: HandScore): (name: string)
    ensures name == "Royal Flush" <==> score.category == 8 && |score.ranks| > 0 && score.ranks[0] == 14
    ensures name == "Unknown" <==> !(0 <= score.category <= 8)
    ensures 0 <= score.category <= 8 && name != "Royal Flush" ==> name == CategoryLabels[score.category]
  {
    if score.category == 8 && |score.ranks| > 0 && score.ranks[0] == 14 then "Royal Flush"
    else if 0 <= score.category <= 8 then CategoryLabels[score.category]
    else "Unknown"
  }

  /** Different known categories never share a label. */
  lemma LabelDeterminesCategory(a: HandScore, b: HandScore)
    requires 0 <= a.category <= 8 && 0 <= b.category <= 8
    requires ScoreToLabel(a) == ScoreToLabel(b)
    ensures a.category == b.category
  {
  }

  /** The sampler's promise for the percentile's opponent holdings. */
  predicate PairDrawsFit(remaining: seq<Card>, samples: int, draws: seq<seq<Card>>) {
    Choose(|remaining|, 2) <= samples ||
    (&& |draws| == (if samples > 0 then samples else 0)
     && forall d :: d in draws ==> |d| == 2 && Distinct(d) && forall c :: c in d ==> c in remaining)
  }

  /** The holdings the percentile compares against. */
  function Holdings(remaining: seq<Card>, samples: int, draws: seq<seq<Card>>): (r: seq<seq<Card>>)
    requires PairDrawsFit(remaining, samples, draws)
    ensures forall s :: s in r ==> |s| == 2
    ensures Choose(|remaining|, 2) <= samples ==> |r| == Choose(|remaining|, 2)
    ensures Choose(|remaining|, 2) > samples ==> |r| == (if samples > 0 then samples else 0)
  {
    if Choose(|remaining|, 2) <= samples then Combinations(remaining, 2) else draws
  }

  /** How one opponent holding fares against `score` on the board: a
      win when its best hand is strictly above it. */
  function HoldingOutcome(score: HandScore, board: seq<Card>, holding: seq<Card>): (o: Outcome)
    requires |board| >= 3 && |holding| == 2
    ensures o == Win <==> Less(score, BestOf(holding + board))
    ensures o == Tie <==> score == BestOf(holding + board)
    ensures o == Loss <==> Less(BestOf(holding + board), score)
  {
    var opp := BestOf(holding + board);
    LessIsStrictTotalOrder(score, opp, score);
    LessIsStrictTotalOrder(opp, score, opp);
    if Less(score, opp) then Win
    else if opp == score then Tie
    else Loss
  }

  function HoldingOutcomes(score: HandScore, board: seq<Card>, holdings: seq<seq<Card>>): (r: seq<Outcome>)
    requires |board| >= 3
    requires forall h :: h in holdings ==> |h| == 2
    ensures |r| == |holdings|
    ensures forall i :: 0 <= i < |holdings| ==> r[i] == HoldingOutcome(score, board, holdings[i])
  {
    seq(|holdings|, i requires 0 <= i < |holdings| => HoldingOutcome(score, board, holdings[i]))
  }

  /** `max(0.0, min(1.0, p))`. */
  function Clamp01(p: real): (r: real)
    ensures 0.0 <= r <= 1.0
    ensures 0.0 <= p <= 1.0 ==> r == p
  {
    if p > 1.0 then 1.0 else if p < 0.0 then 0.0 else p
  }

  /** What `_estimate_percentile` reports: nothing before the flop or with
      no holding to compare against; otherwise a value in [0, 1] that is one
      minus the share of holdings beating `score` (ties counted half) over
      the denominator, whatever its sign, and 1 exactly when none beats or
      ties it (so 1 when a negative sample count draws no holding). */
  predicate PercentileOf(r: Option<real>, score: HandScore, hand: Hand, community: Community,
                         samples: int, draws: seq<seq<Card>>)
    requires PairDrawsFit(RemainingCards(hand.cards + community.cards), samples, draws)
  {
    && (|community.cards| < 3 ==> r == None)
    && (|community.cards| >= 3 ==>
          var remaining := RemainingCards(hand.cards + community.cards);
          var total := Choose(|remaining|, 2);
          var denom := if total <= samples then total else samples;
          && (r == None <==> total == 0 || denom == 0)
          && (r.Some? ==>
                var os := HoldingOutcomes(score, community.cards, Holdings(remaining, samples, draws));
                && 0.0 <= r.value <= 1.0
                && r.value == 1.0 - Share(Count(os, Win), Count(os, Tie), denom)
                && (r.value == 1.0 <==> Count(os, Win) == 0 && Count(os, Tie) == 0)))
  }

  /** `_estimate_percentile_against_other_hands`: the share of opponent
      holdings that `score` beats, a tie counting half, clamped to [0, 1];
      none before the flop, when fewer than two cards remain, or when no
      holding is drawn. */
  method EstimatePercentile(score: HandScore, hand: Hand, community: Community, samples: int, draws: seq<seq<Card>>)
    returns (r: Option<real>)
    requires PairDrawsFit(RemainingCards(hand.cards + community.cards), samples, draws)
    ensures PercentileOf(r, score, hand, community, samples, draws)
    ensures samples < 0 && r.Some? ==> r.value == 1.0
  {
    var board := community.cards;
    if |board| < 3 {
      return None;
    }
    var remaining := RemainingCards(hand.cards + board);
    var total := Choose(|remaining|, 2);
    if total == 0 {
      return None;
    }
    var holdings := Holdings(remaining, samples, draws);
    var denom := if total <= samples then total else samples;
    var better, ties := Tally(HoldingOutcomes(score, board, holdings));
    if denom == 0 {
      return None;
    }
    var p := 1.0 - Share(better, ties, denom);
    return Some(Clamp01(p));
  }

  datatype HandStrengthDetails = HandStrengthDetails(labelText: string, category: int, percentile: Option<real>, score: HandScore)

  /** The default of `describe_made_hand`'s `percentile_samples`. */
  const DefaultPercentileSamples := 4000

  /** `describe_made_hand`: nothing with fewer than five known cards,
      otherwise the best hand's label, category, score and percentile. */
  method DescribeMadeHand(hand: Hand, community: Community, samples: int, draws: seq<seq<Card>>)
    returns (r: Option<HandStrengthDetails>)
    requires PairDrawsFit(RemainingCards(hand.cards + community.cards), samples, draws)
    ensures r == None <==> |hand.cards + community.cards| < 5
    ensures r.Some? ==>
              && r.value.score == BestOf(hand.cards + community.cards)
              && r.value.labelText == ScoreToLabel(r.value.score)
              && r.value.category == r.value.score.category
              && var total := Choose(|RemainingCards(hand.cards + community.cards)|, 2);
                 (r.value.percentile == None <==> |community.cards| < 3 || total == 0 || (total > samples && samples == 0))
    ensures r.Some? ==> PercentileOf(r.value.percentile, r.value.score, hand, community, samples, draws)
    ensures r.Some? && r.value.percentile.Some? ==> 0.0 <= r.value.percentile.value <= 1.0
  {
    var total := hand.cards + community.cards;
    if |total| < 5 {
      return None;
    }
    var score := BestOf(total);
    var name := ScoreToLabel(score);
    var percentile := EstimatePercentile(score, hand, community, samples, draws);
    return Some(HandStrengthDetails(name, score.category, percentile, score));
  }
}
