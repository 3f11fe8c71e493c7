# Tunnel Vision poker assistant — a Dafny model of its core

Tunnel Vision watches a poker table. A detector labels the cards it sees, and
the labels are turned into cards. The hero's equity is then estimated by
dealing out the unknown cards. Finally a rule-based policy recommends fold,
call or raise. This project models four pieces of that core as pure Dafny
definitions and proves what each one computes:

- **the card model** (`utils/models.py`). Modules `Models`, `Text` and `Seqs`.
  - A card is a rank 2..14 and one of four suits. Its texts are normalised:
    stripped and upper-cased for the rank, stripped and capitalised for the
    suit. Unknown texts are rejected.
  - A hand is two distinct cards.
  - A board holds at most five distinct cards, and its stage follows from its size.
  - A game state is a hand, a board, the player's chips and the pot.
  - The module also covers the 52-card deck and the cards not yet dealt.
- **the hand evaluator and equity estimate** (`ml/src/equity.py`). Modules
  `HandScores`, `Sorting`, `Counts`, `Runs`, `Evaluator` and `Equity`.
  - Five cards are scored as a category plus tie-break ranks. Scores are
    compared like Python tuples.
  - The best hand is the maximum over all 5-card subsets.
  - Equity is measured by dealing every completion when there are few enough,
    or else the supplied random deals. Each deal is scored against the
    opponents.
  - A made hand gets a label and a percentile against the other holdings.
- **the decision policy** (`ml/src/decision_engine.py`). Module `Decision`.
  - The street.
  - The heuristic strength, with its pair, flush-draw and straight-draw tests.
  - The pot odds and the profile thresholds.
  - The action with its confidence, and the bet size.
  - The rationale and strategy notes.
  - `recommend_action`, which ties all of these together.
- **the label parser** (`cv/src/card_parser.py`). Module `CardParser`.
  - Alias tables for ranks and suits.
  - The compact form (`AH`, `10d`) and the spelled-out form (`queen of hearts`).
  - Detections deduplicated by card. Each card keeps its highest confidence.
    The results are ordered by confidence and cut to `max_cards`.

The parser is modelled as the code is written. In that form it never produces
a card, because every suit alias maps to a suit symbol that the card model
rejects (see Findings). The model therefore also contains the evidently
intended parser, in which the aliases map to suit names. For it, the model
proves two things. Every label whose letters and digits, upper-cased, spell a
card's display form parses to that card (`AH`, `ah`, `10d`, ` a-h `). Every
label made of a rank alias word, "of" and a suit alias word, in any letter case
and joined by any runs of separators, parses to the card built from those two
aliases (`queen of hearts`, `Queen_Of_Hearts`).

Python semantics are written out where they matter:

- dictionary insertion order;
- `sorted(..., reverse=True)`;
- `s[:n]` for any integer `n`, via `Seqs.PrefixSlice`;
- `Counter`;
- `itertools.combinations` and `math.comb`;
- `re.split` / `re.sub` / `re.fullmatch` on the fixed patterns of the parser;
- the truthiness of `0` in `context.min_raise or ...`.

Floating-point values are exact reals. Randomness is a parameter: the deals
used when sampling are passed in as `draws`.

## Model

| member | source | states |
|---|---|---|
| Seqs.HasDuplicate | utils/models.py:26-27 | a list has a duplicate exactly when two different positions hold equal elements |
| Seqs.ElementsCardinality | utils/models.py:26-27 | the set of a list is never larger than the list, and is as large exactly when no entry repeats |
| Models.RankOfName | utils/models.py:12 | a text is a rank's name exactly when it is one of the 13 accepted rank texts, and the rank found prints back as that text |
| Models.SuitOfName | utils/models.py:13 | likewise for the four suit names |
| Models.RankNameInjective | utils/models.py:12 | two ranks with the same text are the same rank |
| Models.MakeCard | utils/models.py:11-21 | a card is built exactly when the normalised rank and suit texts are accepted, and it carries those texts; otherwise the error names the rank (checked first) or else the suit |
| Models.CheckTexts | utils/models.py:17-21 | on normalised texts: the rank text is checked first and the suit text second; a card is built exactly when both are accepted names |
| Models.CheckTextsAccepts | utils/models.py:17-21 | the checks give card `c` exactly for `c`'s own rank and suit names |
| Models.MakeCardAccepts | utils/models.py:15-21 | building succeeds with card `c` exactly when the normalised texts are `c`'s rank and suit names |
| Models.NormalisationIdempotent | utils/models.py:15-16 | normalising the texts first changes nothing about the outcome |
| Models.NormalRankIdempotent | utils/models.py:15 | normalising a rank text twice is the same as once |
| Models.NormalSuitIdempotent | utils/models.py:16 | normalising a suit text twice is the same as once |
| Models.MakeCardFromNames | utils/models.py:12-21 | every card can be rebuilt from its own rank and suit texts |
| Models.MakeCardNormalises | utils/models.py:15-16 | "a" is rank A and "spades" is Spades; padded "  K  " and "  hearts  " normalise to K and Hearts |
| Models.MakeCardLowerCase | utils/models.py:15-16 | every card is built from its rank and suit texts written in lower case |
| Models.MakeCardPadded | utils/models.py:15-16 | every card is built from its rank and suit texts surrounded by any white space |
| Models.MakeCardRejectsRank | utils/models.py:18-19 | rank "X" is refused as an invalid rank whatever the suit |
| Models.MakeCardRejectsSuit | utils/models.py:20-21 | with an accepted rank, suit "Stars" is refused as an invalid suit |
| Text.StripSurrounded | utils/models.py:15-16 | stripping removes exactly the white space around a text |
| Models.CardKeyRoundTrip | utils/models.py:23-24 | the display form (rank text plus suit initial) reads back as the same card |
| Models.CardKeyInjective | utils/models.py:23-24 | two cards have the same display form exactly when they are equal |
| Models.MakeHand | utils/models.py:34-38 | a hand is built exactly from two different cards; otherwise the error is the card count, checked first, or the duplicate |
| Models.MakeCommunity | utils/models.py:58-62 | a board is built exactly from at most five distinct cards; otherwise the error is the size, checked first, or the duplicate |
| Models.StageOf | utils/models.py:44-56 | below three cards is pre-flop, then flop, turn and river for three, four and five; more than five is an error |
| Models.ValidCommunityHasStage | utils/models.py:44-62 | every board that passed its checks has a stage |
| Models.MakeGameState | utils/models.py:83-89 | negative chips, then a negative pot, are refused; otherwise the state is built exactly when no card repeats across hand and board |
| Models.CrossDuplicateOnly | utils/models.py:88-89 | for a valid hand and board, the combined check only fails on a card shared by both |
| Models.FullDeck | utils/models.py:65-69 | the deck has 52 cards |
| Models.DeckPosition | utils/models.py:65-69 | card `c` sits at position 13 × (suit index) + rank − 2, suits outer and ranks inner |
| Models.FullDeckIsEveryCardOnce | utils/models.py:65-69 | every card is in the deck exactly once |
| Models.Without | utils/models.py:74 | filtering keeps exactly the cards not used, in deck order, without creating repeats |
| Models.RemainingCards | utils/models.py:71-74 | the remaining cards are exactly those not used, in deck order, each once, 52 minus the number of distinct used cards |
| HandScores.LessIsStrictTotalOrder | ml/src/equity.py:30-35 | the tuple order on scores is irreflexive, transitive and total |
| HandScores.Max | ml/src/equity.py:112-113 | keeping the larger score gives one of the two and dominates both |
| Sorting.SortDesc | ml/src/equity.py:118 | the result is sorted highest first and is a permutation of the input |
| Sorting.SortedUnique | ml/src/equity.py:118 | two descending permutations of the same values are equal, so the sorted list is determined |
| Sorting.SortAsc | ml/src/equity.py:163 | ascending, a permutation, strictly ascending when the input has no repeats |
| Counts.Keys | ml/src/equity.py:120 | the keys of a counter are the distinct values, each once |
| Counts.CountValues | ml/src/equity.py:120 | each key's count is its multiplicity |
| Counts.Occurring | ml/src/equity.py:129 | the values occurring exactly `c` times, each once |
| Counts.SumCountValues | ml/src/equity.py:120 | the counts of a counter add up to the number of values |
| Counts.ProfileIsPartition | ml/src/equity.py:133 | the sorted counts of five values are one of the seven partitions of five |
| Counts.FiveCounts | ml/src/equity.py:127-157 | with five values, each branch of the scorer finds exactly the groups it reads: one quad and one kicker, one trip and one pair, and so on |
| Counts.FiveKinds | ml/src/equity.py:127-149 | the top count is 4 (resp. 3) exactly when some value occurs four (resp. three) times; the two largest counts are (3, 2) exactly when a trip and a pair coexist |
| Runs.StraightWalk | ml/src/equity.py:167-175 | the walk returns the top of the highest run of five consecutive values, and nothing exactly when no such run exists |
| Runs.LastTopIsHighestFive | ml/src/equity.py:167-175 | the last top the walk records is the highest top of a run of five |
| Runs.StraightScanIsLastTop | ml/src/equity.py:169-175 | the pairwise loop leaves in `best` the last position where a run reached five |
| Runs.MaxRunCovers | ml/src/decision_engine.py:186-194 | the longest run is at least `k` exactly when `k` consecutive values are present |
| Runs.DrawScanIsMaxRun | ml/src/decision_engine.py:186-194 | the pairwise loop's `best` is the longest run |
| Evaluator.UniqueRanks | ml/src/equity.py:163-166 | the distinct ranks, ascending, with 1 added exactly when an ace is present |
| Evaluator.StraightHigh | ml/src/equity.py:162-178 | a result is the top (5..14) of five consecutive ranks, an ace also playing low, and no higher top exists; no result exactly when there is no straight |
| Evaluator.SortedRanks | ml/src/equity.py:118 | the ranks sorted highest first, a permutation of the cards' values |
| Evaluator.ScoreFive | ml/src/equity.py:117-159 | the category is 0..8 and the number of tie-break ranks matches the category |
| Evaluator.ScoreFiveCategory | ml/src/equity.py:117-159 | the category equals an independent definition: straight flush, quads, full house, flush, straight, trips, two pair, pair, high card, the first pattern present |
| Evaluator.ScoreByCountsCategory | ml/src/equity.py:127-159 | below a straight flush, the scorer picks its category in the source's order of tests |
| Evaluator.QuadsScore | ml/src/equity.py:128-131 | four of a kind is scored by the quad value, then the kicker |
| Evaluator.FullHouseScore | ml/src/equity.py:133-136 | a full house is scored by the trip value, then the pair value |
| Evaluator.TripsScore | ml/src/equity.py:144-147 | trips are scored by the trip value and the two kickers, highest first |
| Evaluator.TwoPairScore | ml/src/equity.py:149-152 | two pair is scored by the higher pair, the lower pair, then the kicker |
| Evaluator.OnePairScore | ml/src/equity.py:154-157 | one pair is scored by the pair value and three kickers, highest first |
| Evaluator.RanksWithCount | ml/src/equity.py:149 | the values occurring `c` times, strictly descending |
| Seqs.Combinations | ml/src/equity.py:110 | there are C(n, k) selections, each of `k` elements |
| Seqs.CombinationsAreSubsequences | ml/src/equity.py:110 | the selections are exactly the length-`k` subsequences |
| Seqs.CombinationsOfAll | ml/src/equity.py:110 | choosing all elements gives the list itself, once |
| Seqs.ChooseTooMany | ml/src/equity.py:72 | choosing more than there are gives 0 |
| Seqs.ChoosePositive | ml/src/equity.py:72 | choosing at most as many as there are gives at least 1 |
| Evaluator.BestScore | ml/src/equity.py:109-114 | the kept score dominates the score of every combination |
| Evaluator.BoundKeptBy | ml/src/equity.py:111-113 | one loop step keeps the running maximum: if the earlier combinations' scores are all at most the previous best, and the new best is at least both the previous best and the new combination's score, then every combination so far scores at most the new best |
| Evaluator.BestScoreAttained | ml/src/equity.py:109-114 | the kept score is the score of some combination |
| Evaluator.EvaluateBestHand | ml/src/equity.py:103-114 | fewer than five cards is an error; otherwise the result dominates every 5-card combination |
| Evaluator.BestHandAttained | ml/src/equity.py:103-114 | the best score is the score of some 5-card combination |
| Evaluator.BestHandOverSubsets | ml/src/equity.py:103-114 | the best score is the maximum over all 5-card subsequences, and is attained |
| Evaluator.EvaluateFiveCards | ml/src/equity.py:103-114 | five cards are scored as themselves |
| Evaluator.MoreCardsNeverWorse | ml/src/equity.py:103-114 | adding cards never lowers the best score |
| Equity.MaxScore | ml/src/equity.py:87-93 | the best villain is one of the villains and dominates them all |
| Equity.Judge | ml/src/equity.py:94-97 | a win means every villain is below the hero; a tie means none is above and one equals; a loss means some villain is above |
| Equity.JudgeMeaning | ml/src/equity.py:87-97 | comparing against the best villain decides the same as comparing against every villain |
| Equity.VillainScores | ml/src/equity.py:88-91 | villain `i` holds cards `2i` and `2i+1` of the deal after the board cards |
| Equity.SampleOutcome | ml/src/equity.py:83-97 | a deal completes the board from its front and is a win exactly when the hero's best beats every villain |
| Equity.Outcomes | ml/src/equity.py:82-97 | one outcome per deal, in order |
| Equity.CountOutcomes | ml/src/equity.py:94-97 | wins, ties and losses account for every deal |
| Equity.Share | ml/src/equity.py:99 | the equity lies in [0, 1]; it is 1 exactly when every deal wins and 0 exactly without wins and ties; no deals give 0 |
| Equity.RemainingCount | ml/src/equity.py:65 | with a valid state, 50 minus the board size cards are left |
| Equity.NotEnoughCardsIff | ml/src/equity.py:65-70 | the deck runs out exactly from 23 opponents on, whatever the board |
| Equity.Samples | ml/src/equity.py:72-80 | all C(n, k) completions when that is at most `trials`, otherwise `trials` supplied deals |
| Equity.ExactDealsAreAllCompletions | ml/src/equity.py:72-78 | in the exhaustive case the deals are exactly the `k`-card subsequences of the remaining cards |
| Equity.Tally | ml/src/equity.py:82-98 | the loop counts the wins and the ties |
| Equity.Deal | ml/src/equity.py:72-100 | the estimate reports the counts over the chosen deals, equity in [0, 1] |
| Equity.EstimateEquity | ml/src/equity.py:54-100 | fewer than one opponent, and then too few cards, are exactly the two refusals; otherwise the estimate reports the deals as above |
| Equity.EquityExtremes | ml/src/equity.py:99-100 | equity is 1 exactly when every deal is won and 0 exactly when every deal is lost |
| Equity.ShareExtremes | ml/src/equity.py:99 | the same two facts for any list of outcomes |
| Equity.ScoreToLabel | ml/src/equity.py:224-227 | "Royal Flush" exactly for an ace-high straight flush, "Unknown" exactly for a category outside 0..8, otherwise the category's label |
| Equity.LabelDeterminesCategory | ml/src/equity.py:185-195 | different categories get different labels |
| Equity.Holdings | ml/src/equity.py:240-250 | all C(n, 2) holdings when that is at most the sample count, otherwise the supplied pairs |
| Equity.HoldingOutcome | ml/src/equity.py:253-258 | a holding counts as better, equal or worse by comparing its best hand with the score |
| Equity.HoldingOutcomes | ml/src/equity.py:253-258 | one comparison per holding, in order |
| Equity.Clamp01 | ml/src/equity.py:263 | the clamp lies in [0, 1] and keeps values already inside |
| Equity.EstimatePercentile | ml/src/equity.py:230-263 | no percentile before the flop, nor when there are no holdings to compare (C(n, 2) = 0) or the sample count is 0; otherwise the percentile is one minus the share of better holdings (ties count half), over C(n, 2) holdings or the sample count, whichever is smaller, negative counts included. It lies in [0, 1] and is 1 exactly when no holding is better or equal, so a negative sample count, which draws no holding, gives 1 |
| Equity.DescribeMadeHand | ml/src/equity.py:198-221 | nothing for fewer than five cards; otherwise the best score, its label and category, and the percentile exactly as `Equity.EstimatePercentile` gives it, in [0, 1] when present |
| Decision.StreetOf | ml/src/decision_engine.py:21-29 | the street is the board's stage; an oversized board has none |
| Decision.RankStrength | ml/src/decision_engine.py:61-75 | every rank's strength lies in [0.05, 0.68] |
| Decision.RankStrengthIncreasing | ml/src/decision_engine.py:61-75 | a higher rank has a strictly higher strength |
| Decision.StrengthSum | ml/src/decision_engine.py:142 | the summed strength of `n` cards lies between 0.05·n and 0.68·n |
| Decision.HasPair | ml/src/decision_engine.py:169-172 | true exactly when two different cards share a rank |
| Decision.HasFlushDraw | ml/src/decision_engine.py:174-181 | true exactly when there are at least four cards and four or more share a suit |
| Decision.HasStraightDraw | ml/src/decision_engine.py:183-194 | true exactly when four consecutive rank values are present |
| Decision.StraightDrawMeaning | ml/src/decision_engine.py:185-194 | the longest run of the shifted rank indices reaches four exactly when four consecutive values are present |
| Decision.PotOdds | ml/src/decision_engine.py:196-200 | no odds without a positive call; otherwise the odds are in (0, 1], equal 1 exactly for an empty pot, and times the total give the call |
| Decision.PotOddsGrowWithCall | ml/src/decision_engine.py:196-200 | a larger call never lowers the pot odds |
| Decision.Thresholds | ml/src/decision_engine.py:208-216 | balanced (0.38, 0.65), tight five points higher, aggressive 0.05 and 0.08 lower; fold below raise |
| Decision.Clamp | ml/src/decision_engine.py:220 | the clamp lies within the bounds and keeps values already inside |
| Decision.ApplyPolicy | ml/src/decision_engine.py:202-225 | fold exactly at or below the fold threshold when the odds do not favour calling; otherwise raise exactly from the raise threshold; each action's confidence stays in its range |
| Decision.PolicyMonotone | ml/src/decision_engine.py:202-225 | a stronger hand never gets a more passive action under the same odds and profile |
| Decision.PolicyConfidence | ml/src/decision_engine.py:218-223 | a fold's confidence is one minus the strength clamped to [0.2, 0.95]; a raise's is the strength clamped to [0.4, 0.95] |
| Decision.SuggestBet | ml/src/decision_engine.py:227-230 | the bet is at least three quarters of the pot and at least a nonzero minimum raise, and is one of the two; without a minimum raise it is at least 1 |
| Decision.StrategyNotes | ml/src/decision_engine.py:232-239 | the profile note comes first; the tight note appears exactly for tight play that does not fold, the aggressive note exactly for aggressive play that does not raise |
| Decision.PreflopBase | ml/src/decision_engine.py:141-147 | the mean rank strength plus the bonuses lies in [0.05, 0.88] |
| Decision.EstimateStrength | ml/src/decision_engine.py:138-167 | with no board the strength is the pre-flop base; with a board it lies in [0.05, 0.99] |
| Decision.PreflopCapUnreached | ml/src/decision_engine.py:151-152 | the 0.95 cap on the empty board never applies, since the base is at most 0.88 |
| Decision.StrengthGrowsWithBoard | ml/src/decision_engine.py:149-167 | one more board card never lowers the heuristic strength |
| Decision.PairMonotone | ml/src/decision_engine.py:169-172 | a pair stays a pair when a card is added |
| Decision.FlushDrawMonotone | ml/src/decision_engine.py:174-181 | a flush draw stays one when a card is added |
| Decision.StraightDrawMonotone | ml/src/decision_engine.py:183-194 | a straight draw stays one when a card is added |
| Decision.EquityOpponents | ml/src/decision_engine.py:132 | the estimate is asked for at least one opponent and at least the context's count |
| Decision.EquityTrials | ml/src/decision_engine.py:133 | the estimate is asked for at least 200 trials and at least the context's count |
| Decision.MaybeEstimateEquity | ml/src/decision_engine.py:126-136 | the estimate is missing exactly when 23 or more opponents exhaust the deck; otherwise it is what `Equity.EstimateEquity` reports for the state with the engine's opponent and trial counts (its wins, ties and trials over the chosen deals), and its equity is in [0, 1] |
| Decision.Rationale | ml/src/decision_engine.py:84-113 | line 1 is the street; line 2 is the equity line (opponents, strength and trial count) or the fallback line; line 3 is the strength; a pot-odds line is present exactly when there are odds, fourth; a bet line is present exactly for a nonzero bet, right before the notes; the strategy notes come last, unchanged; nothing else |
| Decision.Assemble | ml/src/decision_engine.py:95-122 | the action and confidence come from the policy, a bet is given exactly with a raise, and the rationale starts with the street and ends with the strategy notes |
| Decision.RecommendAction | ml/src/decision_engine.py:77-122 | the default context stands in for a missing one; the equity reported is that of an estimate `Equity.EstimateEquity` gives for the state with the engine's opponent and trial counts, and it is used when available, the heuristic strength otherwise; the result follows the policy, with a bet exactly for a raise |
| CardParser.LookupMeaning | cv/src/card_parser.py:128-129 | a table lookup finds something exactly when some entry has the key, and what it finds is that entry's value |
| CardParser.LookupFinds | cv/src/card_parser.py:13-47 | in a table with distinct keys, each key finds its own entry |
| CardParser.AliasTablesDistinct | cv/src/card_parser.py:13-47 | the alias tables have no repeated key |
| CardParser.RankNameIsAlias | cv/src/card_parser.py:13-32 | every rank's own text is a rank alias mapping to itself |
| CardParser.OneIsNoRank | cv/src/card_parser.py:112-114 | "1" is not a rank alias |
| CardParser.FindRankIsFirstAlias | cv/src/card_parser.py:109-116 | the rank search with its skip of "1" equals the plain first-alias search, so the skip is dead |
| CardParser.FindInMeaning | cv/src/card_parser.py:119-124 | the search finds something exactly when some token is an alias, and then the alias of the first such token |
| CardParser.SymbolIsNoSuit | cv/src/card_parser.py:34-47 | each suit symbol normalises to itself and is not a suit name |
| CardParser.BuildCard | cv/src/card_parser.py:127-135 | a card is built only when the suit token is a suit alias, and it carries the normalised alias texts |
| CardParser.BuildCardAsWrittenFails | cv/src/card_parser.py:127-135 | with the symbol aliases no pair of tokens builds a card |
| CardParser.AlnumOnly | cv/src/card_parser.py:99 | the letters and digits of the text, in order; a text of letters and digits is unchanged |
| CardParser.CompactMatch | cv/src/card_parser.py:102-104 | a match splits the text into a rank group and a suit group, concatenated |
| CardParser.CompactMatchSplits | cv/src/card_parser.py:102-104 | each rank group followed by each suit group matches, with those groups |
| CardParser.CompactForm | cv/src/card_parser.py:98-106 | a card from the compact form is built from tokens, and only when the compact text matches |
| CardParser.WordsAreRuns | cv/src/card_parser.py:61 | every token is a non-empty run without separators |
| CardParser.ContentMeaning | cv/src/card_parser.py:62 | the filter keeps exactly the words other than "of" and "the" |
| CardParser.TokensMeaning | cv/src/card_parser.py:61-62 | every token is a non-empty separator-free word other than "of" and "the" |
| CardParser.Parse | cv/src/card_parser.py:50-72 | an empty label gives nothing; any card found is built from some rank and suit token |
| CardParser.ParseCardLabel | cv/src/card_parser.py:50-72 | as written, no label yields a card |
| CardParser.ParseIntended | cv/src/card_parser.py:50-72 | with suit names as alias values, an empty label gives nothing and any card is built from tokens |
| CardParser.ParseIntendedRoundTrip | cv/src/card_parser.py:50-59 | every card's display form (`AH`, `10D`) parses back to that card |
| CardParser.ParseIntendedCompact | cv/src/card_parser.py:98-106 | every label whose letters and digits, upper-cased, spell a card's display form parses to that card, whatever other characters and letter case it has |
| CardParser.ParseIntendedLowerKey | cv/src/card_parser.py:98-106 | the lower-case display form (`ah`, `10d`) parses to the card |
| CardParser.AceOfHeartsLost | cv/src/card_parser.py:98-106 | "AH" gives nothing as written and the ace of hearts as intended |
| CardParser.SpelledOutLabel | cv/src/card_parser.py:56-70 | a rank word and a suit word of letters and digits, in any case, joined by "of" (in any case) between non-empty separator runs, parse as the card built from the rank word's alias and the suit word's alias, when the rank word is not itself a suit alias |
| CardParser.QueenOfHeartsParsed | cv/src/card_parser.py:61-70 | "queen of hearts" is the queen of hearts as intended, and nothing as written |
| CardParser.Record | cv/src/card_parser.py:90-92 | a new card is appended to the order with its confidence; a known card keeps its place and takes the larger confidence; every other card keeps its confidence |
| CardParser.Collect | cv/src/card_parser.py:81-92 | the running table stays well formed: an order without repeats whose cards are exactly the keys |
| CardParser.CollectFirstSeen | cv/src/card_parser.py:81-92 | the table lists its cards in the order of first detection: each card is named by some detection before any detection names a card listed after it |
| CardParser.CollectMeaning | cv/src/card_parser.py:81-92 | the table holds exactly the cards some detection names, each with its highest confidence |
| CardParser.Entries | cv/src/card_parser.py:94 | entry `k` is the table's `k`-th card in insertion order, with its kept confidence; no card repeats |
| CardParser.InsertByConf | cv/src/card_parser.py:94 | inserting keeps the list sorted by confidence and adds exactly the entry |
| CardParser.SortByConf | cv/src/card_parser.py:94 | sorted by confidence, highest first, and a permutation of the entries |
| CardParser.SortKeepsCardsDistinct | cv/src/card_parser.py:94 | sorting does not introduce a repeated card |
| CardParser.Ranked | cv/src/card_parser.py:94 | the ranked list is sorted, has no repeated card, and has one entry per card seen |
| CardParser.RankedMeaning | cv/src/card_parser.py:81-94 | every ranked entry is a card at its highest confidence, and every card named by a detection is ranked |
| CardParser.DetectionsToCards | cv/src/card_parser.py:75-95 | the result is the first entries of the ranked list: `max_cards` of them (all if fewer) for a non-negative limit, and for a negative limit all but the last `-max_cards`, as Python slicing does. So it is sorted by confidence, highest first, with each card once at its highest confidence |
| CardParser.DetectionsKeepMostConfident | cv/src/card_parser.py:94-95 | every card that is seen but cut off by the limit has a confidence no higher than any returned card |
| CardParser.DetectionsComplete | cv/src/card_parser.py:94-95 | with a limit at least the number of cards seen, every named card is returned |
| CardParser.NoDetectionSurvives | cv/src/card_parser.py:75-95 | with the parser as written, no detections ever produce a card |

## Left out

- Random sampling (`_random_sample`, `random.sample`): the random deals are a parameter (`draws`), required to be distinct cards from the remaining deck. Nothing about their distribution is modelled.
- Floating point: values are exact reals. In IEEE arithmetic the tight raise threshold 0.65 + 0.05 is 0.7000000000000001 and the aggressive one 0.65 − 0.08 is 0.5700000000000001; the model uses 0.70 and 0.57, so a strength of exactly 0.70 (resp. 0.57) raises here and calls in the source. Rounding at the other thresholds is not modelled either.
- Decision.ApplyPolicy: the call confidence is only bounded to [0.3, 0.9], as the source clamps it; the 1e-6 guard in its denominator is kept.
- String formatting: the rationale lines are the `Note` datatype carrying the numbers; the `:.0%` and `:.2f` renderings and the note texts are not modelled.
- Text case mapping covers ASCII letters only; `str.upper`, `str.lower` and `str.capitalize` on other letters are not modelled. `str.isspace` is modelled on its full character set.
- `DecisionContext.opponent_range` and `DecisionContext.notes` are never read by the engine and are left out.
- `get_decision_engine` and the `DecisionEngine` constructor are a factory and a constant table; the table is `Decision.RankStrength`.
- Detections whose confidence is not a number are not modelled: a detection is a mapping with an optional class text and an optional real confidence, or not a mapping at all. `str(label)` on a non-string class is not modelled.
- CardParser.SortByConf: stability among equal confidences is not stated (the sort is stable, but the contract only states order and permutation).
- The "1" skip in `_find_rank` and the `best == 1` branch of `_straight_high` are modelled but shown dead (`CardParser.FindRankIsFirstAlias`; `Evaluator.StraightHigh`).
- Decision.SuggestBet: with a negative minimum raise the bet is still at least three quarters of the pot, which can be 0; the source allows this and so does the model.
- Equity.EstimateEquity: a negative `trials` makes the source report a negative trial count and equity 0; the model does the same, and the counts bound holds only for non-negative trials.
- The Streamlit UI, the detector, the movement detector and the training scripts are outside the core.

## Findings

| source | as written | input that shows it | evidently intended | confidence | as-written member | corrected member |
|---|---|---|---|---|---|---|
| cv/src/card_parser.py:34-47 | every suit alias maps to a suit symbol (♥ ♦ ♣ ♠), which `Card` rejects as an invalid suit (utils/models.py:20-21) and `_build_card` cannot look up again, so `parse_card_label` never returns a card and `detections_to_cards` always returns an empty list | the label "AH" (also "queen of hearts") | aliases map to the suit names "Hearts", "Diamonds", "Clubs", "Spades", so "AH" is the ace of hearts | not executed | CardParser.ParseCardLabel, CardParser.AceOfHeartsLost, CardParser.NoDetectionSurvives | CardParser.ParseIntended, CardParser.ParseIntendedRoundTrip, CardParser.QueenOfHeartsParsed |
