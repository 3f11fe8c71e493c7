/** The heuristic decision engine of `ml/src/decision_engine.py`: the
    street, the fallback strength estimate with its draw detectors, pot
    odds, the threshold policy with its profile shifts and confidence
    clamps, bet sizing, the strategy notes and the assembled
    recommendation. Python floats are modelled as exact reals. */
module Decision {
  import opened Wrappers
  import opened Seqs
  import opened Models
  import opened Runs
  import opened Sorting
  import opened Counts
  import opened Evaluator
  import opened Equity

  datatype Profile = Tight | Balanced | Aggressive

  datatype Action = Fold | Call | Raise

  /** `profile.title()`. */
  function ProfileTitle(p: Profile): string {
    match p
    case Tight => "Tight"
    case Balanced => "Balanced"
    case Aggressive => "Aggressive"
  }

  /** `Street.from_community`: the street is the board's stage, and a
      board of more than five cards has none. */
  function StreetOf(community: Community): (r: Result<Stage, ModelError>)
    ensures r.Success? <==> |community.cards| <= 5
    ensures r == Success(PreFlop) <==> |community.cards| < 3
    ensures r == Success(Flop) <==> |community.cards| == 3
    ensures r == Success(Turn) <==> |community.cards| == 4
    ensures r == Success(River) <==> |community.cards| == 5
  {
    StageOf(community.cards)
  }

  /** The fallback strength of each rank. */
  function RankStrength(r: Rank): (s: real)
    ensures 0.05 <= s <= 0.68
  {
    [0.05, 0.08, 0.11, 0.14, 0.18, 0.22, 0.26, 0.3, 0.36, 0.42, 0.5, 0.58, 0.68][r - 2]
  }

  /** Rank strength grows with the rank. */
  lemma RankStrengthIncreasing(a: Rank, b: Rank)
    requires a < b
    ensures RankStrength(a) < RankStrength(b)
  {
  }

  /** `sum(rank_strength[card.rank] for card in cards)`. */
  function StrengthSum(cards: seq<Card>): (s: real)
    ensures 0.05 * |cards| as real <= s <= 0.68 * |cards| as real
  {
    if |cards| == 0 then 0.0
    else StrengthSum(cards[..|cards| - 1]) + RankStrength(cards[|cards| - 1].rank)
  }

  /** `_has_pair`: two of the cards share a rank. */
  function HasPair(cards: seq<Card>): (r: bool)
    ensures r <==> exists i, j :: 0 <= i < j < |cards| && cards[i].rank == cards[j].rank
  {
    var vs := Values(cards);
    HasDuplicate(vs)
  }

  function SuitsOf(cards: seq<Card>): (ss: seq<Suit>)
    ensures |ss| == |cards|
    ensures forall i :: 0 <= i < |cards| ==> ss[i] == cards[i].suit
  {
    seq(|cards|, i requires 0 <= i < |cards| => cards[i].suit)
  }

  /** `_has_flush_draw`: at least four cards, and the most frequent suit
      seen at least four times. */
  function HasFlushDraw(cards: seq<Card>): (r: bool)
    ensures r <==> |cards| >= 4 && exists s :: Count(SuitsOf(cards), s) >= 4
  {
    var ss := SuitsOf(cards);
    if |cards| < 4 then false
    else
      SomeSuitCounted(ss);
      exists k :: 0 <= k < |ss| && Count(ss, ss[k]) >= 4
  }

  /** Looking only at the suits present finds every suit seen four times. */
  lemma SomeSuitCounted(ss: seq<Suit>)
    ensures (exists k :: 0 <= k < |ss| && Count(ss, ss[k]) >= 4) <==> exists s :: Count(ss, s) >= 4
  {
    if exists s :: Count(ss, s) >= 4 {
      var s :| Count(ss, s) >= 4;
      var k :| 0 <= k < |ss| && ss[k] == s;
      assert Count(ss, ss[k]) >= 4;
    }
  }

  /** `rank_order.index(card.rank)` for each card: the position of its rank
      in the table, 0 for a two up to 12 for an ace. */
  function RankIndices(cards: seq<Card>): (ix: seq<int>)
    ensures |ix| == |cards|
    ensures forall i :: 0 <= i < |cards| ==> ix[i] == cards[i].rank - 2
  {
    seq(|cards|, i requires 0 <= i < |cards| => cards[i].rank - 2)
  }

  /** `_has_straight_draw`: the longest run of consecutive distinct rank
      positions is at least four. The ace only counts high. */
  function HasStraightDraw(cards: seq<Card>): (r: bool)
    ensures r <==> exists t :: t in Values(cards) && Covers(Values(cards), t - 3, t)
  {
    var u := SortAsc(Keys(RankIndices(cards)));
    IndicesShift(cards, u);
    StraightDrawMeaning(u, Values(cards));
    if |u| == 0 then false
    else
      DrawScanIsMaxRun(u, 1);
      DrawScan(u, 1, 1, 1) >= 4
  }

  lemma StraightDrawMeaning(u: seq<int>, vs: seq<int>)
    requires Ascending(u)
    requires forall x :: x in u <==> x + 2 in vs
    ensures |u| == 0 ==> !exists t :: t in vs && Covers(vs, t - 3, t)
    ensures |u| > 0 ==> (MaxRun(u, |u|) >= 4 <==> exists t :: t in vs && Covers(vs, t - 3, t))
  {
    if |u| == 0 {
      assert forall t :: t in vs ==> t - 2 in u;
    } else {
      MaxRunCovers(u, 4);
      ShiftedCovers(u, vs);
    }
  }

  /** The distinct sorted rank positions are the card values shifted by two. */
  lemma IndicesShift(cards: seq<Card>, u: seq<int>)
    requires u == SortAsc(Keys(RankIndices(cards)))
    ensures forall x :: x in u <==> x + 2 in Values(cards)
  {
    var ix := RankIndices(cards);
    assert forall x :: x in u <==> x in ix;
    ValuesShift(cards);
  }

  lemma ValuesShift(cards: seq<Card>)
    ensures forall x :: x in RankIndices(cards) <==> x + 2 in Values(cards)
  {
    var ix := RankIndices(cards);
    var vs := Values(cards);
    forall x ensures x in ix <==> x + 2 in vs {
      if x in ix {
        var i :| 0 <= i < |ix| && ix[i] == x;
        assert vs[i] == x + 2;
      }
      if x + 2 in vs {
        var i :| 0 <= i < |vs| && vs[i] == x + 2;
        assert ix[i] == x;
      }
    }
  }

  lemma ShiftedCovers(u: seq<int>, vs: seq<int>)
    requires forall x :: x in u <==> x + 2 in vs
    ensures (exists h :: h in u && Covers(u, h - 3, h)) <==> exists t :: t in vs && Covers(vs, t - 3, t)
  {
    if exists h :: h in u && Covers(u, h - 3, h) {
      var h :| h in u && Covers(u, h - 3, h);
      forall j | h - 1 <= j <= h + 2 ensures j in vs {
        assert j - 2 in u;
      }
      assert h + 2 in vs && Covers(vs, h - 1, h + 2);
    }
    if exists t :: t in vs && Covers(vs, t - 3, t) {
      var t :| t in vs && Covers(vs, t - 3, t);
      forall j | t - 5 <= j <= t - 2 ensures j in u {
        assert j + 2 in vs;
      }
      assert t - 2 in u && Covers(u, t - 5, t - 2);
    }
  }

  /** `_compute_pot_odds`: none without a positive amount to call,
      otherwise the share of the final pot the call pays. */
  function PotOdds(pot: int, toCall: Option<int>): (r: Option<real>)
    requires pot >= 0
    ensures r.None? <==> toCall.None? || toCall.value <= 0
    ensures r.Some? ==> 0.0 < r.value <= 1.0
    ensures r.Some? ==> (r.value == 1.0 <==> pot == 0)
    ensures r.Some? ==> r.value * (pot + toCall.value) as real == toCall.value as real
  {
    if toCall.None? || toCall.value <= 0 then None
    else
      var c := toCall.value as real;
      var t := (pot + toCall.value) as real;
      RatioBounds(c, t);
      Some(c / t)
  }

  lemma RatioBounds(c: real, t: real)
    requires 0.0 < c <= t
    ensures 0.0 < c / t <= 1.0
    ensures c / t == 1.0 <==> c == t
    ensures (c / t) * t == c
  {
    var q := c / t;
    assert q * t == c;
  }

  /** A larger amount to call never gives better odds. */
  lemma PotOddsGrowWithCall(pot: int, a: int, b: int)
    requires pot >= 0 && 0 < a <= b
    ensures PotOdds(pot, Some(a)).value <= PotOdds(pot, Some(b)).value
  {
    var p := pot as real;
    var x := a as real;
    var y := b as real;
    assert x * (p + y) <= y * (p + x) by {
      assert x * (p + y) == x * p + x * y;
      assert y * (p + x) == y * p + x * y;
      assert x * p <= y * p;
    }
    FractionLe(x, y, p + x, p + y);
  }

  lemma FractionLe(a: real, b: real, d1: real, d2: real)
    requires d1 > 0.0 && d2 > 0.0 && a * d2 <= b * d1
    ensures a / d1 <= b / d2
  {
    var x := a / d1;
    var y := b / d2;
    assert x * d1 == a && y * d2 == b;
    assert x * (d1 * d2) == a * d2;
    assert y * (d1 * d2) == b * d1;
    assert d1 * d2 > 0.0;
  }

  /** The fold and raise thresholds of a profile. */
  function Thresholds(p: Profile): (t: (real, real))
    ensures t.0 < t.1
    ensures p == Balanced ==> t == (0.38, 0.65)
    ensures p == Tight ==> t == (0.38 + 0.05, 0.65 + 0.05)
    ensures p == Aggressive ==> t == (0.38 - 0.05, 0.65 - 0.08)
  {
    match p
    case Tight => (0.43, 0.70)
    case Balanced => (0.38, 0.65)
    case Aggressive => (0.33, 0.57)
  }

  /** `max(lo, min(x, hi))`. */
  function Clamp(x: real, lo: real, hi: real): (r: real)
    requires lo <= hi
    ensures lo <= r <= hi
    ensures lo <= x <= hi ==> r == x
  {
    if x > hi then hi else if x < lo then lo else x
  }

  /** `_apply_policy`: fold when weak and the pot odds (if any) are not
      met, raise when strong, call otherwise; each action clamps its
      confidence to its own range. */
  function ApplyPolicy(strength: real, potOdds: Option<real>, p: Profile): (r: (Action, real))
    ensures r.0 == Fold <==> strength <= Thresholds(p).0 && (potOdds.None? || strength < potOdds.value)
    ensures r.0 == Raise <==> r.0 != Fold && strength >= Thresholds(p).1
    ensures r.0 == Fold ==> 0.2 <= r.1 <= 0.95
    ensures r.0 == Raise ==> 0.4 <= r.1 <= 0.95
    ensures r.0 == Call ==> 0.3 <= r.1 <= 0.9
  {
    var (fold, raise) := Thresholds(p);
    if strength <= fold && (potOdds.None? || strength < potOdds.value) then
      (Fold, Clamp(1.0 - strength, 0.2, 0.95))
    else if strength >= raise then
      (Raise, Clamp(strength, 0.4, 0.95))
    else
      (Call, Clamp(0.5 + (strength - fold) / (raise - fold + 1.0 / 1000000.0) * 0.3, 0.3, 0.9))
  }

  function Aggression(a: Action): nat {
    match a
    case Fold => 0
    case Call => 1
    case Raise => 2
  }

  /** A stronger hand never gets a more passive action under the same pot
      odds and profile. */
  lemma PolicyMonotone(s1: real, s2: real, potOdds: Option<real>, p: Profile)
    requires s1 <= s2
    ensures Aggression(ApplyPolicy(s1, potOdds, p).0) <= Aggression(ApplyPolicy(s2, potOdds, p).0)
  {
  }

  /** The confidence of a fold and of a raise follow the strength inside
      their clamps. */
  lemma PolicyConfidence(strength: real, potOdds: Option<real>, p: Profile)
    ensures ApplyPolicy(strength, potOdds, p).0 == Fold ==>
              ApplyPolicy(strength, potOdds, p).1 == Clamp(1.0 - strength, 0.2, 0.95)
    ensures ApplyPolicy(strength, potOdds, p).0 == Raise ==>
              ApplyPolicy(strength, potOdds, p).1 == Clamp(strength, 0.4, 0.95)
  {
  }

  /** `_suggest_bet`: the larger of the minimum raise (half the pot, at
      least 1, when none or zero is given) and three quarters of the pot,
      both truncated. */
  function SuggestBet(pot: int, minRaise: Option<int>): (bet: int)
    requires pot >= 0
    ensures bet >= 3 * pot / 4
    ensures minRaise.Some? && minRaise.value != 0 ==> bet >= minRaise.value
    ensures minRaise.None? || minRaise.value >= 0 ==> bet >= 1
    ensures bet == 3 * pot / 4 || (minRaise.Some? && minRaise.value != 0 && bet == minRaise.value)
              || ((minRaise.None? || minRaise.value == 0) && bet == if pot / 2 > 1 then pot / 2 else 1)
  {
    var half := pot / 2;
    var min := if minRaise.Some? && minRaise.value != 0 then minRaise.value
               else if half > 1 then half else 1;
    var goal := 3 * pot / 4;
    if min > goal then min else goal
  }

  /** A rationale entry; the numbers the source formats into text are
      kept as numbers. */
  datatype Note =
    | StreetNote(stage: Stage)
    | EquityNote(opponents: int, equity: real, trials: int)
    | FallbackNote
    | StrengthNote(strength: real)
    | PotOddsNote(odds: real)
    | BetNote(bet: int)
    | ProfileNote(title: string)
    | TightNote
    | AggressiveNote

  /** `_strategy_notes`: the profile first, then the tight note unless
      folding, then the aggressive note unless raising. */
  function StrategyNotes(a: Action, p: Profile): (notes: seq<Note>)
    ensures |notes| >= 1 && notes[0] == ProfileNote(ProfileTitle(p))
    ensures TightNote in notes <==> p == Tight && a != Fold
    ensures AggressiveNote in notes <==> p == Aggressive && a != Raise
    ensures |notes| <= 2
  {
    [ProfileNote(ProfileTitle(p))]
    + (if p == Tight && a != Fold then [TightNote] else [])
    + (if p == Aggressive && a != Raise then [AggressiveNote] else [])
  }

  /** `_estimate_strength` before the board: the mean rank strength plus
      the pocket-pair and suited bonuses. */
  function PreflopBase(hand: Hand): (b: real)
    requires hand.Valid()
    ensures 0.05 <= b <= 0.88
  {
    var c0 := hand.cards[0];
    var c1 := hand.cards[1];
    var mean := (RankStrength(c0.rank) + RankStrength(c1.rank)) / 2.0;
    mean + (if c0.rank == c1.rank then 0.2 else 0.0) + (if c0.suit == c1.suit then 0.05 else 0.0)
  }

  /** The made-hand bonuses of `_estimate_strength` for the combined cards. */
  function Bonus(combined: seq<Card>): (b: real)
    ensures 0.0 <= b <= 0.13
  {
    (if HasPair(combined) then 0.05 else 0.0)
    + (if HasFlushDraw(combined) then 0.04 else 0.0)
    + (if HasStraightDraw(combined) then 0.04 else 0.0)
  }

  /** `max(0.05, min(base + board / 10 + bonus, 0.99))`. */
  function Level(base: real, boardSum: real, bonus: real): (s: real)
    ensures 0.05 <= s <= 0.99
  {
    var total := base + boardSum / 10.0 + bonus;
    var capped := if total < 0.99 then total else 0.99;
    if capped > 0.05 then capped else 0.05
  }

  /** `_estimate_strength`: on an empty board the pre-flop base capped at
      0.95; otherwise the base plus a tenth of the board's strength and the
      pair, flush-draw and straight-draw bonuses, kept in [0.05, 0.99]. */
  function EstimateStrength(hand: Hand, board: seq<Card>): (s: real)
    requires hand.Valid()
    ensures |board| == 0 ==> 0.05 <= s <= 0.95 && s == PreflopBase(hand)
    ensures |board| > 0 ==> 0.05 <= s <= 0.99
  {
    var base := PreflopBase(hand);
    if |board| == 0 then (if base < 0.95 then base else 0.95)
    else Level(base, StrengthSum(board), Bonus(hand.cards + board))
  }

  /** A larger board sum or bonus never lowers the level. */
  lemma LevelMonotone(base: real, s1: real, s2: real, b1: real, b2: real)
    requires s1 <= s2 && b1 <= b2
    ensures Level(base, s1, b1) <= Level(base, s2, b2)
  {
  }

  /** With a base below the cap, a non-negative board sum and bonus never
      take the level under the base. */
  lemma LevelAboveBase(base: real, boardSum: real, bonus: real)
    requires 0.05 <= base <= 0.99 && boardSum >= 0.0 && bonus >= 0.0
    ensures base <= Level(base, boardSum, bonus)
  {
  }

  lemma StrengthSumAppend(board: seq<Card>, c: Card)
    ensures StrengthSum(board + [c]) == StrengthSum(board) + RankStrength(c.rank)
  {
    assert (board + [c])[..|board|] == board;
  }

  /** The draw detectors only turn on as cards are added. */
  lemma PairMonotone(cards: seq<Card>, c: Card)
    ensures HasPair(cards) ==> HasPair(cards + [c])
  {
    if HasPair(cards) {
      var more := cards + [c];
      var i, j :| 0 <= i < j < |cards| && cards[i].rank == cards[j].rank;
      assert more[i] == cards[i] && more[j] == cards[j];
    }
  }

  lemma FlushDrawMonotone(cards: seq<Card>, c: Card)
    ensures HasFlushDraw(cards) ==> HasFlushDraw(cards + [c])
  {
    if HasFlushDraw(cards) {
      var s :| Count(SuitsOf(cards), s) >= 4;
      assert SuitsOf(cards + [c]) == SuitsOf(cards) + [c.suit];
      CountAppend(SuitsOf(cards), [c.suit], s);
    }
  }

  lemma StraightDrawMonotone(cards: seq<Card>, c: Card)
    ensures HasStraightDraw(cards) ==> HasStraightDraw(cards + [c])
  {
    if HasStraightDraw(cards) {
      var vs := Values(cards);
      var more := Values(cards + [c]);
      var t :| t in vs && Covers(vs, t - 3, t);
      ValuesAppend(cards, c);
      assert forall x :: x in vs ==> x in more;
      CoversGrow(vs, more, t - 3, t);
      assert t in more;
    }
  }

  lemma ValuesAppend(cards: seq<Card>, c: Card)
    ensures Values(cards + [c]) == Values(cards) + [c.rank as int]
  {
  }

  /** The bonuses only switch on as cards are added. */
  lemma BonusMonotone(cards: seq<Card>, c: Card)
    ensures Bonus(cards) <= Bonus(cards + [c])
  {
    PairMonotone(cards, c);
    FlushDrawMonotone(cards, c);
    StraightDrawMonotone(cards, c);
  }

  /** Dealing another board card never lowers the fallback strength: every
      bonus only switches on, the board sum only grows, and the empty-board
      cap of 0.95 is never reached by a valid hand. */
  lemma StrengthGrowsWithBoard(hand: Hand, board: seq<Card>, c: Card)
    requires hand.Valid()
    ensures EstimateStrength(hand, board) <= EstimateStrength(hand, board + [c])
  {
    var base := PreflopBase(hand);
    var more := board + [c];
    StrengthSumAppend(board, c);
    assert hand.cards + more == (hand.cards + board) + [c];
    BonusMonotone(hand.cards + board, c);
    if |board| > 0 {
      LevelMonotone(base, StrengthSum(board), StrengthSum(more), Bonus(hand.cards + board), Bonus(hand.cards + more));
    } else {
      LevelAboveBase(base, StrengthSum(more), Bonus(hand.cards + more));
    }
  }

  /** The empty-board cap of 0.95 never applies to a valid hand: the best
      pre-flop base is a pair of aces at 0.88. */
  lemma PreflopCapUnreached(hand: Hand)
    requires hand.Valid()
    ensures EstimateStrength(hand, []) == PreflopBase(hand) <= 0.88
  {
  }

  datatype DecisionContext = DecisionContext(
    potToCall: Option<int>,
    minRaise: Option<int>,
    profile: Profile,
    equitySamples: int,
    opponents: int)

  /** `DecisionContext()`. */
  const DefaultContext := DecisionContext(None, None, Balanced, 2000, 1)

  datatype DecisionResult = DecisionResult(
    action: Action,
    confidence: real,
    bet: Option<int>,
    rationale: seq<Note>,
    profile: Profile,
    equity: Option<real>)

  /** The arguments `_maybe_estimate_equity` passes on. */
  function EquityOpponents(ctx: DecisionContext): (n: int)
    ensures n >= 1 && n >= ctx.opponents
  {
    if ctx.opponents > 1 then ctx.opponents else 1
  }

  function EquityTrials(ctx: DecisionContext): (n: int)
    ensures n >= 200 && n >= ctx.equitySamples
  {
    if ctx.equitySamples > 200 then ctx.equitySamples else 200
  }

  /** `e` is what `estimate_equity` reports for the state, asked with the
      engine's opponent and trial counts: the deck suffices and the counts
      are those over the chosen deals. */
  predicate EstimateFor(e: EquityEstimate, state: GameState, ctx: DecisionContext, draws: seq<seq<Card>>)
    requires state.Valid()
    requires DrawsFit(RemainingCards(state.Known()),
                      CardsNeeded(state.community.cards, EquityOpponents(ctx)), EquityTrials(ctx), draws)
  {
    && CardsNeeded(state.community.cards, EquityOpponents(ctx)) <= |RemainingCards(state.Known())|
    && Reports(e, state.hand.cards, state.community.cards, EquityOpponents(ctx),
               RemainingCards(state.Known()), EquityTrials(ctx), draws)
  }

  /** `_maybe_estimate_equity`: the equity estimate, or nothing when the
      estimate refuses (too many opponents for the deck). */
  method MaybeEstimateEquity(state: GameState, ctx: DecisionContext, draws: seq<seq<Card>>)
    returns (r: Option<EquityEstimate>)
    requires state.Valid()
    requires DrawsFit(RemainingCards(state.Known()),
                      CardsNeeded(state.community.cards, EquityOpponents(ctx)), EquityTrials(ctx), draws)
    ensures r.None? <==> EquityOpponents(ctx) >= 23
    ensures r.Some? ==> EstimateFor(r.value, state, ctx, draws)
    ensures r.Some? ==> 0.0 <= r.value.equity <= 1.0
  {
    var n := EquityOpponents(ctx);
    var e := EstimateEquity(state, n, EquityTrials(ctx), draws);
    NotEnoughCardsIff(state, n);
    assert e.Failure? ==> e.error == NotEnoughCards;
    r := if e.Success? then Some(e.value) else None;
  }

  /** The rationale `recommend_action` builds, in order. */
  function Rationale(stage: Stage, eq: Option<EquityEstimate>, opponents: int, strength: real,
                     odds: Option<real>, bet: Option<int>, notes: seq<Note>): (r: seq<Note>)
    ensures |r| == 3 + (if odds.Some? then 1 else 0) + (if bet.Some? && bet.value != 0 then 1 else 0) + |notes|
    ensures r[0] == StreetNote(stage)
    ensures r[1] == (if eq.Some? then EquityNote(opponents, strength, eq.value.trials) else FallbackNote)
    ensures r[2] == StrengthNote(strength)
    ensures odds.Some? ==> r[3] == PotOddsNote(odds.value)
    ensures odds.Some? <==> PotOddsNote(odds.GetOr(0.0)) in r[..|r| - |notes|]
    ensures bet.Some? && bet.value != 0 ==> r[|r| - |notes| - 1] == BetNote(bet.value)
    ensures bet.Some? && bet.value != 0 <==> BetNote(bet.GetOr(0)) in r[..|r| - |notes|]
    ensures r[|r| - |notes|..] == notes
  {
    [StreetNote(stage)]
    + [if eq.Some? then EquityNote(opponents, strength, eq.value.trials) else FallbackNote]
    + [StrengthNote(strength)]
    + (if odds.Some? then [PotOddsNote(odds.value)] else [])
    + (if bet.Some? && bet.value != 0 then [BetNote(bet.value)] else [])
    + notes
  }

  /** The second half of `recommend_action`: the policy applied to the
      strength, the bet for a raise, and the rationale. */
  function Assemble(stage: Stage, eq: Option<EquityEstimate>, strength: real, pot: int, ctx: DecisionContext): (r: DecisionResult)
    requires pot >= 0
    ensures r.profile == ctx.profile
    ensures r.equity == if eq.Some? then Some(strength) else None
    ensures (r.action, r.confidence) == ApplyPolicy(strength, PotOdds(pot, ctx.potToCall), ctx.profile)
    ensures r.bet.Some? <==> r.action == Raise
    ensures r.bet.Some? ==> r.bet.value == SuggestBet(pot, ctx.minRaise)
    ensures |r.rationale| >= 4 && r.rationale[0] == StreetNote(stage)
    ensures r.rationale[|r.rationale| - |StrategyNotes(r.action, ctx.profile)|..] == StrategyNotes(r.action, ctx.profile)
  {
    var odds := PotOdds(pot, ctx.potToCall);
    var (action, confidence) := ApplyPolicy(strength, odds, ctx.profile);
    var bet := if action == Raise then Some(SuggestBet(pot, ctx.minRaise)) else None;
    var notes := StrategyNotes(action, ctx.profile);
    DecisionResult(action, confidence, bet, Rationale(stage, eq, ctx.opponents, strength, odds, bet, notes),
                   ctx.profile, if eq.Some? then Some(strength) else None)
  }

  /** `recommend_action`: equity (or the heuristic strength when the
      estimate refuses) against the profile's thresholds and the pot odds;
      a bet only with a raise. */
  method RecommendAction(state: GameState, context: Option<DecisionContext>, draws: seq<seq<Card>>)
    returns (r: DecisionResult)
    requires state.Valid()
    requires var ctx := context.GetOr(DefaultContext);
             DrawsFit(RemainingCards(state.Known()),
                      CardsNeeded(state.community.cards, EquityOpponents(ctx)), EquityTrials(ctx), draws)
    ensures var ctx := context.GetOr(DefaultContext);
            && r.profile == ctx.profile
            && (r.equity.None? <==> EquityOpponents(ctx) >= 23)
            && (var strength := if r.equity.Some? then r.equity.value
                                else EstimateStrength(state.hand, state.community.cards);
                (r.action, r.confidence) == ApplyPolicy(strength, PotOdds(state.pot, ctx.potToCall), ctx.profile))
            && (r.bet.Some? <==> r.action == Raise)
            && (r.bet.Some? ==> r.bet.value == SuggestBet(state.pot, ctx.minRaise))
            && |r.rationale| >= 4
            && r.rationale[0] == StreetNote(StageOf(state.community.cards).value)
            && r.rationale[|r.rationale| - |StrategyNotes(r.action, ctx.profile)|..] == StrategyNotes(r.action, ctx.profile)
    ensures var ctx := context.GetOr(DefaultContext);
            r.equity.Some? ==> exists e :: EstimateFor(e, state, ctx, draws) && r.equity.value == e.equity
    ensures r.equity.Some? ==> 0.0 <= r.equity.value <= 1.0
  {
    var ctx := context.GetOr(DefaultContext);
    var stage := StreetOf(state.community).value;
    var eq := MaybeEstimateEquity(state, ctx, draws);
    var strength := if eq.Some? then eq.value.equity
                    else EstimateStrength(state.hand, state.community.cards);
    r := Assemble(stage, eq, strength, state.pot, ctx);
  }
}
