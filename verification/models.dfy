/** The card model of `utils/models.py`: cards with validating,
    normalising construction, two-card hands, the community board and its
    stage, the full deck, the undealt remainder, and the game state. */
module Models {
  import opened Wrappers
  import opened Text
  import opened Seqs

  /** A rank, by its numeric value: 2..10, J = 11, Q = 12, K = 13, A = 14
      (the values the hand evaluator assigns to rank texts). */
  type Rank = v: int | 2 <= v <= 14 witness 2

  datatype Suit = Hearts | Diamonds | Clubs | Spades

  /** A validated card. Only normalised, accepted rank and suit texts
      produce one, so the fields hold those values and nothing else. */
  datatype Card = Card(rank: Rank, suit: Suit)

  /** The accepted rank texts, in order: rank `v` is at index `v - 2`. */
  const RankNames: seq<string> := ["2", "3", "4", "5", "6", "7", "8", "9", "10", "J", "Q", "K", "A"]

  /** The accepted suit texts, in the order the deck is built. */
  const SuitNames: seq<string> := ["Hearts", "Diamonds", "Clubs", "Spades"]

  const Suits: seq<Suit> := [Hearts, Diamonds, Clubs, Spades]

  function RankName(r: Rank): string {
    RankNames[r - 2]
  }

  function SuitIndex(s: Suit): (i: nat)
    ensures i < 4 && Suits[i] == s
  {
    match s
    case Hearts => 0
    case Diamonds => 1
    case Clubs => 2
    case Spades => 3
  }

  function SuitName(s: Suit): string {
    SuitNames[SuitIndex(s)]
  }

  /** The rank whose text is `t`, if `t` is an accepted rank text. */
  function RankOfName(t: string): (r: Option<Rank>)
    ensures r.Some? <==> t in RankNames
    ensures r.Some? ==> RankName(r.value) == t
  {
    if t == "2" then Some(2) else if t == "3" then Some(3)
    else if t == "4" then Some(4) else if t == "5" then Some(5)
    else if t == "6" then Some(6) else if t == "7" then Some(7)
    else if t == "8" then Some(8) else if t == "9" then Some(9)
    else if t == "10" then Some(10) else if t == "J" then Some(11)
    else if t == "Q" then Some(12) else if t == "K" then Some(13)
    else if t == "A" then Some(14) else None
  }

  /** The suit whose text is `t`, if `t` is an accepted suit text. */
  function SuitOfName(t: string): (r: Option<Suit>)
    ensures r.Some? <==> t in SuitNames
    ensures r.Some? ==> SuitName(r.value) == t
  {
    if t == "Hearts" then Some(Hearts) else if t == "Diamonds" then Some(Diamonds)
    else if t == "Clubs" then Some(Clubs) else if t == "Spades" then Some(Spades)
    else None
  }

  lemma RankNameInjective(a: Rank, b: Rank)
    requires RankName(a) == RankName(b)
    ensures a == b
  {
    assert RankOfName(RankName(a)) == Some(a);
    assert RankOfName(RankName(b)) == Some(b);
  }

  datatype CardError = InvalidRank(rank: string) | InvalidSuit(suit: string)

  /** The normalised rank text: stripped, upper-cased. */
  function NormalRank(rank: string): string {
    Upper(Strip(rank))
  }

  /** The normalised suit text: stripped, capitalised. */
  function NormalSuit(suit: string): string {
    Capitalize(Strip(suit))
  }

  /** The checks of `Card.__post_init__` on texts already normalised: the
      rank text first, then the suit text. */
  function CheckTexts(rk: string, st: string): (r: Result<Card, CardError>)
    ensures r.Success? <==> rk in RankNames && st in SuitNames
    ensures r.Success? ==> RankName(r.value.rank) == rk && SuitName(r.value.suit) == st
    ensures rk !in RankNames ==> r == Failure(InvalidRank(rk))
    ensures rk in RankNames && st !in SuitNames ==> r == Failure(InvalidSuit(st))
  {
    match RankOfName(rk)
    case None => Failure(InvalidRank(rk))
    case Some(v) =>
      match SuitOfName(st)
      case None => Failure(InvalidSuit(st))
      case Some(s) => Success(Card(v, s))
  }

  /** `Card(rank, suit)`: normalise both texts, then reject a rank outside
      the 13 accepted texts (checked first) or a suit outside the 4. */
  function MakeCard(rank: string, suit: string): (r: Result<Card, CardError>)
    ensures r.Success? <==> NormalRank(rank) in RankNames && NormalSuit(suit) in SuitNames
    ensures r.Success? ==> RankName(r.value.rank) == NormalRank(rank)
    ensures r.Success? ==> SuitName(r.value.suit) == NormalSuit(suit)
    ensures NormalRank(rank) !in RankNames ==> r == Failure(InvalidRank(NormalRank(rank)))
    ensures NormalRank(rank) in RankNames && NormalSuit(suit) !in SuitNames ==>
              r == Failure(InvalidSuit(NormalSuit(suit)))
  {
    CheckTexts(NormalRank(rank), NormalSuit(suit))
  }

  lemma SuitNameInjective(a: Suit, b: Suit)
    requires SuitName(a) == SuitName(b)
    ensures a == b
  {
    assert SuitOfName(SuitName(a)) == Some(a);
    assert SuitOfName(SuitName(b)) == Some(b);
  }

  /** The checks accept exactly the texts of a card, and give that card. */
  lemma CheckTextsAccepts(rk: string, st: string, c: Card)
    ensures CheckTexts(rk, st) == Success(c) <==> rk == RankName(c.rank) && st == SuitName(c.suit)
  {
    if rk == RankName(c.rank) && st == SuitName(c.suit) {
      assert rk in RankNames by { assert RankNames[c.rank - 2] == rk; }
      assert st in SuitNames by { assert SuitNames[SuitIndex(c.suit)] == st; }
      var r := CheckTexts(rk, st);
      RankNameInjective(r.value.rank, c.rank);
      SuitNameInjective(r.value.suit, c.suit);
    }
  }

  lemma CaseKeepsSpace(c: char)
    ensures IsSpace(UpperChar(c)) == IsSpace(c)
    ensures IsSpace(LowerChar(c)) == IsSpace(c)
  {
  }

  /** A text with no white space at either end is its own strip. */
  lemma StripOfTrimmed(s: string)
    requires |s| > 0 ==> !IsSpace(s[0]) && !IsSpace(s[|s| - 1])
    ensures Strip(s) == s
  {
    assert TrimLeft(s) == s;
    assert TrimRight(s) == s;
  }

  lemma NormalRankIdempotent(rank: string)
    ensures NormalRank(NormalRank(rank)) == NormalRank(rank)
  {
    var s := Strip(rank);
    UpperKeepsEnds(s);
    StripOfTrimmed(Upper(s));
    UpperIdempotent(s);
  }

  /** Upper-casing a stripped text keeps it stripped. */
  lemma UpperKeepsEnds(s: string)
    requires |s| > 0 ==> !IsSpace(s[0]) && !IsSpace(s[|s| - 1])
    ensures |Upper(s)| > 0 ==> !IsSpace(Upper(s)[0]) && !IsSpace(Upper(s)[|s| - 1])
  {
    if |s| > 0 {
      CaseKeepsSpace(s[0]);
      CaseKeepsSpace(s[|s| - 1]);
    }
  }

  lemma NormalSuitIdempotent(suit: string)
    ensures NormalSuit(NormalSuit(suit)) == NormalSuit(suit)
  {
    var t := Strip(suit);
    var st := Capitalize(t);
    if |t| > 0 {
      CaseKeepsSpace(t[0]);
      CaseKeepsSpace(t[|t| - 1]);
      assert st[0] == UpperChar(t[0]);
      assert |t| > 1 ==> st[|t| - 1] == LowerChar(t[|t| - 1]);
    }
    StripOfTrimmed(st);
    CapitalizeIdempotent(t);
  }

  /** Normalising is idempotent: constructing from texts that are already
      normalised gives the same outcome as constructing from the raw ones. */
  lemma NormalisationIdempotent(rank: string, suit: string)
    ensures MakeCard(NormalRank(rank), NormalSuit(suit)) == MakeCard(rank, suit)
  {
    NormalRankIdempotent(rank);
    NormalSuitIdempotent(suit);
  }

  predicate UpperAlnum(t: string) {
    forall i :: 0 <= i < |t| ==> ('0' <= t[i] <= '9' || 'A' <= t[i] <= 'Z')
  }

  predicate CapitalWord(t: string) {
    |t| > 0 && 'A' <= t[0] <= 'Z' && forall i :: 1 <= i < |t| ==> 'a' <= t[i] <= 'z'
  }

  lemma RankNameNormal(r: Rank)
    ensures NormalRank(RankName(r)) == RankName(r)
  {
    var t := RankName(r);
    RankNameUpperAlnum(r);
    StripOfTrimmed(t);
    UpperAlnumUpper(t);
  }

  lemma RankNameUpperAlnum(r: Rank)
    ensures |RankName(r)| > 0 && UpperAlnum(RankName(r))
  {
    assert forall k :: 0 <= k < 13 ==> |RankNames[k]| > 0 && UpperAlnum(RankNames[k]);
  }

  lemma UpperAlnumUpper(t: string)
    requires UpperAlnum(t)
    ensures Upper(t) == t
  {
    UpperUnchanged(t);
  }

  /** A capitalised word is its own normal suit text. */
  lemma NormalSuitOfWord(t: string)
    requires CapitalWord(t)
    ensures NormalSuit(t) == t
  {
    assert !IsSpace(t[0]) && !IsSpace(t[|t| - 1]);
    StripOfTrimmed(t);
    CapitalizeUnchanged(t);
  }

  lemma SuitNameNormal(s: Suit)
    ensures NormalSuit(SuitName(s)) == SuitName(s)
  {
    SuitNameCapital(s);
    NormalSuitOfWord(SuitName(s));
  }

  lemma SuitNameCapital(s: Suit)
    ensures CapitalWord(SuitName(s))
  {
    match s {
      case Hearts => assert CapitalWord("Hearts");
      case Diamonds => assert CapitalWord("Diamonds");
      case Clubs => assert CapitalWord("Clubs");
      case Spades => assert CapitalWord("Spades");
    }
  }

  /** Letter case does not matter: the lower-cased texts of a card build
      that card. */
  lemma MakeCardLowerCase(c: Card)
    ensures MakeCard(Lower(RankName(c.rank)), Lower(SuitName(c.suit))) == Success(c)
  {
    var t, w := RankName(c.rank), SuitName(c.suit);
    RankNameUpperAlnum(c.rank);
    SuitNameCapital(c.suit);
    LowerRankNormal(t);
    LowerSuitNormal(w);
    MakeCardAccepts(Lower(t), Lower(w), c);
  }

  lemma LowerRankNormal(t: string)
    requires UpperAlnum(t)
    ensures NormalRank(Lower(t)) == t
  {
    assert NoSpace(Lower(t));
    UpperOfLower(t);
    UpperAlnumUpper(t);
  }

  lemma LowerSuitNormal(w: string)
    requires CapitalWord(w)
    ensures NormalSuit(Lower(w)) == w
  {
    var lw := Lower(w);
    assert NoSpace(lw);
    var cw := Capitalize(lw);
    assert |cw| == |w|;
    forall i | 0 <= i < |w| ensures cw[i] == w[i] {
      if i == 0 {
        assert cw[0] == UpperChar(LowerChar(w[0]));
      } else {
        assert cw[i] == LowerChar(lw[i]);
      }
    }
  }

  /** Surrounding white space does not matter: a card's texts padded with
      white space build that card. */
  lemma MakeCardPadded(c: Card, a: string, b: string)
    requires forall i :: 0 <= i < |a| ==> IsSpace(a[i])
    requires forall i :: 0 <= i < |b| ==> IsSpace(b[i])
    ensures MakeCard(a + RankName(c.rank) + b, a + SuitName(c.suit) + b) == Success(c)
  {
    var t, w := RankName(c.rank), SuitName(c.suit);
    RankNameUpperAlnum(c.rank);
    SuitNameCapital(c.suit);
    PaddedWordNormal(a, t, w, b);
    MakeCardAccepts(a + t + b, a + w + b, c);
  }

  lemma PaddedWordNormal(a: string, t: string, w: string, b: string)
    requires forall i :: 0 <= i < |a| ==> IsSpace(a[i])
    requires forall i :: 0 <= i < |b| ==> IsSpace(b[i])
    requires |t| > 0 && UpperAlnum(t) && CapitalWord(w)
    ensures NormalRank(a + t + b) == t && NormalSuit(a + w + b) == w
  {
    assert !IsSpace(t[0]) && !IsSpace(t[|t| - 1]);
    assert !IsSpace(w[0]) && !IsSpace(w[|w| - 1]);
    StripSurrounded(a, t, b);
    StripSurrounded(a, w, b);
    UpperAlnumUpper(t);
    CapitalizeUnchanged(w);
  }

  /** Every card is built back from its own rank and suit texts. */
  lemma MakeCardFromNames(c: Card)
    ensures MakeCard(RankName(c.rank), SuitName(c.suit)) == Success(c)
  {
    RankNameNormal(c.rank);
    SuitNameNormal(c.suit);
    CheckTextsAccepts(RankName(c.rank), SuitName(c.suit), c);
  }

  lemma RankLowerAce()
    ensures NormalRank("a") == "A"
  {
    assert Strip("a") == "a" by { assert !IsSpace('a'); }
    assert Upper("a")[0] == UpperChar('a');
  }

  lemma SuitLowerSpades()
    ensures NormalSuit("spades") == "Spades"
  {
    LowerSpades();
    NormalLowerWord("spades");
    CapitalSpades();
  }

  lemma LowerSpades()
    ensures forall i :: 0 <= i < |"spades"| ==> 'a' <= "spades"[i] <= 'z'
  {
  }

  lemma CapitalSpades()
    ensures [UpperChar("spades"[0])] + "spades"[1..] == "Spades"
  {
    assert "spades"[1..] == "pades";
  }

  /** A lower-case word is only capitalised by normalisation. */
  lemma NormalLowerWord(t: string)
    requires |t| > 0
    requires forall i :: 0 <= i < |t| ==> 'a' <= t[i] <= 'z'
    ensures NormalSuit(t) == [UpperChar(t[0])] + t[1..]
  {
    assert !IsSpace(t[0]) && !IsSpace(t[|t| - 1]);
    StripOfTrimmed(t);
    CapitalizeWord(t);
  }

  lemma RankPaddedKing()
    ensures NormalRank("  K  ") == "K"
  {
    StripSurrounded("  ", "K", "  ");
    assert "  " + "K" + "  " == "  K  ";
    UpperUnchanged("K");
  }

  lemma SuitPaddedHearts()
    ensures NormalSuit("  hearts  ") == "Hearts"
  {
    StripPaddedHearts();
    CapitalizeHearts();
  }

  lemma StripPaddedHearts()
    ensures Strip("  hearts  ") == "hearts"
  {
    StripSurrounded("  ", "hearts", "  ");
    assert "  " + "hearts" + "  " == "  hearts  ";
  }

  lemma CapitalizeHearts()
    ensures Capitalize("hearts") == "Hearts"
  {
    CapitalizeWord("hearts");
    assert [UpperChar('h')] + "earts" == "Hearts";
  }

  lemma RankUnknownX()
    ensures NormalRank("X") == "X"
  {
    assert NoSpace("X") by { assert "X"[0] == 'X'; }
    UpperUnchanged("X");
  }

  lemma SuitUnknownStars()
    ensures NormalSuit("Stars") == "Stars"
  {
    assert CapitalWord("Stars");
    NormalSuitOfWord("Stars");
  }

  /** Construction succeeds with card `c` exactly when the normalised
      texts are the texts of `c`. */
  lemma MakeCardAccepts(rank: string, suit: string, c: Card)
    ensures MakeCard(rank, suit) == Success(c) <==>
              NormalRank(rank) == RankName(c.rank) && NormalSuit(suit) == SuitName(c.suit)
  {
    CheckTextsAccepts(NormalRank(rank), NormalSuit(suit), c);
  }

  /** Construction is case-insensitive and ignores surrounding white
      space: "a" of "spades" is the ace of spades, "  K  " of "  hearts  "
      the king of hearts. */
  lemma MakeCardNormalises()
    ensures NormalRank("a") == RankName(14) && NormalSuit("spades") == SuitName(Spades)
    ensures NormalRank("  K  ") == RankName(13) && NormalSuit("  hearts  ") == SuitName(Hearts)
  {
    RankLowerAce();
    SuitLowerSpades();
    RankPaddedKing();
    SuitPaddedHearts();
    ExampleNames();
  }

  lemma ExampleNames()
    ensures RankName(14) == "A" && RankName(13) == "K"
    ensures SuitName(Spades) == "Spades" && SuitName(Hearts) == "Hearts"
  {
  }

  /** An unknown rank text is refused whatever the suit, before the
      suit is looked at. */
  lemma MakeCardRejectsRank(suit: string)
    ensures MakeCard("X", suit) == Failure(InvalidRank("X"))
  {
    RankUnknownX();
    XNotRank();
  }

  lemma XNotRank()
    ensures "X" !in RankNames
  {
    assert RankOfName("X") == None;
  }

  lemma StarsNotSuit()
    ensures "Stars" !in SuitNames
  {
    assert SuitOfName("Stars") == None;
  }

  /** An unknown suit text is refused once the rank is accepted. */
  lemma MakeCardRejectsSuit(rank: string)
    requires NormalRank(rank) in RankNames
    ensures MakeCard(rank, "Stars") == Failure(InvalidSuit("Stars"))
  {
    SuitUnknownStars();
    StarsNotSuit();
  }

  /** `str(card)`: the rank text followed by the upper-cased first letter
      of the suit text, e.g. "AS" or "10H". */
  function CardKey(c: Card): string {
    RankName(c.rank) + [UpperChar(SuitName(c.suit)[0])]
  }

  /** Reads a card back from its display form. */
  function CardOfKey(k: string): Option<Card> {
    if |k| == 0 then None
    else
      var last := k[|k| - 1];
      var suit :=
        if last == 'H' then Some(Hearts) else if last == 'D' then Some(Diamonds)
        else if last == 'C' then Some(Clubs) else if last == 'S' then Some(Spades)
        else None;
      match (RankOfName(k[..|k| - 1]), suit)
      case (Some(r), Some(s)) => Some(Card(r, s))
      case _ => None
  }

  /** The display form loses nothing: it reads back as the same card. */
  lemma CardKeyRoundTrip(c: Card)
    ensures CardOfKey(CardKey(c)) == Some(c)
  {
    var k := CardKey(c);
    assert k[..|k| - 1] == RankName(c.rank);
    RankNameInjective(RankOfName(RankName(c.rank)).value, c.rank);
  }

  /** Two cards with the same display form are the same card. */
  lemma CardKeyInjective(a: Card, b: Card)
    ensures CardKey(a) == CardKey(b) <==> a == b
  {
    CardKeyRoundTrip(a);
    CardKeyRoundTrip(b);
  }

  datatype ModelError =
    | WrongCardCount     // a hand without exactly two cards
    | DuplicateCards     // the same card twice in a hand, a board, or across both
    | TooManyCards       // more than five community cards
    | NegativeChips
    | NegativePot

  /** The player's two hole cards. */
  datatype Hand = Hand(cards: seq<Card>) {
    predicate Valid() {
      |cards| == 2 && cards[0] != cards[1]
    }
  }

  /** `Hand(cards)`: exactly two cards, and not the same card twice. */
  function MakeHand(cards: seq<Card>): (r: Result<Hand, ModelError>)
    ensures r.Success? <==> |cards| == 2 && cards[0] != cards[1]
    ensures r.Success? ==> r.value.cards == cards && r.value.Valid()
    ensures |cards| != 2 ==> r == Failure(WrongCardCount)
    ensures |cards| == 2 && cards[0] == cards[1] ==> r == Failure(DuplicateCards)
  {
    if |cards| != 2 then Failure(WrongCardCount)
    else if HasDuplicate(cards) then Failure(DuplicateCards)
    else Success(Hand(cards))
  }

  /** The shared board cards. */
  datatype Community = Community(cards: seq<Card>) {
    predicate Valid() {
      |cards| <= 5 && Distinct(cards)
    }
  }

  /** `Community(cards)`: at most five cards (checked first), no repeats. */
  function MakeCommunity(cards: seq<Card>): (r: Result<Community, ModelError>)
    ensures r.Success? <==> |cards| <= 5 && Distinct(cards)
    ensures r.Success? ==> r.value.cards == cards && r.value.Valid()
    ensures |cards| > 5 ==> r == Failure(TooManyCards)
    ensures |cards| <= 5 && !Distinct(cards) ==> r == Failure(DuplicateCards)
  {
    if |cards| > 5 then Failure(TooManyCards)
    else if HasDuplicate(cards) then Failure(DuplicateCards)
    else Success(Community(cards))
  }

  /** The betting round a board corresponds to. */
  datatype Stage = PreFlop | Flop | Turn | River

  function StageName(s: Stage): string {
    match s
    case PreFlop => "Pre-Flop"
    case Flop => "Flop"
    case Turn => "Turn"
    case River => "River"
  }

  /** `Community.stage()` on a board of any size: fewer than three cards is
      pre-flop, three the flop, four the turn, five the river, and more than
      five is refused rather than clamped. */
  function StageOf(cards: seq<Card>): (r: Result<Stage, ModelError>)
    ensures r == Success(PreFlop) <==> |cards| < 3
    ensures r == Success(Flop) <==> |cards| == 3
    ensures r == Success(Turn) <==> |cards| == 4
    ensures r == Success(River) <==> |cards| == 5
    ensures r == Failure(TooManyCards) <==> |cards| > 5
  {
    var n := |cards|;
    if n < 3 then Success(PreFlop)
    else if n == 3 then Success(Flop)
    else if n == 4 then Success(Turn)
    else if n == 5 then Success(River)
    else Failure(TooManyCards)
  }

  /** A validated board always has a stage. */
  lemma ValidCommunityHasStage(c: Community)
    requires c.Valid()
    ensures StageOf(c.cards).Success?
  {
  }

  /** Everything the engine receives: hole cards, board, stack and pot. */
  datatype GameState = GameState(hand: Hand, community: Community, chips: int, pot: int) {
    predicate Valid() {
      && hand.Valid() && community.Valid()
      && chips >= 0 && pot >= 0
      && Distinct(hand.cards + community.cards)
    }

    /** Every card already visible to the player. */
    function Known(): seq<Card> {
      hand.cards + community.cards
    }
  }

  /** `PokerGameState(...)`: chips checked first, then the pot, then that no
      card repeats over hole cards and board together. */
  function MakeGameState(hand: Hand, community: Community, chips: int, pot: int): (r: Result<GameState, ModelError>)
    ensures chips < 0 ==> r == Failure(NegativeChips)
    ensures chips >= 0 && pot < 0 ==> r == Failure(NegativePot)
    ensures chips >= 0 && pot >= 0 ==>
              (r.Success? <==> Distinct(hand.cards + community.cards))
    ensures r.Success? ==> r.value == GameState(hand, community, chips, pot)
    ensures r.Success? && hand.Valid() && community.Valid() ==> r.value.Valid()
  {
    if chips < 0 then Failure(NegativeChips)
    else if pot < 0 then Failure(NegativePot)
    else if HasDuplicate(hand.cards + community.cards) then Failure(DuplicateCards)
    else Success(GameState(hand, community, chips, pot))
  }

  /** With a valid hand and a valid board, the only duplicate the state
      check can find is a card shared by the two. */
  lemma CrossDuplicateOnly(hand: Hand, community: Community)
    requires hand.Valid() && community.Valid()
    ensures Distinct(hand.cards + community.cards) <==>
              forall c :: c in hand.cards ==> c !in community.cards
  {
    var all := hand.cards + community.cards;
    if forall c :: c in hand.cards ==> c !in community.cards {
      forall i, j | 0 <= i < j < |all| ensures all[i] != all[j] {
        if j < 2 {
        } else if i >= 2 {
          assert all[i] == community.cards[i - 2] && all[j] == community.cards[j - 2];
        } else {
          assert all[i] in hand.cards && all[j] in community.cards;
        }
      }
    } else {
      var c :| c in hand.cards && c in community.cards;
      var i :| 0 <= i < 2 && hand.cards[i] == c;
      var j :| 0 <= j < |community.cards| && community.cards[j] == c;
      assert all[i] == all[j + 2];
    }
  }

  /** `get_full_deck()`: for each suit in order, the thirteen ranks in order. */
  function FullDeck(): (d: seq<Card>)
    ensures |d| == 52
  {
    seq(52, i requires 0 <= i < 52 => Card(i % 13 + 2, Suits[i / 13]))
  }

  /** Position of each card in the deck. */
  lemma DeckPosition(c: Card, i: int)
    requires 0 <= i < 52
    ensures FullDeck()[i] == c <==> i == 13 * SuitIndex(c.suit) + c.rank - 2
  {
    if FullDeck()[i] == c {
      assert Suits[i / 13] == c.suit;
      assert SuitIndex(c.suit) == i / 13;
    }
  }

  /** The deck holds 52 distinct cards, and every rank-suit pair once. */
  lemma FullDeckIsEveryCardOnce()
    ensures Distinct(FullDeck())
    ensures forall c: Card :: c in FullDeck()
    ensures |Elements(FullDeck())| == 52
  {
    var d := FullDeck();
    forall i, j | 0 <= i < j < 52 ensures d[i] != d[j] {
      DeckPosition(d[i], i);
      DeckPosition(d[i], j);
    }
    forall c: Card ensures c in d {
      DeckPosition(c, 13 * SuitIndex(c.suit) + c.rank - 2);
    }
    ElementsCardinality(d);
  }

  /** The cards of `s` that are not in `used`, in the order of `s`. */
  function Without(s: seq<Card>, used: seq<Card>): (r: seq<Card>)
    ensures forall c :: c in r <==> c in s && c !in used
    ensures SubseqOf(r, s)
    ensures Distinct(s) ==> Distinct(r)
  {
    if |s| == 0 then []
    else if s[0] in used then Without(s[1..], used)
    else
      var rest := Without(s[1..], used);
      assert ([s[0]] + rest)[1..] == rest;
      [s[0]] + rest
  }

  /** `get_remaining_cards(used)`: exactly the deck cards not in `used`,
      each once, in deck order. */
  function RemainingCards(used: seq<Card>): (r: seq<Card>)
    ensures forall c :: c in r <==> c !in used
    ensures SubseqOf(r, FullDeck())
    ensures Distinct(r)
    ensures |r| == 52 - |Elements(used)|
  {
    FullDeckIsEveryCardOnce();
    var r := Without(FullDeck(), used);
    ElementsCardinality(r);
    var all := Elements(FullDeck());
    var u := Elements(used);
    assert Elements(r) == all - u;
    assert u <= all;
    assert all == (all - u) + u;
    r
  }
}
