/** The detector-label parser of `cv/src/card_parser.py`: compact labels
    such as "AS" or "10h", spelled-out labels such as "queen_of_hearts",
    and the reduction of one frame's detections to its most confident
    distinct cards.

    The suit table the source ships maps every alias to a suit symbol,
    which the card constructor refuses; `SuitAliases` keeps that table
    as written and `SuitAliasesIntended` maps the same aliases to the
    suit names the constructor accepts. The parser is written once,
    over either table. */
module CardParser {
  import opened Wrappers
  import opened Text
  import opened Seqs
  import opened Models

  /** An alias table: (alias, canonical text) pairs in the source's order. */
  type Table = seq<(string, string)>

  const RankAliases: Table := [
    ("2", "2"), ("3", "3"), ("4", "4"), ("5", "5"), ("6", "6"), ("7", "7"),
    ("8", "8"), ("9", "9"), ("10", "10"), ("T", "10"), ("J", "J"), ("JACK", "J"),
    ("Q", "Q"), ("QUEEN", "Q"), ("K", "K"), ("KING", "K"), ("A", "A"), ("ACE", "A")
  ]

  const HeartSymbol: string := "\U{2665}"
  const DiamondSymbol: string := "\U{2666}"
  const ClubSymbol: string := "\U{2663}"
  const SpadeSymbol: string := "\U{2660}"

  /** The suit aliases as the source writes them: each maps to a symbol. */
  const SuitAliases: Table := [
    ("H", HeartSymbol), ("HEART", HeartSymbol), ("HEARTS", HeartSymbol),
    ("D", DiamondSymbol), ("DIAMOND", DiamondSymbol), ("DIAMONDS", DiamondSymbol),
    ("C", ClubSymbol), ("CLUB", ClubSymbol), ("CLUBS", ClubSymbol),
    ("S", SpadeSymbol), ("SPADE", SpadeSymbol), ("SPADES", SpadeSymbol)
  ]

  /** The same aliases mapped to the suit names a card accepts. */
  const SuitAliasesIntended: Table := [
    ("H", "Hearts"), ("HEART", "Hearts"), ("HEARTS", "Hearts"),
    ("D", "Diamonds"), ("DIAMOND", "Diamonds"), ("DIAMONDS", "Diamonds"),
    ("C", "Clubs"), ("CLUB", "Clubs"), ("CLUBS", "Clubs"),
    ("S", "Spades"), ("SPADE", "Spades"), ("SPADES", "Spades")
  ]

  /** No alias is listed twice (a Python dict's keys). */
  predicate KeysDistinct(t: Table) {
    forall i, j :: 0 <= i < j < |t| ==> t[i].0 != t[j].0
  }

  /** `table.get(key)`. */
  function Lookup(t: Table, key: string): Option<string> {
    if |t| == 0 then None
    else if t[0].0 == key then Some(t[0].1)
    else Lookup(t[1..], key)
  }

  /** A lookup finds something exactly when some entry has the alias, and
      what it finds is that entry's text. */
  lemma {:induction false} LookupMeaning(t: Table, key: string)
    ensures Lookup(t, key).Some? <==> exists i :: 0 <= i < |t| && t[i].0 == key
    ensures Lookup(t, key).Some? ==> exists i :: 0 <= i < |t| && t[i] == (key, Lookup(t, key).value)
  {
    if |t| > 0 && t[0].0 != key {
      LookupMeaning(t[1..], key);
      assert forall i :: 0 <= i < |t| - 1 ==> t[1..][i] == t[i + 1];
    }
  }

  /** In a table without repeated aliases each alias finds its own entry. */
  lemma {:induction false} LookupFinds(t: Table, i: int)
    requires KeysDistinct(t) && 0 <= i < |t|
    ensures Lookup(t, t[i].0) == Some(t[i].1)
  {
    if i > 0 {
      assert t[0].0 != t[i].0;
      assert t[1..][i - 1] == t[i];
      LookupFinds(t[1..], i - 1);
    }
  }

  lemma AliasTablesDistinct()
    ensures KeysDistinct(RankAliases)
    ensures KeysDistinct(SuitAliases)
    ensures KeysDistinct(SuitAliasesIntended)
  {
    RankAliasesDistinct();
    SuitAliasesDistinct();
    IntendedAliasesDistinct();
  }

  lemma RankAliasesDistinct()
    ensures KeysDistinct(RankAliases)
  {
    var digits: Table := [
      ("2", "2"), ("3", "3"), ("4", "4"), ("5", "5"), ("6", "6"), ("7", "7"),
      ("8", "8"), ("9", "9"), ("10", "10")
    ];
    var faces: Table := [
      ("T", "10"), ("J", "J"), ("JACK", "J"), ("Q", "Q"), ("QUEEN", "Q"),
      ("K", "K"), ("KING", "K"), ("A", "A"), ("ACE", "A")
    ];
    assert KeysDistinct(digits);
    assert KeysDistinct(faces);
    assert forall i, j :: 0 <= i < |digits| && 0 <= j < |faces| ==> digits[i].0 != faces[j].0 by {
      forall i, j | 0 <= i < |digits| && 0 <= j < |faces| ensures digits[i].0 != faces[j].0 {
        assert '0' <= digits[i].0[0] <= '9' && !('0' <= faces[j].0[0] <= '9');
      }
    }
    KeysDistinctAppend(digits, faces);
    assert RankAliases == digits + faces;
  }

  /** Two tables without repeats and without shared keys join into one
      without repeats. */
  lemma KeysDistinctAppend(a: Table, b: Table)
    requires KeysDistinct(a) && KeysDistinct(b)
    requires forall i, j :: 0 <= i < |a| && 0 <= j < |b| ==> a[i].0 != b[j].0
    ensures KeysDistinct(a + b)
  {
    var t := a + b;
    forall i, j | 0 <= i < j < |t| ensures t[i].0 != t[j].0 {
      if j < |a| {
        assert t[i] == a[i] && t[j] == a[j];
      } else if i < |a| {
        assert t[i] == a[i] && t[j] == b[j - |a|];
      } else {
        assert t[i] == b[i - |a|] && t[j] == b[j - |a|];
      }
    }
  }

  lemma SuitAliasesDistinct()
    ensures KeysDistinct(SuitAliases)
  {
  }

  lemma IntendedAliasesDistinct()
    ensures KeysDistinct(SuitAliasesIntended)
  {
  }

  /** Every rank text is its own alias. */
  lemma RankNameIsAlias(r: Rank)
    ensures Lookup(RankAliases, RankName(r)) == Some(RankName(r))
  {
    RankAliasesDistinct();
    var i := if r <= 10 then r - 2 else 2 * r - 12;
    assert RankAliases[i] == (RankName(r), RankName(r));
    LookupFinds(RankAliases, i);
  }

  /** "1" names no rank, so the source's skip of the token "1" never
      changes what the rank search finds. */
  lemma OneIsNoRank()
    ensures Lookup(RankAliases, "1") == None
  {
    assert forall i :: 0 <= i < |RankAliases| ==> RankAliases[i].0 != "1";
    LookupMeaning(RankAliases, "1");
  }

  /** A suit symbol survives normalisation unchanged and is not a suit name. */
  lemma SymbolIsNoSuit(v: string)
    requires v in [HeartSymbol, DiamondSymbol, ClubSymbol, SpadeSymbol]
    ensures NormalSuit(v) == v && v !in SuitNames
  {
    assert |v| == 1 && !IsSpace(v[0]) && !('a' <= v[0] <= 'z') && !('A' <= v[0] <= 'Z');
    assert Strip(v) == v;
    assert Capitalize(v) == [UpperChar(v[0])] + Lower([]);
  }

  /** `_build_card(rank_token, suit_token)` over the suit table `suits`:
      the rank alias (or the upper-cased token itself), the suit alias
      (required), then the validating card constructor with its error
      swallowed. */
  function BuildCard(rankToken: string, suitToken: string, suits: Table): (r: Option<Card>)
    ensures r.Some? ==> Lookup(suits, Upper(suitToken)).Some?
    ensures r.Some? ==>
              var rank := Lookup(RankAliases, Upper(rankToken)).GetOr(Upper(rankToken));
              NormalRank(rank) == RankName(r.value.rank)
              && NormalSuit(Lookup(suits, Upper(suitToken)).value) == SuitName(r.value.suit)
  {
    var rank := Lookup(RankAliases, Upper(rankToken)).GetOr(Upper(rankToken));
    var suit := Lookup(suits, Upper(suitToken));
    if suit.None? || suit.value == "" then None
    else MakeCard(rank, suit.value).ToOption()
  }

  /** With the source's suit table no card is ever built: every suit
      alias is a symbol and the constructor refuses it. */
  lemma BuildCardAsWrittenFails(rankToken: string, suitToken: string)
    ensures BuildCard(rankToken, suitToken, SuitAliases) == None
  {
    var suit := Lookup(SuitAliases, Upper(suitToken));
    LookupMeaning(SuitAliases, Upper(suitToken));
    if suit.Some? {
      var i :| 0 <= i < |SuitAliases| && SuitAliases[i] == (Upper(suitToken), suit.value);
      assert suit.value in [HeartSymbol, DiamondSymbol, ClubSymbol, SpadeSymbol];
      SymbolIsNoSuit(suit.value);
    }
  }

  /** An ASCII letter or digit (what `[0-9A-Za-z]` matches). */
  predicate Alnum(c: char) {
    '0' <= c <= '9' || 'A' <= c <= 'Z' || 'a' <= c <= 'z'
  }

  /** `re.sub(r"[^0-9A-Za-z]", "", s)`: the letters and digits of `s`, in order. */
  function AlnumOnly(s: string): (r: string)
    ensures forall i :: 0 <= i < |r| ==> Alnum(r[i])
    ensures SubseqOf(r, s)
    ensures (forall i :: 0 <= i < |s| ==> Alnum(s[i])) ==> r == s
  {
    if |s| == 0 then []
    else
      var rest := AlnumOnly(s[1..]);
      assert forall i :: 0 <= i < |s| - 1 ==> s[1..][i] == s[i + 1];
      if Alnum(s[0]) then
        assert ([s[0]] + rest)[1..] == rest;
        [s[0]] + rest
      else rest
  }

  /** The rank tokens of the compact pattern `(10|[2-9]|[TJQKA])`. */
  const CompactRanks: seq<string> := ["10", "2", "3", "4", "5", "6", "7", "8", "9", "T", "J", "Q", "K", "A"]

  /** The suit tokens of the compact pattern `([CDHS])`. */
  const CompactSuits: seq<string> := ["C", "D", "H", "S"]

  /** `re.fullmatch(r"(10|[2-9]|[TJQKA])([CDHS])", c)` and its two groups. */
  function CompactMatch(c: string): (r: Option<(string, string)>)
    ensures r.Some? ==> r.value.0 in CompactRanks && r.value.1 in CompactSuits
    ensures r.Some? ==> c == r.value.0 + r.value.1
  {
    if |c| == 3 && c[0] == '1' && c[1] == '0' && [c[2]] in CompactSuits then
      assert c == "10" + [c[2]];
      Some(("10", [c[2]]))
    else if |c| == 2 && [c[0]] in CompactRanks && [c[1]] in CompactSuits then
      assert c == [c[0]] + [c[1]];
      Some(([c[0]], [c[1]]))
    else None
  }

  /** Every rank token followed by every suit token is a full match with
      exactly those two groups, so the pattern accepts nothing else. */
  lemma CompactMatchSplits(rank: string, suit: string)
    requires rank in CompactRanks && suit in CompactSuits
    ensures CompactMatch(rank + suit) == Some((rank, suit))
  {
    var c := rank + suit;
    if rank == "10" {
      assert c[0] == '1' && c[1] == '0' && [c[2]] == suit;
    } else {
      assert |rank| == 1 && |suit| == 1;
      assert [c[0]] == rank && [c[1]] == suit;
    }
  }

  /** `_parse_compact_form(text)`: strip every character but letters and
      digits, upper-case, then build from the two groups of a full match. */
  function CompactForm(text: string, suits: Table): (r: Option<Card>)
    ensures r.Some? ==> exists rt, st :: BuildCard(rt, st, suits) == r
    ensures r.Some? ==> CompactMatch(Upper(AlnumOnly(text))).Some?
  {
    var compact := Upper(AlnumOnly(text));
    if compact == "" then None
    else
      match CompactMatch(compact)
      case None => None
      case Some((rt, st)) => BuildCard(rt, st, suits)
  }

  /** A separator of `[\s_/-]`. */
  predicate Sep(c: char) {
    IsSpace(c) || c == '_' || c == '/' || c == '-'
  }

  predicate NoSep(w: string) {
    forall i :: 0 <= i < |w| ==> !Sep(w[i])
  }

  /** Length of the separator-free run at the front of `s`. */
  function WordLen(s: string): (n: nat)
    ensures n <= |s|
    ensures forall k :: 0 <= k < n ==> !Sep(s[k])
    ensures n < |s| ==> Sep(s[n])
  {
    if |s| == 0 || Sep(s[0]) then 0
    else
      assert forall k :: 0 <= k < |s| - 1 ==> s[1..][k] == s[k + 1];
      1 + WordLen(s[1..])
  }

  /** `re.split(r"[\s_/-]+", s)` with the empty pieces dropped: the
      maximal separator-free runs of `s`, in order. */
  function Words(s: string): seq<string>
    decreases |s|
  {
    if |s| == 0 then []
    else if Sep(s[0]) then Words(s[1..])
    else
      var n := WordLen(s);
      [s[..n]] + Words(s[n..])
  }

  lemma {:induction false} WordLenOf(w: string, rest: string)
    requires NoSep(w)
    requires |rest| == 0 || Sep(rest[0])
    ensures WordLen(w + rest) == |w|
  {
    if |w| > 0 {
      assert (w + rest)[1..] == w[1..] + rest;
      WordLenOf(w[1..], rest);
    } else {
      assert w + rest == rest;
    }
  }

  /** A word followed by a separator (or nothing) is split off whole. */
  lemma WordsSplit(w: string, rest: string)
    requires |w| > 0 && NoSep(w)
    requires |rest| == 0 || Sep(rest[0])
    ensures Words(w + rest) == [w] + Words(rest)
  {
    WordLenOf(w, rest);
    assert (w + rest)[..|w|] == w;
    assert (w + rest)[|w|..] == rest;
  }

  /** Separators in front of a text add no word. */
  lemma {:induction false} WordsSkip(seps: string, s: string)
    requires forall i :: 0 <= i < |seps| ==> Sep(seps[i])
    ensures Words(seps + s) == Words(s)
  {
    if |seps| > 0 {
      assert (seps + s)[1..] == seps[1..] + s;
      WordsSkip(seps[1..], s);
    } else {
      assert seps + s == s;
    }
  }

  /** The words that are not "of" or "the", in order. */
  function Content(ws: seq<string>): seq<string> {
    if |ws| == 0 then []
    else if ws[0] == "of" || ws[0] == "the" then Content(ws[1..])
    else [ws[0]] + Content(ws[1..])
  }

  /** The tokens the source searches: the lower-cased text split on
      separators, with the filler words "of" and "the" removed. */
  function Tokens(text: string): seq<string> {
    Content(Words(Lower(text)))
  }

  /** Every word is a non-empty run without separators. */
  lemma {:induction false} WordsAreRuns(s: string)
    ensures forall w | w in Words(s) :: |w| > 0 && NoSep(w)
    decreases |s|
  {
    if |s| > 0 {
      if Sep(s[0]) {
        WordsAreRuns(s[1..]);
      } else {
        var n := WordLen(s);
        WordsAreRuns(s[n..]);
      }
    }
  }

  /** The filler filter keeps exactly the words that are not "of" or "the". */
  lemma {:induction false} ContentMeaning(ws: seq<string>)
    ensures forall w | w in Content(ws) :: w in ws && w != "of" && w != "the"
    ensures forall w | w in ws && w != "of" && w != "the" :: w in Content(ws)
  {
    if |ws| > 0 {
      ContentMeaning(ws[1..]);
      assert forall w | w in ws[1..] :: w in ws;
      assert forall w | w in ws :: w == ws[0] || w in ws[1..];
    }
  }

  /** Tokens are non-empty, separator-free and never filler. */
  lemma TokensMeaning(text: string)
    ensures forall w | w in Tokens(text) :: |w| > 0 && NoSep(w) && w != "of" && w != "the"
  {
    WordsAreRuns(Lower(text));
    ContentMeaning(Words(Lower(text)));
  }

  /** The alias of the first token (upper-cased) that `t` lists:
      `_find_suit` for the suit table. */
  function FindIn(t: Table, tokens: seq<string>): Option<string> {
    if |tokens| == 0 then None
    else if Lookup(t, Upper(tokens[0])).Some? then Lookup(t, Upper(tokens[0]))
    else FindIn(t, tokens[1..])
  }

  /** The search finds something exactly when some token is an alias, and
      then it finds the alias of the first such token. */
  lemma {:induction false} FindInMeaning(t: Table, tokens: seq<string>)
    ensures FindIn(t, tokens).Some? <==> exists i :: 0 <= i < |tokens| && Lookup(t, Upper(tokens[i])).Some?
    ensures FindIn(t, tokens).Some? ==>
              exists i :: 0 <= i < |tokens| && Lookup(t, Upper(tokens[i])) == FindIn(t, tokens)
                && forall j :: 0 <= j < i ==> Lookup(t, Upper(tokens[j])).None?
  {
    if |tokens| > 0 && Lookup(t, Upper(tokens[0])).None? {
      FindInMeaning(t, tokens[1..]);
      assert forall i :: 0 <= i < |tokens| - 1 ==> tokens[1..][i] == tokens[i + 1];
      if FindIn(t, tokens).Some? {
        var i :| 0 <= i < |tokens| - 1 && Lookup(t, Upper(tokens[1..][i])) == FindIn(t, tokens)
                 && forall j :: 0 <= j < i ==> Lookup(t, Upper(tokens[1..][j])).None?;
        assert Lookup(t, Upper(tokens[i + 1])) == FindIn(t, tokens);
      }
    }
  }

  /** `_find_rank(tokens)`: like the suit search over the rank table, but
      skipping a token that is the digit string "1". */
  function FindRank(tokens: seq<string>): Option<string> {
    if |tokens| == 0 then None
    else
      var candidate := Upper(tokens[0]);
      if candidate == "1" then FindRank(tokens[1..])
      else if Lookup(RankAliases, candidate).Some? then Lookup(RankAliases, candidate)
      else FindRank(tokens[1..])
  }

  /** The skip of "1" is dead: the rank search is the plain first-alias
      search over the rank table. */
  lemma {:induction false} FindRankIsFirstAlias(tokens: seq<string>)
    ensures FindRank(tokens) == FindIn(RankAliases, tokens)
  {
    if |tokens| > 0 {
      FindRankIsFirstAlias(tokens[1..]);
      OneIsNoRank();
    }
  }

  /** `parse_card_label(text)` over the suit table `suits`: nothing for an
      empty label; otherwise the compact form of the stripped label if it
      gives a card, else the first rank alias and first suit alias among
      its tokens. */
  function Parse(text: string, suits: Table): (r: Option<Card>)
    ensures text == "" ==> r == None
    ensures r.Some? ==> exists rt, st :: BuildCard(rt, st, suits) == r
  {
    if text == "" then None
    else
      var clean := Strip(text);
      var compact := CompactForm(clean, suits);
      if compact.Some? then compact
      else
        var tokens := Tokens(clean);
        if |tokens| == 0 then None
        else
          var rank := FindRank(tokens);
          var suit := FindIn(suits, tokens);
          if rank.Some? && rank.value != "" && suit.Some? && suit.value != "" then
            BuildCard(rank.value, suit.value, suits)
          else None
  }

  /** `parse_card_label` as written: with the symbol suit table it never
      produces a card, whatever the text. */
  function ParseCardLabel(text: string): (r: Option<Card>)
    ensures r == None
  {
    var r := Parse(text, SuitAliases);
    if r.Some? then
      var rt, st :| BuildCard(rt, st, SuitAliases) == r;
      BuildCardAsWrittenFails(rt, st);
      r
    else r
  }

  /** `parse_card_label` with the suit aliases mapped to suit names. */
  function ParseIntended(text: string): (r: Option<Card>)
    ensures text == "" ==> r == None
    ensures r.Some? ==> exists rt, st :: BuildCard(rt, st, SuitAliasesIntended) == r
  {
    Parse(text, SuitAliasesIntended)
  }

  /** The compact tokens of a card: its rank text and the first letter of
      its suit name. */
  lemma CardKeyTokens(c: Card)
    ensures RankName(c.rank) in CompactRanks
    ensures [UpperChar(SuitName(c.suit)[0])] in CompactSuits
    ensures Lookup(SuitAliasesIntended, [UpperChar(SuitName(c.suit)[0])]) == Some(SuitName(c.suit))
  {
    IntendedAliasesDistinct();
    match c.suit
    case Hearts => LookupFinds(SuitAliasesIntended, 0);
    case Diamonds => LookupFinds(SuitAliasesIntended, 3);
    case Clubs => LookupFinds(SuitAliasesIntended, 6);
    case Spades => LookupFinds(SuitAliasesIntended, 9);
  }

  /** A card's display form holds digits and capital letters only. */
  lemma CardKeyChars(c: Card)
    ensures |CardKey(c)| > 0
    ensures forall i :: 0 <= i < |CardKey(c)| ==> '0' <= CardKey(c)[i] <= '9' || 'A' <= CardKey(c)[i] <= 'Z'
  {
    assert forall i :: 0 <= i < 13 ==> UpperAlnum(RankNames[i]);
    assert UpperAlnum(RankName(c.rank));
    assert 'A' <= SuitName(c.suit)[0] <= 'Z';
  }

  /** A card's display form is stripped, all letters and digits, and
      already upper-case. */
  lemma CardKeyIsCompact(c: Card)
    ensures Strip(CardKey(c)) == CardKey(c)
    ensures Upper(AlnumOnly(CardKey(c))) == CardKey(c)
  {
    var k := CardKey(c);
    CardKeyChars(c);
    assert NoSpace(k);
    assert AlnumOnly(k) == k;
    UpperUnchanged(k);
  }

  /** With the suit names in the table, a card's display form ("AS", "10H")
      parses back to the card. */
  lemma ParseIntendedRoundTrip(c: Card)
    ensures ParseIntended(CardKey(c)) == Some(c)
  {
    CardKeyIsCompact(c);
    ParseIntendedCompact(c, CardKey(c));
  }

  /** The lower-case display form ("ah", "10d") parses to the card too. */
  lemma ParseIntendedLowerKey(c: Card)
    ensures ParseIntended(Lower(CardKey(c))) == Some(c)
  {
    var k := CardKey(c);
    CardKeyChars(c);
    assert forall i :: 0 <= i < |k| ==> Alnum(Lower(k)[i]);
    UpperOfLower(k);
    UpperUnchanged(k);
    ParseIntendedCompact(c, Lower(k));
  }

  /** The compact path in general: every label whose letters and digits,
      upper-cased, spell a card's display form ("ah", "10d", "a-h",
      " Qs ") parses to that card. */
  lemma ParseIntendedCompact(c: Card, text: string)
    requires Upper(AlnumOnly(text)) == CardKey(c)
    ensures ParseIntended(text) == Some(c)
  {
    CardKeyChars(c);
    assert |AlnumOnly(text)| > 0;
    AlnumOnlyStrip(text);
    CardKeyIsCompact(c);
    CompactOfKey(c);
    SameCompact(Strip(text), CardKey(c), SuitAliasesIntended);
  }

  /** The compact form only looks at the upper-cased letters and digits. */
  lemma SameCompact(a: string, b: string, suits: Table)
    requires Upper(AlnumOnly(a)) == Upper(AlnumOnly(b))
    ensures CompactForm(a, suits) == CompactForm(b, suits)
  {
  }

  /** White space is neither a letter nor a digit. */
  lemma SpaceNotAlnum(c: char)
    ensures IsSpace(c) ==> !Alnum(c)
  {
  }

  /** A text of neither letters nor digits leaves nothing behind. */
  lemma {:induction false} AlnumOnlyNone(s: string)
    requires forall i :: 0 <= i < |s| ==> !Alnum(s[i])
    ensures AlnumOnly(s) == []
  {
    if |s| > 0 {
      assert forall i :: 0 <= i < |s| - 1 ==> s[1..][i] == s[i + 1];
      AlnumOnlyNone(s[1..]);
    }
  }

  /** Stripping keeps every letter and digit of a text. */
  lemma AlnumOnlyStrip(s: string)
    ensures AlnumOnly(Strip(s)) == AlnumOnly(s)
  {
    var a, b := StripSplit(s);
    forall i | 0 <= i < |a| ensures !Alnum(a[i]) {
      SpaceNotAlnum(a[i]);
    }
    forall i | 0 <= i < |b| ensures !Alnum(b[i]) {
      SpaceNotAlnum(b[i]);
    }
    AlnumOnlyNone(a);
    AlnumOnlyNone(b);
    AlnumOnlyAppend(a, Strip(s));
    AlnumOnlyAppend(a + Strip(s), b);
  }

  /** The compact form of a card's display form is the card. */
  lemma CompactOfKey(c: Card)
    ensures CompactForm(CardKey(c), SuitAliasesIntended) == Some(c)
  {
    var k := CardKey(c);
    var rt := RankName(c.rank);
    var st := [UpperChar(SuitName(c.suit)[0])];
    CardKeyIsCompact(c);
    CardKeyTokens(c);
    CompactMatchSplits(rt, st);
    assert k == rt + st;
    BuildFromKeyTokens(c);
  }

  /** The two compact tokens of a card build the card back. */
  lemma BuildFromKeyTokens(c: Card)
    ensures BuildCard(RankName(c.rank), [UpperChar(SuitName(c.suit)[0])], SuitAliasesIntended) == Some(c)
  {
    var rt := RankName(c.rank);
    var st := [UpperChar(SuitName(c.suit)[0])];
    KeyTokensUpper(c);
    CardKeyTokens(c);
    RankNameIsAlias(c.rank);
    MakeCardFromNames(c);
    BuildCardOf(rt, st, SuitAliasesIntended, rt, SuitName(c.suit), c);
  }

  lemma KeyTokensUpper(c: Card)
    ensures Upper(RankName(c.rank)) == RankName(c.rank)
    ensures Upper([UpperChar(SuitName(c.suit)[0])]) == [UpperChar(SuitName(c.suit)[0])]
  {
    RankNameUpperAlnum(c.rank);
    UpperAlnumUpper(RankName(c.rank));
    var letter := [UpperChar(SuitName(c.suit)[0])];
    UpperUnchanged(letter);
  }

  /** `_build_card` yields the card the constructor makes from the looked-up texts. */
  lemma BuildCardOf(rt: string, st: string, suits: Table, rank: string, suit: string, c: Card)
    requires Lookup(RankAliases, Upper(rt)).GetOr(Upper(rt)) == rank
    requires Lookup(suits, Upper(st)) == Some(suit) && suit != ""
    requires MakeCard(rank, suit) == Success(c)
    ensures BuildCard(rt, st, suits) == Some(c)
  {
  }

  /** "AH", the display form of the ace of hearts, is lost by the parser as
      written and recovered with the suit names in the table. */
  lemma AceOfHeartsLost()
    ensures ParseCardLabel("AH") == None
    ensures ParseIntended("AH") == Some(Card(14, Hearts))
  {
    var c := Card(14, Hearts);
    assert CardKey(c) == "AH";
    ParseIntendedRoundTrip(c);
  }

  /** A word of ASCII letters and digits, in any case. */
  predicate AlnumWord(w: string) {
    |w| > 0 && forall i :: 0 <= i < |w| ==> Alnum(w[i])
  }

  /** A non-empty run of separators. */
  predicate SepRun(s: string) {
    |s| > 0 && forall i :: 0 <= i < |s| ==> Sep(s[i])
  }

  /** A spelled-out label: rank word, separators, filler word, separators,
      suit word ("queen of hearts", "Queen_Of_Hearts", "ace - of / spades"). */
  function Spelled(rw: string, s1: string, ow: string, s2: string, sw: string): string {
    rw + (s1 + (ow + (s2 + sw)))
  }

  lemma {:induction false} AlnumOnlyAppend(a: string, b: string)
    ensures AlnumOnly(a + b) == AlnumOnly(a) + AlnumOnly(b)
  {
    if |a| > 0 {
      assert (a + b)[0] == a[0] && (a + b)[1..] == a[1..] + b;
      AlnumOnlyAppend(a[1..], b);
    } else {
      assert a + b == b;
    }
  }

  /** A separator is neither a letter nor a digit. */
  lemma SepNotAlnum(c: char)
    ensures Sep(c) ==> !Alnum(c)
  {
    SpaceNotAlnum(c);
  }

  /** A word lower-cased is still a word, and without separators. */
  lemma LowerWordOf(w: string)
    requires AlnumWord(w)
    ensures AlnumWord(Lower(w)) && NoSep(Lower(w))
  {
    forall i | 0 <= i < |w| ensures Alnum(Lower(w)[i]) && !Sep(Lower(w)[i]) {
      SepNotAlnum(Lower(w)[i]);
    }
  }

  /** A separator run holds no capital letter and no letter or digit. */
  lemma SepRunChars(s: string)
    requires SepRun(s)
    ensures forall i :: 0 <= i < |s| ==> !('A' <= s[i] <= 'Z') && !Alnum(s[i])
  {
    forall i | 0 <= i < |s| ensures !Alnum(s[i]) {
      SepNotAlnum(s[i]);
    }
  }

  /** A word followed by a separator run and more text is split off whole,
      and the separators add no word. */
  lemma WordThenSeps(w: string, seps: string, rest: string)
    requires |w| > 0 && NoSep(w) && SepRun(seps)
    ensures Words(w + (seps + rest)) == [w] + Words(rest)
  {
    WordsSplit(w, seps + rest);
    WordsSkip(seps, rest);
  }

  lemma LastWord(w: string)
    requires |w| > 0 && NoSep(w)
    ensures Words(w) == [w]
  {
    WordsSplit(w, []);
    assert w + [] == w;
  }

  /** The ends of a spelled-out label are the ends of its two words. */
  lemma SpelledEnds(rw: string, s1: string, ow: string, s2: string, sw: string)
    requires |rw| > 0 && |sw| > 0
    ensures var t := Spelled(rw, s1, ow, s2, sw);
            |t| > 0 && t[0] == rw[0] && t[|t| - 1] == sw[|sw| - 1]
  {
    var z := s2 + sw;
    assert z[|z| - 1] == sw[|sw| - 1];
    var y := ow + z;
    assert y[|y| - 1] == z[|z| - 1];
    var x := s1 + y;
    assert x[|x| - 1] == y[|y| - 1];
  }

  lemma SpelledStripped(rw: string, s1: string, ow: string, s2: string, sw: string)
    requires AlnumWord(rw) && AlnumWord(sw)
    ensures Strip(Spelled(rw, s1, ow, s2, sw)) == Spelled(rw, s1, ow, s2, sw)
  {
    SpelledEnds(rw, s1, ow, s2, sw);
    SpaceNotAlnum(rw[0]);
    SpaceNotAlnum(sw[|sw| - 1]);
    StripOfTrimmed(Spelled(rw, s1, ow, s2, sw));
  }

  /** The filler word is two letters. */
  lemma OfLetters(ow: string)
    requires Lower(ow) == "of"
    ensures AlnumOnly(ow) == ow
  {
    assert |ow| == 2;
    assert LowerChar(ow[0]) == 'o' && LowerChar(ow[1]) == 'f';
    assert Alnum(ow[0]) && Alnum(ow[1]);
  }

  /** The letters and digits of a spelled-out label are too many for a
      compact form. */
  lemma SpelledNotCompact(rw: string, s1: string, ow: string, s2: string, sw: string, suits: Table)
    requires AlnumWord(rw) && AlnumWord(sw) && SepRun(s1) && SepRun(s2) && Lower(ow) == "of"
    ensures CompactForm(Spelled(rw, s1, ow, s2, sw), suits) == None
  {
    SpelledLetters(rw, s1, ow, s2, sw);
    OfLetters(ow);
    LongNotCompact(Spelled(rw, s1, ow, s2, sw), suits);
  }

  /** A spelled-out label keeps the letters and digits of its three words. */
  lemma SpelledLetters(rw: string, s1: string, ow: string, s2: string, sw: string)
    requires SepRun(s1) && SepRun(s2)
    ensures AlnumOnly(Spelled(rw, s1, ow, s2, sw)) == AlnumOnly(rw) + (AlnumOnly(ow) + AlnumOnly(sw))
  {
    var z := s2 + sw;
    SkipNonAlnum(s2, sw);
    var y := ow + z;
    AlnumOnlyAppend(ow, z);
    SkipNonAlnum(s1, y);
    AlnumOnlyAppend(rw, s1 + y);
  }

  /** Separators in front of a text add no letter or digit. */
  lemma SkipNonAlnum(seps: string, t: string)
    requires SepRun(seps)
    ensures AlnumOnly(seps + t) == AlnumOnly(t)
  {
    SepRunChars(seps);
    AlnumOnlyNone(seps);
    AlnumOnlyAppend(seps, t);
  }

  /** More than three letters and digits never make a compact form. */
  lemma LongNotCompact(t: string, suits: Table)
    requires |AlnumOnly(t)| > 3
    ensures CompactForm(t, suits) == None
  {
    assert |Upper(AlnumOnly(t))| > 3;
  }

  /** A spelled-out label lower-cases word by word. */
  lemma SpelledLower(rw: string, s1: string, ow: string, s2: string, sw: string)
    requires SepRun(s1) && SepRun(s2) && Lower(ow) == "of"
    ensures Lower(Spelled(rw, s1, ow, s2, sw)) == Spelled(Lower(rw), s1, "of", s2, Lower(sw))
  {
    SepRunChars(s1);
    SepRunChars(s2);
    LowerUnchanged(s1);
    LowerUnchanged(s2);
    LowerAppend(s2, sw);
    LowerAppend(ow, s2 + sw);
    LowerAppend(s1, ow + (s2 + sw));
    LowerAppend(rw, s1 + (ow + (s2 + sw)));
  }

  /** A spelled-out label's words are its rank word, "of" and its suit word. */
  lemma SpelledWords(rw: string, s1: string, s2: string, sw: string)
    requires |rw| > 0 && NoSep(rw) && |sw| > 0 && NoSep(sw) && SepRun(s1) && SepRun(s2)
    ensures Words(Spelled(rw, s1, "of", s2, sw)) == [rw, "of", sw]
  {
    assert NoSep("of");
    WordThenSeps(rw, s1, "of" + (s2 + sw));
    WordThenSeps("of", s2, sw);
    LastWord(sw);
  }

  lemma SpelledTokens(rw: string, s1: string, ow: string, s2: string, sw: string)
    requires AlnumWord(rw) && AlnumWord(sw) && SepRun(s1) && SepRun(s2) && Lower(ow) == "of"
    requires Lower(rw) != "of" && Lower(rw) != "the" && Lower(sw) != "of" && Lower(sw) != "the"
    ensures Tokens(Spelled(rw, s1, ow, s2, sw)) == [Lower(rw), Lower(sw)]
  {
    SpelledLower(rw, s1, ow, s2, sw);
    LowerWordOf(rw);
    LowerWordOf(sw);
    SpelledWords(Lower(rw), s1, s2, Lower(sw));
    FillerDropped(Lower(rw), Lower(sw));
  }

  lemma FillerDropped(a: string, b: string)
    requires a != "of" && a != "the" && b != "of" && b != "the"
    ensures Content([a, "of", b]) == [a, b]
  {
    var ws := [a, "of", b];
    assert ws[1..] == ["of", b] && ws[1..][1..] == [b] && [b][1..] == [];
    assert Content([b]) == [b];
    assert Content(["of", b]) == [b];
  }

  /** The searches over two tokens: the rank from the first, the suit
      from the second when the first names no suit. */
  lemma TwoTokenSearch(rw: string, sw: string, suits: Table, rank: string, suit: string)
    requires Lookup(RankAliases, Upper(rw)) == Some(rank)
    requires Lookup(suits, Upper(rw)) == None
    requires Lookup(suits, Upper(sw)) == Some(suit)
    ensures FindRank([rw, sw]) == Some(rank)
    ensures FindIn(suits, [rw, sw]) == Some(suit)
  {
    OneIsNoRank();
    assert [rw, sw][1..] == [sw];
    assert [sw][1..] == [];
  }

  /** The spelled-out path: a rank word and a suit word in any letter case,
      joined by "of" (in any case) between separator runs, parse as the
      rank word's alias and the suit word's alias built into a card. */
  lemma SpelledOutLabel(rw: string, s1: string, ow: string, s2: string, sw: string,
                        suits: Table, rank: string, suit: string)
    requires AlnumWord(rw) && AlnumWord(sw) && SepRun(s1) && SepRun(s2) && Lower(ow) == "of"
    requires Lower(rw) != "of" && Lower(rw) != "the" && Lower(sw) != "of" && Lower(sw) != "the"
    requires Lookup(RankAliases, Upper(rw)) == Some(rank) && rank != ""
    requires Lookup(suits, Upper(rw)) == None
    requires Lookup(suits, Upper(sw)) == Some(suit) && suit != ""
    ensures Parse(Spelled(rw, s1, ow, s2, sw), suits) == BuildCard(rank, suit, suits)
  {
    SpelledStripped(rw, s1, ow, s2, sw);
    SpelledNotCompact(rw, s1, ow, s2, sw, suits);
    SpelledTokens(rw, s1, ow, s2, sw);
    UpperOfLower(rw);
    UpperOfLower(sw);
    TwoTokenSearch(Lower(rw), Lower(sw), suits, rank, suit);
  }

  lemma QueenHeartsAreWords()
    ensures AlnumWord("queen") && AlnumWord("hearts")
  {
    var q, h := "queen", "hearts";
    assert q[0] == 'q' && q[1] == 'u' && q[2] == 'e' && q[3] == 'e' && q[4] == 'n';
    assert h[0] == 'h' && h[1] == 'e' && h[2] == 'a' && h[3] == 'r' && h[4] == 't' && h[5] == 's';
  }

  lemma QueenUpper()
    ensures Upper("queen") == "QUEEN"
  {
  }

  lemma HeartsUpper()
    ensures Upper("hearts") == "HEARTS"
  {
  }

  lemma QueenIsRankAlias()
    ensures Lookup(RankAliases, "QUEEN") == Some("Q")
  {
    RankAliasesDistinct();
    LookupFinds(RankAliases, 13);
  }

  lemma QueenIsNoSuitAlias()
    ensures Lookup(SuitAliasesIntended, "QUEEN") == None
  {
    assert forall i :: 0 <= i < |SuitAliasesIntended| ==> SuitAliasesIntended[i].0 != "QUEEN";
    LookupMeaning(SuitAliasesIntended, "QUEEN");
  }

  lemma HeartsIsSuitAlias()
    ensures Lookup(SuitAliasesIntended, "HEARTS") == Some("Hearts")
  {
    IntendedAliasesDistinct();
    LookupFinds(SuitAliasesIntended, 2);
  }

  lemma QueenHeartsNamesUpper()
    ensures Upper("Q") == "Q" && Upper("Hearts") == "HEARTS"
  {
  }

  lemma QueenOfHeartsBuilt()
    ensures BuildCard("Q", "Hearts", SuitAliasesIntended) == Some(Card(12, Hearts))
  {
    var c := Card(12, Hearts);
    QueenHeartsNamesUpper();
    RankNameIsAlias(12);
    HeartsIsSuitAlias();
    assert RankName(12) == "Q" && SuitName(Hearts) == "Hearts";
    MakeCardFromNames(c);
    BuildCardOf("Q", "Hearts", SuitAliasesIntended, "Q", "Hearts", c);
  }

  lemma QueenOfHeartsPath()
    ensures Parse(Spelled("queen", " ", "of", " ", "hearts"), SuitAliasesIntended)
            == BuildCard("Q", "Hearts", SuitAliasesIntended)
  {
    QueenUpper();
    HeartsUpper();
    QueenIsRankAlias();
    QueenIsNoSuitAlias();
    HeartsIsSuitAlias();
    QueenHeartsAreWords();
    QueenHeartsNoFiller();
    OneSpaceRun();
    OfIsLower();
    SpelledOutLabel("queen", " ", "of", " ", "hearts", SuitAliasesIntended, "Q", "Hearts");
  }

  lemma QueenHeartsNoFiller()
    ensures Lower("queen") != "of" && Lower("queen") != "the"
    ensures Lower("hearts") != "of" && Lower("hearts") != "the"
  {
    assert |Lower("queen")| == 5 && |Lower("hearts")| == 6;
  }

  lemma OfIsLower()
    ensures Lower("of") == "of"
  {
    LowerUnchanged("of");
  }

  lemma OneSpaceRun()
    ensures SepRun(" ")
  {
    assert " "[0] == ' ';
  }

  /** "queen of hearts" is the queen of hearts once the suit table holds
      suit names, and nothing as written. */
  lemma QueenOfHeartsParsed()
    ensures ParseIntended("queen of hearts") == Some(Card(12, Hearts))
    ensures ParseCardLabel("queen of hearts") == None
  {
    assert Spelled("queen", " ", "of", " ", "hearts") == "queen of hearts";
    QueenOfHeartsPath();
    QueenOfHeartsBuilt();
  }

  /** One entry of a detector's output: a mapping with an optional class
      label and an optional confidence, or something that is not a mapping. */
  datatype Detection = Detection(cls: Option<string>, confidence: Option<real>) | NotAMapping

  /** The confidence the source reads, 0.0 when absent. */
  function Confidence(d: Detection): real {
    if d.Detection? then d.confidence.GetOr(0.0) else 0.0
  }

  /** The card a detection names under `parse`, if any: entries that are
      not mappings or have a missing or empty class are skipped. */
  function Parsed(parse: string -> Option<Card>, d: Detection): Option<Card> {
    if d.Detection? && d.cls.Some? && d.cls.value != "" then parse(d.cls.value) else None
  }

  /** The running table of best detections: the cards in first-seen order
      (a Python dict's insertion order) and each card's kept confidence.
      Cards stand for their keys, as `CardKeyInjective` shows the display
      form identifies the card. */
  datatype Best = Best(order: seq<Card>, conf: map<Card, real>)

  predicate WellFormed(b: Best) {
    Distinct(b.order) && (forall c | c in b.order :: c in b.conf) && (forall c | c in b.conf :: c in b.order)
  }

  /** One loop step: a new card is appended; a known card takes the new
      confidence only when it is strictly higher. */
  function Record(b: Best, c: Card, x: real): (r: Best)
    requires WellFormed(b)
    ensures WellFormed(r)
    ensures r.conf.Keys == b.conf.Keys + {c}
    ensures r.conf[c] >= x
    ensures c !in b.conf ==> r.conf[c] == x
    ensures c in b.conf ==> r.conf[c] == (if x > b.conf[c] then x else b.conf[c])
    ensures forall d | d in b.conf && d != c :: r.conf[d] == b.conf[d]
    ensures c in b.conf ==> r.order == b.order
    ensures c !in b.conf ==> r.order == b.order + [c]
  {
    if c in b.conf then
      if x > b.conf[c] then Best(b.order, b.conf[c := x]) else b
    else Best(b.order + [c], b.conf[c := x])
  }

  /** The table after the loop over `dets`. */
  function Collect(parse: string -> Option<Card>, dets: seq<Detection>): (r: Best)
    ensures WellFormed(r)
  {
    if |dets| == 0 then Best([], map[])
    else
      var b := Collect(parse, dets[..|dets| - 1]);
      match Parsed(parse, dets[|dets| - 1])
      case None => b
      case Some(c) => Record(b, c, Confidence(dets[|dets| - 1]))
  }

  /** Some detection names `a` before any detection names `b`. */
  predicate SeenBefore(parse: string -> Option<Card>, dets: seq<Detection>, a: Card, b: Card) {
    exists i :: 0 <= i < |dets| && Parsed(parse, dets[i]) == Some(a)
                && forall j :: 0 <= j <= i ==> Parsed(parse, dets[j]) != Some(b)
  }

  /** Every card of `order` is detected before each card listed after it. */
  predicate FirstSeenOrder(parse: string -> Option<Card>, dets: seq<Detection>, order: seq<Card>) {
    forall k, m :: 0 <= k < m < |order| ==> SeenBefore(parse, dets, order[k], order[m])
  }

  /** The table lists its cards in the order of their first detection. */
  lemma {:induction false} CollectFirstSeen(parse: string -> Option<Card>, dets: seq<Detection>)
    ensures FirstSeenOrder(parse, dets, Collect(parse, dets).order)
  {
    if |dets| > 0 {
      var init := dets[..|dets| - 1];
      var d := dets[|dets| - 1];
      assert dets == init + [d];
      CollectFirstSeen(parse, init);
      CollectMeaning(parse, init);
      var b := Collect(parse, init);
      var order := Collect(parse, dets).order;
      var p := Parsed(parse, d);
      assert !(p.Some? && p.value !in b.conf) ==> order == b.order;
      assert p.Some? && p.value !in b.conf ==> order == b.order + [p.value];
      forall k, m | 0 <= k < m < |order| ensures SeenBefore(parse, dets, order[k], order[m]) {
        if m < |b.order| {
          assert order[k] == b.order[k] && order[m] == b.order[m];
          assert SeenBefore(parse, init, b.order[k], b.order[m]);
          SeenBeforeExtend(parse, init, d, order[k], order[m]);
        } else {
          assert order[k] == b.order[k] && order[m] == p.value;
          assert order[k] in b.conf;
          SeenBeforeNew(parse, init, d, order[k], order[m]);
        }
      }
    }
  }

  /** A later detection keeps an earlier witness. */
  lemma SeenBeforeExtend(parse: string -> Option<Card>, init: seq<Detection>, d: Detection, a: Card, c: Card)
    requires SeenBefore(parse, init, a, c)
    ensures SeenBefore(parse, init + [d], a, c)
  {
    var dets := init + [d];
    var i :| 0 <= i < |init| && Parsed(parse, init[i]) == Some(a)
             && forall j :: 0 <= j <= i ==> Parsed(parse, init[j]) != Some(c);
    assert dets[i] == init[i];
    forall j | 0 <= j <= i ensures Parsed(parse, dets[j]) != Some(c) {
      assert dets[j] == init[j];
    }
  }

  /** A card named before the last detection is seen before a card that
      only the last detection can name. */
  lemma SeenBeforeNew(parse: string -> Option<Card>, init: seq<Detection>, d: Detection, a: Card, c: Card)
    requires Named(parse, init, a) && !Named(parse, init, c)
    ensures SeenBefore(parse, init + [d], a, c)
  {
    var dets := init + [d];
    var i :| 0 <= i < |init| && Parsed(parse, init[i]) == Some(a);
    assert dets[i] == init[i];
    forall j | 0 <= j <= i ensures Parsed(parse, dets[j]) != Some(c) {
      assert dets[j] == init[j];
    }
  }

  /** Some detection names `c`. */
  predicate Named(parse: string -> Option<Card>, dets: seq<Detection>, c: Card) {
    exists i :: 0 <= i < |dets| && Parsed(parse, dets[i]) == Some(c)
  }

  /** `c` is kept with confidence `x`: some detection of `c` has confidence
      `x` and none has more. */
  predicate Highest(parse: string -> Option<Card>, dets: seq<Detection>, c: Card, x: real) {
    && (exists i :: 0 <= i < |dets| && Parsed(parse, dets[i]) == Some(c) && Confidence(dets[i]) == x)
    && (forall i :: 0 <= i < |dets| && Parsed(parse, dets[i]) == Some(c) ==> Confidence(dets[i]) <= x)
  }
  /** The table holds exactly the cards some detection names, each with
      its highest confidence. */
  lemma {:induction false} CollectMeaning(parse: string -> Option<Card>, dets: seq<Detection>)
    ensures forall c :: c in Collect(parse, dets).conf <==> Named(parse, dets, c)
    ensures forall c | c in Collect(parse, dets).conf :: Highest(parse, dets, c, Collect(parse, dets).conf[c])
  {
    if |dets| > 0 {
      var init := dets[..|dets| - 1];
      var d := dets[|dets| - 1];
      assert dets == init + [d];
      CollectMeaning(parse, init);
      var b := Collect(parse, init);
      var r := Collect(parse, dets);
      var x := Confidence(d);
      forall c ensures c in r.conf <==> Named(parse, dets, c) {
        NamedAppend(parse, init, d, c);
      }
      forall c | c in r.conf ensures Highest(parse, dets, c, r.conf[c]) {
        if Parsed(parse, d) != Some(c) {
          HighestAppend(parse, init, d, c, b.conf[c]);
        } else if c in b.conf && x <= b.conf[c] {
          HighestAppend(parse, init, d, c, b.conf[c]);
        } else {
          HighestFresh(parse, init, d, c);
        }
      }
    }
  }

  lemma NamedAppend(parse: string -> Option<Card>, init: seq<Detection>, d: Detection, c: Card)
    ensures Named(parse, init + [d], c) <==> Named(parse, init, c) || Parsed(parse, d) == Some(c)
  {
    var dets := init + [d];
    if Named(parse, init, c) {
      var i :| 0 <= i < |init| && Parsed(parse, init[i]) == Some(c);
      assert dets[i] == init[i];
    }
    if Named(parse, dets, c) {
      var i :| 0 <= i < |dets| && Parsed(parse, dets[i]) == Some(c);
      if i < |init| { assert dets[i] == init[i]; }
    }
    assert dets[|init|] == d;
  }

  /** A later detection that is not more confident leaves the kept
      confidence in place. */
  lemma HighestAppend(parse: string -> Option<Card>, init: seq<Detection>, d: Detection, c: Card, x: real)
    requires Highest(parse, init, c, x)
    requires Parsed(parse, d) != Some(c) || Confidence(d) <= x
    ensures Highest(parse, init + [d], c, x)
  {
    var dets := init + [d];
    var i :| 0 <= i < |init| && Parsed(parse, init[i]) == Some(c) && Confidence(init[i]) == x;
    assert dets[i] == init[i];
    forall j | 0 <= j < |dets| && Parsed(parse, dets[j]) == Some(c) ensures Confidence(dets[j]) <= x {
      if j < |init| { assert dets[j] == init[j]; }
    }
  }

  /** A detection at least as confident as every earlier one of its card
      sets the kept confidence. */
  lemma HighestFresh(parse: string -> Option<Card>, init: seq<Detection>, d: Detection, c: Card)
    requires Parsed(parse, d) == Some(c)
    requires forall i :: 0 <= i < |init| && Parsed(parse, init[i]) == Some(c) ==> Confidence(init[i]) <= Confidence(d)
    ensures Highest(parse, init + [d], c, Confidence(d))
  {
    var dets := init + [d];
    assert dets[|init|] == d;
    forall j | 0 <= j < |dets| && Parsed(parse, dets[j]) == Some(c) ensures Confidence(dets[j]) <= Confidence(d) {
      if j < |init| { assert dets[j] == init[j]; }
    }
  }

  /** A kept card and its confidence: one pair of the source's result. */
  datatype Entry = Entry(card: Card, conf: real)

  predicate SortedByConf(s: seq<Entry>) {
    forall i, j :: 0 <= i < j < |s| ==> s[i].conf >= s[j].conf
  }

  predicate CardsDistinct(s: seq<Entry>) {
    forall i, j :: 0 <= i < j < |s| ==> s[i].card != s[j].card
  }

  /** The table's entries in insertion order. */
  function Entries(b: Best): (r: seq<Entry>)
    requires WellFormed(b)
    ensures |r| == |b.order|
    ensures CardsDistinct(r)
    ensures forall k :: 0 <= k < |r| ==> r[k].card == b.order[k] && r[k].conf == b.conf[b.order[k]]
    ensures forall k :: 0 <= k < |r| ==> r[k].card in b.conf && r[k].conf == b.conf[r[k].card]
  {
    seq(|b.order|, i requires 0 <= i < |b.order| => Entry(b.order[i], b.conf[b.order[i]]))
  }

  /** Every card of the table has its entry. */
  lemma EntriesCover(b: Best, c: Card)
    requires WellFormed(b) && c in b.conf
    ensures Entry(c, b.conf[c]) in Entries(b)
  {
    var i :| 0 <= i < |b.order| && b.order[i] == c;
    assert Entries(b)[i] == Entry(c, b.conf[c]);
  }

  lemma ConsSorted(h: Entry, t: seq<Entry>)
    requires SortedByConf(t)
    requires forall e | e in t :: e.conf <= h.conf
    ensures SortedByConf([h] + t)
  {
    var s := [h] + t;
    forall i, j | 0 <= i < j < |s| ensures s[i].conf >= s[j].conf {
      assert s[j] == t[j - 1];
      if i > 0 { assert s[i] == t[i - 1]; }
    }
  }

  /** Places `x`, the latest entry, after every entry at least as
      confident: the step of a stable descending sort. */
  function InsertByConf(x: Entry, s: seq<Entry>): (r: seq<Entry>)
    requires SortedByConf(s)
    ensures SortedByConf(r)
    ensures multiset(r) == multiset(s) + multiset{x}
  {
    if |s| == 0 || s[0].conf < x.conf then
      ConsSorted(x, s);
      [x] + s
    else
      var rest := InsertByConf(x, s[1..]);
      assert s == [s[0]] + s[1..];
      assert forall e | e in rest :: e == x || e in s[1..] by {
        forall e | e in rest ensures e == x || e in s[1..] {
          assert e in multiset(rest);
        }
      }
      ConsSorted(s[0], rest);
      [s[0]] + rest
  }

  lemma ConsDistinct(h: Entry, t: seq<Entry>)
    requires CardsDistinct(t)
    requires forall e | e in t :: e.card != h.card
    ensures CardsDistinct([h] + t)
  {
    var r := [h] + t;
    forall i, j | 0 <= i < j < |r| ensures r[i].card != r[j].card {
      assert r[j] == t[j - 1];
      if i > 0 { assert r[i] == t[i - 1]; }
    }
  }

  /** Inserting an entry whose card is new keeps the cards distinct. */
  lemma {:induction false} InsertKeepsCardsDistinct(x: Entry, s: seq<Entry>)
    requires SortedByConf(s) && CardsDistinct(s)
    requires forall e | e in s :: e.card != x.card
    ensures CardsDistinct(InsertByConf(x, s))
  {
    if |s| > 0 && s[0].conf >= x.conf {
      var t := s[1..];
      assert forall e | e in t :: e in s;
      InsertKeepsCardsDistinct(x, t);
      var rest := InsertByConf(x, t);
      RestAvoidsHead(x, s, rest);
      ConsDistinct(s[0], rest);
    } else {
      ConsDistinct(x, s);
    }
  }

  /** A list holding the tail of `s` and an entry for another card avoids
      the card at the head of `s`. */
  lemma RestAvoidsHead(x: Entry, s: seq<Entry>, rest: seq<Entry>)
    requires |s| > 0 && CardsDistinct(s) && x.card != s[0].card
    requires multiset(rest) == multiset(s[1..]) + multiset{x}
    ensures forall e | e in rest :: e.card != s[0].card
  {
    forall e | e in rest ensures e.card != s[0].card {
      assert e in multiset(rest);
      if e != x {
        assert e in multiset(s[1..]);
        var k :| 0 <= k < |s| - 1 && s[1..][k] == e;
        assert s[k + 1] == e;
      }
    }
  }

  /** `sorted(entries, key=confidence, reverse=True)`: a stable sort, so
      entries of equal confidence keep their insertion order. */
  function SortByConf(s: seq<Entry>): (r: seq<Entry>)
    ensures SortedByConf(r)
    ensures multiset(r) == multiset(s)
  {
    if |s| == 0 then []
    else
      var init := s[..|s| - 1];
      assert s == init + [s[|s| - 1]];
      InsertByConf(s[|s| - 1], SortByConf(init))
  }

  /** Sorting keeps the cards distinct. */
  lemma {:induction false} SortKeepsCardsDistinct(s: seq<Entry>)
    requires CardsDistinct(s)
    ensures CardsDistinct(SortByConf(s))
  {
    if |s| > 0 {
      var init := s[..|s| - 1];
      var last := s[|s| - 1];
      assert s == init + [last];
      SortKeepsCardsDistinct(init);
      var sorted := SortByConf(init);
      forall e | e in sorted ensures e.card != last.card {
        assert e in multiset(sorted);
        assert e in init;
        var k :| 0 <= k < |init| && init[k] == e;
        assert s[k] == e;
      }
      InsertKeepsCardsDistinct(last, sorted);
    }
  }

  /** The table's entries, most confident first. */
  function Ranked(parse: string -> Option<Card>, dets: seq<Detection>): (r: seq<Entry>)
    ensures SortedByConf(r)
    ensures CardsDistinct(r)
    ensures |r| == |Collect(parse, dets).order|
    ensures multiset(r) == multiset(Entries(Collect(parse, dets)))
  {
    var entries := Entries(Collect(parse, dets));
    SortKeepsCardsDistinct(entries);
    var r := SortByConf(entries);
    assert |multiset(r)| == |multiset(entries)|;
    r
  }

  /** Every ranked entry is a named card with its highest confidence, and
      every named card is ranked. */
  lemma RankedMeaning(parse: string -> Option<Card>, dets: seq<Detection>)
    ensures forall k :: 0 <= k < |Ranked(parse, dets)| ==>
              Highest(parse, dets, Ranked(parse, dets)[k].card, Ranked(parse, dets)[k].conf)
    ensures forall c :: Named(parse, dets, c) ==>
              exists k :: 0 <= k < |Ranked(parse, dets)| && Ranked(parse, dets)[k].card == c
  {
    RankedHighest(parse, dets);
    RankedCovers(parse, dets);
  }

  lemma RankedHighest(parse: string -> Option<Card>, dets: seq<Detection>)
    ensures forall k :: 0 <= k < |Ranked(parse, dets)| ==>
              Highest(parse, dets, Ranked(parse, dets)[k].card, Ranked(parse, dets)[k].conf)
  {
    var entries := Entries(Collect(parse, dets));
    var r := Ranked(parse, dets);
    forall k | 0 <= k < |r| ensures Highest(parse, dets, r[k].card, r[k].conf) {
      SameElements(r, entries, r[k]);
      EntryIsHighest(parse, dets, r[k]);
    }
  }

  /** Every entry of the table carries a card at its highest confidence. */
  lemma EntryIsHighest(parse: string -> Option<Card>, dets: seq<Detection>, e: Entry)
    requires e in Entries(Collect(parse, dets))
    ensures Highest(parse, dets, e.card, e.conf)
  {
    CollectMeaning(parse, dets);
    var entries := Entries(Collect(parse, dets));
    var j :| 0 <= j < |entries| && entries[j] == e;
  }

  lemma RankedCovers(parse: string -> Option<Card>, dets: seq<Detection>)
    ensures forall c :: Named(parse, dets, c) ==>
              exists k :: 0 <= k < |Ranked(parse, dets)| && Ranked(parse, dets)[k].card == c
  {
    var b := Collect(parse, dets);
    CollectMeaning(parse, dets);
    var entries := Entries(b);
    var r := Ranked(parse, dets);
    forall c | Named(parse, dets, c) ensures exists k :: 0 <= k < |r| && r[k].card == c {
      EntriesCover(b, c);
      var e := Entry(c, b.conf[c]);
      SameElements(r, entries, e);
      var k :| 0 <= k < |r| && r[k] == e;
    }
  }

  /** The default of `detections_to_cards`'s `max_cards`. */
  const DefaultMaxCards := 2

  /** `detections_to_cards(dets, max_cards)` over the label parser `parse`. */
  function DetectionsToCards(parse: string -> Option<Card>, dets: seq<Detection>, maxCards: int): (r: seq<Entry>)
    ensures maxCards >= 0 ==> |r| <= maxCards
    ensures SortedByConf(r)
    ensures CardsDistinct(r)
    ensures forall k :: 0 <= k < |r| ==> Highest(parse, dets, r[k].card, r[k].conf)
    ensures var n := |Ranked(parse, dets)|;
            |r| == if maxCards >= 0 then (if maxCards < n then maxCards else n)
                   else (if n + maxCards > 0 then n + maxCards else 0)
    ensures r == Ranked(parse, dets)[..|r|]
  {
    RankedHighest(parse, dets);
    var ranked := Ranked(parse, dets);
    var r := PrefixSlice(ranked, maxCards);
    PrefixKeepsOrder(ranked, |r|);
    r
  }

  /** A prefix of a ranked list is still ranked and still without repeats,
      entry for entry the same. */
  lemma PrefixKeepsOrder(s: seq<Entry>, n: nat)
    requires n <= |s| && SortedByConf(s) && CardsDistinct(s)
    ensures SortedByConf(s[..n]) && CardsDistinct(s[..n])
    ensures forall k :: 0 <= k < n ==> s[..n][k] == s[k]
  {
  }

  /** The cut keeps the most confident cards: no entry of the ranking left
      out has a higher confidence than one kept. */
  lemma DetectionsKeepMostConfident(parse: string -> Option<Card>, dets: seq<Detection>, maxCards: int)
    ensures var r := DetectionsToCards(parse, dets, maxCards);
            var ranked := Ranked(parse, dets);
            forall k, j :: 0 <= k < |r| <= j < |ranked| ==> ranked[j].conf <= r[k].conf
  {
    var r := DetectionsToCards(parse, dets, maxCards);
    var ranked := Ranked(parse, dets);
    forall k, j | 0 <= k < |r| <= j < |ranked| ensures ranked[j].conf <= r[k].conf {
      assert r[k] == ranked[k];
    }
  }

  /** Nothing is lost below the cap: when `maxCards` is at least the
      number of distinct cards named, every named card is in the result. */
  lemma DetectionsComplete(parse: string -> Option<Card>, dets: seq<Detection>, maxCards: int, c: Card)
    requires maxCards >= |Collect(parse, dets).order|
    requires Named(parse, dets, c)
    ensures exists k :: 0 <= k < |DetectionsToCards(parse, dets, maxCards)| && DetectionsToCards(parse, dets, maxCards)[k].card == c
  {
    RankedMeaning(parse, dets);
    var ranked := Ranked(parse, dets);
    assert DetectionsToCards(parse, dets, maxCards) == ranked;
  }

  /** As written, the label parser builds no card, so no detection ever
      survives. */
  lemma NoDetectionSurvives(dets: seq<Detection>, maxCards: int)
    ensures DetectionsToCards(ParseCardLabel, dets, maxCards) == []
  {
    CollectMeaning(ParseCardLabel, dets);
    var b := Collect(ParseCardLabel, dets);
    assert forall c :: !Named(ParseCardLabel, dets, c);
    assert b.conf.Keys == {};
  }
}
