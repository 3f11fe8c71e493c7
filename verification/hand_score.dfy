/** The evaluator's score: a hand category (0 high card .. 8 straight
    flush) and tie-break ranks, ordered as Python orders the dataclass,
    that is by the tuple `(category, ranks)`. */
module HandScores {

  datatype HandScore = HandScore(category: int, ranks: seq<int>)

  /** Python's `<` on tuples of integers: the first differing position
      decides, and a proper prefix is smaller. */
  predicate SeqLess(a: seq<int>, b: seq<int>)
    decreases |a|
  {
    if |a| == 0 then |b| > 0
    else if |b| == 0 then false
    else a[0] < b[0] || (a[0] == b[0] && SeqLess(a[1..], b[1..]))
  }

  predicate Less(a: HandScore, b: HandScore) {
    a.category < b.category || (a.category == b.category && SeqLess(a.ranks, b.ranks))
  }

  predicate LessEq(a: HandScore, b: HandScore) {
    a == b || Less(a, b)
  }

  lemma {:induction false} SeqLessIrreflexive(a: seq<int>)
    ensures !SeqLess(a, a)
    decreases |a|
  {
    if |a| > 0 { SeqLessIrreflexive(a[1..]); }
  }

  lemma {:induction false} SeqLessTransitive(a: seq<int>, b: seq<int>, c: seq<int>)
    requires SeqLess(a, b) && SeqLess(b, c)
    ensures SeqLess(a, c)
    decreases |a|
  {
    if |a| > 0 && a[0] == b[0] && b[0] == c[0] {
      SeqLessTransitive(a[1..], b[1..], c[1..]);
    }
  }

  lemma {:induction false} SeqLessTotal(a: seq<int>, b: seq<int>)
    ensures a == b || SeqLess(a, b) || SeqLess(b, a)
    decreases |a|
  {
    if |a| > 0 && |b| > 0 && a[0] == b[0] {
      SeqLessTotal(a[1..], b[1..]);
      if a[1..] == b[1..] {
        assert a == [a[0]] + a[1..] && b == [b[0]] + b[1..];
      }
    }
  }

  /** Scores are totally and strictly ordered, so "the best of" a
      collection of scores is well defined. */
  lemma LessIsStrictTotalOrder(a: HandScore, b: HandScore, c: HandScore)
    ensures !Less(a, a)
    ensures Less(a, b) && Less(b, c) ==> Less(a, c)
    ensures a == b || Less(a, b) || Less(b, a)
  {
    SeqLessIrreflexive(a.ranks);
    if Less(a, b) && Less(b, c) && a.category == b.category == c.category {
      SeqLessTransitive(a.ranks, b.ranks, c.ranks);
    }
    SeqLessTotal(a.ranks, b.ranks);
  }

  lemma LessEqTransitive()
    ensures forall a, b, c :: LessEq(a, b) && LessEq(b, c) ==> LessEq(a, c)
  {
    forall a, b, c | LessEq(a, b) && LessEq(b, c) ensures LessEq(a, c) {
      LessIsStrictTotalOrder(a, b, c);
    }
  }

  /** The larger of two scores, keeping the first on a tie, as
      `if score > best` does. */
  function Max(best: HandScore, score: HandScore): (r: HandScore)
    ensures r == best || r == score
    ensures LessEq(best, r) && LessEq(score, r)
  {
    LessIsStrictTotalOrder(best, score, best);
    if Less(best, score) then score else best
  }
}
