/** Generic sequence vocabulary: duplicate detection (the repository's
    `does_contain_duplicate`), multiplicities, subsequences,
    `itertools.combinations`, `math.comb` and Python's `s[:n]`. */
module Seqs {

  /** No element occurs twice. */
  predicate Distinct<T(==)>(xs: seq<T>) {
    forall i, j :: 0 <= i < j < |xs| ==> xs[i] != xs[j]
  }

  /** `set(xs)`. */
  function Elements<T>(xs: seq<T>): set<T> {
    set x | x in xs
  }

  /** A list has as many distinct elements as entries exactly when no
      entry repeats. */
  lemma {:induction false} ElementsCardinality<T>(xs: seq<T>)
    ensures |Elements(xs)| <= |xs|
    ensures |Elements(xs)| == |xs| <==> Distinct(xs)
  {
    if |xs| == 0 {
      assert Elements(xs) == {};
    } else {
      var rest := xs[1..];
      ElementsCardinality(rest);
      ElementsCons(xs);
      DistinctCons(xs);
      if xs[0] in rest {
        assert xs[0] in Elements(rest);
        assert Elements(xs) == Elements(rest);
      } else {
        assert xs[0] !in Elements(rest);
      }
    }
  }

  lemma ElementsCons<T>(xs: seq<T>)
    requires |xs| > 0
    ensures Elements(xs) == {xs[0]} + Elements(xs[1..])
  {
    assert xs == [xs[0]] + xs[1..];
  }

  /** A list is without repeats when its head is not in its tail and its
      tail is without repeats. */
  lemma DistinctCons<T>(xs: seq<T>)
    requires |xs| > 0
    ensures Distinct(xs) <==> xs[0] !in xs[1..] && Distinct(xs[1..])
  {
    var rest := xs[1..];
    if xs[0] in rest {
      var k :| 0 <= k < |rest| && rest[k] == xs[0];
      assert xs[0] == xs[k + 1];
    } else if Distinct(rest) {
      forall i, j | 0 <= i < j < |xs| ensures xs[i] != xs[j] {
        assert xs[j] == rest[j - 1];
        if i > 0 {
          assert xs[i] == rest[i - 1];
        }
      }
    } else {
      var i, j :| 0 <= i < j < |rest| && rest[i] == rest[j];
      assert xs[i + 1] == xs[j + 1];
    }
  }

  /** `does_contain_duplicate(xs)`, i.e. `len(set(xs)) != len(xs)`: true
      exactly when some element occurs at two different positions. */
  function HasDuplicate<T(==)>(xs: seq<T>): (r: bool)
    ensures r <==> exists i, j :: 0 <= i < j < |xs| && xs[i] == xs[j]
  {
    ElementsCardinality(xs);
    |Elements(xs)| != |xs|
  }

  /** Number of occurrences of `v` in `xs` (`Counter(xs)[v]`). */
  function Count<T(==)>(xs: seq<T>, v: T): (n: nat)
    ensures n <= |xs|
    ensures n > 0 <==> v in xs
  {
    if |xs| == 0 then 0
    else (if xs[0] == v then 1 else 0) + Count(xs[1..], v)
  }

  lemma {:induction false} CountAppend<T>(a: seq<T>, b: seq<T>, v: T)
    ensures Count(a + b, v) == Count(a, v) + Count(b, v)
  {
    if |a| > 0 {
      assert (a + b)[1..] == a[1..] + b;
      CountAppend(a[1..], b, v);
    } else {
      assert a + b == b;
    }
  }

  /** Every element equals `v` exactly when all of them are counted. */
  lemma {:induction false} CountAll<T>(xs: seq<T>, v: T)
    ensures Count(xs, v) == |xs| <==> forall i :: 0 <= i < |xs| ==> xs[i] == v
  {
    if |xs| > 0 {
      CountAll(xs[1..], v);
      if forall i :: 0 <= i < |xs| ==> xs[i] == v {
        assert forall i :: 0 <= i < |xs| - 1 ==> xs[1..][i] == v;
      }
      if Count(xs, v) == |xs| {
        forall i | 0 <= i < |xs| ensures xs[i] == v {
          if i > 0 { assert xs[i] == xs[1..][i - 1]; }
        }
      }
    }
  }

  /** `c` can be obtained from `s` by deleting elements (order kept). */
  predicate SubseqOf<T(==)>(c: seq<T>, s: seq<T>)
    decreases |s|
  {
    if |c| == 0 then true
    else if |s| == 0 then false
    else (c[0] == s[0] && SubseqOf(c[1..], s[1..])) || SubseqOf(c, s[1..])
  }

  lemma {:induction false} SubseqElements<T>(c: seq<T>, s: seq<T>)
    requires SubseqOf(c, s)
    ensures forall x | x in c :: x in s
    decreases |s|
  {
    if |c| > 0 {
      if c[0] == s[0] && SubseqOf(c[1..], s[1..]) {
        SubseqElements(c[1..], s[1..]);
        forall x | x in c ensures x in s {
          if x != c[0] { assert x in c[1..]; }
        }
      } else {
        SubseqElements(c, s[1..]);
      }
    }
  }

  /** `math.comb(n, k)`: Pascal's rule, 0 when `k > n`. */
  function Choose(n: nat, k: nat): nat {
    if k == 0 then 1
    else if n == 0 then 0
    else Choose(n - 1, k - 1) + Choose(n - 1, k)
  }

  lemma {:induction false} ChoosePositive(n: nat, k: nat)
    requires k <= n
    ensures Choose(n, k) >= 1
  {
    if k > 0 {
      ChoosePositive(n - 1, k - 1);
    }
  }

  lemma {:induction false} ChooseTooMany(n: nat, k: nat)
    requires k > n
    ensures Choose(n, k) == 0
  {
    if n > 0 {
      ChooseTooMany(n - 1, k - 1);
      ChooseTooMany(n - 1, k);
    }
  }

  function PrependAll<T>(x: T, cs: seq<seq<T>>): (r: seq<seq<T>>)
    ensures |r| == |cs|
    ensures forall i :: 0 <= i < |cs| ==> r[i] == [x] + cs[i]
  {
    seq(|cs|, i requires 0 <= i < |cs| => [x] + cs[i])
  }

  /** `itertools.combinations(s, k)`: every selection of `k` positions of
      `s`, in lexicographic order of positions (those using `s[0]` first). */
  function Combinations<T>(s: seq<T>, k: nat): (r: seq<seq<T>>)
    ensures |r| == Choose(|s|, k)
    ensures forall c | c in r :: |c| == k
    decreases |s|
  {
    if k == 0 then [[]]
    else if |s| == 0 then []
    else PrependAll(s[0], Combinations(s[1..], k - 1)) + Combinations(s[1..], k)
  }

  lemma ConsParts<T>(x: T, t: seq<T>)
    ensures ([x] + t)[0] == x && ([x] + t)[1..] == t
  {
  }

  lemma {:induction false} CombinationIsSubsequence<T>(s: seq<T>, k: nat, c: seq<T>)
    requires c in Combinations(s, k)
    ensures SubseqOf(c, s)
    decreases |s|
  {
    if k > 0 {
      CombinationsUnfold(s, k);
      var tail := Combinations(s[1..], k - 1);
      var pre := PrependAll(s[0], tail);
      if c in pre {
        var i :| 0 <= i < |pre| && pre[i] == c;
        ConsParts(s[0], tail[i]);
        CombinationIsSubsequence(s[1..], k - 1, c[1..]);
      } else {
        CombinationIsSubsequence(s[1..], k, c);
      }
    }
  }

  lemma {:induction false} SubsequenceIsCombination<T>(s: seq<T>, k: nat, c: seq<T>)
    requires |c| == k && SubseqOf(c, s)
    ensures c in Combinations(s, k)
    decreases |s|, 1
  {
    if k == 0 {
      assert c == [];
    } else if c[0] == s[0] && SubseqOf(c[1..], s[1..]) {
      CombinationTakingFirst(s, k, c);
    } else {
      SubsequenceIsCombination(s[1..], k, c);
      CombinationsUnfold(s, k);
      var taking := PrependAll(s[0], Combinations(s[1..], k - 1));
      assert c in taking + Combinations(s[1..], k);
    }
  }

  /** A subsequence that keeps the first element is among the
      combinations that take it. */
  lemma {:induction false} CombinationTakingFirst<T>(s: seq<T>, k: nat, c: seq<T>)
    requires k > 0 && |c| == k && |s| > 0
    requires c[0] == s[0] && SubseqOf(c[1..], s[1..])
    ensures c in Combinations(s, k)
    decreases |s|, 0
  {
    SubsequenceIsCombination(s[1..], k - 1, c[1..]);
    PrependAllMember(s[0], Combinations(s[1..], k - 1), c[1..]);
    assert [s[0]] + c[1..] == c;
    CombinationsUnfold(s, k);
  }

  lemma CombinationsUnfold<T>(s: seq<T>, k: nat)
    requires k > 0 && |s| > 0
    ensures Combinations(s, k) == PrependAll(s[0], Combinations(s[1..], k - 1)) + Combinations(s[1..], k)
  {
  }

  lemma PrependAllMember<T>(x: T, cs: seq<seq<T>>, d: seq<T>)
    requires d in cs
    ensures [x] + d in PrependAll(x, cs)
  {
    var i :| 0 <= i < |cs| && cs[i] == d;
    assert PrependAll(x, cs)[i] == [x] + d;
  }

  /** The combinations are exactly the length-`k` subsequences of `s`. */
  lemma CombinationsAreSubsequences<T>(s: seq<T>, k: nat, c: seq<T>)
    ensures c in Combinations(s, k) <==> |c| == k && SubseqOf(c, s)
  {
    if c in Combinations(s, k) {
      CombinationIsSubsequence(s, k, c);
    }
    if |c| == k && SubseqOf(c, s) {
      SubsequenceIsCombination(s, k, c);
    }
  }

  /** The only way to choose all of `s` is `s` itself. */
  lemma CombinationsOfAll<T>(s: seq<T>)
    ensures Combinations(s, |s|) == [s]
  {
    var r := Combinations(s, |s|);
    ChooseAll(|s|);
    SubseqOfSelf(s);
    SubsequenceIsCombination(s, |s|, s);
    OnlyElement(r, s);
  }

  lemma OnlyElement<T>(r: seq<T>, x: T)
    requires |r| == 1 && x in r
    ensures r == [x]
  {
  }

  lemma {:induction false} ChooseAll(n: nat)
    ensures Choose(n, n) == 1
  {
    if n > 0 {
      ChooseAll(n - 1);
      ChooseTooMany(n - 1, n);
    }
  }

  lemma {:induction false} SubseqOfSelf<T>(s: seq<T>)
    ensures SubseqOf(s, s)
    decreases |s|
  {
    if |s| > 0 {
      SubseqOfSelf(s[1..]);
    }
  }

  /** Appending elements keeps every subsequence a subsequence. */
  lemma {:induction false} SubseqOfAppend<T>(c: seq<T>, s: seq<T>, t: seq<T>)
    requires SubseqOf(c, s)
    ensures SubseqOf(c, s + t)
    decreases |s|
  {
    if |c| > 0 {
      assert (s + t)[1..] == s[1..] + t;
      if c[0] == s[0] && SubseqOf(c[1..], s[1..]) {
        SubseqOfAppend(c[1..], s[1..], t);
      } else {
        SubseqOfAppend(c, s[1..], t);
      }
    }
  }

  /** Python's `s[:n]` for any integer `n` (a negative `n` counts from the end). */
  function PrefixSlice<T>(s: seq<T>, n: int): (r: seq<T>)
    ensures |r| == if n >= 0 then (if n < |s| then n else |s|)
                   else (if |s| + n > 0 then |s| + n else 0)
    ensures r == s[..|r|]
  {
    if n >= 0 then (if n < |s| then s[..n] else s)
    else (if |s| + n > 0 then s[..|s| + n] else [])
  }

  /** Lists with the same multiset hold the same elements. */
  lemma SameElements<T>(a: seq<T>, b: seq<T>, x: T)
    requires multiset(a) == multiset(b)
    ensures x in a <==> x in b
  {
    assert x in a <==> x in multiset(a);
    assert x in b <==> x in multiset(b);
  }

  lemma SameMembers<T>(a: seq<T>, b: seq<T>)
    requires multiset(a) == multiset(b)
    ensures forall x :: x in a <==> x in b
  {
    forall x ensures x in a <==> x in b {
      SameElements(a, b, x);
    }
  }
}
