/** `Counter(ranks)` for the ranks of five cards. A rank's count is its
    multiplicity in the multiset of values; the counter's keys are the
    distinct values in order of first occurrence. Five cards admit only
    seven count profiles, and the evaluator's branches rely on that. */
module Counts {
  import opened Seqs
  import opened Sorting

  /** The keys of `Counter(xs)`: the distinct values of `xs` in order of
      first occurrence, as Python's dict keeps them. */
  function Keys(xs: seq<int>): (d: seq<int>)
    ensures Distinct(d)
    ensures forall x :: x in d <==> x in xs
    decreases |xs|
  {
    if |xs| == 0 then []
    else
      var d := Keys(xs[..|xs| - 1]);
      assert xs == xs[..|xs| - 1] + [xs[|xs| - 1]];
      if xs[|xs| - 1] in d then d else d + [xs[|xs| - 1]]
  }

  /** `counts.values()`: the count of each key, in key order. */
  function CountValues(m: multiset<int>, d: seq<int>): (cv: seq<int>)
    ensures |cv| == |d|
    ensures forall i :: 0 <= i < |d| ==> cv[i] == m[d[i]]
  {
    seq(|d|, i requires 0 <= i < |d| => m[d[i]])
  }

  /** `[rank for rank, cnt in counts.items() if cnt == c]`. */
  function WithCount(m: multiset<int>, d: seq<int>, c: int): (r: seq<int>)
    ensures forall x :: x in r <==> x in d && m[x] == c
    ensures |r| <= |d|
    ensures Distinct(d) ==> Distinct(r)
  {
    if |d| == 0 then []
    else
      var rest := WithCount(m, d[1..], c);
      assert Distinct(d) ==> d[0] !in d[1..];
      (if m[d[0]] == c then [d[0]] else []) + rest
  }

  /** The values occurring exactly `c` times in `xs`. */
  function Occurring(xs: seq<int>, c: int): (r: seq<int>)
    ensures Distinct(r)
    ensures c >= 1 ==> forall x :: x in r <==> multiset(xs)[x] == c
  {
    var r := WithCount(multiset(xs), Keys(xs), c);
    assert c >= 1 ==> forall x :: multiset(xs)[x] == c ==> x in xs;
    r
  }

  /** `max(counts.values())`. */
  function MaxOf(s: seq<int>): (r: int)
    requires |s| > 0
    ensures r in s
    ensures forall x :: x in s ==> x <= r
  {
    if |s| == 1 then s[0]
    else
      var rest := MaxOf(s[1..]);
      assert forall x :: x in s ==> x == s[0] || x in s[1..];
      if s[0] >= rest then s[0] else rest
  }

  function Sum(s: seq<int>): int {
    if |s| == 0 then 0 else s[0] + Sum(s[1..])
  }

  /** Summing the counts of the keys of `xs` gives the length of `xs`. */
  lemma {:induction false} SumCountValues(xs: seq<int>)
    ensures Sum(CountValues(multiset(xs), Keys(xs))) == |xs|
    decreases |xs|
  {
    if |xs| > 0 {
      var init := xs[..|xs| - 1];
      var x := xs[|xs| - 1];
      assert xs == init + [x];
      var d := Keys(init);
      SumCountValues(init);
      SumOfCountsAdd(multiset(init), d, x);
      if x !in d {
        SumAppend(CountValues(multiset(xs), d), [multiset(xs)[x]]);
        assert CountValues(multiset(xs), d + [x]) == CountValues(multiset(xs), d) + [multiset(xs)[x]];
        assert multiset(init)[x] == 0;
      }
    }
  }

  /** Adding one occurrence of `x` raises the total count over `d` by one
      exactly when `x` is a key of `d`. */
  lemma {:induction false} SumOfCountsAdd(m: multiset<int>, d: seq<int>, x: int)
    requires Distinct(d)
    ensures Sum(CountValues(m + multiset{x}, d)) == Sum(CountValues(m, d)) + (if x in d then 1 else 0)
    decreases |d|
  {
    if |d| > 0 {
      SumOfCountsAdd(m, d[1..], x);
      assert CountValues(m + multiset{x}, d)[1..] == CountValues(m + multiset{x}, d[1..]);
      assert CountValues(m, d)[1..] == CountValues(m, d[1..]);
      assert x in d <==> x == d[0] || x in d[1..];
    }
  }

  lemma {:induction false} SumAppend(a: seq<int>, b: seq<int>)
    ensures Sum(a + b) == Sum(a) + Sum(b)
    decreases |a|
  {
    if |a| > 0 {
      SumAppend(a[1..], b);
      assert (a + b)[1..] == a[1..] + b;
    } else {
      assert a + b == b;
    }
  }

  lemma SliceAround(s: seq<int>, j: nat)
    requires j < |s|
    ensures s == s[..j] + ([s[j]] + s[j + 1..])
  {
  }

  lemma SumSplit(s: seq<int>, j: nat)
    requires j < |s|
    ensures Sum(s) == s[j] + Sum(s[..j] + s[j + 1..])
  {
    var front, one, rest := s[..j], [s[j]], s[j + 1..];
    SliceAround(s, j);
    SumAppend(front, one + rest);
    SumAppend(one, rest);
    SumAppend(front, rest);
    assert Sum(one) == s[j] by {
      assert one[1..] == [];
    }
  }

  lemma MultisetWithout(b: seq<int>, j: nat)
    requires j < |b|
    ensures multiset(b[..j] + b[j + 1..]) == multiset(b) - multiset{b[j]}
  {
    assert b == b[..j] + [b[j]] + b[j + 1..];
  }

  /** The sum of a list depends only on its elements, not their order. */
  lemma {:induction false} SumPermutation(a: seq<int>, b: seq<int>)
    requires multiset(a) == multiset(b)
    ensures Sum(a) == Sum(b)
    decreases |a|
  {
    if |a| == 0 {
      assert |b| == |multiset(b)|;
    } else {
      assert a[0] in multiset(b) by { assert a[0] in a; }
      var j :| 0 <= j < |b| && b[j] == a[0];
      MultisetWithout(b, j);
      MultisetTail(a);
      SumPermutation(a[1..], b[..j] + b[j + 1..]);
      SumSplit(b, j);
    }
  }

  /** How many of the counts equal `c` is how many keys occur `c` times. */
  lemma {:induction false} CountValuesMultiplicity(m: multiset<int>, d: seq<int>, c: int)
    ensures multiset(CountValues(m, d))[c] == |WithCount(m, d, c)|
    decreases |d|
  {
    if |d| > 0 {
      CountValuesMultiplicity(m, d[1..], c);
      CountValuesCons(m, d);
      ConsMultiplicity(m[d[0]], CountValues(m, d[1..]), c);
      assert |WithCount(m, d, c)| == (if m[d[0]] == c then 1 else 0) + |WithCount(m, d[1..], c)|;
    }
  }

  lemma CountValuesCons(m: multiset<int>, d: seq<int>)
    requires |d| > 0
    ensures CountValues(m, d) == [m[d[0]]] + CountValues(m, d[1..])
  {
  }

  lemma ConsMultiplicity(a: int, t: seq<int>, c: int)
    ensures multiset([a] + t)[c] == (if a == c then 1 else 0) + multiset(t)[c]
  {
  }

  lemma {:induction false} SumAtLeastLength(s: seq<int>)
    requires forall i :: 0 <= i < |s| ==> s[i] >= 1
    ensures Sum(s) >= |s|
    decreases |s|
  {
    if |s| > 0 { SumAtLeastLength(s[1..]); }
  }

  /** The partitions of five, largest part first. */
  predicate IsPartitionOf5(p: seq<int>) {
    p == [5] || p == [4, 1] || p == [3, 2] || p == [3, 1, 1] ||
    p == [2, 2, 1] || p == [2, 1, 1, 1] || p == [1, 1, 1, 1, 1]
  }

  /** The seven ways to split five into positive parts, largest first. */
  lemma Partitions5(p: seq<int>)
    requires SortedDesc(p) && Sum(p) == 5
    requires forall i :: 0 <= i < |p| ==> p[i] >= 1
    ensures IsPartitionOf5(p)
  {
    SumAtLeastLength(p);
    SumUnfolded(p);
    if |p| == 1 {
      PartitionOfLength1(p);
    } else if |p| == 2 {
      assert p[0] >= p[1] >= 1;
      PartitionOfLength2(p);
    } else if |p| == 3 {
      assert p[0] >= p[1] >= p[2] >= 1;
      PartitionOfLength3(p);
    } else if |p| == 4 {
      assert p[0] >= p[1] >= p[2] >= p[3] >= 1;
      PartitionOfLength4(p);
    } else {
      assert p[0] >= 1 && p[1] >= 1 && p[2] >= 1 && p[3] >= 1 && p[4] >= 1;
      PartitionOfLength5(p);
    }
  }

  /** How often 1, 2, 3 and 4 occur in each partition of five. */
  lemma PartitionMultiplicities(p: seq<int>)
    requires IsPartitionOf5(p)
    ensures p == [5] ==> multiset(p)[4] == 0 && multiset(p)[3] == 0 && multiset(p)[2] == 0 && multiset(p)[1] == 0
    ensures p == [4, 1] ==> multiset(p)[4] == 1 && multiset(p)[3] == 0 && multiset(p)[2] == 0 && multiset(p)[1] == 1
    ensures p == [3, 2] ==> multiset(p)[4] == 0 && multiset(p)[3] == 1 && multiset(p)[2] == 1 && multiset(p)[1] == 0
    ensures p == [3, 1, 1] ==> multiset(p)[4] == 0 && multiset(p)[3] == 1 && multiset(p)[2] == 0 && multiset(p)[1] == 2
    ensures p == [2, 2, 1] ==> multiset(p)[4] == 0 && multiset(p)[3] == 0 && multiset(p)[2] == 2 && multiset(p)[1] == 1
    ensures p == [2, 1, 1, 1] ==> multiset(p)[4] == 0 && multiset(p)[3] == 0 && multiset(p)[2] == 1 && multiset(p)[1] == 3
    ensures p == [1, 1, 1, 1, 1] ==> multiset(p)[4] == 0 && multiset(p)[3] == 0 && multiset(p)[2] == 0 && multiset(p)[1] == 5
  {
  }

  /** `sorted(counts.values(), reverse=True)[:2] == [3, 2]` picks out the
      full house profile among the partitions of five. */
  lemma FullHouseProfile(p: seq<int>)
    requires IsPartitionOf5(p)
    ensures PrefixSlice(p, 2) == [3, 2] <==> p == [3, 2]
  {
    var q := PrefixSlice(p, 2);
    if |p| >= 2 {
      assert q == [p[0], p[1]];
      if q == [3, 2] {
        assert p[0] == 3 && p[1] == 2;
      }
    }
  }

  lemma PartitionOfLength1(p: seq<int>)
    requires |p| == 1 && p[0] == 5
    ensures IsPartitionOf5(p)
  {
    assert p == [5];
  }

  lemma PartitionOfLength2(p: seq<int>)
    requires |p| == 2 && p[0] >= p[1] >= 1 && p[0] + p[1] == 5
    ensures IsPartitionOf5(p)
  {
    if p[1] == 1 { assert p == [4, 1]; } else { assert p == [3, 2]; }
  }

  lemma PartitionOfLength3(p: seq<int>)
    requires |p| == 3 && p[0] >= p[1] >= p[2] >= 1 && p[0] + p[1] + p[2] == 5
    ensures IsPartitionOf5(p)
  {
    if p[1] == 1 { assert p == [3, 1, 1]; } else { assert p == [2, 2, 1]; }
  }

  lemma PartitionOfLength4(p: seq<int>)
    requires |p| == 4 && p[0] >= p[1] >= p[2] >= p[3] >= 1
    requires p[0] + p[1] + p[2] + p[3] == 5
    ensures IsPartitionOf5(p)
  {
    assert p == [2, 1, 1, 1];
  }

  lemma PartitionOfLength5(p: seq<int>)
    requires |p| == 5 && p[0] >= 1 && p[1] >= 1 && p[2] >= 1 && p[3] >= 1 && p[4] >= 1
    requires p[0] + p[1] + p[2] + p[3] + p[4] == 5
    ensures IsPartitionOf5(p)
  {
    assert p == [1, 1, 1, 1, 1];
  }

  /** `Sum` written out for lists of up to five elements. */
  lemma SumUnfolded(p: seq<int>)
    requires 1 <= |p| <= 5
    ensures |p| == 1 ==> Sum(p) == p[0]
    ensures |p| == 2 ==> Sum(p) == p[0] + p[1]
    ensures |p| == 3 ==> Sum(p) == p[0] + p[1] + p[2]
    ensures |p| == 4 ==> Sum(p) == p[0] + p[1] + p[2] + p[3]
    ensures |p| == 5 ==> Sum(p) == p[0] + p[1] + p[2] + p[3] + p[4]
  {
    var p1 := p[1..];
    assert Sum(p) == p[0] + Sum(p1);
    if |p| > 1 {
      var p2 := p1[1..];
      assert Sum(p1) == p1[0] + Sum(p2);
      if |p| > 2 {
        var p3 := p2[1..];
        assert Sum(p2) == p2[0] + Sum(p3);
        if |p| > 3 {
          var p4 := p3[1..];
          assert Sum(p3) == p3[0] + Sum(p4);
          if |p| > 4 {
            assert Sum(p4) == p4[0] + Sum(p4[1..]);
          }
        }
      }
    }
  }

  /** `sorted(Counter(xs).values(), reverse=True)`. */
  function Profile(xs: seq<int>): seq<int> {
    SortDesc(CountValues(multiset(xs), Keys(xs)))
  }

  /** The count profile of five values is a partition of five. */
  lemma ProfileIsPartition(xs: seq<int>)
    requires |xs| == 5
    ensures IsPartitionOf5(Profile(xs))
  {
    var counts := CountValues(multiset(xs), Keys(xs));
    var p := SortDesc(counts);
    SumCountValues(xs);
    SumPermutation(counts, p);
    CountsPositive(xs);
    PositivePermutation(counts, p);
    Partitions5(p);
  }

  lemma CountsPositive(xs: seq<int>)
    ensures forall i :: 0 <= i < |Keys(xs)| ==> CountValues(multiset(xs), Keys(xs))[i] >= 1
  {
    forall i | 0 <= i < |Keys(xs)| ensures multiset(xs)[Keys(xs)[i]] >= 1 {
      assert Keys(xs)[i] in Keys(xs);
    }
  }

  lemma PositivePermutation(a: seq<int>, b: seq<int>)
    requires multiset(a) == multiset(b)
    requires forall i :: 0 <= i < |a| ==> a[i] >= 1
    ensures forall i :: 0 <= i < |b| ==> b[i] >= 1
  {
    forall i | 0 <= i < |b| ensures b[i] >= 1 {
      assert b[i] in multiset(a) by { assert b[i] in b; }
    }
  }

  /** `max(counts.values())` is the head of the profile. */
  lemma ProfileHeadIsMax(xs: seq<int>)
    requires |Profile(xs)| > 0
    ensures |CountValues(multiset(xs), Keys(xs))| > 0
    ensures MaxOf(CountValues(multiset(xs), Keys(xs))) == Profile(xs)[0]
  {
    var counts := CountValues(multiset(xs), Keys(xs));
    var p := Profile(xs);
    HeadIsMax(p);
    assert MaxOf(counts) in p by { assert MaxOf(counts) in multiset(p); }
    assert p[0] in counts by { assert p[0] in multiset(counts); }
  }

  /** How often `c` occurs in the profile is how many values occur `c` times. */
  lemma ProfileMultiplicity(xs: seq<int>, c: int)
    ensures multiset(Profile(xs))[c] == |Occurring(xs, c)|
  {
    CountValuesMultiplicity(multiset(xs), Keys(xs), c);
  }

  /** The seven count profiles of five values, with the largest count
      (`max(counts.values())`) and how many values occur once, twice,
      three and four times in each. */
  lemma FiveProfiles(xs: seq<int>)
    requires |xs| == 5
    ensures |CountValues(multiset(xs), Keys(xs))| > 0
    ensures IsPartitionOf5(Profile(xs))
    ensures MaxOf(CountValues(multiset(xs), Keys(xs))) == Profile(xs)[0]
    ensures Profile(xs) == [5] ==>
              |Occurring(xs, 4)| == 0 && |Occurring(xs, 3)| == 0 && |Occurring(xs, 2)| == 0 && |Occurring(xs, 1)| == 0
    ensures Profile(xs) == [4, 1] ==>
              |Occurring(xs, 4)| == 1 && |Occurring(xs, 3)| == 0 && |Occurring(xs, 2)| == 0 && |Occurring(xs, 1)| == 1
    ensures Profile(xs) == [3, 2] ==>
              |Occurring(xs, 4)| == 0 && |Occurring(xs, 3)| == 1 && |Occurring(xs, 2)| == 1 && |Occurring(xs, 1)| == 0
    ensures Profile(xs) == [3, 1, 1] ==>
              |Occurring(xs, 4)| == 0 && |Occurring(xs, 3)| == 1 && |Occurring(xs, 2)| == 0 && |Occurring(xs, 1)| == 2
    ensures Profile(xs) == [2, 2, 1] ==>
              |Occurring(xs, 4)| == 0 && |Occurring(xs, 3)| == 0 && |Occurring(xs, 2)| == 2 && |Occurring(xs, 1)| == 1
    ensures Profile(xs) == [2, 1, 1, 1] ==>
              |Occurring(xs, 4)| == 0 && |Occurring(xs, 3)| == 0 && |Occurring(xs, 2)| == 1 && |Occurring(xs, 1)| == 3
    ensures Profile(xs) == [1, 1, 1, 1, 1] ==>
              |Occurring(xs, 4)| == 0 && |Occurring(xs, 3)| == 0 && |Occurring(xs, 2)| == 0 && |Occurring(xs, 1)| == 5
  {
    ProfileIsPartition(xs);
    ProfileHeadIsMax(xs);
    PartitionMultiplicities(Profile(xs));
    ProfileMultiplicity(xs, 1);
    ProfileMultiplicity(xs, 2);
    ProfileMultiplicity(xs, 3);
    ProfileMultiplicity(xs, 4);
  }

  /** What the evaluator's branches need of five values: each `max` it
      takes is over a non-empty list, and its kicker slices are full. */
  lemma FiveCounts(xs: seq<int>)
    requires |xs| == 5
    ensures |CountValues(multiset(xs), Keys(xs))| > 0
    ensures var top := MaxOf(CountValues(multiset(xs), Keys(xs)));
            var fullHouse := PrefixSlice(Profile(xs), 2) == [3, 2];
            (top == 4 ==> |Occurring(xs, 4)| == 1 && |Occurring(xs, 1)| == 1) &&
            (fullHouse ==> |Occurring(xs, 3)| == 1 && |Occurring(xs, 2)| == 1) &&
            (top == 3 && !fullHouse ==> |Occurring(xs, 3)| == 1 && |Occurring(xs, 1)| == 2) &&
            (top != 4 && top != 3 && |Occurring(xs, 2)| >= 2 ==>
               |Occurring(xs, 2)| == 2 && |Occurring(xs, 1)| == 1) &&
            (top != 4 && top != 3 && |Occurring(xs, 2)| == 1 ==> |Occurring(xs, 1)| == 3)
  {
    FiveProfiles(xs);
    FullHouseProfile(Profile(xs));
  }

  /** The counter tests of the evaluator against the values' kinds: the
      largest count is four exactly when some value occurs four times, the
      full house test holds exactly when some value occurs three times and
      another twice, and the largest count is three exactly when some value
      occurs three times. */
  lemma FiveKinds(xs: seq<int>)
    requires |xs| == 5
    ensures |CountValues(multiset(xs), Keys(xs))| > 0
    ensures var top := MaxOf(CountValues(multiset(xs), Keys(xs)));
            (top == 4 <==> |Occurring(xs, 4)| >= 1) &&
            (PrefixSlice(Profile(xs), 2) == [3, 2] <==> |Occurring(xs, 3)| >= 1 && |Occurring(xs, 2)| >= 1) &&
            (top == 3 <==> |Occurring(xs, 3)| >= 1) &&
            (|Occurring(xs, 3)| >= 1 ==> |Occurring(xs, 2)| <= 1)
  {
    FiveProfiles(xs);
    FullHouseProfile(Profile(xs));
  }
}
