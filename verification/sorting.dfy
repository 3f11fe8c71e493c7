/** Python's `sorted(xs, reverse=True)` on integers, as a stable insertion
    sort, and the facts about descending lists the evaluator relies on. */
module Sorting {
  import opened Seqs

  predicate SortedDesc(s: seq<int>) {
    forall i, j :: 0 <= i < j < |s| ==> s[i] >= s[j]
  }

  function Insert(x: int, s: seq<int>): (r: seq<int>)
    requires SortedDesc(s)
    ensures SortedDesc(r)
    ensures multiset(r) == multiset(s) + multiset{x}
    ensures |r| == |s| + 1
  {
    if |s| == 0 || x >= s[0] then
      ConsDesc(x, s);
      [x] + s
    else
      var rest := Insert(x, s[1..]);
      assert s == [s[0]] + s[1..];
      InsertedBelow(s[0], x, s[1..], rest);
      ConsDesc(s[0], rest);
      [s[0]] + rest
  }

  /** A head no smaller than every element keeps a descending list descending. */
  lemma ConsDesc(h: int, t: seq<int>)
    requires SortedDesc(t) && forall k :: 0 <= k < |t| ==> t[k] <= h
    ensures SortedDesc([h] + t)
  {
    var l := [h] + t;
    forall i, j | 0 <= i < j < |l| ensures l[i] >= l[j] {
      assert l[j] == t[j - 1];
      if i > 0 {
        assert l[i] == t[i - 1];
      }
    }
  }

  /** Inserting a value below the head of a descending list leaves every
      element of the result at most the head. */
  lemma InsertedBelow(h: int, x: int, t: seq<int>, rest: seq<int>)
    requires SortedDesc([h] + t) && x < h
    requires multiset(rest) == multiset(t) + multiset{x}
    ensures forall k :: 0 <= k < |rest| ==> rest[k] <= h
  {
    forall k | 0 <= k < |rest| ensures rest[k] <= h {
      assert rest[k] in multiset(rest);
      if rest[k] != x {
        assert rest[k] in multiset(t);
        assert rest[k] in t;
        var i :| 0 <= i < |t| && t[i] == rest[k];
        assert ([h] + t)[0] == h && ([h] + t)[i + 1] == t[i];
      }
    }
  }

  function SortDesc(s: seq<int>): (r: seq<int>)
    ensures SortedDesc(r)
    ensures multiset(r) == multiset(s)
    ensures |r| == |s|
  {
    if |s| == 0 then []
    else
      assert s == [s[0]] + s[1..];
      Insert(s[0], SortDesc(s[1..]))
  }

  function Reverse(s: seq<int>): (r: seq<int>)
    ensures |r| == |s|
    ensures forall i :: 0 <= i < |s| ==> r[i] == s[|s| - 1 - i]
    ensures multiset(r) == multiset(s)
  {
    if |s| == 0 then []
    else
      assert s == [s[0]] + s[1..];
      Reverse(s[1..]) + [s[0]]
  }

  /** `sorted(xs)`: ascending order; strictly ascending when `xs` has no
      repeats. */
  function SortAsc(s: seq<int>): (r: seq<int>)
    ensures forall i, j :: 0 <= i < j < |r| ==> r[i] <= r[j]
    ensures multiset(r) == multiset(s)
    ensures Distinct(s) ==> forall i, j :: 0 <= i < j < |r| ==> r[i] < r[j]
    ensures forall x :: x in r <==> x in s
  {
    var d := SortDesc(s);
    SortDescStrict(s);
    ReversedOrder(d);
    SameMembers(Reverse(d), s);
    Reverse(d)
  }

  /** Reversing a descending list gives an ascending one, strictly so when
      the list was strictly descending. */
  lemma ReversedOrder(d: seq<int>)
    ensures SortedDesc(d) ==> forall i, j :: 0 <= i < j < |Reverse(d)| ==> Reverse(d)[i] <= Reverse(d)[j]
    ensures (forall i, j :: 0 <= i < j < |d| ==> d[i] > d[j]) ==>
              forall i, j :: 0 <= i < j < |Reverse(d)| ==> Reverse(d)[i] < Reverse(d)[j]
  {
    var r := Reverse(d);
    assert forall i :: 0 <= i < |r| ==> r[i] == d[|d| - 1 - i];
  }

  /** A descending list is determined by its multiset of elements, so any
      other correct sort agrees with `SortDesc`. */
  lemma {:induction false} SortedUnique(a: seq<int>, b: seq<int>)
    requires SortedDesc(a) && SortedDesc(b) && multiset(a) == multiset(b)
    ensures a == b
    decreases |a|
  {
    if |a| == 0 {
      assert |b| == |multiset(b)|;
    } else {
      assert |b| > 0 by { assert |a| == |multiset(a)|; }
      HeadsEqual(a, b);
      MultisetTail(a);
      MultisetTail(b);
      SortedTail(a);
      SortedTail(b);
      SortedUnique(a[1..], b[1..]);
      HeadTail(a);
      HeadTail(b);
    }
  }

  /** Two descending lists with the same elements start with the same value. */
  lemma HeadsEqual(a: seq<int>, b: seq<int>)
    requires SortedDesc(a) && SortedDesc(b) && multiset(a) == multiset(b)
    requires |a| > 0 && |b| > 0
    ensures a[0] == b[0]
  {
    InMultiset(a, 0);
    InMultiset(b, 0);
    HeadIsMax(a);
    HeadIsMax(b);
  }

  lemma InMultiset(s: seq<int>, i: nat)
    requires i < |s|
    ensures s[i] in multiset(s)
  {
  }

  lemma MultisetTail(s: seq<int>)
    requires |s| > 0
    ensures multiset(s[1..]) == multiset(s) - multiset{s[0]}
  {
    assert s == [s[0]] + s[1..];
  }

  lemma SortedTail(s: seq<int>)
    requires SortedDesc(s) && |s| > 0
    ensures SortedDesc(s[1..])
  {
  }

  lemma HeadTail(s: seq<int>)
    requires |s| > 0
    ensures s == [s[0]] + s[1..]
  {
  }

  /** The head of a non-empty descending list is its largest element. */
  lemma HeadIsMax(s: seq<int>)
    requires SortedDesc(s) && |s| > 0
    ensures forall x :: x in s ==> x <= s[0]
  {
  }

  /** In a list without repeats every value occurs at most once. */
  lemma {:induction false} DistinctMultiplicity(s: seq<int>, x: int)
    requires Distinct(s)
    ensures multiset(s)[x] <= 1
    decreases |s|
  {
    if |s| > 0 {
      assert s == [s[0]] + s[1..];
      DistinctMultiplicity(s[1..], x);
      if x == s[0] {
        assert x !in s[1..];
      }
    }
  }

  /** A value at two positions occurs at least twice. */
  lemma {:induction false} RepeatMultiplicity(s: seq<int>, i: nat, j: nat)
    requires i < j < |s| && s[i] == s[j]
    ensures multiset(s)[s[i]] >= 2
  {
    assert s == s[..i] + [s[i]] + s[i + 1..j] + [s[j]] + s[j + 1..];
  }

  /** Sorting a list without repeats gives a strictly descending list. */
  lemma SortDescStrict(s: seq<int>)
    ensures Distinct(s) ==> forall i, j :: 0 <= i < j < |SortDesc(s)| ==> SortDesc(s)[i] > SortDesc(s)[j]
  {
    var r := SortDesc(s);
    if Distinct(s) {
      forall i, j | 0 <= i < j < |r| ensures r[i] > r[j] {
        if r[i] == r[j] {
          RepeatMultiplicity(r, i, j);
          DistinctMultiplicity(s, r[i]);
          assert false;
        }
      }
    }
  }
}
