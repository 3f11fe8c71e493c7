/** The few Python `str` operations the card model and the label parser
    rely on: `isspace`, `strip`, `upper`, `lower` and `capitalize`.
    Case mapping is modelled on ASCII letters only. */
module Text {

  /** Python's `str.isspace()` for one character (also what `\s` matches). */
  predicate IsSpace(c: char) {
    || c == ' '
    || ('\t' <= c <= '\r')
    || ('\U{1c}' <= c <= '\U{1f}')
    || c == '\U{85}' || c == '\U{a0}' || c == '\U{1680}'
    || ('\U{2000}' <= c <= '\U{200a}')
    || c == '\U{2028}' || c == '\U{2029}' || c == '\U{202f}'
    || c == '\U{205f}' || c == '\U{3000}'
  }

  predicate NoSpace(s: string) {
    forall i :: 0 <= i < |s| ==> !IsSpace(s[i])
  }

  /** Drops the white space at the front of `s`. */
  function TrimLeft(s: string): (r: string)
    ensures |r| <= |s| && r == s[|s| - |r|..]
    ensures forall i :: 0 <= i < |s| - |r| ==> IsSpace(s[i])
    ensures r == [] || !IsSpace(r[0])
  {
    if |s| > 0 && IsSpace(s[0]) then TrimLeft(s[1..]) else s
  }

  /** Drops the white space at the back of `s`. */
  function TrimRight(s: string): (r: string)
    ensures |r| <= |s| && r == s[..|r|]
    ensures forall i :: |r| <= i < |s| ==> IsSpace(s[i])
    ensures r == [] || !IsSpace(r[|r| - 1])
  {
    if |s| > 0 && IsSpace(s[|s| - 1]) then TrimRight(s[..|s| - 1]) else s
  }

  /** `s.strip()`: white space dropped from both ends. */
  function Strip(s: string): (r: string)
    ensures r == [] || (!IsSpace(r[0]) && !IsSpace(r[|r| - 1]))
    ensures NoSpace(s) ==> r == s
  {
    var l := TrimLeft(s);
    var r := TrimRight(l);
    assert |r| > 0 ==> r[0] == l[0];
    assert NoSpace(s) && |s| > 0 ==> !IsSpace(s[0]) && !IsSpace(s[|s| - 1]);
    r
  }

  function UpperChar(c: char): char {
    if 'a' <= c <= 'z' then (c as int - 32) as char else c
  }

  function LowerChar(c: char): char {
    if 'A' <= c <= 'Z' then (c as int + 32) as char else c
  }

  /** `s.upper()`: every letter upper-cased, everything else kept. */
  function Upper(s: string): (r: string)
    ensures |r| == |s|
    ensures forall i :: 0 <= i < |s| ==> r[i] == UpperChar(s[i])
  {
    seq(|s|, i requires 0 <= i < |s| => UpperChar(s[i]))
  }

  /** `s.lower()`. */
  function Lower(s: string): (r: string)
    ensures |r| == |s|
    ensures forall i :: 0 <= i < |s| ==> r[i] == LowerChar(s[i])
  {
    seq(|s|, i requires 0 <= i < |s| => LowerChar(s[i]))
  }

  /** `s.capitalize()`: first character upper-cased, the rest lower-cased. */
  function Capitalize(s: string): (r: string)
    ensures |r| == |s|
    ensures |s| > 0 ==> r[0] == UpperChar(s[0])
    ensures forall i :: 1 <= i < |s| ==> r[i] == LowerChar(s[i])
  {
    if |s| == 0 then [] else [UpperChar(s[0])] + Lower(s[1..])
  }

  /** Upper-casing an already lower-cased string is the same as
      upper-casing the original (the label parser lower-cases first). */
  lemma UpperOfLower(s: string)
    ensures Upper(Lower(s)) == Upper(s)
  {
  }

  lemma {:induction false} TrimLeftSpaces(a: string, s: string)
    requires forall i :: 0 <= i < |a| ==> IsSpace(a[i])
    requires |s| > 0 && !IsSpace(s[0])
    ensures TrimLeft(a + s) == s
  {
    if |a| > 0 {
      assert (a + s)[1..] == a[1..] + s;
      TrimLeftSpaces(a[1..], s);
    } else {
      assert a + s == s;
    }
  }

  lemma {:induction false} TrimRightSpaces(s: string, b: string)
    requires forall i :: 0 <= i < |b| ==> IsSpace(b[i])
    requires |s| > 0 && !IsSpace(s[|s| - 1])
    ensures TrimRight(s + b) == s
  {
    if |b| > 0 {
      assert (s + b)[..|s + b| - 1] == s + b[..|b| - 1];
      TrimRightSpaces(s, b[..|b| - 1]);
    } else {
      assert s + b == s;
    }
  }

  /** Stripping removes exactly the white space around a text. */
  lemma StripSurrounded(a: string, s: string, b: string)
    requires forall i :: 0 <= i < |a| ==> IsSpace(a[i])
    requires forall i :: 0 <= i < |b| ==> IsSpace(b[i])
    requires |s| > 0 && !IsSpace(s[0]) && !IsSpace(s[|s| - 1])
    ensures Strip(a + s + b) == s
  {
    assert a + s + b == a + (s + b);
    TrimLeftSpaces(a, s + b);
    TrimRightSpaces(s, b);
  }

  /** Upper-casing changes nothing in a text without lower-case letters. */
  lemma UpperUnchanged(s: string)
    requires forall i :: 0 <= i < |s| ==> !('a' <= s[i] <= 'z')
    ensures Upper(s) == s
  {
  }

  /** Upper-casing twice is upper-casing once. */
  lemma UpperIdempotent(s: string)
    ensures Upper(Upper(s)) == Upper(s)
  {
    var u := Upper(s);
    forall i | 0 <= i < |s| ensures Upper(u)[i] == u[i] {
      assert u[i] == UpperChar(s[i]);
    }
  }

  /** Capitalising changes nothing in an upper-case letter followed by
      lower-case letters only. */
  lemma CapitalizeUnchanged(s: string)
    requires |s| > 0 && 'A' <= s[0] <= 'Z'
    requires forall i :: 1 <= i < |s| ==> 'a' <= s[i] <= 'z'
    ensures Capitalize(s) == s
  {
    assert Capitalize(s)[0] == s[0];
  }

  /** Capitalising twice is capitalising once. */
  lemma CapitalizeIdempotent(s: string)
    ensures Capitalize(Capitalize(s)) == Capitalize(s)
  {
    var c := Capitalize(s);
    var cc := Capitalize(c);
    forall i | 0 <= i < |s| ensures cc[i] == c[i] {
      if i == 0 {
        assert cc[0] == UpperChar(UpperChar(s[0]));
      } else {
        assert cc[i] == LowerChar(LowerChar(s[i]));
      }
    }
  }

  /** Capitalising a lower-case word upper-cases its first letter only. */
  lemma CapitalizeWord(s: string)
    requires |s| > 0
    requires forall i :: 0 <= i < |s| ==> 'a' <= s[i] <= 'z'
    ensures Capitalize(s) == [UpperChar(s[0])] + s[1..]
  {
  }

  /** `s` is its stripped text with white space `a` before and `b` after. */
  lemma StripSplit(s: string) returns (a: string, b: string)
    ensures s == a + Strip(s) + b
    ensures forall i :: 0 <= i < |a| ==> IsSpace(a[i])
    ensures forall i :: 0 <= i < |b| ==> IsSpace(b[i])
  {
    var l := TrimLeft(s);
    var r := TrimRight(l);
    assert Strip(s) == r;
    a := s[..|s| - |l|];
    b := l[|r|..];
    forall i | 0 <= i < |a| ensures IsSpace(a[i]) {
      assert a[i] == s[i];
    }
    forall i | 0 <= i < |b| ensures IsSpace(b[i]) {
      assert b[i] == l[|r| + i];
    }
    SliceAt(l, |r|);
    SliceAt(s, |s| - |l|);
    assert s == a + (r + b);
  }

  lemma SliceAt(s: string, k: nat)
    requires k <= |s|
    ensures s == s[..k] + s[k..]
  {
  }

  /** Lower-casing works character by character. */
  lemma LowerAppend(a: string, b: string)
    ensures Lower(a + b) == Lower(a) + Lower(b)
  {
    var l := Lower(a + b);
    forall i | 0 <= i < |a + b| ensures l[i] == (Lower(a) + Lower(b))[i] {
      if i < |a| {
        assert (a + b)[i] == a[i];
      } else {
        assert (a + b)[i] == b[i - |a|];
      }
    }
  }

  /** Lower-casing changes nothing in a text without capital letters. */
  lemma LowerUnchanged(s: string)
    requires forall i :: 0 <= i < |s| ==> !('A' <= s[i] <= 'Z')
    ensures Lower(s) == s
  {
  }
}
