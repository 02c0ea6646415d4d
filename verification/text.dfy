/** String helpers from Go's `strings` package that the scraper relies on:
    `ReplaceAll(s, c, "")`, `TrimSpace`, and reversing a sequence of runes. */
module Text {

  /** No character of `s` is `c`. */
  predicate Lacks(s: string, c: char) {
    forall k :: 0 <= k < |s| ==> s[k] != c
  }

  lemma LacksConcat(a: string, b: string, c: char)
    ensures Lacks(a + b, c) <==> Lacks(a, c) && Lacks(b, c)
  {
    if Lacks(a, c) && Lacks(b, c) {
      forall k | 0 <= k < |a + b|
        ensures (a + b)[k] != c
      {
        if k >= |a| {
          assert (a + b)[k] == b[k - |a|];
        }
      }
    }
    if Lacks(a + b, c) {
      forall k | 0 <= k < |a|
        ensures a[k] != c
      {
        assert (a + b)[k] == a[k];
      }
      forall k | 0 <= k < |b|
        ensures b[k] != c
      {
        assert (a + b)[|a| + k] == b[k];
      }
    }
  }

  /** `strings.ReplaceAll(s, string(c), "")`: `s` with every `c` deleted. */
  function Without(s: string, c: char): (r: string)
    ensures |r| <= |s|
  {
    if s == [] then []
    else if s[0] == c then Without(s[1..], c)
    else [s[0]] + Without(s[1..], c)
  }

  /** Exactly the occurrences of `c` are deleted: the text shrinks by their
      number and by nothing else. */
  lemma {:induction false} WithoutCount(s: string, c: char)
    ensures |Without(s, c)| == |s| - multiset(s)[c]
  {
    if s != [] {
      assert s == [s[0]] + s[1..];
      assert multiset(s) == multiset([s[0]]) + multiset(s[1..]);
      WithoutCount(s[1..], c);
    }
  }

  /** Deleting `c` from one character removes it when it is `c` and keeps it
      otherwise; with `WithoutConcat` this fixes `Without` on every string:
      every `c` goes, every other character stays, in order. */
  lemma WithoutSingle(x: char, c: char)
    ensures Without([x], c) == (if x == c then [] else [x])
  {
  }

  /** No `c` is left after deleting `c`. */
  lemma {:induction false} WithoutLacks(s: string, c: char)
    ensures Lacks(Without(s, c), c)
  {
    if s != [] {
      WithoutLacks(s[1..], c);
      if s[0] != c {
        LacksConcat([s[0]], Without(s[1..], c), c);
      }
    }
  }

  /** Deleting a character distributes over concatenation. */
  lemma {:induction false} WithoutConcat(a: string, b: string, c: char)
    ensures Without(a + b, c) == Without(a, c) + Without(b, c)
  {
    if a != [] {
      assert (a + b)[1..] == a[1..] + b;
      WithoutConcat(a[1..], b, c);
    } else {
      assert a + b == b;
    }
  }

  /** A string that has no `c` is left as it is ... */
  lemma {:induction false} WithoutAbsent(s: string, c: char)
    requires Lacks(s, c)
    ensures Without(s, c) == s
  {
    if s != [] {
      WithoutAbsent(s[1..], c);
    }
  }

  /** ... so deleting a character twice is the same as deleting it once. */
  lemma WithoutIdempotent(s: string, c: char)
    ensures Without(Without(s, c), c) == Without(s, c)
  {
    WithoutLacks(s, c);
    WithoutAbsent(Without(s, c), c);
  }

  /** Go's `unicode.IsSpace`: the Latin-1 spaces plus the characters with the
      Unicode White_Space property. */
  predicate IsSpace(ch: char) {
    || ch == ' ' || ch == '\t' || ch == '\n' || ch == '\r'
    || ch == '\U{000B}' || ch == '\U{000C}' || ch == '\U{0085}' || ch == '\U{00A0}'
    || ch == '\U{1680}' || ('\U{2000}' <= ch <= '\U{200A}')
    || ch == '\U{2028}' || ch == '\U{2029}' || ch == '\U{202F}'
    || ch == '\U{205F}' || ch == '\U{3000}'
  }

  predicate AllSpace(s: string) {
    forall k :: 0 <= k < |s| ==> IsSpace(s[k])
  }

  /** `s` neither starts nor ends with white space. */
  predicate Trimmed(s: string) {
    s == [] || (!IsSpace(s[0]) && !IsSpace(s[|s| - 1]))
  }

  /** Leading white space removed: `r` is the suffix of `s` after a run of spaces. */
  function TrimLeft(s: string): (r: string)
    ensures |r| <= |s| && r == s[|s| - |r|..]
    ensures r == [] || !IsSpace(r[0])
  {
    if s != [] && IsSpace(s[0]) then TrimLeft(s[1..]) else s
  }

  /** Trailing white space removed: `r` is the prefix of `s` before a run of spaces. */
  function TrimRight(s: string): (r: string)
    ensures |r| <= |s| && r == s[..|r|]
    ensures r == [] || !IsSpace(r[|r| - 1])
  {
    if s != [] && IsSpace(s[|s| - 1]) then TrimRight(s[..|s| - 1]) else s
  }

  /** What `TrimLeft` removes is white space. */
  lemma {:induction false} TrimLeftRemovesSpace(s: string)
    ensures AllSpace(s[..|s| - |TrimLeft(s)|])
  {
    if s != [] && IsSpace(s[0]) {
      TrimLeftRemovesSpace(s[1..]);
      var n := |s| - |TrimLeft(s)|;
      assert s[..n] == [s[0]] + s[1..][..n - 1];
    }
  }

  /** What `TrimRight` removes is white space. */
  lemma {:induction false} TrimRightRemovesSpace(s: string)
    ensures AllSpace(s[|TrimRight(s)|..])
  {
    if s != [] && IsSpace(s[|s| - 1]) {
      var p := s[..|s| - 1];
      TrimRightRemovesSpace(p);
      var n := |TrimRight(s)|;
      assert s[n..] == p[n..] + [s[|s| - 1]];
    }
  }

  /** `strings.TrimSpace`: `s` is `r` surrounded by white space only, and `r` has
      no white space at either end. */
  function Trim(s: string): (r: string)
    ensures Trimmed(r)
    ensures |r| <= |s|
  {
    TrimRight(TrimLeft(s))
  }

  /** `s` is `r` at position `i` with only white space before and after it. */
  predicate Surrounds(s: string, i: nat, r: string) {
    && i + |r| <= |s|
    && s[i..i + |r|] == r
    && AllSpace(s[..i])
    && AllSpace(s[i + |r|..])
  }

  /** What `Trim` removes is white space only: the input is its trimmed text
      with white space before and after. */
  lemma TrimInfix(s: string)
    ensures Surrounds(s, |s| - |TrimLeft(s)|, Trim(s))
  {
    var l := TrimLeft(s);
    TrimLeftRemovesSpace(s);
    TrimRightRemovesSpace(l);
    SurroundsBySteps(s, l, TrimRight(l));
  }

  /** A suffix after white space, then a prefix of it before white space. */
  lemma SurroundsBySteps(s: string, l: string, r: string)
    requires |l| <= |s| && l == s[|s| - |l|..] && AllSpace(s[..|s| - |l|])
    requires |r| <= |l| && r == l[..|r|] && AllSpace(l[|r|..])
    ensures Surrounds(s, |s| - |l|, r)
  {
    var i := |s| - |l|;
    assert s[i..i + |r|] == r;
    assert s[i + |r|..] == l[|r|..];
  }

  /** Trimming a string that has no outer white space leaves it as it is. */
  lemma TrimOfTrimmed(s: string)
    requires Trimmed(s)
    ensures Trim(s) == s
  {
  }

  lemma TrimIdempotent(s: string)
    ensures Trim(Trim(s)) == Trim(s)
  {
    TrimOfTrimmed(Trim(s));
  }

  function Reverse<T>(s: seq<T>): (r: seq<T>)
    ensures |r| == |s|
  {
    if s == [] then [] else Reverse(s[1..]) + [s[0]]
  }

  /** Position `k` of the reversal holds position `|s| - 1 - k` of the original. */
  lemma {:induction false} ReverseIndex<T>(s: seq<T>, k: nat)
    requires k < |s|
    ensures Reverse(s)[k] == s[|s| - 1 - k]
  {
    if k < |s| - 1 {
      ReverseIndex(s[1..], k);
    }
  }

  lemma {:induction false} ReverseConcat<T>(a: seq<T>, b: seq<T>)
    ensures Reverse(a + b) == Reverse(b) + Reverse(a)
  {
    if a == [] {
      assert a + b == b;
    } else {
      assert (a + b)[1..] == a[1..] + b;
      ReverseConcat(a[1..], b);
    }
  }

  lemma {:induction false} ReverseReverse<T>(s: seq<T>)
    ensures Reverse(Reverse(s)) == s
  {
    if s != [] {
      ReverseConcat(Reverse(s[1..]), [s[0]]);
      ReverseReverse(s[1..]);
      assert Reverse([s[0]]) == [s[0]];
    }
  }
}
