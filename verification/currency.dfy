/** Currency rendering (`FormatVND`): a stored price is in thousands of đồng;
    it is shown as the digits of its magnitude times 1000, grouped by three
    with `.`, followed by " ₫". */
module Currency {
  import opened Wrappers
  import opened Text
  import opened Decimal

  const DongSuffix: string := " ₫"

  function Abs(x: int): nat {
    if x < 0 then -x else x
  }

  /** Reference definition of digit grouping: the last three characters form a
      group, and whatever precedes them is grouped the same way. */
  function GroupThousands(d: string): (g: string) {
    if |d| <= 3 then d else GroupThousands(d[..|d| - 3]) + "." + d[|d| - 3..]
  }

  /** The grouped shape, position by position: a `.` stands exactly where the
      distance to the end is a multiple of four, every other character is a
      digit, and the length is not a multiple of four -- so the first group
      has one to three digits, every later group has exactly three, and no `.`
      comes first or last. */
  predicate Grouped(g: string) {
    && |g| > 0
    && |g| % 4 != 0
    && (forall k :: 0 <= k < |g| ==> (g[k] == '.' <==> (|g| - k) % 4 == 0))
    && (forall k :: 0 <= k < |g| && g[k] != '.' ==> IsDigit(g[k]))
  }

  /** Grouping any digit string gives the grouped shape, with one separator
      per complete group after the first. */
  lemma {:induction false} GroupThousandsShape(d: string)
    requires IsDigits(d)
    ensures Grouped(GroupThousands(d))
    ensures |GroupThousands(d)| == |d| + (|d| - 1) / 3
  {
    if |d| > 3 {
      var p := d[..|d| - 3];
      GroupThousandsShape(p);
      var gp := GroupThousands(p);
      var g := gp + "." + d[|d| - 3..];
      assert |g| == |gp| + 4;
      forall k | 0 <= k < |g|
        ensures g[k] == '.' <==> (|g| - k) % 4 == 0
        ensures g[k] != '.' ==> IsDigit(g[k])
      {
        if k < |gp| {
          assert g[k] == gp[k];
          assert (|g| - k) % 4 == (|gp| - k) % 4;
        } else if k > |gp| {
          assert g[k] == d[|d| - 3 + (k - |gp| - 1)];
        }
      }
    }
  }

  /** Deleting the separators gives back the digits: grouping only inserts `.`. */
  lemma {:induction false} GroupThousandsUngroup(d: string)
    requires Lacks(d, '.')
    ensures Without(GroupThousands(d), '.') == d
  {
    if |d| <= 3 {
      WithoutAbsent(d, '.');
    } else {
      var p := d[..|d| - 3];
      var t := d[|d| - 3..];
      GroupThousandsUngroup(p);
      WithoutConcat(GroupThousands(p) + ".", t, '.');
      WithoutConcat(GroupThousands(p), ".", '.');
      WithoutAbsent(t, '.');
      assert p + t == d;
    }
  }

  /** Putting one more character in front of a string either opens a new group
      (when the string already ends in complete groups) or extends its first
      group. This is the step of the right-to-left loop in `FormatVND`. */
  lemma {:induction false} GroupThousandsCons(x: char, s: string)
    ensures GroupThousands([x] + s)
         == [x] + (if |s| > 0 && |s| % 3 == 0 then "." else "") + GroupThousands(s)
    decreases |s|
  {
    if |s| > 3 {
      var xs := [x] + s;
      assert xs[..|xs| - 3] == [x] + s[..|s| - 3];
      assert xs[|xs| - 3..] == s[|s| - 3..];
      GroupThousandsCons(x, s[..|s| - 3]);
    }
  }

  /** The rendering `FormatVND` produces. */
  function FormatVND(n: int): (r: string) {
    GroupThousands(Digits(Abs(n * 1000))) + DongSuffix
  }

  /** The separator owed after `count` digits have been written, if more follow. */
  function Separator(count: nat): string {
    if count > 0 && count % 3 == 0 then "." else ""
  }

  /** One step of the backwards writer: the digit at `i` follows the separator
      owed for the `|s| - 1 - i` digits to its right. */
  lemma BackwardsStep(s: string, i: nat)
    requires i < |s|
    ensures Reverse(GroupThousands(s[i..]))
         == Reverse(GroupThousands(s[i + 1..])) + Separator(|s| - 1 - i) + [s[i]]
  {
    var x := s[i];
    var rest := s[i + 1..];
    var dot := Separator(|s| - 1 - i);
    assert s[i..] == [x] + rest;
    GroupThousandsCons(x, rest);
    assert GroupThousands(s[i..]) == ([x] + dot) + GroupThousands(rest);
    ReverseConcat([x] + dot, GroupThousands(rest));
    ReverseConcat([x], dot);
    assert Reverse([x]) == [x];
    assert Reverse(dot) == dot;
  }

  /** The backwards-writing loop of `FormatVND`: write the digits from the last to the
      first, with a `.` after every third one unless it was the first digit.
      The result is the grouping read backwards. */
  method WriteGroupedBackwards(s: string) returns (rev: string)
    ensures rev == Reverse(GroupThousands(s))
  {
    rev := "";
    var count := 0;
    var i := |s| - 1;
    while i >= 0
      invariant -1 <= i < |s|
      invariant count == |s| - 1 - i
      invariant rev == Reverse(GroupThousands(s[i + 1..])) + (if i >= 0 then Separator(count) else "")
    {
      BackwardsStep(s, i);
      rev := rev + [s[i]];
      assert rev == Reverse(GroupThousands(s[i..]));
      count := count + 1;
      if count % 3 == 0 && i != 0 {
        rev := rev + ".";
      }
      i := i - 1;
    }
    assert s[0..] == s;
  }

  /** The swap loop of `FormatVND`: reverse the runes in place by swapping
      from both ends towards the middle. */
  method ReverseRunes(rev: string) returns (runes: string)
    ensures runes == Reverse(rev)
  {
    runes := rev;
    if |runes| == 0 {
      return;
    }
    var lo, hi := 0, |runes| - 1;
    while lo < hi
      invariant 0 <= lo <= hi + 1 <= |runes| == |rev|
      invariant lo + hi == |rev| - 1
      invariant forall k :: 0 <= k < lo || hi < k < |rev| ==> runes[k] == rev[|rev| - 1 - k]
      invariant forall k :: lo <= k <= hi ==> runes[k] == rev[k]
    {
      ReverseIndex(rev, lo);
      ReverseIndex(rev, hi);
      runes := runes[lo := runes[hi]][hi := runes[lo]];
      lo, hi := lo + 1, hi - 1;
    }
    forall k | 0 <= k < |rev|
      ensures runes[k] == Reverse(rev)[k]
    {
      ReverseIndex(rev, k);
    }
  }

  /** `FormatVND` as written: scale by 1000, take the magnitude, write its
      digits backwards with separators, reverse, and append " ₫". */
  method FormatVNDByReversal(n: int) returns (out: string)
    ensures out == FormatVND(n)
  {
    var m := n * 1000;
    if m < 0 {
      m := m * -1;
    }
    var s := Digits(m);
    var rev := WriteGroupedBackwards(s);
    var runes := ReverseRunes(rev);
    ReverseReverse(GroupThousands(s));
    out := runes + DongSuffix;
  }

  /** No character other than digits and `.` occurs in a grouped string. */
  lemma GroupedLacks(g: string, c: char)
    requires Grouped(g)
    requires c != '.' && !IsDigit(c)
    ensures Lacks(g, c)
  {
  }

  /** The digit and grouping promise: `FormatVND(n)` is a grouped string
      followed by " ₫", and deleting its separators leaves the decimal digits of
      |n| * 1000 (for example 5000 renders as "5.000.000 ₫"). */
  lemma FormatVNDShape(n: int)
    ensures var r := FormatVND(n);
      && |r| > |DongSuffix|
      && r == r[..|r| - |DongSuffix|] + DongSuffix
      && Grouped(r[..|r| - |DongSuffix|])
      && Without(r[..|r| - |DongSuffix|], '.') == Digits(Abs(n) * 1000)
  {
    var d := Digits(Abs(n * 1000));
    GroupThousandsShape(d);
    GroupThousandsUngroup(d);
    var r := FormatVND(n);
    assert r[..|r| - |DongSuffix|] == GroupThousands(d);
  }

  /** The sign is dropped: a price and its negation render alike, and no
      rendering contains a minus sign. */
  lemma FormatVNDIgnoresSign(n: int)
    ensures FormatVND(-n) == FormatVND(n)
    ensures Lacks(FormatVND(n), '-')
    ensures Lacks(FormatVND(n), '\n')
  {
    assert -n * 1000 == -(n * 1000);
    assert Abs(-n * 1000) == Abs(n * 1000);
    FormatVNDShape(n);
    var r := FormatVND(n);
    var g := r[..|r| - |DongSuffix|];
    GroupedLacks(g, '-');
    GroupedLacks(g, '\n');
  }

  /** Reads a rendered amount back: the text must end in " ₫", and what is
      left after deleting `.` must be digits denoting a whole number of
      thousands. */
  function DecodeVND(s: string): Option<nat> {
    if |s| < |DongSuffix| || s[|s| - |DongSuffix|..] != DongSuffix then None
    else
      var t := Without(s[..|s| - |DongSuffix|], '.');
      if IsDigits(t) && Value(t) % 1000 == 0 then Some(Value(t) / 1000) else None
  }

  /** Decoding a rendering gives back the magnitude of the price. */
  lemma DecodeFormatVND(n: int)
    ensures DecodeVND(FormatVND(n)) == Some(Abs(n))
  {
    FormatVNDShape(n);
    var r := FormatVND(n);
    assert r[|r| - |DongSuffix|..] == DongSuffix;
    var m := Abs(n) * 1000;
    assert Value(Digits(m)) == m;
    assert m % 1000 == 0 && m / 1000 == Abs(n);
  }

  lemma DigitsExample()
    ensures Digits(5000000) == "5000000"
  {
    assert Digits(5) == "5";
    assert Digits(50) == "50";
    assert Digits(500) == "500";
    assert Digits(5000) == "5000";
    assert Digits(50000) == "50000";
    assert Digits(500000) == "500000";
  }

  lemma GroupExample()
    ensures GroupThousands("5000000") == "5.000.000"
  {
    assert "5000000"[..4] == "5000" && "5000000"[4..] == "000";
    assert "5000"[..1] == "5" && "5000"[1..] == "000";
  }

  /** The worked example: 5000 thousand đồng is five million đồng. */
  lemma FormatVNDExample()
    ensures FormatVND(5000) == "5.000.000 ₫"
  {
    assert Abs(5000 * 1000) == 5000000;
    DigitsExample();
    GroupExample();
  }
}
