/** Price-cell parsing: Go's `strconv.ParseInt(s, 10, 64)` (and the
    `ParseUint` it delegates to), and `convertToInt64`, which deletes every
    thousands separator `,` before parsing. */
module IntParse {
  import opened Wrappers
  import opened Text
  import opened Decimal

  /** The two `strconv.NumError` causes: `ErrSyntax` and `ErrRange`. */
  datatype NumError = ErrSyntax | ErrRange

  const MaxUint64: nat := 0xFFFF_FFFF_FFFF_FFFF
  /** `1 << 63`: one past the largest int64, and the magnitude of the smallest. */
  const Int64Cutoff: nat := 0x8000_0000_0000_0000

  predicate InInt64(v: int) {
    -(Int64Cutoff as int) <= v < Int64Cutoff
  }

  /** A base-10 integer literal as `ParseInt` accepts it: an optional `+` or
      `-` followed by one or more ASCII digits (no underscores, no spaces). */
  predicate IsIntLiteral(s: string) {
    |s| > 0 && (if s[0] == '+' || s[0] == '-' then IsDigits(s[1..]) else IsDigits(s))
  }

  /** The integer an integer literal denotes. */
  function LiteralValue(s: string): int
    requires IsIntLiteral(s)
  {
    if s[0] == '-' then -(Value(s[1..]) as int)
    else if s[0] == '+' then Value(s[1..])
    else Value(s)
  }

  /** The digit loop of `ParseUint` with base 10 and bit size 64, resumed at
      index `i` with the value `n` read so far: a non-digit is a syntax error,
      and a value that would exceed 2^64 - 1 is a range error at the moment it
      would overflow, before any later character is looked at. */
  function ParseUintFrom(s: string, i: nat, n: nat): (r: Result<nat, NumError>)
    requires i <= |s|
    requires n <= MaxUint64
    ensures r.Ok? ==> r.value <= MaxUint64
    decreases |s| - i
  {
    if i == |s| then Ok(n)
    else if !IsDigit(s[i]) then Err(ErrSyntax)
    else if n >= MaxUint64 / 10 + 1 then Err(ErrRange)
    else
      var n1 := n * 10 + DigitValue(s[i]);
      if n1 > MaxUint64 then Err(ErrRange) else ParseUintFrom(s, i + 1, n1)
  }

  /** `strconv.ParseUint(s, 10, 64)`. */
  function ParseUint64(s: string): (r: Result<nat, NumError>) {
    if s == [] then Err(ErrSyntax) else ParseUintFrom(s, 0, 0)
  }

  /** The digit loop succeeds exactly when the rest of the string is digits and
      the whole number fits in 64 unsigned bits, and then yields that number. */
  lemma {:induction false} ParseUintFromSpec(s: string, i: nat, n: nat)
    requires i <= |s|
    requires forall k :: 0 <= k < i ==> IsDigit(s[k])
    requires n == Value(s[..i]) && n <= MaxUint64
    ensures ParseUintFrom(s, i, n).Ok? <==> (forall k :: i <= k < |s| ==> IsDigit(s[k])) && Value(s) <= MaxUint64
    ensures ParseUintFrom(s, i, n).Ok? ==> ParseUintFrom(s, i, n).value == Value(s)
    decreases |s| - i
  {
    if i == |s| {
      assert s[..i] == s;
    } else if !IsDigit(s[i]) {
    } else {
      var n1 := n * 10 + DigitValue(s[i]);
      assert s[..i + 1][..i] == s[..i];
      assert Value(s[..i + 1]) == n1;
      if n >= MaxUint64 / 10 + 1 || n1 > MaxUint64 {
        assert n1 > MaxUint64;
        if forall k :: i <= k < |s| ==> IsDigit(s[k]) {
          ValuePrefix(s, i + 1);
        }
      } else {
        ParseUintFromSpec(s, i + 1, n1);
      }
    }
  }

  lemma ParseUint64Spec(s: string)
    ensures ParseUint64(s).Ok? <==> IsDigits(s) && Value(s) <= MaxUint64
    ensures ParseUint64(s).Ok? ==> ParseUint64(s).value == Value(s)
  {
    if s != [] {
      assert s[..0] == [];
      ParseUintFromSpec(s, 0, 0);
    }
  }

  /** `strconv.ParseInt(s, 10, 64)`: succeeds exactly on an integer literal
      whose value fits in 64 signed bits, and returns that value. */
  function ParseInt64(s: string): (r: Result<int, NumError>)
    ensures r.Ok? <==> IsIntLiteral(s) && InInt64(LiteralValue(s))
    ensures r.Ok? ==> r.value == LiteralValue(s)
  {
    if s == [] then Err(ErrSyntax)
    else
      var neg := s[0] == '-';
      var body := if s[0] == '+' || s[0] == '-' then s[1..] else s;
      ParseUint64Spec(body);
      match ParseUint64(body)
      case Err(e) => Err(e)
      case Ok(un) =>
        if !neg && un >= Int64Cutoff then Err(ErrRange)
        else if neg && un > Int64Cutoff then Err(ErrRange)
        else Ok(if neg then -(un as int) else un)
  }

  /** `convertToInt64`: delete every `,` and parse the rest as a base-10 int64.
      It succeeds exactly when the comma-free text is an in-range integer
      literal, and then returns the value of that literal. */
  function ConvertToInt64(s: string): (r: Result<int, NumError>)
    ensures r.Ok? <==> IsIntLiteral(Without(s, ',')) && InInt64(LiteralValue(Without(s, ',')))
    ensures r.Ok? ==> r.value == LiteralValue(Without(s, ','))
  {
    ParseInt64(Without(s, ','))
  }

  /** Thousands separators make no difference: a cell and its comma-free form
      parse to the same outcome. */
  lemma ConvertIgnoresSeparators(s: string)
    ensures ConvertToInt64(Without(s, ',')) == ConvertToInt64(s)
  {
    WithoutIdempotent(s, ',');
  }

  lemma WithoutSeparatedExample()
    ensures Without("1,234", ',') == Without("1234", ',') == "1234"
  {
    var t := "1234";
    assert Without(t[3..], ',') == t[3..];
    assert Without(t[2..], ',') == t[2..];
    assert Without(t[1..], ',') == t[1..];
    assert "1,234"[2..] == t[1..];
  }

  lemma ValueExample()
    ensures IsIntLiteral("1234") && LiteralValue("1234") == 1234
  {
    var t := "1234";
    assert t[..3] == "123";
    assert "123"[..2] == "12";
    assert "12"[..1] == "1";
    assert Value(t) == 1234;
    assert t[0] == '1';
  }

  /** For instance `"1,234"` and `"1234"` both read as 1234 ... */
  lemma ConvertSeparatedExample()
    ensures ConvertToInt64("1,234") == ConvertToInt64("1234") == Ok(1234)
  {
    WithoutSeparatedExample();
    ValueExample();
    var r := ParseInt64("1234");
    assert r.Ok? && r.value == 1234;
  }

  /** ... while a `.` separator is a syntax error. */
  lemma ConvertDottedExample()
    ensures ConvertToInt64("1.234") == Err(ErrSyntax)
  {
    var t := "1.234";
    assert Without(t[4..], ',') == t[4..];
    assert Without(t[3..], ',') == t[3..];
    assert Without(t[2..], ',') == t[2..];
    assert Without(t[1..], ',') == t[1..];
    assert Without(t, ',') == t;
    assert !IsDigit(t[1]);
    assert ParseUintFrom(t, 1, 1) == Err(ErrSyntax);
  }
}
