/**
 * The few java.lang.String and java.lang.Integer behaviours the pipeline relies on:
 * `trim`, blankness, ASCII case mapping, decimal rendering of integers (`%d`),
 * `Integer.parseInt`, string concatenation with `null`, and `String.hashCode`.
 */
module Text {
  import opened Wrappers

  const MinInt32: int := -0x8000_0000
  const MaxInt32: int := 0x7FFF_FFFF

  /** `String.valueOf` of a nullable string, as used by `+` and `%s`: null renders as "null". */
  function JavaString(s: Option<string>): (r: string)
    ensures s.Some? ==> r == s.value
    ensures s.None? ==> r == "null"
  {
    s.GetOr("null")
  }

  // ---------------------------------------------------------------------------
  // trim and blankness

  /** `String.trim` strips every leading and trailing char at or below U+0020. */
  predicate IsTrimmable(c: char) {
    c <= ' '
  }

  function TrimStart(s: string): (r: string)
    ensures |r| <= |s|
  {
    if |s| > 0 && IsTrimmable(s[0]) then TrimStart(s[1..]) else s
  }

  function TrimEnd(s: string): (r: string)
    ensures |r| <= |s|
  {
    if |s| > 0 && IsTrimmable(s[|s| - 1]) then TrimEnd(s[..|s| - 1]) else s
  }

  /** `TrimStart` removes exactly the leading trimmable chars. */
  lemma {:induction false} TrimStartFacts(s: string)
    ensures TrimStart(s) == s[|s| - |TrimStart(s)|..]
    ensures forall i :: 0 <= i < |s| - |TrimStart(s)| ==> IsTrimmable(s[i])
    ensures TrimStart(s) == [] || !IsTrimmable(TrimStart(s)[0])
  {
    if |s| > 0 && IsTrimmable(s[0]) {
      TrimStartFacts(s[1..]);
    }
  }

  /** `TrimEnd` removes exactly the trailing trimmable chars. */
  lemma {:induction false} TrimEndFacts(s: string)
    ensures TrimEnd(s) == s[..|TrimEnd(s)|]
    ensures forall i :: |TrimEnd(s)| <= i < |s| ==> IsTrimmable(s[i])
    ensures TrimEnd(s) == [] || !IsTrimmable(TrimEnd(s)[|TrimEnd(s)| - 1])
  {
    if |s| > 0 && IsTrimmable(s[|s| - 1]) {
      TrimEndFacts(s[..|s| - 1]);
    }
  }

  /** `String.trim`: drop the leading, then the trailing, chars at or below U+0020. */
  function Trim(s: string): (r: string)
    ensures |r| <= |s|
  {
    TrimEnd(TrimStart(s))
  }

  /** `trim` keeps the contiguous slice of `s` between its first and last non-trimmable chars. */
  lemma TrimIsSlice(s: string)
    ensures exists lo, hi ::
              && 0 <= lo <= hi <= |s| && Trim(s) == s[lo..hi]
              && (forall i :: 0 <= i < lo ==> IsTrimmable(s[i]))
              && (forall i :: hi <= i < |s| ==> IsTrimmable(s[i]))
    ensures Trim(s) == [] || (!IsTrimmable(Trim(s)[0]) && !IsTrimmable(Trim(s)[|Trim(s)| - 1]))
  {
    var a := TrimStart(s);
    var r := TrimEnd(a);
    TrimStartFacts(s);
    TrimEndFacts(a);
    assert r == s[|s| - |a|..|s| - |a| + |r|];
    assert forall i :: |s| - |a| + |r| <= i < |s| ==> s[i] == a[i - (|s| - |a|)];
  }

  predicate AllTrimmable(s: string) {
    forall i :: 0 <= i < |s| ==> IsTrimmable(s[i])
  }

  /**
   * `value == null || value.trim().isEmpty()`, stated through the chars `trim` removes;
   * `BlankIffTrimEmpty` shows the two readings agree.
   */
  predicate IsBlank(s: Option<string>) {
    s.None? || AllTrimmable(s.value)
  }

  /** A present string is blank exactly when `trim` leaves nothing of it. */
  lemma BlankIffTrimEmpty(s: string)
    ensures IsBlank(Some(s)) <==> Trim(s) == []
  {
    var r := Trim(s);
    TrimIsSlice(s);
    var lo, hi :| 0 <= lo <= hi <= |s| && r == s[lo..hi]
                  && (forall i :: 0 <= i < lo ==> IsTrimmable(s[i]))
                  && (forall i :: hi <= i < |s| ==> IsTrimmable(s[i]));
    if r != [] {
      assert s[lo] == r[0] && !IsTrimmable(s[lo]);
    } else {
      assert lo == hi;
    }
  }

  /** A string that neither starts nor ends with a trimmable char is its own trim. */
  lemma TrimOfUntrimmed(s: string)
    requires s == [] || (!IsTrimmable(s[0]) && !IsTrimmable(s[|s| - 1]))
    ensures Trim(s) == s
  {
    assert TrimStart(s) == s;
    assert TrimEnd(s) == s;
  }

  /** Trimming twice is trimming once. */
  lemma TrimIsIdempotent(s: string)
    ensures Trim(Trim(s)) == Trim(s)
  {
    TrimIsSlice(s);
    TrimOfUntrimmed(Trim(s));
  }

  /** `String.join(sep, parts)`: the parts in order with `sep` between neighbours. */
  function Join(sep: string, parts: seq<string>): (r: string)
    ensures |parts| == 0 ==> r == ""
    ensures |parts| == 1 ==> r == parts[0]
    ensures |parts| >= 1 ==> |r| >= |parts[0]| && r[..|parts[0]|] == parts[0]
  {
    if |parts| == 0 then ""
    else if |parts| == 1 then parts[0]
    else parts[0] + sep + Join(sep, parts[1..])
  }

  // ---------------------------------------------------------------------------
  // ASCII case mapping (the values compared here are ASCII enum and header names)

  function UpperChar(c: char): char {
    if 'a' <= c <= 'z' then (c as int - 32) as char else c
  }

  function Upper(s: string): (r: string)
  {
    seq(|s|, i requires 0 <= i < |s| => UpperChar(s[i]))
  }

  /** `String.equalsIgnoreCase` restricted to ASCII case pairs: same length, chars equal after upper-casing. */
  predicate EqualsIgnoreCase(a: string, b: string) {
    |a| == |b| && forall i :: 0 <= i < |a| ==> UpperChar(a[i]) == UpperChar(b[i])
  }

  /** Comparing ignoring case is comparing the upper-cased strings. */
  lemma EqualsIgnoreCaseIff(a: string, b: string)
    ensures EqualsIgnoreCase(a, b) <==> Upper(a) == Upper(b)
  {
    var ua, ub := Upper(a), Upper(b);
    assert |ua| == |a| && forall i :: 0 <= i < |a| ==> ua[i] == UpperChar(a[i]);
    assert |ub| == |b| && forall i :: 0 <= i < |b| ==> ub[i] == UpperChar(b[i]);
    if ua == ub {
      assert forall i :: 0 <= i < |a| ==> ua[i] == ub[i];
    }
    if EqualsIgnoreCase(a, b) {
      assert forall i :: 0 <= i < |a| ==> ua[i] == ub[i];
      assert ua == ub;
    }
  }

  // ---------------------------------------------------------------------------
  // decimal digits

  predicate IsDigit(c: char) {
    '0' <= c <= '9'
  }

  predicate AllDigits(s: string) {
    forall i :: 0 <= i < |s| ==> IsDigit(s[i])
  }

  function DigitChar(d: nat): (c: char)
    requires d < 10
    ensures IsDigit(c) && c as int - '0' as int == d
  {
    ('0' as int + d) as char
  }

  /** The value of a string of decimal digits, most significant first. */
  function DigitsValue(s: string): nat
    requires AllDigits(s)
  {
    if |s| == 0 then 0
    else DigitsValue(s[..|s| - 1]) * 10 + (s[|s| - 1] as int - '0' as int)
  }

  /** The `%d` / `Long.toString` rendering of a non-negative integer. */
  function NatToString(n: nat): (r: string)
    ensures |r| >= 1 && AllDigits(r)
    ensures r[0] == '0' ==> n == 0
  {
    if n < 10 then [DigitChar(n)] else NatToString(n / 10) + [DigitChar(n % 10)]
  }

  /** The `%d` / `Long.toString` rendering of any integer: a minus sign, then the digits. */
  function IntToString(i: int): (r: string)
    ensures |r| >= 1
    ensures i < 0 <==> r[0] == '-'
  {
    if i < 0 then "-" + NatToString(-i) else NatToString(i)
  }

  /** Reading back the digits of a rendered number gives the number. */
  lemma {:induction false} NatToStringRoundTrip(n: nat)
    ensures DigitsValue(NatToString(n)) == n
  {
    if n >= 10 {
      var s := NatToString(n);
      var prefix := NatToString(n / 10);
      assert s == prefix + [DigitChar(n % 10)];
      assert s[..|s| - 1] == prefix;
      NatToStringRoundTrip(n / 10);
    }
  }

  lemma NatToStringInjective(a: nat, b: nat)
    ensures NatToString(a) == NatToString(b) ==> a == b
  {
    NatToStringRoundTrip(a);
    NatToStringRoundTrip(b);
  }

  /** Distinct integers render to distinct decimal strings. */
  lemma IntToStringInjective(a: int, b: int)
    ensures IntToString(a) == IntToString(b) ==> a == b
  {
    if IntToString(a) == IntToString(b) {
      if a < 0 && b < 0 {
        assert IntToString(a)[1..] == NatToString(-a);
        assert IntToString(b)[1..] == NatToString(-b);
        NatToStringInjective(-a, -b);
      } else if a >= 0 && b >= 0 {
        NatToStringInjective(a, b);
      }
    }
  }

  /** A rendered integer has no surrounding blanks, so `trim` leaves it unchanged. */
  lemma IntToStringIsTrimmed(i: int)
    ensures Trim(IntToString(i)) == IntToString(i)
  {
    var s := IntToString(i);
    if i < 0 {
      assert s[|s| - 1] == NatToString(-i)[|NatToString(-i)| - 1];
    }
    TrimOfUntrimmed(s);
  }

  /**
   * `Integer.parseInt`: an optional leading '-' or '+', then at least one digit,
   * and the value must fit in 32 bits; anything else throws NumberFormatException (None).
   */
  function ParseInt(s: string): (r: Option<int>)
    ensures r.Some? ==> MinInt32 <= r.value <= MaxInt32
  {
    if |s| == 0 then None
    else
      var digits := if s[0] == '-' || s[0] == '+' then s[1..] else s;
      if |digits| == 0 || !AllDigits(digits) then None
      else
        var v: int := if s[0] == '-' then -(DigitsValue(digits) as int) else DigitsValue(digits);
        if MinInt32 <= v <= MaxInt32 then Some(v) else None
  }

  /** Every 32-bit integer survives rendering and re-parsing. */
  lemma ParseIntRoundTrip(i: int)
    requires MinInt32 <= i <= MaxInt32
    ensures ParseInt(IntToString(i)) == Some(i)
  {
    var s := IntToString(i);
    if i < 0 {
      assert s[1..] == NatToString(-i);
      NatToStringRoundTrip(-i);
    } else {
      NatToStringRoundTrip(i);
    }
  }

  // ---------------------------------------------------------------------------
  // String.hashCode

  const TwoTo32: int := 0x1_0000_0000

  /** The UTF-16 code units of a string: chars above U+FFFF become a surrogate pair. */
  function Utf16(s: string): (units: seq<int>)
    ensures |units| >= |s|
    ensures forall k :: 0 <= k < |units| ==> 0 <= units[k] < 0x1_0000
  {
    if |s| == 0 then []
    else
      var c := s[|s| - 1] as int;
      var tail := if c < 0x1_0000 then [c]
                  else [0xD800 + (c - 0x1_0000) / 0x400, 0xDC00 + (c - 0x1_0000) % 0x400];
      Utf16(s[..|s| - 1]) + tail
  }

  /** `String.length()`: the number of UTF-16 code units, two for each char above U+FFFF. */
  function JavaLength(s: string): nat {
    |Utf16(s)|
  }

  /** A string of chars within the Basic Multilingual Plane has one unit per char. */
  lemma {:induction false} JavaLengthOfBmp(s: string)
    requires forall k :: 0 <= k < |s| ==> s[k] as int < 0x1_0000
    ensures JavaLength(s) == |s|
  {
    if |s| > 0 {
      JavaLengthOfBmp(s[..|s| - 1]);
    }
  }

  /** Each char above U+FFFF adds a second unit: a supplementary char counts twice. */
  lemma JavaLengthOfSupplementary(c: char)
    requires c as int >= 0x1_0000
    ensures JavaLength([c]) == 2
  {
    assert [c][..0] == [];
    assert Utf16([c]) == Utf16([]) + [0xD800 + (c as int - 0x1_0000) / 0x400, 0xDC00 + (c as int - 0x1_0000) % 0x400];
  }

  /** The units of a concatenation are the units of its parts. */
  lemma {:induction false} Utf16Append(a: string, b: string)
    ensures Utf16(a + b) == Utf16(a) + Utf16(b)
    ensures JavaLength(a + b) == JavaLength(a) + JavaLength(b)
    decreases |b|
  {
    if |b| == 0 {
      assert a + b == a;
    } else {
      var b' := b[..|b| - 1];
      assert (a + b)[..|a + b| - 1] == a + b';
      assert (a + b)[|a + b| - 1] == b[|b| - 1];
      Utf16Append(a, b');
    }
  }

  /** `h = 31 * h + unit` over the code units, reduced modulo 2^32. */
  function HashUnits(units: seq<int>): (h: int)
    ensures 0 <= h < TwoTo32
  {
    if |units| == 0 then 0
    else (31 * HashUnits(units[..|units| - 1]) + units[|units| - 1]) % TwoTo32
  }

  /** `String.hashCode`: the 32-bit wrap-around polynomial hash, read as a signed int. */
  function HashCode(s: string): (h: int)
    ensures MinInt32 <= h <= MaxInt32
  {
    var u := HashUnits(Utf16(s));
    if u > MaxInt32 then u - TwoTo32 else u
  }

  function Pow31(n: nat): (p: int)
    ensures p >= 1
  {
    if n == 0 then 1 else 31 * Pow31(n - 1)
  }

  /** The documented formula `s[0]*31^(n-1) + s[1]*31^(n-2) + ... + s[n-1]`, without wrap-around. */
  function HashPolynomial(units: seq<int>): int {
    if |units| == 0 then 0 else units[0] * Pow31(|units| - 1) + HashPolynomial(units[1..])
  }

  /** Appending a unit multiplies the polynomial by 31 and adds the unit. */
  lemma {:induction false} HashPolynomialSnoc(units: seq<int>, x: int)
    ensures HashPolynomial(units + [x]) == 31 * HashPolynomial(units) + x
  {
    if |units| > 0 {
      assert (units + [x])[1..] == units[1..] + [x];
      HashPolynomialSnoc(units[1..], x);
      assert Pow31(|units|) == 31 * Pow31(|units| - 1);
      assert units[0] * Pow31(|units|) == 31 * (units[0] * Pow31(|units| - 1));
    } else {
      assert [x][1..] == [];
    }
  }

  /** Reducing before or after a multiply-and-add gives the same residue. */
  lemma MulAddMod(a: int, x: int)
    ensures (31 * (a % TwoTo32) + x) % TwoTo32 == (31 * a + x) % TwoTo32
  {
    var q := a / TwoTo32;
    assert a == q * TwoTo32 + a % TwoTo32;
    var y := 31 * (a % TwoTo32) + x;
    assert 31 * a + x == y + (31 * q) * TwoTo32;
    var d, r := y / TwoTo32, y % TwoTo32;
    assert y + (31 * q) * TwoTo32 == (d + 31 * q) * TwoTo32 + r;
  }

  /** The running hash is the documented polynomial reduced modulo 2^32. */
  lemma {:induction false} HashUnitsIsPolynomial(units: seq<int>)
    ensures HashUnits(units) == HashPolynomial(units) % TwoTo32
  {
    if |units| > 0 {
      var init, last := units[..|units| - 1], units[|units| - 1];
      HashUnitsIsPolynomial(init);
      MulAddMod(HashPolynomial(init), last);
      assert init + [last] == units;
      HashPolynomialSnoc(init, last);
    }
  }

  /** Two chars within the Basic Multilingual Plane are one unit each. */
  lemma Utf16OfPair(x: char, y: char)
    requires x as int < 0x1_0000 && y as int < 0x1_0000
    ensures Utf16([x, y]) == [x as int, y as int]
  {
    assert [x, y][..1] == [x] && [x][..0] == [];
    assert Utf16([x]) == Utf16([]) + [x as int];
  }

  /** The running hash of two 16-bit units: `31 * first + second`, with no wrap-around. */
  lemma HashUnitsOfPair(a: int, b: int)
    requires 0 <= a < 0x1_0000 && 0 <= b < 0x1_0000
    ensures HashUnits([a, b]) == 31 * a + b
  {
    assert [a, b][..1] == [a] && [a][..0] == [];
    assert HashUnits([a]) == a;
  }

  /** The hash of a two-char string within the Basic Multilingual Plane: `31 * first + second`. */
  lemma HashCodeOfPair(x: char, y: char)
    requires x as int < 0x1_0000 && y as int < 0x1_0000
    ensures HashCode([x, y]) == 31 * (x as int) + (y as int)
  {
    Utf16OfPair(x, y);
    HashUnitsOfPair(x as int, y as int);
  }

  /** The classic collision: "Aa" and "BB" hash alike (65 * 31 + 97 == 66 * 31 + 66 == 2112). */
  lemma HashCodeOfAaAndBB()
    ensures HashCode("Aa") == 2112 && HashCode("BB") == 2112
  {
    HashCodeOfPair('A', 'a');
    HashCodeOfPair('B', 'B');
  }
}
