/**
 * The few pieces of the Kotlin/JVM standard library that the app's string
 * logic relies on, written out so that their edge cases are explicit:
 * 32-bit `Int`, `Int.toString()`, `String.toIntOrNull()`, `String.hashCode()`
 * (Java's base-31 polynomial over UTF-16 code units, wrapping at 32 bits),
 * `Char.isWhitespace()`, `trim()`, `isBlank()` and `split(" ", limit = 2)`.
 */
module KotlinText {
  import opened Wrappers

  const INT_MIN: int := -0x8000_0000
  const INT_MAX: int := 0x7FFF_FFFF
  const TWO_32: int := 0x1_0000_0000

  /** The values of Kotlin's 32-bit `Int`. */
  predicate IsInt(i: int) {
    INT_MIN <= i <= INT_MAX
  }

  // ---------------------------------------------------------------------------
  // Whitespace, trim, isBlank

  /** `Char.isWhitespace()` on the JVM: `Character.isWhitespace || Character.isSpaceChar`. */
  predicate IsWhitespace(c: char) {
    var n := c as int;
    || 0x09 <= n <= 0x0D
    || 0x1C <= n <= 0x20
    || n == 0xA0 || n == 0x1680
    || 0x2000 <= n <= 0x200A
    || n == 0x2028 || n == 0x2029 || n == 0x202F || n == 0x205F || n == 0x3000
  }

  /** `String.isBlank()`: empty or whitespace only. */
  predicate IsBlank(s: string) {
    forall i | 0 <= i < |s| :: IsWhitespace(s[i])
  }

  /** No whitespace at either end (vacuous for the empty string). */
  predicate Trimmed(s: string) {
    s == [] || (!IsWhitespace(s[0]) && !IsWhitespace(s[|s| - 1]))
  }

  function TrimStart(s: string): (r: string)
    ensures |r| <= |s| && r == s[|s| - |r|..]
    ensures r == [] || !IsWhitespace(r[0])
    ensures forall i | 0 <= i < |s| - |r| :: IsWhitespace(s[i])
  {
    if s != [] && IsWhitespace(s[0]) then TrimStart(s[1..]) else s
  }

  function TrimEnd(s: string): (r: string)
    ensures |r| <= |s| && r == s[..|r|]
    ensures r == [] || !IsWhitespace(r[|r| - 1])
    ensures forall i | |r| <= i < |s| :: IsWhitespace(s[i])
  {
    if s != [] && IsWhitespace(s[|s| - 1]) then TrimEnd(s[..|s| - 1]) else s
  }

  /** `r` is what is left of `s` once a blank prefix and a blank suffix are cut off. */
  predicate BetweenBlanks(r: string, s: string) {
    exists i | 0 <= i <= |s| - |r| :: r == s[i..i + |r|] && IsBlank(s[..i]) && IsBlank(s[i + |r|..])
  }

  /**
   * `String.trim()`: the infix left once the whitespace at both ends is cut
   * off; it neither starts nor ends with whitespace, and what was cut off on
   * either side is all whitespace.
   */
  function Trim(s: string): (r: string)
    ensures Trimmed(r)
    ensures BetweenBlanks(r, s)
  {
    var t := TrimStart(s);
    InfixBetweenBlanks(s, t, TrimEnd(t));
    TrimEnd(t)
  }

  /** A prefix `r` of a suffix `t` of `s`, with only whitespace cut off, lies between blanks. */
  lemma InfixBetweenBlanks(s: string, t: string, r: string)
    requires |t| <= |s| && t == s[|s| - |t|..] && forall k | 0 <= k < |s| - |t| :: IsWhitespace(s[k])
    requires |r| <= |t| && r == t[..|r|] && forall k | |r| <= k < |t| :: IsWhitespace(t[k])
    ensures BetweenBlanks(r, s)
  {
    var i := |s| - |t|;
    BlankBefore(s, i);
    BlankAfter(t, |r|);
    assert t[|r|..] == s[i + |r|..];
    assert r == s[i..i + |r|];
  }

  lemma BlankBefore(s: string, i: int)
    requires 0 <= i <= |s| && forall k | 0 <= k < i :: IsWhitespace(s[k])
    ensures IsBlank(s[..i])
  {
    forall k | 0 <= k < i
      ensures IsWhitespace(s[..i][k])
    {
      assert s[..i][k] == s[k];
    }
  }

  lemma BlankAfter(s: string, i: int)
    requires 0 <= i <= |s| && forall k | i <= k < |s| :: IsWhitespace(s[k])
    ensures IsBlank(s[i..])
  {
    var tail := s[i..];
    forall k | 0 <= k < |tail|
      ensures IsWhitespace(tail[k])
    {
      assert tail[k] == s[i + k];
    }
  }

  lemma TrimStartKeeps(s: string)
    requires s == [] || !IsWhitespace(s[0])
    ensures TrimStart(s) == s
  {
  }

  lemma TrimEndKeeps(s: string)
    requires s == [] || !IsWhitespace(s[|s| - 1])
    ensures TrimEnd(s) == s
  {
  }

  lemma {:induction false} TrimStartOf(a: string, u: string)
    requires IsBlank(a) && (u == [] || !IsWhitespace(u[0]))
    ensures TrimStart(a + u) == u
  {
    if a == [] {
      assert a + u == u;
      TrimStartKeeps(u);
    } else {
      assert (a + u)[1..] == a[1..] + u;
      TrimStartOf(a[1..], u);
    }
  }

  lemma {:induction false} TrimEndOf(u: string, b: string)
    requires IsBlank(b) && (u == [] || !IsWhitespace(u[|u| - 1]))
    ensures TrimEnd(u + b) == u
  {
    if b == [] {
      assert u + b == u;
      TrimEndKeeps(u);
    } else {
      var p := u + b;
      assert p[..|p| - 1] == u + b[..|b| - 1];
      assert p[|p| - 1] == b[|b| - 1];
      TrimEndOf(u, b[..|b| - 1]);
    }
  }

  /**
   * `trim()` is determined by its contract: whatever trimmed text sits between
   * two runs of whitespace is what `trim()` returns.
   */
  lemma TrimOf(a: string, t: string, b: string)
    requires IsBlank(a) && IsBlank(b) && Trimmed(t)
    ensures Trim(a + t + b) == t
  {
    if t == [] {
      assert a + t + b == a + b;
      TrimStartOf(a + b, []);
      assert a + b + [] == a + b;
    } else {
      assert a + t + b == a + (t + b);
      TrimStartOf(a, t + b);
      TrimEndOf(t, b);
    }
  }

  /** Trimming a string that is already trimmed changes nothing. */
  lemma TrimOfTrimmed(s: string)
    requires Trimmed(s)
    ensures Trim(s) == s
  {
    TrimStartKeeps(s);
    TrimEndKeeps(s);
  }

  /** A leading blank is dropped by `trim()`. */
  lemma TrimLeadingSpace(s: string)
    requires Trimmed(s)
    ensures Trim(" " + s) == s
  {
    TrimOf(" ", s, []);
    assert " " + s + [] == " " + s;
  }

  /** A trailing blank is dropped by `trim()`. */
  lemma TrimTrailingSpace(s: string)
    requires Trimmed(s)
    ensures Trim(s + " ") == s
  {
    TrimOf([], s, " ");
    assert [] + s + " " == s + " ";
  }

  /** `isBlank()` holds exactly when `trim()` leaves nothing. */
  lemma BlankIffTrimEmpty(s: string)
    ensures IsBlank(s) <==> Trim(s) == []
  {
    if IsBlank(s) {
      TrimOf(s, [], []);
      assert s + [] + [] == s;
    }
    if Trim(s) == [] {
      EmptyTrimIsBlank(s);
    }
  }

  lemma EmptyTrimIsBlank(s: string)
    requires BetweenBlanks([], s)
    ensures IsBlank(s)
  {
    var i :| 0 <= i <= |s| && IsBlank(s[..i]) && IsBlank(s[i..]);
    forall k | 0 <= k < |s|
      ensures IsWhitespace(s[k])
    {
      if k < i {
        assert s[k] == s[..i][k];
      } else {
        assert s[k] == s[i..][k - i];
      }
    }
  }


  // ---------------------------------------------------------------------------
  // split(" ", limit = 2)

  /**
   * `s.split(" ", limit = 2)`: one part when `s` has no blank, otherwise the
   * text before the first blank and everything after it.
   */
  function SplitAtFirstSpace(s: string): (parts: seq<string>)
    ensures 1 <= |parts| <= 2
    ensures |parts| == 1 <==> ' ' !in s
    ensures |parts| == 1 ==> parts[0] == s
    ensures |parts| == 2 ==> s == parts[0] + " " + parts[1] && ' ' !in parts[0]
  {
    if s == [] then [""]
    else if s[0] == ' ' then
      assert s == "" + " " + s[1..];
      ["", s[1..]]
    else
      var rest := SplitAtFirstSpace(s[1..]);
      assert s == [s[0]] + s[1..];
      [[s[0]] + rest[0]] + rest[1..]
  }

  /** A string with a blank after a blank-free prefix splits there. */
  lemma {:induction false} SplitAtFirstSpaceOf(a: string, b: string)
    requires ' ' !in a
    ensures SplitAtFirstSpace(a + " " + b) == [a, b]
  {
    var s := a + " " + b;
    if a == [] {
      assert s[1..] == b;
    } else {
      assert s[1..] == a[1..] + " " + b;
      SplitAtFirstSpaceOf(a[1..], b);
      assert [a[0]] + a[1..] == a;
    }
  }

  // ---------------------------------------------------------------------------
  // Decimal digits, Int.toString(), String.toIntOrNull()

  predicate IsDigit(c: char) {
    '0' <= c <= '9'
  }

  predicate AllDigits(s: string) {
    forall i | 0 <= i < |s| :: IsDigit(s[i])
  }

  function DigitChar(d: nat): (c: char)
    requires d < 10
    ensures IsDigit(c) && (c as int) - ('0' as int) == d
  {
    (('0' as int) + d) as char
  }

  /** The number a string of decimal digits denotes, most significant first. */
  function DigitsValue(s: string): nat
    requires AllDigits(s)
  {
    if s == [] then 0
    else DigitsValue(s[..|s| - 1]) * 10 + ((s[|s| - 1] as int) - ('0' as int))
  }

  /** Decimal text of a natural number, without leading zeros. */
  function NatToString(n: nat): (s: string)
    ensures |s| >= 1 && AllDigits(s)
  {
    if n < 10 then [DigitChar(n)] else NatToString(n / 10) + [DigitChar(n % 10)]
  }

  /** `Int.toString()`: a minus sign for negative values, then the digits. */
  function IntToString(i: int): (s: string)
    ensures |s| >= 1 && ' ' !in s && '_' !in s && '/' !in s && !IsWhitespace(s[0]) && !IsWhitespace(s[|s| - 1])
    ensures i >= 0 ==> AllDigits(s)
    ensures i < 0 ==> s[0] == '-' && AllDigits(s[1..])
  {
    var s := if i < 0 then "-" + NatToString(-i) else NatToString(i);
    assert forall k | 0 <= k < |s| :: s[k] == '-' || IsDigit(s[k]);
    s
  }

  /** The text after one optional leading sign. */
  function Unsigned(s: string): (d: string)
    ensures |d| == |s| || (s != [] && |d| == |s| - 1 && (s[0] == '-' || s[0] == '+'))
    ensures d == s[|s| - |d|..]
  {
    if s != [] && (s[0] == '-' || s[0] == '+') then s[1..] else s
  }

  /** An optional sign followed by one or more decimal digits and nothing else. */
  predicate IsIntText(s: string) {
    Unsigned(s) != [] && AllDigits(Unsigned(s))
  }

  /** The value such a text spells, negated after a minus sign. */
  function TextValue(s: string): int
    requires IsIntText(s)
  {
    if s[0] == '-' then -(DigitsValue(Unsigned(s)) as int) else DigitsValue(Unsigned(s))
  }

  /**
   * `String.toIntOrNull()` (radix 10): an optional leading `-` or `+`, at
   * least one digit, nothing else, and a value inside the 32-bit range;
   * `None` for everything else.
   */
  function ToIntOrNull(s: string): (r: Option<int>)
    ensures r.Some? <==> IsIntText(s) && IsInt(TextValue(s))
    ensures r.Some? ==> r.value == TextValue(s)
    ensures r.Some? ==> IsInt(r.value)
    ensures r.Some? ==> s != [] && (IsDigit(s[0]) || s[0] == '-' || s[0] == '+')
  {
    if s == [] then None
    else
      var digits := if s[0] == '-' || s[0] == '+' then s[1..] else s;
      if digits == [] || !AllDigits(digits) then None
      else
        var v: int := if s[0] == '-' then -(DigitsValue(digits) as int) else DigitsValue(digits);
        if IsInt(v) then Some(v) else None
  }

  /** A `+` in front of unsigned text changes nothing. */
  lemma ReadPositive(d: string)
    requires d == [] || (d[0] != '-' && d[0] != '+')
    ensures ToIntOrNull("+" + d) == ToIntOrNull(d)
  {
    var s := "+" + d;
    assert s[0] == '+' && s[1..] == d;
  }

  /** A character other than a digit past the sign makes the whole text unreadable. */
  lemma RejectsNonDigit(s: string, i: nat)
    requires i < |s| && !IsDigit(s[i])
    requires i > 0 || (s[0] != '-' && s[0] != '+')
    ensures ToIntOrNull(s) == None
  {
    var d := Unsigned(s);
    assert d[i - (|s| - |d|)] == s[i];
  }

  /** The canonical decimal text of an `Int` is what `toIntOrNull` reads it as. */
  lemma {:induction false} NatToStringValue(n: nat)
    ensures DigitsValue(NatToString(n)) == n
  {
    if n >= 10 {
      var s := NatToString(n);
      NatToStringValue(n / 10);
      assert s[..|s| - 1] == NatToString(n / 10);
    }
  }

  /** Unsigned digits within range read as their value. */
  lemma ReadUnsigned(d: string)
    requires d != [] && AllDigits(d) && DigitsValue(d) <= INT_MAX
    ensures ToIntOrNull(d) == Some(DigitsValue(d) as int)
  {
    assert IsDigit(d[0]);
  }

  /** A minus sign and digits within range read as the negated value. */
  lemma ReadNegative(d: string)
    requires d != [] && AllDigits(d) && DigitsValue(d) <= -INT_MIN
    ensures ToIntOrNull("-" + d) == Some(-(DigitsValue(d) as int))
  {
    assert ("-" + d)[1..] == d;
  }

  lemma IntToStringRoundTrip(i: int)
    requires IsInt(i)
    ensures ToIntOrNull(IntToString(i)) == Some(i)
  {
    if i < 0 {
      NatToStringValue(-i);
      ReadNegative(NatToString(-i));
    } else {
      NatToStringValue(i);
      ReadUnsigned(NatToString(i));
    }
  }

  /** Different `Int`s print differently. */
  lemma IntToStringInjective(a: int, b: int)
    requires IsInt(a) && IsInt(b) && IntToString(a) == IntToString(b)
    ensures a == b
  {
    IntToStringRoundTrip(a);
    IntToStringRoundTrip(b);
  }

  // ---------------------------------------------------------------------------
  // String.hashCode()

  /** The UTF-16 code units of one character (a surrogate pair above U+FFFF). */
  function CodeUnits(c: char): (u: seq<int>)
    ensures 1 <= |u| <= 2
    ensures forall k | 0 <= k < |u| :: 0 <= u[k] < 0x10000
  {
    var n := c as int;
    if n < 0x10000 then [n]
    else [0xD800 + (n - 0x10000) / 0x400, 0xDC00 + (n - 0x10000) % 0x400]
  }

  /** The UTF-16 code units of a string, which is what a JVM `String` holds. */
  function Utf16(s: string): (u: seq<int>)
    ensures |s| <= |u| <= 2 * |s|
    ensures forall k | 0 <= k < |u| :: 0 <= u[k] < 0x10000
  {
    if s == [] then [] else Utf16(s[..|s| - 1]) + CodeUnits(s[|s| - 1])
  }

  /** Reduction into the signed 32-bit range, as JVM `int` arithmetic does. */
  function Wrap32(x: int): (r: int)
    ensures IsInt(r)
    ensures (x - r) % TWO_32 == 0
  {
    var m := x % TWO_32;
    if m > INT_MAX then m - TWO_32 else m
  }

  /** Java's loop `h = 31 * h + unit`, each step wrapping at 32 bits. */
  function HashUnits(u: seq<int>): (h: int)
    ensures IsInt(h)
  {
    if u == [] then 0 else Wrap32(31 * HashUnits(u[..|u| - 1]) + u[|u| - 1])
  }

  /** `String.hashCode()`. */
  function HashCode(s: string): (h: int)
    ensures IsInt(h)
  {
    HashUnits(Utf16(s))
  }

  /** The unbounded polynomial `u[0]*31^(n-1) + ... + u[n-1]`. */
  function Polynomial(u: seq<int>): int
  {
    if u == [] then 0 else 31 * Polynomial(u[..|u| - 1]) + u[|u| - 1]
  }

  /** The step-by-step wrapping loop agrees with the polynomial modulo 2^32. */
  lemma {:induction false} HashIsPolynomialMod(u: seq<int>)
    ensures (Polynomial(u) - HashUnits(u)) % TWO_32 == 0
  {
    if u != [] {
      var p := u[..|u| - 1];
      HashIsPolynomialMod(p);
      var x := 31 * HashUnits(p) + u[|u| - 1];
      assert Polynomial(u) - HashUnits(u) == 31 * (Polynomial(p) - HashUnits(p)) + (x - Wrap32(x));
      MultiplesOfTwo32(Polynomial(p) - HashUnits(p), x - Wrap32(x));
    }
  }

  /** Multiples of 2^32 are closed under `31 * a + b`. */
  lemma MultiplesOfTwo32(a: int, b: int)
    requires a % TWO_32 == 0 && b % TWO_32 == 0
    ensures (31 * a + b) % TWO_32 == 0
  {
    var ka, kb := a / TWO_32, b / TWO_32;
    assert a == ka * TWO_32 && b == kb * TWO_32;
    assert 31 * a + b == (31 * ka + kb) * TWO_32;
  }

}
