/**
 * The JavaScript primitives the application leans on, written out so that their
 * edge cases are explicit: `toLowerCase`, `trim`, `includes`, `startsWith`,
 * `split`/`join`, `parseInt` (with and without radix 10), `Number(...)`,
 * `String(n)` for integers, and the `x || 0` idiom.
 */
module Js {

  datatype Option<+T> = None | Some(value: T)

  /** `o || fallback` where `o` is a parsed number: NaN (None) becomes the fallback. */
  function OrElse(o: Option<int>, fallback: int): int
  {
    match o
    case Some(v) => v
    case None => fallback
  }

  // ---------------------------------------------------------------------------
  // Case and whitespace

  /** `toLowerCase` on one character; only the ASCII letters are folded. */
  function LowerChar(c: char): char
  {
    if 'A' <= c <= 'Z' then (c as int + 32) as char else c
  }

  function ToLower(s: string): string
  {
    seq(|s|, i requires 0 <= i < |s| => LowerChar(s[i]))
  }

  /** The characters `String.prototype.trim` removes: WhiteSpace and LineTerminator. */
  predicate IsWhiteSpace(c: char)
  {
    c == '\t' || c == '\n' || c == '\U{000B}' || c == '\U{000C}' || c == '\r' || c == ' '
    || c == '\U{00A0}' || c == '\U{1680}' || ('\U{2000}' <= c <= '\U{200A}')
    || c == '\U{2028}' || c == '\U{2029}' || c == '\U{202F}' || c == '\U{205F}'
    || c == '\U{3000}' || c == '\U{FEFF}'
  }

  function TrimStart(s: string): (r: string)
    ensures |r| <= |s| && r == s[|s| - |r|..]
    ensures r == [] || !IsWhiteSpace(r[0])
  {
    if |s| > 0 && IsWhiteSpace(s[0]) then TrimStart(s[1..]) else s
  }

  function TrimEnd(s: string): (r: string)
    ensures |r| <= |s| && r == s[..|r|]
    ensures r == [] || !IsWhiteSpace(r[|r| - 1])
  {
    if |s| > 0 && IsWhiteSpace(s[|s| - 1]) then TrimEnd(s[..|s| - 1]) else s
  }

  /** `s.trim()` */
  function Trim(s: string): string
  {
    TrimEnd(TrimStart(s))
  }

  lemma TrimOfTrimmed(s: string)
    requires s == [] || (!IsWhiteSpace(s[0]) && !IsWhiteSpace(s[|s| - 1]))
    ensures Trim(s) == s
  {
  }

  // ---------------------------------------------------------------------------
  // Searching

  /** `s.startsWith(p)` */
  predicate StartsWith(s: string, p: string)
  {
    |p| <= |s| && s[..|p|] == p
  }

  /** `s.endsWith(p)` */
  predicate EndsWith(s: string, p: string)
  {
    |p| <= |s| && s[|s| - |p|..] == p
  }

  /** `s.includes(sub)` */
  predicate Includes(s: string, sub: string)
    decreases |s|
  {
    StartsWith(s, sub) || (|s| > 0 && Includes(s[1..], sub))
  }

  lemma IncludesEmpty(s: string)
    ensures Includes(s, "")
  {
  }

  lemma {:induction false} IncludesSelf(s: string)
    ensures Includes(s, s)
  {
    assert s[..|s|] == s;
  }

  /** For a one-character needle, `includes` is membership. */
  lemma {:induction false} IncludesChar(s: string, c: char)
    ensures Includes(s, [c]) <==> c in s
  {
    if s != [] {
      IncludesChar(s[1..], c);
      assert s == [s[0]] + s[1..];
    }
  }

  // ---------------------------------------------------------------------------
  // split and join

  /** `parts.join(sep)`: the empty array joins to the empty string. */
  function Join(parts: seq<string>, sep: string): string
  {
    if |parts| == 0 then ""
    else if |parts| == 1 then parts[0]
    else parts[0] + sep + Join(parts[1..], sep)
  }

  /** `s.split(c)` for a one-character separator: always at least one part. */
  function Split(s: string, c: char): (parts: seq<string>)
    ensures |parts| >= 1
    ensures forall i :: 0 <= i < |parts| ==> c !in parts[i]
  {
    if s == [] then [""]
    else if s[0] == c then [""] + Split(s[1..], c)
    else
      var rest := Split(s[1..], c);
      [[s[0]] + rest[0]] + rest[1..]
  }

  /** Splitting and joining back with the same separator gives the text back. */
  lemma {:induction false} JoinSplit(s: string, c: char)
    ensures Join(Split(s, c), [c]) == s
  {
    if s == [] {
    } else if s[0] == c {
      JoinSplit(s[1..], c);
      assert Split(s, c) == [""] + Split(s[1..], c);
      assert s == [c] + s[1..];
    } else {
      JoinSplit(s[1..], c);
      var rest := Split(s[1..], c);
      var parts := [[s[0]] + rest[0]] + rest[1..];
      assert parts[1..] == rest[1..];
      if |rest| == 1 {
        assert s == [s[0]] + rest[0];
      } else {
        assert Join(rest, [c]) == rest[0] + [c] + Join(rest[1..], [c]);
        assert s == [s[0]] + s[1..];
      }
    }
  }

  lemma {:induction false} SplitPrefix(a: string, b: string, c: char)
    requires c !in a
    ensures Split(a + [c] + b, c) == [a] + Split(b, c)
  {
    if a == [] {
      assert a + [c] + b == [c] + b;
      assert ([c] + b)[1..] == b;
    } else {
      var s := a + [c] + b;
      assert s[0] == a[0];
      assert s[1..] == a[1..] + [c] + b;
      SplitPrefix(a[1..], b, c);
      assert [a[0]] + a[1..] == a;
    }
  }

  /** Joining parts that do not contain the separator and splitting again gives the parts back. */
  lemma {:induction false} SplitJoin(parts: seq<string>, c: char)
    requires |parts| >= 1
    requires forall i :: 0 <= i < |parts| ==> c !in parts[i]
    ensures Split(Join(parts, [c]), c) == parts
  {
    if |parts| == 1 {
      SplitNoSeparator(parts[0], c);
    } else {
      SplitJoin(parts[1..], c);
      SplitPrefix(parts[0], Join(parts[1..], [c]), c);
      assert [parts[0]] + parts[1..] == parts;
    }
  }

  lemma {:induction false} SplitNoSeparator(s: string, c: char)
    requires c !in s
    ensures Split(s, c) == [s]
  {
    if s != [] {
      SplitNoSeparator(s[1..], c);
      assert [s[0]] + s[1..] == s;
    }
  }

  // ---------------------------------------------------------------------------
  // Numbers

  /** The value of an alphanumeric digit (0-9, then a-z or A-Z for 10-35). */
  function DigitValue(c: char): Option<nat>
  {
    if '0' <= c <= '9' then Some(c as int - '0' as int)
    else if 'a' <= c <= 'z' then Some(c as int - 'a' as int + 10)
    else if 'A' <= c <= 'Z' then Some(c as int - 'A' as int + 10)
    else None
  }

  predicate IsDigitOf(c: char, radix: nat)
  {
    DigitValue(c).Some? && DigitValue(c).value < radix
  }

  predicate AllDigits(d: string, radix: nat)
  {
    forall i :: 0 <= i < |d| ==> IsDigitOf(d[i], radix)
  }

  /** The longest prefix of `s` made of digits of the radix. */
  function LeadingDigits(s: string, radix: nat): (d: string)
    ensures |d| <= |s| && d == s[..|d|] && AllDigits(d, radix)
    ensures |d| < |s| ==> !IsDigitOf(s[|d|], radix)
  {
    if |s| > 0 && IsDigitOf(s[0], radix) then [s[0]] + LeadingDigits(s[1..], radix) else []
  }

  function DigitsValue(d: string, radix: nat): nat
    requires AllDigits(d, radix)
  {
    if d == [] then 0
    else DigitsValue(d[..|d| - 1], radix) * radix + DigitValue(d[|d| - 1]).value
  }

  /**
   * `parseInt(s, 10)` (hexPrefix false) or `parseInt(s)` (hexPrefix true):
   * leading whitespace is skipped, one sign is accepted, the longest run of digits
   * is read and the rest ignored; without any digit the result is NaN (None).
   * Without a radix, a `0x`/`0X` prefix switches to base 16.
   */
  function ParseIntWith(s: string, hexPrefix: bool): Option<int>
  {
    var t := TrimStart(s);
    var negative := |t| > 0 && t[0] == '-';
    var u := if |t| > 0 && (t[0] == '-' || t[0] == '+') then t[1..] else t;
    var hex := hexPrefix && |u| >= 2 && u[0] == '0' && (u[1] == 'x' || u[1] == 'X');
    var radix := if hex then 16 else 10;
    var d := LeadingDigits(if hex then u[2..] else u, radix);
    if d == [] then None
    else
      var v: int := DigitsValue(d, radix);
      Some(if negative then -v else v)
  }

  /** `parseInt(s, 10)` */
  function ParseInt10(s: string): Option<int>
  {
    ParseIntWith(s, false)
  }

  /** `parseInt(s)` (no radix) */
  function ParseIntNoRadix(s: string): Option<int>
  {
    ParseIntWith(s, true)
  }

  /**
   * `Number(s)` on decimal integer text: surrounding whitespace is ignored, the empty
   * text is 0, an optionally signed run of decimal digits is its value. Every other
   * text is `None` here: that is NaN for most of them, but `Number` also reads
   * fractions, exponents, "0x"/"0b"/"0o" prefixes and "Infinity", which this model does not.
   */
  function NumberOf(s: string): Option<int>
  {
    var t := Trim(s);
    if t == [] then Some(0)
    else
      var negative := t[0] == '-';
      var u := if t[0] == '-' || t[0] == '+' then t[1..] else t;
      if u != [] && AllDigits(u, 10) then
        var v: int := DigitsValue(u, 10);
        Some(if negative then -v else v)
      else None
  }

  function DigitChar(n: nat): (c: char)
    requires n < 10
    ensures IsDigitOf(c, 10) && DigitValue(c) == Some(n)
  {
    ('0' as int + n) as char
  }

  function NatString(n: nat): (s: string)
    ensures |s| >= 1 && AllDigits(s, 10)
  {
    if n < 10 then [DigitChar(n)] else NatString(n / 10) + [DigitChar(n % 10)]
  }

  /** The number of digits of `String(n)` for n below 10000. */
  lemma {:induction false} NatStringLength(n: nat)
    requires n < 10000
    ensures |NatString(n)| == if n < 10 then 1 else if n < 100 then 2 else if n < 1000 then 3 else 4
  {
    if n >= 10 {
      NatStringLength(n / 10);
    }
  }

  /** `String(n)` for an integer. */
  function DecimalString(n: int): string
  {
    if n < 0 then "-" + NatString(-n) else NatString(n)
  }

  lemma {:induction false} NatStringValue(n: nat)
    ensures DigitsValue(NatString(n), 10) == n
  {
    var s := NatString(n);
    if n >= 10 {
      NatStringValue(n / 10);
      assert s[..|s| - 1] == NatString(n / 10);
    }
  }

  lemma {:induction false} LeadingDigitsOfDigits(d: string, radix: nat)
    requires AllDigits(d, radix)
    ensures LeadingDigits(d, radix) == d
  {
    if d != [] {
      LeadingDigitsOfDigits(d[1..], radix);
      assert [d[0]] + d[1..] == d;
    }
  }

  /** `parseInt(String(n), 10)` reads back `n`. */
  lemma DecimalStringRoundTrip(n: int)
    ensures ParseInt10(DecimalString(n)) == Some(n)
    ensures ParseIntNoRadix(DecimalString(n)) == Some(n)
  {
    ParseDecimal(n, false);
    ParseDecimal(n, true);
  }

  lemma ParseDecimal(n: int, hexPrefix: bool)
    ensures ParseIntWith(DecimalString(n), hexPrefix) == Some(n)
  {
    var m: nat := if n < 0 then -n else n;
    var s := DecimalString(n);
    var digits := NatString(m);
    DecimalStringShape(n);
    NatStringValue(m);
    LeadingDigitsOfDigits(digits, 10);
    if |digits| >= 2 {
      DecimalDigitIsNotX(digits[1]);
    }
    ParseUnsigned(s, digits, m, n < 0, hexPrefix);
  }

  /** `String(n)` starts with a minus sign exactly when n is negative, followed by the digits of |n|. */
  lemma DecimalStringShape(n: int)
    ensures var s := DecimalString(n);
      s != [] && TrimStart(s) == s && (s[0] == '-' <==> n < 0) && s[0] != '+'
      && (if s[0] == '-' then s[1..] else s) == NatString(if n < 0 then -n else n)
  {
    var s := DecimalString(n);
    assert !IsWhiteSpace(s[0]);
  }

  lemma DecimalDigitIsNotX(c: char)
    requires IsDigitOf(c, 10)
    ensures c != 'x' && c != 'X'
  {
  }

  /** Reading a text that is already trimmed and carries no hexadecimal prefix. */
  lemma ParseUnsigned(s: string, u: string, m: nat, negative: bool, hexPrefix: bool)
    requires TrimStart(s) == s && s != []
    requires negative <==> s[0] == '-'
    requires u == if s[0] == '-' || s[0] == '+' then s[1..] else s
    requires !(|u| >= 2 && u[0] == '0' && (u[1] == 'x' || u[1] == 'X'))
    requires u != [] && AllDigits(u, 10) && LeadingDigits(u, 10) == u && DigitsValue(u, 10) == m
    ensures ParseIntWith(s, hexPrefix) == Some(if negative then -(m as int) else m as int)
  {
  }

  /** Different integers have different decimal renderings. */
  lemma DecimalStringInjective(a: int, b: int)
    requires DecimalString(a) == DecimalString(b)
    ensures a == b
  {
    DecimalStringRoundTrip(a);
    DecimalStringRoundTrip(b);
  }

  // ---------------------------------------------------------------------------
  // Values held in data rows

  /** A property value of a plain data row: the primitive values the tables hold. */
  datatype Value = Str(s: string) | Num(n: int) | Bool(b: bool) | Null | Undefined

  /** `String(value)` */
  function ValueString(v: Value): string
  {
    match v
    case Str(s) => s
    case Num(n) => DecimalString(n)
    case Bool(b) => if b then "true" else "false"
    case Null => "null"
    case Undefined => "undefined"
  }
}
