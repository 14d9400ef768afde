/**
 * The JavaScript string and number primitives the services lean on:
 * `Number.prototype.toString`, `padStart(2, '0')`, `String.prototype.trim`,
 * `includes`, `Array.prototype.join` and the global `parseInt`.
 */
module Text {
  import opened Wrappers

  predicate IsDigit(c: char) {
    '0' <= c <= '9'
  }

  predicate AllDigits(s: string) {
    forall i :: 0 <= i < |s| ==> IsDigit(s[i])
  }

  function DigitValue(c: char): (d: nat)
    requires IsDigit(c)
    ensures d < 10
  {
    c as int - '0' as int
  }

  function DigitChar(d: nat): (c: char)
    requires d < 10
    ensures IsDigit(c) && DigitValue(c) == d
  {
    ('0' as int + d) as char
  }

  /** The value of a string of decimal digits, read most significant first; "" is 0. */
  function DecimalValue(s: string): nat
    requires AllDigits(s)
  {
    if s == [] then 0 else DecimalValue(s[..|s| - 1]) * 10 + DigitValue(s[|s| - 1])
  }

  /** `n.toString()` for a non-negative integer: shortest decimal form, no leading zero. */
  function NatToString(n: nat): string
  {
    if n < 10 then [DigitChar(n)] else NatToString(n / 10) + [DigitChar(n % 10)]
  }

  /** The rendering is a non-empty digit string denoting `n`, without a leading zero. */
  lemma {:induction false} NatToStringSpec(n: nat)
    ensures |NatToString(n)| >= 1 && AllDigits(NatToString(n))
    ensures DecimalValue(NatToString(n)) == n
    ensures |NatToString(n)| >= 2 ==> NatToString(n)[0] != '0'
  {
    if n >= 10 {
      var prefix := NatToString(n / 10);
      NatToStringSpec(n / 10);
      var s := prefix + [DigitChar(n % 10)];
      assert s[..|s| - 1] == prefix;
    }
  }

  /** `i.toString()` for any integer. */
  function IntToString(i: int): string
  {
    if i < 0 then "-" + NatToString(-i) else NatToString(i)
  }

  /** `s.padStart(2, '0')`. */
  function PadStart2(s: string): string
  {
    if |s| >= 2 then s else if |s| == 1 then "0" + s else "00"
  }

  /** Padding keeps a text of two or more characters and otherwise fills it with leading zeros to exactly two. */
  lemma PadStart2Spec(s: string)
    ensures |s| >= 2 ==> PadStart2(s) == s
    ensures |s| < 2 ==> |PadStart2(s)| == 2 && PadStart2(s)[2 - |s|..] == s
    ensures forall i :: 0 <= i < 2 - |s| ==> PadStart2(s)[i] == '0'
  {
  }

  /** A leading zero does not change the value of a digit string. */
  lemma {:induction false} DecimalValueLeadingZero(s: string)
    requires AllDigits(s)
    ensures AllDigits("0" + s) && DecimalValue("0" + s) == DecimalValue(s)
  {
    if s != [] {
      var t := "0" + s;
      assert t[..|t| - 1] == "0" + s[..|s| - 1];
      DecimalValueLeadingZero(s[..|s| - 1]);
    }
  }

  /** Zero-padding to two places preserves the decimal value. */
  lemma DecimalValuePadStart2(n: nat)
    ensures AllDigits(PadStart2(NatToString(n)))
    ensures DecimalValue(PadStart2(NatToString(n))) == n
  {
    var s := NatToString(n);
    NatToStringSpec(n);
    if |s| == 1 {
      DecimalValueLeadingZero(s);
    }
  }

  /**
   * ECMAScript white space and line terminators: the characters `trim`,
   * `parseInt`, `Number` and the regular expression class `\s` skip.
   */
  predicate IsJsWhitespace(c: char) {
    var k := c as int;
    k == 0x09 || k == 0x0A || k == 0x0B || k == 0x0C || k == 0x0D || k == 0x20 ||
    k == 0xA0 || k == 0x1680 || (0x2000 <= k <= 0x200A) || k == 0x2028 || k == 0x2029 ||
    k == 0x202F || k == 0x205F || k == 0x3000 || k == 0xFEFF
  }

  predicate IsBlank(s: string) {
    forall i :: 0 <= i < |s| ==> IsJsWhitespace(s[i])
  }

  /** `s.trimStart()`: drops the leading white space and nothing else. */
  function TrimStart(s: string): (r: string)
    ensures |r| <= |s|
  {
    if s != [] && IsJsWhitespace(s[0]) then TrimStart(s[1..]) else s
  }

  /** The trimmed text is a suffix, what was cut is blank, and it starts with a non-blank. */
  lemma {:induction false} TrimStartSpec(s: string)
    ensures TrimStart(s) == s[|s| - |TrimStart(s)|..]
    ensures IsBlank(s[..|s| - |TrimStart(s)|])
    ensures TrimStart(s) != [] ==> !IsJsWhitespace(TrimStart(s)[0])
  {
    if s != [] && IsJsWhitespace(s[0]) {
      var r := TrimStart(s[1..]);
      TrimStartSpec(s[1..]);
      assert s[..|s| - |r|] == [s[0]] + s[1..][..|s| - 1 - |r|];
    }
  }

  /** `s.trimEnd()`: drops the trailing white space and nothing else. */
  function TrimEnd(s: string): (r: string)
    ensures |r| <= |s|
  {
    if s != [] && IsJsWhitespace(s[|s| - 1]) then TrimEnd(s[..|s| - 1]) else s
  }

  /** The trimmed text is a prefix, what was cut is blank, and it ends with a non-blank. */
  lemma {:induction false} TrimEndSpec(s: string)
    ensures TrimEnd(s) == s[..|TrimEnd(s)|]
    ensures IsBlank(s[|TrimEnd(s)|..])
    ensures TrimEnd(s) != [] ==> !IsJsWhitespace(TrimEnd(s)[|TrimEnd(s)| - 1])
  {
    if s != [] && IsJsWhitespace(s[|s| - 1]) {
      var r := TrimEnd(s[..|s| - 1]);
      TrimEndSpec(s[..|s| - 1]);
      assert s[..|s| - 1][..|r|] == s[..|r|];
      assert s[|r|..] == s[..|s| - 1][|r|..] + [s[|s| - 1]];
    }
  }

  lemma BlankConcat(a: string, b: string)
    requires IsBlank(a) && IsBlank(b)
    ensures IsBlank(a + b)
  {
  }

  /** `s.trim()`. */
  function Trim(s: string): (r: string)
    ensures |r| <= |s|
  {
    TrimEnd(TrimStart(s))
  }

  /** Trimming leaves nothing exactly when the text is blank, and otherwise neither end is white space. */
  lemma TrimSpec(s: string)
    ensures Trim(s) == [] <==> IsBlank(s)
    ensures Trim(s) != [] ==> !IsJsWhitespace(Trim(s)[0]) && !IsJsWhitespace(Trim(s)[|Trim(s)| - 1])
  {
    TrimStartSpec(s);
    TrimEndSpec(TrimStart(s));
    TrimOfParts(s, TrimStart(s), Trim(s));
  }

  lemma TrimOfParts(s: string, t: string, r: string)
    requires |t| <= |s| && t == s[|s| - |t|..] && IsBlank(s[..|s| - |t|])
    requires t != [] ==> !IsJsWhitespace(t[0])
    requires |r| <= |t| && r == t[..|r|] && IsBlank(t[|r|..])
    requires r != [] ==> !IsJsWhitespace(r[|r| - 1])
    ensures r == [] <==> IsBlank(s)
    ensures r != [] ==> !IsJsWhitespace(r[0]) && !IsJsWhitespace(r[|r| - 1])
  {
    if r != [] {
      assert r[0] == t[0];
    }
    assert s == s[..|s| - |t|] + t;
    assert t == r + t[|r|..];
    TrimParts(s, s[..|s| - |t|], t, r, t[|r|..]);
  }

  lemma TrimParts(s: string, p: string, t: string, r: string, q: string)
    requires s == p + t && t == r + q && IsBlank(p) && IsBlank(q)
    requires r != [] ==> !IsJsWhitespace(r[0])
    ensures r == [] <==> IsBlank(s)
  {
    if r == [] {
      assert s == p + q;
    } else {
      assert s[|p|] == r[0];
    }
  }

  /** `s.includes(sub)`. */
  predicate Contains(s: string, sub: string) {
    exists i :: 0 <= i <= |s| - |sub| && OccursAt(s, sub, i)
  }

  predicate OccursAt(s: string, sub: string, i: int)
    requires 0 <= i <= |s| - |sub|
  {
    s[i..i + |sub|] == sub
  }

  /** `parts.join(sep)`. */
  function Join(parts: seq<string>, sep: string): (r: string)
    ensures parts == [] ==> r == ""
    ensures |parts| == 1 ==> r == parts[0]
  {
    if parts == [] then ""
    else if |parts| == 1 then parts[0]
    else parts[0] + sep + Join(parts[1..], sep)
  }

  predicate IsHexDigit(c: char) {
    IsDigit(c) || 'a' <= c <= 'f' || 'A' <= c <= 'F'
  }

  predicate IsRadixDigit(c: char, radix: nat) {
    if radix == 16 then IsHexDigit(c) else IsDigit(c)
  }

  function RadixDigitValue(c: char, radix: nat): (d: nat)
    requires IsRadixDigit(c, radix)
    ensures d < (if radix == 16 then 16 else 10)
  {
    if IsDigit(c) then DigitValue(c)
    else if 'a' <= c <= 'f' then c as int - 'a' as int + 10
    else c as int - 'A' as int + 10
  }

  /** The longest prefix of `s` made of digits of the given radix. */
  function DigitPrefix(s: string, radix: nat): (r: string)
    ensures |r| <= |s| && r == s[..|r|]
    ensures forall i :: 0 <= i < |r| ==> IsRadixDigit(r[i], radix)
    ensures |r| < |s| ==> !IsRadixDigit(s[|r|], radix)
  {
    if s != [] && IsRadixDigit(s[0], radix) then
      var r := DigitPrefix(s[1..], radix);
      assert [s[0]] + r == s[..|r| + 1];
      [s[0]] + r
    else []
  }

  /** The value of a string of radix digits, most significant first. */
  function RadixValue(s: string, radix: nat): nat
    requires forall i :: 0 <= i < |s| ==> IsRadixDigit(s[i], radix)
  {
    if s == [] then 0
    else RadixValue(s[..|s| - 1], radix) * (if radix == 16 then 16 else 10) + RadixDigitValue(s[|s| - 1], radix)
  }

  predicate HasHexPrefix(s: string) {
    |s| >= 2 && s[0] == '0' && (s[1] == 'x' || s[1] == 'X')
  }

  /**
   * The global `parseInt(s)` without a radix argument: leading white space is
   * skipped, one sign is read, a `0x`/`0X` prefix selects base 16, and the
   * longest run of digits that follows is the value; no digit at all is NaN (None).
   */
  function JsParseInt(s: string): Option<int> {
    ParseSigned(TrimStart(s))
  }

  function ParseSigned(t: string): Option<int> {
    if t != [] && t[0] == '-' then Negate(ParseUnsigned(t[1..]))
    else if t != [] && t[0] == '+' then ParseUnsigned(t[1..])
    else ParseUnsigned(t)
  }

  function Negate(v: Option<int>): Option<int> {
    if v.Some? then Some(-v.value) else None
  }

  function ParseUnsigned(u: string): Option<int> {
    if HasHexPrefix(u) then DigitsValue(DigitPrefix(u[2..], 16), 16)
    else DigitsValue(DigitPrefix(u, 10), 10)
  }

  function DigitsValue(digits: string, radix: nat): Option<int>
    requires forall i :: 0 <= i < |digits| ==> IsRadixDigit(digits[i], radix)
  {
    if digits == [] then None else Some(RadixValue(digits, radix))
  }

  lemma RadixValueDecimal(s: string)
    requires AllDigits(s)
    ensures forall i :: 0 <= i < |s| ==> IsRadixDigit(s[i], 10)
    ensures RadixValue(s, 10) == DecimalValue(s)
  {
    if s != [] {
      RadixValueDecimal(s[..|s| - 1]);
    }
  }

  /** A non-empty decimal digit string reads back as its value. */
  lemma ParseUnsignedOfDigits(u: string)
    requires u != [] && AllDigits(u)
    ensures ParseUnsigned(u) == Some(DecimalValue(u))
  {
    assert !HasHexPrefix(u) by {
      if |u| >= 2 {
        assert IsDigit(u[1]);
      }
    }
    DigitPrefixAll(u);
    RadixValueDecimal(u);
  }

  /** `parseInt(String(i)) === i`: parsing the decimal rendering of an integer gives it back. */
  lemma ParseIntOfIntToString(i: int)
    ensures JsParseInt(IntToString(i)) == Some(i)
  {
    var n: nat := if i < 0 then -i else i;
    var digits := NatToString(n);
    NatToStringSpec(n);
    ParseUnsignedOfDigits(digits);
    if i < 0 {
      var s := "-" + digits;
      assert s[1..] == digits;
      TrimStartNoop(s);
      assert ParseSigned(s) == Negate(ParseUnsigned(digits));
    } else {
      TrimStartNoop(digits);
      assert ParseSigned(digits) == ParseUnsigned(digits) by {
        assert IsDigit(digits[0]);
      }
    }
  }

  lemma TrimNoop(s: string)
    requires s == [] || (!IsJsWhitespace(s[0]) && !IsJsWhitespace(s[|s| - 1]))
    ensures Trim(s) == s
  {
    TrimStartNoop(s);
  }

  lemma TrimStartNoop(s: string)
    requires s == [] || !IsJsWhitespace(s[0])
    ensures TrimStart(s) == s
  {
  }

  lemma {:induction false} DigitPrefixAll(s: string)
    requires AllDigits(s)
    ensures DigitPrefix(s, 10) == s
  {
    if s != [] {
      DigitPrefixAll(s[1..]);
    }
  }
}
