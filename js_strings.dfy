/** The JavaScript string built-ins the components rely on: `trim`,
    `parseInt`, number-to-string in template literals, `substring`,
    `toUpperCase` on a first letter and `encodeURIComponent`.
    A string is a sequence of Unicode scalar values. */
module JsStrings {
  import opened JsValues

  // ---------------------------------------------------------------------
  // Whitespace and trim
  // ---------------------------------------------------------------------

  /** The ECMAScript WhiteSpace and LineTerminator code points: the set
      that `String.prototype.trim` removes and `parseInt` skips. */
  predicate IsWhitespace(c: char)
  {
    || c == '\t' || c == '\n' || c == '\U{B}' || c == '\U{C}' || c == '\r' || c == ' '
    || c == '\U{A0}' || c == '\U{1680}' || ('\U{2000}' <= c <= '\U{200A}')
    || c == '\U{2028}' || c == '\U{2029}' || c == '\U{202F}' || c == '\U{205F}'
    || c == '\U{3000}' || c == '\U{FEFF}'
  }

  /** Every character is whitespace (the empty string included). */
  predicate IsBlank(s: string)
  {
    forall i :: 0 <= i < |s| ==> IsWhitespace(s[i])
  }

  /** `s.trimStart()`: the suffix left after the leading whitespace. */
  function TrimStart(s: string): (r: string)
    ensures |r| <= |s| && r == s[|s| - |r|..]
    ensures forall i :: 0 <= i < |s| - |r| ==> IsWhitespace(s[i])
    ensures r == [] || !IsWhitespace(r[0])
  {
    if |s| > 0 && IsWhitespace(s[0]) then TrimStart(s[1..]) else s
  }

  /** `s.trimEnd()`: the prefix left before the trailing whitespace. */
  function TrimEnd(s: string): (r: string)
    ensures |r| <= |s| && r == s[..|r|]
    ensures forall i :: |r| <= i < |s| ==> IsWhitespace(s[i])
    ensures r == [] || !IsWhitespace(r[|r| - 1])
  {
    if |s| > 0 && IsWhitespace(s[|s| - 1]) then TrimEnd(s[..|s| - 1]) else s
  }

  /** `s.trim()`: what is left of `s` once all leading and all trailing
      whitespace is removed; no whitespace at either end, empty exactly
      when `s` is blank. */
  function Trim(s: string): (r: string)
    ensures r <= TrimStart(s)
    ensures forall i :: |r| <= i < |TrimStart(s)| ==> IsWhitespace(TrimStart(s)[i])
    ensures r == [] <==> IsBlank(s)
    ensures r == [] || (!IsWhitespace(r[0]) && !IsWhitespace(r[|r| - 1]))
  {
    TrimEnd(TrimStart(s))
  }

  // ---------------------------------------------------------------------
  // Substring preview
  // ---------------------------------------------------------------------

  /** `s.substring(0, n) + (s.length > n ? "..." : "")`: the reply
      preview shown above a message or the composer. */
  function Preview(s: string, n: nat): (r: string)
    ensures |s| <= n ==> r == s
    ensures |s| > n ==> |r| == n + 3 && r[..n] == s[..n] && r[n..] == "..."
  {
    var head := if |s| <= n then s else s[..n];
    head + (if |s| > n then "..." else "")
  }

  // ---------------------------------------------------------------------
  // Upper case of one letter
  // ---------------------------------------------------------------------

  /** `c.toUpperCase()` for a single character, restricted to the ASCII
      letters; every other character is returned unchanged. */
  function ToUpper(c: char): (u: char)
    ensures 'a' <= c <= 'z' ==> 'A' <= u <= 'Z' && u as int == c as int - 32
    ensures !('a' <= c <= 'z') ==> u == c
  {
    if 'a' <= c <= 'z' then (c as int - 32) as char else c
  }

  // ---------------------------------------------------------------------
  // Digits, number printing and parseInt
  // ---------------------------------------------------------------------

  predicate IsDigit(c: char)
  {
    '0' <= c <= '9'
  }

  predicate IsHexDigit(c: char)
  {
    IsDigit(c) || 'a' <= c <= 'f' || 'A' <= c <= 'F'
  }

  /** A digit of radix 16 when `hex`, else of radix 10. */
  predicate IsRadixDigit(c: char, hex: bool)
  {
    if hex then IsHexDigit(c) else IsDigit(c)
  }

  function DigitValue(c: char): (v: nat)
    requires IsHexDigit(c)
    ensures v < 16 && (IsDigit(c) ==> v < 10)
  {
    if IsDigit(c) then c as int - '0' as int
    else if 'a' <= c <= 'f' then c as int - 'a' as int + 10
    else c as int - 'A' as int + 10
  }

  function DigitChar(d: nat): (c: char)
    requires d < 10
    ensures IsDigit(c) && DigitValue(c) == d
  {
    ('0' as int + d) as char
  }

  /** The decimal numeral of `n`, without leading zeros. */
  function NatToDecimal(n: nat): (r: string)
    ensures |r| > 0 && forall i :: 0 <= i < |r| ==> IsDigit(r[i])
    ensures |r| > 1 ==> r[0] != '0'
  {
    if n < 10 then [DigitChar(n)] else NatToDecimal(n / 10) + [DigitChar(n % 10)]
  }

  /** `${n}` for an integer `n`: an optional minus sign and the decimal
      numeral of its magnitude. */
  function IntToDecimal(n: int): (r: string)
    ensures |r| > 0 && (r[0] == '-' || IsDigit(r[0]))
    ensures forall i :: 0 <= i < |r| ==> r[i] == '-' || IsDigit(r[i])
  {
    if n < 0 then "-" + NatToDecimal(-n) else NatToDecimal(n)
  }

  /** The longest prefix of `s` made of radix digits. */
  function DigitRun(s: string, hex: bool): (r: string)
    ensures |r| <= |s| && r == s[..|r|]
    ensures forall i :: 0 <= i < |r| ==> IsRadixDigit(r[i], hex)
    ensures |r| == |s| || !IsRadixDigit(s[|r|], hex)
  {
    if |s| > 0 && IsRadixDigit(s[0], hex) then [s[0]] + DigitRun(s[1..], hex) else []
  }

  /** The value of a string of radix digits, most significant first. */
  function DigitsValue(d: string, hex: bool): nat
    requires forall i :: 0 <= i < |d| ==> IsRadixDigit(d[i], hex)
  {
    if d == [] then 0
    else
      assert IsRadixDigit(d[|d| - 1], hex);
      DigitsValue(d[..|d| - 1], hex) * (if hex then 16 else 10) + DigitValue(d[|d| - 1])
  }

  /** What `parseInt` reads after the sign: a `0x`/`0X` prefix switches to
      radix 16, then the longest run of digits; `None` (NaN) when there is
      no digit. */
  function ParseMagnitude(u: string): (r: Option<nat>)
    ensures r.Some? ==> exists k :: 0 <= k < |u| && IsHexDigit(u[k])
  {
    var hex := |u| >= 2 && u[0] == '0' && (u[1] == 'x' || u[1] == 'X');
    var body := if hex then u[2..] else u;
    var digits := DigitRun(body, hex);
    if digits == [] then None
    else
      assert IsHexDigit(u[|u| - |body|]) by { assert body[0] == digits[0]; }
      Some(DigitsValue(digits, hex))
  }

  /** What `parseInt` reads once leading whitespace is gone: one optional
      sign, then the magnitude; `None` stands for NaN. */
  function ParseTrimmed(t: string): (r: Option<int>)
    ensures r.Some? ==> exists k :: 0 <= k < |t| && IsHexDigit(t[k])
  {
    var signed := |t| > 0 && (t[0] == '-' || t[0] == '+');
    var u := if signed then t[1..] else t;
    match ParseMagnitude(u)
    case None => None
    case Some(v) =>
      assert exists k :: 0 <= k < |t| && IsHexDigit(t[k]) by {
        var k :| 0 <= k < |u| && IsHexDigit(u[k]);
        assert t[|t| - |u| + k] == u[k];
      }
      var w: int := v;
      Some(if signed && t[0] == '-' then -w else w)
  }

  /** `parseInt(s)` with no radix: leading whitespace skipped, then one
      optional sign and the magnitude; `None` stands for NaN, which needs
      at least one digit in `s`. The value is the exact integer (see
      README for the float rounding this leaves out). */
  function ParseInt(s: string): (r: Option<int>)
    ensures r.Some? ==> exists k :: 0 <= k < |s| && IsHexDigit(s[k])
  {
    var t := TrimStart(s);
    var r := ParseTrimmed(t);
    assert r.Some? ==> exists k :: 0 <= k < |s| && IsHexDigit(s[k]) by {
      if r.Some? {
        var k :| 0 <= k < |t| && IsHexDigit(t[k]);
        assert s[|s| - |t| + k] == t[k];
      }
    }
    r
  }

  /** The decimal numeral of `n` reads back as `n`. */
  lemma {:induction false} DecimalValue(n: nat)
    ensures DigitsValue(NatToDecimal(n), false) == n
  {
    var r := NatToDecimal(n);
    if n >= 10 {
      assert r[..|r| - 1] == NatToDecimal(n / 10);
      DecimalValue(n / 10);
    }
  }

  /** A string that does not start with whitespace is its own trimStart. */
  lemma TrimStartNoop(s: string)
    requires s == [] || !IsWhitespace(s[0])
    ensures TrimStart(s) == s
  {
  }

  /** A string of decimal digits is its own longest digit run. */
  lemma DigitRunAll(s: string)
    requires forall i :: 0 <= i < |s| ==> IsDigit(s[i])
    ensures DigitRun(s, false) == s
  {
  }

  /** A non-empty run of decimal digits is read as its decimal value. */
  lemma ParseMagnitudeDigits(u: string)
    requires |u| > 0 && forall i :: 0 <= i < |u| ==> IsDigit(u[i])
    ensures ParseMagnitude(u) == Some(DigitsValue(u, false))
  {
    assert !(|u| >= 2 && u[0] == '0' && (u[1] == 'x' || u[1] == 'X')) by {
      if |u| >= 2 { assert IsDigit(u[1]); }
    }
    DigitRunAll(u);
  }

  /** The decimal text of a non-negative number parses back as it. */
  lemma ParseIntOfNatDecimal(n: int)
    requires n >= 0
    ensures ParseInt(IntToDecimal(n)) == Some(n)
  {
    var d := NatToDecimal(n);
    assert IntToDecimal(n) == d;
    assert IsDigit(d[0]);
    TrimStartNoop(d);
    ParseMagnitudeDigits(d);
    DecimalValue(n);
  }

  /** The decimal text of a negative number, a minus sign before the
      numeral of its magnitude, parses back as it. */
  lemma ParseIntOfNegDecimal(n: int)
    requires n < 0
    ensures ParseInt(IntToDecimal(n)) == Some(n)
  {
    var d := NatToDecimal(-n);
    var s := IntToDecimal(n);
    assert s == "-" + d;
    TrimStartNoop(s);
    assert s[1..] == d;
    ParseMagnitudeDigits(d);
    DecimalValue(-n);
  }

  /** `parseInt` undoes the template literal `${n}`: a conversation id put
      into a path comes back as the same id. */
  lemma ParseIntOfDecimal(n: int)
    ensures ParseInt(IntToDecimal(n)) == Some(n)
  {
    if n < 0 {
      ParseIntOfNegDecimal(n);
    } else {
      ParseIntOfNatDecimal(n);
    }
  }

  /** Leading whitespace is exactly what trimStart drops. */
  lemma {:induction false} TrimStartBlankPrefix(ws: string, t: string)
    requires IsBlank(ws)
    requires t == [] || !IsWhitespace(t[0])
    ensures TrimStart(ws + t) == t
  {
    if ws == [] {
      assert ws + t == t;
      TrimStartNoop(t);
    } else {
      assert (ws + t)[0] == ws[0];
      assert (ws + t)[1..] == ws[1..] + t;
      TrimStartBlankPrefix(ws[1..], t);
    }
  }

  /** The digit run of `digits + rest` stops where `rest` begins when
      `rest` does not start with a digit. */
  lemma {:induction false} DigitRunPrefix(digits: string, rest: string)
    requires forall i :: 0 <= i < |digits| ==> IsDigit(digits[i])
    requires rest == [] || !IsDigit(rest[0])
    ensures DigitRun(digits + rest, false) == digits
  {
    if digits == [] {
      assert digits + rest == rest;
    } else {
      assert (digits + rest)[0] == digits[0];
      assert (digits + rest)[1..] == digits[1..] + rest;
      DigitRunPrefix(digits[1..], rest);
    }
  }

  /** Leading whitespace does not change what `parseInt` reads. */
  lemma ParseIntSkipsBlank(ws: string, t: string)
    requires IsBlank(ws)
    requires t == [] || !IsWhitespace(t[0])
    ensures ParseInt(ws + t) == ParseTrimmed(t)
  {
    TrimStartBlankPrefix(ws, t);
    TrimStartNoop(t);
  }

  /** A leading sign is read, and the magnitude after it negated or kept. */
  lemma ParseTrimmedSigned(sign: char, u: string)
    requires sign == '-' || sign == '+'
    ensures var m := ParseMagnitude(u);
            ParseTrimmed([sign] + u) == if m.None? then None else Some(if sign == '-' then -(m.value as int) else m.value)
  {
    assert ([sign] + u)[1..] == u;
  }

  /** Without a sign the magnitude is read as it is. */
  lemma ParseTrimmedUnsigned(u: string)
    requires u == [] || (u[0] != '-' && u[0] != '+')
    ensures var m := ParseMagnitude(u);
            ParseTrimmed(u) == if m.None? then None else Some(m.value)
  {
  }

  /** The magnitude of a decimal digit run followed by a non-digit is the
      value of the run (unless a lone "0" is followed by 'x', the radix 16
      prefix). */
  lemma ParseMagnitudeDecimal(digits: string, rest: string)
    requires |digits| > 0 && forall i :: 0 <= i < |digits| ==> IsDigit(digits[i])
    requires rest == [] || !IsDigit(rest[0])
    requires !(|digits| == 1 && digits[0] == '0' && rest != [] && (rest[0] == 'x' || rest[0] == 'X'))
    ensures ParseMagnitude(digits + rest) == Some(DigitsValue(digits, false))
  {
    var u := digits + rest;
    assert u[0] == digits[0];
    assert !(|u| >= 2 && u[0] == '0' && (u[1] == 'x' || u[1] == 'X')) by {
      if |digits| >= 2 { assert u[1] == digits[1]; }
      else if |u| >= 2 { assert u[1] == rest[0]; }
    }
    DigitRunPrefix(digits, rest);
  }

  /** A magnitude with an optional sign in front. */
  function SignedValue(sign: string, n: nat): int
  {
    if sign != [] && sign[0] == '-' then -(n as int) else n
  }

  lemma ConcatAssoc(a: string, b: string, c: string, d: string)
    ensures a + b + c + d == a + (b + (c + d))
  {
  }

  /** After the whitespace: an optional sign, then a magnitude. */
  lemma ParseTrimmedMagnitude(sign: string, u: string, n: nat)
    requires |sign| <= 1 && forall i :: 0 <= i < |sign| ==> sign[i] == '-' || sign[i] == '+'
    requires u != [] && u[0] != '-' && u[0] != '+'
    requires ParseMagnitude(u) == Some(n)
    ensures ParseTrimmed(sign + u) == Some(SignedValue(sign, n))
  {
    if sign == [] {
      assert sign + u == u;
      ParseTrimmedUnsigned(u);
    } else {
      assert sign == [sign[0]];
      ParseTrimmedSigned(sign[0], u);
    }
  }

  /** A sign or a digit is not whitespace. */
  lemma SignOrDigitFirst(sign: string, u: string)
    requires |sign| <= 1 && forall i :: 0 <= i < |sign| ==> sign[i] == '-' || sign[i] == '+'
    requires u != [] && IsDigit(u[0])
    ensures !IsWhitespace((sign + u)[0])
  {
    assert (sign + u)[0] == if sign == [] then u[0] else sign[0];
  }

  /** After the whitespace: an optional sign, then a decimal digit run
      that stops before `rest`. */
  lemma ParseTrimmedDecimal(sign: string, digits: string, rest: string)
    requires |sign| <= 1 && forall i :: 0 <= i < |sign| ==> sign[i] == '-' || sign[i] == '+'
    requires |digits| > 0 && forall i :: 0 <= i < |digits| ==> IsDigit(digits[i])
    requires rest == [] || !IsDigit(rest[0])
    requires !(|digits| == 1 && digits[0] == '0' && rest != [] && (rest[0] == 'x' || rest[0] == 'X'))
    ensures ParseTrimmed(sign + (digits + rest)) == Some(SignedValue(sign, DigitsValue(digits, false)))
  {
    var u := digits + rest;
    assert u[0] == digits[0];
    ParseMagnitudeDecimal(digits, rest);
    ParseTrimmedMagnitude(sign, u, DigitsValue(digits, false));
  }

  /** `parseInt` on optional whitespace, an optional sign, a run of
      decimal digits and any text that does not continue the run: the
      value of the digits, negated after a minus sign; the text after the
      digits is ignored. A lone "0" followed by 'x' would switch to radix
      16 and is excluded here. */
  lemma ParseIntReadsDecimalPrefix(ws: string, sign: string, digits: string, rest: string)
    requires IsBlank(ws)
    requires |sign| <= 1 && forall i :: 0 <= i < |sign| ==> sign[i] == '-' || sign[i] == '+'
    requires |digits| > 0 && forall i :: 0 <= i < |digits| ==> IsDigit(digits[i])
    requires rest == [] || !IsDigit(rest[0])
    requires !(|digits| == 1 && digits[0] == '0' && rest != [] && (rest[0] == 'x' || rest[0] == 'X'))
    ensures ParseInt(ws + sign + digits + rest) == Some(SignedValue(sign, DigitsValue(digits, false)))
  {
    var t := sign + (digits + rest);
    ConcatAssoc(ws, sign, digits, rest);
    SignOrDigitFirst(sign, digits + rest);
    ParseTrimmedDecimal(sign, digits, rest);
    ParseIntSkipsBlank(ws, t);
  }

  /** `parseInt` is NaN when no digit follows the optional whitespace and
      sign. */
  lemma ParseIntNoDigits(ws: string, sign: string, rest: string)
    requires IsBlank(ws)
    requires |sign| <= 1 && forall i :: 0 <= i < |sign| ==> sign[i] == '-' || sign[i] == '+'
    requires rest == [] || (!IsDigit(rest[0]) && !IsWhitespace(rest[0]))
    requires sign == [] && rest != [] ==> rest[0] != '-' && rest[0] != '+'
    ensures ParseInt(ws + sign + rest) == None
  {
    var t := sign + rest;
    assert ws + sign + rest == ws + t;
    assert DigitRun(rest, false) == [];
    if sign == [] {
      assert t == rest;
      ParseIntSkipsBlank(ws, t);
    } else {
      assert t == [sign[0]] + rest;
      ParseIntSkipsBlank(ws, t);
      ParseTrimmedSigned(sign[0], rest);
    }
  }

  // ---------------------------------------------------------------------
  // encodeURIComponent
  // ---------------------------------------------------------------------

  /** The characters `encodeURIComponent` leaves as they are. */
  predicate IsUnreserved(c: char)
  {
    || 'A' <= c <= 'Z' || 'a' <= c <= 'z' || IsDigit(c)
    || c == '-' || c == '_' || c == '.' || c == '!' || c == '~'
    || c == '*' || c == '\'' || c == '(' || c == ')'
  }

  /** An upper-case hexadecimal digit for `0 <= n < 16`. */
  function HexUpper(n: nat): (c: char)
    requires n < 16
    ensures IsUnreserved(c) && IsHexDigit(c) && DigitValue(c) == n
  {
    if n < 10 then ('0' as int + n) as char else ('A' as int + n - 10) as char
  }

  predicate IsByte(b: nat)
  {
    b < 256
  }

  /** The UTF-8 encoding of a Unicode scalar value. */
  function Utf8(cp: nat): (bytes: seq<nat>)
    requires cp < 0x11_0000
    ensures 1 <= |bytes| <= 4 && forall i :: 0 <= i < |bytes| ==> IsByte(bytes[i])
    ensures |bytes| == 1 <==> cp < 0x80
  {
    if cp < 0x80 then [cp]
    else if cp < 0x800 then [0xC0 + cp / 0x40, 0x80 + cp % 0x40]
    else if cp < 0x1_0000 then [0xE0 + cp / 0x1000, 0x80 + (cp / 0x40) % 0x40, 0x80 + cp % 0x40]
    else [0xF0 + cp / 0x4_0000, 0x80 + (cp / 0x1000) % 0x40, 0x80 + (cp / 0x40) % 0x40, 0x80 + cp % 0x40]
  }

  /** Each byte as `%XY` with upper-case hexadecimal digits. */
  function PercentBytes(bytes: seq<nat>): (r: string)
    requires forall i :: 0 <= i < |bytes| ==> IsByte(bytes[i])
    ensures |r| == 3 * |bytes|
    ensures forall i :: 0 <= i < |r| ==> (r[i] == '%' <==> i % 3 == 0)
    ensures forall i :: 0 <= i < |r| ==> r[i] == '%' || (IsUnreserved(r[i]) && IsHexDigit(r[i]))
  {
    if bytes == [] then []
    else
      assert IsByte(bytes[0]);
      ['%', HexUpper(bytes[0] / 16), HexUpper(bytes[0] % 16)] + PercentBytes(bytes[1..])
  }

  /** `encodeURIComponent` of one character: never empty, and it starts
      with '%' exactly when the character is escaped. */
  function EncodeChar(c: char): (r: string)
    ensures |r| > 0 && (r[0] == '%' <==> !IsUnreserved(c))
  {
    if IsUnreserved(c) then [c] else PercentBytes(Utf8(c as int))
  }

  /** `encodeURIComponent(s)`: unreserved characters are kept, every other
      character becomes the percent-escapes of its UTF-8 bytes. */
  function EncodeURIComponent(s: string): (r: string)
    ensures forall i :: 0 <= i < |r| ==> IsUnreserved(r[i]) || r[i] == '%'
    ensures (forall i :: 0 <= i < |s| ==> IsUnreserved(s[i])) ==> r == s
    ensures r == [] <==> s == []
  {
    if s == [] then [] else EncodeChar(s[0]) + EncodeURIComponent(s[1..])
  }

  /** Encoding works character by character, so it distributes over
      concatenation. */
  lemma {:induction false} EncodeConcat(a: string, b: string)
    ensures EncodeURIComponent(a + b) == EncodeURIComponent(a) + EncodeURIComponent(b)
  {
    if a == [] {
      assert a + b == b;
    } else {
      assert (a + b)[0] == a[0];
      assert (a + b)[1..] == a[1..] + b;
      EncodeConcat(a[1..], b);
    }
  }

  /** The byte a `%XY` escape stands for. */
  function EscapedByte(r: string, j: nat): nat
    requires j + 2 < |r| && IsHexDigit(r[j + 1]) && IsHexDigit(r[j + 2])
  {
    16 * DigitValue(r[j + 1]) + DigitValue(r[j + 2])
  }

  /** The bytes a run of `%XY` escapes stands for; `None` when `r` is not
      such a run. */
  function UnescapeBytes(r: string): Option<seq<nat>>
  {
    if r == [] then Some([])
    else if |r| >= 3 && r[0] == '%' && IsHexDigit(r[1]) && IsHexDigit(r[2]) then
      match UnescapeBytes(r[3..])
      case None => None
      case Some(tail) => Some([EscapedByte(r, 0)] + tail)
    else None
  }

  /** The first escape of `PercentBytes(bytes)` stands for `bytes[0]`. */
  lemma PercentBytesHead(bytes: seq<nat>)
    requires forall k :: 0 <= k < |bytes| ==> IsByte(bytes[k])
    requires |bytes| > 0
    ensures var r := PercentBytes(bytes);
            r[0] == '%' && IsHexDigit(r[1]) && IsHexDigit(r[2]) && EscapedByte(r, 0) == bytes[0]
            && r[3..] == PercentBytes(bytes[1..])
  {
  }

  /** Unescaping gives back the bytes that were escaped. */
  lemma {:induction false} UnescapePercentBytes(bytes: seq<nat>)
    requires forall k :: 0 <= k < |bytes| ==> IsByte(bytes[k])
    ensures UnescapeBytes(PercentBytes(bytes)) == Some(bytes)
  {
    if bytes != [] {
      PercentBytesHead(bytes);
      UnescapePercentBytes(bytes[1..]);
      assert bytes == [bytes[0]] + bytes[1..];
    }
  }

  /** Distinct byte strings have distinct escapes. */
  lemma PercentBytesInjective(a: seq<nat>, b: seq<nat>)
    requires forall k :: 0 <= k < |a| ==> IsByte(a[k])
    requires forall k :: 0 <= k < |b| ==> IsByte(b[k])
    requires PercentBytes(a) == PercentBytes(b)
    ensures a == b
  {
    UnescapePercentBytes(a);
    UnescapePercentBytes(b);
  }

  /** The length of a UTF-8 sequence as announced by its first byte. */
  function Utf8Length(lead: nat): nat
  {
    if lead < 0x80 then 1 else if lead < 0xE0 then 2 else if lead < 0xF0 then 3 else 4
  }

  /** The code point a UTF-8 sequence of one to four bytes stands for. */
  function Utf8Decode(bytes: seq<nat>): int
    requires 1 <= |bytes| <= 4
  {
    if |bytes| == 1 then bytes[0]
    else if |bytes| == 2 then (bytes[0] as int - 0xC0) * 0x40 + (bytes[1] as int - 0x80)
    else if |bytes| == 3 then (bytes[0] as int - 0xE0) * 0x1000 + (bytes[1] as int - 0x80) * 0x40 + (bytes[2] as int - 0x80)
    else (bytes[0] as int - 0xF0) * 0x4_0000 + (bytes[1] as int - 0x80) * 0x1000 + (bytes[2] as int - 0x80) * 0x40 + (bytes[3] as int - 0x80)
  }

  /** UTF-8 is self-delimiting, and decoding gives the code point back. */
  lemma Utf8RoundTrip(cp: nat)
    requires cp < 0x11_0000
    ensures |Utf8(cp)| == Utf8Length(Utf8(cp)[0])
    ensures Utf8Decode(Utf8(cp)) == cp
  {
    var q1, r1 := cp / 0x40, cp % 0x40;
    var q2, r2 := q1 / 0x40, q1 % 0x40;
    var q3, r3 := q2 / 0x40, q2 % 0x40;
    assert cp == q1 * 0x40 + r1;
    assert q1 == q2 * 0x40 + r2;
    assert q2 == q3 * 0x40 + r3;
    assert cp / 0x1000 == q2;
    assert cp / 0x4_0000 == q3;
  }

  /** The escapes of two self-delimiting UTF-8 sequences: one is never a
      proper prefix of the other. */
  lemma EscapesPrefixFree(bc: seq<nat>, bd: seq<nat>, x: string, y: string)
    requires forall k :: 0 <= k < |bc| ==> IsByte(bc[k])
    requires forall k :: 0 <= k < |bd| ==> IsByte(bd[k])
    requires |bc| > 0 && |bc| == Utf8Length(bc[0])
    requires |bd| > 0 && |bd| == Utf8Length(bd[0])
    requires PercentBytes(bc) + x == PercentBytes(bd) + y
    ensures bc == bd && x == y
  {
    var p, q := PercentBytes(bc), PercentBytes(bd);
    PercentBytesHead(bc);
    PercentBytesHead(bd);
    assert p[1] == (p + x)[1] == (q + y)[1] == q[1];
    assert p[2] == (p + x)[2] == (q + y)[2] == q[2];
    assert |p| == |q|;
    assert p == (p + x)[..|p|] == (q + y)[..|q|] == q;
    assert x == (p + x)[|p|..] == (q + y)[|q|..] == y;
    PercentBytesInjective(bc, bd);
  }

  /** One character's code is never a proper prefix of another's, and
      equal codes come from equal characters. */
  lemma EncodeCharPrefixFree(c: char, d: char, x: string, y: string)
    requires EncodeChar(c) + x == EncodeChar(d) + y
    ensures c == d && x == y
  {
    var p, q := EncodeChar(c), EncodeChar(d);
    assert p[0] == (p + x)[0] == (q + y)[0] == q[0];
    if IsUnreserved(c) {
      assert x == (p + x)[1..] == (q + y)[1..] == y;
    } else {
      Utf8RoundTrip(c as int);
      Utf8RoundTrip(d as int);
      EscapesPrefixFree(Utf8(c as int), Utf8(d as int), x, y);
    }
  }

  /** `encodeURIComponent` loses nothing: distinct strings have distinct
      encodings. */
  lemma {:induction false} EncodeInjective(a: string, b: string)
    requires EncodeURIComponent(a) == EncodeURIComponent(b)
    ensures a == b
  {
    if a != [] {
      EncodeCharPrefixFree(a[0], b[0], EncodeURIComponent(a[1..]), EncodeURIComponent(b[1..]));
      EncodeInjective(a[1..], b[1..]);
      assert a == [a[0]] + a[1..] && b == [b[0]] + b[1..];
    }
  }
}
