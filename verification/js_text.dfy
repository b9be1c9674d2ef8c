/** The pieces of JavaScript's string semantics the screens rely on:
    `String.prototype.trim`, `String.prototype.slice(0, n)`, `parseInt`
    with no radix, and decimal digit strings. Strings are sequences of
    Unicode scalar values; JavaScript's UTF-16 code units are not modelled. */
module JsText {
  import opened Common

  /** The WhiteSpace and LineTerminator code points of ECMA-262
      (sections 12.2 and 12.3), the set that `trim` removes and that
      `parseInt` skips before the number. */
  predicate IsSpace(c: char) {
    || c == '\t' || c == '\U{000B}' || c == '\U{000C}' || c == ' '
    || c == '\U{00A0}' || c == '\U{FEFF}'
    || c == '\n' || c == '\r' || c == '\U{2028}' || c == '\U{2029}'
    || c == '\U{1680}' || ('\U{2000}' <= c <= '\U{200A}')
    || c == '\U{202F}' || c == '\U{205F}' || c == '\U{3000}'
  }

  predicate AllSpace(s: string) {
    forall i :: 0 <= i < |s| ==> IsSpace(s[i])
  }

  /** Drops leading white space: the result is the suffix of `s` that
      starts at its first non-space character. */
  function TrimStart(s: string): (r: string)
    ensures |r| <= |s| && r == s[|s| - |r|..]
    ensures AllSpace(s[..|s| - |r|])
    ensures r == [] || !IsSpace(r[0])
  {
    if |s| > 0 && IsSpace(s[0]) then
      var r := TrimStart(s[1..]);
      assert s[..|s| - |r|] == [s[0]] + s[1..][..|s| - 1 - |r|];
      r
    else s
  }

  /** Drops trailing white space: the result is the prefix of `s` that
      ends at its last non-space character. */
  function TrimEnd(s: string): (r: string)
    ensures |r| <= |s| && r == s[..|r|]
    ensures AllSpace(s[|r|..])
    ensures r == [] || !IsSpace(r[|r| - 1])
  {
    if |s| > 0 && IsSpace(s[|s| - 1]) then
      var r := TrimEnd(s[..|s| - 1]);
      assert s[|r|..] == s[..|s| - 1][|r|..] + [s[|s| - 1]];
      r
    else s
  }

  /** How many characters `trim` drops at the front of `s`. */
  function TrimOffset(s: string): (k: nat)
    ensures k <= |s|
  {
    |s| - |TrimStart(s)|
  }

  /** `s.trim()`: the infix of `s` left after removing white space at
      both ends. */
  function Trim(s: string): (r: string)
    ensures TrimOffset(s) + |r| <= |s| && r == s[TrimOffset(s)..TrimOffset(s) + |r|]
    ensures AllSpace(s[..TrimOffset(s)]) && AllSpace(s[TrimOffset(s) + |r|..])
    ensures r == [] || (!IsSpace(r[0]) && !IsSpace(r[|r| - 1]))
  {
    var t := TrimStart(s);
    var r := TrimEnd(t);
    SuffixSlices(s, t, |r|);
    r
  }

  /** Slices of a suffix `t` of `s` are slices of `s`, shifted. */
  lemma SuffixSlices(s: string, t: string, n: nat)
    requires |t| <= |s| && t == s[|s| - |t|..] && n <= |t|
    ensures t[..n] == s[|s| - |t|..|s| - |t| + n]
    ensures t[n..] == s[|s| - |t| + n..]
  {
  }

  /** A string is blank after trimming exactly when every character of it
      is white space; this is the test `!name.trim()` performs. */
  lemma {:induction false} TrimEmptyIffAllSpace(s: string)
    ensures Trim(s) == [] <==> AllSpace(s)
  {
    var t := TrimStart(s);
    if !AllSpace(s) {
      var i :| 0 <= i < |s| && !IsSpace(s[i]);
      assert i >= |s| - |t|;
      assert t != [];
      assert !IsSpace(t[0]);
      assert TrimEnd(t) != [];
    }
  }

  /** Trimming twice is trimming once. */
  lemma TrimIdempotent(s: string)
    ensures Trim(Trim(s)) == Trim(s)
  {
    var r := Trim(s);
    if r != [] {
      assert !IsSpace(r[0]) && !IsSpace(r[|r| - 1]);
      assert TrimStart(r) == r;
      assert TrimEnd(r) == r;
    }
  }

  /** `s.slice(0, n)` for `n >= 0`: the first `n` characters, or all of
      them when `s` is shorter. */
  function SlicePrefix(s: string, n: nat): (r: string)
    ensures |r| == Min(n, |s|)
    ensures r == s[..|r|]
  {
    if |s| <= n then s else s[..n]
  }

  // ---- digits and numbers ----------------------------------------------

  predicate IsDigit(c: char) {
    '0' <= c <= '9'
  }

  predicate AllDigits(s: string) {
    forall i :: 0 <= i < |s| ==> IsDigit(s[i])
  }

  /** A digit of the given radix (10 or 16, the only radixes `parseInt`
      picks when no radix is passed). */
  predicate IsRadixDigit(c: char, radix: nat) {
    if radix == 16 then IsDigit(c) || ('a' <= c <= 'f') || ('A' <= c <= 'F')
    else IsDigit(c)
  }

  function RadixDigitValue(c: char, radix: nat): (v: nat)
    requires IsRadixDigit(c, radix)
    ensures v < (if radix == 16 then 16 else 10)
  {
    if IsDigit(c) then c as int - '0' as int
    else if 'a' <= c <= 'f' then c as int - 'a' as int + 10
    else c as int - 'A' as int + 10
  }

  /** The number a string of radix digits denotes, most significant first. */
  function RadixValue(d: string, radix: nat): nat
    requires forall i :: 0 <= i < |d| ==> IsRadixDigit(d[i], radix)
  {
    if d == [] then 0
    else RadixValue(d[..|d| - 1], radix) * radix + RadixDigitValue(d[|d| - 1], radix)
  }

  function DecimalValue(d: string): nat
    requires AllDigits(d)
  {
    RadixValue(d, 10)
  }

  function DigitChar(v: nat): (c: char)
    requires v < 10
    ensures IsDigit(c) && RadixDigitValue(c, 10) == v
  {
    ('0' as int + v) as char
  }

  /** The canonical decimal spelling of `n`: digits only, no leading zero
      unless `n` is zero itself. */
  function DecimalString(n: nat): (d: string)
    ensures |d| > 0 && AllDigits(d)
    ensures d[0] == '0' ==> n == 0
  {
    if n < 10 then [DigitChar(n)] else DecimalString(n / 10) + [DigitChar(n % 10)]
  }

  /** Reading back the decimal spelling of `n` gives `n`. */
  lemma {:induction false} DecimalRoundTrip(n: nat)
    ensures DecimalValue(DecimalString(n)) == n
  {
    var d := DecimalString(n);
    if n >= 10 {
      assert d[..|d| - 1] == DecimalString(n / 10);
      assert d[|d| - 1] == DigitChar(n % 10);
      DecimalRoundTrip(n / 10);
    } else {
      assert d == [DigitChar(n)];
      assert d[..0] == [];
      assert DecimalValue(d) == RadixValue(d[..0], 10) * 10 + RadixDigitValue(d[0], 10);
    }
  }

  /** The longest prefix of `s` made of radix digits. */
  function LeadingDigits(s: string, radix: nat): (z: string)
    ensures |z| <= |s| && z == s[..|z|]
    ensures forall i :: 0 <= i < |z| ==> IsRadixDigit(z[i], radix)
    ensures |z| < |s| ==> !IsRadixDigit(s[|z|], radix)
  {
    if |s| > 0 && IsRadixDigit(s[0], radix) then [s[0]] + LeadingDigits(s[1..], radix) else []
  }

  /** `parseInt(s)` with no radix argument (section 19.2.5 of ECMA-262):
      skip leading white space, read an optional sign, switch to radix 16
      after a `0x`/`0X` prefix, then read the longest run of digits.
      `None` stands for `NaN` (no digit at all). The result is the signed
      mathematical integer read; the final rounding to a double is not
      applied. */
  function ParseInt(s: string): (r: Option<int>)
    ensures r.Some? ==> |TrimStart(s)| > 0
    ensures r.Some? && r.value < 0 ==> TrimStart(s)[0] == '-'
  {
    var t := TrimStart(s);
    if |t| > 0 && t[0] == '-' then Negate(ParseMagnitude(t[1..]))
    else if |t| > 0 && t[0] == '+' then ParseMagnitude(t[1..])
    else ParseMagnitude(t)
  }

  function Negate(m: Option<nat>): Option<int> {
    match m
    case None => None
    case Some(v) => Some(-(v as int))
  }

  /** The unsigned part of `parseInt`: radix 16 after a `0x`/`0X` prefix,
      radix 10 otherwise, then the longest run of digits of that radix. */
  function ParseMagnitude(u: string): Option<nat> {
    var hex := |u| >= 2 && u[0] == '0' && (u[1] == 'x' || u[1] == 'X');
    var radix := if hex then 16 else 10;
    var z := LeadingDigits(if hex then u[2..] else u, radix);
    if z == [] then None else Some(RadixValue(z, radix))
  }

  /** `parseInt` on a string that starts with neither white space nor a
      sign reads its magnitude directly. */
  lemma ParseIntUnsigned(s: string)
    requires |s| > 0 && !IsSpace(s[0]) && s[0] != '-' && s[0] != '+'
    ensures ParseInt(s) == ParseMagnitude(s)
  {
    assert TrimStart(s) == s;
  }

  /** `parseInt` on a minus sign followed by `u` negates the magnitude of `u`. */
  lemma ParseIntMinus(u: string)
    ensures ParseInt("-" + u) == Negate(ParseMagnitude(u))
  {
    var s := "-" + u;
    assert s[0] == '-' && !IsSpace(s[0]);
    assert TrimStart(s) == s;
    assert s[1..] == u;
  }

  /** A string of decimal digits parses to the number it spells, leading
      zeros included; this is how a captured `\d+` group is read. */
  lemma DigitsParse(d: string)
    requires |d| > 0 && AllDigits(d)
    ensures ParseInt(d) == Some(DecimalValue(d))
  {
    assert IsDigit(d[0]);
    ParseIntUnsigned(d);
    DigitsLeading(d, "");
    assert d + "" == d;
    if |d| >= 2 && d[0] == '0' {
      assert IsDigit(d[1]);
    }
  }

  /** A run of decimal digits followed by a non-digit is read up to the
      non-digit. */
  lemma {:induction false} DigitsLeading(d: string, rest: string)
    requires AllDigits(d)
    requires rest == [] || !IsDigit(rest[0])
    ensures LeadingDigits(d + rest, 10) == d
  {
    if d != [] {
      assert (d + rest)[1..] == d[1..] + rest;
      DigitsLeading(d[1..], rest);
    } else {
      assert d + rest == rest;
    }
  }

  /** After white space and sign are dealt with: a decimal spelling
      followed by a non-digit is read as its number. */
  lemma UnsignedDecimal(n: nat, rest: string)
    requires rest == [] || (!IsDigit(rest[0]) && (n == 0 ==> rest[0] != 'x' && rest[0] != 'X'))
    ensures ParseMagnitude(DecimalString(n) + rest) == Some(n)
  {
    var d := DecimalString(n);
    var u := d + rest;
    if |u| >= 2 && u[0] == '0' {
      assert d == DecimalString(0) == "0";
      assert u[1] == rest[0];
    }
    DigitsLeading(d, rest);
    DecimalRoundTrip(n);
  }

  /** `parseInt` reads the decimal spelling of a non-negative integer
      back and stops at the first non-digit after it (unless the numeral
      is "0" and an `x` follows, which makes a hex prefix). */
  lemma ParseIntDecimal(n: nat, rest: string)
    requires rest == [] || (!IsDigit(rest[0]) && (n == 0 ==> rest[0] != 'x' && rest[0] != 'X'))
    ensures ParseInt(DecimalString(n) + rest) == Some(n)
  {
    var s := DecimalString(n) + rest;
    assert s[0] == DecimalString(n)[0];
    ParseIntUnsigned(s);
    UnsignedDecimal(n, rest);
  }

  /** The same with a minus sign in front. */
  lemma ParseIntNegativeDecimal(n: nat, rest: string)
    requires rest == [] || (!IsDigit(rest[0]) && (n == 0 ==> rest[0] != 'x' && rest[0] != 'X'))
    ensures ParseInt("-" + DecimalString(n) + rest) == Some(-(n as int))
  {
    var d := DecimalString(n);
    UnsignedDecimal(n, rest);
    assert "-" + d + rest == "-" + (d + rest);
    NegatedMagnitude("-" + d + rest, d + rest, n);
  }

  /** A minus sign in front of a string of magnitude `m` parses to `-m`. */
  lemma NegatedMagnitude(s: string, u: string, m: nat)
    requires s == "-" + u && ParseMagnitude(u) == Some(m)
    ensures ParseInt(s) == Some(-(m as int))
  {
    ParseIntMinus(u);
  }

  /** A string with no decimal digit in it parses to `NaN`. */
  lemma NoDigitIsNaN(s: string)
    requires forall i :: 0 <= i < |s| ==> !IsDigit(s[i])
    ensures ParseInt(s) == None
  {
    var t := TrimStart(s);
    assert forall i :: 0 <= i < |t| ==> t[i] == s[|s| - |t| + i];
    var u := if |t| > 0 && (t[0] == '-' || t[0] == '+') then t[1..] else t;
    assert forall i :: 0 <= i < |u| ==> !IsDigit(u[i]);
    assert ParseMagnitude(u) == None by {
      if |u| > 0 {
        assert !IsDigit(u[0]);
      }
    }
  }
}
