/** Integer text of the legacy key files: `strtol(buf, &end, 0)` on a 64-bit
    `long` as glibc defines it, the checks `get_int_from_file` puts on its
    result, and the `%d` / `%x` texts the client writes. */
module LegacyParse {
  import opened Base

  const LongMax: int := 0x7fff_ffff_ffff_ffff
  const LongMin: int := -0x8000_0000_0000_0000
  const IntMax: int := 0x7fff_ffff
  const IntMin: int := -0x8000_0000

  // ---------------------------------------------------------------------------
  // Characters

  /** `isspace` in the C locale. */
  predicate IsSpace(c: char)
  {
    c == ' ' || 9 <= c as int <= 13
  }

  /** The digit a character stands for in bases up to 36, either case. */
  function DigitValue(c: char): (d: Option<nat>)
    ensures d.Some? ==> d.value < 36
  {
    if '0' <= c <= '9' then Some(c as int - '0' as int)
    else if 'a' <= c <= 'z' then Some(c as int - 'a' as int + 10)
    else if 'A' <= c <= 'Z' then Some(c as int - 'A' as int + 10)
    else None
  }

  predicate IsDigitIn(c: char, base: nat)
  {
    DigitValue(c).Some? && DigitValue(c).value < base
  }

  /** The character `%x` / `%d` print for a digit (lower case). */
  function DigitChar(d: nat): (c: char)
    requires d < 36
    ensures DigitValue(c) == Some(d)
  {
    if d < 10 then ('0' as int + d) as char else ('a' as int + d - 10) as char
  }

  // ---------------------------------------------------------------------------
  // strtol with base 0

  /** Length of the leading white space. */
  function LeadingSpaces(s: string): (n: nat)
    ensures n <= |s|
    ensures n < |s| ==> !IsSpace(s[n])
  {
    if s == [] || !IsSpace(s[0]) then 0 else 1 + LeadingSpaces(s[1..])
  }

  /** Length of the leading run of digits of `base`. */
  function DigitRun(s: string, base: nat): (n: nat)
    ensures n <= |s|
    ensures forall i :: 0 <= i < n ==> IsDigitIn(s[i], base)
    ensures n < |s| ==> !IsDigitIn(s[n], base)
  {
    if s == [] || !IsDigitIn(s[0], base) then 0 else 1 + DigitRun(s[1..], base)
  }

  /** The value of the first `n` characters read as digits of `base`. */
  function DigitsValue(s: string, base: nat, n: nat): nat
    requires n <= |s|
  {
    if n == 0 then 0
    else
      var d := DigitValue(s[n - 1]);
      DigitsValue(s, base, n - 1) * base + (if d.Some? then d.value else 0)
  }

  /** What `strtol` returns and where it stops, as an offset into the text. */
  datatype Parsed = Parsed(value: int, end: nat)

  /** A magnitude outside the range of `long` saturates, as `strtol` does. */
  function Clamp(v: int): int
  {
    if v > LongMax then LongMax else if v < LongMin then LongMin else v
  }

  /** The base `strtol` picks when given 0, and the length of the prefix it
      skips: "0x"/"0X" before a hex digit is hexadecimal, another leading
      '0' octal (the '0' is a digit of the number), anything else decimal.
      A "0x" not followed by a hex digit is the number 0 ending before the
      'x'. */
  function BaseOf(body: string): (r: (nat, nat))
    ensures r.1 <= |body|
  {
    if |body| >= 3 && body[0] == '0' && (body[1] == 'x' || body[1] == 'X') && IsDigitIn(body[2], 16) then (16, 2)
    else if |body| >= 1 && body[0] == '0' then (8, 0)
    else (10, 0)
  }

  /** `strtol(s, &end, 0)`: white space, an optional sign, the base prefix,
      the digits. With no digits the value is 0 and `end` is the start. */
  function Strtol(s: string): (p: Parsed)
    ensures p.end <= |s|
    ensures LongMin <= p.value <= LongMax
  {
    var ws := LeadingSpaces(s);
    var t := s[ws..];
    var signLen := if |t| > 0 && (t[0] == '+' || t[0] == '-') then 1 else 0;
    var neg := signLen == 1 && t[0] == '-';
    var body := t[signLen..];
    var (base, prefix) := BaseOf(body);
    var digits := body[prefix..];
    var n := DigitRun(digits, base);
    if n == 0 then Parsed(0, 0)
    else
      var mag := DigitsValue(digits, base, n);
      Parsed(Clamp(if neg then -(mag as int) else mag), ws + signLen + prefix + n)
  }

  /** `(int)` of a `long`: the low 32 bits as a signed value. */
  function Int32Of(v: int): (r: int)
    ensures IntMin <= r <= IntMax
    ensures IntMin <= v <= IntMax ==> r == v
  {
    (v - IntMin) % 0x1_0000_0000 + IntMin
  }

  /** `get_int_from_file` once the text is read: rejected with -EINVAL when
      empty, when `strtol` saturated, when the character after the number
      is neither the end nor a newline, or when the value is above
      INT_MAX. Nothing after that character is looked at. */
  function ParseInt(text: string): (r: Result<int>)
    ensures r.Err? ==> r.code == -EINVAL
    ensures r.Ok? ==> text != [] && IntMin <= r.value <= IntMax
  {
    var p := Strtol(text);
    if p.value == LongMin || p.value == LongMax || text == []
       || (p.end < |text| && text[p.end] != '\n') || p.value > IntMax
    then Err(-EINVAL)
    else Ok(Int32Of(p.value))
  }

  // ---------------------------------------------------------------------------
  // Printing

  /** `printf` of a non-negative value in `base`, lower-case digits, no
      prefix: `%d` for 10, `%x` for 16. */
  function Text(v: nat, base: nat): (s: string)
    requires 2 <= base <= 36
    ensures s != []
    decreases v
  {
    if v < base then [DigitChar(v)] else Text(v / base, base) + [DigitChar(v % base)]
  }

  function DecimalText(v: nat): string
  {
    Text(v, 10)
  }

  function HexText(v: nat): string
  {
    Text(v, 16)
  }

  // ---------------------------------------------------------------------------
  // Properties of the parser

  /** One step of printing: the quotient is smaller and the remainder a digit. */
  lemma DivStep(v: nat, base: nat)
    requires 2 <= base <= v
    ensures 1 <= v / base < v && v % base < base
    ensures v == (v / base) * base + v % base
  {
  }

  lemma {:induction false} TextDigits(v: nat, base: nat)
    requires 2 <= base <= 36
    ensures forall i :: 0 <= i < |Text(v, base)| ==> IsDigitIn(Text(v, base)[i], base)
    ensures v >= base ==> Text(v, base)[0] == Text(v / base, base)[0]
    ensures Text(v, base)[0] == '0' <==> v == 0
    decreases v
  {
    if v >= base {
      var q := v / base;
      DivStep(v, base);
      TextDigits(q, base);
      var s := Text(q, base);
      assert Text(v, base) == s + [DigitChar(v % base)];
      forall i | 0 <= i < |Text(v, base)|
        ensures IsDigitIn(Text(v, base)[i], base)
      {
        if i < |s| {
          assert Text(v, base)[i] == s[i];
        }
      }
    }
  }

  lemma {:induction false} DigitsValuePrefix(s: string, t: string, base: nat, n: nat)
    requires n <= |s|
    ensures DigitsValue(s + t, base, n) == DigitsValue(s, base, n)
  {
    if n > 0 {
      DigitsValuePrefix(s, t, base, n - 1);
      assert (s + t)[n - 1] == s[n - 1];
    }
  }

  /** The digits printed for `v` read back as `v`. */
  lemma {:induction false} TextValue(v: nat, base: nat)
    requires 2 <= base <= 36
    ensures DigitsValue(Text(v, base), base, |Text(v, base)|) == v
    decreases v
  {
    if v >= base {
      var q, r := v / base, v % base;
      DivStep(v, base);
      var s := Text(q, base);
      TextValue(q, base);
      assert Text(v, base) == s + [DigitChar(r)];
      DigitsValuePrefix(s, [DigitChar(r)], base, |s|);
    }
  }

  lemma {:induction false} DigitRunAppend(s: string, t: string, base: nat)
    requires forall i :: 0 <= i < |s| ==> IsDigitIn(s[i], base)
    requires t == [] || !IsDigitIn(t[0], base)
    ensures DigitRun(s + t, base) == |s|
    decreases |s|
  {
    if s != [] {
      assert (s + t)[1..] == s[1..] + t;
      DigitRunAppend(s[1..], t, base);
    }
  }

  /** A number printed with `%d`, followed by the end of the text or by a
      newline (and then anything), reads back as itself. */
  lemma DecimalRoundTrip(v: nat, tail: string)
    requires v <= IntMax
    requires tail == [] || tail[0] == '\n'
    ensures ParseInt(DecimalText(v) + tail) == Ok(v)
  {
    var base := DecimalDigits(v, tail);
    ParseUnprefixed(DecimalText(v) + tail, base, |DecimalText(v)|, v);
  }

  /** `%d` output followed by a newline or nothing: its digits form the
      leading run in the base `strtol` picks, and their value is `v`. */
  lemma DecimalDigits(v: nat, tail: string) returns (base: nat)
    requires tail == [] || tail[0] == '\n'
    ensures var text := DecimalText(v) + tail;
      && IsDigitIn(text[0], 10) && BaseOf(text) == (base, 0)
      && DigitRun(text, base) == |DecimalText(v)| && DigitsValue(text, base, |DecimalText(v)|) == v
  {
    var s := DecimalText(v);
    var text := s + tail;
    TextDigits(v, 10);
    TextValue(v, 10);
    assert text[0] == s[0];
    base := if v == 0 then 8 else 10;
    if v == 0 {
      assert s == ['0'];
      assert IsDigitIn(s[0], 8);
    }
    assert BaseOf(text) == (base, 0);
    DigitRunAppend(s, tail, base);
    DigitsValuePrefix(s, tail, base, |s|);
  }

  /** A text that starts with a digit, has no base prefix and ends its digit
      run at a newline or at its end is parsed as that run. */
  lemma ParseUnprefixed(text: string, base: nat, n: nat, v: nat)
    requires text != [] && IsDigitIn(text[0], 10) && BaseOf(text) == (base, 0)
    requires 0 < n == DigitRun(text, base) && DigitsValue(text, base, n) == v <= IntMax
    requires n == |text| || text[n] == '\n'
    ensures ParseInt(text) == Ok(v)
  {
    StrtolUnprefixed(text, base, n, v);
  }

  /** A text that starts with a digit and has no base prefix is read as
      its leading run of digits. */
  lemma StrtolUnprefixed(text: string, base: nat, n: nat, v: nat)
    requires text != [] && IsDigitIn(text[0], 10) && BaseOf(text) == (base, 0)
    requires 0 < n == DigitRun(text, base) && DigitsValue(text, base, n) == v <= IntMax
    ensures Strtol(text) == Parsed(v, n)
  {
    assert LeadingSpaces(text) == 0;
    assert text[0..] == text;
  }

  /** A number printed with `%x` behind a "0x" prefix reads back as itself. */
  lemma PrefixedHexRoundTrip(v: nat)
    requires v <= IntMax
    ensures ParseInt("0x" + HexText(v)) == Ok(v)
  {
    var s := HexText(v);
    var text := "0x" + s;
    TextDigits(v, 16);
    TextValue(v, 16);
    assert LeadingSpaces(text) == 0;
    assert text[0..] == text;
    assert BaseOf(text) == (16, 2);
    assert text[2..] == s;
    DigitRunAppend(s, [], 16);
    assert s + [] == s;
    assert Strtol(text) == Parsed(v, |text|);
  }

  /** A negative number printed with `%d` reads back as itself. */
  lemma NegativeRoundTrip(v: nat)
    requires 0 < v <= -IntMin
    ensures ParseInt("-" + DecimalText(v)) == Ok(-(v as int))
  {
    var s := DecimalText(v);
    var text := "-" + s;
    TextDigits(v, 10);
    TextValue(v, 10);
    assert LeadingSpaces(text) == 0;
    assert text[0..] == text;
    assert text[1..] == s;
    assert BaseOf(s) == (10, 0);
    DigitRunAppend(s, [], 10);
    assert s + [] == s;
    assert Strtol(text) == Parsed(-(v as int), |text|);
  }

  /** A value above INT_MAX is rejected, whether or not it saturates. */
  lemma AboveIntMaxRejected(v: nat)
    requires v > IntMax
    ensures ParseInt(DecimalText(v)) == Err(-EINVAL)
  {
    var s := DecimalText(v);
    TextDigits(v, 10);
    TextValue(v, 10);
    assert LeadingSpaces(s) == 0;
    assert s[0..] == s;
    assert BaseOf(s) == (10, 0);
    DigitRunAppend(s, [], 10);
    assert s + [] == s;
    assert Strtol(s).value == Clamp(v);
  }

  /** A number followed by any character other than a newline (and not
      continuing it) is rejected. */
  lemma TrailingRejected(v: nat, c: char, rest: string)
    requires 0 < v <= IntMax
    requires c != '\n' && !IsDigitIn(c, 10)
    ensures ParseInt(DecimalText(v) + [c] + rest) == Err(-EINVAL)
  {
    var s := DecimalText(v);
    var text := s + [c] + rest;
    TextDigits(v, 10);
    TextValue(v, 10);
    assert text == s + ([c] + rest);
    assert text[0] == s[0];
    assert LeadingSpaces(text) == 0;
    assert text[0..] == text;
    assert BaseOf(text) == (10, 0);
    DigitRunAppend(s, [c] + rest, 10);
    DigitsValuePrefix(s, [c] + rest, 10, |s|);
    assert Strtol(text) == Parsed(v, |s|);
    assert text[|s|] == c;
  }

  /** The empty text is rejected, but a lone newline reads as 0: `strtol`
      finds no digits, so the end is the first character, a newline. */
  lemma EmptyAndNewline()
    ensures ParseInt("") == Err(-EINVAL)
    ensures ParseInt("\n") == Ok(0)
  {
    assert LeadingSpaces("\n") == 1;
    assert Strtol("\n") == Parsed(0, 0);
  }

  /** The lower-case hexadecimal the client writes for the default vendor
      ID 0x04e8 ("4e8") does not read back: it parses as decimal 4 followed
      by 'e'. */
  lemma UnprefixedHexRejected()
    ensures HexText(0x04e8) == "4e8"
    ensures ParseInt(HexText(0x04e8)) == Err(-EINVAL)
  {
    assert 0x04e8 / 16 == 0x4e && 0x04e8 % 16 == 8;
    assert 0x4e / 16 == 4 && 0x4e % 16 == 14;
    assert Text(4, 16) == ['4'];
    assert Text(0x4e, 16) == ['4', 'e'];
    assert Text(0x04e8, 16) == ['4', 'e', '8'];
    var s := "4e8";
    assert LeadingSpaces(s) == 0;
    assert s[0..] == s;
    assert BaseOf(s) == (10, 0);
    assert DigitRun(s, 10) == 1;
    assert Strtol(s) == Parsed(4, 1);
  }
}
