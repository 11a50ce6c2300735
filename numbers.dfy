/**
 * The C library's `strtol(s, NULL, 0)`, as the skin loader uses it to read
 * integer values ("base 0": optional leading white space, an optional sign,
 * then a `0x`/`0X` hexadecimal, a leading-`0` octal or a decimal literal; the
 * longest run of digits is read and the rest of the string is ignored).
 * Overflow of `long` is not modelled: integers are unbounded.
 *
 * The printers `Decimal`, `Hex` and `Octal` are the partners used to state
 * the round trips, one per branch of the base choice.
 */
module Numbers {

  /** The digit value of `c` in bases up to 36, or 36 when `c` is no digit at all. */
  function DigitValue(c: char): (v: nat)
    ensures v <= 36
    ensures '0' <= c <= '9' ==> v == c as int - '0' as int
  {
    if '0' <= c <= '9' then c as int - '0' as int
    else if 'a' <= c <= 'z' then c as int - 'a' as int + 10
    else if 'A' <= c <= 'Z' then c as int - 'A' as int + 10
    else 36
  }

  predicate IsDigit(c: char, base: nat)
  {
    DigitValue(c) < base
  }

  /** `isspace` in the C locale: space, tab, newline, vertical tab, form feed, carriage return. */
  predicate IsSpace(c: char)
  {
    c == ' ' || '\t' <= c <= '\r'
  }

  /** The string after its leading white space. */
  function SkipSpaces(s: string): string
  {
    if s != [] && IsSpace(s[0]) then SkipSpaces(s[1..]) else s
  }

  /** Skipping drops exactly the leading white space: what is left is a suffix that starts with no space. */
  lemma {:induction false} SkipSpacesSuffix(s: string)
    ensures |SkipSpaces(s)| <= |s| && SkipSpaces(s) == s[|s| - |SkipSpaces(s)|..]
    ensures forall i :: 0 <= i < |s| - |SkipSpaces(s)| ==> IsSpace(s[i])
    ensures SkipSpaces(s) == [] || !IsSpace(SkipSpaces(s)[0])
  {
    if s != [] && IsSpace(s[0]) {
      SkipSpacesSuffix(s[1..]);
      assert forall i :: 1 <= i < |s| ==> s[i] == s[1..][i - 1];
    }
  }

  /** The number of leading characters of `s` that are digits in `base`. */
  function DigitRun(s: string, base: nat): (n: nat)
    ensures n <= |s|
  {
    if s == [] || !IsDigit(s[0], base) then 0 else 1 + DigitRun(s[1..], base)
  }

  /** The run is the longest prefix of digits: every character in it is a digit and the next one is not. */
  lemma {:induction false} DigitRunMaximal(s: string, base: nat)
    ensures forall i :: 0 <= i < DigitRun(s, base) ==> IsDigit(s[i], base)
    ensures DigitRun(s, base) < |s| ==> !IsDigit(s[DigitRun(s, base)], base)
  {
    if s != [] && IsDigit(s[0], base) {
      DigitRunMaximal(s[1..], base);
      assert forall i :: 1 <= i < |s| ==> s[i] == s[1..][i - 1];
    }
  }

  /** The value of the digit string `s` read in `base`, most significant digit first. */
  function DigitsValue(s: string, base: nat): nat
  {
    if s == [] then 0
    else DigitsValue(s[..|s| - 1], base) * base + DigitValue(s[|s| - 1])
  }

  /** The value of the unsigned literal at the start of `s`, the base chosen by its prefix. */
  function Magnitude(s: string): nat
  {
    if |s| >= 3 && s[0] == '0' && (s[1] == 'x' || s[1] == 'X') && IsDigit(s[2], 16) then
      var t := s[2..];
      DigitsValue(t[..DigitRun(t, 16)], 16)
    else if |s| >= 1 && s[0] == '0' then
      DigitsValue(s[..DigitRun(s, 8)], 8)
    else
      DigitsValue(s[..DigitRun(s, 10)], 10)
  }

  /** `strtol(s, NULL, 0)`. */
  function ParseInt(s: string): int
  {
    var t := SkipSpaces(s);
    if |t| > 0 && t[0] == '-' then -(Magnitude(t[1..]) as int)
    else if |t| > 0 && t[0] == '+' then Magnitude(t[1..])
    else Magnitude(t)
  }

  /** The digit of value `d`: '0'..'9', then 'a'..'f'. */
  function DigitChar(d: nat): (c: char)
    requires d < 16
    ensures DigitValue(c) == d
  {
    if d < 10 then ('0' as int + d) as char else ('a' as int + d - 10) as char
  }

  /** The digits of `n` in `base` (2 to 16), most significant first, without leading zeros. */
  function Digits(n: nat, base: nat): (s: string)
    requires 2 <= base <= 16
    ensures |s| >= 1
    ensures forall i :: 0 <= i < |s| ==> IsDigit(s[i], base)
    ensures n == 0 <==> s[0] == '0'
  {
    if n < base then [DigitChar(n)]
    else
      DivMod(n, base);
      Digits(n / base, base) + [DigitChar(n % base)]
  }

  /** The decimal text of `n`, as `printf("%d")` writes it. */
  function Decimal(n: int): string
  {
    if n < 0 then "-" + Digits(-n, 10) else Digits(n, 10)
  }

  /** The hexadecimal text of `n`, as `printf("%#x")` writes it for a non-zero `n`. */
  function Hex(n: nat): string
  {
    "0x" + Digits(n, 16)
  }

  /** The octal text of `n`, as `printf("%#o")` writes it for a non-zero `n`. */
  function Octal(n: nat): string
  {
    "0" + Digits(n, 8)
  }

  /**
   * What may follow the decimal text of `n` so that `strtol` stops right
   * after it: no decimal digit, and after a lone 0 no `x` or `X` followed by
   * a hexadecimal digit (that would read as a hexadecimal prefix).
   */
  predicate EndsDecimal(n: int, rest: string)
  {
    (rest == [] || !IsDigit(rest[0], 10)) &&
    (n == 0 ==> !(|rest| >= 2 && (rest[0] == 'x' || rest[0] == 'X') && IsDigit(rest[1], 16)))
  }

  /** Reading the printed digits back in the same base gives the number. */
  lemma {:induction false} DigitsValueOf(n: nat, base: nat)
    requires 2 <= base <= 16
    ensures DigitsValue(Digits(n, base), base) == n
  {
    var s := Digits(n, base);
    DigitsLast(n, base);
    if n >= base {
      hide *;
      var q, r := n / base, n % base;
      DivMod(n, base);
      DigitsValueOf(q, base);
      DigitsValueSnoc(Digits(q, base), DigitChar(r), base);
      var v := DigitsValue(Digits(q, base), base);
      assert s == Digits(q, base) + [DigitChar(r)];
      assert DigitsValue(s, base) == v * base + r;
      assert v == q;
    } else {
      assert s[..0] == [];
    }
  }

  /** `Digits` unfolded once. */
  lemma DigitsLast(n: nat, base: nat)
    requires 2 <= base <= 16
    ensures n < base ==> Digits(n, base) == [DigitChar(n)]
    ensures n >= base ==> Digits(n, base) == Digits(n / base, base) + [DigitChar(n % base)]
  {
  }

  lemma DivMod(n: nat, base: nat)
    requires 2 <= base <= n
    ensures n / base * base + n % base == n && n % base < base
    ensures 1 <= n / base < n
  {
  }

  /** Appending a digit multiplies the value by the base and adds the digit. */
  lemma DigitsValueSnoc(s: string, c: char, base: nat)
    ensures DigitsValue(s + [c], base) == DigitsValue(s, base) * base + DigitValue(c)
  {
    assert (s + [c])[..|s|] == s;
  }

  /** A leading zero does not change the value of a digit string. */
  lemma {:induction false} DigitsValueLeadingZero(s: string, base: nat)
    ensures DigitsValue("0" + s, base) == DigitsValue(s, base)
  {
    if s != [] {
      var t := "0" + s;
      assert t[..|t| - 1] == "0" + s[..|s| - 1];
      DigitsValueLeadingZero(s[..|s| - 1], base);
    }
  }

  lemma {:induction false} DigitRunAppend(d: string, rest: string, base: nat)
    requires forall i :: 0 <= i < |d| ==> IsDigit(d[i], base)
    requires rest == [] || !IsDigit(rest[0], base)
    ensures DigitRun(d + rest, base) == |d|
  {
    if d != [] {
      assert (d + rest)[1..] == d[1..] + rest;
      DigitRunAppend(d[1..], rest, base);
    }
  }

  /** The unsigned literal printed by `Digits(n, 10)` reads back as the same number. */
  lemma MagnitudeOfDecimal(n: nat, rest: string)
    requires EndsDecimal(n, rest)
    ensures Magnitude(Digits(n, 10) + rest) == n
  {
    var d := Digits(n, 10);
    var s := d + rest;
    DigitsValueOf(n, 10);
    if n == 0 {
      assert d == "0" && s[0] == '0';
      assert |s| >= 2 ==> s[1] == rest[0];
      assert |s| >= 3 ==> s[2] == rest[1];
      DigitRunAppend(d, rest, 8);
      assert s[..DigitRun(s, 8)] == d;
      assert Magnitude(s) == DigitsValue(s[..DigitRun(s, 8)], 8);
      assert DigitsValue(d, 8) == 0;
    } else {
      assert s[0] == d[0] != '0';
      DigitRunAppend(d, rest, 10);
      assert s[..DigitRun(s, 10)] == d;
    }
  }

  /** Round trip: `strtol` reads back what `%d` printed, whatever follows that does not continue the number. */
  lemma ParseDecimal(n: int, rest: string)
    requires EndsDecimal(n, rest)
    ensures ParseInt(Decimal(n) + rest) == n
  {
    var m: nat := if n < 0 then -n else n;
    var d := Digits(m, 10);
    assert IsDigit(d[0], 10);
    assert (d + rest)[0] == d[0];
    MagnitudeOfDecimal(m, rest);
    if n < 0 {
      assert Decimal(n) + rest == "-" + (d + rest);
      ParseNegative(d + rest);
    } else {
      assert Decimal(n) + rest == d + rest;
      ParseUnsigned(d + rest);
    }
  }

  /** Round trip in base 16: `strtol` reads back a `0x` literal, whatever non-hexadecimal text follows. */
  lemma ParseHex(n: nat, rest: string)
    requires rest == [] || !IsDigit(rest[0], 16)
    ensures ParseInt(Hex(n) + rest) == n
  {
    var h := Digits(n, 16);
    var s := Hex(n) + rest;
    assert s == "0x" + (h + rest);
    assert s[0] == '0' && s[1] == 'x' && s[2] == h[0];
    assert SkipSpaces(s) == s;
    var t := s[2..];
    assert t == h + rest;
    DigitRunAppend(h, rest, 16);
    assert t[..DigitRun(t, 16)] == h;
    DigitsValueOf(n, 16);
  }

  /** Round trip in base 8: `strtol` reads back a literal with a leading 0, whatever non-octal text follows. */
  lemma ParseOctal(n: nat, rest: string)
    requires rest == [] || !IsDigit(rest[0], 8)
    ensures ParseInt(Octal(n) + rest) == n
  {
    var o := Digits(n, 8);
    var s := Octal(n) + rest;
    assert s == ("0" + o) + rest;
    assert s[0] == '0' && s[1] == o[0];
    assert SkipSpaces(s) == s;
    assert forall i :: 0 <= i < |"0" + o| ==> IsDigit(("0" + o)[i], 8);
    DigitRunAppend("0" + o, rest, 8);
    assert s[..DigitRun(s, 8)] == "0" + o;
    DigitsValueLeadingZero(o, 8);
    DigitsValueOf(n, 8);
  }

  lemma ParseNegative(s: string)
    ensures ParseInt("-" + s) == -(Magnitude(s) as int)
  {
    var t := "-" + s;
    assert SkipSpaces(t) == t;
    assert t[1..] == s;
  }

  lemma ParseUnsigned(s: string)
    requires s != [] && IsDigit(s[0], 10)
    ensures ParseInt(s) == Magnitude(s)
  {
    assert SkipSpaces(s) == s;
  }
}
