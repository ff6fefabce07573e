/** Decimal printing and scanning of unsigned numbers, as the C library's "%u",
    "%lu" and strtoul do it, and the order strcmp puts on strings. */
module Text {

  datatype Option<+T> = None | Some(value: T)

  const ULONG_MAX: nat := 0xFFFF_FFFF_FFFF_FFFF
  const UINT_RANGE: nat := 0x1_0000_0000

  predicate IsDigit(c: char) { '0' <= c <= '9' }

  predicate AllDigits(s: string) { forall i :: 0 <= i < |s| ==> IsDigit(s[i]) }

  function DigitChar(d: nat): char
    requires d < 10
  {
    ('0' as int + d) as char
  }

  /** What "%u" prints for n. */
  function Decimal(n: nat): (s: string)
    ensures |s| > 0 && AllDigits(s)
  {
    if n < 10 then [DigitChar(n)] else Decimal(n / 10) + [DigitChar(n % 10)]
  }

  /** The number a string of digits stands for. */
  function Value(s: string): nat
    requires AllDigits(s)
  {
    if s == [] then 0
    else 10 * Value(s[..|s| - 1]) + (s[|s| - 1] as int - '0' as int)
  }

  lemma {:induction false} ValueOfDecimal(n: nat)
    ensures Value(Decimal(n)) == n
  {
    if n < 10 {
      assert Decimal(n)[..0] == [];
      assert Value(Decimal(n)[..0]) == 0;
    } else {
      var s := Decimal(n);
      ValueOfDecimal(n / 10);
      assert s[..|s| - 1] == Decimal(n / 10);
    }
  }

  lemma DecimalInjective(m: nat, n: nat)
    requires Decimal(m) == Decimal(n)
    ensures m == n
  {
    ValueOfDecimal(m);
    ValueOfDecimal(n);
  }

  /** The length of the leading run of digits. */
  function DigitRun(s: string): (k: nat)
    ensures k <= |s| && AllDigits(s[..k])
    ensures k < |s| ==> !IsDigit(s[k])
  {
    if s != [] && IsDigit(s[0]) then
      var k := 1 + DigitRun(s[1..]);
      assert s[..k] == [s[0]] + s[1..][..k - 1];
      k
    else 0
  }

  lemma DigitRunOf(digits: string, rest: string)
    requires AllDigits(digits)
    requires rest == [] || !IsDigit(rest[0])
    ensures DigitRun(digits + rest) == |digits|
  {
    var s := digits + rest;
    assert forall i :: 0 <= i < |digits| ==> s[i] == digits[i];
    assert rest != [] ==> s[|digits|] == rest[0];
    assert forall i :: 0 <= i < DigitRun(s) ==> IsDigit(s[..DigitRun(s)][i]);
  }

  predicate IsSpace(c: char) { c == ' ' || '\t' <= c <= '\r' }

  function SkipSpace(s: string): string {
    if s != [] && IsSpace(s[0]) then SkipSpace(s[1..]) else s
  }

  /** A scanned number and what follows it. */
  datatype Scanned = Scanned(value: nat, rest: string)

  /** strtoul in base 10, as "%lu" uses it: white space, an optional sign, digits.
      A value out of range saturates at ULONG_MAX; a minus sign negates modulo
      ULONG_MAX + 1. None when there is no digit. */
  function ScanUlong(text: string): Option<Scanned> {
    var s := SkipSpace(text);
    var signed := s != [] && (s[0] == '-' || s[0] == '+');
    var t := if signed then s[1..] else s;
    var k := DigitRun(t);
    if k == 0 then None
    else
      var v := Value(t[..k]);
      var w := if v > ULONG_MAX then ULONG_MAX
               else if signed && s[0] == '-' then (ULONG_MAX + 1 - v) % (ULONG_MAX + 1)
               else v;
      Some(Scanned(w, t[k..]))
  }

  /** "%u": the same scan, stored in 32 bits. */
  function ScanUint(text: string): Option<Scanned> {
    match ScanUlong(text)
    case None => None
    case Some(r) => Some(Scanned(r.value % UINT_RANGE, r.rest))
  }

  /** "%d" */
  function Signed(n: int): string { if n < 0 then "-" + Decimal(-n) else Decimal(n) }

  /** An unsigned 32-bit number taken for a signed one. */
  function AsSigned(n: nat): int { if n < 0x8000_0000 then n else n - UINT_RANGE }

  lemma SignedInjective(m: int, n: int)
    requires Signed(m) == Signed(n)
    ensures m == n
  {
    var a, b := Decimal(if m < 0 then -m else m), Decimal(if n < 0 then -n else n);
    assert IsDigit(a[0]) && IsDigit(b[0]);
    assert m < 0 ==> Signed(m)[0] == '-' && Signed(m)[1..] == a;
    assert n < 0 ==> Signed(n)[0] == '-' && Signed(n)[1..] == b;
    DecimalInjective(if m < 0 then -m else m, if n < 0 then -n else n);
  }

  /** text is white space, a sign or none, digits, and rest, which goes on with no digit. */
  ghost predicate Numeral(text: string, space: string, sign: string, digits: string, rest: string) {
    && text == space + sign + digits + rest
    && (forall i :: 0 <= i < |space| ==> space[i] as int in {9, 10, 11, 12, 13, 32})
    && sign in {"", "+", "-"} && digits != [] && AllDigits(digits)
    && (rest == [] || !IsDigit(rest[0]))
  }

  /** Whatever has that form is scanned as the number it shows, a number out of range as the
      greatest one, and a negative one modulo the range. */
  lemma ScanReads(text: string, space: string, sign: string, digits: string, rest: string)
    requires Numeral(text, space, sign, digits, rest)
    ensures ScanUlong(text) == Some(Scanned(
        if Value(digits) > 0xFFFF_FFFF_FFFF_FFFF then 0xFFFF_FFFF_FFFF_FFFF
        else if sign == "-" && Value(digits) > 0 then 0x1_0000_0000_0000_0000 - Value(digits)
        else Value(digits),
        rest))
  {
    hide Value, ScanUlong;
    var t := sign + (digits + rest);
    assert text == space + t;
    assert t[0] == if sign == "" then digits[0] else sign[0];
    SpaceIgnored(space, t);
    if sign == "" {
      assert t == digits + rest;
      ScanUnsigned(digits, rest);
    } else {
      ScanSigned(t, sign[0], digits, rest);
    }
  }

  lemma SpaceIgnored(space: string, s: string)
    requires forall i :: 0 <= i < |space| ==> IsSpace(space[i])
    requires s != [] && !IsSpace(s[0])
    ensures ScanUlong(space + s) == ScanUlong(s)
  {
    hide Value, DigitRun;
    SkipsSpace(space, s);
  }

  lemma ScanUnsigned(digits: string, rest: string)
    requires digits != [] && AllDigits(digits) && (rest == [] || !IsDigit(rest[0]))
    ensures ScanUlong(digits + rest)
         == Some(Scanned(if Value(digits) > ULONG_MAX then ULONG_MAX else Value(digits), rest))
  {
    hide Value, DigitRun;
    var t := digits + rest;
    assert t[0] == digits[0];
    DigitRunOf(digits, rest);
    assert t[..|digits|] == digits && t[|digits|..] == rest;
  }

  lemma ScanSigned(s: string, sign: char, digits: string, rest: string)
    requires sign == '+' || sign == '-'
    requires s == [sign] + (digits + rest) && digits != [] && AllDigits(digits) && (rest == [] || !IsDigit(rest[0]))
    ensures ScanUlong(s) == Some(Scanned(
        if Value(digits) > ULONG_MAX then ULONG_MAX
        else if sign == '-' && Value(digits) > 0 then ULONG_MAX + 1 - Value(digits)
        else Value(digits),
        rest))
  {
    hide Value, DigitRun;
    var t := digits + rest;
    assert s[1..] == t;
    DigitRunOf(digits, rest);
    assert t[..|digits|] == digits && t[|digits|..] == rest;
  }

  lemma {:induction false} SkipsSpace(space: string, s: string)
    requires forall i :: 0 <= i < |space| ==> IsSpace(space[i])
    requires s != [] && !IsSpace(s[0])
    ensures SkipSpace(space + s) == s
  {
    if space == [] {
      assert space + s == s;
    } else {
      SkipsSpace(space[1..], s);
      assert (space + s)[1..] == space[1..] + s;
    }
  }

  /** And nothing else is scanned. */
  lemma ScansExactly(text: string)
    ensures ScanUlong(text).Some? <==> exists space, sign, digits, rest :: Numeral(text, space, sign, digits, rest)
  {
    hide Numeral;
    if ScanUlong(text).Some? {
      var space, sign, digits, rest := PartsRead(text);
    }
    forall space, sign, digits, rest | Numeral(text, space, sign, digits, rest) ensures ScanUlong(text).Some? {
      ScanReads(text, space, sign, digits, rest);
    }
  }

  lemma PartsRead(text: string) returns (space: string, sign: string, digits: string, rest: string)
    requires ScanUlong(text).Some?
    ensures Numeral(text, space, sign, digits, rest)
  {
    hide Value, DigitRun, AllDigits, SkipSpace;
    var s := SkipSpace(text);
    space := SpaceSkipped(text);
    sign := if s != [] && (s[0] == '-' || s[0] == '+') then [s[0]] else "";
    var t := s[|sign|..];
    assert s == sign + t;
    assert DigitRun(t) > 0;
    digits, rest := DigitsRead(t);
    Regrouped(space, sign, digits, rest);
  }

  lemma Regrouped(a: string, b: string, c: string, d: string)
    ensures a + (b + (c + d)) == a + b + c + d
  {
  }

  lemma DigitsRead(t: string) returns (digits: string, rest: string)
    requires DigitRun(t) > 0
    ensures t == digits + rest && digits != [] && AllDigits(digits) && (rest == [] || !IsDigit(rest[0]))
  {
    digits, rest := t[..DigitRun(t)], t[DigitRun(t)..];
  }

  lemma {:induction false} SpaceSkipped(text: string) returns (space: string)
    ensures text == space + SkipSpace(text) && forall i :: 0 <= i < |space| ==> IsSpace(space[i])
  {
    if text != [] && IsSpace(text[0]) {
      var more := SpaceSkipped(text[1..]);
      space := [text[0]] + more;
    } else {
      space := [];
    }
  }

  /** A printed number scans back to itself, whatever non-digit follows. */
  lemma ScanDecimal(n: nat, rest: string)
    requires rest == [] || !IsDigit(rest[0])
    ensures n <= ULONG_MAX ==> ScanUlong(Decimal(n) + rest) == Some(Scanned(n, rest))
    ensures n < UINT_RANGE ==> ScanUint(Decimal(n) + rest) == Some(Scanned(n, rest))
  {
    hide ScanUlong, Decimal, Value;
    ValueOfDecimal(n);
    if n <= ULONG_MAX {
      ScanUnsigned(Decimal(n), rest);
    }
  }

  lemma DecimalSpelled()
    ensures Decimal(1234567890) == "1234567890"
  {
    assert Decimal(1234567) == "1234567" by {
      assert Decimal(123) == "123";
    }
  }

  /** strcmp (a, b) <= 0 */
  predicate StrLe(a: string, b: string) {
    a == [] || (b != [] && (a[0] < b[0] || (a[0] == b[0] && StrLe(a[1..], b[1..]))))
  }

  lemma StrLeTotal(a: string, b: string)
    ensures StrLe(a, b) || StrLe(b, a)
  {
  }

  lemma {:induction false} StrLeTransitive(a: string, b: string, c: string)
    requires StrLe(a, b) && StrLe(b, c)
    ensures StrLe(a, c)
  {
    if a != [] && a[0] == b[0] == c[0] {
      StrLeTransitive(a[1..], b[1..], c[1..]);
    }
  }

  /** The order is that of a dictionary: a string comes before those it begins, and
      otherwise the first character in which two strings differ decides. */
  lemma {:induction false} StrLeIsLexicographic(a: string, b: string)
    ensures StrLe(a, b) <==> a <= b || exists i :: 0 <= i < |a| && i < |b| && a[..i] == b[..i] && a[i] < b[i]
  {
    if a != [] && b != [] {
      if a[0] == b[0] {
        StrLeIsLexicographic(a[1..], b[1..]);
        FirstDifference(a, b);
        assert a <= b <==> a[1..] <= b[1..] by {
          assert a == [a[0]] + a[1..] && b == [b[0]] + b[1..];
        }
      } else if a[0] < b[0] {
        assert a[..0] == b[..0];
      }
    }
  }

  lemma FirstDifference(a: string, b: string)
    requires a != [] && b != [] && a[0] == b[0]
    ensures (exists i :: 0 <= i < |a| && i < |b| && a[..i] == b[..i] && a[i] < b[i])
       <==> (exists i :: 0 <= i < |a[1..]| && i < |b[1..]| && a[1..][..i] == b[1..][..i] && a[1..][i] < b[1..][i])
  {
    var a1, b1 := a[1..], b[1..];
    forall i | 1 <= i < |a| && i < |b| ensures a[..i] == b[..i] <==> a1[..i - 1] == b1[..i - 1] {
      assert a[..i] == [a[0]] + a1[..i - 1] && b[..i] == [b[0]] + b1[..i - 1];
      assert a1[..i - 1] == a[..i][1..] && b1[..i - 1] == b[..i][1..];
    }
    if i :| 0 <= i < |a| && i < |b| && a[..i] == b[..i] && a[i] < b[i] {
      assert a1[..i - 1] == b1[..i - 1] && a1[i - 1] < b1[i - 1];
    }
    if i :| 0 <= i < |a1| && i < |b1| && a1[..i] == b1[..i] && a1[i] < b1[i] {
      assert a[..i + 1] == b[..i + 1] && a[i + 1] < b[i + 1];
    }
  }
}
