/** The parts of the C library's text handling the firmware relies on: `strtol` (section 7.22.1.4 of ISO/IEC
9899:2011) and the `%s` and `%d` conversions of `sscanf` (section 7.21.6.2), with a 32-bit `long` and `int`. */
module CText {
  import opened Options

  type Base = b: nat | 2 <= b <= 10 witness 2

  const INT_MIN := -0x8000_0000
  const INT_MAX := 0x7FFF_FFFF

  /** A C string ends at its first NUL. */
  function CString(s: string): (r: string)
    ensures r <= s
  {
    if s == [] || s[0] == '\0' then [] else [s[0]] + CString(s[1..])
  }

  predicate IsSpace(c: char) {
    c == ' ' || 9 <= c as int <= 13
  }

  predicate IsDigit(c: char, base: Base) {
    48 <= c as int < 48 + base
  }

  predicate AllDigits(s: string, base: Base) {
    forall i :: 0 <= i < |s| ==> IsDigit(s[i], base)
  }

  function SkipSpaces(s: string): string {
    if s != [] && IsSpace(s[0]) then SkipSpaces(s[1..]) else s
  }

  /** The longest prefix of digits. */
  function Digits(s: string, base: Base): (r: string)
    ensures r <= s && AllDigits(r, base)
  {
    if s != [] && IsDigit(s[0], base) then [s[0]] + Digits(s[1..], base) else []
  }

  function NumberOf(digits: string, base: Base): nat
    requires AllDigits(digits, base)
  {
    if digits == [] then 0
    else NumberOf(digits[..|digits| - 1], base) * base + (digits[|digits| - 1] as int - 48)
  }

  /** Out-of-range results of `strtol` saturate. */
  function Saturate(v: int): int {
    if v < INT_MIN then INT_MIN else if v > INT_MAX then INT_MAX else v
  }

  datatype Scan = Scan(value: int, rest: string)

  /** Optional spaces, an optional sign and at least one digit. */
  function ScanInt(s: string, base: Base): Option<Scan> {
    var t := SkipSpaces(s);
    var signed := t != [] && (t[0] == '-' || t[0] == '+');
    var u := if signed then t[1..] else t;
    var digits := Digits(u, base);
    if digits == [] then None
    else
      var magnitude: int := NumberOf(digits, base);
      Some(Scan(Saturate(if signed && t[0] == '-' then -magnitude else magnitude), u[|digits|..]))
  }

  function Strtol(s: string, base: Base): int {
    match ScanInt(s, base)
    case None => 0
    case Some(scan) => scan.value
  }

  /** What n successive `%d` conversions yield before the first that fails. */
  function ScanInts(s: string, n: nat): (r: seq<int>)
    ensures |r| <= n
    decreases n
  {
    if n == 0 then []
    else
      match ScanInt(s, 10)
      case None => []
      case Some(scan) => [scan.value] + ScanInts(scan.rest, n - 1)
  }

  function TakeWord(s: string): (w: string)
    ensures w <= s
  {
    if s == [] || IsSpace(s[0]) then [] else [s[0]] + TakeWord(s[1..])
  }

  // ----- printing, and reading back what was printed -----

  function NatText(n: nat): (s: string)
    ensures |s| > 0 && AllDigits(s, 10)
  {
    if n < 10 then [(48 + n) as char] else NatText(n / 10) + [(48 + n % 10) as char]
  }

  function Decimal(n: int): string {
    if n < 0 then ['-'] + NatText(-n) else NatText(n)
  }

  lemma NumberOfSnoc(digits: string, digit: char, base: Base)
    requires AllDigits(digits, base) && IsDigit(digit, base)
    ensures AllDigits(digits + [digit], base)
    ensures NumberOf(digits + [digit], base) == NumberOf(digits, base) * base + (digit as int - 48)
  {
    assert (digits + [digit])[..|digits|] == digits;
  }

  lemma NumberOfNone(base: Base)
    ensures NumberOf([], base) == 0
  {
  }

  lemma {:induction false} NatTextValue(n: nat)
    ensures NumberOf(NatText(n), 10) == n
  {
    hide NumberOf;
    var digit := (48 + n % 10) as char;
    if n < 10 {
      NumberOfNone(10);
      NumberOfSnoc([], digit, 10);
      assert [] + [digit] == NatText(n);
    } else {
      NatTextValue(n / 10);
      NumberOfSnoc(NatText(n / 10), digit, 10);
    }
  }

  lemma {:induction false} DigitsPrefix(digits: string, rest: string, base: Base)
    requires AllDigits(digits, base) && (rest == [] || !IsDigit(rest[0], base))
    ensures Digits(digits + rest, base) == digits
  {
    if digits == [] {
      assert digits + rest == rest;
    } else {
      assert (digits + rest)[1..] == digits[1..] + rest;
      DigitsPrefix(digits[1..], rest, base);
    }
  }

  lemma ScanNat(n: nat, rest: string)
    requires rest == [] || !IsDigit(rest[0], 10)
    ensures Digits(NatText(n) + rest, 10) == NatText(n)
    ensures (NatText(n) + rest)[|NatText(n)|..] == rest
  {
    DigitsPrefix(NatText(n), rest, 10);
  }

  /** The leading space of the input is skipped, and nothing of what follows it. */
  lemma SkipOneSpace(s: string)
    requires s != [] && !IsSpace(s[0])
    ensures SkipSpaces([' '] + s) == s
  {
    assert ([' '] + s)[1..] == s;
  }

  /** The characters skipped are the six white-space characters, and the digits the ten decimal ones. */
  lemma CharacterClasses(c: char)
    ensures IsSpace(c) <==> c in " \t\n\r" || c as int == 11 || c as int == 12
    ensures IsDigit(c, 10) <==> '0' <= c <= '9'
  {
    assert " \t\n\r"[0] == ' ' && " \t\n\r"[1] as int == 9 && " \t\n\r"[2] as int == 10 && " \t\n\r"[3] as int == 13;
  }

  /** An explicit plus sign changes nothing. */
  lemma ScanPlus(n: nat, rest: string)
    requires n <= INT_MAX && (rest == [] || !IsDigit(rest[0], 10))
    ensures ScanInt("+" + NatText(n) + rest, 10) == Some(Scan(n, rest))
  {
    hide NumberOf, NatText, Digits;
    var t := "+" + NatText(n) + rest;
    assert t[0] == '+' && t[1..] == NatText(n) + rest;
    assert SkipSpaces(t) == t;
    ScanNat(n, rest);
    NatTextValue(n);
  }

  /** A printed number after one space is scanned back, up to where its digits end. */
  lemma ScanDecimal(n: int, rest: string)
    requires INT_MIN <= n <= INT_MAX
    requires rest == [] || !IsDigit(rest[0], 10)
    ensures ScanInt([' '] + Decimal(n) + rest, 10) == Some(Scan(n, rest))
  {
    hide NumberOf, NatText, Digits, SkipSpaces;
    var magnitude := if n < 0 then -n else n;
    var text := NatText(magnitude);
    var t := Decimal(n) + rest;
    assert [' '] + Decimal(n) + rest == [' '] + t;
    assert IsDigit(text[0], 10);
    SkipOneSpace(t);
    ScanNat(magnitude, rest);
    NatTextValue(magnitude);
    if n < 0 {
      assert t[1..] == text + rest;
    }
  }
}
