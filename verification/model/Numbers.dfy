/** Decimal text: what `%d` prints and what `atoi` reads. */
module Numbers {

  predicate IsDigit(c: char) {
    '0' <= c <= '9'
  }

  function Digit(d: nat): (c: char)
    requires d < 10
    ensures IsDigit(c) && c as int == '0' as int + d
  {
    ['0', '1', '2', '3', '4', '5', '6', '7', '8', '9'][d]
  }

  function DigitValue(c: char): (d: nat)
    requires IsDigit(c)
    ensures d < 10
  {
    c as int - '0' as int
  }

  predicate AllDigits(s: string) {
    forall j | 0 <= j < |s| :: IsDigit(s[j])
  }

  /** The text of a number, without leading zeros. */
  function Dec(n: nat): (s: string)
    ensures |s| > 0 && AllDigits(s)
    ensures |s| > 1 ==> s[0] != '0'
    ensures n > 0 ==> s[0] != '0'
  {
    if n < 10 then [Digit(n)] else Dec(n / 10) + [Digit(n % 10)]
  }

  function Value(s: string): nat
    requires AllDigits(s)
  {
    if s == [] then 0 else Value(s[..|s| - 1]) * 10 + DigitValue(s[|s| - 1])
  }

  lemma {:induction false} ValueOfDec(n: nat)
    ensures Value(Dec(n)) == n
  {
    if n >= 10 {
      ValueOfDec(n / 10);
      assert Dec(n)[..|Dec(n)| - 1] == Dec(n / 10);
    }
  }

  /** The last digit of a number's text is its last decimal digit. */
  lemma DecIs(n: nat)
    ensures Dec(n) == (if n < 10 then "" else Dec(n / 10)) + ["0123456789"[n % 10]]
  {
  }

  /** A text of digits without leading zero is the text of its value. */
  lemma {:induction false} DecOfValue(s: string)
    requires s != "" && AllDigits(s) && (|s| == 1 || s[0] != '0')
    ensures Dec(Value(s)) == s
    ensures s[0] != '0' ==> Value(s) > 0
    decreases |s|
  {
    hide Dec, Value;
    var front, c := s[..|s| - 1], s[|s| - 1];
    ValueStep(s);
    DecIs(Value(s));
    assert Digit(DigitValue(c)) == c;
    assert s == front + [c];
    if front == "" {
      NoValue();
    } else {
      assert front[0] == s[0] && s[0] != '0';
      DecOfValue(front);
    }
  }

  lemma ValueStep(s: string)
    requires s != "" && AllDigits(s)
    ensures Value(s) / 10 == Value(s[..|s| - 1]) && Value(s) % 10 == DigitValue(s[|s| - 1])
    ensures Value(s) >= 10 <==> Value(s[..|s| - 1]) > 0
  {
    hide Dec;
  }

  lemma NoValue()
    ensures Value("") == 0
  {
  }

  /** No character outside the digits occurs in a number's text. */
  lemma DecHasNo(n: nat, c: char)
    requires !IsDigit(c)
    ensures c !in Dec(n)
  {
  }

  /** isspace in the C locale */
  predicate IsBlank(c: char) {
    c == ' ' || '\t' <= c <= '\r'
  }

  function SkipBlanks(s: string): string {
    if s != [] && IsBlank(s[0]) then SkipBlanks(s[1..]) else s
  }

  /** The longest prefix made of digits. */
  function LeadingDigits(s: string): (t: string)
    ensures AllDigits(t) && t <= s
  {
    if s != [] && IsDigit(s[0]) then [s[0]] + LeadingDigits(s[1..]) else []
  }

  lemma {:induction false} LeadingDigitsAll(s: string)
    requires AllDigits(s)
    ensures LeadingDigits(s) == s
  {
    if s != [] {
      LeadingDigitsAll(s[1..]);
    }
  }

  const LONG_MAX: int := 0x7FFF_FFFF_FFFF_FFFF

  /** strtol in base 10: blanks, an optional sign, digits; saturates at 64 bits; 0 when there is no digit. */
  function StrToL(s: string): (v: int)
    ensures -LONG_MAX - 1 <= v <= LONG_MAX
  {
    var t := SkipBlanks(s);
    var negative := t != [] && t[0] == '-';
    var digits := LeadingDigits(if t != [] && (t[0] == '-' || t[0] == '+') then t[1..] else t);
    var v: int := if negative then -(Value(digits) as int) else Value(digits);
    if v > LONG_MAX then LONG_MAX else if v < -LONG_MAX - 1 then -LONG_MAX - 1 else v
  }

  /** A uint16_t assigned from atoi: the low 16 bits of the number read. */
  function AtoiU16(s: string): (v: nat)
    ensures v < 0x1_0000
  {
    StrToL(s) % 0x1_0000
  }

  lemma AtoiOfDec(n: nat)
    requires n < 0x1_0000
    ensures AtoiU16(Dec(n)) == n
  {
    hide Dec, Value;
    var s := Dec(n);
    assert SkipBlanks(s) == s && !(s[0] == '-' || s[0] == '+') by {
      assert IsDigit(s[0]);
    }
    LeadingDigitsAll(s);
    ValueOfDec(n);
  }

  lemma {:induction false} BlanksSkipped(blanks: string, t: string)
    requires (forall j | 0 <= j < |blanks| :: IsBlank(blanks[j])) && (t == "" || !IsBlank(t[0]))
    ensures SkipBlanks(blanks + t) == t
  {
    if blanks == "" {
      assert blanks + t == t;
    } else {
      BlanksSkipped(blanks[1..], t);
      assert (blanks + t)[1..] == blanks[1..] + t;
    }
  }

  lemma {:induction false} DigitsTaken(digits: string, rest: string)
    requires AllDigits(digits) && (rest == "" || !IsDigit(rest[0]))
    ensures LeadingDigits(digits + rest) == digits
  {
    if digits == "" {
      assert digits + rest == rest;
    } else {
      DigitsTaken(digits[1..], rest);
      assert (digits + rest)[1..] == digits[1..] + rest;
    }
  }

  predicate Blanks(s: string) {
    forall j | 0 <= j < |s| :: IsBlank(s[j])
  }

  /** Where the digits of a text stop. */
  predicate EndsNumber(rest: string) {
    rest == "" || !IsDigit(rest[0])
  }

  /** A number after blanks and before anything that is no digit is read up to 64 bits, and kept modulo 16 bits. */
  lemma AtoiReads(blanks: string, n: nat, rest: string)
    requires Blanks(blanks) && EndsNumber(rest)
    ensures AtoiU16(blanks + (Dec(n) + rest)) == if n <= 0x7FFF_FFFF_FFFF_FFFF then n % 0x1_0000 else 0xFFFF
  {
    hide Dec, Value, SkipBlanks, LeadingDigits;
    var t := Dec(n) + rest;
    assert t[0] == Dec(n)[0];
    BlanksSkipped(blanks, t);
    DigitsTaken(Dec(n), rest);
    ValueOfDec(n);
  }

  /** So is one with a sign, the negative ones modulo 16 bits too. */
  lemma AtoiReadsSigned(blanks: string, n: nat, rest: string)
    requires Blanks(blanks) && EndsNumber(rest) && n <= 0x7FFF_FFFF_FFFF_FFFF
    ensures AtoiU16(blanks + (['+'] + (Dec(n) + rest))) == n % 0x1_0000
    ensures AtoiU16(blanks + (['-'] + (Dec(n) + rest))) == (0x1_0000 - n % 0x1_0000) % 0x1_0000
  {
    hide Dec, Value, SkipBlanks, LeadingDigits;
    var t := Dec(n) + rest;
    BlanksSkipped(blanks, ['+'] + t);
    BlanksSkipped(blanks, ['-'] + t);
    assert (['+'] + t)[1..] == t && (['-'] + t)[1..] == t;
    DigitsTaken(Dec(n), rest);
    ValueOfDec(n);
  }

  /** A text that starts with no number, after blanks, is read as 0. */
  lemma AtoiOfNoNumber(blanks: string, t: string)
    requires Blanks(blanks)
    requires t == "" || (!IsBlank(t[0]) && !IsDigit(t[0]) && t[0] != '+' && t[0] != '-')
    ensures AtoiU16(blanks + t) == 0
  {
    hide SkipBlanks;
    BlanksSkipped(blanks, t);
    assert LeadingDigits(t) == "";
  }
}
