/** Decimal numbers as the C library prints and reads them. */
module Decimals {

  predicate IsDigit(c: char) {
    '0' <= c <= '9'
  }

  function Digit(c: char): nat
    requires IsDigit(c)
  {
    c as int - '0' as int
  }

  function DigitChar(d: nat): (c: char)
    requires d < 10
    ensures IsDigit(c) && Digit(c) == d
  {
    '0' + d as char
  }

  /** The value of the digits a text starts with, after those already read. */
  function ReadDigits(s: string, sofar: nat): nat
    decreases |s|
  {
    if s == "" || !IsDigit(s[0]) then sofar else ReadDigits(s[1..], 10 * sofar + Digit(s[0]))
  }

  predicate Blank(c: char) {
    c == ' ' || '\t' <= c <= '\r'
  }

  /** atoi: leading blanks are skipped, a sign is read, and reading ends at the first character that is no digit. */
  function Atoi(s: string): int
    decreases |s|
  {
    if s == "" then 0
    else if Blank(s[0]) then Atoi(s[1..])
    else if s[0] == '-' then 0 - ReadDigits(s[1..], 0)
    else if s[0] == '+' then ReadDigits(s[1..], 0)
    else ReadDigits(s, 0)
  }

  function Decimal(n: nat): (s: string)
    ensures s != "" && forall i | 0 <= i < |s| :: IsDigit(s[i])
  {
    if n < 10 then [DigitChar(n)] else Decimal(n / 10) + [DigitChar(n % 10)]
  }

  lemma {:induction false} ReadAppend(s: string, t: string, sofar: nat)
    requires forall i | 0 <= i < |s| :: IsDigit(s[i])
    ensures ReadDigits(s + t, sofar) == ReadDigits(t, ReadDigits(s, sofar))
    decreases |s|
  {
    if s == "" {
      assert s + t == t;
    } else {
      assert (s + t)[1..] == s[1..] + t;
      ReadAppend(s[1..], t, 10 * sofar + Digit(s[0]));
    }
  }

  /** Reading a printed number gives it back, whatever follows it that is no digit. */
  lemma {:induction false} ReadsBack(n: nat, rest: string)
    requires rest == "" || !IsDigit(rest[0])
    ensures ReadDigits(Decimal(n) + rest, 0) == n && Atoi(Decimal(n) + rest) == n
  {
    ReadAppend(Decimal(n), rest, 0);
    DecimalValue(n);
    assert IsDigit((Decimal(n) + rest)[0]);
  }

  /** A minus sign makes the number negative, and a plus sign changes nothing. */
  lemma AtoiReadsSign(n: nat, rest: string)
    requires rest == "" || !IsDigit(rest[0])
    ensures Atoi("-" + (Decimal(n) + rest)) == 0 - n && Atoi("+" + (Decimal(n) + rest)) == n
  {
    ReadsBack(n, rest);
    AfterSign(Decimal(n) + rest);
  }

  lemma AfterSign(t: string)
    ensures Atoi("-" + t) == 0 - ReadDigits(t, 0) && Atoi("+" + t) == ReadDigits(t, 0)
  {
    assert ("-" + t)[1..] == t && ("+" + t)[1..] == t;
  }

  /** The six blanks of the C library are skipped; a text that starts with anything else but a digit is zero. */
  lemma AtoiSkipsBlanks(c: char, t: string)
    ensures c as int == 32 || 9 <= c as int <= 13 ==> Atoi([c] + t) == Atoi(t)
    ensures c as int != 32 && !(9 <= c as int <= 13) && c != '-' && c != '+' && !IsDigit(c) ==> Atoi([c] + t) == 0
    ensures Atoi("") == 0
  {
    assert ([c] + t)[1..] == t;
  }

  lemma {:induction false} DecimalValue(n: nat)
    ensures ReadDigits(Decimal(n), 0) == n
  {
    if n >= 10 {
      ReadAppend(Decimal(n / 10), [DigitChar(n % 10)], 0);
      DecimalValue(n / 10);
      assert [DigitChar(n % 10)][1..] == "";
    } else {
      assert [DigitChar(n)][1..] == "";
    }
  }
}
