/** Decimal rendering, as fmt's %d verb does it. */
module Decimal {
  predicate IsDigit(c: char) {
    '0' <= c <= '9'
  }

  function Digits(n: nat): string {
    if n < 10 then ['0' + n as char] else Digits(n / 10) + ['0' + (n % 10) as char]
  }

  function Render(n: int): string {
    if n < 0 then "-" + Digits(-n) else Digits(n)
  }

  /** The number a string of digits denotes. */
  function Value(s: string): nat
    requires forall i | 0 <= i < |s| :: IsDigit(s[i])
  {
    if s == "" then 0
    else
      assert IsDigit(s[|s| - 1]);
      10 * Value(s[..|s| - 1]) + (s[|s| - 1] as int - '0' as int)
  }

  lemma {:induction false} DigitsDenote(n: nat)
    ensures Digits(n) != ""
    ensures forall i | 0 <= i < |Digits(n)| :: IsDigit(Digits(n)[i])
    ensures Value(Digits(n)) == n
  {
    if n >= 10 {
      DigitsDenote(n / 10);
      var s := Digits(n);
      assert s[..|s| - 1] == Digits(n / 10);
    } else {
      assert Digits(n)[..0] == "";
    }
  }

  /** No number but zero is rendered with a leading zero. */
  lemma {:induction false} NoLeadingZero(n: nat)
    ensures Digits(n) != "" && (Digits(n)[0] == '0' <==> n == 0)
  {
    if n >= 10 {
      NoLeadingZero(n / 10);
    }
  }

  lemma RenderSign(n: int)
    ensures Render(n) != "" && (Render(n)[0] == '-' <==> n < 0)
  {
    DigitsDenote(if n < 0 then -n else n);
    assert n >= 0 ==> IsDigit(Digits(n)[0]);
  }

  /** What a rendered number denotes: the digits, after a minus sign for a negative one. */
  lemma RenderDenotes(n: int)
    ensures var digits := if n < 0 then Render(n)[1..] else Render(n);
            && (n < 0 ==> Render(n) == "-" + digits)
            && (forall i | 0 <= i < |digits| :: IsDigit(digits[i]))
            && Value(digits) == if n < 0 then -n else n
  {
    DigitsDenote(if n < 0 then -n else n);
    if n < 0 {
      assert Render(n)[1..] == Digits(-n);
    }
  }

  lemma RenderInjective(m: int, n: int)
    requires Render(m) == Render(n)
    ensures m == n
  {
    RenderSign(m);
    RenderSign(n);
    DigitsDenote(if m < 0 then -m else m);
    DigitsDenote(if n < 0 then -n else n);
    if m < 0 {
      assert Digits(-m) == Render(m)[1..] == Digits(-n);
    }
  }

  /** A rendered number holds nothing but digits after an optional minus sign. */
  lemma RenderAlphabet(n: int)
    ensures Render(n) != ""
    ensures forall c | c in Render(n) :: IsDigit(c) || c == '-'
  {
    DigitsDenote(if n < 0 then -n else n);
  }
}
