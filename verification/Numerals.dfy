/** Numbers as digits, in base ten and sixteen. */
module Numerals {
  import opened Wrappers

  function Digit(n: nat): char
    requires n < 16
  {
    if n < 10 then ('0' as int + n) as char else ('a' as int + (n - 10)) as char
  }

  function DigitValue(c: char): Option<nat> {
    if '0' <= c <= '9' then Some(c as int - '0' as int)
    else if 'a' <= c <= 'f' then Some(c as int - 'a' as int + 10)
    else if 'A' <= c <= 'F' then Some(c as int - 'A' as int + 10)
    else None
  }

  function Digits(n: nat, base: nat): string
    requires Base(base)
  {
    if n < base then [Digit(n)] else Digits(n / base, base) + [Digit(n % base)]
  }

  /** The value of a text of digits below `base`; none for an empty text or any other character. */
  function Value(s: string, base: nat): Option<nat> {
    if s == "" then None
    else
      var last := DigitValue(s[|s| - 1]);
      if last.None? || last.value >= base then None
      else if |s| == 1 then last
      else
        match Value(s[..|s| - 1], base)
        case None => None
        case Some(n) => Some(n * base + last.value)
  }

  lemma DigitRead(n: nat)
    requires n < 16
    ensures DigitValue(Digit(n)) == Some(n)
  {
  }

  /** A text with one more digit is worth the rest times the base, and the digit. */
  lemma ValueSnoc(s: string, d: nat, base: nat)
    requires Base(base) && d < base && Value(s, base).Some?
    ensures Value(s + [Digit(d)], base) == Some(Value(s, base).value * base + d)
  {
  }

  predicate Base(base: nat) { base == 10 || base == 16 }

  lemma DivMod(n: nat, base: nat)
    requires Base(base)
    ensures n / base * base + n % base == n && n % base < base
    ensures n > 0 ==> n / base < n
    ensures n >= base ==> n / base > 0
  {
  }

  lemma {:induction false} ValueOfDigits(n: nat, base: nat)
    requires Base(base)
    ensures Value(Digits(n, base), base) == Some(n)
    decreases n
  {
    hide Value, DigitValue, Digit;
    if n < base {
      OneDigit(n, base);
    } else {
      DivMod(n, base);
      ValueOfDigits(n / base, base);
      ValueSnoc(Digits(n / base, base), n % base, base);
    }
  }

  lemma OneDigit(n: nat, base: nat)
    requires Base(base) && n < base
    ensures Value([Digit(n)], base) == Some(n)
  {
  }

  lemma {:induction false} DigitsAreDigits(n: nat, base: nat)
    requires Base(base)
    ensures Digits(n, base) != "" && forall c | c in Digits(n, base) :: DigitValue(c).Some?
    ensures n > 0 ==> Digits(n, base)[0] != '0'
    decreases n
  {
    if n < base {
      DigitRead(n);
    } else {
      DivMod(n, base);
      DigitsAreDigits(n / base, base);
      DigitRead(n % base);
    }
  }

  lemma DigitsLength(n: nat, base: nat, m: nat)
    requires Base(base) && (n >= base ==> |Digits(n / base, base)| <= m)
    ensures 1 <= |Digits(n, base)| <= m + 1
  {
  }

  /** A text has a decimal value exactly when it is one or more of the ten digits. */
  lemma {:induction false} DecimalExactlyWhen(s: string)
    ensures Value(s, 10).Some? <==> s != "" && forall c | c in s :: '0' <= c <= '9'
  {
    hide DigitValue;
    if s != "" {
      var init, last := s[..|s| - 1], s[|s| - 1];
      assert s == init + [last];
      assert forall c :: c in s <==> c in init || c == last;
      TenDigits(last);
      if |s| > 1 {
        DecimalExactlyWhen(init);
        assert Value(s, 10).Some? <==>
                 Value(init, 10).Some? && DigitValue(last).Some? && DigitValue(last).value < 10;
        assert init != "" && last in s;
      } else {
        assert init == "";
      }
    }
  }

  lemma TenDigits(c: char)
    ensures DigitValue(c).Some? && DigitValue(c).value < 10 <==> '0' <= c <= '9'
  {
  }
}
