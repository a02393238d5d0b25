/** Decimal digits of integers, as strconv writes and reads them. */
module Decimal {
  import opened JsonGrammar

  /** Without leading zeros. */
  function Digits(n: nat): (s: string)
    ensures s != "" && AreDigits(s) && (s[0] == '0' ==> n == 0 && |s| == 1)
  {
    (if n < 10 then "" else Digits(n / 10)) + [(n % 10) as char + '0']
  }

  function DigitsValue(s: string): nat
    requires AreDigits(s)
  {
    if s == "" then 0 else 10 * DigitsValue(s[..|s| - 1]) + (s[|s| - 1] as int - '0' as int)
  }

  lemma ValueSnoc(s: string, c: char)
    requires AreDigits(s) && IsDigit(c)
    ensures AreDigits(s + [c]) && DigitsValue(s + [c]) == 10 * DigitsValue(s) + (c as int - '0' as int)
  {
    assert (s + [c])[..|s|] == s;
  }

  lemma {:induction false} ValueOfDigits(n: nat)
    ensures DigitsValue(Digits(n)) == n
  {
    var c := (n % 10) as char + '0';
    if n < 10 {
      ValueSnoc("", c);
      assert Digits(n) == "" + [c];
    } else {
      ValueOfDigits(n / 10);
      ValueSnoc(Digits(n / 10), c);
    }
    hide DigitsValue, AreDigits;
    assert c as int - '0' as int == n % 10;
  }

  function Itoa(n: int): string { if n < 0 then "-" + Digits(-n) else Digits(n) }

  /** The digits of a number are those of its tens, followed by its last one, read from the ten digits in order. */
  lemma DigitsAre(n: nat)
    ensures Digits(n) == (if n < 10 then "" else Digits(n / 10)) + ["0123456789"[n % 10]]
  {
    DigitIs(n % 10);
  }

  lemma DigitIs(d: nat)
    requires d < 10
    ensures d as char + '0' == "0123456789"[d]
  {
  }

  function Zeros(k: nat): (s: string)
    ensures AreDigits(s)
  {
    if k == 0 then "" else Zeros(k - 1) + "0"
  }

  /** The number written with k leading zeros. */
  predicate IsPadded(s: string, n: nat, k: nat) { s == Zeros(k) + Digits(n) }

  lemma DigitsSnoc(n: nat, d: nat)
    requires d < 10
    ensures Digits(10 * n + d) == (if n == 0 then "" else Digits(n)) + [d as char + '0']
  {
    Tens(n, d);
  }

  lemma Tens(n: nat, d: nat)
    requires d < 10
    ensures (10 * n + d) / 10 == n && (10 * n + d) % 10 == d
  {
  }

  /** Every text of digits is some number with leading zeros. */
  lemma {:induction false} DigitsArePadded(s: string) returns (k: nat)
    requires s != "" && AreDigits(s)
    ensures IsPadded(s, DigitsValue(s), k)
  {
    var init, d := s[..|s| - 1], s[|s| - 1] as int - '0' as int;
    assert s == init + [d as char + '0'];
    DigitsSnoc(DigitsValue(init), d);
    if init == "" {
      k := 0;
    } else {
      k := DigitsArePadded(init);
      if DigitsValue(init) == 0 {
        assert Digits(0) == "0";
        k := k + 1;
      } else {
        assert Zeros(k) + (Digits(DigitsValue(init)) + [d as char + '0']) == s;
      }
    }
    hide Digits;
  }

  lemma {:induction false} ZerosValue(k: nat)
    ensures DigitsValue(Zeros(k)) == 0
  {
    if k > 0 {
      ZerosValue(k - 1);
      ValueSnoc(Zeros(k - 1), '0');
    }
  }

  lemma {:induction false} PaddedValue(n: nat, k: nat)
    ensures AreDigits(Zeros(k) + Digits(n)) && DigitsValue(Zeros(k) + Digits(n)) == n
  {
    ZerosValue(k);
    var z, c := Zeros(k), (n % 10) as char + '0';
    if n < 10 {
      ValueSnoc(z, c);
    } else {
      PaddedValue(n / 10, k);
      ValueSnoc(z + Digits(n / 10), c);
      assert z + Digits(n) == (z + Digits(n / 10)) + [c];
    }
    hide DigitsValue, Zeros;
  }
}
