/** Decimal numerals, as numbers are written into keys. */
module Numerals {
  function Digits(n: int): (s: string)
    ensures s != ""
    decreases if n < 0 then 1 - n else n
  {
    if n < 0 then "-" + Digits(-n)
    else (if n < 10 then "" else Digits(n / 10)) + [(n % 10) as char + '0']
  }

  // A numeral read from left to right.
  function Read(s: string): int {
    if s == "" then 0 else 10 * Read(s[..|s| - 1]) + (s[|s| - 1] as int - '0' as int)
  }

  predicate AllDigits(s: string) {
    forall c | c in s :: '0' <= c <= '9'
  }

  // A number is written in digits without a zero in front, and reading them gives it back.
  lemma {:induction false} DigitsRead(n: nat)
    ensures AllDigits(Digits(n)) && Read(Digits(n)) == n
    ensures n > 0 ==> Digits(n)[0] != '0'
    ensures n < 10 ==> |Digits(n)| == 1
  {
    var s := Digits(n);
    var front := if n < 10 then "" else Digits(n / 10);
    assert s[..|s| - 1] == front && s[|s| - 1] == (n % 10) as char + '0';
    if n >= 10 {
      DigitsRead(n / 10);
    }
  }

  lemma DigitsOfNegative(n: int)
    requires n < 0
    ensures Digits(n)[0] == '-' && Digits(n)[1..] == Digits(-n)
  {}

  lemma DigitsHead(n: int)
    ensures Digits(n)[0] == '-' <==> n < 0
  {
    if n < 0 {
      DigitsOfNegative(n);
    } else {
      DigitsRead(n);
      assert Digits(n)[0] in Digits(n);
    }
  }

  lemma DigitsInjective(a: int, b: int)
    requires Digits(a) == Digits(b)
    ensures a == b
  {
    hide Digits, Read;
    DigitsHead(a);
    DigitsHead(b);
    if a < 0 {
      DigitsOfNegative(a);
      DigitsOfNegative(b);
      DigitsRead(-a);
      DigitsRead(-b);
    } else {
      DigitsRead(a);
      DigitsRead(b);
    }
  }

  // No colon is part of a numeral.
  lemma DigitsWithoutColon(n: int)
    ensures ':' !in Digits(n)
  {
    if n < 0 {
      DigitsOfNegative(n);
      DigitsRead(-n);
      assert Digits(n) == [Digits(n)[0]] + Digits(n)[1..];
    } else {
      DigitsRead(n);
    }
  }

  // What stands before the last colon and the number behind it are told apart.
  lemma LastColon(x: string, a: int, y: string, b: int)
    ensures x + ":" + Digits(a) == y + ":" + Digits(b) <==> x == y && a == b
  {
    if x + ":" + Digits(a) == y + ":" + Digits(b) {
      DigitsWithoutColon(a);
      DigitsWithoutColon(b);
      ColonAt(x, Digits(a), y, Digits(b));
      ColonAt(y, Digits(b), x, Digits(a));
      assert x == (x + ":" + Digits(a))[..|x|] && y == (y + ":" + Digits(b))[..|y|];
      assert Digits(a) == (x + ":" + Digits(a))[|x| + 1..] && Digits(b) == (y + ":" + Digits(b))[|y| + 1..];
      DigitsInjective(a, b);
    }
  }

  lemma ColonAt(x: string, d: string, y: string, e: string)
    requires x + ":" + d == y + ":" + e && ':' !in e
    ensures |x| <= |y|
  {
    var s := x + ":" + d;
    assert s[|x|] == ':';
    assert s[|y| + 1..] == e;
  }
}
