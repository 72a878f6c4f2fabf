/** `%d` and `atoi`, on numbers of any size. */
module Decimal {

  predicate IsDigit(c: char) {
    '0' <= c <= '9'
  }

  function Digit(n: nat): (c: char)
    requires n < 10
    ensures IsDigit(c)
  {
    '0' + n as char
  }

  /** `sprintf("%d", n)` for n >= 0. */
  function Print(n: nat): (s: string)
    ensures s != "" && forall c :: c in s ==> IsDigit(c)
  {
    if n < 10 then [Digit(n)] else Print(n / 10) + [Digit(n % 10)]
  }

  /** The value of the digits s starts with, continuing from acc. */
  function Digits(s: string, acc: nat): nat {
    if s == "" || !IsDigit(s[0]) then acc
    else Digits(s[1..], 10 * acc + (s[0] - '0') as nat)
  }

  predicate IsSpace(c: char) {
    c == ' ' || '\t' <= c <= '\r'
  }

  /** `atoi`: white space, an optional sign, digits; the rest is ignored. */
  function Atoi(s: string): int {
    if s == "" then 0
    else if IsSpace(s[0]) then Atoi(s[1..])
    else if s[0] == '-' then -(Digits(s[1..], 0) as int)
    else if s[0] == '+' then Digits(s[1..], 0)
    else Digits(s, 0)
  }

  /** Storing an `int` in an `unsigned int`. */
  function Unsigned(n: int): nat {
    n % 0x1_0000_0000
  }

  lemma {:induction false} DigitsAppend(s: string, c: char, acc: nat)
    requires IsDigit(c) && forall x :: x in s ==> IsDigit(x)
    ensures Digits(s + [c], acc) == 10 * Digits(s, acc) + (c - '0') as nat
  {
    if s == "" {
      assert s + [c] == [c];
      assert Digits([c][1..], 10 * acc + (c - '0') as nat) == 10 * acc + (c - '0') as nat;
    } else {
      assert (s + [c])[1..] == s[1..] + [c];
      assert forall x :: x in s[1..] ==> x in s;
      assert s[0] in s;
      DigitsAppend(s[1..], c, 10 * acc + (s[0] - '0') as nat);
    }
  }

  lemma {:induction false} DigitsPrint(n: nat)
    ensures Digits(Print(n), 0) == n
  {
    if n < 10 {
      assert Print(n)[1..] == "";
    } else {
      DigitsPrint(n / 10);
      DigitsAppend(Print(n / 10), Digit(n % 10), 0);
    }
  }

  /** Reading back what was printed. */
  lemma AtoiPrint(n: nat)
    ensures Atoi(Print(n)) == n
  {
    DigitsPrint(n);
    assert Print(n)[0] in Print(n);
  }

  /** Decimal digits, most significant first. */
  lemma PrintIs(n: nat, d: nat)
    requires d < 10
    ensures Print(0) == "0" && Print(1) == "1" && Print(2) == "2" && Print(3) == "3" && Print(4) == "4"
    ensures Print(5) == "5" && Print(6) == "6" && Print(7) == "7" && Print(8) == "8" && Print(9) == "9"
    ensures n > 0 ==> Print(10 * n + d) == Print(n) + Print(d)
  {
    if n > 0 {
      assert (10 * n + d) / 10 == n && (10 * n + d) % 10 == d;
    }
  }

  /** Whatever is no digit ends the number. */
  lemma AtoiOf(n: nat, rest: string)
    requires rest != "" ==> !IsDigit(rest[0])
    ensures Atoi(Print(n) + rest) == n
  {
    hide Print;
    var p := Print(n);
    DigitsPrint(n);
    DigitsStop(p, rest, 0);
    assert p[0] in p && (p + rest)[0] == p[0];
  }

  /** White space is skipped, a sign is taken; without digits the number is 0. */
  lemma AtoiEdges(n: nat)
    ensures Atoi([' '] + Print(n)) == n && Atoi(['+'] + Print(n)) == n && Atoi(['-'] + Print(n)) + n == 0
    ensures Atoi("") == 0 && Atoi("x") == 0
  {
    hide Print;
    var p := Print(n);
    AtoiPrint(n);
    DigitsPrint(n);
    assert ([' '] + p)[1..] == p && (['+'] + p)[1..] == p && (['-'] + p)[1..] == p;
  }

  lemma {:induction false} DigitsStop(s: string, rest: string, acc: nat)
    requires (forall x :: x in s ==> IsDigit(x)) && (rest != "" ==> !IsDigit(rest[0]))
    ensures Digits(s + rest, acc) == Digits(s, acc)
  {
    if s == "" {
      assert s + rest == rest;
    } else {
      assert s[0] in s && (s + rest)[1..] == s[1..] + rest;
      DigitsStop(s[1..], rest, 10 * acc + (s[0] - '0') as nat);
    }
  }

  /** Modulo 2 to the 32. */
  lemma UnsignedIs(n: int)
    ensures 0 <= Unsigned(n) < 4_294_967_296 && (Unsigned(n) - n) % 4_294_967_296 == 0
    ensures 0 <= n < 4_294_967_296 ==> Unsigned(n) == n
  {
  }
}
