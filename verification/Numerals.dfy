/** Decimal numbers as text, as Go's strconv reads them. */
module Numerals {

  predicate Digit(c: char) {
    '0' <= c <= '9'
  }

  predicate Digits(s: string) {
    forall i :: 0 <= i < |s| ==> Digit(s[i])
  }

  /** What a run of digits says. */
  function Value(digits: string): nat
    requires Digits(digits)
    decreases |digits|
  {
    if digits == "" then 0
    else Value(digits[..|digits| - 1]) * 10 + (digits[|digits| - 1] as int - '0' as int)
  }

  function Decimal(n: nat): (s: string)
    ensures s != "" && Digits(s)
  {
    var last := ['0' + (n % 10) as char];
    if n < 10 then last else Decimal(n / 10) + last
  }

  function Zeros(n: nat): string {
    seq(n, _ => '0')
  }

  /** The text is the number in decimal, perhaps after zeros. */
  ghost predicate Reads(digits: string, n: nat) {
    exists z: nat :: digits == Zeros(z) + Decimal(n)
  }

  lemma {:induction false} ZerosAreNothing(z: nat)
    ensures Digits(Zeros(z)) && Value(Zeros(z)) == 0
  {
    if z > 0 {
      ZerosAreNothing(z - 1);
      assert Zeros(z)[..z - 1] == Zeros(z - 1);
    }
  }

  lemma {:induction false} ValueAfterZeros(z: nat, s: string)
    requires Digits(s)
    ensures Digits(Zeros(z) + s) && Value(Zeros(z) + s) == Value(s)
    decreases |s|
  {
    if s == "" {
      ZerosAreNothing(z);
      assert Zeros(z) + s == Zeros(z);
    } else {
      var t := Zeros(z) + s;
      ValueAfterZeros(z, s[..|s| - 1]);
      assert t[..|t| - 1] == Zeros(z) + s[..|s| - 1];
    }
  }

  lemma {:induction false} DecimalReadsBack(n: nat)
    ensures Value(Decimal(n)) == n
  {
    if n >= 10 {
      DecimalReadsBack(n / 10);
      assert Decimal(n)[..|Decimal(n)| - 1] == Decimal(n / 10);
    }
  }

  /** A run of digits reads exactly one number: its value. */
  lemma {:induction false} DigitsReadTheirValue(s: string, n: nat)
    requires Digits(s) && s != ""
    ensures Reads(s, n) <==> n == Value(s)
  {
    if Reads(s, n) {
      var z: nat :| s == Zeros(z) + Decimal(n);
      ValueAfterZeros(z, Decimal(n));
      DecimalReadsBack(n);
    }
    ReadsItsValue(s);
  }

  lemma {:induction false} ReadsItsValue(s: string)
    requires Digits(s) && s != ""
    ensures Reads(s, Value(s))
    decreases |s|
  {
    hide Zeros, Decimal;
    var front, d := s[..|s| - 1], s[|s| - 1] as int - '0' as int;
    assert s == front + ['0' + d as char];
    if front == "" {
      OneDigit(d);
    } else {
      ReadsItsValue(front);
      var z: nat :| front == Zeros(z) + Decimal(Value(front));
      NextDigit(z, Value(front), d);
    }
  }

  lemma OneDigit(d: nat)
    requires d < 10
    ensures Reads(['0' + d as char], d)
  {
    assert ['0' + d as char] == Zeros(0) + Decimal(d);
  }

  lemma NextDigit(z: nat, n: nat, d: nat)
    requires d < 10
    ensures Reads((Zeros(z) + Decimal(n)) + ['0' + d as char], 10 * n + d)
  {
    hide Zeros;
    if n == 0 {
      MoreZeros(z);
      assert (Zeros(z) + Decimal(0)) + ['0' + d as char] == Zeros(z + 1) + Decimal(d);
    } else {
      assert Decimal(10 * n + d) == Decimal(n) + ['0' + d as char];
      assert (Zeros(z) + Decimal(n)) + ['0' + d as char] == Zeros(z) + Decimal(10 * n + d);
    }
  }

  lemma MoreZeros(z: nat)
    ensures Zeros(z) + Decimal(0) == Zeros(z + 1)
  {
    assert Decimal(0) == "0";
  }

  /** Only digits read as numbers. */
  lemma ReadsIsDigits(s: string, n: nat)
    requires Reads(s, n)
    ensures Digits(s) && s != ""
  {
    var z: nat :| s == Zeros(z) + Decimal(n);
    ZerosAreNothing(z);
  }
}
