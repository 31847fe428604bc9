/** Go's strconv on the values the headers use: Itoa, FormatUint and Atoi. */
module Decimal {
  import opened Basics

  function DigitChar(d: nat): char
    requires d < 10
  {
    '0' + d as char
  }

  predicate IsDigit(c: char) { '0' <= c <= '9' }

  function DigitValue(c: char): nat
    requires IsDigit(c)
  {
    (c - '0') as nat
  }

  function FormatUint(n: nat): string {
    if n < 10 then [DigitChar(n)] else FormatUint(n / 10) + [DigitChar(n % 10)]
  }

  function Itoa(n: int): string {
    if n < 0 then "-" + FormatUint(-n) else FormatUint(n)
  }

  predicate AllDigits(s: string) {
    forall i :: 0 <= i < |s| ==> IsDigit(s[i])
  }

  function ValueOf(s: string): nat
    requires AllDigits(s)
  {
    if s == [] then 0 else 10 * ValueOf(s[..|s| - 1]) + DigitValue(s[|s| - 1])
  }

  function Unsigned(s: string): string {
    if s != [] && (s[0] == '-' || s[0] == '+') then s[1..] else s
  }

  /** One optional sign, at least one digit, nothing else, and in range; otherwise an error. */
  function Atoi(s: string): Option<Int64> {
    var u := Unsigned(s);
    if u == [] || !AllDigits(u) then None
    else
      var v: int := if s[0] == '-' then -(ValueOf(u) as int) else ValueOf(u);
      if MIN64 <= v <= MAX64 then Some(v) else None
  }

  lemma {:induction false} FormatUintDigits(n: nat)
    ensures FormatUint(n) != [] && AllDigits(FormatUint(n)) && ValueOf(FormatUint(n)) == n
  {
    var s := FormatUint(n);
    if n >= 10 {
      FormatUintDigits(n / 10);
      assert s[..|s| - 1] == FormatUint(n / 10);
    } else {
      assert s[..0] == [];
    }
  }

  /** Printed numbers have no leading zero. */
  lemma {:induction false} NoLeadingZero(n: nat)
    ensures FormatUint(n) != [] && (FormatUint(n)[0] == '0' <==> n == 0)
  {
    if n >= 10 {
      NoLeadingZero(n / 10);
      assert FormatUint(n)[0] == FormatUint(n / 10)[0];
    }
  }

  lemma AtoiOfDigits(u: string)
    requires u != [] && AllDigits(u)
    ensures Atoi(u) == if ValueOf(u) <= MAX64 then Some(ValueOf(u)) else None
    ensures Atoi("-" + u) == if MIN64 <= -(ValueOf(u) as int) then Some(-(ValueOf(u) as int)) else None
  {
    assert IsDigit(u[0]);
    assert ("-" + u)[1..] == u;
  }

  /** What Itoa prints, Atoi reads back, over the whole range of an int. */
  lemma AtoiInvertsItoa(n: Int64)
    ensures Atoi(Itoa(n)) == Some(n)
  {
    var m: nat := if n < 0 then -(n as int) else n;
    FormatUintDigits(m);
    AtoiOfDigits(FormatUint(m));
  }

  lemma ItoaOneIff(n: int)
    ensures Itoa(n) == "1" <==> n == 1
  {
    var m: nat := if n < 0 then -n else n;
    FormatUintDigits(m);
    assert ValueOf("1"[..0]) == 0 && ValueOf("1") == 1;
  }

  /** No two numbers print alike. */
  lemma FormatUintInjective(m: nat, n: nat)
    requires FormatUint(m) == FormatUint(n)
    ensures m == n
  {
    FormatUintDigits(m);
    FormatUintDigits(n);
  }
}
