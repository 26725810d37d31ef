/**
 The textual form of entity ids. The store issues ids from integer counters
 and turns them into strings with a template literal, so an id is the decimal
 numeral of a positive integer: "1", "2", ..., "10", ... This module defines that
 numeral, the number a numeral denotes, and the facts the store relies on:
 reading a numeral back gives the number, so distinct counters give distinct ids,
 and a numeral of a positive number never starts with '0'.
 */
module Decimal {

  /** The character of a decimal digit. */
  function Digit(d: nat): char
    requires d < 10
  {
    ('0' as int + d) as char
  }

  /** The value of a decimal digit character. */
  function DigitValue(c: char): nat
    requires '0' <= c <= '9'
  {
    c as int - '0' as int
  }

  predicate IsDigits(s: string)
  {
    forall i :: 0 <= i < |s| ==> '0' <= s[i] <= '9'
  }

  /** The decimal numeral of `n`, most significant digit first, as a
      template literal writes every counter value the store reaches. */
  function Format(n: nat): (s: string)
    ensures |s| >= 1 && IsDigits(s)
    ensures n < 10 <==> |s| == 1
  {
    if n < 10 then [Digit(n)] else Format(n / 10) + [Digit(n % 10)]
  }

  /** The number a string of decimal digits denotes, read left to right. */
  function Value(s: string): nat
    requires IsDigits(s)
  {
    if s == [] then 0 else 10 * Value(s[..|s| - 1]) + DigitValue(s[|s| - 1])
  }

  /** Reading the numeral of `n` gives `n` back. */
  lemma {:induction false} ValueOfFormat(n: nat)
    ensures Value(Format(n)) == n
  {
    var s := Format(n);
    if n >= 10 {
      assert s[..|s| - 1] == Format(n / 10);
      ValueOfFormat(n / 10);
    }
  }

  /** Distinct counters give distinct ids. */
  lemma {:induction false} FormatInjective(a: nat, b: nat)
    ensures Format(a) == Format(b) ==> a == b
  {
    ValueOfFormat(a);
    ValueOfFormat(b);
  }

  /** The numeral of a positive number has no leading zero. */
  lemma {:induction false} FormatNoLeadingZero(n: nat)
    requires n >= 1
    ensures Format(n)[0] != '0'
  {
    if n >= 10 {
      FormatNoLeadingZero(n / 10);
    }
  }

  /** A numeral with a leading zero, such as "01", is the id of nothing:
      ids are compared as strings, so "01" does not find the entity "1". */
  lemma {:induction false} LeadingZeroIsNoId(s: string, n: nat)
    requires |s| >= 2 && s[0] == '0'
    ensures Format(n) != s
  {
    if n >= 1 {
      FormatNoLeadingZero(n);
    }
  }
}
