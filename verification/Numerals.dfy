/** Numbers as texts, and back. */
module Numerals {
  function Hex(n: nat): char
    requires n < 16
  {
    if n < 10 then ('0' as int + n) as char else ('a' as int + n - 10) as char
  }

  /** `n` in `width` hexadecimal places. */
  function Places(n: nat, width: nat): (r: string)
    ensures |r| == width
  {
    if width == 0 then [] else Places(n / 16, width - 1) + [Hex(n % 16)]
  }

  function Digit(c: char): nat {
    if '0' <= c <= '9' then c as int - '0' as int else if 'a' <= c <= 'f' then c as int - 'a' as int + 10 else 0
  }

  function Number(s: string, base: nat): nat {
    if s == [] then 0 else base * Number(s[..|s| - 1], base) + Digit(s[|s| - 1])
  }

  lemma DigitOfHex(n: nat)
    requires n < 16
    ensures Digit(Hex(n)) == n
  {
  }

  lemma NumberGrows(s: string, c: char, base: nat)
    ensures Number(s + [c], base) == base * Number(s, base) + Digit(c)
  {
    assert (s + [c])[..|s|] == s;
  }

  predicate IsDigit(c: char) {
    '0' <= c <= '9'
  }

  function Digits(n: nat): (r: string)
    ensures r != [] && forall i :: 0 <= i < |r| ==> IsDigit(r[i])
  {
    if n < 10 then [Hex(n)] else Digits(n / 10) + [Hex(n % 10)]
  }

  lemma {:induction false} NumberOfDigits(n: nat)
    ensures Number(Digits(n), 10) == n
  {
    if n < 10 {
      NumberGrows([], Hex(n), 10);
      assert [] + [Hex(n)] == [Hex(n)];
    } else {
      NumberOfDigits(n / 10);
      NumberGrows(Digits(n / 10), Hex(n % 10), 10);
    }
  }
}
