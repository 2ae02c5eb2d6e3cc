/** Decimal numerals, plain and zero-padded to six places, and their injectivity. */
module Decimal {
  function Digit(d: nat): char
    requires d < 10
  {
    '0' + d as char
  }

  function Value(c: char): int { c as int - '0' as int }

  function Digits(n: nat): (s: string)
    ensures s != []
    ensures forall i :: 0 <= i < |s| ==> '0' <= s[i] <= '9'
  {
    if n < 10 then [Digit(n)] else Digits(n / 10) + [Digit(n % 10)]
  }

  function Zeros(k: nat): (s: string)
    ensures |s| == k && forall i :: 0 <= i < k ==> s[i] == '0'
  {
    seq(k, _ => '0')
  }

  /** The format `{n:06d}`: at least six digits. */
  function Padded(n: nat): (s: string)
    ensures forall i :: 0 <= i < |s| ==> '0' <= s[i] <= '9'
  {
    var d := Digits(n);
    if |d| < 6 then Zeros(6 - |d|) + d else d
  }

  function Parse(s: string): int {
    if s == [] then 0 else 10 * Parse(s[..|s| - 1]) + Value(s[|s| - 1])
  }

  lemma {:induction false} ParseDigits(n: nat)
    ensures Parse(Digits(n)) == n
  {
    if n >= 10 {
      ParseDigits(n / 10);
      assert Digits(n)[..|Digits(n)| - 1] == Digits(n / 10);
    }
  }

  lemma {:induction false} ParseZeros(k: nat, s: string)
    ensures Parse(Zeros(k) + s) == Parse(s)
    decreases |s|, k
  {
    var whole := Zeros(k) + s;
    if s != [] {
      ParseZeros(k, s[..|s| - 1]);
      assert whole[..|whole| - 1] == Zeros(k) + s[..|s| - 1];
    } else if k > 0 {
      ParseZeros(k - 1, []);
      assert whole[..k - 1] == Zeros(k - 1) + [];
      assert whole[k - 1] == '0';
    } else {
      assert whole == [];
    }
  }

  lemma DigitsInjective(m: nat, n: nat)
    requires Digits(m) == Digits(n)
    ensures m == n
  {
    ParseDigits(m);
    ParseDigits(n);
  }

  lemma ParsePadded(n: nat)
    ensures Parse(Padded(n)) == n
  {
    hide Parse;
    var d := Digits(n);
    ParseDigits(n);
    if |d| < 6 {
      ParseZeros(6 - |d|, d);
    }
  }

  lemma PaddedInjective(m: nat, n: nat)
    requires Padded(m) == Padded(n)
    ensures m == n
  {
    hide Padded, Parse;
    ParsePadded(m);
    ParsePadded(n);
  }
}
