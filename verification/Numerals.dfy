/** Natural numbers in decimal digits. */
module Numerals {
  import opened Utf16
  import opened JsonModel

  /** A natural number as it is printed. */
  function NatText(n: nat): Text {
    if n < 10 then [ToUnit(0x30 + n)] else NatText(n / 10) + [ToUnit(0x30 + n % 10)]
  }

  predicate AllDigits(t: Text) { forall u :: u in t ==> IsDigit(u) }

  function Pow10(k: nat): nat { if k == 0 then 1 else 10 * Pow10(k - 1) }

  lemma {:induction false} NatDigits(n: nat, k: nat)
    requires n < Pow10(k) && k > 0
    ensures AllDigits(NatText(n)) && 0 < |NatText(n)| <= k
    ensures n > 0 ==> NatText(n)[0] != ZERO
    ensures n == 0 ==> NatText(n) == [ZERO]
    decreases k
  {
    if n >= 10 {
      assert k > 1 by { assert Pow10(1) == 10; }
      NatDigits(n / 10, k - 1);
    }
  }

  lemma {:induction false} DigitsAll(t: Text)
    requires AllDigits(t)
    ensures Digits(t) == |t|
    decreases |t|
  {
    if t != [] {
      assert t[0] in t;
      DigitsAll(t[1..]);
    }
  }

  /** The value of a text of digits, in base ten. */
  function Decimal(t: Text): nat {
    if t == [] then 0 else Decimal(t[..|t| - 1]) * 10 + (if IsDigit(t[|t| - 1]) then t[|t| - 1] - 0x30 else 0)
  }

  lemma {:induction false} DecimalOfNat(n: nat)
    ensures Decimal(NatText(n)) == n && |NatText(n)| > 0
    decreases n
  {
    var t := NatText(n);
    if n >= 10 {
      DecimalOfNat(n / 10);
      assert t[..|t| - 1] == NatText(n / 10);
    } else {
      assert t[..0] == [];
    }
  }

  lemma {:induction false} NatInjective(m: nat, n: nat)
    requires NatText(m) == NatText(n)
    ensures m == n
  {
    DecimalOfNat(m);
    DecimalOfNat(n);
  }

  lemma {:induction false} NatLonger(n: nat)
    ensures |NatText(n)| > 0
  {}
}
