/**
 The flags of inotify(7) by their binary digits.
 */
module Flags {
  import opened Tables

  function Pow2(k: nat): nat {
    if k == 0 then 1 else 2 * Pow2(k - 1)
  }

  lemma {:induction false} Pow2Positive(k: nat)
    ensures Pow2(k) > 0
  {
    if k > 0 { Pow2Positive(k - 1); }
  }

  lemma HalveThenDivide(m: nat, d: nat)
    requires d > 0
    ensures m / (2 * d) == (m / 2) / d
  {
    var q, r := (m / 2) / d, (m / 2) % d;
    assert m / 2 == q * d + r;
    assert m == q * (2 * d) + (2 * r + m % 2);
    Quotient(m, 2 * d, q, 2 * r + m % 2);
  }

  lemma Quotient(m: nat, d: nat, q: nat, r: nat)
    requires d > 0 && r < d && m == q * d + r
    ensures m / d == q
  {
    var x := q - m / d;
    assert m == (m / d) * d + m % d;
    assert x * d == m % d - r;
    if x >= 1 {
      Multiple(x, d);
    } else if x <= -1 {
      Multiple(-x, d);
    }
  }

  lemma Multiple(x: int, d: nat)
    requires x >= 1
    ensures x * d >= d
  {
    assert x * d == d + (x - 1) * d;
  }

  /** The k-th digit is what the flag with that digit alone tests. */
  lemma {:induction false} DigitOf(m: nat, k: nat)
    ensures Pow2(k) > 0 && (Bit(m, k) <==> (m / Pow2(k)) % 2 == 1)
    decreases k
  {
    Pow2Positive(k);
    if k > 0 {
      DigitOf(m / 2, k - 1);
      HalveThenDivide(m, Pow2(k - 1));
    }
  }

  /** The digits of the flags the handler looks at (inotify(7)). */
  lemma FlagDigits(m: Word)
    ensures Has(m, IN_CLOSE_NOWRITE) <==> Bit(m, 4)
    ensures Has(m, IN_MOVED_FROM) <==> Bit(m, 6)
    ensures Has(m, IN_MOVED_TO) <==> Bit(m, 7)
    ensures Has(m, IN_CREATE) <==> Bit(m, 8)
    ensures Has(m, IN_DELETE) <==> Bit(m, 9)
    ensures Has(m, IN_Q_OVERFLOW) <==> Bit(m, 14)
    ensures Has(m, IN_IGNORED) <==> Bit(m, 15)
    ensures Has(m, IN_ISDIR) <==> Bit(m, 30)
  {
    Flag(m, 4, IN_CLOSE_NOWRITE);
    Flag(m, 6, IN_MOVED_FROM);
    Flag(m, 7, IN_MOVED_TO);
    Flag(m, 8, IN_CREATE);
    Flag(m, 9, IN_DELETE);
    Flag(m, 14, IN_Q_OVERFLOW);
    Flag(m, 15, IN_IGNORED);
    assert Pow2(20) == 0x10_0000 && Pow2(25) == 0x200_0000;
    Flag(m, 30, IN_ISDIR);
  }

  lemma Flag(m: Word, k: nat, flag: Word)
    requires flag == Pow2(k)
    ensures flag != 0 && (Has(m, flag) <==> Bit(m, k))
  {
    DigitOf(m, k);
  }
}
