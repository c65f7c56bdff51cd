// Unsigned 32-bit arithmetic as the validator and the route builder use it.
module Bits {

  const WORD: nat := 0x1_0000_0000

  type uint32 = x: int | 0 <= x < 0x1_0000_0000

  function Pow2(n: nat): (p: nat)
    ensures p >= 1
  {
    if n == 0 then 1 else 2 * Pow2(n - 1)
  }

  lemma {:induction false} Pow2Of32()
    ensures Pow2(32) == WORD
  {
    assert Pow2(8) == 256;
    assert Pow2(16) == 256 * Pow2(8);
    assert Pow2(24) == 256 * Pow2(16);
    assert Pow2(32) == 256 * Pow2(24);
  }

  lemma {:induction false} Pow2Adds(a: nat, b: nat)
    ensures Pow2(a + b) == Pow2(a) * Pow2(b)
  {
    if a > 0 {
      Pow2Adds(a - 1, b);
      assert Pow2(a + b) == 2 * (Pow2(a - 1) * Pow2(b));
      assert 2 * (Pow2(a - 1) * Pow2(b)) == (2 * Pow2(a - 1)) * Pow2(b);
    }
  }

  /** Bitwise conjunction, one binary digit at a time. */
  function And(a: nat, b: nat): (r: nat)
    ensures r <= a && r <= b
  {
    if a == 0 || b == 0 then 0 else 2 * And(a / 2, b / 2) + if a % 2 == 1 && b % 2 == 1 then 1 else 0
  }

  /** Left shift that drops the bits leaving the 32-bit word. */
  function Shl(a: uint32, n: nat): uint32 {
    (a * Pow2(n)) % WORD
  }

  /** Bitwise complement within 32 bits. */
  function Not(a: uint32): uint32 {
    WORD - 1 - a
  }

  /** The netmask of a prefix length: all ones shifted left by the length of the host part. */
  function Mask(prefix: nat): uint32
    requires 1 <= prefix <= 32
  {
    Shl(0xffff_ffff, 32 - prefix)
  }

  lemma {:induction false} MaskValue(prefix: nat)
    requires 1 <= prefix <= 32
    ensures Mask(prefix) == WORD - Pow2(32 - prefix)
    ensures Not(Mask(prefix)) == Pow2(32 - prefix) - 1
    ensures Pow2(32 - prefix) * Pow2(prefix) == WORD && Pow2(prefix) >= 2
  {
    var s := Pow2(32 - prefix);
    Pow2Adds(32 - prefix, prefix);
    Pow2Of32();
    assert Pow2(prefix) == 2 * Pow2(prefix - 1);
    ShiftedOnes(s, Pow2(prefix));
  }

  lemma ShiftedOnes(s: nat, t: nat)
    requires s * t == WORD && s >= 1 && t >= 2
    ensures (0xffff_ffff * s) % WORD == WORD - s
  {
    assert s * t >= s * 2;
    assert 0xffff_ffff * s == (s - 1) * WORD + (WORD - s);
    assert 0 <= WORD - s < WORD;
    ModuloUnique(0xffff_ffff * s, WORD, s - 1, WORD - s);
  }

  /** Division with remainder is unique. */
  lemma ModuloUnique(x: nat, d: nat, q: nat, r: nat)
    requires d > 0 && x == q * d + r && r < d
    ensures x % d == r && x / d == q
  {
    var k := q - x / d;
    assert k * d == x % d - r;
    NonzeroMultiple(k, d);
  }

  lemma NonzeroMultiple(k: int, d: int)
    requires d > 0
    ensures k == 0 || k * d >= d || k * d <= 0 - d
  {
    if k > 0 {
      assert (k - 1) * d >= 0;
    } else if k < 0 {
      assert (-k - 1) * d >= 0;
    }
  }

  lemma {:induction false} AndOnes(a: nat, w: nat)
    requires a < Pow2(w)
    ensures And(a, Pow2(w) - 1) == a
  {
    if w > 0 && a != 0 {
      assert (Pow2(w) - 1) / 2 == Pow2(w - 1) - 1 && (Pow2(w) - 1) % 2 == 1;
      AndOnes(a / 2, w - 1);
    }
  }

  /** The remainder of a division by a power of two: the low digits. */
  function Rest(a: nat, d: nat): (r: nat)
    requires d >= 1
    ensures r <= a
  {
    RestInRange(a, d);
    a % d
  }

  lemma RestInRange(a: nat, d: nat)
    requires d >= 1
    ensures 0 <= a % d <= a
  {
  }

  lemma RestOfOne(a: nat, d: nat)
    requires d >= 1 && (a == 0 || d == 1)
    ensures Rest(a, d) == 0
  {
  }

  lemma RestDigit(a: nat, p: nat)
    requires p >= 1
    ensures Rest(a, 2 * p) == 2 * Rest(a / 2, p) + a % 2
  {
    var q, r := (a / 2) / p, (a / 2) % p;
    QuotientOf(a / 2, p);
    Doubled(q, p);
    ModuloUnique(a, 2 * p, q, 2 * r + a % 2);
  }

  lemma QuotientOf(h: nat, p: nat)
    requires p >= 1
    ensures h == (h / p) * p + h % p && 0 <= h % p < p
  {
  }

  lemma Doubled(q: nat, p: nat)
    ensures 2 * (q * p) == q * (2 * p)
  {
  }

  lemma AndNothing(a: nat, b: nat)
    requires a == 0 || b == 0
    ensures And(a, b) == 0
  {
  }

  lemma AndDigit(a: nat, p: nat)
    requires a != 0 && p >= 1
    ensures And(a, 2 * p - 1) == 2 * And(a / 2, p - 1) + a % 2
  {
    assert (2 * p - 1) / 2 == p - 1 && (2 * p - 1) % 2 == 1;
  }

  lemma AndEven(a: nat, m: nat)
    requires a != 0
    ensures And(a, 2 * m) == 2 * And(a / 2, m)
  {
    if m == 0 {
      AndNothing(a / 2, m);
    } else {
      assert (2 * m) / 2 == m && (2 * m) % 2 == 0;
    }
  }

  lemma {:induction false} AndLow(a: nat, n: nat)
    ensures And(a, Pow2(n) - 1) == Rest(a, Pow2(n))
  {
    hide And, Rest;
    if n == 0 || a == 0 {
      assert n == 0 ==> Pow2(n) == 1;
      RestOfOne(a, Pow2(n));
      AndNothing(a, Pow2(n) - 1);
    } else {
      var p := Pow2(n - 1);
      AndLow(a / 2, n - 1);
      AndDigit(a, p);
      RestDigit(a, p);
    }
  }

  lemma {:induction false} AndHigh(a: nat, w: nat, n: nat)
    requires n <= w && a < Pow2(w)
    ensures Pow2(n) <= Pow2(w)
    ensures And(a, Pow2(w) - Pow2(n)) == a - Rest(a, Pow2(n))
    decreases n
  {
    hide And, Rest;
    if n == 0 {
      AndOnes(a, w);
      RestOfOne(a, Pow2(n));
    } else {
      var p, m := Pow2(n - 1), Pow2(w - 1) - Pow2(n - 1);
      assert Pow2(w) == 2 * Pow2(w - 1) && Pow2(n) == 2 * p;
      AndHigh(a / 2, w - 1, n - 1);
      RestDigit(a, p);
      if a == 0 {
        AndNothing(a, Pow2(w) - Pow2(n));
      } else {
        AndEven(a, m);
      }
    }
  }

  /** Masking keeps the network part, and the complement of the mask the host part. */
  lemma MaskSplits(a: uint32, prefix: nat)
    requires 1 <= prefix <= 32
    ensures And(a, Mask(prefix)) == a - a % Pow2(32 - prefix)
    ensures And(a, Not(Mask(prefix))) == a % Pow2(32 - prefix)
  {
    MaskValue(prefix);
    Pow2Of32();
    AndHigh(a, 32, 32 - prefix);
    AndLow(a, 32 - prefix);
  }
}
