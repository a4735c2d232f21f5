/**
 * Ruby's Integer bit operators on non-negative integers. Ruby integers are
 * unbounded, so `^`, `&`, `|`, `<<` and `>>` are modelled on `nat` rather
 * than on a fixed-width bit-vector type.
 */
module Bits {

  function Pow2(k: nat): (r: nat)
    ensures r >= 1
  {
    if k == 0 then 1 else 2 * Pow2(k - 1)
  }

  /** `a >> k` */
  function Shr(a: nat, k: nat): nat
  {
    DivNat(a, Pow2(k));
    a / Pow2(k)
  }

  /** A natural number divided by a positive one is a natural number. */
  lemma DivNat(a: nat, b: nat)
    requires b >= 1
    ensures a / b >= 0
  {
  }

  /** `a << k` */
  function Shl(a: nat, k: nat): nat
  {
    a * Pow2(k)
  }

  /** `a[i]`, bit `i` of `a` */
  function BitAt(a: nat, i: nat): nat
  {
    Shr(a, i) % 2
  }

  /** `a ^ b` */
  function Xor(a: nat, b: nat): nat
  {
    if a == 0 then b
    else if b == 0 then a
    else 2 * Xor(a / 2, b / 2) + (a % 2 + b % 2) % 2
  }

  /** `a & b` */
  function And(a: nat, b: nat): nat
  {
    if a == 0 || b == 0 then 0
    else 2 * And(a / 2, b / 2) + (a % 2) * (b % 2)
  }

  /** `a | b` */
  function Or(a: nat, b: nat): nat
  {
    if a == 0 then b
    else if b == 0 then a
    else 2 * Or(a / 2, b / 2) + (if a % 2 == 1 || b % 2 == 1 then 1 else 0)
  }

  // ---------------------------------------------------------------------------
  // Division and remainder by powers of two

  lemma DivModUnique(a: int, d: int, q: int, r: int)
    requires d > 0 && 0 <= r < d && a == d * q + r
    ensures a / d == q && a % d == r
  {
    var q', r' := a / d, a % d;
    assert a == d * q' + r' && 0 <= r' < d;
    if q' > q {
      assert d * q' - d * q == d * (q' - q);
      MulAtLeast(d, q' - q);
    } else if q' < q {
      assert d * q - d * q' == d * (q - q');
      MulAtLeast(d, q - q');
    }
  }

  lemma MulAtLeast(d: int, k: int)
    requires d > 0 && k >= 1
    ensures d * k >= d
  {
  }

  /** Stripping the lowest bit first, then `k - 1` more. */
  lemma DivModPow2Step(a: nat, k: nat)
    requires k >= 1
    ensures a / Pow2(k) == (a / 2) / Pow2(k - 1)
    ensures a % Pow2(k) == 2 * ((a / 2) % Pow2(k - 1)) + a % 2
  {
    var p := Pow2(k - 1);
    var q, r := (a / 2) / p, (a / 2) % p;
    assert a / 2 == p * q + r;
    assert a == 2 * (a / 2) + a % 2;
    assert a == (2 * p) * q + (2 * r + a % 2);
    DivModUnique(a, 2 * p, q, 2 * r + a % 2);
  }

  lemma Pow2Add(j: nat, k: nat)
    ensures Pow2(j + k) == Pow2(j) * Pow2(k)
  {
    if j > 0 {
      Pow2Add(j - 1, k);
    }
  }

  lemma Pow2Monotone(j: nat, k: nat)
    requires j <= k
    ensures Pow2(j) <= Pow2(k)
  {
    if j < k {
      Pow2Monotone(j, k - 1);
    }
  }

  // ---------------------------------------------------------------------------
  // Facts about the operators

  /** XOR of two k-bit values is a k-bit value. */
  lemma {:induction false} XorBound(a: nat, b: nat, k: nat)
    requires a < Pow2(k) && b < Pow2(k)
    ensures Xor(a, b) < Pow2(k)
  {
    if a != 0 && b != 0 {
      assert k >= 1;
      XorBound(a / 2, b / 2, k - 1);
    }
  }

  /** `a ^ b == b ^ a` */
  lemma {:induction false} XorComm(a: nat, b: nat)
    ensures Xor(a, b) == Xor(b, a)
  {
    if a != 0 && b != 0 {
      XorComm(a / 2, b / 2);
    }
  }

  /** XOR of two single bits is a single bit. */
  lemma XorBit(a: nat, b: nat)
    requires a < 2 && b < 2
    ensures Xor(a, b) < 2
    ensures Xor(a, b) == (a + b) % 2
  {
  }

  /** The bits of `a ^ b` from position k up are those of `(a >> k) ^ (b >> k)`. */
  lemma {:induction false} XorShr(a: nat, b: nat, k: nat)
    ensures Shr(Xor(a, b), k) == Xor(Shr(a, k), Shr(b, k))
  {
    if k == 0 {
    } else {
      var x, h := Xor(a, b), Xor(a / 2, b / 2);
      XorHalves(a, b);
      DivModUnique(x, 2, h, (a % 2 + b % 2) % 2);
      calc {
        Shr(x, k);
        { DivModPow2Step(x, k); }
        Shr(h, k - 1);
        { XorShr(a / 2, b / 2, k - 1); }
        Xor(Shr(a / 2, k - 1), Shr(b / 2, k - 1));
        { DivModPow2Step(a, k); DivModPow2Step(b, k); }
        Xor(Shr(a, k), Shr(b, k));
      }
    }
  }

  /** The low k bits of `a ^ b` depend only on the low k bits of `a` and `b`. */
  lemma {:induction false} XorMod(a: nat, b: nat, k: nat)
    ensures Xor(a, b) % Pow2(k) == Xor(a % Pow2(k), b % Pow2(k))
  {
    if k == 0 {
    } else {
      var x, p := Xor(a, b), Pow2(k - 1);
      var a', b' := a % Pow2(k), b % Pow2(k);
      XorHalves(a, b);
      assert x / 2 == Xor(a / 2, b / 2) && x % 2 == (a % 2 + b % 2) % 2;
      HalvesOfLow(a, k);
      HalvesOfLow(b, k);
      calc {
        x % Pow2(k);
        { DivModPow2Step(x, k); }
        2 * ((x / 2) % p) + x % 2;
        2 * (Xor(a / 2, b / 2) % p) + (a % 2 + b % 2) % 2;
        { XorMod(a / 2, b / 2, k - 1); }
        2 * Xor((a / 2) % p, (b / 2) % p) + (a % 2 + b % 2) % 2;
        2 * Xor(a' / 2, b' / 2) + (a' % 2 + b' % 2) % 2;
        { XorHalves(a', b'); }
        Xor(a', b');
      }
    }
  }

  /** The low k bits of a, halved, are the low k - 1 bits of a / 2; their parity is a's. */
  lemma HalvesOfLow(a: nat, k: nat)
    requires k >= 1
    ensures (a % Pow2(k)) / 2 == (a / 2) % Pow2(k - 1) && (a % Pow2(k)) % 2 == a % 2
  {
    DivModPow2Step(a, k);
    DivModUnique(a % Pow2(k), 2, (a / 2) % Pow2(k - 1), a % 2);
  }

  /** The defining recursion of XOR also holds when an argument is zero. */
  lemma {:induction false} XorHalves(a: nat, b: nat)
    ensures Xor(a, b) == 2 * Xor(a / 2, b / 2) + (a % 2 + b % 2) % 2
  {
    if a == 0 {
      assert Xor(a / 2, b / 2) == b / 2;
    } else if b == 0 {
      assert Xor(a / 2, b / 2) == a / 2 by {
        if a / 2 != 0 {}
      }
    }
  }

  /** XOR with a value below 2^k leaves the bits from k up unchanged. */
  lemma {:induction false} XorKeepsHigh(a: nat, b: nat, k: nat)
    requires a < Pow2(k)
    ensures Shr(Xor(a, b), k) == Shr(b, k)
  {
    XorShr(a, b, k);
    DivModUnique(a, Pow2(k), 0, a);
    assert Xor(0, Shr(b, k)) == Shr(b, k);
  }

  /** `a & b` never exceeds either operand. */
  lemma {:induction false} AndAtMost(a: nat, b: nat)
    ensures And(a, b) <= a && And(a, b) <= b
  {
    if a != 0 && b != 0 {
      AndAtMost(a / 2, b / 2);
    }
  }

  /** `a & (2^k - 1)` keeps the low k bits: it is `a mod 2^k`. */
  lemma {:induction false} AndLowMask(a: nat, k: nat)
    ensures And(a, Pow2(k) - 1) == a % Pow2(k)
  {
    if k == 0 {
    } else if a == 0 {
    } else {
      AndLowStep(a, k);
      AndLowMask(a / 2, k - 1);
      DivModPow2Step(a, k);
    }
  }

  /** One step of `a & (2^k - 1)`: the low bit of a, then the rest of a against 2^(k-1) - 1. */
  lemma AndLowStep(a: nat, k: nat)
    requires a != 0 && k >= 1
    ensures And(a, Pow2(k) - 1) == 2 * And(a / 2, Pow2(k - 1) - 1) + a % 2
  {
    var m := Pow2(k) - 1;
    assert m / 2 == Pow2(k - 1) - 1 && m % 2 == 1;
    assert And(a, m) == 2 * And(a / 2, m / 2) + (a % 2) * (m % 2);
  }

  /** `a | (b << k)` is an addition when `a` fits in k bits. */
  lemma {:induction false} OrDisjoint(a: nat, b: nat, k: nat)
    requires a < Pow2(k)
    ensures Or(a, b * Pow2(k)) == a + b * Pow2(k)
  {
    if a == 0 || b == 0 {
    } else {
      assert k >= 1;
      var c := b * Pow2(k);
      assert c == 2 * (b * Pow2(k - 1));
      assert c / 2 == b * Pow2(k - 1) && c % 2 == 0;
      OrDisjoint(a / 2, b, k - 1);
    }
  }
}
