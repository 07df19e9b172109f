/** Exclusive or of unbounded non-negative integers: the addition of GF(2). */
module BitXor {
  import opened BitRegroup

  function Xor(a: nat, b: nat): nat
    decreases a + b
  {
    if a == 0 && b == 0 then 0 else 2 * Xor(a / 2, b / 2) + (a + b) % 2
  }

  lemma {:induction false} XorHalves(a: nat, b: nat)
    ensures Xor(a, b) / 2 == Xor(a / 2, b / 2) && Xor(a, b) % 2 == (a + b) % 2
  {
  }

  lemma {:induction false} XorZero(a: nat)
    ensures Xor(a, 0) == a && Xor(0, a) == a
  {
    if a == 0 {
    } else {
      XorZero(a / 2);
    }
  }

  lemma {:induction false} XorCommutes(a: nat, b: nat)
    ensures Xor(a, b) == Xor(b, a)
    decreases a + b
  {
    if a == 0 && b == 0 {
    } else {
      XorCommutes(a / 2, b / 2);
    }
  }

  lemma SameHalves(x: nat, y: nat)
    requires x / 2 == y / 2 && x % 2 == y % 2
    ensures x == y
  {
  }

  lemma Parity(x: nat, a: nat, b: nat, c: nat)
    requires x % 2 == (a + b) % 2
    ensures (x + c) % 2 == (a + b + c) % 2 && (c + x) % 2 == (c + a + b) % 2
  {
  }

  lemma XorThree(a: nat, b: nat, c: nat)
    ensures Xor(Xor(a, b), c) / 2 == Xor(Xor(a / 2, b / 2), c / 2)
    ensures Xor(Xor(a, b), c) % 2 == (a + b + c) % 2
    ensures Xor(c, Xor(a, b)) / 2 == Xor(c / 2, Xor(a / 2, b / 2))
    ensures Xor(c, Xor(a, b)) % 2 == (c + a + b) % 2
  {
    XorHalves(a, b);
    XorHalves(Xor(a, b), c);
    XorHalves(c, Xor(a, b));
    Parity(Xor(a, b), a, b, c);
  }

  lemma {:induction false} XorAssociates(a: nat, b: nat, c: nat)
    ensures Xor(Xor(a, b), c) == Xor(a, Xor(b, c))
    decreases a + b + c
  {
    if a == 0 && b == 0 && c == 0 {
    } else {
      XorAssociates(a / 2, b / 2, c / 2);
      XorThree(a, b, c);
      XorThree(b, c, a);
      SameHalves(Xor(Xor(a, b), c), Xor(a, Xor(b, c)));
    }
  }

  /** Every number is its own inverse, and the only one. */
  lemma {:induction false} XorIsZero(a: nat, b: nat)
    ensures Xor(a, b) == 0 <==> a == b
    decreases a + b
  {
    if a == 0 && b == 0 {
    } else {
      XorIsZero(a / 2, b / 2);
    }
  }

  lemma XorCancels(a: nat, b: nat)
    ensures Xor(Xor(a, b), b) == a && Xor(a, Xor(a, b)) == b
  {
    XorAssociates(a, b, b);
    XorIsZero(b, b);
    XorZero(a);
    XorAssociates(a, a, b);
    XorIsZero(a, a);
    XorZero(b);
  }

  lemma XorPairs(x: nat, y: nat, p: nat, q: nat)
    ensures Xor(Xor(x, y), Xor(p, q)) == Xor(Xor(x, p), Xor(y, q))
  {
    XorAssociates(x, y, Xor(p, q));
    XorAssociates(y, p, q);
    XorCommutes(y, p);
    XorAssociates(p, y, q);
    XorAssociates(x, p, Xor(y, q));
  }

  lemma {:induction false} XorBound(a: nat, b: nat, k: nat)
    requires a < Pow2(k) && b < Pow2(k)
    ensures Xor(a, b) < Pow2(k)
    decreases k
  {
    if k == 0 || (a == 0 && b == 0) {
    } else {
      XorBound(a / 2, b / 2, k - 1);
    }
  }

  // ----- shifts and masks are linear

  lemma Doubled(x: nat, p: nat)
    requires p < 2
    ensures (2 * x + p) / 2 == x && (2 * x + p) % 2 == p
  {
  }

  lemma ParityOfSum(a: nat, b: nat)
    ensures (a + b) % 2 == (a % 2 + b % 2) % 2
  {
  }

  lemma XorOfDoubles(x: nat, y: nat, p: nat, q: nat)
    requires p < 2 && q < 2
    ensures Xor(2 * x + p, 2 * y + q) == 2 * Xor(x, y) + (p + q) % 2
  {
    Doubled(x, p);
    Doubled(y, q);
    ParityOfSum(2 * x + p, 2 * y + q);
    XorHalves(2 * x + p, 2 * y + q);
  }

  lemma DoubleOfXor(x: nat, y: nat)
    ensures Xor(2 * x, 2 * y) == 2 * Xor(x, y)
  {
    XorOfDoubles(x, y, 0, 0);
  }

  lemma {:induction false} ShlOfXor(a: nat, b: nat, k: nat)
    ensures Shl(Xor(a, b), k) == Xor(Shl(a, k), Shl(b, k))
  {
    if k == 0 {
    } else {
      ShlOfXor(a, b, k - 1);
      DoubleOfXor(Shl(a, k - 1), Shl(b, k - 1));
    }
  }

  lemma {:induction false} ShrOfXor(a: nat, b: nat, k: nat)
    ensures Shr(Xor(a, b), k) == Xor(Shr(a, k), Shr(b, k))
    decreases k
  {
    if k == 0 {
    } else {
      XorHalves(a, b);
      ShrOfXor(a / 2, b / 2, k - 1);
    }
  }

  lemma XorOfMasks(a: nat, b: nat, k: nat)
    requires k > 0
    ensures Xor(Mask(a, k), Mask(b, k)) == 2 * Xor(Mask(a / 2, k - 1), Mask(b / 2, k - 1)) + (a + b) % 2
  {
    XorOfDoubles(Mask(a / 2, k - 1), Mask(b / 2, k - 1), a % 2, b % 2);
    ParityOfSum(a, b);
  }

  lemma MaskOfHalves(v: nat, half: nat, low: nat, k: nat)
    requires k > 0 && v / 2 == half && v % 2 == low
    ensures Mask(v, k) == 2 * Mask(half, k - 1) + low
  {
  }

  lemma {:induction false} MaskOfXor(a: nat, b: nat, k: nat)
    ensures Mask(Xor(a, b), k) == Xor(Mask(a, k), Mask(b, k))
    decreases k
  {
    if k == 0 {
    } else {
      XorHalves(a, b);
      MaskOfHalves(Xor(a, b), Xor(a / 2, b / 2), (a + b) % 2, k);
      MaskOfXor(a / 2, b / 2, k - 1);
      XorOfMasks(a, b, k);
    }
  }

  lemma XorBelowDouble(s: nat, h: nat, p: nat)
    requires p < 2 && Xor(s, h) == s + h
    ensures Xor(2 * s, 2 * h + p) == 2 * s + (2 * h + p)
  {
    XorOfDoubles(s, h, 0, p);
    assert (0 + p) % 2 == p;
  }

  /** Xoring a short value into the zeros below a shifted one is adding it. */
  lemma {:induction false} XorBelowShift(a: nat, v: nat, k: nat)
    requires v < Pow2(k)
    ensures Xor(Shl(a, k), v) == Shl(a, k) + v
    decreases k
  {
    if k == 0 {
      XorZero(a);
    } else {
      XorBelowShift(a, v / 2, k - 1);
      XorBelowDouble(Shl(a, k - 1), v / 2, v % 2);
    }
  }
}
