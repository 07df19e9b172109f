/** The Bech32 checksum and encoder (BIP 173, "Checksum"). The checksum is the
    state of a linear register over GF(2): that it is linear, that it loses
    nothing, and that six short values pack into it without overlap are what
    makes the checksum sound, unique and sensitive to bursts of errors. */
module Bech32 {
  import opened BitRegroup
  import opened BitXor

  const GENERATOR: seq<nat> := [0x3b6a57b2, 0x26508e6d, 0x1ea119fa, 0x3d4233dd, 0x2a1462b3]

  // ----- the register

  function Bit(x: nat, k: nat): (b: nat)
    ensures b < 2
  {
    Shr(x, k) % 2
  }

  function Tap(top: nat, i: nat): nat
    requires i < 5
  {
    if Bit(top, i) != 0 then GENERATOR[i] else 0
  }

  /** The inner loop over the generators, from number i on. */
  function Taps(chk: nat, top: nat, i: nat): nat
    requires i <= 5
    decreases 5 - i, chk, top
  {
    if i == 5 then chk else Taps(Xor(chk, Tap(top, i)), top, i + 1)
  }

  function Step(chk: nat, value: nat): nat {
    Taps(Xor(Shl(Mask(chk, 25), 5), value), Shr(chk, 25), 0)
  }

  /** Feeding a list of values to a register with the given step. */
  function Feed(step: (nat, nat) -> nat, chk: nat, values: seq<nat>): nat
    decreases |values|, chk
  {
    if values == [] then chk else Feed(step, step(chk, values[0]), values[1..])
  }

  function PolymodOf(values: seq<nat>): nat {
    Feed(Step, 1, values)
  }

  /** The loop over the five generators. */
  method StepLoop(chk0: nat, value: nat) returns (chk: nat)
    ensures chk == Step(chk0, value)
  {
    var top := Shr(chk0, 25);
    chk := Xor(Shl(Mask(chk0, 25), 5), value);
    for i := 0 to 5
      invariant Taps(chk, top, i) == Step(chk0, value)
    {
      chk := Xor(chk, if Mask(Shr(top, i), 1) != 0 then GENERATOR[i] else 0);
    }
  }

  /** The checksum loop over the values. */
  method Polymod(values: seq<nat>) returns (chk: nat)
    ensures chk == PolymodOf(values)
  {
    chk := 1;
    for k := 0 to |values|
      invariant Feed(Step, chk, values[k..]) == PolymodOf(values)
    {
      assert values[k..][1..] == values[k + 1..];
      chk := StepLoop(chk, values[k]);
    }
  }

  // ----- linearity

  lemma BitOfXor(a: nat, b: nat, k: nat)
    ensures Bit(Xor(a, b), k) == (Bit(a, k) + Bit(b, k)) % 2
  {
    ShrOfXor(a, b, k);
    XorHalves(Shr(a, k), Shr(b, k));
    ParityOfSum(Shr(a, k), Shr(b, k));
  }

  lemma PickIsLinear(g: nat, b: nat, c: nat)
    requires b < 2 && c < 2
    ensures (if (b + c) % 2 != 0 then g else 0) == Xor(if b != 0 then g else 0, if c != 0 then g else 0)
  {
    XorZero(g);
    XorIsZero(g, g);
  }

  lemma TapIsLinear(t: nat, u: nat, i: nat)
    requires i < 5
    ensures Tap(Xor(t, u), i) == Xor(Tap(t, i), Tap(u, i))
  {
    BitOfXor(t, u, i);
    PickIsLinear(GENERATOR[i], Bit(t, i), Bit(u, i));
  }

  lemma {:induction false} TapsAreLinear(x: nat, y: nat, t: nat, u: nat, i: nat)
    requires i <= 5
    ensures Taps(Xor(x, y), Xor(t, u), i) == Xor(Taps(x, t, i), Taps(y, u, i))
    decreases 5 - i
  {
    if i >= 5 {
    } else {
      TapIsLinear(t, u, i);
      XorPairs(x, y, Tap(t, i), Tap(u, i));
      TapsAreLinear(Xor(x, Tap(t, i)), Xor(y, Tap(u, i)), t, u, i + 1);
    }
  }

  lemma StepIsLinear(a: nat, b: nat, v: nat, w: nat)
    ensures Step(Xor(a, b), Xor(v, w)) == Xor(Step(a, v), Step(b, w))
  {
    var x, y := Shl(Mask(a, 25), 5), Shl(Mask(b, 25), 5);
    MaskOfXor(a, b, 25);
    ShlOfXor(Mask(a, 25), Mask(b, 25), 5);
    ShrOfXor(a, b, 25);
    XorPairs(x, y, v, w);
    TapsAreLinear(Xor(x, v), Xor(y, w), Shr(a, 25), Shr(b, 25), 0);
  }

  function XorAll(xs: seq<nat>, ys: seq<nat>): (zs: seq<nat>)
    requires |xs| == |ys|
    ensures |zs| == |xs|
  {
    seq(|xs|, i requires 0 <= i < |xs| => Xor(xs[i], ys[i]))
  }

  ghost predicate Linear(step: (nat, nat) -> nat) {
    forall a: nat, b: nat, v: nat, w: nat {:trigger step(Xor(a, b), Xor(v, w))} ::
      step(Xor(a, b), Xor(v, w)) == Xor(step(a, v), step(b, w))
  }

  lemma StepIsLinearFunction()
    ensures Linear(Step)
  {
    forall a: nat, b: nat, v: nat, w: nat {:trigger Step(Xor(a, b), Xor(v, w))}
      ensures Step(Xor(a, b), Xor(v, w)) == Xor(Step(a, v), Step(b, w))
    {
      StepIsLinear(a, b, v, w);
    }
  }

  lemma {:induction false} FeedIsLinear(step: (nat, nat) -> nat, a: nat, b: nat, xs: seq<nat>, ys: seq<nat>)
    requires |xs| == |ys| && Linear(step)
    ensures Feed(step, Xor(a, b), XorAll(xs, ys)) == Xor(Feed(step, a, xs), Feed(step, b, ys))
    decreases |xs|
  {
    if xs == [] {
    } else {
      assert XorAll(xs, ys)[1..] == XorAll(xs[1..], ys[1..]);
      FeedIsLinear(step, step(a, xs[0]), step(b, ys[0]), xs[1..], ys[1..]);
    }
  }

  lemma {:induction false} FeedConcat(step: (nat, nat) -> nat, chk: nat, xs: seq<nat>, ys: seq<nat>)
    ensures Feed(step, chk, xs + ys) == Feed(step, Feed(step, chk, xs), ys)
    decreases |xs|
  {
    if xs == [] {
      assert xs + ys == ys;
    } else {
      assert (xs + ys)[1..] == xs[1..] + ys;
      FeedConcat(step, step(chk, xs[0]), xs[1..], ys);
    }
  }

  // ----- the register stays within 30 bits

  predicate Fits30(x: nat) {
    x < Pow2(30)
  }

  lemma Powers()
    ensures Pow2(5) == 32 && Pow2(25) == 0x2000000 && Pow2(30) == 0x40000000
  {
    assert Pow2(5) == 32;
    assert Pow2(10) == 1024;
    assert Pow2(15) == 32768;
    assert Pow2(20) == 0x100000;
    assert Pow2(25) == 0x2000000;
  }

  lemma {:induction false} ShlBound(v: nat, a: nat, k: nat)
    requires v < Pow2(a)
    ensures Shl(v, k) < Pow2(a + k)
  {
    if k == 0 {
    } else {
      ShlBound(v, a, k - 1);
    }
  }

  lemma {:induction false} TapsBound(chk: nat, top: nat, i: nat)
    requires i <= 5 && Fits30(chk)
    ensures Fits30(Taps(chk, top, i))
    decreases 5 - i
  {
    if i >= 5 {
    } else {
      Powers();
      XorBound(chk, Tap(top, i), 30);
      TapsBound(Xor(chk, Tap(top, i)), top, i + 1);
    }
  }

  lemma StepBound(chk: nat, v: nat)
    requires Fits30(v)
    ensures Fits30(Step(chk, v))
  {
    ShlBound(Mask(chk, 25), 25, 5);
    XorBound(Shl(Mask(chk, 25), 5), v, 30);
    TapsBound(Xor(Shl(Mask(chk, 25), 5), v), Shr(chk, 25), 0);
  }

  lemma {:induction false} FeedBound(chk: nat, values: seq<nat>)
    requires Fits30(chk) && forall v :: v in values ==> Fits30(v)
    ensures Fits30(Feed(Step, chk, values))
    decreases |values|
  {
    if values == [] {
    } else {
      StepBound(chk, values[0]);
      FeedBound(Step(chk, values[0]), values[1..]);
    }
  }

  // ----- the register loses nothing

  function TapBit(top: nat, i: nat, k: nat): nat
    requires i < 5
  {
    if Bit(GENERATOR[i], k) != 0 then Bit(top, i) else 0
  }

  /** Bit k of what the generators add. */
  function TapBits(top: nat, i: nat, k: nat): nat
    requires i <= 5
    decreases 5 - i, top, k
  {
    if i == 5 then 0 else TapBit(top, i, k) + TapBits(top, i + 1, k)
  }

  lemma {:induction false} BitOfTaps(x: nat, top: nat, i: nat, k: nat)
    requires i <= 5
    ensures Bit(Taps(x, top, i), k) == (Bit(x, k) + TapBits(top, i, k)) % 2
    decreases 5 - i
  {
    if i >= 5 {
    } else {
      BitOfTaps(Xor(x, Tap(top, i)), top, i + 1, k);
      BitOfXor(x, Tap(top, i), k);
      BitOfTap(top, i, k);
      SumParity(Bit(x, k), Bit(Tap(top, i), k), TapBits(top, i + 1, k));
    }
  }

  lemma SumParity(a: nat, b: nat, c: nat)
    ensures ((a + b) % 2 + c) % 2 == (a + (b + c)) % 2
  {
  }

  lemma {:induction false} BitOfZero(k: nat)
    ensures Bit(0, k) == 0
  {
    if k == 0 {
    } else {
      BitOfZero(k - 1);
    }
  }

  lemma BitOfTap(top: nat, i: nat, k: nat)
    requires i < 5
    ensures Bit(Tap(top, i), k) == TapBit(top, i, k)
  {
    BitOfZero(k);
  }

  lemma {:induction false} BitBelowShift(x: nat, m: nat, k: nat)
    requires k < m
    ensures Bit(Shl(x, m), k) == 0
    decreases k
  {
    if k == 0 {
    } else {
      BitBelowShift(x, m - 1, k - 1);
    }
  }

  lemma TapBitsUnrolled(t: nat, k: nat)
    ensures TapBits(t, 0, k) == TapBit(t, 0, k) + TapBit(t, 1, k) + TapBit(t, 2, k) + TapBit(t, 3, k) + TapBit(t, 4, k)
  {
    assert TapBits(t, 4, k) == TapBit(t, 4, k) + TapBits(t, 5, k);
    assert TapBits(t, 2, k) == TapBit(t, 2, k) + TapBit(t, 3, k) + TapBits(t, 4, k);
  }

  lemma GeneratorBits()
    ensures Bit(GENERATOR[0], 0) == 0 && Bit(GENERATOR[0], 1) == 1 && Bit(GENERATOR[0], 2) == 0
            && Bit(GENERATOR[0], 3) == 0 && Bit(GENERATOR[0], 4) == 1
    ensures Bit(GENERATOR[1], 0) == 1 && Bit(GENERATOR[1], 1) == 0 && Bit(GENERATOR[1], 2) == 1
            && Bit(GENERATOR[1], 3) == 1 && Bit(GENERATOR[1], 4) == 0
    ensures Bit(GENERATOR[2], 0) == 0 && Bit(GENERATOR[2], 1) == 1 && Bit(GENERATOR[2], 2) == 0
            && Bit(GENERATOR[2], 3) == 1 && Bit(GENERATOR[2], 4) == 1
    ensures Bit(GENERATOR[3], 0) == 1 && Bit(GENERATOR[3], 1) == 0 && Bit(GENERATOR[3], 2) == 1
            && Bit(GENERATOR[3], 3) == 1 && Bit(GENERATOR[3], 4) == 1
    ensures Bit(GENERATOR[4], 0) == 1 && Bit(GENERATOR[4], 1) == 1 && Bit(GENERATOR[4], 2) == 0
            && Bit(GENERATOR[4], 3) == 0 && Bit(GENERATOR[4], 4) == 1
  {
    LowBits(GENERATOR[0], 0, 1, 0, 0, 1);
    LowBits(GENERATOR[1], 1, 0, 1, 1, 0);
    LowBits(GENERATOR[2], 0, 1, 0, 1, 1);
    LowBits(GENERATOR[3], 1, 0, 1, 1, 1);
    LowBits(GENERATOR[4], 1, 1, 0, 0, 1);
  }

  /** The equations the low five bits give for the top bits. */
  lemma LowTapBits(t: nat)
    ensures TapBits(t, 0, 0) == Bit(t, 1) + Bit(t, 3) + Bit(t, 4)
    ensures TapBits(t, 0, 1) == Bit(t, 0) + Bit(t, 2) + Bit(t, 4)
    ensures TapBits(t, 0, 2) == Bit(t, 1) + Bit(t, 3)
    ensures TapBits(t, 0, 3) == Bit(t, 1) + Bit(t, 2) + Bit(t, 3)
    ensures TapBits(t, 0, 4) == Bit(t, 0) + Bit(t, 2) + Bit(t, 3) + Bit(t, 4)
  {
    GeneratorBits();
    TapBitsUnrolled(t, 0);
    TapBitsUnrolled(t, 1);
    TapBitsUnrolled(t, 2);
    TapBitsUnrolled(t, 3);
    TapBitsUnrolled(t, 4);
  }

  lemma LowBits(g: nat, b0: nat, b1: nat, b2: nat, b3: nat, b4: nat)
    requires b0 < 2 && b1 < 2 && b2 < 2 && b3 < 2 && b4 < 2
    requires g % 32 == b0 + 2 * b1 + 4 * b2 + 8 * b3 + 16 * b4
    ensures Bit(g, 0) == b0 && Bit(g, 1) == b1 && Bit(g, 2) == b2 && Bit(g, 3) == b3 && Bit(g, 4) == b4
  {
    var q := g / 32;
    var h1 := 16 * q + b1 + 2 * b2 + 4 * b3 + 8 * b4;
    var h2 := 8 * q + b2 + 2 * b3 + 4 * b4;
    var h3 := 4 * q + b3 + 2 * b4;
    var h4 := 2 * q + b4;
    assert g / 2 == h1 && h1 / 2 == h2 && h2 / 2 == h3 && h3 / 2 == h4;
    HalfBit(g, 0);
    HalfBit(g, 1);
    HalfBit(g, 2);
    HalfBit(g, 3);
    HalfBit(h1, 0);
    HalfBit(h1, 1);
    HalfBit(h1, 2);
    HalfBit(h2, 0);
    HalfBit(h2, 1);
    HalfBit(h3, 0);
  }

  lemma HalfBit(x: nat, k: nat)
    ensures Bit(x, k + 1) == Bit(x / 2, k)
  {
  }

  lemma {:induction false} NoBitNoNumber(t: nat, n: nat)
    requires t < Pow2(n) && forall k :: 0 <= k < n ==> Bit(t, k) == 0
    ensures t == 0
    decreases n
  {
    if n == 0 {
    } else {
      assert Bit(t, 0) == 0;
      forall k | 0 <= k < n - 1 ensures Bit(t / 2, k) == 0 {
        assert Bit(t, k + 1) == 0;
      }
      NoBitNoNumber(t / 2, n - 1);
    }
  }

  lemma TapBitsAreEven(x: nat, t: nat, k: nat)
    requires k < 5 && Taps(Shl(x, 5), t, 0) == 0
    ensures TapBits(t, 0, k) % 2 == 0
  {
    BitOfTaps(Shl(x, 5), t, 0, k);
    BitBelowShift(x, 5, k);
    BitOfZero(k);
  }

  lemma EvenSums(x: nat, t: nat)
    requires Taps(Shl(x, 5), t, 0) == 0
    ensures (Bit(t, 1) + Bit(t, 3) + Bit(t, 4)) % 2 == 0 && (Bit(t, 0) + Bit(t, 2) + Bit(t, 4)) % 2 == 0
    ensures (Bit(t, 1) + Bit(t, 3)) % 2 == 0 && (Bit(t, 1) + Bit(t, 2) + Bit(t, 3)) % 2 == 0
    ensures (Bit(t, 0) + Bit(t, 2) + Bit(t, 3) + Bit(t, 4)) % 2 == 0
  {
    TapBitsAreEven(x, t, 0);
    TapBitsAreEven(x, t, 1);
    TapBitsAreEven(x, t, 2);
    TapBitsAreEven(x, t, 3);
    TapBitsAreEven(x, t, 4);
    LowTapBits(t);
  }

  /** Only the zero top leaves the low five bits zero. */
  lemma TopMustBeZero(x: nat, t: nat)
    requires t < Pow2(5) && Taps(Shl(x, 5), t, 0) == 0
    ensures t == 0
  {
    EvenSums(x, t);
    SolveLowBits(Bit(t, 0), Bit(t, 1), Bit(t, 2), Bit(t, 3), Bit(t, 4));
    NoBitNoNumber(t, 5);
  }

  lemma SolveLowBits(b0: nat, b1: nat, b2: nat, b3: nat, b4: nat)
    requires b0 < 2 && b1 < 2 && b2 < 2 && b3 < 2 && b4 < 2
    requires (b1 + b3 + b4) % 2 == 0 && (b0 + b2 + b4) % 2 == 0 && (b1 + b3) % 2 == 0
    requires (b1 + b2 + b3) % 2 == 0 && (b0 + b2 + b3 + b4) % 2 == 0
    ensures b0 == b1 == b2 == b3 == b4 == 0
  {
  }

  lemma {:induction false} NoTaps(x: nat, i: nat)
    requires i <= 5
    ensures Taps(x, 0, i) == x
    decreases 5 - i
  {
    if i >= 5 {
    } else {
      BitOfZero(i);
      XorZero(x);
      NoTaps(x, i + 1);
    }
  }

  lemma {:induction false} ShlIsZero(x: nat, k: nat)
    ensures Shl(x, k) == 0 <==> x == 0
  {
    if k == 0 {
    } else {
      ShlIsZero(x, k - 1);
    }
  }

  lemma {:induction false} ShrBound(x: nat, a: nat, k: nat)
    requires x < Pow2(a + k)
    ensures Shr(x, k) < Pow2(a)
    decreases k
  {
    if k == 0 {
    } else {
      ShrBound(x / 2, a, k - 1);
    }
  }

  /** A step with input zero maps no other register of 30 bits to zero. */
  lemma StepHasNoKernel(a: nat)
    requires Fits30(a) && Step(a, 0) == 0
    ensures a == 0
  {
    var low, top := Mask(a, 25), Shr(a, 25);
    Powers();
    XorZero(Shl(low, 5));
    ShrBound(a, 5, 25);
    TopMustBeZero(low, top);
    NoTaps(Shl(low, 5), 0);
    ShlIsZero(low, 5);
    ShrAndMaskAreQuotientAndRemainder(a, 25);
    ShlIsZero(0, 25);
  }

  lemma StepIsInjective(a: nat, b: nat, v: nat)
    requires Fits30(a) && Fits30(b) && Step(a, v) == Step(b, v)
    ensures a == b
  {
    StepIsLinear(a, b, v, v);
    XorIsZero(v, v);
    XorIsZero(Step(a, v), Step(b, v));
    XorBound(a, b, 30);
    StepHasNoKernel(Xor(a, b));
    XorIsZero(a, b);
  }

  lemma {:induction false} FeedIsInjective(a: nat, b: nat, values: seq<nat>)
    requires Fits30(a) && Fits30(b) && forall v :: v in values ==> Fits30(v)
    requires Feed(Step, a, values) == Feed(Step, b, values)
    ensures a == b
    decreases |values|
  {
    if values == [] {
    } else {
      StepBound(a, values[0]);
      StepBound(b, values[0]);
      FeedIsInjective(Step(a, values[0]), Step(b, values[0]), values[1..]);
      StepIsInjective(a, b, values[0]);
    }
  }

  // ----- six values fill the register

  predicate FiveBit(values: seq<nat>) {
    forall i :: 0 <= i < |values| ==> values[i] < 32
  }

  /** The values behind each other, five bits each. */
  function Pack(values: seq<nat>): nat {
    if values == [] then 0
    else Shl(Pack(values[..|values| - 1]), 5) + values[|values| - 1]
  }

  function Digits(p: nat, n: nat): (ds: seq<nat>)
    ensures |ds| == n
    decreases n, p
  {
    if n == 0 then [] else Digits(Shr(p, 5), n - 1) + [Mask(p, 5)]
  }

  lemma {:induction false} ShrOfShl(a: nat, v: nat, k: nat)
    requires v < Pow2(k)
    ensures Shr(Shl(a, k) + v, k) == a && Mask(Shl(a, k) + v, k) == v
    decreases k
  {
    if k == 0 {
    } else {
      ShrOfShl(a, v / 2, k - 1);
      var x := Shl(a, k) + v;
      assert x / 2 == Shl(a, k - 1) + v / 2 && x % 2 == v % 2;
    }
  }

  lemma {:induction false} DigitsOfPack(values: seq<nat>)
    requires FiveBit(values)
    ensures Digits(Pack(values), |values|) == values
  {
    if values == [] {
    } else {
      var n := |values| - 1;
      DigitsOfPack(values[..n]);
      assert Pow2(5) == 32;
      ShrOfShl(Pack(values[..n]), values[n], 5);
      assert values == values[..n] + [values[n]];
    }
  }

  lemma PackPush(ds: seq<nat>, d: nat)
    requires FiveBit(ds) && d < 32
    ensures Pack(ds + [d]) == Shl(Pack(ds), 5) + d && FiveBit(ds + [d])
  {
    assert (ds + [d])[..|ds|] == ds;
  }

  lemma {:induction false} PackOfDigits(p: nat, n: nat)
    requires p < Pow2(5 * n)
    ensures Pack(Digits(p, n)) == p && FiveBit(Digits(p, n))
    decreases n
  {
    if n == 0 {
    } else {
      assert Pow2(5) == 32;
      ShrBound(p, 5 * (n - 1), 5);
      PackOfDigits(Shr(p, 5), n - 1);
      PackPush(Digits(Shr(p, 5), n - 1), Mask(p, 5));
      ShrAndMaskAreQuotientAndRemainder(p, 5);
    }
  }

  lemma {:induction false} PackBound(values: seq<nat>)
    requires FiveBit(values)
    ensures Pack(values) < Pow2(5 * |values|)
  {
    if values == [] {
    } else {
      var n := |values| - 1;
      PackBound(values[..n]);
      assert Pow2(5) == 32;
      PackStepBound(Pack(values[..n]), values[n], 5 * n, 5);
      assert 5 * |values| == 5 * n + 5;
    }
  }

  lemma {:induction false} PackStepBound(a: nat, v: nat, k: nat, m: nat)
    requires a < Pow2(k) && v < Pow2(m)
    ensures Shl(a, m) + v < Pow2(k + m)
    decreases m
  {
    if m == 0 {
    } else {
      PackStepBound(a, v / 2, k, m - 1);
    }
  }

  lemma ShortNumber(a: nat, k: nat)
    requires a < Pow2(k)
    ensures Shr(a, k) == 0 && Mask(a, k) == a
  {
    ShrIsZero(a, k);
    ShrAndMaskAreQuotientAndRemainder(a, k);
    ShlIsZero(0, k);
  }

  lemma StepWithoutTop(a: nat, v: nat)
    requires Shr(a, 25) == 0 && Mask(a, 25) == a
    ensures Step(a, v) == Xor(Shl(a, 5), v)
  {
    NoTaps(Xor(Shl(a, 5), v), 0);
  }

  /** While the top five bits are zero, a step only shifts a value in. */
  lemma SmallStepPacks(a: nat, v: nat)
    requires a < Pow2(25) && v < 32
    ensures Step(a, v) == Shl(a, 5) + v
  {
    ShortNumber(a, 25);
    StepWithoutTop(a, v);
    ShiftedIn(a, v);
  }

  lemma ShiftedIn(a: nat, v: nat)
    requires v < 32
    ensures Xor(Shl(a, 5), v) == Shl(a, 5) + v
  {
    assert Pow2(5) == 32;
    XorBelowShift(a, v, 5);
  }

  lemma {:induction false} PowMonotone(a: nat, b: nat)
    requires a <= b
    ensures Pow2(a) <= Pow2(b)
  {
    if a >= b {
    } else {
      PowMonotone(a, b - 1);
    }
  }

  lemma FeedPush(chk: nat, values: seq<nat>, v: nat)
    ensures Feed(Step, chk, values + [v]) == Step(Feed(Step, chk, values), v)
  {
    FeedConcat(Step, chk, values, [v]);
    FeedOne(Step, Feed(Step, chk, values), v);
  }

  lemma FeedOne(step: (nat, nat) -> nat, chk: nat, v: nat)
    ensures Feed(step, chk, [v]) == step(chk, v)
  {
  }

  lemma {:induction false} SixValuesPack(values: seq<nat>)
    requires |values| <= 6 && FiveBit(values)
    ensures Feed(Step, 0, values) == Pack(values)
  {
    if values == [] {
    } else {
      var n := |values| - 1;
      assert values == values[..n] + [values[n]];
      SixValuesPack(values[..n]);
      OneMorePacks(values[..n], values[n]);
    }
  }

  lemma OneMorePacks(front: seq<nat>, last: nat)
    requires |front| <= 5 && FiveBit(front) && last < 32 && Feed(Step, 0, front) == Pack(front)
    ensures Feed(Step, 0, front + [last]) == Pack(front + [last])
  {
    PackBound(front);
    PowMonotone(5 * |front|, 25);
    SmallStepPacks(Pack(front), last);
    FeedPush(0, front, last);
    PackPush(front, last);
  }

  // ----- the checksum

  function HrpExpand(hrp: string): (values: seq<nat>)
    ensures |values| == 2 * |hrp| + 1
  {
    seq(|hrp|, i requires 0 <= i < |hrp| => Shr(hrp[i] as int, 5))
    + [0]
    + seq(|hrp|, i requires 0 <= i < |hrp| => Mask(hrp[i] as int, 5))
  }

  predicate VerifyChecksum(hrp: string, data: seq<nat>) {
    PolymodOf(HrpExpand(hrp) + data) == 1
  }

  const SIX_ZEROS: seq<nat> := [0, 0, 0, 0, 0, 0]

  function ChecksumNumber(hrp: string, data: seq<nat>): nat {
    Xor(PolymodOf(HrpExpand(hrp) + data + SIX_ZEROS), 1)
  }

  function SixDigits(p: nat): (cs: seq<nat>)
    ensures |cs| == 6
  {
    seq(6, i requires 0 <= i < 6 => Mask(Shr(p, 5 * (5 - i)), 5))
  }

  function CreateChecksum(hrp: string, data: seq<nat>): (cs: seq<nat>)
    ensures |cs| == 6
  {
    SixDigits(ChecksumNumber(hrp, data))
  }

  predicate AllFit30(values: seq<nat>) {
    forall v :: v in values ==> Fits30(v)
  }

  lemma {:induction false} ShrShrinks(x: nat, k: nat)
    ensures Shr(x, k) <= x
    decreases k
  {
    if k == 0 {
    } else {
      ShrShrinks(x / 2, k - 1);
    }
  }

  /** Whatever characters the prefix has, its expansion fits the register. */
  lemma HrpFits(hrp: string)
    ensures AllFit30(HrpExpand(hrp))
  {
    Powers();
    forall i | 0 <= i < |hrp| ensures Fits30(Shr(hrp[i] as int, 5)) && Fits30(Mask(hrp[i] as int, 5)) {
      ShrShrinks(hrp[i] as int, 5);
    }
  }

  lemma FiveBitFits(values: seq<nat>)
    requires FiveBit(values)
    ensures AllFit30(values)
  {
    Powers();
  }

  lemma AllFitConcat(xs: seq<nat>, ys: seq<nat>)
    requires AllFit30(xs) && AllFit30(ys)
    ensures AllFit30(xs + ys)
  {
  }

  lemma {:induction false} ShrAdds(x: nat, a: nat, b: nat)
    ensures Shr(Shr(x, a), b) == Shr(x, a + b)
    decreases a
  {
    if a == 0 {
    } else {
      ShrAdds(x / 2, a - 1, b);
    }
  }

  lemma {:induction false} DigitAt(p: nat, n: nat, i: nat)
    requires i < n
    ensures Digits(p, n)[i] == Mask(Shr(p, 5 * (n - 1 - i)), 5)
    decreases n
  {
    if i < n - 1 {
      DigitAt(Shr(p, 5), n - 1, i);
      ShrAdds(p, 5, 5 * (n - 2 - i));
    }
  }

  lemma DigitsOneByOne(p: nat, n: nat)
    requires n == 6
    ensures SixDigits(p) == Digits(p, n)
  {
    forall i | 0 <= i < n ensures SixDigits(p)[i] == Digits(p, n)[i] {
      DigitAt(p, n, i);
    }
  }

  lemma SixDigitsAreDigits(p: nat)
    ensures SixDigits(p) == Digits(p, 6)
  {
    DigitsOneByOne(p, 6);
  }

  lemma XorAllZeros(zeros: seq<nat>, cs: seq<nat>)
    requires |zeros| == |cs| && forall i :: 0 <= i < |zeros| ==> zeros[i] == 0
    ensures XorAll(zeros, cs) == cs
  {
    forall i | 0 <= i < |cs| ensures XorAll(zeros, cs)[i] == cs[i] {
      XorZero(cs[i]);
    }
  }

  /** Six values behind others are xored into what six zeros would have left. */
  lemma FeedSix(chk: nat, zeros: seq<nat>, cs: seq<nat>)
    requires |zeros| == |cs| == 6 && FiveBit(cs) && forall i :: 0 <= i < |zeros| ==> zeros[i] == 0
    ensures Feed(Step, chk, cs) == Xor(Feed(Step, chk, zeros), Pack(cs))
  {
    StepIsLinearFunction();
    FeedIsLinear(Step, chk, 0, zeros, cs);
    XorZero(chk);
    XorAllZeros(zeros, cs);
    SixValuesPack(cs);
  }

  lemma ChecksumNumberFits(hrp: string, data: seq<nat>)
    requires AllFit30(data)
    ensures Fits30(ChecksumNumber(hrp, data))
  {
    var values := HrpExpand(hrp) + data + SIX_ZEROS;
    Powers();
    HrpFits(hrp);
    AllFitConcat(HrpExpand(hrp), data);
    AllFitConcat(HrpExpand(hrp) + data, SIX_ZEROS);
    FeedBound(1, values);
    XorBound(PolymodOf(values), 1, 30);
  }

  lemma VerifiesIfPacked(hrp: string, data: seq<nat>, cs: seq<nat>)
    requires |cs| == 6 && FiveBit(cs)
    ensures VerifyChecksum(hrp, data + cs) <==> Pack(cs) == ChecksumNumber(hrp, data)
  {
    var values := HrpExpand(hrp) + data;
    var p := PolymodOf(values + SIX_ZEROS);
    assert HrpExpand(hrp) + (data + cs) == values + cs;
    FeedConcat(Step, 1, values, cs);
    FeedConcat(Step, 1, values, SIX_ZEROS);
    FeedSix(PolymodOf(values), SIX_ZEROS, cs);
    assert PolymodOf(values + cs) == Xor(p, Pack(cs));
    XorCancels(p, Pack(cs));
    XorCancels(p, 1);
  }

  lemma PackedIfDigits(cs: seq<nat>, p: nat, n: nat)
    requires |cs| == n && FiveBit(cs) && p < Pow2(5 * n)
    ensures Pack(cs) == p <==> cs == Digits(p, n)
  {
    PackOfDigits(p, n);
    DigitsOfPack(cs);
  }

  /** The created checksum verifies, and it is the only one that does. */
  lemma ChecksumIsTheOnlyOne(hrp: string, data: seq<nat>, cs: seq<nat>)
    requires AllFit30(data) && |cs| == 6 && FiveBit(cs)
    ensures VerifyChecksum(hrp, data + cs) <==> cs == CreateChecksum(hrp, data)
  {
    VerifiesIfPacked(hrp, data, cs);
    ChecksumNumberFits(hrp, data);
    PackedIfDigits(cs, ChecksumNumber(hrp, data), |cs|);
    SixDigitsAreDigits(ChecksumNumber(hrp, data));
  }

  /** For every prefix and every list of values the checksum is sound. */
  lemma ChecksumIsSound(hrp: string, data: seq<nat>)
    requires AllFit30(data)
    ensures FiveBit(CreateChecksum(hrp, data))
    ensures VerifyChecksum(hrp, data + CreateChecksum(hrp, data))
  {
    ChecksumNumberFits(hrp, data);
    PackOfDigits(ChecksumNumber(hrp, data), 6);
    SixDigitsAreDigits(ChecksumNumber(hrp, data));
    ChecksumIsTheOnlyOne(hrp, data, CreateChecksum(hrp, data));
  }

  // ----- error detection

  lemma BurstChangesRegister(chk: nat, xs: seq<nat>, ys: seq<nat>)
    requires |xs| == |ys| <= 6 && FiveBit(xs) && FiveBit(ys) && xs != ys
    ensures Feed(Step, chk, xs) != Feed(Step, chk, ys)
  {
    var zs := XorAll(xs, ys);
    StepIsLinearFunction();
    FeedIsLinear(Step, chk, chk, xs, ys);
    XorIsZero(chk, chk);
    assert Pow2(5) == 32;
    forall i | 0 <= i < |zs| ensures zs[i] < 32 {
      XorBound(xs[i], ys[i], 5);
    }
    SixValuesPack(zs);
    DigitsOfPack(zs);
    if Pack(zs) == 0 {
      DigitsOfZero(|zs|);
      forall i | 0 <= i < |xs| ensures xs[i] == ys[i] {
        assert zs[i] == 0;
        XorIsZero(xs[i], ys[i]);
      }
    }
    XorIsZero(Feed(Step, chk, xs), Feed(Step, chk, ys));
  }

  lemma {:induction false} DigitsOfZero(n: nat)
    ensures forall i :: 0 <= i < n ==> Digits(0, n)[i] == 0
  {
    if n == 0 {
    } else {
      ShrShrinks(0, 5);
      DigitsOfZero(n - 1);
      ShortNumber(0, 5);
    }
  }

  /** Two lists that differ only inside a window of at most six values, anywhere
      in lists of any length, never have the same checksum state. */
  lemma BurstIsDetected(before: seq<nat>, xs: seq<nat>, ys: seq<nat>, after: seq<nat>)
    requires AllFit30(before) && AllFit30(after)
    requires |xs| == |ys| <= 6 && FiveBit(xs) && FiveBit(ys) && xs != ys
    ensures PolymodOf(before + xs + after) != PolymodOf(before + ys + after)
  {
    var chk := PolymodOf(before);
    FeedConcat(Step, 1, before + xs, after);
    FeedConcat(Step, 1, before + ys, after);
    FeedConcat(Step, 1, before, xs);
    FeedConcat(Step, 1, before, ys);
    BurstChangesRegister(chk, xs, ys);
    Powers();
    FiveBitFits(xs);
    FiveBitFits(ys);
    FeedBound(1, before);
    FeedBound(chk, xs);
    FeedBound(chk, ys);
    if PolymodOf(before + xs + after) == PolymodOf(before + ys + after) {
      FeedIsInjective(Feed(Step, chk, xs), Feed(Step, chk, ys), after);
    }
  }

  lemma Associate(a: seq<nat>, b: seq<nat>, c: seq<nat>, d: seq<nat>)
    ensures a + (b + c + d) == a + b + c + d
  {
  }

  /** So no burst of up to six changed characters turns one valid string into another. */
  lemma VerifyRejectsBursts(hrp: string, data: seq<nat>, xs: seq<nat>, ys: seq<nat>, after: seq<nat>)
    requires FiveBit(data) && FiveBit(after)
    requires |xs| == |ys| <= 6 && FiveBit(xs) && FiveBit(ys) && xs != ys
    requires VerifyChecksum(hrp, data + xs + after)
    ensures !VerifyChecksum(hrp, data + ys + after)
  {
    HrpFits(hrp);
    FiveBitFits(data);
    FiveBitFits(after);
    AllFitConcat(HrpExpand(hrp), data);
    BurstIsDetected(HrpExpand(hrp) + data, xs, ys, after);
    Associate(HrpExpand(hrp), data, xs, after);
    Associate(HrpExpand(hrp), data, ys, after);
  }
}
