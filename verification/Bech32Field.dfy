/** What the checksum register computes (BIP 173, "Checksum"): the remainder of a
    polynomial over GF(32) by a generator polynomial of degree six. The field, its
    multiplication and the generator are defined here from the standard alone. */
module Bech32Field {
  import opened BitRegroup
  import opened BitXor
  import opened Bech32

  // ----- the field

  /** Times x modulo x^5 + x^3 + 1: a carry into x^5 comes back as x^3 + 1. */
  function TimesAlpha(a: nat): (r: nat)
    requires a < 32
    ensures r < 32
  {
    XorBelow32(if a < 16 then 0 else 2 * a - 32, 9);
    if a < 16 then 2 * a else Xor(2 * a - 32, 9)
  }

  /** The product of two field elements, by shifting and adding. */
  function GfMul(a: nat, b: nat): (r: nat)
    requires b < 32
    ensures r < 32
    decreases a
  {
    if a == 0 then 0
    else
      var rest := GfMul(a / 2, TimesAlpha(b));
      XorBelow32(if a % 2 == 1 then b else 0, rest);
      Xor(if a % 2 == 1 then b else 0, rest)
  }

  lemma XorBelow32(a: nat, b: nat)
    requires a < 32 && b < 32
    ensures Xor(a, b) < 32
  {
    assert Pow2(5) == 32;
    XorBound(a, b, 5);
  }

  /** The generator without its leading x^6: the coefficients of x^5 to x^0. */
  const POLYNOMIAL: seq<nat> := [29, 22, 20, 21, 29, 18]

  // ----- six coefficients at a time

  function Times(a: nat, cs: seq<nat>): (r: seq<nat>)
    requires FiveBit(cs)
    ensures |r| == |cs| && FiveBit(r)
  {
    seq(|cs|, k requires 0 <= k < |cs| => GfMul(a, cs[k]))
  }

  function AlphaAll(cs: seq<nat>): (r: seq<nat>)
    requires FiveBit(cs)
    ensures |r| == |cs| && FiveBit(r)
  {
    seq(|cs|, k requires 0 <= k < |cs| => TimesAlpha(cs[k]))
  }

  function Pick(odd: bool, cs: seq<nat>): (r: seq<nat>)
    requires FiveBit(cs)
    ensures |r| == |cs| && FiveBit(r)
  {
    if odd then cs else ZeroValues(|cs|)
  }

  lemma XorAllIsFiveBit(xs: seq<nat>, ys: seq<nat>)
    requires |xs| == |ys| && FiveBit(xs) && FiveBit(ys)
    ensures FiveBit(XorAll(xs, ys))
  {
    forall i | 0 <= i < |xs| ensures XorAll(xs, ys)[i] < 32 {
      XorBelow32(xs[i], ys[i]);
    }
  }

  lemma TimesHalves(a: nat, cs: seq<nat>)
    requires FiveBit(cs)
    ensures Times(a, cs) == XorAll(Pick(a % 2 == 1, cs), Times(a / 2, AlphaAll(cs)))
  {
    forall k | 0 <= k < |cs|
      ensures Times(a, cs)[k] == XorAll(Pick(a % 2 == 1, cs), Times(a / 2, AlphaAll(cs)))[k]
    {
      XorIsZero(0, 0);
    }
  }

  lemma {:induction false} PackOfZeros(n: nat)
    ensures Pack(ZeroValues(n)) == 0
  {
    if n == 0 {
    } else {
      PackOfZeros(n - 1);
      assert ZeroValues(n)[..n - 1] == ZeroValues(n - 1);
      ShlIsZero(0, 5);
    }
  }

  lemma XorOfShifted(a: nat, d: nat, b: nat, e: nat, k: nat)
    requires d < Pow2(k) && e < Pow2(k)
    ensures Xor(Shl(a, k) + d, Shl(b, k) + e) == Shl(Xor(a, b), k) + Xor(d, e)
  {
    XorBelowShift(a, d, k);
    XorBelowShift(b, e, k);
    XorPairs(Shl(a, k), d, Shl(b, k), e);
    XorBound(d, e, k);
    SumOfShifted(a, b, Xor(d, e), k);
  }

  lemma SumOfShifted(a: nat, b: nat, d: nat, k: nat)
    requires d < Pow2(k)
    ensures Xor(Xor(Shl(a, k), Shl(b, k)), d) == Shl(Xor(a, b), k) + d
  {
    ShlOfXor(a, b, k);
    XorBelowShift(Xor(a, b), d, k);
  }

  lemma XorOfPacked(a: nat, d: nat, b: nat, e: nat)
    requires d < 32 && e < 32
    ensures Xor(Shl(a, 5) + d, Shl(b, 5) + e) == Shl(Xor(a, b), 5) + Xor(d, e)
  {
    assert Pow2(5) == 32;
    XorOfShifted(a, d, b, e, 5);
  }

  /** Adding registers is adding their coefficients. */
  lemma {:induction false} PackOfXor(xs: seq<nat>, ys: seq<nat>)
    requires |xs| == |ys| && FiveBit(xs) && FiveBit(ys)
    ensures Pack(XorAll(xs, ys)) == Xor(Pack(xs), Pack(ys))
  {
    if xs == [] {
      XorIsZero(0, 0);
    } else {
      var n := |xs| - 1;
      PackOfXor(xs[..n], ys[..n]);
      assert XorAll(xs, ys)[..n] == XorAll(xs[..n], ys[..n]);
      XorOfPacked(Pack(xs[..n]), xs[n], Pack(ys[..n]), ys[n]);
    }
  }

  // ----- the generators

  /** The generator polynomial times 2^i, coefficient by coefficient. */
  function Column(i: nat): (cs: seq<nat>)
    ensures |cs| == 6 && FiveBit(cs)
  {
    if i == 0 then POLYNOMIAL else AlphaAll(Column(i - 1))
  }

  lemma Pack6(a: nat, b: nat, c: nat, d: nat, e: nat, f: nat)
    ensures Pack([a, b, c, d, e, f]) == ((((a * 32 + b) * 32 + c) * 32 + d) * 32 + e) * 32 + f
  {
    PackLast([], a);
    PackLast([a], b);
    PackLast([a, b], c);
    PackLast([a, b, c], d);
    PackLast([a, b, c, d], e);
    PackLast([a, b, c, d, e], f);
    assert [] + [a] == [a] && [a] + [b] == [a, b] && [a, b] + [c] == [a, b, c];
    assert [a, b, c] + [d] == [a, b, c, d] && [a, b, c, d] + [e] == [a, b, c, d, e];
    assert [a, b, c, d, e] + [f] == [a, b, c, d, e, f];
  }

  lemma PackLast(ds: seq<nat>, d: nat)
    ensures Pack(ds + [d]) == Pack(ds) * 32 + d
  {
    assert (ds + [d])[..|ds|] == ds;
    ShlIsTimes(Pack(ds), 5);
    assert Pow2(5) == 32;
  }

  lemma Alpha6(a: nat, b: nat, c: nat, d: nat, e: nat, f: nat)
    requires a < 32 && b < 32 && c < 32 && d < 32 && e < 32 && f < 32
    ensures AlphaAll([a, b, c, d, e, f])
            == [TimesAlpha(a), TimesAlpha(b), TimesAlpha(c), TimesAlpha(d), TimesAlpha(e), TimesAlpha(f)]
  {
  }

  lemma AlphaOf18To21()
    ensures TimesAlpha(18) == 13 && TimesAlpha(19) == 15 && TimesAlpha(20) == 1 && TimesAlpha(21) == 3
  {
    assert Xor(0, 1) == 1 && Xor(1, 2) == 3 && Xor(2, 4) == 6 && Xor(4, 9) == 13;
    assert Xor(3, 4) == 7 && Xor(6, 9) == 15;
    assert Xor(1, 1) == 0 && Xor(2, 2) == 0 && Xor(4, 4) == 0 && Xor(8, 9) == 1;
    assert Xor(5, 4) == 1 && Xor(10, 9) == 3;
  }

  lemma AlphaOf22And26()
    ensures TimesAlpha(22) == 5 && TimesAlpha(26) == 29
  {
    assert Xor(1, 1) == 0 && Xor(3, 2) == 1 && Xor(6, 4) == 2 && Xor(12, 9) == 5;
    assert Xor(1, 0) == 1 && Xor(2, 1) == 3 && Xor(5, 2) == 7 && Xor(10, 4) == 14 && Xor(20, 9) == 29;
  }

  lemma AlphaOf29And30()
    ensures TimesAlpha(29) == 19 && TimesAlpha(30) == 21
  {
    assert Xor(1, 0) == 1 && Xor(3, 1) == 2 && Xor(6, 2) == 4 && Xor(13, 4) == 9 && Xor(26, 9) == 19;
    assert Xor(7, 2) == 5 && Xor(14, 4) == 10 && Xor(28, 9) == 21;
  }

  lemma Column1()
    ensures Column(1) == [19, 5, 1, 3, 19, 13]
  {
    AlphaOf18To21();
    AlphaOf22And26();
    AlphaOf29And30();
    Alpha6(29, 22, 20, 21, 29, 18);
    assert Column(0) == POLYNOMIAL;
  }

  lemma Column2()
    ensures Column(2) == [15, 10, 2, 6, 15, 26]
  {
    AlphaOf18To21();
    Column1();
    Alpha6(19, 5, 1, 3, 19, 13);
  }

  lemma Column3()
    ensures Column(3) == [30, 20, 4, 12, 30, 29]
  {
    AlphaOf22And26();
    Column2();
    Alpha6(15, 10, 2, 6, 15, 26);
  }

  lemma Column4()
    ensures Column(4) == [21, 1, 8, 24, 21, 19]
  {
    AlphaOf18To21();
    AlphaOf29And30();
    Column3();
    Alpha6(30, 20, 4, 12, 30, 29);
  }

  /** The five constants of the program are the multiples of the generator polynomial
      by 1, 2, 4, 8 and 16. */
  lemma GeneratorsAreMultiples(i: nat)
    requires i < 5
    ensures GENERATOR[i] == Pack(Column(i))
  {
    Pack6(29, 22, 20, 21, 29, 18);
    Pack6(19, 5, 1, 3, 19, 13);
    Pack6(15, 10, 2, 6, 15, 26);
    Pack6(30, 20, 4, 12, 30, 29);
    Pack6(21, 1, 8, 24, 21, 19);
    Column1();
    Column2();
    Column3();
    Column4();
  }

  lemma ColumnIsMultiple(i: nat, k: nat)
    requires i < 5 && k < 6
    ensures Column(i)[k] == GfMul(Pow2(i), POLYNOMIAL[k])
  {
    PowerTimes(i, POLYNOMIAL[k]);
    ColumnAt(i, k);
  }

  function AlphaPower(i: nat, c: nat): (r: nat)
    requires c < 32
    ensures r < 32
    decreases i, c
  {
    if i == 0 then c else AlphaPower(i - 1, TimesAlpha(c))
  }

  lemma {:induction false} PowerTimes(i: nat, c: nat)
    requires c < 32
    ensures GfMul(Pow2(i), c) == AlphaPower(i, c)
    decreases i
  {
    if i == 0 {
      assert GfMul(1, c) == Xor(c, GfMul(0, TimesAlpha(c)));
      XorZero(c);
    } else {
      PowerTimes(i - 1, TimesAlpha(c));
      XorZero(GfMul(Pow2(i - 1), TimesAlpha(c)));
    }
  }

  lemma {:induction false} AlphaPowerLast(i: nat, c: nat)
    requires c < 32
    ensures AlphaPower(i + 1, c) == TimesAlpha(AlphaPower(i, c))
    decreases i
  {
    if i == 0 {
      assert AlphaPower(1, c) == AlphaPower(0, TimesAlpha(c));
    } else {
      AlphaPowerLast(i - 1, TimesAlpha(c));
    }
  }

  lemma {:induction false} ColumnAt(i: nat, k: nat)
    requires k < 6
    ensures Column(i)[k] == AlphaPower(i, POLYNOMIAL[k])
    decreases i
  {
    if i == 0 {
    } else {
      ColumnAt(i - 1, k);
      AlphaPowerLast(i - 1, POLYNOMIAL[k]);
    }
  }

  // ----- a step of the register

  lemma TapIsPicked(t: nat, i: nat)
    requires i < 5
    ensures Tap(t, i) == Pack(Pick(Shr(t, i) % 2 == 1, Column(i)))
  {
    GeneratorsAreMultiples(i);
    PackOfZeros(6);
  }

  lemma NextShift(t: nat, i: nat)
    ensures Shr(t, i) / 2 == Shr(t, i + 1)
  {
    ShrAdds(t, i, 1);
    assert Shr(Shr(t, i), 1) == Shr(Shr(t, i) / 2, 0);
  }

  /** The inner loop adds the multiple of the generator polynomial by the top value. */
  lemma {:induction false} TapsAreTimes(x: nat, t: nat, i: nat)
    requires t < 32 && i <= 5
    ensures Taps(x, t, i) == Xor(x, Pack(Times(Shr(t, i), Column(i))))
    decreases 5 - i
  {
    if i == 5 {
      NoMoreTaps(x, t, i);
    } else {
      TapsAreTimes(Xor(x, Tap(t, i)), t, i + 1);
      OneTap(x, t, i);
    }
  }

  lemma NoMoreTaps(x: nat, t: nat, i: nat)
    requires t < 32 && i == 5
    ensures Xor(x, Pack(Times(Shr(t, i), Column(i)))) == x
  {
    assert Pow2(5) == 32;
    ShrIsZero(t, i);
    assert Times(0, Column(i)) == ZeroValues(6);
    PackOfZeros(6);
    XorZero(x);
  }

  lemma OneTap(x: nat, t: nat, i: nat)
    requires i < 5
    ensures Xor(Xor(x, Tap(t, i)), Pack(Times(Shr(t, i + 1), Column(i + 1))))
            == Xor(x, Pack(Times(Shr(t, i), Column(i))))
  {
    var picked, rest := Pick(Shr(t, i) % 2 == 1, Column(i)), Times(Shr(t, i + 1), Column(i + 1));
    TapIsPicked(t, i);
    NextShift(t, i);
    TimesHalves(Shr(t, i), Column(i));
    PackOfXor(picked, rest);
    XorAssociates(x, Pack(picked), Pack(rest));
  }

  lemma {:induction false} PackFront(ds: seq<nat>)
    requires ds != []
    ensures Pack(ds) == Shl(ds[0], 5 * (|ds| - 1)) + Pack(ds[1..])
  {
    var n := |ds| - 1;
    if n == 0 {
      assert ds[..0] == [] && ds[1..] == [];
      ShlIsZero(0, 5);
    } else {
      PackFront(ds[..n]);
      assert ds[..n][1..] == ds[1..n] && ds[1..][..n - 1] == ds[1..n];
      ShlOfSum(ds[0], Pack(ds[1..n]), 5 * (n - 1), 5);
    }
  }

  lemma {:induction false} ShlOfSum(a: nat, b: nat, k: nat, m: nat)
    ensures Shl(Shl(a, k) + b, m) == Shl(a, k + m) + Shl(b, m)
    decreases m
  {
    if m == 0 {
    } else {
      ShlOfSum(a, b, k, m - 1);
      assert Shl(a, k + m) == 2 * Shl(a, k + (m - 1));
    }
  }

  /** The coefficient of x^5 and the other five of a register. */
  lemma TopAndRest(ds: seq<nat>)
    requires |ds| == 6 && FiveBit(ds)
    ensures Shr(Pack(ds), 25) == ds[0] && Mask(Pack(ds), 25) == Pack(ds[1..])
  {
    PackFront(ds);
    PackBound(ds[1..]);
    ShrOfShl(ds[0], Pack(ds[1..]), 25);
  }

  /** x times the polynomial plus v, reduced by the generator polynomial: what shifts
      into x^6 is replaced by that multiple of the generator. */
  function TimesXPlus(ds: seq<nat>, v: nat): (r: seq<nat>)
    requires |ds| == 6 && FiveBit(ds) && v < 32
    ensures |r| == 6 && FiveBit(r)
  {
    XorAllIsFiveBit(ds[1..] + [v], Times(ds[0], POLYNOMIAL));
    XorAll(ds[1..] + [v], Times(ds[0], POLYNOMIAL))
  }

  lemma StepWithTop(chk: nat, v: nat, top: nat, rest: nat)
    requires top < 32 && Shr(chk, 25) == top && Mask(chk, 25) == rest
    ensures Step(chk, v) == Xor(Xor(Shl(rest, 5), v), Pack(Times(top, POLYNOMIAL)))
  {
    TapsAreTimes(Xor(Shl(rest, 5), v), top, 0);
  }

  lemma ShiftedRegister(rest: seq<nat>, v: nat)
    requires FiveBit(rest) && v < 32
    ensures Xor(Shl(Pack(rest), 5), v) == Pack(rest + [v])
  {
    ShiftedIn(Pack(rest), v);
    PackPush(rest, v);
  }

  lemma StepSum(chk: nat, ds: seq<nat>, v: nat)
    requires |ds| == 6 && FiveBit(ds) && v < 32 && Shr(chk, 25) == ds[0] && Mask(chk, 25) == Pack(ds[1..])
    ensures Step(chk, v) == Xor(Pack(ds[1..] + [v]), Pack(Times(ds[0], POLYNOMIAL)))
  {
    StepWithTop(chk, v, ds[0], Pack(ds[1..]));
    ShiftedRegister(ds[1..], v);
  }

  lemma SumIsTimesXPlus(ds: seq<nat>, v: nat)
    requires |ds| == 6 && FiveBit(ds) && v < 32
    ensures Xor(Pack(ds[1..] + [v]), Pack(Times(ds[0], POLYNOMIAL))) == Pack(TimesXPlus(ds, v))
  {
    PackOfXor(ds[1..] + [v], Times(ds[0], POLYNOMIAL));
  }

  /** One step of the register is one step of the division. */
  lemma StepIsTimesX(ds: seq<nat>, v: nat)
    requires |ds| == 6 && FiveBit(ds) && v < 32
    ensures Step(Pack(ds), v) == Pack(TimesXPlus(ds, v))
  {
    TopAndRest(ds);
    StepSum(Pack(ds), ds, v);
    SumIsTimesXPlus(ds, v);
  }

  // ----- the whole checksum

  /** The remainder of a polynomial whose leading coefficients have left `ds`. */
  function Remainder(ds: seq<nat>, values: seq<nat>): (r: seq<nat>)
    requires |ds| == 6 && FiveBit(ds) && FiveBit(values)
    ensures |r| == 6 && FiveBit(r)
    decreases |values|
  {
    if values == [] then ds else Remainder(TimesXPlus(ds, values[0]), values[1..])
  }

  lemma {:induction false} FeedIsRemainder(ds: seq<nat>, values: seq<nat>)
    requires |ds| == 6 && FiveBit(ds) && FiveBit(values)
    ensures Feed(Step, Pack(ds), values) == Pack(Remainder(ds, values))
    decreases |values|
  {
    if values == [] {
    } else {
      StepIsTimesX(ds, values[0]);
      FeedIsRemainder(TimesXPlus(ds, values[0]), values[1..]);
    }
  }

  const ONE: seq<nat> := [0, 0, 0, 0, 0, 1]

  lemma PolymodFrom(ds: seq<nat>, values: seq<nat>)
    requires |ds| == 6 && FiveBit(ds) && FiveBit(values) && Pack(ds) == 1
    ensures PolymodOf(values) == Pack(Remainder(ds, values))
  {
    FeedIsRemainder(ds, values);
  }

  /** The checksum of a list is the remainder of the polynomial with those coefficients
      behind a leading one. */
  lemma PolymodIsRemainder(values: seq<nat>)
    requires FiveBit(values)
    ensures PolymodOf(values) == Pack(Remainder(ONE, values))
  {
    Pack6(0, 0, 0, 0, 0, 1);
    PolymodFrom(ONE, values);
  }

  /** A prefix and a list verify exactly if that remainder is one: if the generator
      polynomial divides the polynomial less one. */
  lemma VerifiesIffRemainderIsOne(hrp: string, data: seq<nat>)
    requires FiveBit(HrpExpand(hrp) + data)
    ensures VerifyChecksum(hrp, data) <==> Remainder(ONE, HrpExpand(hrp) + data) == [0, 0, 0, 0, 0, 1]
  {
    Pack6(0, 0, 0, 0, 0, 1);
    PolymodIsRemainder(HrpExpand(hrp) + data);
    SamePack(Remainder(ONE, HrpExpand(hrp) + data), ONE);
  }

  lemma SamePack(xs: seq<nat>, ys: seq<nat>)
    requires |xs| == |ys| && FiveBit(xs) && FiveBit(ys)
    ensures Pack(xs) == Pack(ys) <==> xs == ys
  {
    DigitsOfPack(xs);
    DigitsOfPack(ys);
  }
}
