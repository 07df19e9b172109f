/** Regrouping a list of frombits-wide values into tobits-wide ones, through an
    accumulator that is masked after every value. The reference is the list of
    bits behind the values: the accumulator never loses one that is still due. */
module BitRegroup {
  import opened Wrappers

  function Pow2(k: nat): (p: nat)
    ensures p > 0
  {
    if k == 0 then 1 else 2 * Pow2(k - 1)
  }

  // ----- shifts and masks of unbounded non-negative integers

  function Shl(v: nat, k: nat): nat {
    if k == 0 then v else 2 * Shl(v, k - 1)
  }

  function Shr(v: nat, k: nat): nat
    decreases k, v
  {
    if k == 0 then v else Shr(v / 2, k - 1)
  }

  /** v & (2^k - 1) */
  function Mask(v: nat, k: nat): (r: nat)
    ensures r < Pow2(k)
    decreases k, v
  {
    if k == 0 then 0 else 2 * Mask(v / 2, k - 1) + v % 2
  }

  lemma TimesDouble(v: nat, p: nat)
    ensures v * (2 * p) == 2 * (v * p)
  {
  }

  /** What the three operators mean as arithmetic. */
  lemma {:induction false} ShlIsTimes(v: nat, k: nat)
    ensures Shl(v, k) == v * Pow2(k)
  {
    if k == 0 {
    } else {
      ShlIsTimes(v, k - 1);
      TimesDouble(v, Pow2(k - 1));
    }
  }

  lemma {:induction false} ShrAndMaskAreQuotientAndRemainder(v: nat, k: nat)
    ensures v == Shl(Shr(v, k), k) + Mask(v, k)
    decreases k
  {
    if k == 0 {
    } else {
      ShrAndMaskAreQuotientAndRemainder(v / 2, k - 1);
    }
  }

  lemma {:induction false} ShrIsZero(v: nat, k: nat)
    ensures Shr(v, k) == 0 <==> v < Pow2(k)
    decreases k
  {
    if k == 0 {
    } else {
      ShrIsZero(v / 2, k - 1);
    }
  }

  // ----- numbers as bits

  /** The low k bits of v, most significant first. */
  function Bits(v: nat, k: nat): (bs: seq<bool>)
    ensures |bs| == k
    decreases k, v
  {
    if k == 0 then [] else Bits(v / 2, k - 1) + [v % 2 == 1]
  }

  function Number(bs: seq<bool>): nat {
    if bs == [] then 0
    else 2 * Number(bs[..|bs| - 1]) + (if bs[|bs| - 1] then 1 else 0)
  }

  function Zeros(k: nat): seq<bool> {
    seq(k, i => false)
  }

  predicate InRange(values: seq<int>, k: nat) {
    forall i :: 0 <= i < |values| ==> 0 <= values[i] < Pow2(k)
  }

  /** The bits of a list of k-bit values, behind each other. */
  function AllBits(values: seq<int>, k: nat): seq<bool>
    requires InRange(values, k)
  {
    if values == [] then [] else Bits(values[0], k) + AllBits(values[1..], k)
  }

  lemma {:induction false} NumberOfBits(v: nat, k: nat)
    requires v < Pow2(k)
    ensures Number(Bits(v, k)) == v
    decreases k
  {
    if k == 0 {
    } else {
      NumberOfBits(v / 2, k - 1);
      assert Bits(v, k)[..k - 1] == Bits(v / 2, k - 1);
    }
  }

  lemma {:induction false} NumberIsZero(bs: seq<bool>)
    ensures Number(bs) == 0 <==> true !in bs
  {
    if bs == [] {
    } else {
      var n := |bs| - 1;
      NumberIsZero(bs[..n]);
      assert bs == bs[..n] + [bs[n]];
    }
  }

  lemma {:induction false} BitsSplit(v: nat, a: nat, b: nat)
    ensures Bits(v, a + b) == Bits(Shr(v, b), a) + Bits(v, b)
    decreases b
  {
    if b == 0 {
    } else {
      BitsSplit(v / 2, a, b - 1);
    }
  }

  /** Masking to m bits keeps every shorter group of low bits. */
  lemma {:induction false} BitsOfMasked(v: nat, m: nat, k: nat)
    requires k <= m
    ensures Bits(Mask(v, m), k) == Bits(v, k)
    decreases k
  {
    if k == 0 {
    } else {
      BitsOfMasked(v / 2, m - 1, k - 1);
    }
  }

  /** Shifting a value in below the accumulator appends its bits. */
  lemma {:induction false} BitsOfShiftIn(acc: nat, have: nat, value: nat, f: nat)
    requires value < Pow2(f)
    ensures Bits(Shl(acc, f) + value, have + f) == Bits(acc, have) + Bits(value, f)
    decreases f
  {
    if f == 0 {
    } else {
      BitsOfShiftIn(acc, have, value / 2, f - 1);
      assert (Shl(acc, f) + value) / 2 == Shl(acc, f - 1) + value / 2;
      assert (Shl(acc, f) + value) % 2 == value % 2;
    }
  }

  lemma {:induction false} BitsOfZero(k: nat)
    ensures Bits(0, k) == Zeros(k)
  {
    if k == 0 {
    } else {
      BitsOfZero(k - 1);
    }
  }

  lemma {:induction false} AllBitsAppend(xs: seq<int>, v: int, k: nat)
    requires InRange(xs, k) && 0 <= v < Pow2(k)
    ensures InRange(xs + [v], k) && AllBits(xs + [v], k) == AllBits(xs, k) + Bits(v, k)
  {
    if xs == [] {
      assert xs + [v] == [v] && [v][1..] == [];
    } else {
      assert (xs + [v])[1..] == xs[1..] + [v];
      AllBitsAppend(xs[1..], v, k);
      JoinBits(Bits(xs[0], k), AllBits(xs[1..], k), Bits(v, k));
    }
  }

  lemma JoinBits(a: seq<bool>, b: seq<bool>, c: seq<bool>)
    ensures a + b + c == a + (b + c)
  {
  }

  lemma {:induction false} AllBitsLength(xs: seq<int>, k: nat)
    requires InRange(xs, k)
    ensures |AllBits(xs, k)| == k * |xs|
  {
    if xs == [] {
    } else {
      AllBitsLength(xs[1..], k);
      assert k * |xs| == k + k * (|xs| - 1);
    }
  }

  // ----- the reference: cutting the bits into groups

  /** Whole groups of t bits, and the bits that are left over. */
  datatype Cut = Cut(whole: seq<nat>, left: seq<bool>)

  function Chop(bs: seq<bool>, t: nat): (c: Cut)
    requires t > 0
    ensures |c.left| < t
  {
    if |bs| < t then Cut([], bs)
    else
      var rest := Chop(bs[t..], t);
      Cut([Number(bs[..t])] + rest.whole, rest.left)
  }

  /** What padding makes of the bits that are left over: one group, filled up with zeros. */
  function Padded(left: seq<bool>, t: nat): seq<nat>
    requires |left| <= t
  {
    if left == [] then [] else [Number(left + Zeros(t - |left|))]
  }

  function Regroup(data: seq<int>, f: nat, t: nat, pad: bool): Option<seq<nat>>
    requires t > 0
  {
    if !InRange(data, f) then None
    else
      var cut := Chop(AllBits(data, f), t);
      if pad then Some(cut.whole + Padded(cut.left, t))
      else if |cut.left| >= f || true in cut.left then None
      else Some(cut.whole)
  }

  lemma ChopCons(head: seq<bool>, tail: seq<bool>, t: nat)
    requires |head| == t > 0
    ensures Chop(head + tail, t) == Cut([Number(head)] + Chop(tail, t).whole, Chop(tail, t).left)
  {
    assert (head + tail)[..t] == head && (head + tail)[t..] == tail;
  }

  lemma AllBitsFront(values: seq<int>, left: seq<bool>, k: nat)
    requires InRange(values, k) && values != []
    ensures AllBits(values, k) + left == Bits(values[0], k) + (AllBits(values[1..], k) + left)
  {
  }

  lemma ChopFront(values: seq<nat>, tail: seq<bool>, left: seq<bool>, t: nat)
    requires t > 0 && values != [] && values[0] < Pow2(t) && Chop(tail, t) == Cut(values[1..], left)
    ensures Chop(Bits(values[0], t) + tail, t) == Cut(values, left)
  {
    NumberOfBits(values[0], t);
    ChopCons(Bits(values[0], t), tail, t);
    assert [values[0]] + values[1..] == values;
  }

  lemma {:induction false} ChopAllBits(values: seq<int>, left: seq<bool>, t: nat)
    requires t > 0 && InRange(values, t) && |left| < t
    ensures Chop(AllBits(values, t) + left, t) == Cut(values, left)
  {
    if values == [] {
      assert AllBits(values, t) + left == left;
    } else {
      ChopAllBits(values[1..], left, t);
      AllBitsFront(values, left, t);
      ChopFront(values, AllBits(values[1..], t) + left, left, t);
    }
  }

  // ----- the loop

  /** Taking one group off the accumulator moves its bits to the output. */
  lemma EmitGroup(ret: seq<nat>, acc: nat, have: nat, t: nat)
    requires InRange(ret, t)
    ensures var g := Mask(Shr(acc, have), t);
            InRange(ret + [g], t)
            && AllBits(ret + [g], t) + Bits(acc, have) == AllBits(ret, t) + Bits(acc, t + have)
  {
    var g := Mask(Shr(acc, have), t);
    AllBitsAppend(ret, g, t);
    BitsOfMasked(Shr(acc, have), t, t);
    BitsSplit(acc, t, have);
  }

  lemma NumberOfLowBits(v: nat, k: nat)
    ensures Number(Bits(v, k)) == Mask(v, k)
  {
    BitsOfMasked(v, k, k);
    NumberOfBits(Mask(v, k), k);
  }

  lemma ShiftedBits(acc: nat, have: nat, d: nat, t: nat)
    requires t == have + d
    ensures Bits(Shl(acc, d), t) == Bits(acc, have) + Zeros(d)
  {
    BitsOfShiftIn(acc, have, 0, d);
    BitsOfZero(d);
  }

  lemma LastGroup(acc: nat, have: nat, t: nat)
    requires have <= t
    ensures Mask(Shl(acc, t - have), t) == Number(Bits(acc, have) + Zeros(t - have))
  {
    var d := t - have;
    var shifted := Shl(acc, d);
    ShiftedBits(acc, have, d, t);
    NumberOfLowBits(shifted, t);
  }

  /** The part of the input read so far is the output and the accumulator's low bits. */
  ghost predicate Progress(read: seq<int>, f: nat, ret: seq<nat>, t: nat, acc: nat, have: nat) {
    InRange(read, f) && InRange(ret, t) && AllBits(read, f) == AllBits(ret, t) + Bits(acc, have)
  }

  /** Shifting one more value in, with the mask, keeps every bit that is still due. */
  lemma ShiftIn(read: seq<int>, f: nat, ret: seq<nat>, t: nat, acc: nat, have: nat, value: nat)
    requires t > 0 && Progress(read, f, ret, t, acc, have) && have < t && value < Pow2(f)
    ensures Progress(read + [value], f, ret, t, Mask(Shl(acc, f) + value, f + t - 1), have + f)
  {
    AllBitsAppend(read, value, f);
    BitsOfShiftIn(acc, have, value, f);
    BitsOfMasked(Shl(acc, f) + value, f + t - 1, have + f);
  }

  lemma EmitKeepsProgress(read: seq<int>, f: nat, ret: seq<nat>, t: nat, acc: nat, have: nat)
    requires Progress(read, f, ret, t, acc, t + have)
    ensures Progress(read, f, ret + [Mask(Shr(acc, have), t)], t, acc, have)
  {
    EmitGroup(ret, acc, have, t);
  }

  lemma FinishCut(data: seq<int>, f: nat, ret: seq<nat>, t: nat, acc: nat, have: nat)
    requires t > 0 && Progress(data, f, ret, t, acc, have) && have < t
    ensures InRange(data, f) && Chop(AllBits(data, f), t) == Cut(ret, Bits(acc, have))
  {
    ChopAllBits(ret, Bits(acc, have), t);
  }

  lemma LastGroupIsZero(acc: nat, have: nat, t: nat)
    requires have <= t
    ensures Mask(Shl(acc, t - have), t) == 0 <==> true !in Bits(acc, have)
  {
    var left, fill := Bits(acc, have), Zeros(t - have);
    LastGroup(acc, have, t);
    NumberIsZero(left + fill);
    assert true in left <==> true in left + fill;
  }

  /** What the code decides from the accumulator at the end is what the cut says. */
  lemma Finish(data: seq<int>, f: nat, ret: seq<nat>, t: nat, acc: nat, have: nat)
    requires t > 0 && have < t && InRange(data, f)
    requires Chop(AllBits(data, f), t) == Cut(ret, Bits(acc, have))
    ensures var last := Mask(Shl(acc, t - have), t);
            && Regroup(data, f, t, true) == Some(if have != 0 then ret + [last] else ret)
            && Regroup(data, f, t, false) == (if have >= f || last != 0 then None else Some(ret))
  {
    LastGroup(acc, have, t);
    LastGroupIsZero(acc, have, t);
    if have == 0 {
      assert ret + [] == ret;
    }
  }

  /** The inner loop: as many whole groups as the accumulator holds. */
  method EmitGroups(acc: nat, have: nat, tobits: nat, ret0: seq<nat>, ghost read: seq<int>, ghost f: nat)
    returns (ret: seq<nat>, bits: nat)
    requires tobits > 0 && Progress(read, f, ret0, tobits, acc, have)
    ensures bits < tobits && Progress(read, f, ret, tobits, acc, bits)
  {
    ret, bits := ret0, have;
    while bits >= tobits
      invariant Progress(read, f, ret, tobits, acc, bits)
    {
      bits := bits - tobits;
      EmitKeepsProgress(read, f, ret, tobits, acc, bits);
      ret := ret + [Mask(Shr(acc, bits), tobits)];
    }
  }

  lemma OutOfRange(data: seq<int>, f: nat, t: nat, pad: bool, i: nat)
    requires t > 0 && i < |data| && !(0 <= data[i] < Pow2(f))
    ensures Regroup(data, f, t, pad) == None
  {
  }

  /** One value: shifted in, masked, and whole groups taken off. */
  method PushValue(acc0: nat, bits0: nat, frombits: nat, tobits: nat, ret0: seq<nat>, value: nat, ghost read: seq<int>)
    returns (acc: nat, bits: nat, ret: seq<nat>)
    requires tobits > 0 && bits0 < tobits && value < Pow2(frombits)
    requires Progress(read, frombits, ret0, tobits, acc0, bits0)
    ensures bits < tobits && Progress(read + [value], frombits, ret, tobits, acc, bits)
  {
    ShiftIn(read, frombits, ret0, tobits, acc0, bits0, value);
    acc := Mask(Shl(acc0, frombits) + value, frombits + tobits - 1);
    ret, bits := EmitGroups(acc, bits0 + frombits, tobits, ret0, read + [value], frombits);
  }

  lemma StartProgress(f: nat, t: nat)
    ensures Progress([], f, [], t, 0, 0)
  {
  }

  /** A masked accumulator of frombits + tobits - 1 bits regroups every list
      exactly as cutting its bits does. */
  method ConvertBits(data: seq<int>, frombits: nat, tobits: nat, pad: bool) returns (r: Option<seq<nat>>)
    requires frombits > 0 && tobits > 0
    ensures r == Regroup(data, frombits, tobits, pad)
  {
    var acc: nat, bits: nat, ret: seq<nat> := 0, 0, [];
    StartProgress(frombits, tobits);
    for i := 0 to |data|
      invariant bits < tobits && Progress(data[..i], frombits, ret, tobits, acc, bits)
    {
      var value := data[i];
      if value < 0 {
        OutOfRange(data, frombits, tobits, pad, i);
        return None;
      }
      ShrIsZero(value, frombits);
      if Shr(value, frombits) != 0 {
        OutOfRange(data, frombits, tobits, pad, i);
        return None;
      }
      assert data[..i + 1] == data[..i] + [value];
      acc, bits, ret := PushValue(acc, bits, frombits, tobits, ret, value, data[..i]);
    }
    assert data[..|data|] == data;
    r := Last(data, frombits, ret, tobits, acc, bits, pad);
  }

  /** What is done with the bits that are left over. */
  method Last(ghost data: seq<int>, frombits: nat, ret: seq<nat>, tobits: nat, acc: nat, bits: nat, pad: bool)
    returns (r: Option<seq<nat>>)
    requires tobits > 0 && bits < tobits && Progress(data, frombits, ret, tobits, acc, bits)
    ensures r == Regroup(data, frombits, tobits, pad)
  {
    FinishCut(data, frombits, ret, tobits, acc, bits);
    Finish(data, frombits, ret, tobits, acc, bits);
    r := Some(ret);
    if pad {
      if bits != 0 {
        r := Some(ret + [Mask(Shl(acc, tobits - bits), tobits)]);
      }
    } else if bits >= frombits || Mask(Shl(acc, tobits - bits), tobits) != 0 {
      r := None;
    }
  }

  // ----- what regrouping keeps

  lemma {:induction false} BitsOfNumber(bs: seq<bool>)
    ensures Number(bs) < Pow2(|bs|) && Bits(Number(bs), |bs|) == bs
  {
    if bs == [] {
    } else {
      var n := |bs| - 1;
      BitsOfNumber(bs[..n]);
      assert bs == bs[..n] + [bs[n]];
    }
  }

  lemma KeepsBitsFront(head: seq<bool>, c: Cut, tail: seq<bool>, t: nat)
    requires |head| == t && InRange(c.whole, t) && AllBits(c.whole, t) + c.left == tail
    ensures var whole := [Number(head)] + c.whole;
            InRange(whole, t) && AllBits(whole, t) + c.left == head + tail
  {
    var whole := [Number(head)] + c.whole;
    BitsOfNumber(head);
    assert whole[1..] == c.whole;
    AllBitsFront(whole, c.left, t);
  }

  lemma {:induction false} ChopKeepsBits(bs: seq<bool>, t: nat)
    requires t > 0
    ensures InRange(Chop(bs, t).whole, t) && AllBits(Chop(bs, t).whole, t) + Chop(bs, t).left == bs
  {
    if |bs| < t {
      assert [] + bs == bs;
    } else {
      var head, tail := bs[..t], bs[t..];
      ChopKeepsBits(tail, t);
      KeepsBitsFront(head, Chop(tail, t), tail, t);
      assert head + tail == bs;
    }
  }

  lemma FillUp(whole: seq<nat>, left: seq<bool>, t: nat, fill: nat)
    requires InRange(whole, t) && |left| + fill == t
    ensures var last := Number(left + Zeros(fill));
            InRange(whole + [last], t) && AllBits(whole + [last], t) == (AllBits(whole, t) + left) + Zeros(fill)
  {
    BitsOfNumber(left + Zeros(fill));
    AllBitsAppend(whole, Number(left + Zeros(fill)), t);
  }

  lemma NothingToFill(whole: seq<nat>, bs: seq<bool>, t: nat)
    requires t > 0 && InRange(whole, t) && AllBits(whole, t) + [] == bs
    ensures whole + Padded([], t) == whole && AllBits(whole, t) == bs + Zeros(0)
  {
  }

  /** A padded cut has the same bits as before, and zeros behind them. */
  lemma PaddedCut(bs: seq<bool>, t: nat) returns (fill: nat)
    requires t > 0
    ensures fill < t
    ensures var r := Chop(bs, t).whole + Padded(Chop(bs, t).left, t);
            InRange(r, t) && AllBits(r, t) == bs + Zeros(fill)
  {
    var c := Chop(bs, t);
    ChopKeepsBits(bs, t);
    if c.left == [] {
      fill := 0;
      NothingToFill(c.whole, bs, t);
    } else {
      fill := t - |c.left|;
      FillUp(c.whole, c.left, t, fill);
    }
  }

  /** Padding adds fewer than t zero bits and changes none. */
  lemma PaddedKeepsBits(data: seq<int>, f: nat, t: nat) returns (fill: nat)
    requires t > 0 && InRange(data, f)
    ensures fill < t
    ensures var r := Regroup(data, f, t, true).value;
            && InRange(r, t)
            && AllBits(r, t) == AllBits(data, f) + Zeros(fill)
            && t * |r| == f * |data| + fill
  {
    fill := PaddedCut(AllBits(data, f), t);
    AllBitsLength(Regroup(data, f, t, true).value, t);
    AllBitsLength(data, f);
  }

  function ZeroValues(n: nat): (zeros: seq<nat>)
    ensures |zeros| == n
  {
    seq(n, i => 0)
  }

  lemma ZerosJoin(bs: seq<bool>, a: nat, b: nat)
    ensures bs + Zeros(a) + Zeros(b) == bs + Zeros(a + b)
  {
  }

  /** A zero value behind a list is zero bits behind its bits. */
  lemma AllBitsOfOneZero(xs: seq<int>, bs: seq<bool>, n: nat, f: nat)
    requires InRange(xs, f) && AllBits(xs, f) == bs + Zeros(n)
    ensures InRange(xs + [0], f) && AllBits(xs + [0], f) == bs + Zeros(n + f)
  {
    AllBitsAppend(xs, 0, f);
    BitsOfZero(f);
    ZerosJoin(bs, n, f);
  }

  lemma OneFactorLess(f: nat, m: nat)
    requires m > 0
    ensures f * m == f * (m - 1) + f
  {
  }

  lemma ZeroValuesLast(data: seq<int>, m: nat)
    ensures m == 0 ==> data + ZeroValues(m) == data
    ensures m > 0 ==> data + ZeroValues(m) == (data + ZeroValues(m - 1)) + [0]
  {
  }

  lemma {:induction false} AllBitsOfZeroValues(data: seq<int>, m: nat, n: nat, f: nat)
    requires InRange(data, f) && n == f * m
    ensures InRange(data + ZeroValues(m), f)
    ensures AllBits(data + ZeroValues(m), f) == AllBits(data, f) + Zeros(n)
    decreases m
  {
    ZeroValuesLast(data, m);
    if m == 0 {
      assert AllBits(data, f) + Zeros(0) == AllBits(data, f);
    } else {
      OneFactorLess(f, m);
      AllBitsOfZeroValues(data, m - 1, n - f, f);
      AllBitsOfOneZero(data + ZeroValues(m - 1), AllBits(data, f), n - f, f);
    }
  }

  /** Zero bits behind a list of f-wide values are cut into zero values and a rest. */
  lemma ChopWithZeros(data: seq<int>, m: nat, n: nat, rest: nat, f: nat)
    requires rest < f && InRange(data, f) && n == f * m
    ensures Chop(AllBits(data, f) + Zeros(n + rest), f) == Cut(data + ZeroValues(m), Zeros(rest))
  {
    AllBitsOfZeroValues(data, m, n, f);
    ZerosJoin(AllBits(data, f), n, rest);
    ChopAllBits(data + ZeroValues(m), Zeros(rest), f);
  }

  lemma DivMod(n: nat, d: nat)
    requires d > 0
    ensures n == d * (n / d) + n % d && n % d < d
  {
  }

  lemma AtLeast(t: nat, d: nat, k: nat)
    requires d >= k
    ensures t * d >= t * k
  {
  }

  lemma MultipleBelow(t: nat, p: nat, q: nat, r: nat)
    requires t > 0 && t * p == t * q + r && r < 2 * t
    ensures r == 0 || r == t
  {
    if p < q {
      AtLeast(t, q, p + 1);
    } else if p > q + 1 {
      AtLeast(t, p, q + 2);
    }
  }

  lemma FillFromLength(n: nat, t: nat, groups: nat, fill: nat)
    requires t > 0 && fill < t && t * groups == n + fill
    ensures fill == (t - n % t) % t
  {
    DivMod(n, t);
    MultipleBelow(t, groups, n / t, n % t + fill);
    FillFromRest(n % t, t, fill);
  }

  lemma FillFromRest(r: nat, t: nat, fill: nat)
    requires r < t && fill < t && (r + fill == 0 || r + fill == t)
    ensures fill == (t - r) % t
  {
    if r == 0 {
      assert t % t == 0;
    }
  }

  lemma Quotient(f: nat, m: nat, rest: nat, fill: nat)
    requires rest < f && fill == f * m + rest
    ensures m == 0 <==> fill < f
    ensures rest <= fill
  {
    if m > 0 {
      OneFactorLess(f, m);
    }
  }

  lemma BackFromZeros(padded: seq<int>, data: seq<int>, f: nat, t: nat, m: nat, n: nat, rest: nat)
    requires t > 0 && rest < t && rest < f && InRange(data, f) && InRange(padded, t) && n == f * m
    requires AllBits(padded, t) == AllBits(data, f) + Zeros(n + rest)
    ensures Regroup(padded, t, f, false) == Some(data + ZeroValues(m))
  {
    ChopWithZeros(data, m, n, rest, f);
  }

  lemma NoZeroValues(data: seq<int>, m: nat)
    ensures data + ZeroValues(m) == data <==> m == 0
  {
    assert |data + ZeroValues(m)| == |data| + m;
  }

  lemma RoundTripWithParts(data: seq<int>, f: nat, t: nat, padded: seq<int>, fill: nat, m: nat, rest: nat)
    requires rest < f && fill < t && fill == f * m + rest && InRange(data, f) && InRange(padded, t)
    requires AllBits(padded, t) == AllBits(data, f) + Zeros(fill)
    ensures Regroup(padded, t, f, false) == Some(data + ZeroValues(m))
    ensures Regroup(padded, t, f, false) == Some(data) <==> fill < f
  {
    Quotient(f, m, rest, fill);
    BackFromZeros(padded, data, f, t, m, fill - rest, rest);
    NoZeroValues(data, m);
  }

  lemma {:induction false} Divide(n: nat, d: nat) returns (q: nat, r: nat)
    requires d > 0
    ensures n == d * q + r && r < d
  {
    if n < d {
      q, r := 0, n;
    } else {
      q, r := Divide(n - d, d);
      q := q + 1;
      OneFactorLess(d, q);
    }
  }

  /** The bits that are missing to a whole number of t-wide groups. */
  function Fill(data: seq<int>, f: nat, t: nat): nat
    requires t > 0
  {
    (t - f * |data| % t) % t
  }

  lemma FillIs(data: seq<int>, f: nat, t: nat, groups: nat, fill: nat)
    requires fill < t && t * groups == f * |data| + fill
    ensures fill == Fill(data, f, t)
  {
    FillFromLength(f * |data|, t, groups, fill);
  }

  /** Regrouping with padding and back without gives the original list, and behind
      it one zero value for every value's width in the padding. So it gives the list
      exactly when the padding is shorter than one of its values. */
  lemma RegroupRoundTripExactly(data: seq<int>, f: nat, t: nat) returns (extra: nat)
    requires f > 0 && t > 0 && InRange(data, f)
    ensures Fill(data, f, t) < t && t * |Regroup(data, f, t, true).value| == f * |data| + Fill(data, f, t)
    ensures f * extra <= Fill(data, f, t) < f * extra + f
    ensures Regroup(Regroup(data, f, t, true).value, t, f, false) == Some(data + ZeroValues(extra))
    ensures Regroup(Regroup(data, f, t, true).value, t, f, false) == Some(data) <==> Fill(data, f, t) < f
  {
    var fill := PaddedKeepsBits(data, f, t);
    var padded := Regroup(data, f, t, true).value;
    FillIs(data, f, t, |padded|, fill);
    var rest: nat;
    extra, rest := Divide(fill, f);
    RoundTripWithParts(data, f, t, padded, fill, extra, rest);
  }

  /** So narrower groups always come back. */
  lemma RegroupRoundTrip(data: seq<int>, f: nat, t: nat)
    requires 0 < t <= f && InRange(data, f)
    ensures Regroup(Regroup(data, f, t, true).value, t, f, false) == Some(data)
  {
    var extra := RegroupRoundTripExactly(data, f, t);
  }

  /** Hence different lists stay different. */
  lemma RegroupIsInjective(xs: seq<int>, ys: seq<int>, f: nat, t: nat)
    requires 0 < t <= f && InRange(xs, f) && InRange(ys, f)
    requires Regroup(xs, f, t, true) == Regroup(ys, f, t, true)
    ensures xs == ys
  {
    RegroupRoundTrip(xs, f, t);
    RegroupRoundTrip(ys, f, t);
  }

  /** Bytes to 5-bit values: one value for every five bits or part of five. */
  lemma EightToFiveLength(data: seq<int>)
    requires InRange(data, 8)
    ensures |Regroup(data, 8, 5, true).value| == (8 * |data| + 4) / 5
    ensures InRange(Regroup(data, 8, 5, true).value, 5)
  {
    var fill := PaddedKeepsBits(data, 8, 5);
  }

  // ----- the number behind a list

  /** The number whose digits, k bits each, are the values. */
  function ValueOf(xs: seq<int>, k: nat): int {
    if xs == [] then 0 else ValueOf(xs[..|xs| - 1], k) * Pow2(k) + xs[|xs| - 1]
  }

  lemma OneBitMore(xs: nat, ys: nat, p: nat, b: nat)
    ensures 2 * (xs * p + ys) + b == xs * (2 * p) + (2 * ys + b)
  {
    TimesDouble(xs, p);
  }

  lemma {:induction false} NumberOfConcat(xs: seq<bool>, ys: seq<bool>)
    ensures Number(xs + ys) == Number(xs) * Pow2(|ys|) + Number(ys)
    decreases |ys|
  {
    var n := |ys| - 1;
    if ys == [] {
      assert xs + ys == xs;
    } else {
      NumberOfConcat(xs, ys[..n]);
      assert (xs + ys)[..|xs| + n] == xs + ys[..n];
      OneBitMore(Number(xs), Number(ys[..n]), Pow2(n), if ys[n] then 1 else 0);
    }
  }

  lemma {:induction false} NumberOfAllBits(xs: seq<int>, k: nat)
    requires InRange(xs, k)
    ensures Number(AllBits(xs, k)) == ValueOf(xs, k)
    decreases |xs|
  {
    if xs == [] {
    } else {
      var n := |xs| - 1;
      NumberOfAllBits(xs[..n], k);
      AllBitsAppend(xs[..n], xs[n], k);
      assert xs[..n] + [xs[n]] == xs;
      NumberOfConcat(AllBits(xs[..n], k), Bits(xs[n], k));
      NumberOfBits(xs[n], k);
    }
  }

  lemma NumberOfZeros(k: nat)
    ensures Number(Zeros(k)) == 0
  {
    NumberIsZero(Zeros(k));
  }

  /** Regrouping keeps the number: padded, it is shifted by the bits filled in. */
  lemma RegroupKeepsValue(data: seq<int>, f: nat, t: nat)
    requires f > 0 && t > 0 && InRange(data, f)
    ensures InRange(Regroup(data, f, t, true).value, t)
    ensures ValueOf(Regroup(data, f, t, true).value, t) == ValueOf(data, f) * Pow2(Fill(data, f, t))
  {
    var out := Regroup(data, f, t, true).value;
    var fill := PaddedKeepsBits(data, f, t);
    FillIs(data, f, t, |out|, fill);
    NumberOfAllBits(out, t);
    NumberOfAllBits(data, f);
    NumberOfConcat(AllBits(data, f), Zeros(fill));
    NumberOfZeros(fill);
  }

  lemma SameNumber(xs: seq<int>, ys: seq<int>, k: nat)
    requires InRange(xs, k) && InRange(ys, k) && |xs| == |ys| && ValueOf(xs, k) == ValueOf(ys, k) && k > 0
    ensures xs == ys
  {
    NumberOfAllBits(xs, k);
    NumberOfAllBits(ys, k);
    AllBitsLength(xs, k);
    AllBitsLength(ys, k);
    BitsOfNumber(AllBits(xs, k));
    BitsOfNumber(AllBits(ys, k));
    ChopAllBits(xs, [], k);
    ChopAllBits(ys, [], k);
  }

  /** What a strict result says: the same number, with the bits left over zero and too
      few for one of the values they came from. */
  ghost predicate Represents(data: seq<int>, f: nat, out: seq<int>, t: nat) {
    var rest := f * |data| - t * |out|;
    && InRange(data, f) && InRange(out, t)
    && 0 <= rest < t && rest < f
    && ValueOf(data, f) == ValueOf(out, t) * Pow2(rest)
  }

  lemma CutValue(data: seq<int>, f: nat, t: nat)
    requires t > 0 && InRange(data, f)
    ensures var c := Chop(AllBits(data, f), t);
            && InRange(c.whole, t) && Number(c.left) < Pow2(|c.left|)
            && f * |data| == t * |c.whole| + |c.left|
            && ValueOf(data, f) == ValueOf(c.whole, t) * Pow2(|c.left|) + Number(c.left)
  {
    var c := Chop(AllBits(data, f), t);
    ChopKeepsBits(AllBits(data, f), t);
    AllBitsLength(data, f);
    AllBitsLength(c.whole, t);
    NumberOfConcat(AllBits(c.whole, t), c.left);
    NumberOfAllBits(data, f);
    NumberOfAllBits(c.whole, t);
    BitsOfNumber(c.left);
  }

  lemma MoreGroups(t: nat, a: nat, b: nat)
    ensures a > b ==> t * a >= t * b + t
  {
    if a > b {
      AtLeast(t, a, b + 1);
    }
  }

  lemma SameCut(t: nat, a: nat, r: nat, b: nat, q: nat)
    requires r < t && q < t && t * a + r == t * b + q
    ensures a == b && r == q
  {
    MoreGroups(t, a, b);
    MoreGroups(t, b, a);
  }

  lemma ShortRest(a: nat, b: nat, p: nat, r: nat)
    requires a * p == b * p + r && r < p
    ensures a == b && r == 0
  {
    assert a * p == p * a && b * p == p * b;
    SameCut(p, a, 0, b, r);
  }

  /** Without padding, a list is regrouped exactly if its bits are those of whole groups
      and a short rest of zeros; the result is then the only list with that number. */
  lemma StrictRegroupExactly(data: seq<int>, f: nat, t: nat, out: seq<nat>)
    requires f > 0 && t > 0
    ensures Regroup(data, f, t, false) == Some(out) <==> Represents(data, f, out, t)
  {
    if InRange(data, f) {
      var c := Chop(AllBits(data, f), t);
      CutValue(data, f, t);
      NumberIsZero(c.left);
      if Represents(data, f, out, t) {
        SameCut(t, |c.whole|, |c.left|, |out|, f * |data| - t * |out|);
        NumbersInRange(out, t);
        NumbersInRange(c.whole, t);
        ShortRest(ValueOf(out, t), ValueOf(c.whole, t), Pow2(|c.left|), Number(c.left));
        SameNumber(out, c.whole, t);
      }
    }
  }

  lemma NumbersInRange(xs: seq<int>, k: nat)
    requires InRange(xs, k)
    ensures ValueOf(xs, k) >= 0
  {
    NumberOfAllBits(xs, k);
  }

  /** The way back needs the narrower groups: from wider ones it fails when the
      padding is long enough to look like a value. */
  lemma WiderGroupsDoNotComeBack()
    ensures Regroup(Regroup([1], 1, 2, true).value, 2, 1, false) == Some([1, 0])
  {
    assert Pow2(1) == 2 * Pow2(0);
    var extra := RegroupRoundTripExactly([1], 1, 2);
    assert [1] + ZeroValues(1) == [1, 0];
  }
}
