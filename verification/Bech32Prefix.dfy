/** The prefix of a Bech32 string in the checksum: nothing of it is lost, and exactly
    which changes of one of its characters the checksum notices. */
module Bech32Prefix {
  import opened BitRegroup
  import opened BitXor
  import opened Bech32

  function High(c: char): nat {
    Shr(c as int, 5)
  }

  function Low(c: char): nat {
    Mask(c as int, 5)
  }

  lemma CharParts(c: char)
    ensures High(c) * 32 + Low(c) == c as int && Low(c) < 32 && Fits30(High(c)) && Fits30(Low(c))
  {
    ShrAndMaskAreQuotientAndRemainder(c as int, 5);
    ShlIsTimes(High(c), 5);
    Powers();
    ShrShrinks(c as int, 5);
  }

  /** The expansion, character by character: upper part in front, lower part behind a zero. */
  lemma ExpansionParts(hrp: string, i: nat)
    requires i < |hrp|
    ensures HrpExpand(hrp)[i] * 32 + HrpExpand(hrp)[|hrp| + 1 + i] == hrp[i] as int
    ensures HrpExpand(hrp)[|hrp| + 1 + i] < 32 && HrpExpand(hrp)[|hrp|] == 0
  {
    ExpansionAt(hrp, i);
    CharParts(hrp[i]);
  }

  lemma ExpansionAt(hrp: string, i: nat)
    requires i < |hrp|
    ensures HrpExpand(hrp)[i] == High(hrp[i]) && HrpExpand(hrp)[|hrp| + 1 + i] == Low(hrp[i])
    ensures HrpExpand(hrp)[|hrp|] == 0
  {
  }

  /** Different prefixes have different expansions. */
  lemma ExpansionIsInjective(a: string, b: string)
    requires HrpExpand(a) == HrpExpand(b)
    ensures a == b
  {
    assert |a| == |b|;
    forall i | 0 <= i < |a| ensures a[i] == b[i] {
      ExpansionParts(a, i);
      ExpansionParts(b, i);
    }
  }

  // ----- one changed character

  lemma StepOfZero()
    ensures Step(0, 0) == 0
  {
    ShortNumber(0, 25);
    StepWithoutTop(0, 0);
    ShlIsZero(0, 5);
    XorIsZero(0, 0);
  }

  lemma {:induction false} FeedZerosOf(step: (nat, nat) -> nat, n: nat)
    requires step(0, 0) == 0
    ensures Feed(step, 0, ZeroValues(n)) == 0
  {
    if n == 0 {
    } else {
      assert ZeroValues(n)[1..] == ZeroValues(n - 1);
      FeedZerosOf(step, n - 1);
    }
  }

  lemma FeedZeros(n: nat)
    ensures Feed(Step, 0, ZeroValues(n)) == 0
  {
    StepOfZero();
    FeedZerosOf(Step, n);
  }

  /** What is left of a change of the upper and the lower part of a character in a
      prefix of n characters: the change of the upper part, n zeros, and the change
      of the lower part. */
  function Trace(high: nat, n: nat, low: nat): nat {
    Feed(Step, 0, [high] + ZeroValues(n) + [low])
  }

  function Difference(hrp: string, i: nat, c: char): (d: seq<nat>)
    requires i < |hrp|
    ensures |d| == 2 * |hrp| + 1
  {
    XorAll(HrpExpand(hrp), HrpExpand(hrp[i := c]))
  }

  lemma DifferenceShape(hrp: string, i: nat, c: char)
    requires i < |hrp|
    ensures Difference(hrp, i, c)
            == ZeroValues(i) + ([Xor(High(hrp[i]), High(c))] + ZeroValues(|hrp|) + [Xor(Low(hrp[i]), Low(c))])
               + ZeroValues(|hrp| - 1 - i)
  {
    var n, hrp' := |hrp|, hrp[i := c];
    var shape := ZeroValues(i) + ([Xor(High(hrp[i]), High(c))] + ZeroValues(n) + [Xor(Low(hrp[i]), Low(c))])
                 + ZeroValues(n - 1 - i);
    forall k | 0 <= k < 2 * n + 1 ensures Difference(hrp, i, c)[k] == shape[k] {
      if k < n {
        ExpansionAt(hrp, k);
        ExpansionAt(hrp', k);
        XorIsZero(High(hrp[k]), High(hrp[k]));
      } else if k == n {
        ExpansionAt(hrp, i);
        ExpansionAt(hrp', i);
        XorIsZero(0, 0);
      } else {
        ExpansionAt(hrp, k - n - 1);
        ExpansionAt(hrp', k - n - 1);
        XorIsZero(Low(hrp[k - n - 1]), Low(hrp[k - n - 1]));
      }
    }
  }

  lemma TraceFits(high: nat, n: nat, low: nat)
    requires Fits30(high) && Fits30(low)
    ensures Fits30(Trace(high, n, low)) && Fits30(0)
  {
    Powers();
    FeedBound(0, [high] + ZeroValues(n) + [low]);
  }

  /** Zeros around a change neither hide it nor make it up. */
  lemma SurroundedTrace(i: nat, high: nat, n: nat, low: nat, rest: nat)
    requires Fits30(high) && Fits30(low)
    ensures Feed(Step, 0, ZeroValues(i) + ([high] + ZeroValues(n) + [low]) + ZeroValues(rest)) == 0
            <==> Trace(high, n, low) == 0
  {
    var mid := [high] + ZeroValues(n) + [low];
    FeedConcat(Step, 0, ZeroValues(i) + mid, ZeroValues(rest));
    FeedConcat(Step, 0, ZeroValues(i), mid);
    FeedZeros(i);
    FeedZeros(rest);
    TraceFits(high, n, low);
    Powers();
    if Feed(Step, Trace(high, n, low), ZeroValues(rest)) == 0 {
      FeedIsInjective(Trace(high, n, low), 0, ZeroValues(rest));
    }
  }

  lemma SameTailXor(xs: seq<nat>, ys: seq<nat>, data: seq<nat>)
    requires |xs| == |ys|
    ensures XorAll(xs + data, ys + data) == XorAll(xs, ys) + ZeroValues(|data|)
  {
    forall k | 0 <= k < |xs| + |data|
      ensures XorAll(xs + data, ys + data)[k] == (XorAll(xs, ys) + ZeroValues(|data|))[k]
    {
      if k >= |xs| {
        XorIsZero(data[k - |xs|], data[k - |xs|]);
      }
    }
  }

  lemma ZerosBehind(zs: seq<nat>, a: nat, b: nat)
    ensures zs + ZeroValues(a) + ZeroValues(b) == zs + ZeroValues(a + b)
  {
  }

  lemma {:induction false} SameFeed(step: (nat, nat) -> nat, chk: nat, xs: seq<nat>, ys: seq<nat>)
    requires |xs| == |ys| && Linear(step)
    ensures Feed(step, chk, xs) == Feed(step, chk, ys) <==> Feed(step, 0, XorAll(xs, ys)) == 0
  {
    FeedIsLinear(step, chk, chk, xs, ys);
    XorIsZero(chk, chk);
    XorIsZero(Feed(step, chk, xs), Feed(step, chk, ys));
  }

  lemma SamePolymod(xs: seq<nat>, ys: seq<nat>)
    requires |xs| == |ys|
    ensures PolymodOf(xs) == PolymodOf(ys) <==> Feed(Step, 0, XorAll(xs, ys)) == 0
  {
    StepIsLinearFunction();
    SameFeed(Step, 1, xs, ys);
  }

  lemma WholeDifference(hrp: string, i: nat, c: char, data: seq<nat>)
    requires i < |hrp|
    ensures XorAll(HrpExpand(hrp) + data, HrpExpand(hrp[i := c]) + data)
            == ZeroValues(i) + ([Xor(High(hrp[i]), High(c))] + ZeroValues(|hrp|) + [Xor(Low(hrp[i]), Low(c))])
               + ZeroValues(|hrp| - 1 - i + |data|)
  {
    SameTailXor(HrpExpand(hrp), HrpExpand(hrp[i := c]), data);
    DifferenceShape(hrp, i, c);
    ZerosBehind(ZeroValues(i) + ([Xor(High(hrp[i]), High(c))] + ZeroValues(|hrp|) + [Xor(Low(hrp[i]), Low(c))]),
                |hrp| - 1 - i, |data|);
  }

  lemma QuotientAndRemainder(x: nat, h: nat, l: nat)
    requires h * 32 + l == x && l < 32
    ensures h == x / 32 && l == x % 32
  {
  }

  lemma SameParts(a: char, c: char)
    ensures High(a) == High(c) && Low(a) == Low(c) ==> a == c
    ensures a as int / 32 == c as int / 32 ==> High(a) == High(c)
    ensures a as int % 32 == c as int % 32 ==> Low(a) == Low(c)
  {
    CharParts(a);
    CharParts(c);
    QuotientAndRemainder(a as int, High(a), Low(a));
    QuotientAndRemainder(c as int, High(c), Low(c));
  }

  lemma ChangedParts(a: char, c: char)
    ensures Fits30(Xor(High(a), High(c))) && Fits30(Xor(Low(a), Low(c)))
    ensures Xor(High(a), High(c)) == 0 <==> High(a) == High(c)
    ensures Xor(Low(a), Low(c)) == 0 <==> Low(a) == Low(c)
  {
    CharParts(a);
    CharParts(c);
    XorIsZero(High(a), High(c));
    XorIsZero(Low(a), Low(c));
    XorBound(High(a), High(c), 30);
    XorBound(Low(a), Low(c), 30);
  }

  lemma TwoChanges(xs: seq<nat>, ys: seq<nat>, i: nat, high: nat, n: nat, low: nat, rest: nat)
    requires |xs| == |ys| && Fits30(high) && Fits30(low)
    requires XorAll(xs, ys) == ZeroValues(i) + ([high] + ZeroValues(n) + [low]) + ZeroValues(rest)
    ensures PolymodOf(xs) == PolymodOf(ys) <==> Trace(high, n, low) == 0
  {
    SamePolymod(xs, ys);
    SurroundedTrace(i, high, n, low, rest);
  }

  lemma PolymodChange(hrp: string, i: nat, c: char, data: seq<nat>)
    requires i < |hrp|
    ensures PolymodOf(HrpExpand(hrp) + data) == PolymodOf(HrpExpand(hrp[i := c]) + data)
            <==> Trace(Xor(High(hrp[i]), High(c)), |hrp|, Xor(Low(hrp[i]), Low(c))) == 0
  {
    ChangedParts(hrp[i], c);
    WholeDifference(hrp, i, c, data);
    TwoChanges(HrpExpand(hrp) + data, HrpExpand(hrp[i := c]) + data, i,
               Xor(High(hrp[i]), High(c)), |hrp|, Xor(Low(hrp[i]), Low(c)), |hrp| - 1 - i + |data|);
  }

  /** Whether the checksum notices a changed character of the prefix depends only on
      the two characters and the length of the prefix, never on the data. */
  lemma PrefixChangeExactly(hrp: string, i: nat, c: char, data: seq<nat>)
    requires i < |hrp| && VerifyChecksum(hrp, data)
    ensures VerifyChecksum(hrp[i := c], data)
            <==> Trace(Xor(High(hrp[i]), High(c)), |hrp|, Xor(Low(hrp[i]), Low(c))) == 0
  {
    PolymodChange(hrp, i, c, data);
  }

  lemma OneValueLeavesTrace(high: nat, n: nat, low: nat)
    requires Fits30(high) && Fits30(low) && (high == 0 || low == 0)
    ensures Trace(high, n, low) == 0 <==> high == 0 && low == 0
  {
    FeedConcat(Step, 0, [high] + ZeroValues(n), [low]);
    FeedConcat(Step, 0, [high], ZeroValues(n));
    FeedOne(Step, 0, high);
    StepFromZero(high);
    FeedOne(Step, Feed(Step, high, ZeroValues(n)), low);
    if high == 0 {
      FeedZeros(n);
      StepFromZero(low);
    } else {
      Powers();
      FeedZeros(n + 1);
      LastZero(high, n);
      if Feed(Step, high, ZeroValues(n + 1)) == 0 {
        FeedIsInjective(high, 0, ZeroValues(n + 1));
      }
    }
  }

  lemma LastZero(chk: nat, n: nat)
    ensures Feed(Step, chk, ZeroValues(n + 1)) == Step(Feed(Step, chk, ZeroValues(n)), 0)
  {
    assert ZeroValues(n + 1) == ZeroValues(n) + [0];
    FeedPush(chk, ZeroValues(n), 0);
  }

  lemma StepFromZero(v: nat)
    ensures Step(0, v) == v
  {
    ShortNumber(0, 25);
    StepWithoutTop(0, v);
    ShlIsZero(0, 5);
    XorZero(v);
  }

  lemma OnePartLeavesTrace(a: char, c: char, n: nat)
    requires a != c && (High(a) == High(c) || Low(a) == Low(c))
    ensures Trace(Xor(High(a), High(c)), n, Xor(Low(a), Low(c))) != 0
  {
    SameParts(a, c);
    ChangedParts(a, c);
    OneValueLeavesTrace(Xor(High(a), High(c)), n, Xor(Low(a), Low(c)));
  }

  /** A change inside a block of 32 characters, from one lowercase letter to another or
      from one digit to another, is always noticed; so is a change from block to block
      that keeps the place in the block. */
  lemma ChangedPrefixIsNoticed(hrp: string, i: nat, c: char, data: seq<nat>)
    requires i < |hrp| && hrp[i] != c && VerifyChecksum(hrp, data)
    requires hrp[i] as int / 32 == c as int / 32 || hrp[i] as int % 32 == c as int % 32
    ensures !VerifyChecksum(hrp[i := c], data)
  {
    PrefixChangeExactly(hrp, i, c, data);
    SameParts(hrp[i], c);
    OnePartLeavesTrace(hrp[i], c, |hrp|);
  }

  lemma LowercaseIsOneBlock(a: char, b: char)
    requires 'a' <= a <= 'z' && 'a' <= b <= 'z'
    ensures a as int / 32 == b as int / 32
  {
  }

  lemma ChangedLetterIsNoticed(hrp: string, i: nat, c: char, data: seq<nat>)
    requires i < |hrp| && hrp[i] != c && VerifyChecksum(hrp, data)
    requires 'a' <= hrp[i] <= 'z' && 'a' <= c <= 'z'
    ensures !VerifyChecksum(hrp[i := c], data)
  {
    LowercaseIsOneBlock(hrp[i], c);
    ChangedPrefixIsNoticed(hrp, i, c, data);
  }
}
