/** AES key wrap with padding for 32-byte keys: section 2.2 of RFC 3394 with the
    initial value of section 3 of RFC 5649. The block cipher is any permutation
    of 16-byte blocks for each key; nothing else is known about it. */
module KeyWrap {
  import opened Wrappers

  type octets = seq<bv8>

  datatype Cipher = Cipher(encrypt: (octets, octets) -> octets, decrypt: (octets, octets) -> octets)

  ghost predicate Lawful(c: Cipher) {
    && (forall kek, b {:trigger c.encrypt(kek, b)} :: |b| == 16 ==>
          |c.encrypt(kek, b)| == 16 && c.decrypt(kek, c.encrypt(kek, b)) == b)
    && (forall kek, b {:trigger c.decrypt(kek, b)} :: |b| == 16 ==>
          |c.decrypt(kek, b)| == 16 && c.encrypt(kek, c.decrypt(kek, b)) == b)
  }

  // ----- the integrity register

  /** The 64-bit number that eight bytes stand for, most significant first. */
  function FromBe(bs: octets): bv64
    requires |bs| == 8
  {
    (bs[0] as bv64 << 56) | (bs[1] as bv64 << 48) | (bs[2] as bv64 << 40) | (bs[3] as bv64 << 32)
    | (bs[4] as bv64 << 24) | (bs[5] as bv64 << 16) | (bs[6] as bv64 << 8) | (bs[7] as bv64)
  }

  /** The register, held as its eight big-endian bytes, xored with a step number. */
  function Mix(a: octets, t: bv8): (a': octets)
    requires |a| == 8
    ensures |a'| == 8
  {
    a[7 := a[7] ^ t]
  }

  /** Mix is the exclusive or of 64-bit numbers, and is its own inverse. */
  lemma MixIsXor(a: octets, t: bv8)
    requires |a| == 8
    ensures FromBe(Mix(a, t)) == FromBe(a) ^ (t as bv64)
    ensures Mix(Mix(a, t), t) == a
  {
    assert (a[7] ^ t) ^ t == a[7];
  }

  // ----- the registers and one step each way

  /** The integrity register and the four 8-byte data registers behind each other. */
  datatype Regs = Regs(a: octets, r: octets)

  predicate Valid(s: Regs) {
    |s.a| == 8 && |s.r| == 32
  }

  const STEPS := 24

  /** Step t works on data register (t - 1) mod 4. */
  function Offset(t: nat): (b: nat)
    ensures b <= 24
  {
    8 * ((t + 3) % 4)
  }

  function Patch(r: octets, b: nat, w: octets): (r': octets)
    requires |r| == 32 && b <= 24 && |w| == 8
    ensures |r'| == 32
  {
    r[..b] + w + r[b + 8..]
  }

  ghost function WrapStep(c: Cipher, kek: octets, t: nat, s: Regs): (s': Regs)
    requires Lawful(c) && Valid(s) && t <= STEPS
    ensures Valid(s')
  {
    var b := Offset(t);
    var block := c.encrypt(kek, s.a + s.r[b..b + 8]);
    Regs(Mix(block[..8], t as bv8), Patch(s.r, b, block[8..]))
  }

  ghost function UnwrapStep(c: Cipher, kek: octets, t: nat, s: Regs): (s': Regs)
    requires Lawful(c) && Valid(s) && t <= STEPS
    ensures Valid(s')
  {
    var b := Offset(t);
    var block := c.decrypt(kek, Mix(s.a, t as bv8) + s.r[b..b + 8]);
    Regs(block[..8], Patch(s.r, b, block[8..]))
  }

  lemma PatchBack(r: octets, b: nat, w: octets)
    requires |r| == 32 && b <= 24 && |w| == 8
    ensures Patch(r, b, w)[b..b + 8] == w
    ensures Patch(Patch(r, b, w), b, r[b..b + 8]) == r
  {
  }

  lemma UnwrapStepUndoes(c: Cipher, kek: octets, t: nat, s: Regs)
    requires Lawful(c) && Valid(s) && t <= STEPS
    ensures UnwrapStep(c, kek, t, WrapStep(c, kek, t, s)) == s
  {
    var b := Offset(t);
    var plain := s.a + s.r[b..b + 8];
    var block := c.encrypt(kek, plain);
    PatchBack(s.r, b, block[8..]);
    MixIsXor(block[..8], t as bv8);
    assert block[..8] + block[8..] == block;
    assert plain[..8] == s.a && plain[8..] == s.r[b..b + 8];
  }

  lemma WrapStepUndoes(c: Cipher, kek: octets, t: nat, s: Regs)
    requires Lawful(c) && Valid(s) && t <= STEPS
    ensures WrapStep(c, kek, t, UnwrapStep(c, kek, t, s)) == s
  {
    var b := Offset(t);
    var sealed := Mix(s.a, t as bv8) + s.r[b..b + 8];
    var block := c.decrypt(kek, sealed);
    PatchBack(s.r, b, block[8..]);
    MixIsXor(s.a, t as bv8);
    assert block[..8] + block[8..] == block;
    assert sealed[..8] == Mix(s.a, t as bv8) && sealed[8..] == s.r[b..b + 8];
  }

  // ----- all the steps

  /** Steps 1 to n, upwards. */
  ghost function WrapSteps(c: Cipher, kek: octets, n: nat, s: Regs): (s': Regs)
    requires Lawful(c) && Valid(s) && n <= STEPS
    ensures Valid(s')
  {
    if n == 0 then s else WrapStep(c, kek, n, WrapSteps(c, kek, n - 1, s))
  }

  /** Steps n to 1, downwards. */
  ghost function UnwrapSteps(c: Cipher, kek: octets, n: nat, s: Regs): (s': Regs)
    requires Lawful(c) && Valid(s) && n <= STEPS
    ensures Valid(s')
  {
    if n == 0 then s else UnwrapSteps(c, kek, n - 1, UnwrapStep(c, kek, n, s))
  }

  lemma {:induction false} UnwrapStepsUndo(c: Cipher, kek: octets, n: nat, s: Regs)
    requires Lawful(c) && Valid(s) && n <= STEPS
    ensures UnwrapSteps(c, kek, n, WrapSteps(c, kek, n, s)) == s
  {
    if n == 0 {
    } else {
      UnwrapStepUndoes(c, kek, n, WrapSteps(c, kek, n - 1, s));
      UnwrapStepsUndo(c, kek, n - 1, s);
    }
  }

  lemma {:induction false} WrapStepsUndo(c: Cipher, kek: octets, n: nat, s: Regs)
    requires Lawful(c) && Valid(s) && n <= STEPS
    ensures WrapSteps(c, kek, n, UnwrapSteps(c, kek, n, s)) == s
  {
    if n == 0 {
    } else {
      WrapStepsUndo(c, kek, n - 1, UnwrapStep(c, kek, n, s));
      WrapStepUndoes(c, kek, n, s);
    }
  }

  // ----- wrapping and unwrapping byte strings

  const IV_5649: octets := [0xa6, 0x59, 0x59, 0xa6, 0, 0, 0, 32]

  function Input(bytes: octets): (s: Regs)
    requires |bytes| == 40
    ensures Valid(s)
  {
    Regs(bytes[..8], bytes[8..])
  }

  function Output(s: Regs): (bytes: octets)
    requires Valid(s)
    ensures |bytes| == 40
  {
    s.a + s.r
  }

  lemma OutputUndoesInput(bytes: octets, s: Regs)
    requires |bytes| == 40 && Valid(s)
    ensures Output(Input(bytes)) == bytes && Input(Output(s)) == s
  {
    assert bytes == bytes[..8] + bytes[8..];
    assert Output(s)[..8] == s.a && Output(s)[8..] == s.r;
  }

  ghost function Wrap(c: Cipher, kek: octets, key: octets): (wrapped: octets)
    requires Lawful(c) && |key| == 32
    ensures |wrapped| == 40
  {
    Output(WrapSteps(c, kek, STEPS, Input(IV_5649 + key)))
  }

  ghost function Unwrap(c: Cipher, kek: octets, wrapped: octets): (plain: octets)
    requires Lawful(c) && |wrapped| == 40
    ensures |plain| == 40
  {
    Output(UnwrapSteps(c, kek, STEPS, Input(wrapped)))
  }

  /** Unwrapping yields the initial value and a key exactly for what wrapping
      that key produces: nothing else passes the check, and nothing is lost. */
  lemma UnwrapIsInverseOfWrap(c: Cipher, kek: octets, key: octets, wrapped: octets)
    requires Lawful(c) && |key| == 32 && |wrapped| == 40
    ensures Unwrap(c, kek, wrapped) == IV_5649 + key <==> wrapped == Wrap(c, kek, key)
  {
    var s, p := Input(wrapped), Input(IV_5649 + key);
    WrapStepsUndo(c, kek, STEPS, s);
    UnwrapStepsUndo(c, kek, STEPS, p);
    OutputUndoesInput(wrapped, UnwrapSteps(c, kek, STEPS, s));
    OutputUndoesInput(IV_5649 + key, WrapSteps(c, kek, STEPS, p));
  }

  // ----- section 2.2.1 of RFC 3394, register by register

  /** Step t: one block is encrypted, its upper half xored with t is the new
      integrity register, its lower half the new data register (t - 1) mod 4. */
  ghost predicate RfcStep(c: Cipher, kek: octets, t: nat, a: octets, r: octets, a': octets, r': octets)
    requires 1 <= t <= 24
  {
    var i := (t - 1) % 4;
    && |a| == |a'| == 8 && |r| == |r'| == 32
    && var block := c.encrypt(kek, a + r[8 * i..8 * i + 8]);
       && |block| == 16
       && FromBe(a') == FromBe(block[..8]) ^ (t as bv64)
       && r'[8 * i..8 * i + 8] == block[8..]
       && r'[..8 * i] == r[..8 * i] && r'[8 * i + 8..] == r[8 * i + 8..]
  }

  /** The values of the integrity register and of the data registers, from before
      step 1 to after step 24. */
  ghost predicate RfcRun(c: Cipher, kek: octets, integrity: seq<octets>, data: seq<octets>) {
    && |integrity| == |data| == 25
    && forall t :: 1 <= t <= 24 ==> RfcStep(c, kek, t, integrity[t - 1], data[t - 1], integrity[t], data[t])
  }

  /** The output of RFC 3394 for an initial value and a key of four registers. */
  ghost predicate RfcWraps(c: Cipher, kek: octets, iv: octets, key: octets, output: octets) {
    exists integrity, data ::
      && RfcRun(c, kek, integrity, data)
      && integrity[0] == iv && data[0] == key
      && output == integrity[24] + data[24]
  }

  lemma StepNumber(t: nat)
    requires t <= 24
    ensures (t as bv8) as bv64 == t as bv64
  {
  }

  lemma PatchParts(r: octets, b: nat, w: octets)
    requires |r| == 32 && b <= 24 && |w| == 8
    ensures var r' := Patch(r, b, w); r'[..b] == r[..b] && r'[b..b + 8] == w && r'[b + 8..] == r[b + 8..]
  {
  }

  lemma OffsetIs(t: nat)
    requires t > 0
    ensures Offset(t) == 8 * ((t - 1) % 4)
  {
    assert t + 3 == (t - 1) + 4;
  }

  lemma MixedWith(a: octets, t: nat)
    requires |a| == 8 && t <= 24
    ensures FromBe(Mix(a, t as bv8)) == FromBe(a) ^ (t as bv64)
  {
    MixIsXor(a, t as bv8);
    StepNumber(t);
  }

  lemma RfcStepFromParts(c: Cipher, kek: octets, t: nat, a: octets, r: octets, b: nat, block: octets)
    requires 1 <= t <= 24 && b == 8 * ((t - 1) % 4) && |a| == 8 && |r| == 32
    requires |block| == 16 && block == c.encrypt(kek, a + r[b..b + 8])
    ensures RfcStep(c, kek, t, a, r, Mix(block[..8], t as bv8), Patch(r, b, block[8..]))
  {
    MixedWith(block[..8], t);
    PatchParts(r, b, block[8..]);
  }

  lemma WrapStepIsRfc(c: Cipher, kek: octets, t: nat, s: Regs)
    requires Lawful(c) && Valid(s) && 1 <= t <= STEPS
    ensures var s' := WrapStep(c, kek, t, s); RfcStep(c, kek, t, s.a, s.r, s'.a, s'.r)
  {
    var b := Offset(t);
    OffsetIs(t);
    RfcStepFromParts(c, kek, t, s.a, s.r, b, c.encrypt(kek, s.a + s.r[b..b + 8]));
  }

  lemma NextWrapStepIsRfc(c: Cipher, kek: octets, t: nat, s: Regs)
    requires Lawful(c) && Valid(s) && 1 <= t <= STEPS
    ensures var p, q := WrapSteps(c, kek, t - 1, s), WrapSteps(c, kek, t, s);
            RfcStep(c, kek, t, p.a, p.r, q.a, q.r)
  {
    WrapStepIsRfc(c, kek, t, WrapSteps(c, kek, t - 1, s));
  }

  ghost predicate RegistersOf(c: Cipher, kek: octets, s: Regs, integrity: seq<octets>, data: seq<octets>)
    requires Lawful(c) && Valid(s)
  {
    && |integrity| == |data| == 25
    && forall t :: 0 <= t <= 24 ==> WrapSteps(c, kek, t, s) == Regs(integrity[t], data[t])
  }

  lemma RegistersRun(c: Cipher, kek: octets, s: Regs, integrity: seq<octets>, data: seq<octets>)
    requires Lawful(c) && Valid(s) && RegistersOf(c, kek, s, integrity, data)
    ensures RfcRun(c, kek, integrity, data)
  {
    forall t | 1 <= t <= 24 ensures RfcStep(c, kek, t, integrity[t - 1], data[t - 1], integrity[t], data[t]) {
      NextWrapStepIsRfc(c, kek, t, s);
      assert WrapSteps(c, kek, t - 1, s) == Regs(integrity[t - 1], data[t - 1]);
      assert WrapSteps(c, kek, t, s) == Regs(integrity[t], data[t]);
    }
  }

  lemma {:induction false} CollectRegisters(c: Cipher, kek: octets, s: Regs, n: nat)
    returns (integrity: seq<octets>, data: seq<octets>)
    requires Lawful(c) && Valid(s) && n <= STEPS
    ensures |integrity| == |data| == n + 1
    ensures forall t :: 0 <= t <= n ==> WrapSteps(c, kek, t, s) == Regs(integrity[t], data[t])
  {
    var last := WrapSteps(c, kek, n, s);
    if n == 0 {
      integrity, data := [last.a], [last.r];
    } else {
      integrity, data := CollectRegisters(c, kek, s, n - 1);
      integrity, data := integrity + [last.a], data + [last.r];
    }
  }

  lemma AllStepsAreRfc(c: Cipher, kek: octets, s: Regs, n: nat)
    requires Lawful(c) && Valid(s) && n == STEPS
    ensures RfcWraps(c, kek, s.a, s.r, Output(WrapSteps(c, kek, n, s)))
  {
    var integrity, data := CollectRegisters(c, kek, s, n);
    RegistersRun(c, kek, s, integrity, data);
    assert WrapSteps(c, kek, 0, s) == s;
  }

  lemma WrapStepsAreRfc(c: Cipher, kek: octets, s: Regs)
    requires Lawful(c) && Valid(s)
    ensures RfcWraps(c, kek, s.a, s.r, Output(WrapSteps(c, kek, STEPS, s)))
  {
    AllStepsAreRfc(c, kek, s, STEPS);
  }

  /** Eight bytes are determined by the number they stand for. */
  lemma FromBeIsInjective(a: octets, b: octets)
    requires |a| == |b| == 8 && FromBe(a) == FromBe(b)
    ensures a == b
  {
    BytesFromBe(a);
    BytesFromBe(b);
  }

  lemma BytesFromBe(a: octets)
    requires |a| == 8
    ensures a == [(FromBe(a) >> 56) as bv8, ((FromBe(a) >> 48) & 0xff) as bv8,
                  ((FromBe(a) >> 40) & 0xff) as bv8, ((FromBe(a) >> 32) & 0xff) as bv8,
                  ((FromBe(a) >> 24) & 0xff) as bv8, ((FromBe(a) >> 16) & 0xff) as bv8,
                  ((FromBe(a) >> 8) & 0xff) as bv8, (FromBe(a) & 0xff) as bv8]
  {
  }

  lemma ThreeParts(x: octets, y: octets, b: nat)
    requires |x| == |y| == 32 && b <= 24
    requires x[..b] == y[..b] && x[b..b + 8] == y[b..b + 8] && x[b + 8..] == y[b + 8..]
    ensures x == y
  {
    assert x == x[..b] + x[b..b + 8] + x[b + 8..];
    assert y == y[..b] + y[b..b + 8] + y[b + 8..];
  }

  lemma RfcStepIsUnique(c: Cipher, kek: octets, t: nat, a: octets, r: octets,
                        a1: octets, r1: octets, a2: octets, r2: octets)
    requires 1 <= t <= 24 && RfcStep(c, kek, t, a, r, a1, r1) && RfcStep(c, kek, t, a, r, a2, r2)
    ensures a1 == a2 && r1 == r2
  {
    FromBeIsInjective(a1, a2);
    ThreeParts(r1, r2, 8 * ((t - 1) % 4));
  }

  lemma RfcStepIsWrapStep(c: Cipher, kek: octets, t: nat, a: octets, r: octets, a': octets, r': octets)
    requires Lawful(c) && 1 <= t <= 24 && RfcStep(c, kek, t, a, r, a', r')
    ensures Regs(a', r') == WrapStep(c, kek, t, Regs(a, r))
  {
    var s' := WrapStep(c, kek, t, Regs(a, r));
    WrapStepIsRfc(c, kek, t, Regs(a, r));
    RfcStepIsUnique(c, kek, t, a, r, a', r', s'.a, s'.r);
  }

  lemma {:induction false} RfcRunIsWrapSteps(c: Cipher, kek: octets, integrity: seq<octets>, data: seq<octets>, n: nat)
    requires Lawful(c) && RfcRun(c, kek, integrity, data) && n <= STEPS
    ensures Valid(Regs(integrity[0], data[0]))
    ensures Regs(integrity[n], data[n]) == WrapSteps(c, kek, n, Regs(integrity[0], data[0]))
  {
    assert RfcStep(c, kek, 1, integrity[0], data[0], integrity[1], data[1]);
    if n == 0 {
    } else {
      RfcRunIsWrapSteps(c, kek, integrity, data, n - 1);
      assert RfcStep(c, kek, n, integrity[n - 1], data[n - 1], integrity[n], data[n]);
      RfcStepIsWrapStep(c, kek, n, integrity[n - 1], data[n - 1], integrity[n], data[n]);
    }
  }

  /** The steps modelled here compute the output of the standard, and it has no other. */
  lemma WrapIsRfc(c: Cipher, kek: octets, iv: octets, key: octets, output: octets)
    requires Lawful(c) && |iv| == 8 && |key| == 32
    ensures RfcWraps(c, kek, iv, key, output) <==> output == Output(WrapSteps(c, kek, STEPS, Regs(iv, key)))
  {
    WrapStepsAreRfc(c, kek, Regs(iv, key));
    if RfcWraps(c, kek, iv, key, output) {
      var integrity, data :|
        && RfcRun(c, kek, integrity, data)
        && integrity[0] == iv && data[0] == key
        && output == integrity[24] + data[24];
      RfcRunIsWrapSteps(c, kek, integrity, data, 24);
    }
  }

  /** Wrapping is the standard's output for the initial value A65959A6 00000020. */
  lemma KeyWrapIsRfc(c: Cipher, kek: octets, key: octets, wrapped: octets)
    requires Lawful(c) && |key| == 32
    ensures wrapped == Wrap(c, kek, key)
            <==> RfcWraps(c, kek, [0xa6, 0x59, 0x59, 0xa6, 0, 0, 0, 32], key, wrapped)
  {
    assert (IV_5649 + key)[..8] == IV_5649 && (IV_5649 + key)[8..] == key;
    WrapIsRfc(c, kek, IV_5649, key, wrapped);
  }

  /** Unwrapping finds the initial value and the key the standard would have wrapped. */
  lemma UnwrapIsRfc(c: Cipher, kek: octets, wrapped: octets, iv: octets, key: octets)
    requires Lawful(c) && |wrapped| == 40 && |iv| == 8 && |key| == 32
    ensures Unwrap(c, kek, wrapped) == iv + key <==> RfcWraps(c, kek, iv, key, wrapped)
  {
    var s := Regs(iv, key);
    WrapIsRfc(c, kek, iv, key, wrapped);
    WrapStepsUndo(c, kek, STEPS, Input(wrapped));
    UnwrapStepsUndo(c, kek, STEPS, s);
    OutputUndoesInput(wrapped, UnwrapSteps(c, kek, STEPS, Input(wrapped)));
    OutputUndoesInput(iv + key, WrapSteps(c, kek, STEPS, s));
    OutputUndoesInput(iv + key, s);
  }

  // ----- an instance: the cipher that changes nothing

  const IDENTITY := Cipher((kek, b) => b, (kek, b) => b)

  /** The exclusive or of the step numbers 1 to n. */
  function StepNumbers(n: nat): bv8
    requires n <= STEPS
  {
    if n == 0 then 0 else StepNumbers(n - 1) ^ (n as bv8)
  }

  lemma MixTwice(a: octets, x: bv8, y: bv8)
    requires |a| == 8
    ensures Mix(Mix(a, x), y) == Mix(a, x ^ y)
  {
    assert (a[7] ^ x) ^ y == a[7] ^ (x ^ y);
  }

  lemma IdentityStep(kek: octets, t: nat, s: Regs)
    requires Lawful(IDENTITY) && Valid(s) && t <= STEPS
    ensures WrapStep(IDENTITY, kek, t, s) == Regs(Mix(s.a, t as bv8), s.r)
  {
    var b := Offset(t);
    var block := s.a + s.r[b..b + 8];
    assert block[..8] == s.a && block[8..] == s.r[b..b + 8];
    assert Patch(s.r, b, s.r[b..b + 8]) == s.r;
  }

  lemma {:induction false} IdentitySteps(kek: octets, n: nat, s: Regs)
    requires Lawful(IDENTITY) && Valid(s) && n <= STEPS
    ensures WrapSteps(IDENTITY, kek, n, s) == Regs(Mix(s.a, StepNumbers(n)), s.r)
  {
    if n == 0 {
      assert s.a[7] ^ 0 == s.a[7];
    } else {
      IdentitySteps(kek, n - 1, s);
      IdentityStep(kek, n, WrapSteps(IDENTITY, kek, n - 1, s));
      MixTwice(s.a, StepNumbers(n - 1), n as bv8);
    }
  }

  lemma AllStepNumbers()
    ensures StepNumbers(24) == 24
  {
    assert StepNumbers(8) == 8;
    assert StepNumbers(16) == 16;
  }

  /** With it a wrap is the key behind the initial value xored with 1 to 24. */
  lemma IdentityWrap(kek: octets, key: octets)
    requires |key| == 32
    ensures Lawful(IDENTITY)
    ensures Wrap(IDENTITY, kek, key) == [0xa6, 0x59, 0x59, 0xa6, 0, 0, 0, 0x38] + key
  {
    IdentitySteps(kek, STEPS, Input(IV_5649 + key));
    AllStepNumbers();
    assert (IV_5649 + key)[..8] == IV_5649 && (IV_5649 + key)[8..] == key;
    assert Mix(IV_5649, 24) == [0xa6, 0x59, 0x59, 0xa6, 0, 0, 0, 0x38];
  }

  /** And the plain initial value in front of a key is refused. */
  lemma IdentityRefusesPlain(kek: octets, key: octets)
    requires |kek| == 32 && |key| == 32
    ensures Lawful(IDENTITY) && UnwrapPad(IDENTITY, kek, IV_5649 + key) == Err(AuthFailed)
  {
    var plain := Unwrap(IDENTITY, kek, IV_5649 + key);
    UnwrapPadExactly(IDENTITY, kek, IV_5649 + key, plain[8..]);
    IdentityWrap(kek, plain[8..]);
    assert (IV_5649 + key)[7] == 32;
  }

  // ----- the two algorithms on arrays

  datatype UnwrapError = IncorrectLength | AuthFailed

  lemma OffsetOfStep(j: nat, i: nat)
    requires 1 <= i <= 4
    ensures Offset(4 * j + i) == 8 * (i - 1)
  {
    assert 4 * j + i + 3 == 4 * (j + 1) + (i - 1);
  }

  /** Overwrites data register i, which lies behind the eight register bytes. */
  method StoreBlock(r: array<bv8>, i: nat, w: octets)
    requires r.Length == 40 && 1 <= i <= 4 && |w| == 8
    modifies r
    ensures r[8..] == Patch(old(r[8..]), 8 * (i - 1), w)
    ensures r[..8] == old(r[..8])
  {
    forall k | 0 <= k < 8 {
      r[i * 8 + k] := w[k];
    }
  }

  lemma RegisterSlice(all: octets, i: nat)
    requires |all| == 40 && 1 <= i <= 4
    ensures all[i * 8..i * 8 + 8] == all[8..][8 * (i - 1)..8 * (i - 1) + 8]
  {
    var x, y := all[i * 8..i * 8 + 8], all[8..][8 * (i - 1)..8 * (i - 1) + 8];
    assert |x| == |y| == 8;
    forall k | 0 <= k < 8 ensures x[k] == y[k] {
      assert y[k] == all[8..][8 * (i - 1) + k] == all[8 * i + k];
    }
  }

  /** The body of the unwrapping loop is step t of the specification. */
  method UnwrapBlock(c: Cipher, kek: octets, a: octets, r: array<bv8>, ghost j: nat, i: nat, t: nat)
    returns (a': octets)
    requires Lawful(c) && |a| == 8 && r.Length == 40 && 1 <= i <= 4 && t == 4 * j + i <= STEPS
    modifies r
    ensures |a'| == 8 && Regs(a', r[8..]) == UnwrapStep(c, kek, t, Regs(a, old(r[8..])))
  {
    OffsetOfStep(j, i);
    ghost var s := Regs(a, r[8..]);
    var data := r[i * 8..i * 8 + 8];
    RegisterSlice(r[..], i);
    assert r[..][8..] == s.r && r[..][i * 8..i * 8 + 8] == data;
    var block := c.decrypt(kek, Mix(a, t as bv8) + data);
    StoreBlock(r, i, block[8..]);
    a' := block[..8];
  }

  /** The inner loop downwards: steps n * j + n to n * j + 1. */
  method UnwrapRound(c: Cipher, kek: octets, a0: octets, r: array<bv8>, j: nat, n: nat) returns (a: octets)
    requires Lawful(c) && |a0| == 8 && r.Length == 40 && j < 6 && n == 4
    modifies r
    ensures |a| == 8
    ensures UnwrapSteps(c, kek, 4 * j, Regs(a, r[8..])) == UnwrapSteps(c, kek, 4 * j + 4, Regs(a0, old(r[8..])))
  {
    a := a0;
    for i := n + 1 downto 1
      invariant |a| == 8
      invariant UnwrapSteps(c, kek, 4 * j + (i - 1), Regs(a, r[8..]))
                == UnwrapSteps(c, kek, 4 * j + 4, Regs(a0, old(r[8..])))
    {
      a := UnwrapBlock(c, kek, a, r, j, i, n * j + i);
    }
  }

  /** The outer loop downwards. */
  method UnwrapKeyAndIv(c: Cipher, kek: octets, input: octets) returns (key: octets, iv: octets)
    requires Lawful(c) && |input| == 40
    ensures iv + key == Unwrap(c, kek, input) && |iv| == 8 && |key| == 32
    ensures RfcWraps(c, kek, iv, key, input)
  {
    var n := |input| / 8 - 1;
    var r := new bv8[40](i requires 0 <= i < 40 => if i < 8 then 0 else input[i]);
    var a := input[..8];
    assert r[8..] == input[8..];
    for j := 6 downto 0
      invariant |a| == 8
      invariant UnwrapSteps(c, kek, 4 * j, Regs(a, r[8..])) == UnwrapSteps(c, kek, STEPS, Input(input))
    {
      a := UnwrapRound(c, kek, a, r, j, n);
    }
    key, iv := r[8..], a;
    UnwrapIsRfc(c, kek, input, iv, key);
  }

  /** The body of the wrapping loop is step t of the specification. */
  method WrapBlock(c: Cipher, kek: octets, r: array<bv8>, ghost j: nat, i: nat, t: nat)
    requires Lawful(c) && r.Length == 40 && 1 <= i <= 4 && t == 4 * j + i <= STEPS
    modifies r
    ensures Regs(r[..8], r[8..]) == WrapStep(c, kek, t, Regs(old(r[..8]), old(r[8..])))
  {
    OffsetOfStep(j, i);
    ghost var s := Regs(r[..8], r[8..]);
    var data := r[i * 8..i * 8 + 8];
    RegisterSlice(r[..], i);
    assert r[..][8..] == s.r && r[..][i * 8..i * 8 + 8] == data;
    var block := c.encrypt(kek, r[..8] + data);
    StoreBlock(r, i, block[8..]);
    var a := Mix(block[..8], t as bv8);
    ghost var tail := r[8..];
    forall k | 0 <= k < 8 {
      r[k] := a[k];
    }
    assert r[..8] == a && r[8..] == tail;
  }

  /** Both loops upwards, the step number counted. The register lives in r[..8]. */
  method WrapKey(c: Cipher, kek: octets, key: octets) returns (wrapped: octets)
    requires Lawful(c) && |key| == 32
    ensures wrapped == Wrap(c, kek, key)
    ensures RfcWraps(c, kek, [0xa6, 0x59, 0x59, 0xa6, 0, 0, 0, 32], key, wrapped)
  {
    var n := |key| / 8 - 1;
    var r := new bv8[40];
    forall i | 0 <= i < 40 {
      r[i] := if i < 8 then IV_5649[i] else key[i - 8];
    }
    ghost var start := Input(IV_5649 + key);
    assert r[..8] == IV_5649 && r[8..] == key;
    var t := 0;
    for j := 0 to 6
      invariant t == 4 * j && Regs(r[..8], r[8..]) == WrapSteps(c, kek, t, start)
    {
      for i := 1 to n + 2
        invariant t == 4 * j + i - 1 && Regs(r[..8], r[8..]) == WrapSteps(c, kek, t, start)
      {
        t := t + 1;
        WrapBlock(c, kek, r, j, i, t);
      }
    }
    assert r[..] == r[..8] + r[8..];
    wrapped := r[..];
    KeyWrapIsRfc(c, kek, key, wrapped);
  }

  /** Unwrapping with both length checks and the comparison of the initial value. */
  ghost function UnwrapPad(c: Cipher, kek: octets, wrapped: octets): Result<octets, UnwrapError>
    requires Lawful(c)
  {
    if |kek| != 32 || |wrapped| != 40 then Err(IncorrectLength)
    else
      var plain := Unwrap(c, kek, wrapped);
      if plain[..8] == IV_5649 then Ok(plain[8..]) else Err(AuthFailed)
  }

  /** Ok(k) if and only if the input is the wrap of k. */
  lemma UnwrapPadExactly(c: Cipher, kek: octets, wrapped: octets, key: octets)
    requires Lawful(c) && |kek| == 32 && |wrapped| == 40
    ensures UnwrapPad(c, kek, wrapped) == Ok(key) <==> |key| == 32 && wrapped == Wrap(c, kek, key)
  {
    var plain := Unwrap(c, kek, wrapped);
    assert plain == plain[..8] + plain[8..];
    if |key| == 32 {
      UnwrapIsInverseOfWrap(c, kek, key, wrapped);
      SplitEqual(plain[..8], plain[8..], IV_5649, key);
    }
  }

  method UnwrapKeyWithPad(c: Cipher, kek: octets, wrapped: octets) returns (r: Result<octets, UnwrapError>)
    requires Lawful(c)
    ensures r == UnwrapPad(c, kek, wrapped)
    ensures r == Err(IncorrectLength) <==> |kek| != 32 || |wrapped| != 40
    ensures forall key :: r == Ok(key) <==>
              && |kek| == 32 && |wrapped| == 40 && |key| == 32
              && RfcWraps(c, kek, [0xa6, 0x59, 0x59, 0xa6, 0, 0, 0, 32], key, wrapped)
    ensures r.Ok? ==> |kek| == 32 && |r.value| == 32 && wrapped == Wrap(c, kek, r.value)
  {
    if |kek| != 32 || |wrapped| != 40 {
      return Err(IncorrectLength);
    }
    var key, iv := UnwrapKeyAndIv(c, kek, wrapped);
    assert (iv + key)[..8] == iv && (iv + key)[8..] == key;
    UnwrapPadExactly(c, kek, wrapped, key);
    r := if iv == IV_5649 then Ok(key) else Err(AuthFailed);
    forall k ensures r == Ok(k) <==> |k| == 32 && RfcWraps(c, kek, [0xa6, 0x59, 0x59, 0xa6, 0, 0, 0, 32], k, wrapped) {
      UnwrapPadExactly(c, kek, wrapped, k);
      if |k| == 32 {
        KeyWrapIsRfc(c, kek, k, wrapped);
      }
    }
  }

  lemma SplitEqual(x: octets, y: octets, x': octets, y': octets)
    requires |x| == |x'| && |y| == |y'|
    ensures x + y == x' + y' <==> x == x' && y == y'
  {
    assert (x + y)[..|x|] == x && (x + y)[|x|..] == y;
    assert (x' + y')[..|x|] == x' && (x' + y')[|x|..] == y';
  }

  lemma WrapIsInjective(c: Cipher, kek: octets, key: octets, other: octets)
    requires Lawful(c) && |key| == 32 && |other| == 32
    requires Wrap(c, kek, key) == Wrap(c, kek, other)
    ensures key == other
  {
    UnwrapIsInverseOfWrap(c, kek, key, Wrap(c, kek, key));
    UnwrapIsInverseOfWrap(c, kek, other, Wrap(c, kek, key));
    SplitEqual(IV_5649, key, IV_5649, other);
  }
}
