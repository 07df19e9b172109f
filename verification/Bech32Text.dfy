/** The text form: prefix, separator, data and checksum characters. */
module Bech32Text {
  import opened Wrappers
  import opened BitRegroup
  import opened BitXor
  import opened Bech32

  const CHARSET: string := "qpzry9x8gf2tvdw0s3jn54khce6mua7l"
  const AMINO_PREFIX: seq<int> := [0x16, 0x24, 0xDE, 0x64, 0x20]

  /** The value a character stands for. */
  function CharValue(c: char): nat {
    match c
    case 'q' => 0  case 'p' => 1  case 'z' => 2  case 'r' => 3
    case 'y' => 4  case '9' => 5  case 'x' => 6  case '8' => 7
    case 'g' => 8  case 'f' => 9  case '2' => 10 case 't' => 11
    case 'v' => 12 case 'd' => 13 case 'w' => 14 case '0' => 15
    case 's' => 16 case '3' => 17 case 'j' => 18 case 'n' => 19
    case '5' => 20 case '4' => 21 case 'k' => 22 case 'h' => 23
    case 'c' => 24 case 'e' => 25 case '6' => 26 case 'm' => 27
    case 'u' => 28 case 'a' => 29 case '7' => 30 case 'l' => 31
    case _ => 32
  }

  /** The 32 characters are different, and the separator is not one of them. */
  lemma CharsetIsInvertible(v: nat)
    requires v < 32
    ensures CharValue(CHARSET[v]) == v && CHARSET[v] != '1'
  {
  }

  function Chars(values: seq<nat>): (s: string)
    requires FiveBit(values)
    ensures |s| == |values|
  {
    seq(|values|, i requires 0 <= i < |values| => CHARSET[values[i]])
  }

  lemma RangeIsFiveBit(values: seq<nat>)
    requires InRange(values, 5)
    ensures FiveBit(values)
  {
    assert Pow2(5) == 32;
  }

  /** The 5-bit values of the payload and their checksum. */
  function Combined(hrp: string, data: seq<int>): (values: seq<nat>)
    requires InRange(AMINO_PREFIX + data, 8)
    ensures FiveBit(values)
  {
    EightToFiveLength(AMINO_PREFIX + data);
    var b := Regroup(AMINO_PREFIX + data, 8, 5, true).value;
    RangeIsFiveBit(b);
    FiveBitFits(b);
    ChecksumIsSound(hrp, b);
    b + CreateChecksum(hrp, b)
  }

  function Encoded(hrp: string, data: seq<int>): Option<string> {
    if InRange(AMINO_PREFIX + data, 8) then Some(hrp + "1" + Chars(Combined(hrp, data))) else None
  }

  /** The encoder: it fails exactly on a list with something that is not a byte. */
  method BechEncode(hrp: string, data: seq<int>) returns (r: Option<string>)
    ensures r == Encoded(hrp, data)
    ensures r.None? <==> exists i :: 0 <= i < |data| && !(0 <= data[i] < 256)
  {
    var payload := AMINO_PREFIX + data;
    assert Pow2(8) == 256;
    PrefixIsBytes(data);
    var b := ConvertBits(payload, 8, 5, true);
    if b.None? {
      return None;
    }
    var p := Polymod(HrpExpand(hrp) + b.value + [0, 0, 0, 0, 0, 0]);
    var combined := b.value + SixDigits(Xor(p, 1));
    assert combined == Combined(hrp, data);
    r := Some(hrp + "1" + Chars(combined));
  }

  lemma PrefixIsBytes(data: seq<int>)
    ensures InRange(AMINO_PREFIX + data, 8) <==> forall i :: 0 <= i < |data| ==> 0 <= data[i] < 256
  {
    var all := AMINO_PREFIX + data;
    assert Pow2(8) == 256;
    if InRange(all, 8) {
      forall i | 0 <= i < |data| ensures 0 <= data[i] < 256 {
        assert all[5 + i] == data[i];
      }
    }
  }

  /** The data part of an encoded string passes verification. */
  lemma EncodedVerifies(hrp: string, data: seq<int>)
    requires InRange(AMINO_PREFIX + data, 8)
    ensures VerifyChecksum(hrp, Combined(hrp, data))
  {
    var b := Regroup(AMINO_PREFIX + data, 8, 5, true).value;
    EightToFiveLength(AMINO_PREFIX + data);
    RangeIsFiveBit(b);
    FiveBitFits(b);
    ChecksumIsSound(hrp, b);
  }

  lemma {:induction false} AllBitsConcat(xs: seq<int>, ys: seq<int>, k: nat)
    requires InRange(xs, k) && InRange(ys, k) && InRange(xs + ys, k)
    ensures AllBits(xs + ys, k) == AllBits(xs, k) + AllBits(ys, k)
  {
    if xs == [] {
      assert xs + ys == ys;
    } else {
      assert (xs + ys)[1..] == xs[1..] + ys;
      AllBitsConcat(xs[1..], ys, k);
    }
  }

  lemma ChopOne(v: nat, tail: seq<bool>, t: nat)
    requires t > 0 && v < Pow2(t)
    ensures Chop(Bits(v, t) + tail, t).whole == [v] + Chop(tail, t).whole
  {
    NumberOfBits(v, t);
    ChopCons(Bits(v, t), tail, t);
  }

  lemma FrontMoved(values: seq<nat>, whole: seq<nat>)
    requires values != []
    ensures [values[0]] + (values[1..] + whole) == values + whole
  {
  }

  lemma {:induction false} ChopFromFront(values: seq<nat>, rest: seq<bool>, t: nat)
    requires t > 0 && InRange(values, t)
    ensures Chop(AllBits(values, t) + rest, t).whole == values + Chop(rest, t).whole
    decreases |values|
  {
    if values == [] {
      assert AllBits(values, t) + rest == rest;
    } else {
      ChopFromFront(values[1..], rest, t);
      AllBitsFront(values, rest, t);
      ChopOne(values[0], AllBits(values[1..], t) + rest, t);
      FrontMoved(values, Chop(rest, t).whole);
    }
  }

  lemma SameBits(xs: seq<bool>, ys: seq<bool>)
    requires |xs| == |ys| && Number(xs) == Number(ys)
    ensures xs == ys
  {
    BitsOfNumber(xs);
    BitsOfNumber(ys);
  }

  /** The amino prefix as 5-bit values: 40 bits, so exactly eight of them. */
  const AMINO_VALUES: seq<nat> := [2, 24, 18, 13, 28, 25, 1, 0]

  lemma ValuePush(xs: seq<int>, x: int, k: nat)
    ensures ValueOf(xs + [x], k) == ValueOf(xs, k) * Pow2(k) + x
  {
    assert (xs + [x])[..|xs|] == xs;
  }

  lemma AminoPrefixValue()
    ensures ValueOf(AMINO_PREFIX, 8) == 0x1624DE6420
  {
    assert Pow2(8) == 256;
    ValuePush([], 0x16, 8);
    ValuePush([0x16], 0x24, 8);
    ValuePush([0x16, 0x24], 0xDE, 8);
    ValuePush([0x16, 0x24, 0xDE], 0x64, 8);
    ValuePush([0x16, 0x24, 0xDE, 0x64], 0x20, 8);
    assert [0x16] + [0x24] == [0x16, 0x24] && [0x16, 0x24] + [0xDE] == [0x16, 0x24, 0xDE];
    assert [0x16, 0x24, 0xDE] + [0x64] == [0x16, 0x24, 0xDE, 0x64];
    assert [0x16, 0x24, 0xDE, 0x64] + [0x20] == AMINO_PREFIX;
  }

  lemma AminoValuesValue()
    ensures ValueOf(AMINO_VALUES, 5) == 0x1624DE6420
  {
    assert Pow2(5) == 32;
    ValuePush([], 2, 5);
    ValuePush([2], 24, 5);
    ValuePush([2, 24], 18, 5);
    ValuePush([2, 24, 18], 13, 5);
    ValuePush([2, 24, 18, 13], 28, 5);
    ValuePush([2, 24, 18, 13, 28], 25, 5);
    ValuePush([2, 24, 18, 13, 28, 25], 1, 5);
    ValuePush([2, 24, 18, 13, 28, 25, 1], 0, 5);
    assert [2] + [24] == [2, 24] && [2, 24] + [18] == [2, 24, 18] && [2, 24, 18] + [13] == [2, 24, 18, 13];
    assert [2, 24, 18, 13] + [28] == [2, 24, 18, 13, 28] && [2, 24, 18, 13, 28] + [25] == [2, 24, 18, 13, 28, 25];
    assert [2, 24, 18, 13, 28, 25] + [1] == [2, 24, 18, 13, 28, 25, 1];
    assert [2, 24, 18, 13, 28, 25, 1] + [0] == AMINO_VALUES;
  }

  lemma SameValue(xs: seq<int>, f: nat, ys: seq<int>, t: nat)
    requires InRange(xs, f) && InRange(ys, t) && ValueOf(xs, f) == ValueOf(ys, t) && f * |xs| == t * |ys|
    ensures AllBits(xs, f) == AllBits(ys, t)
  {
    NumberOfAllBits(xs, f);
    NumberOfAllBits(ys, t);
    AllBitsLength(xs, f);
    AllBitsLength(ys, t);
    SameBits(AllBits(xs, f), AllBits(ys, t));
  }

  lemma AminoBits()
    ensures InRange(AMINO_PREFIX, 8) && InRange(AMINO_VALUES, 5)
    ensures AllBits(AMINO_PREFIX, 8) == AllBits(AMINO_VALUES, 5)
  {
    assert Pow2(8) == 256 && Pow2(5) == 32;
    AminoPrefixValue();
    AminoValuesValue();
    SameValue(AMINO_PREFIX, 8, AMINO_VALUES, 5);
  }

  lemma PayloadBegins(data: seq<int>)
    requires InRange(AMINO_PREFIX + data, 8) && InRange(data, 8)
    ensures AMINO_VALUES <= Regroup(AMINO_PREFIX + data, 8, 5, true).value
  {
    AminoBits();
    AllBitsConcat(AMINO_PREFIX, data, 8);
    ChopFromFront(AMINO_VALUES, AllBits(data, 8), 5);
  }

  lemma AminoChars()
    ensures FiveBit(AMINO_VALUES) && Chars(AMINO_VALUES) == "zcjduepq"
  {
  }

  lemma CharsOfPrefix(xs: seq<nat>, ys: seq<nat>)
    requires FiveBit(xs) && FiveBit(ys) && xs <= ys
    ensures Chars(xs) <= Chars(ys)
  {
    assert forall i :: 0 <= i < |xs| ==> xs[i] == ys[i];
  }

  lemma DataInRange(data: seq<int>)
    requires InRange(AMINO_PREFIX + data, 8)
    ensures InRange(data, 8)
  {
    var all := AMINO_PREFIX + data;
    forall i | 0 <= i < |data| ensures 0 <= data[i] < Pow2(8) {
      assert all[5 + i] == data[i];
    }
  }

  lemma CombinedBegins(hrp: string, data: seq<int>)
    requires InRange(AMINO_PREFIX + data, 8)
    ensures AMINO_VALUES <= Combined(hrp, data)
  {
    DataInRange(data);
    PayloadBegins(data);
  }

  lemma BehindSeparator(hrp: string, p: string, q: string)
    requires p <= q
    ensures hrp + "1" + p <= hrp + "1" + q
  {
  }

  /** Every encoded key begins with its prefix, the separator and the eight characters
      of the amino prefix of an Ed25519 public key. */
  lemma EncodedBegins(hrp: string, data: seq<int>)
    requires Encoded(hrp, data).Some?
    ensures hrp + "1" + "zcjduepq" <= Encoded(hrp, data).value
  {
    CombinedBegins(hrp, data);
    AminoChars();
    CharsOfPrefix(AMINO_VALUES, Combined(hrp, data));
    BehindSeparator(hrp, "zcjduepq", Chars(Combined(hrp, data)));
  }

  lemma CharsAreInjective(xs: seq<nat>, ys: seq<nat>)
    requires FiveBit(xs) && FiveBit(ys) && Chars(xs) == Chars(ys)
    ensures xs == ys
  {
    assert |xs| == |ys|;
    forall i | 0 <= i < |xs| ensures xs[i] == ys[i] {
      assert Chars(xs)[i] == Chars(ys)[i];
      CharsetIsInvertible(xs[i]);
      CharsetIsInvertible(ys[i]);
    }
  }

  /** A string splits at its last separator in one way only. */
  lemma SplitAtSeparator(h1: string, c1: string, h2: string, c2: string)
    requires '1' !in c1 && '1' !in c2 && h1 + "1" + c1 == h2 + "1" + c2
    ensures h1 == h2 && c1 == c2
  {
    var s := h1 + "1" + c1;
    assert s[|h1|] == '1' && (h2 + "1" + c2)[|h2|] == '1';
    assert |h1| == |h2|;
    assert s[..|h1|] == h1 && (h2 + "1" + c2)[..|h1|] == h2;
    assert s[|h1| + 1..] == c1 && (h2 + "1" + c2)[|h1| + 1..] == c2;
  }

  lemma NoSeparator(values: seq<nat>)
    requires FiveBit(values)
    ensures '1' !in Chars(values)
  {
    forall i | 0 <= i < |values| ensures Chars(values)[i] != '1' {
      CharsetIsInvertible(values[i]);
    }
  }

  /** Different prefixes or different byte lists never give the same string. */
  lemma EncodingIsInjective(h1: string, d1: seq<int>, h2: string, d2: seq<int>)
    requires Encoded(h1, d1).Some? && Encoded(h1, d1) == Encoded(h2, d2)
    ensures h1 == h2 && d1 == d2
  {
    var v1, v2 := Combined(h1, d1), Combined(h2, d2);
    NoSeparator(v1);
    NoSeparator(v2);
    SplitAtSeparator(h1, Chars(v1), h2, Chars(v2));
    CharsAreInjective(v1, v2);
    var b1 := Regroup(AMINO_PREFIX + d1, 8, 5, true).value;
    var b2 := Regroup(AMINO_PREFIX + d2, 8, 5, true).value;
    assert v1[..|v1| - 6] == b1 && v2[..|v2| - 6] == b2;
    RegroupIsInjective(AMINO_PREFIX + d1, AMINO_PREFIX + d2, 8, 5);
    assert (AMINO_PREFIX + d1)[5..] == d1 && (AMINO_PREFIX + d2)[5..] == d2;
  }
}
