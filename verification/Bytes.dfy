/** Bytes and little-endian numbers, as the framing and the log format use them. */
module Bytes {
  type byte = x: int | 0 <= x < 256

  function Pow256(k: nat): (p: nat)
    ensures p > 0
  {
    if k == 0 then 1 else 256 * Pow256(k - 1)
  }

  function LeBytes(n: nat, k: nat): (bs: seq<byte>)
    ensures |bs| == k
    decreases k, n
  {
    if k == 0 then [] else [n % 256] + LeBytes(n / 256, k - 1)
  }

  function FromLe(bs: seq<byte>): nat {
    if bs == [] then 0 else bs[0] + 256 * FromLe(bs[1..])
  }

  lemma {:induction false} LeRoundTrip(n: nat, k: nat)
    requires n < Pow256(k)
    ensures FromLe(LeBytes(n, k)) == n
    decreases k
  {
    if k == 0 {
    } else {
      LeRoundTrip(n / 256, k - 1);
      assert LeBytes(n, k)[1..] == LeBytes(n / 256, k - 1);
    }
  }

  function ZeroBytes(k: nat): seq<byte> {
    seq(k, i => 0)
  }

  lemma {:induction false} LeBytesOfZero(k: nat)
    ensures LeBytes(0, k) == ZeroBytes(k)
  {
    if k == 0 {
    } else {
      LeBytesOfZero(k - 1);
    }
  }

  /** The low byte comes first: a short length is its own byte and zeros behind it, and
      256 times a number is the number behind a zero. */
  lemma LowByteFirst(n: nat, k: nat)
    requires k > 0
    ensures n < 256 ==> LeBytes(n, k) == [n] + ZeroBytes(k - 1)
    ensures LeBytes(256 * n, k) == [0] + LeBytes(n, k - 1)
  {
    LeBytesOfZero(k - 1);
  }
}
