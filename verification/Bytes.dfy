/** Bytes and big-endian numbers. */
module Bytes {
  type byte = b: int | 0 <= b < 256

  const POW32: nat := 0x1_0000_0000

  predicate IsWord(n: int) {
    0 <= n < POW32
  }

  /** The four bytes of n, most significant first. */
  function BigEndian(n: int): (r: seq<byte>)
    requires IsWord(n)
    ensures |r| == 4
  {
    [n / 0x100_0000, n / 0x1_0000 % 256, n / 0x100 % 256, n % 256]
  }

  function FromBigEndian(b: seq<byte>): (n: int)
    requires |b| == 4
    ensures IsWord(n)
  {
    var x: int, y: int, z: int := b[0], b[1], b[2];
    ((x * 256 + y) * 256 + z) * 256 + b[3]
  }

  lemma BigEndianRoundTrip(n: int)
    requires IsWord(n)
    ensures FromBigEndian(BigEndian(n)) == n
  {
    var q1, q2, q3 := n / 0x100, n / 0x1_0000, n / 0x100_0000;
    assert q2 == q1 / 256 && q3 == q2 / 256;
  }

  lemma FromBigEndianRoundTrip(b: seq<byte>)
    requires |b| == 4
    ensures BigEndian(FromBigEndian(b)) == b
  {
    var x: int, y: int, z: int := b[0], b[1], b[2];
    var n := FromBigEndian(b);
    assert n / 0x100 == (x * 256 + y) * 256 + z;
    assert n / 0x1_0000 == x * 256 + y;
    assert n / 0x100_0000 == x;
  }

  // ---------------------------------------------------------------- 64-bit numbers

  predicate IsLong(v: int) {
    0 <= v < POW32 * POW32
  }

  function Hi(v: int): (r: int)
    requires IsLong(v)
    ensures IsWord(r)
  {
    v / POW32
  }

  function Lo(v: int): (r: int)
    requires IsLong(v)
    ensures IsWord(r)
  {
    v % POW32
  }

  function Long(hi: int, lo: int): (v: int)
    requires IsWord(hi) && IsWord(lo)
    ensures IsLong(v) && Hi(v) == hi && Lo(v) == lo
  {
    hi * POW32 + lo
  }

  lemma LongParts(v: int)
    requires IsLong(v)
    ensures Long(Hi(v), Lo(v)) == v
  {}

  function BigEndian64(v: int): (r: seq<byte>)
    requires IsLong(v)
    ensures |r| == 8
  {
    BigEndian(Hi(v)) + BigEndian(Lo(v))
  }

  function Zeros(n: nat): (r: seq<byte>)
    ensures |r| == n && forall k :: 0 <= k < n ==> r[k] == 0
  {
    seq(n, _ => 0)
  }
}
