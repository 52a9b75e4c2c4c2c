/**
 The client's SHA-256 (FIPS 180-4) and the key it derives from a password.
 Words are numbers below 2^32, added modulo 2^32.
 */
module Sha256 {
  import opened Bytes

  type word = w: int | 0 <= w < 0x1_0000_0000

  // ---------------------------------------------------------------- padding

  const POW64: nat := 0x1_0000_0000_0000_0000

  /** How many zero bytes go between the marker and the length. */
  function Gap(n: nat): nat {
    (119 - n % 64) % 64
  }

  /** Section 5.1.1 of FIPS 180-4, with the bit count kept in 64 bits. */
  function Padded(d: seq<byte>): seq<byte> {
    d + [0x80] + Zeros(Gap(|d|)) + BigEndian64(|d| * 8 % POW64)
  }

  lemma GapFits(n: nat)
    ensures (n + 9 + Gap(n)) % 64 == 0 && Gap(n) < 64
  {
    var r := n % 64;
    assert (n + 9 + Gap(n)) % 64 == (r + 9 + Gap(n)) % 64;
  }

  lemma LeastMultiple(p: nat, m: nat, n: nat)
    requires p % 64 == 0 && m % 64 == 0 && n <= m && p < n + 64
    ensures p <= m
  {}

  /** The padded length is the least multiple of 64 that leaves room for the marker and the length. */
  lemma PaddedLength(d: seq<byte>)
    ensures |Padded(d)| % 64 == 0 && |Padded(d)| >= |d| + 9
    ensures forall m: nat :: m % 64 == 0 && m >= |d| + 9 ==> |Padded(d)| <= m
  {
    hide BigEndian64;
    GapFits(|d|);
    hide Gap;
    var p := |Padded(d)|;
    assert p == |d| + 9 + Gap(|d|);
    forall m: nat | m % 64 == 0 && m >= |d| + 9 ensures p <= m {
      LeastMultiple(p, m, |d| + 9);
    }
  }

  lemma BigEndian64Injective(v: int, w: int)
    requires IsLong(v) && IsLong(w) && BigEndian64(v) == BigEndian64(w)
    ensures v == w
  {
    assert BigEndian64(v)[..4] == BigEndian(Hi(v)) && BigEndian64(v)[4..] == BigEndian(Lo(v));
    assert BigEndian64(w)[..4] == BigEndian(Hi(w)) && BigEndian64(w)[4..] == BigEndian(Lo(w));
    BigEndianRoundTrip(Hi(v));
    BigEndianRoundTrip(Lo(v));
    BigEndianRoundTrip(Hi(w));
    BigEndianRoundTrip(Lo(w));
    LongParts(v);
    LongParts(w);
  }

  lemma NearAndCongruent(n: nat, m: nat)
    requires n * 8 % POW64 == m * 8 % POW64 && -64 < n - m < 64
    ensures n == m
  {}

  /** Different inputs are padded differently, whatever their lengths. */
  lemma PaddingInjective(a: seq<byte>, b: seq<byte>)
    requires Padded(a) == Padded(b)
    ensures a == b
  {
    hide BigEndian64;
    var p := Padded(a);
    PaddedLength(a);
    PaddedLength(b);
    assert p[|p| - 8..] == BigEndian64(|a| * 8 % POW64);
    assert p[|p| - 8..] == BigEndian64(|b| * 8 % POW64);
    BigEndian64Injective(|a| * 8 % POW64, |b| * 8 % POW64);
    NearAndCongruent(|a|, |b|);
    assert a == p[..|a|] && b == p[..|b|];
  }

  function Pow256(i: nat): nat
    requires i < 8
    ensures Pow256(i) > 0
  {
    match i
    case 0 => 1
    case 1 => 0x100
    case 2 => 0x1_0000
    case 3 => 0x100_0000
    case 4 => 0x1_0000_0000
    case 5 => 0x100_0000_0000
    case 6 => 0x1_0000_0000_0000
    case 7 => 0x100_0000_0000_0000
  }

  lemma LengthByteHi(v: int, i: nat)
    requires IsLong(v) && 4 <= i < 8
    ensures v / Pow256(i) % 256 == BigEndian64(v)[7 - i]
  {
    var hi := Hi(v);
    assert v / 0x1_0000_0000 == hi;
    assert v / 0x100_0000_0000 == hi / 0x100;
    assert v / 0x1_0000_0000_0000 == hi / 0x1_0000;
    assert v / 0x100_0000_0000_0000 == hi / 0x100_0000;
  }

  lemma LengthByteLo(v: int, i: nat)
    requires IsLong(v) && i < 4
    ensures v / Pow256(i) % 256 == BigEndian64(v)[7 - i]
  {
    hide Lo, Hi;
    var hi, lo := Hi(v), Lo(v);
    assert v == hi * 0x1_0000_0000 + lo by { LongParts(v); }
    if i == 0 { LowByte0(hi, lo); }
    if i == 1 { LowByte1(hi, lo); }
    if i == 2 { LowByte2(hi, lo); }
    if i == 3 { LowByte3(hi, lo); }
  }

  lemma LowByte0(hi: int, lo: int)
    ensures (hi * 0x1_0000_0000 + lo) % 256 == lo % 256
  {}

  lemma LowByte1(hi: int, lo: int)
    ensures (hi * 0x1_0000_0000 + lo) / 0x100 % 256 == lo / 0x100 % 256
  {
    assert (hi * 0x1_0000_0000 + lo) / 0x100 == hi * 0x100_0000 + lo / 0x100;
  }

  lemma LowByte2(hi: int, lo: int)
    ensures (hi * 0x1_0000_0000 + lo) / 0x1_0000 % 256 == lo / 0x1_0000 % 256
  {
    var q, rest := lo / 0x1_0000, lo % 0x1_0000;
    Quotient(hi * 0x1_0000 + q, rest);
    WholeBytes(hi, q);
  }

  lemma Quotient(q: int, rest: int)
    requires 0 <= rest < 0x1_0000
    ensures (q * 0x1_0000 + rest) / 0x1_0000 == q
  {}

  lemma WholeBytes(hi: int, q: int)
    ensures (hi * 0x1_0000 + q) % 256 == q % 256
  {}

  lemma LowByte3(hi: int, lo: int)
    requires IsWord(lo)
    ensures (hi * 0x1_0000_0000 + lo) / 0x100_0000 % 256 == lo / 0x100_0000
  {
    assert (hi * 0x1_0000_0000 + lo) / 0x100_0000 == hi * 0x100 + lo / 0x100_0000;
  }

  /** Appends the eight bytes of the bit count, most significant first. */
  method AppendLength(start: seq<byte>, bitlen: int) returns (padded: seq<byte>)
    requires IsLong(bitlen)
    ensures padded == start + BigEndian64(bitlen)
  {
    padded := start;
    for i := 8 downto 0
      invariant padded == start + BigEndian64(bitlen)[..8 - i]
    {
      if i >= 4 { LengthByteHi(bitlen, i); } else { LengthByteLo(bitlen, i); }
      padded := padded + [bitlen / Pow256(i) % 256];
    }
  }

  /** The padding loops. */
  method Pad(d: seq<byte>) returns (padded: seq<byte>)
    ensures padded == Padded(d)
  {
    var bitlen := |d| * 8 % POW64;
    padded := d + [0x80];
    ghost var z := 0;
    while |padded| * 8 % 512 != 448
      invariant z <= Gap(|d|) && padded == d + [0x80] + Zeros(z)
      decreases Gap(|d|) - z
    {
      GapNotYet(|d|, z);
      padded := padded + [0];
      z := z + 1;
    }
    GapReached(|d|, z);
    padded := AppendLength(padded, bitlen);
  }

  lemma GapNotYet(n: nat, z: nat)
    requires z <= Gap(n) && (n + 1 + z) * 8 % 512 != 448
    ensures z < Gap(n)
  {
    GapFits(n);
  }

  lemma GapReached(n: nat, z: nat)
    requires z <= Gap(n) && (n + 1 + z) * 8 % 512 == 448
    ensures z == Gap(n)
  {
    GapFits(n);
    hide Gap;
    assert (n + 9 + z) % 64 == 0;
  }

  // ---------------------------------------------------------------- the functions of section 4.1.2 of FIPS 180-4

  function Add(x: word, y: word): word {
    (x + y) % 0x1_0000_0000
  }

  function Subtract(x: word, y: word): word {
    (x - y) % 0x1_0000_0000
  }

  function Rotr(x: bv32, n: nat): bv32
    requires n <= 32
  {
    (x >> n) | (x << (32 - n))
  }

  function SmallSigma0(x: word): word {
    var v := x as bv32;
    (Rotr(v, 7) ^ Rotr(v, 18) ^ (v >> 3)) as int
  }

  function SmallSigma1(x: word): word {
    var v := x as bv32;
    (Rotr(v, 17) ^ Rotr(v, 19) ^ (v >> 10)) as int
  }

  function BigSigma0(x: word): word {
    var v := x as bv32;
    (Rotr(v, 2) ^ Rotr(v, 13) ^ Rotr(v, 22)) as int
  }

  function BigSigma1(x: word): word {
    var v := x as bv32;
    (Rotr(v, 6) ^ Rotr(v, 11) ^ Rotr(v, 25)) as int
  }

  function Choose(x: word, y: word, z: word): word {
    var a, b, c := x as bv32, y as bv32, z as bv32;
    ((a & b) ^ (!a & c)) as int
  }

  function Majority(x: word, y: word, z: word): word {
    var a, b, c := x as bv32, y as bv32, z as bv32;
    ((a & b) ^ (a & c) ^ (b & c)) as int
  }

  function RowOne(): (k: seq<word>)
    ensures |k| == 8
  {
    [0x428a2f98, 0x71374491, 0xb5c0fbcf, 0xe9b5dba5, 0x3956c25b, 0x59f111f1, 0x923f82a4, 0xab1c5ed5]
  }

  function RowTwo(): (k: seq<word>)
    ensures |k| == 8
  {
    [0xd807aa98, 0x12835b01, 0x243185be, 0x550c7dc3, 0x72be5d74, 0x80deb1fe, 0x9bdc06a7, 0xc19bf174]
  }

  function RowThree(): (k: seq<word>)
    ensures |k| == 8
  {
    [0xe49b69c1, 0xefbe4786, 0x0fc19dc6, 0x240ca1cc, 0x2de92c6f, 0x4a7484aa, 0x5cb0a9dc, 0x76f988da]
  }

  function RowFour(): (k: seq<word>)
    ensures |k| == 8
  {
    [0x983e5152, 0xa831c66d, 0xb00327c8, 0xbf597fc7, 0xc6e00bf3, 0xd5a79147, 0x06ca6351, 0x14292967]
  }

  function RowFive(): (k: seq<word>)
    ensures |k| == 8
  {
    [0x27b70a85, 0x2e1b2138, 0x4d2c6dfc, 0x53380d13, 0x650a7354, 0x766a0abb, 0x81c2c92e, 0x92722c85]
  }

  function RowSix(): (k: seq<word>)
    ensures |k| == 8
  {
    [0xa2bfe8a1, 0xa81a664b, 0xc24b8b70, 0xc76c51a3, 0xd192e819, 0xd6990624, 0xf40e3585, 0x106aa070]
  }

  function RowSeven(): (k: seq<word>)
    ensures |k| == 8
  {
    [0x19a4c116, 0x1e376c08, 0x2748774c, 0x34b0bcb5, 0x391c0cb3, 0x4ed8aa4a, 0x5b9cca4f, 0x682e6ff3]
  }

  function RowEight(): (k: seq<word>)
    ensures |k| == 8
  {
    [0x748f82ee, 0x78a5636f, 0x84c87814, 0x8cc70208, 0x90befffa, 0xa4506ceb, 0xbef9a3f7, 0xc67178f2]
  }

  /** The constants K of section 4.2.2. */
  function Constants(): (k: seq<word>)
    ensures |k| == 64
  {
    hide RowOne, RowTwo, RowThree, RowFour, RowFive, RowSix, RowSeven, RowEight;
    RowOne() + RowTwo() + RowThree() + RowFour() + RowFive() + RowSix() + RowSeven() + RowEight()
  }

  // ---------------------------------------------------------------- the message schedule

  /** Word t of the schedule, section 6.2.2 step 1, with the sum in the standard's order. */
  function Schedule(chunk: seq<byte>, t: nat): word
    requires |chunk| == 64
  {
    if t < 16 then FromBigEndian(chunk[4 * t..4 * t + 4])
    else
      Add(Add(Add(SmallSigma1(Schedule(chunk, t - 2)), Schedule(chunk, t - 7)),
              SmallSigma0(Schedule(chunk, t - 15))), Schedule(chunk, t - 16))
  }

  lemma AddReduced(x: int, y: word)
    ensures Add(x % 0x1_0000_0000, y) == (x + y) % 0x1_0000_0000
  {}

  lemma SumOfFour(a: word, b: word, c: word, d: word)
    ensures Add(Add(Add(a, b), c), d) == (a + b + c + d) % 0x1_0000_0000
  {
    AddReduced(a + b, c);
    AddReduced(a + b + c, d);
  }

  lemma Reordered(a: word, b: word, c: word, d: word)
    ensures Add(Add(Add(a, b), c), d) == Add(Add(Add(d, c), b), a)
  {
    hide Add;
    SumOfFour(a, b, c, d);
    SumOfFour(d, c, b, a);
  }

  /** The loops that fill W; the source adds the four terms in another order. */
  method PrepareSchedule(chunk: seq<byte>) returns (w: array<word>)
    requires |chunk| == 64
    ensures fresh(w) && w.Length == 64 && forall t :: 0 <= t < 64 ==> w[t] == Schedule(chunk, t)
  {
    hide Add, SmallSigma0, SmallSigma1, FromBigEndian;
    w := new word[64];
    for t := 0 to 16
      invariant forall i :: 0 <= i < t ==> w[i] == Schedule(chunk, i)
    {
      w[t] := FromBigEndian(chunk[4 * t..4 * t + 4]);
    }
    for t := 16 to 64
      invariant forall i :: 0 <= i < t ==> w[i] == Schedule(chunk, i)
    {
      var s0, s1 := SmallSigma0(w[t - 15]), SmallSigma1(w[t - 2]);
      Reordered(s1, w[t - 7], s0, w[t - 16]);
      w[t] := Add(Add(Add(w[t - 16], s0), w[t - 7]), s1);
    }
  }

  // ---------------------------------------------------------------- the rounds

  datatype Registers = Registers(a: word, b: word, c: word, d: word, e: word, f: word, g: word, h: word)

  function Temp1(r: Registers, k: word, w: word): word {
    Add(Add(Add(Add(r.h, BigSigma1(r.e)), Choose(r.e, r.f, r.g)), k), w)
  }

  function Temp2(r: Registers): word {
    Add(BigSigma0(r.a), Majority(r.a, r.b, r.c))
  }

  /** The registers after t rounds. */
  function Rounds(start: Registers, chunk: seq<byte>, t: nat): Registers
    requires |chunk| == 64 && t <= 64
  {
    if t == 0 then start
    else
      var r := Rounds(start, chunk, t - 1);
      var t1 := Temp1(r, Constants()[t - 1], Schedule(chunk, t - 1));
      Registers(Add(t1, Temp2(r)), r.a, r.b, r.c, Add(r.d, t1), r.e, r.f, r.g)
  }

  /** The loop over the eight working variables. */
  method RunRounds(start: Registers, chunk: seq<byte>, w: array<word>) returns (r: Registers)
    requires |chunk| == 64 && w.Length == 64 && forall t :: 0 <= t < 64 ==> w[t] == Schedule(chunk, t)
    ensures r == Rounds(start, chunk, 64)
  {
    hide Add, BigSigma0, BigSigma1, Choose, Majority, Constants, Schedule;
    var a, b, c, d, e, f, g, h := start.a, start.b, start.c, start.d, start.e, start.f, start.g, start.h;
    for t := 0 to 64
      invariant Registers(a, b, c, d, e, f, g, h) == Rounds(start, chunk, t)
    {
      var temp1 := Add(Add(Add(Add(h, BigSigma1(e)), Choose(e, f, g)), Constants()[t]), w[t]);
      var temp2 := Add(BigSigma0(a), Majority(a, b, c));
      h := g;
      g := f;
      f := e;
      e := Add(d, temp1);
      d := c;
      c := b;
      b := a;
      a := Add(temp1, temp2);
    }
    return Registers(a, b, c, d, e, f, g, h);
  }

  // ---------------------------------------------------------------- the rounds as two recurrences

  /**
   The same rounds without registers: two sequences of words, A and E, each word
   computed once from earlier ones. The start values are words 0 to 3.
   */
  function A(start: Registers, chunk: seq<byte>, t: nat): word
    requires |chunk| == 64 && t < 68
    decreases t, 1
  {
    if t == 0 then start.d else if t == 1 then start.c else if t == 2 then start.b else if t == 3 then start.a
    else Add(Fresh(start, chunk, t - 4), Add(BigSigma0(A(start, chunk, t - 1)),
             Majority(A(start, chunk, t - 1), A(start, chunk, t - 2), A(start, chunk, t - 3))))
  }

  function E(start: Registers, chunk: seq<byte>, t: nat): word
    requires |chunk| == 64 && t < 68
    decreases t, 1
  {
    if t == 0 then start.h else if t == 1 then start.g else if t == 2 then start.f else if t == 3 then start.e
    else Add(A(start, chunk, t - 4), Fresh(start, chunk, t - 4))
  }

  function Fresh(start: Registers, chunk: seq<byte>, t: nat): word
    requires |chunk| == 64 && t < 64
    decreases t + 4, 0
  {
    Add(Add(Add(Add(E(start, chunk, t), BigSigma1(E(start, chunk, t + 3))),
                Choose(E(start, chunk, t + 3), E(start, chunk, t + 2), E(start, chunk, t + 1))),
            Constants()[t]), Schedule(chunk, t))
  }

  /** The rotating registers are a window of four words on each of the two sequences. */
  lemma {:induction false} RegistersAreWindows(start: Registers, chunk: seq<byte>, t: nat)
    requires |chunk| == 64 && t <= 64
    ensures Rounds(start, chunk, t) ==
      Registers(A(start, chunk, t + 3), A(start, chunk, t + 2), A(start, chunk, t + 1), A(start, chunk, t),
                E(start, chunk, t + 3), E(start, chunk, t + 2), E(start, chunk, t + 1), E(start, chunk, t))
  {
    hide Add, BigSigma0, BigSigma1, Choose, Majority, Constants, Schedule;
    if t > 0 {
      RegistersAreWindows(start, chunk, t - 1);
      assert Fresh(start, chunk, t - 1) ==
        Temp1(Rounds(start, chunk, t - 1), Constants()[t - 1], Schedule(chunk, t - 1));
    }
  }

  // ---------------------------------------------------------------- rounds can be undone

  function Undo(r: Registers, k: word, w: word): Registers {
    var t1 := Subtract(r.a, Add(BigSigma0(r.b), Majority(r.b, r.c, r.d)));
    var known := Add(BigSigma1(r.f), Choose(r.f, r.g, r.h));
    Registers(r.b, r.c, r.d, Subtract(r.e, t1), r.f, r.g, r.h,
              Subtract(Subtract(Subtract(t1, w), k), known))
  }

  lemma SubtractAdd(x: word, y: word)
    ensures Subtract(Add(x, y), y) == x && Subtract(Add(y, x), y) == x
  {}

  lemma AddGroups(x: word, y: word, z: word)
    ensures Add(Add(x, y), z) == Add(x, Add(y, z))
  {
    AddReduced(x + y, z);
    AddReduced(y + z, x);
  }

  lemma UndoRound(start: Registers, chunk: seq<byte>, t: nat)
    requires |chunk| == 64 && 0 < t <= 64
    ensures Undo(Rounds(start, chunk, t), Constants()[t - 1], Schedule(chunk, t - 1)) == Rounds(start, chunk, t - 1)
  {
    hide Add, Subtract, BigSigma0, BigSigma1, Choose, Majority, Constants, Schedule;
    var r, k, w := Rounds(start, chunk, t - 1), Constants()[t - 1], Schedule(chunk, t - 1);
    var t1 := Temp1(r, k, w);
    SubtractAdd(t1, Temp2(r));
    SubtractAdd(r.d, t1);
    AddGroups(r.h, BigSigma1(r.e), Choose(r.e, r.f, r.g));
    var known := Add(BigSigma1(r.e), Choose(r.e, r.f, r.g));
    SubtractAdd(r.h, known);
    SubtractAdd(Add(r.h, known), k);
    SubtractAdd(Add(Add(r.h, known), k), w);
  }

  /** For each chunk the rounds lose nothing: different registers at the start are different at the end. */
  lemma {:induction false} RoundsInjective(r: Registers, s: Registers, chunk: seq<byte>, t: nat)
    requires |chunk| == 64 && t <= 64 && Rounds(r, chunk, t) == Rounds(s, chunk, t)
    ensures r == s
  {
    hide Undo, Temp1, Temp2, Add, Schedule;
    if t > 0 {
      UndoRound(r, chunk, t);
      UndoRound(s, chunk, t);
      RoundsInjective(r, s, chunk, t - 1);
    }
  }

  // ---------------------------------------------------------------- the digest

  const START := Registers(0x6a09e667, 0xbb67ae85, 0x3c6ef372, 0xa54ff53a, 0x510e527f, 0x9b05688c, 0x1f83d9ab, 0x5be0cd19)

  function Plus(r: Registers, s: Registers): Registers {
    Registers(Add(r.a, s.a), Add(r.b, s.b), Add(r.c, s.c), Add(r.d, s.d),
              Add(r.e, s.e), Add(r.f, s.f), Add(r.g, s.g), Add(r.h, s.h))
  }

  function Chunk(p: seq<byte>, i: nat): (c: seq<byte>)
    requires 64 * i + 64 <= |p|
    ensures |c| == 64
  {
    p[64 * i..64 * i + 64]
  }

  /** The hash value after n chunks. */
  function Hash(p: seq<byte>, n: nat): Registers
    requires 64 * n <= |p|
  {
    if n == 0 then START
    else
      var h := Hash(p, n - 1);
      Plus(h, Rounds(h, Chunk(p, n - 1), 64))
  }

  function Words(r: Registers): (w: seq<word>)
    ensures |w| == 8
  {
    [r.a, r.b, r.c, r.d, r.e, r.f, r.g, r.h]
  }

  function Digest(d: seq<byte>): seq<word> {
    PaddedLength(d);
    Words(Hash(Padded(d), |Padded(d)| / 64))
  }

  /** The loop over the chunks. */
  method Sha256Words(d: seq<byte>) returns (h: Registers)
    ensures Words(h) == Digest(d)
  {
    hide Padded, Rounds, Plus, Schedule;
    var padded := Pad(d);
    PaddedLength(d);
    h := START;
    for i := 0 to |padded| / 64
      invariant h == Hash(padded, i)
    {
      var chunk := padded[64 * i..64 * i + 64];
      var w := PrepareSchedule(chunk);
      var r := RunRounds(h, chunk, w);
      h := Plus(h, r);
    }
  }

  // ---------------------------------------------------------------- the digest as text

  function HexDigit(n: int): char
    requires 0 <= n < 16
  {
    "0123456789abcdef"[n]
  }

  /** A number in hexadecimal, without leading zeros. */
  function HexText(n: nat): (s: string)
    ensures s != []
  {
    if n < 16 then [HexDigit(n)] else HexText(n / 16) + [HexDigit(n % 16)]
  }

  function Blank(n: nat): (s: string)
    ensures |s| == n && forall i :: 0 <= i < n ==> s[i] == '0'
  {
    seq(n, _ => '0')
  }

  /** What `setw` and `setfill` make of a field. */
  function Fill(s: string, width: nat): string {
    if |s| < width then Blank(width - |s|) + s else s
  }

  /** The last k hexadecimal digits of n. */
  function Digits(n: nat, k: nat): (s: string)
    ensures |s| == k
  {
    if k == 0 then [] else Digits(n / 16, k - 1) + [HexDigit(n % 16)]
  }

  function Pow16(k: nat): (p: nat)
    ensures p > 0
  {
    if k == 0 then 1 else 16 * Pow16(k - 1)
  }

  lemma {:induction false} ZeroDigits(k: nat)
    ensures Digits(0, k) == Blank(k)
  {
    if k > 0 { ZeroDigits(k - 1); }
  }

  lemma {:induction false} FilledDigits(n: nat, k: nat)
    requires n < Pow16(k) && k > 0
    ensures |HexText(n)| <= k && Fill(HexText(n), k) == Digits(n, k)
  {
    if n < 16 {
      ZeroDigits(k - 1);
    } else {
      FilledDigits(n / 16, k - 1);
    }
  }

  /** A byte as two digits. */
  function HexByte(b: byte): (s: string)
    ensures |s| == 2
  {
    [HexDigit(b / 16), HexDigit(b % 16)]
  }

  function HexBytes(bs: seq<byte>): (s: string)
    ensures |s| == 2 * |bs|
  {
    if bs == [] then [] else HexBytes(bs[..|bs| - 1]) + HexByte(bs[|bs| - 1])
  }

  function WordBytes(ws: seq<word>): (bs: seq<byte>)
    ensures |bs| == 4 * |ws|
  {
    if ws == [] then [] else WordBytes(ws[..|ws| - 1]) + BigEndian(ws[|ws| - 1])
  }

  lemma LastByte(n: nat, k: nat)
    ensures Digits(n, k + 2) == Digits(n / 256, k) + HexByte(n % 256)
  {
    var m := n / 16;
    assert Digits(n, k + 2) == Digits(m, k + 1) + [HexDigit(n % 16)];
    assert Digits(m, k + 1) == Digits(m / 16, k) + [HexDigit(m % 16)];
    assert m / 16 == n / 256 && n % 256 % 16 == n % 16 && n % 256 / 16 == m % 16;
  }

  /** A word prints as the digits of its four bytes, most significant first. */
  lemma WordAsBytes(w: word)
    ensures Fill(HexText(w), 8) == HexBytes(BigEndian(w))
  {
    assert Pow16(8) == 0x1_0000_0000;
    FilledDigits(w, 8);
    FourBytes(w);
    HexOfFour(BigEndian(w));
  }

  lemma FourBytes(w: word)
    ensures var b := BigEndian(w); Digits(w, 8) == HexByte(b[0]) + HexByte(b[1]) + HexByte(b[2]) + HexByte(b[3])
  {
    hide HexByte, Digits;
    LastByte(w, 6);
    LastByte(w / 256, 4);
    LastByte(w / 0x1_0000, 2);
    LastByte(w / 0x100_0000, 0);
    NoDigits(w / 0x100_0000 / 256);
    assert w / 256 / 256 == w / 0x1_0000 && w / 0x1_0000 / 256 == w / 0x100_0000 && w / 0x100_0000 % 256 == w / 0x100_0000;
  }

  lemma NoDigits(n: nat)
    ensures Digits(n, 0) == []
  {}

  lemma HexOfFour(b: seq<byte>)
    requires |b| == 4
    ensures HexBytes(b) == HexByte(b[0]) + HexByte(b[1]) + HexByte(b[2]) + HexByte(b[3])
  {
    hide HexByte;
    assert b[..3][..2] == b[..2] && b[..2][..1] == b[..1] && b[..1][..0] == [];
    assert HexBytes(b[..1]) == HexBytes([]) + HexByte(b[0]);
    assert HexBytes(b[..2]) == HexBytes(b[..1]) + HexByte(b[1]);
    assert HexBytes(b[..3]) == HexBytes(b[..2]) + HexByte(b[2]);
  }

  lemma {:induction false} HexAppend(a: seq<byte>, b: seq<byte>)
    ensures HexBytes(a + b) == HexBytes(a) + HexBytes(b)
  {
    hide HexByte;
    if b == [] {
      assert a + b == a;
    } else {
      var n := |b| - 1;
      HexAppend(a, b[..n]);
      assert (a + b)[..|a| + n] == a + b[..n];
    }
  }

  /** The whole of `sha256`: the digest in lower-case hexadecimal, always 64 digits. */
  method Sha256Text(d: seq<byte>) returns (text: string)
    ensures |text| == 64 && text == HexBytes(WordBytes(Digest(d)))
  {
    hide Digest, Fill, HexText, HexBytes;
    var h := Sha256Words(d);
    var words := Words(h);
    text := [];
    NoBytes();
    for i := 0 to 8
      invariant text == HexBytes(WordBytes(words[..i]))
    {
      text := text + Fill(HexText(words[i]), 8);
      WordAsBytes(words[i]);
      HexAppend(WordBytes(words[..i]), BigEndian(words[i]));
      assert words[..i + 1][..i] == words[..i];
    }
    assert words[..8] == words;
  }

  lemma NoBytes()
    ensures HexBytes([]) == []
  {}

  // ---------------------------------------------------------------- the key

  function HexValue(c: char): (n: int)
    ensures -1 <= n < 16
  {
    if '0' <= c <= '9' then c as int - '0' as int
    else if 'a' <= c <= 'f' then c as int - 'a' as int + 10
    else if 'A' <= c <= 'F' then c as int - 'A' as int + 10
    else -1
  }

  /** The number in the digits at the front of a two-character text, as `strtol` reads it in base 16. */
  function ParseByte(s: string): byte
    requires |s| == 2
  {
    var x, y := HexValue(s[0]), HexValue(s[1]);
    if x < 0 then 0 else if y < 0 then x else 16 * x + y
  }

  lemma HexValueOfDigit(n: int)
    requires 0 <= n < 16
    ensures HexValue(HexDigit(n)) == n
  {}

  lemma ParseHexByte(b: byte)
    ensures ParseByte(HexByte(b)) == b
  {
    hide HexValue, HexDigit;
    HexValueOfDigit(b / 16);
    HexValueOfDigit(b % 16);
  }

  lemma {:induction false} HexByteAt(bs: seq<byte>, i: nat)
    requires i < |bs|
    ensures HexBytes(bs)[2 * i..2 * i + 2] == HexByte(bs[i])
  {
    var n := |bs| - 1;
    if i < n {
      HexByteAt(bs[..n], i);
      assert HexBytes(bs)[2 * i..2 * i + 2] == HexBytes(bs[..n])[2 * i..2 * i + 2];
    }
  }

  class CryptoUtils {
    var aesKey: seq<byte>
    var iv: seq<byte>

    constructor ()
      ensures aesKey == [] && iv == []
    {
      aesKey, iv := [], [];
    }

    /** Every byte of the key is a byte of the digest: nothing is left of an earlier key or of the resize. */
    method InitializeKey(key: seq<byte>, random: seq<byte>)
      requires |random| == 16
      modifies this
      ensures |aesKey| == 32 && aesKey == WordBytes(Digest(key)) && iv == random
    {
      hide Digest, WordBytes, HexBytes, HexByte, ParseByte;
      aesKey := Resized(aesKey, 32);
      iv := Resized(iv, 16);
      var derived := Sha256Text(key);
      ghost var bytes := WordBytes(Digest(key));
      var i := 0;
      while i < 32 && i * 2 < |derived|
        invariant i <= 32 && |aesKey| == 32 && aesKey[..i] == bytes[..i]
      {
        HexByteAt(bytes, i);
        ParseHexByte(bytes[i]);
        aesKey := aesKey[i := ParseByte(derived[i * 2..i * 2 + 2])];
        assert aesKey[..i + 1] == aesKey[..i] + [bytes[i]];
        i := i + 1;
      }
      assert aesKey[..32] == aesKey && bytes[..32] == bytes;
      iv := random;
    }
  }

  function Resized(s: seq<byte>, n: nat): (r: seq<byte>)
    ensures |r| == n
  {
    if n <= |s| then s[..n] else s + Zeros(n - |s|)
  }
}
