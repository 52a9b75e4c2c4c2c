/**
 Where the constants of SHA-256 come from, sections 4.2.2 and 5.3.3 of FIPS 180-4:
 the first 32 bits of the fractional parts of the cube roots of the first 64
 primes, and of the square roots of the first 8.
 */
module Sha256Constants {
  import opened Sha256

  // ---------------------------------------------------------------- the first 64 primes

  predicate Product(d: nat, e: nat, n: nat) {
    d * e == n
  }

  ghost predicate IsPrime(n: nat) {
    n >= 2 && forall d: nat, e: nat :: Product(d, e, n) ==> d == 1 || e == 1
  }

  /** Trial division by everything up to 17. */
  predicate Tried(n: nat) {

    && (n == 2 || n % 2 != 0) && (n == 3 || n % 3 != 0) && (n == 4 || n % 4 != 0) && (n == 5 || n % 5 != 0)
    && (n == 6 || n % 6 != 0) && (n == 7 || n % 7 != 0) && (n == 8 || n % 8 != 0) && (n == 9 || n % 9 != 0)
    && (n == 10 || n % 10 != 0) && (n == 11 || n % 11 != 0) && (n == 12 || n % 12 != 0) && (n == 13 || n % 13 != 0)
    && (n == 14 || n % 14 != 0) && (n == 15 || n % 15 != 0) && (n == 16 || n % 16 != 0) && (n == 17 || n % 17 != 0)
  }

  lemma Caught(n: nat, d: nat, e: nat)
    requires 2 <= d <= 17 && d < n && Product(d, e, n)
    ensures !Tried(n)
  {
    Multiple(d, e);
    hide Product;
    assert n % d == 0;
    NotTried(n, d);
  }

  lemma NotTried(n: nat, d: nat)
    requires 2 <= d <= 17 && d < n && n % d == 0
    ensures !Tried(n)
  {}

  lemma Multiple(d: nat, e: nat)
    requires d > 0
    ensures d * e % d == 0
  {
    var n := d * e;
    var k := e - n / d;
    assert d * k == n - d * (n / d) == n % d;
    NoPart(d, k);
  }

  lemma NoPart(d: int, k: int)
    requires 0 <= d * k < d
    ensures d * k == 0
  {
    assert k >= 1 ==> d * k >= d;
    assert k <= -1 ==> d * k <= -d;
  }

  /** Of two factors of a number below 324 one is at most 17. */
  lemma SmallFactor(n: nat, d: nat, e: nat)
    requires n < 324 && Product(d, e, n) && d >= 18
    ensures e <= 17
  {
    assert e >= 18 ==> d * e >= 18 * 18;
  }

  /** Below 324, trial division up to 17 finds exactly the primes. */
  lemma TriedIsPrime(n: nat)
    requires 2 <= n < 324 && Tried(n)
    ensures IsPrime(n)
  {
    hide Tried;
    forall d: nat, e: nat | Product(d, e, n) ensures d == 1 || e == 1 {
      if d >= 18 {
        SmallFactor(n, d, e);
        Below(n, e, d);
      } else {
        Below(n, d, e);
      }
    }
  }

  lemma Below(n: nat, d: nat, e: nat)
    requires n >= 2 && Tried(n) && (Product(d, e, n) || Product(e, d, n)) && d <= 17
    ensures d == 1 || e == 1
  {
    hide Tried;
    assert d != 0 && d * e == n;
    if d < n && d >= 2 { Caught(n, d, e); }
    if d >= n { OnlyOne(n, d, e); }
  }

  lemma OnlyOne(n: nat, d: nat, e: nat)
    requires n >= 1 && d >= n && d * e == n
    ensures e == 1
  {
    assert e >= 2 ==> d * e >= d * 2;
  }

  lemma Composite(n: nat, d: nat, e: nat)
    requires d >= 2 && e >= 2 && d * e == n
    ensures !IsPrime(n)
  {
    assert Product(d, e, n);
  }

  function PrimesOne(): (q: seq<nat>)
    ensures |q| == 8
  {
    [2, 3, 5, 7, 11, 13, 17, 19]
  }

  lemma TriedOne()
    ensures Tried(2) && Tried(3) && Tried(5) && Tried(7)
    ensures Tried(11) && Tried(13) && Tried(17) && Tried(19)
  {}

  /** From 2 to 22 exactly these are prime. */
  lemma FoundOne(n: nat)
    requires 2 <= n < 23
    ensures IsPrime(n) <==> n in PrimesOne()
  {
    hide Tried, IsPrime;
    if n in PrimesOne() {
      TriedOne();
      TriedIsPrime(n);
    } else if n % 2 == 0 {
      Composite(n, 2, n / 2);
    }
    else if n == 9 { Composite(n, 3, 3); }
    else if n == 15 { Composite(n, 3, 5); }
    else if n == 21 { Composite(n, 3, 7); }
  }

  function PrimesTwo(): (q: seq<nat>)
    ensures |q| == 8
  {
    [23, 29, 31, 37, 41, 43, 47, 53]
  }

  lemma TriedTwo()
    ensures Tried(23) && Tried(29) && Tried(31) && Tried(37)
    ensures Tried(41) && Tried(43) && Tried(47) && Tried(53)
  {}

  /** From 23 to 58 exactly these are prime. */
  lemma FoundTwo(n: nat)
    requires 23 <= n < 59
    ensures IsPrime(n) <==> n in PrimesTwo()
  {
    hide Tried, IsPrime;
    if n in PrimesTwo() {
      TriedTwo();
      TriedIsPrime(n);
    } else if n % 2 == 0 {
      Composite(n, 2, n / 2);
    }
    else if n == 25 { Composite(n, 5, 5); }
    else if n == 27 { Composite(n, 3, 9); }
    else if n == 33 { Composite(n, 3, 11); }
    else if n == 35 { Composite(n, 5, 7); }
    else if n == 39 { Composite(n, 3, 13); }
    else if n == 45 { Composite(n, 3, 15); }
    else if n == 49 { Composite(n, 7, 7); }
    else if n == 51 { Composite(n, 3, 17); }
    else if n == 55 { Composite(n, 5, 11); }
    else if n == 57 { Composite(n, 3, 19); }
  }

  function PrimesThree(): (q: seq<nat>)
    ensures |q| == 8
  {
    [59, 61, 67, 71, 73, 79, 83, 89]
  }

  lemma TriedThree()
    ensures Tried(59) && Tried(61) && Tried(67) && Tried(71)
    ensures Tried(73) && Tried(79) && Tried(83) && Tried(89)
  {}

  /** From 59 to 96 exactly these are prime. */
  lemma FoundThree(n: nat)
    requires 59 <= n < 97
    ensures IsPrime(n) <==> n in PrimesThree()
  {
    hide Tried, IsPrime;
    if n in PrimesThree() {
      TriedThree();
      TriedIsPrime(n);
    } else if n % 2 == 0 {
      Composite(n, 2, n / 2);
    }
    else if n == 63 { Composite(n, 3, 21); }
    else if n == 65 { Composite(n, 5, 13); }
    else if n == 69 { Composite(n, 3, 23); }
    else if n == 75 { Composite(n, 3, 25); }
    else if n == 77 { Composite(n, 7, 11); }
    else if n == 81 { Composite(n, 3, 27); }
    else if n == 85 { Composite(n, 5, 17); }
    else if n == 87 { Composite(n, 3, 29); }
    else if n == 91 { Composite(n, 7, 13); }
    else if n == 93 { Composite(n, 3, 31); }
    else if n == 95 { Composite(n, 5, 19); }
  }

  function PrimesFour(): (q: seq<nat>)
    ensures |q| == 8
  {
    [97, 101, 103, 107, 109, 113, 127, 131]
  }

  lemma TriedFour()
    ensures Tried(97) && Tried(101) && Tried(103) && Tried(107)
    ensures Tried(109) && Tried(113) && Tried(127) && Tried(131)
  {}

  /** From 97 to 136 exactly these are prime. */
  lemma FoundFour(n: nat)
    requires 97 <= n < 137
    ensures IsPrime(n) <==> n in PrimesFour()
  {
    hide Tried, IsPrime;
    if n in PrimesFour() {
      TriedFour();
      TriedIsPrime(n);
    } else if n % 2 == 0 {
      Composite(n, 2, n / 2);
    }
    else if n == 99 { Composite(n, 3, 33); }
    else if n == 105 { Composite(n, 3, 35); }
    else if n == 111 { Composite(n, 3, 37); }
    else if n == 115 { Composite(n, 5, 23); }
    else if n == 117 { Composite(n, 3, 39); }
    else if n == 119 { Composite(n, 7, 17); }
    else if n == 121 { Composite(n, 11, 11); }
    else if n == 123 { Composite(n, 3, 41); }
    else if n == 125 { Composite(n, 5, 25); }
    else if n == 129 { Composite(n, 3, 43); }
    else if n == 133 { Composite(n, 7, 19); }
    else if n == 135 { Composite(n, 3, 45); }
  }

  function PrimesFive(): (q: seq<nat>)
    ensures |q| == 8
  {
    [137, 139, 149, 151, 157, 163, 167, 173]
  }

  lemma TriedFive()
    ensures Tried(137) && Tried(139) && Tried(149) && Tried(151)
    ensures Tried(157) && Tried(163) && Tried(167) && Tried(173)
  {}

  /** From 137 to 178 exactly these are prime. */
  lemma FoundFive(n: nat)
    requires 137 <= n < 179
    ensures IsPrime(n) <==> n in PrimesFive()
  {
    hide Tried, IsPrime;
    if n in PrimesFive() {
      TriedFive();
      TriedIsPrime(n);
    } else if n % 2 == 0 {
      Composite(n, 2, n / 2);
    }
    else if n == 141 { Composite(n, 3, 47); }
    else if n == 143 { Composite(n, 11, 13); }
    else if n == 145 { Composite(n, 5, 29); }
    else if n == 147 { Composite(n, 3, 49); }
    else if n == 153 { Composite(n, 3, 51); }
    else if n == 155 { Composite(n, 5, 31); }
    else if n == 159 { Composite(n, 3, 53); }
    else if n == 161 { Composite(n, 7, 23); }
    else if n == 165 { Composite(n, 3, 55); }
    else if n == 169 { Composite(n, 13, 13); }
    else if n == 171 { Composite(n, 3, 57); }
    else if n == 175 { Composite(n, 5, 35); }
    else if n == 177 { Composite(n, 3, 59); }
  }

  function PrimesSix(): (q: seq<nat>)
    ensures |q| == 8
  {
    [179, 181, 191, 193, 197, 199, 211, 223]
  }

  lemma TriedSix()
    ensures Tried(179) && Tried(181) && Tried(191) && Tried(193)
    ensures Tried(197) && Tried(199) && Tried(211) && Tried(223)
  {}

  /** From 179 to 226 exactly these are prime. */
  lemma FoundSix(n: nat)
    requires 179 <= n < 227
    ensures IsPrime(n) <==> n in PrimesSix()
  {
    hide Tried, IsPrime;
    if n in PrimesSix() {
      TriedSix();
      TriedIsPrime(n);
    } else if n % 2 == 0 {
      Composite(n, 2, n / 2);
    }
    else if n == 183 { Composite(n, 3, 61); }
    else if n == 185 { Composite(n, 5, 37); }
    else if n == 187 { Composite(n, 11, 17); }
    else if n == 189 { Composite(n, 3, 63); }
    else if n == 195 { Composite(n, 3, 65); }
    else if n == 201 { Composite(n, 3, 67); }
    else if n == 203 { Composite(n, 7, 29); }
    else if n == 205 { Composite(n, 5, 41); }
    else if n == 207 { Composite(n, 3, 69); }
    else if n == 209 { Composite(n, 11, 19); }
    else if n == 213 { Composite(n, 3, 71); }
    else if n == 215 { Composite(n, 5, 43); }
    else if n == 217 { Composite(n, 7, 31); }
    else if n == 219 { Composite(n, 3, 73); }
    else if n == 221 { Composite(n, 13, 17); }
    else if n == 225 { Composite(n, 3, 75); }
  }

  function PrimesSeven(): (q: seq<nat>)
    ensures |q| == 8
  {
    [227, 229, 233, 239, 241, 251, 257, 263]
  }

  lemma TriedSeven()
    ensures Tried(227) && Tried(229) && Tried(233) && Tried(239)
    ensures Tried(241) && Tried(251) && Tried(257) && Tried(263)
  {}

  /** From 227 to 268 exactly these are prime. */
  lemma FoundSeven(n: nat)
    requires 227 <= n < 269
    ensures IsPrime(n) <==> n in PrimesSeven()
  {
    hide Tried, IsPrime;
    if n in PrimesSeven() {
      TriedSeven();
      TriedIsPrime(n);
    } else if n % 2 == 0 {
      Composite(n, 2, n / 2);
    }
    else if n == 231 { Composite(n, 3, 77); }
    else if n == 235 { Composite(n, 5, 47); }
    else if n == 237 { Composite(n, 3, 79); }
    else if n == 243 { Composite(n, 3, 81); }
    else if n == 245 { Composite(n, 5, 49); }
    else if n == 247 { Composite(n, 13, 19); }
    else if n == 249 { Composite(n, 3, 83); }
    else if n == 253 { Composite(n, 11, 23); }
    else if n == 255 { Composite(n, 3, 85); }
    else if n == 259 { Composite(n, 7, 37); }
    else if n == 261 { Composite(n, 3, 87); }
    else if n == 265 { Composite(n, 5, 53); }
    else if n == 267 { Composite(n, 3, 89); }
  }

  function PrimesEight(): (q: seq<nat>)
    ensures |q| == 8
  {
    [269, 271, 277, 281, 283, 293, 307, 311]
  }

  lemma TriedEight()
    ensures Tried(269) && Tried(271) && Tried(277) && Tried(281)
    ensures Tried(283) && Tried(293) && Tried(307) && Tried(311)
  {}

  /** From 269 to 311 exactly these are prime. */
  lemma FoundEight(n: nat)
    requires 269 <= n < 312
    ensures IsPrime(n) <==> n in PrimesEight()
  {
    hide Tried, IsPrime;
    if n in PrimesEight() {
      TriedEight();
      TriedIsPrime(n);
    } else if n % 2 == 0 {
      Composite(n, 2, n / 2);
    }
    else if n == 273 { Composite(n, 3, 91); }
    else if n == 275 { Composite(n, 5, 55); }
    else if n == 279 { Composite(n, 3, 93); }
    else if n == 285 { Composite(n, 3, 95); }
    else if n == 287 { Composite(n, 7, 41); }
    else if n == 289 { Composite(n, 17, 17); }
    else if n == 291 { Composite(n, 3, 97); }
    else if n == 295 { Composite(n, 5, 59); }
    else if n == 297 { Composite(n, 3, 99); }
    else if n == 299 { Composite(n, 13, 23); }
    else if n == 301 { Composite(n, 7, 43); }
    else if n == 303 { Composite(n, 3, 101); }
    else if n == 305 { Composite(n, 5, 61); }
    else if n == 309 { Composite(n, 3, 103); }
  }

  function Primes(): (q: seq<nat>)
    ensures |q| == 64
  {
    hide PrimesOne, PrimesTwo, PrimesThree, PrimesFour, PrimesFive, PrimesSix, PrimesSeven, PrimesEight;
    PrimesOne() + PrimesTwo() + PrimesThree() + PrimesFour() + PrimesFive() + PrimesSix() + PrimesSeven() + PrimesEight()
  }

  lemma {:induction false} PrimesAt(i: nat)
    requires i < 64
    ensures var q := Primes();
            q[i] == (if i < 8 then PrimesOne()[i] else if i < 16 then PrimesTwo()[i - 8] else if i < 24 then PrimesThree()[i - 16]
                     else if i < 32 then PrimesFour()[i - 24] else if i < 40 then PrimesFive()[i - 32]
                     else if i < 48 then PrimesSix()[i - 40] else if i < 56 then PrimesSeven()[i - 48] else PrimesEight()[i - 56])
  {
    hide PrimesOne, PrimesTwo, PrimesThree, PrimesFour, PrimesFive, PrimesSix, PrimesSeven, PrimesEight;
  }

  lemma Increasing(i: nat)
    requires i < 63
    ensures Primes()[i] < Primes()[i + 1]
  {
    hide Primes;
    PrimesAt(i);
    PrimesAt(i + 1);
  }

  /** The list is in order and holds exactly the primes below 312: it is the first 64 primes. */
  lemma PrimesAreFirst(n: nat)
    requires n < 312
    ensures IsPrime(n) <==> n in Primes()
    ensures forall i :: 0 <= i < 63 ==> Primes()[i] < Primes()[i + 1]
  {
    forall i | 0 <= i < 63 ensures Primes()[i] < Primes()[i + 1] { Increasing(i); }
    InPrimes(n);
    NotElsewhere(n);
    hide Primes, IsPrime, PrimesOne, PrimesTwo, PrimesThree, PrimesFour, PrimesFive, PrimesSix, PrimesSeven, PrimesEight;
    if 2 <= n < 23 { FoundOne(n); }
    if 23 <= n < 59 { FoundTwo(n); }
    if 59 <= n < 97 { FoundThree(n); }
    if 97 <= n < 137 { FoundFour(n); }
    if 137 <= n < 179 { FoundFive(n); }
    if 179 <= n < 227 { FoundSix(n); }
    if 227 <= n < 269 { FoundSeven(n); }
    if 269 <= n < 312 { FoundEight(n); }
    if n < 2 { TooSmall(n); }
  }

  lemma TooSmall(n: nat)
    requires n < 2
    ensures !IsPrime(n)
  {}

  lemma InPrimes(n: nat)
    ensures n in Primes() <==>
      || n in PrimesOne() || n in PrimesTwo() || n in PrimesThree() || n in PrimesFour()
      || n in PrimesFive() || n in PrimesSix() || n in PrimesSeven() || n in PrimesEight()
  {
    hide PrimesOne, PrimesTwo, PrimesThree, PrimesFour, PrimesFive, PrimesSix, PrimesSeven, PrimesEight;
  }

  lemma NotElsewhere(n: nat)
    ensures n in PrimesOne() ==> 2 <= n <= 19
    ensures n in PrimesTwo() ==> 23 <= n <= 53
    ensures n in PrimesThree() ==> 59 <= n <= 89
    ensures n in PrimesFour() ==> 97 <= n <= 131
    ensures n in PrimesFive() ==> 137 <= n <= 173
    ensures n in PrimesSix() ==> 179 <= n <= 223
    ensures n in PrimesSeven() ==> 227 <= n <= 263
    ensures n in PrimesEight() ==> 269 <= n <= 311
  {}

  // ---------------------------------------------------------------- cube roots

  function CubeFloor(q: nat): (c: nat)
    requires 1 <= q < 343
    ensures c * c * c <= q < (c + 1) * (c + 1) * (c + 1)
  {
    if q < 8 then 1 else if q < 27 then 2 else if q < 64 then 3 else if q < 125 then 4 else if q < 216 then 5 else 6
  }

  /** k is the first 32 bits of the fractional part of the cube root of q. */
  predicate CubeRootBits(q: nat, k: word) {
    1 <= q < 343 &&
    var n := CubeFloor(q) * 0x1_0000_0000 + k;
    n * n * n <= q * 0x1_0000_0000_0000_0000_0000_0000 < (n + 1) * (n + 1) * (n + 1)
  }

  lemma LowRootsOne()
    ensures CubeRootBits(2, 0x428a2f98)
    ensures CubeRootBits(3, 0x71374491)
    ensures CubeRootBits(5, 0xb5c0fbcf)
    ensures CubeRootBits(7, 0xe9b5dba5)
  {}

  lemma HighRootsOne()
    ensures CubeRootBits(11, 0x3956c25b)
    ensures CubeRootBits(13, 0x59f111f1)
    ensures CubeRootBits(17, 0x923f82a4)
    ensures CubeRootBits(19, 0xab1c5ed5)
  {}

  lemma RowOneFromPrimes(j: nat)
    requires j < 8
    ensures CubeRootBits(PrimesOne()[j], RowOne()[j])
  {
    hide CubeRootBits;
    LowRootsOne();
    HighRootsOne();
  }

  lemma LowRootsTwo()
    ensures CubeRootBits(23, 0xd807aa98)
    ensures CubeRootBits(29, 0x12835b01)
    ensures CubeRootBits(31, 0x243185be)
    ensures CubeRootBits(37, 0x550c7dc3)
  {}

  lemma HighRootsTwo()
    ensures CubeRootBits(41, 0x72be5d74)
    ensures CubeRootBits(43, 0x80deb1fe)
    ensures CubeRootBits(47, 0x9bdc06a7)
    ensures CubeRootBits(53, 0xc19bf174)
  {}

  lemma RowTwoFromPrimes(j: nat)
    requires j < 8
    ensures CubeRootBits(PrimesTwo()[j], RowTwo()[j])
  {
    hide CubeRootBits;
    LowRootsTwo();
    HighRootsTwo();
  }

  lemma LowRootsThree()
    ensures CubeRootBits(59, 0xe49b69c1)
    ensures CubeRootBits(61, 0xefbe4786)
    ensures CubeRootBits(67, 0x0fc19dc6)
    ensures CubeRootBits(71, 0x240ca1cc)
  {}

  lemma HighRootsThree()
    ensures CubeRootBits(73, 0x2de92c6f)
    ensures CubeRootBits(79, 0x4a7484aa)
    ensures CubeRootBits(83, 0x5cb0a9dc)
    ensures CubeRootBits(89, 0x76f988da)
  {}

  lemma RowThreeFromPrimes(j: nat)
    requires j < 8
    ensures CubeRootBits(PrimesThree()[j], RowThree()[j])
  {
    hide CubeRootBits;
    LowRootsThree();
    HighRootsThree();
  }

  lemma LowRootsFour()
    ensures CubeRootBits(97, 0x983e5152)
    ensures CubeRootBits(101, 0xa831c66d)
    ensures CubeRootBits(103, 0xb00327c8)
    ensures CubeRootBits(107, 0xbf597fc7)
  {}

  lemma HighRootsFour()
    ensures CubeRootBits(109, 0xc6e00bf3)
    ensures CubeRootBits(113, 0xd5a79147)
    ensures CubeRootBits(127, 0x06ca6351)
    ensures CubeRootBits(131, 0x14292967)
  {}

  lemma RowFourFromPrimes(j: nat)
    requires j < 8
    ensures CubeRootBits(PrimesFour()[j], RowFour()[j])
  {
    hide CubeRootBits;
    LowRootsFour();
    HighRootsFour();
  }

  lemma LowRootsFive()
    ensures CubeRootBits(137, 0x27b70a85)
    ensures CubeRootBits(139, 0x2e1b2138)
    ensures CubeRootBits(149, 0x4d2c6dfc)
    ensures CubeRootBits(151, 0x53380d13)
  {}

  lemma HighRootsFive()
    ensures CubeRootBits(157, 0x650a7354)
    ensures CubeRootBits(163, 0x766a0abb)
    ensures CubeRootBits(167, 0x81c2c92e)
    ensures CubeRootBits(173, 0x92722c85)
  {}

  lemma RowFiveFromPrimes(j: nat)
    requires j < 8
    ensures CubeRootBits(PrimesFive()[j], RowFive()[j])
  {
    hide CubeRootBits;
    LowRootsFive();
    HighRootsFive();
  }

  lemma LowRootsSix()
    ensures CubeRootBits(179, 0xa2bfe8a1)
    ensures CubeRootBits(181, 0xa81a664b)
    ensures CubeRootBits(191, 0xc24b8b70)
    ensures CubeRootBits(193, 0xc76c51a3)
  {}

  lemma HighRootsSix()
    ensures CubeRootBits(197, 0xd192e819)
    ensures CubeRootBits(199, 0xd6990624)
    ensures CubeRootBits(211, 0xf40e3585)
    ensures CubeRootBits(223, 0x106aa070)
  {}

  lemma RowSixFromPrimes(j: nat)
    requires j < 8
    ensures CubeRootBits(PrimesSix()[j], RowSix()[j])
  {
    hide CubeRootBits;
    LowRootsSix();
    HighRootsSix();
  }

  lemma LowRootsSeven()
    ensures CubeRootBits(227, 0x19a4c116)
    ensures CubeRootBits(229, 0x1e376c08)
    ensures CubeRootBits(233, 0x2748774c)
    ensures CubeRootBits(239, 0x34b0bcb5)
  {}

  lemma HighRootsSeven()
    ensures CubeRootBits(241, 0x391c0cb3)
    ensures CubeRootBits(251, 0x4ed8aa4a)
    ensures CubeRootBits(257, 0x5b9cca4f)
    ensures CubeRootBits(263, 0x682e6ff3)
  {}

  lemma RowSevenFromPrimes(j: nat)
    requires j < 8
    ensures CubeRootBits(PrimesSeven()[j], RowSeven()[j])
  {
    hide CubeRootBits;
    LowRootsSeven();
    HighRootsSeven();
  }

  lemma LowRootsEight()
    ensures CubeRootBits(269, 0x748f82ee)
    ensures CubeRootBits(271, 0x78a5636f)
    ensures CubeRootBits(277, 0x84c87814)
    ensures CubeRootBits(281, 0x8cc70208)
  {}

  lemma HighRootsEight()
    ensures CubeRootBits(283, 0x90befffa)
    ensures CubeRootBits(293, 0xa4506ceb)
    ensures CubeRootBits(307, 0xbef9a3f7)
    ensures CubeRootBits(311, 0xc67178f2)
  {}

  lemma RowEightFromPrimes(j: nat)
    requires j < 8
    ensures CubeRootBits(PrimesEight()[j], RowEight()[j])
  {
    hide CubeRootBits;
    LowRootsEight();
    HighRootsEight();
  }

  /** Constant t is made of the cube root of prime t. */
  lemma ConstantsFromPrimes(t: nat)
    requires t < 64
    ensures CubeRootBits(Primes()[t], Constants()[t])
  {
    hide CubeRootBits, RowOne, RowTwo, RowThree, RowFour, RowFive, RowSix, RowSeven, RowEight,
      PrimesOne, PrimesTwo, PrimesThree, PrimesFour, PrimesFive, PrimesSix, PrimesSeven, PrimesEight;
    if t < 8 {
      RowOneFromPrimes(t);
    } else if t < 16 {
      RowTwoFromPrimes(t - 8);
    } else if t < 24 {
      RowThreeFromPrimes(t - 16);
    } else if t < 32 {
      RowFourFromPrimes(t - 24);
    } else if t < 40 {
      RowFiveFromPrimes(t - 32);
    } else if t < 48 {
      RowSixFromPrimes(t - 40);
    } else if t < 56 {
      RowSevenFromPrimes(t - 48);
    } else {
      RowEightFromPrimes(t - 56);
    }
  }

  // ---------------------------------------------------------------- square roots

  /** h is the first 32 bits of the fractional part of the square root of q, whose whole part is c. */
  predicate SquareRootBits(q: nat, c: nat, h: word) {
    var n := c * 0x1_0000_0000 + h;
    c * c <= q < (c + 1) * (c + 1) && n * n <= q * 0x1_0000_0000_0000_0000 < (n + 1) * (n + 1)
  }

  /** The start values are made of the square roots of the first eight primes. */
  lemma StartFromPrimes()
    ensures SquareRootBits(2, 1, START.a) && SquareRootBits(3, 1, START.b) && SquareRootBits(5, 2, START.c)
    ensures SquareRootBits(7, 2, START.d) && SquareRootBits(11, 3, START.e) && SquareRootBits(13, 3, START.f)
    ensures SquareRootBits(17, 4, START.g) && SquareRootBits(19, 4, START.h)
  {}
}
