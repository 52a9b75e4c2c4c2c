/**
 The checksum of the client's protocol handler: a table-driven CRC-32, compared
 with the bit-at-a-time CRC of section 8 of RFC 1952 (reflected, polynomial
 0xEDB88320).
 */
module Crc32 {

  // ---------------------------------------------------------------- bit at a time

  function Xor(x: bv32, y: bv32): bv32 {
    x ^ y
  }

  /** One bit: shift right, and subtract the polynomial when a one falls out. */
  function Shift(x: bv32): bv32 {
    if Odd(x) then Xor(x >> 1, 0xEDB8_8320) else x >> 1
  }

  predicate Odd(x: bv32) {
    x & 1 == 1
  }

  function Shifts(n: nat, x: bv32): bv32 {
    if n == 0 then x else Shifts(n - 1, Shift(x))
  }

  /** The next byte goes into the low bits, and eight bits fall out. */
  function Feed(crc: bv32, b: bv8): bv32 {
    Shifts(8, Xor(crc, b as bv32))
  }

  function FeedAll(crc: bv32, data: seq<bv8>): bv32
    decreases |data|
  {
    if data == [] then crc else FeedAll(Feed(crc, data[0]), data[1..])
  }

  function Checksum(data: seq<bv8>): bv32 {
    Xor(FeedAll(0xFFFF_FFFF, data), 0xFFFF_FFFF)
  }

  // ---------------------------------------------------------------- the table

  function Shift8(x: bv32): bv32 {
    Shift(Shift(Shift(Shift(Shift(Shift(Shift(Shift(x))))))))
  }

  function Row0(l: bv32): bv32 {
    if l == 0 then 0x00000000 else if l == 1 then 0x77073096 else if l == 2 then 0xEE0E612C else if l == 3 then 0x990951BA else
    if l == 4 then 0x076DC419 else if l == 5 then 0x706AF48F else if l == 6 then 0xE963A535 else if l == 7 then 0x9E6495A3 else
    if l == 8 then 0x0EDB8832 else if l == 9 then 0x79DCB8A4 else if l == 10 then 0xE0D5E91E else if l == 11 then 0x97D2D988 else
    if l == 12 then 0x09B64C2B else if l == 13 then 0x7EB17CBD else if l == 14 then 0xE7B82D07 else 0x90BF1D91
  }

  function Row1(l: bv32): bv32 {
    if l == 0 then 0x1DB71064 else if l == 1 then 0x6AB020F2 else if l == 2 then 0xF3B97148 else if l == 3 then 0x84BE41DE else
    if l == 4 then 0x1ADAD47D else if l == 5 then 0x6DDDE4EB else if l == 6 then 0xF4D4B551 else if l == 7 then 0x83D385C7 else
    if l == 8 then 0x136C9856 else if l == 9 then 0x646BA8C0 else if l == 10 then 0xFD62F97A else if l == 11 then 0x8A65C9EC else
    if l == 12 then 0x14015C4F else if l == 13 then 0x63066CD9 else if l == 14 then 0xFA0F3D63 else 0x8D080DF5
  }

  function Row2(l: bv32): bv32 {
    if l == 0 then 0x3B6E20C8 else if l == 1 then 0x4C69105E else if l == 2 then 0xD56041E4 else if l == 3 then 0xA2677172 else
    if l == 4 then 0x3C03E4D1 else if l == 5 then 0x4B04D447 else if l == 6 then 0xD20D85FD else if l == 7 then 0xA50AB56B else
    if l == 8 then 0x35B5A8FA else if l == 9 then 0x42B2986C else if l == 10 then 0xDBBBC9D6 else if l == 11 then 0xACBCF940 else
    if l == 12 then 0x32D86CE3 else if l == 13 then 0x45DF5C75 else if l == 14 then 0xDCD60DCF else 0xABD13D59
  }

  function Row3(l: bv32): bv32 {
    if l == 0 then 0x26D930AC else if l == 1 then 0x51DE003A else if l == 2 then 0xC8D75180 else if l == 3 then 0xBFD06116 else
    if l == 4 then 0x21B4F4B5 else if l == 5 then 0x56B3C423 else if l == 6 then 0xCFBA9599 else if l == 7 then 0xB8BDA50F else
    if l == 8 then 0x2802B89E else if l == 9 then 0x5F058808 else if l == 10 then 0xC60CD9B2 else if l == 11 then 0xB10BE924 else
    if l == 12 then 0x2F6F7C87 else if l == 13 then 0x58684C11 else if l == 14 then 0xC1611DAB else 0xB6662D3D
  }

  function Row4(l: bv32): bv32 {
    if l == 0 then 0x76DC4190 else if l == 1 then 0x01DB7106 else if l == 2 then 0x98D220BC else if l == 3 then 0xEFD5102A else
    if l == 4 then 0x71B18589 else if l == 5 then 0x06B6B51F else if l == 6 then 0x9FBFE4A5 else if l == 7 then 0xE8B8D433 else
    if l == 8 then 0x7807C9A2 else if l == 9 then 0x0F00F934 else if l == 10 then 0x9609A88E else if l == 11 then 0xE10E9818 else
    if l == 12 then 0x7F6A0DBB else if l == 13 then 0x086D3D2D else if l == 14 then 0x91646C97 else 0xE6635C01
  }

  function Row5(l: bv32): bv32 {
    if l == 0 then 0x6B6B51F4 else if l == 1 then 0x1C6C6162 else if l == 2 then 0x856530D8 else if l == 3 then 0xF262004E else
    if l == 4 then 0x6C0695ED else if l == 5 then 0x1B01A57B else if l == 6 then 0x8208F4C1 else if l == 7 then 0xF50FC457 else
    if l == 8 then 0x65B0D9C6 else if l == 9 then 0x12B7E950 else if l == 10 then 0x8BBEB8EA else if l == 11 then 0xFCB9887C else
    if l == 12 then 0x62DD1DDF else if l == 13 then 0x15DA2D49 else if l == 14 then 0x8CD37CF3 else 0xFBD44C65
  }

  function Row6(l: bv32): bv32 {
    if l == 0 then 0x4DB26158 else if l == 1 then 0x3AB551CE else if l == 2 then 0xA3BC0074 else if l == 3 then 0xD4BB30E2 else
    if l == 4 then 0x4ADFA541 else if l == 5 then 0x3DD895D7 else if l == 6 then 0xA4D1C46D else if l == 7 then 0xD3D6F4FB else
    if l == 8 then 0x4369E96A else if l == 9 then 0x346ED9FC else if l == 10 then 0xAD678846 else if l == 11 then 0xDA60B8D0 else
    if l == 12 then 0x44042D73 else if l == 13 then 0x33031DE5 else if l == 14 then 0xAA0A4C5F else 0xDD0D7CC9
  }

  function Row7(l: bv32): bv32 {
    if l == 0 then 0x5005713C else if l == 1 then 0x270241AA else if l == 2 then 0xBE0B1010 else if l == 3 then 0xC90C2086 else
    if l == 4 then 0x5768B525 else if l == 5 then 0x206F85B3 else if l == 6 then 0xB966D409 else if l == 7 then 0xCE61E49F else
    if l == 8 then 0x5EDEF90E else if l == 9 then 0x29D9C998 else if l == 10 then 0xB0D09822 else if l == 11 then 0xC7D7A8B4 else
    if l == 12 then 0x59B33D17 else if l == 13 then 0x2EB40D81 else if l == 14 then 0xB7BD5C3B else 0xC0BA6CAD
  }

  function Row8(l: bv32): bv32 {
    if l == 0 then 0xEDB88320 else if l == 1 then 0x9ABFB3B6 else if l == 2 then 0x03B6E20C else if l == 3 then 0x74B1D29A else
    if l == 4 then 0xEAD54739 else if l == 5 then 0x9DD277AF else if l == 6 then 0x04DB2615 else if l == 7 then 0x73DC1683 else
    if l == 8 then 0xE3630B12 else if l == 9 then 0x94643B84 else if l == 10 then 0x0D6D6A3E else if l == 11 then 0x7A6A5AA8 else
    if l == 12 then 0xE40ECF0B else if l == 13 then 0x9309FF9D else if l == 14 then 0x0A00AE27 else 0x7D079EB1
  }

  function Row9(l: bv32): bv32 {
    if l == 0 then 0xF00F9344 else if l == 1 then 0x8708A3D2 else if l == 2 then 0x1E01F268 else if l == 3 then 0x6906C2FE else
    if l == 4 then 0xF762575D else if l == 5 then 0x806567CB else if l == 6 then 0x196C3671 else if l == 7 then 0x6E6B06E7 else
    if l == 8 then 0xFED41B76 else if l == 9 then 0x89D32BE0 else if l == 10 then 0x10DA7A5A else if l == 11 then 0x67DD4ACC else
    if l == 12 then 0xF9B9DF6F else if l == 13 then 0x8EBEEFF9 else if l == 14 then 0x17B7BE43 else 0x60B08ED5
  }

  function RowA(l: bv32): bv32 {
    if l == 0 then 0xD6D6A3E8 else if l == 1 then 0xA1D1937E else if l == 2 then 0x38D8C2C4 else if l == 3 then 0x4FDFF252 else
    if l == 4 then 0xD1BB67F1 else if l == 5 then 0xA6BC5767 else if l == 6 then 0x3FB506DD else if l == 7 then 0x48B2364B else
    if l == 8 then 0xD80D2BDA else if l == 9 then 0xAF0A1B4C else if l == 10 then 0x36034AF6 else if l == 11 then 0x41047A60 else
    if l == 12 then 0xDF60EFC3 else if l == 13 then 0xA867DF55 else if l == 14 then 0x316E8EEF else 0x4669BE79
  }

  function RowB(l: bv32): bv32 {
    if l == 0 then 0xCB61B38C else if l == 1 then 0xBC66831A else if l == 2 then 0x256FD2A0 else if l == 3 then 0x5268E236 else
    if l == 4 then 0xCC0C7795 else if l == 5 then 0xBB0B4703 else if l == 6 then 0x220216B9 else if l == 7 then 0x5505262F else
    if l == 8 then 0xC5BA3BBE else if l == 9 then 0xB2BD0B28 else if l == 10 then 0x2BB45A92 else if l == 11 then 0x5CB36A04 else
    if l == 12 then 0xC2D7FFA7 else if l == 13 then 0xB5D0CF31 else if l == 14 then 0x2CD99E8B else 0x5BDEAE1D
  }

  function RowC(l: bv32): bv32 {
    if l == 0 then 0x9B64C2B0 else if l == 1 then 0xEC63F226 else if l == 2 then 0x756AA39C else if l == 3 then 0x026D930A else
    if l == 4 then 0x9C0906A9 else if l == 5 then 0xEB0E363F else if l == 6 then 0x72076785 else if l == 7 then 0x05005713 else
    if l == 8 then 0x95BF4A82 else if l == 9 then 0xE2B87A14 else if l == 10 then 0x7BB12BAE else if l == 11 then 0x0CB61B38 else
    if l == 12 then 0x92D28E9B else if l == 13 then 0xE5D5BE0D else if l == 14 then 0x7CDCEFB7 else 0x0BDBDF21
  }

  function RowD(l: bv32): bv32 {
    if l == 0 then 0x86D3D2D4 else if l == 1 then 0xF1D4E242 else if l == 2 then 0x68DDB3F8 else if l == 3 then 0x1FDA836E else
    if l == 4 then 0x81BE16CD else if l == 5 then 0xF6B9265B else if l == 6 then 0x6FB077E1 else if l == 7 then 0x18B74777 else
    if l == 8 then 0x88085AE6 else if l == 9 then 0xFF0F6A70 else if l == 10 then 0x66063BCA else if l == 11 then 0x11010B5C else
    if l == 12 then 0x8F659EFF else if l == 13 then 0xF862AE69 else if l == 14 then 0x616BFFD3 else 0x166CCF45
  }

  function RowE(l: bv32): bv32 {
    if l == 0 then 0xA00AE278 else if l == 1 then 0xD70DD2EE else if l == 2 then 0x4E048354 else if l == 3 then 0x3903B3C2 else
    if l == 4 then 0xA7672661 else if l == 5 then 0xD06016F7 else if l == 6 then 0x4969474D else if l == 7 then 0x3E6E77DB else
    if l == 8 then 0xAED16A4A else if l == 9 then 0xD9D65ADC else if l == 10 then 0x40DF0B66 else if l == 11 then 0x37D83BF0 else
    if l == 12 then 0xA9BCAE53 else if l == 13 then 0xDEBB9EC5 else if l == 14 then 0x47B2CF7F else 0x30B5FFE9
  }

  function RowF(l: bv32): bv32 {
    if l == 0 then 0xBDBDF21C else if l == 1 then 0xCABAC28A else if l == 2 then 0x53B39330 else if l == 3 then 0x24B4A3A6 else
    if l == 4 then 0xBAD03605 else if l == 5 then 0xCDD70693 else if l == 6 then 0x54DE5729 else if l == 7 then 0x23D967BF else
    if l == 8 then 0xB3667A2E else if l == 9 then 0xC4614AB8 else if l == 10 then 0x5D681B02 else if l == 11 then 0x2A6F2B94 else
    if l == 12 then 0xB40BBE37 else if l == 13 then 0xC30C8EA1 else if l == 14 then 0x5A05DF1B else 0x2D02EF8D
  }

  /** `crcTable[i]`, sixteen entries to a row. */
  function Table(i: bv32): bv32 {
    var h, l := i >> 4, i & 15;
    if h == 0 then Row0(l) else if h == 1 then Row1(l) else if h == 2 then Row2(l) else if h == 3 then Row3(l) else
    if h == 4 then Row4(l) else if h == 5 then Row5(l) else if h == 6 then Row6(l) else if h == 7 then Row7(l) else
    if h == 8 then Row8(l) else if h == 9 then Row9(l) else if h == 10 then RowA(l) else if h == 11 then RowB(l) else
    if h == 12 then RowC(l) else if h == 13 then RowD(l) else if h == 14 then RowE(l) else RowF(l)
  }

  lemma Row0Correct(l: bv32)
    requires l < 16
    ensures Row0(l) == Shift8(0 | l)
  {}

  lemma Row1Correct(l: bv32)
    requires l < 16
    ensures Row1(l) == Shift8(16 | l)
  {}

  lemma Row2Correct(l: bv32)
    requires l < 16
    ensures Row2(l) == Shift8(32 | l)
  {}

  lemma Row3Correct(l: bv32)
    requires l < 16
    ensures Row3(l) == Shift8(48 | l)
  {}

  lemma Row4Correct(l: bv32)
    requires l < 16
    ensures Row4(l) == Shift8(64 | l)
  {}

  lemma Row5Correct(l: bv32)
    requires l < 16
    ensures Row5(l) == Shift8(80 | l)
  {}

  lemma Row6Correct(l: bv32)
    requires l < 16
    ensures Row6(l) == Shift8(96 | l)
  {}

  lemma Row7Correct(l: bv32)
    requires l < 16
    ensures Row7(l) == Shift8(112 | l)
  {}

  lemma Row8Correct(l: bv32)
    requires l < 16
    ensures Row8(l) == Shift8(128 | l)
  {}

  lemma Row9Correct(l: bv32)
    requires l < 16
    ensures Row9(l) == Shift8(144 | l)
  {}

  lemma RowACorrect(l: bv32)
    requires l < 16
    ensures RowA(l) == Shift8(160 | l)
  {}

  lemma RowBCorrect(l: bv32)
    requires l < 16
    ensures RowB(l) == Shift8(176 | l)
  {}

  lemma RowCCorrect(l: bv32)
    requires l < 16
    ensures RowC(l) == Shift8(192 | l)
  {}

  lemma RowDCorrect(l: bv32)
    requires l < 16
    ensures RowD(l) == Shift8(208 | l)
  {}

  lemma RowECorrect(l: bv32)
    requires l < 16
    ensures RowE(l) == Shift8(224 | l)
  {}

  lemma RowFCorrect(l: bv32)
    requires l < 16
    ensures RowF(l) == Shift8(240 | l)
  {}

  lemma TableCorrect(i: bv32)
    requires i < 256
    ensures Table(i) == Shift8(i)
  {
    var h, l := i >> 4, i & 15;
    assert l < 16 && i == (h << 4) | l;
    if h == 0 { Row0Correct(l); }
    else if h == 1 { Row1Correct(l); }
    else if h == 2 { Row2Correct(l); }
    else if h == 3 { Row3Correct(l); }
    else if h == 4 { Row4Correct(l); }
    else if h == 5 { Row5Correct(l); }
    else if h == 6 { Row6Correct(l); }
    else if h == 7 { Row7Correct(l); }
    else if h == 8 { Row8Correct(l); }
    else if h == 9 { Row9Correct(l); }
    else if h == 10 { RowACorrect(l); }
    else if h == 11 { RowBCorrect(l); }
    else if h == 12 { RowCCorrect(l); }
    else if h == 13 { RowDCorrect(l); }
    else if h == 14 { RowECorrect(l); }
    else {
      assert h == 15;
      RowFCorrect(l);
    }
  }

  function Low(x: bv32): bv32 { x & 0xFF }
  function High(x: bv32): bv32 { x >> 8 }
  function Rest(x: bv32): bv32 { x & 0xFFFF_FF00 }

  lemma Shifts8(x: bv32)
    ensures Shifts(8, x) == Shift8(x)
  {
    hide Shift;
    var x1 := Shift(x);
    var x2 := Shift(x1);
    var x3 := Shift(x2);
    var x4 := Shift(x3);
    var x5 := Shift(x4);
    var x6 := Shift(x5);
    var x7 := Shift(x6);
    assert Shifts(8, x) == Shifts(7, x1);
    assert Shifts(7, x1) == Shifts(6, x2);
    assert Shifts(6, x2) == Shifts(5, x3);
    assert Shifts(5, x3) == Shifts(4, x4);
    assert Shifts(4, x4) == Shifts(3, x5);
    assert Shifts(3, x5) == Shifts(2, x6);
    assert Shifts(2, x6) == Shifts(1, x7);
    assert Shifts(1, x7) == Shifts(0, Shift(x7));
  }

  lemma HalfBits(x: bv32, y: bv32, z: bv32, w: bv32)
    requires z == x ^ y && w == (x >> 1) ^ (y >> 1)
    ensures z >> 1 == w
  {}

  lemma HalfLinear(x: bv32, y: bv32)
    ensures Xor(x, y) >> 1 == Xor(x >> 1, y >> 1)
  {
    HalfBits(x, y, Xor(x, y), Xor(x >> 1, y >> 1));
  }

  lemma OddLinear(x: bv32, y: bv32)
    ensures Odd(Xor(x, y)) <==> Odd(x) != Odd(y)
  {}

  lemma AssocBits(a: bv32, b: bv32, c: bv32, ab: bv32, bc: bv32)
    requires ab == a ^ b && bc == b ^ c
    ensures ab ^ c == a ^ bc
  {}

  lemma Assoc(a: bv32, b: bv32, c: bv32)
    ensures Xor(Xor(a, b), c) == Xor(a, Xor(b, c))
  {
    AssocBits(a, b, c, Xor(a, b), Xor(b, c));
  }

  lemma Swap(x: bv32, y: bv32)
    ensures Xor(x, y) == Xor(y, x)
  {}

  lemma Cancel(x: bv32)
    ensures Xor(x, x) == 0 && Xor(x, 0) == x
  {}

  lemma XorLaws(a: bv32, b: bv32, p: bv32)
    ensures Xor(Xor(a, p), Xor(b, p)) == Xor(a, b)
    ensures Xor(Xor(a, p), b) == Xor(Xor(a, b), p)
    ensures Xor(a, Xor(b, p)) == Xor(Xor(a, b), p)
  {
    hide Xor;
    Assoc(a, p, b);
    Assoc(a, b, p);
    Swap(p, b);
    Assoc(a, p, Xor(b, p));
    Assoc(p, b, p);
    Assoc(b, p, p);
    Cancel(p);
    Cancel(b);
  }

  lemma ShiftLinear(x: bv32, y: bv32)
    ensures Shift(Xor(x, y)) == Xor(Shift(x), Shift(y))
  {
    hide Xor, Odd;
    HalfLinear(x, y);
    OddLinear(x, y);
    XorLaws(x >> 1, y >> 1, 0xEDB8_8320);
  }

  lemma {:induction false} ShiftsLinear(n: nat, x: bv32, y: bv32)
    ensures Shifts(n, Xor(x, y)) == Xor(Shifts(n, x), Shifts(n, y))
  {
    hide Shift, Xor;
    if n > 0 {
      ShiftLinear(x, y);
      ShiftsLinear(n - 1, Shift(x), Shift(y));
    }
  }

  /** Eight zero bits fall out without a trace. */
  lemma ShiftsRest(x: bv32)
    ensures Shifts(8, Rest(x)) == High(x)
  {
    hide Shifts;
    Shifts8(Rest(x));
  }

  lemma LowRest(x: bv32)
    ensures Xor(Low(x), Rest(x)) == x && Low(x) < 256
  {}

  lemma HighKept(crc: bv32, b: bv8)
    ensures High(Xor(crc, b as bv32)) == High(crc)
  {}

  /** One step of the table loop feeds one byte. */
  lemma TableStep(crc: bv32, b: bv8)
    ensures Xor(High(crc), Table(Low(Xor(crc, b as bv32)))) == Feed(crc, b)
  {
    hide Table, Shifts, Shift8, Low, High, Rest, Xor;
    var x := Xor(crc, b as bv32);
    HighKept(crc, b);
    LowRest(x);
    ShiftsLinear(8, Low(x), Rest(x));
    ShiftsRest(x);
    TableCorrect(Low(x));
    Shifts8(Low(x));
    Swap(Shifts(8, Low(x)), High(crc));
  }

  lemma {:induction false} FeedAllSnoc(crc: bv32, data: seq<bv8>, b: bv8)
    ensures FeedAll(crc, data + [b]) == Feed(FeedAll(crc, data), b)
    decreases |data|
  {
    hide Feed;
    if data == [] {
      assert data + [b] == [b];
      assert [b][1..] == [];
    } else {
      FeedAllSnoc(Feed(crc, data[0]), data[1..], b);
      assert (data + [b])[1..] == data[1..] + [b];
    }
  }

  /** `calculateChecksum` is the CRC-32 of RFC 1952 on every buffer. */
  method CalculateChecksum(data: seq<bv8>) returns (sum: bv32)
    ensures sum == Checksum(data)
  {
    hide Table, Feed, Xor, Low, High;
    var crc: bv32 := 0xFFFF_FFFF;
    for i := 0 to |data|
      invariant crc == FeedAll(0xFFFF_FFFF, data[..i])
    {
      TableStep(crc, data[i]);
      FeedAllSnoc(0xFFFF_FFFF, data[..i], data[i]);
      assert data[..i + 1] == data[..i] + [data[i]];
      crc := Xor(High(crc), Table(Low(Xor(crc, data[i] as bv32))));
    }
    assert data[..|data|] == data;
    sum := Xor(crc, 0xFFFF_FFFF);
  }

  // ---------------------------------------------------------------- what the checksum detects

  lemma ShiftBits(x: bv32, y: bv32)
    requires (if x & 1 == 1 then (x >> 1) ^ 0xEDB8_8320 else x >> 1) == (if y & 1 == 1 then (y >> 1) ^ 0xEDB8_8320 else y >> 1)
    ensures x == y
  {}

  /** The polynomial has its top bit set, so no step loses information. */
  lemma ShiftInjective(x: bv32, y: bv32)
    requires Shift(x) == Shift(y)
    ensures x == y
  {
    ShiftBits(x, y);
  }

  lemma {:induction false} ShiftsInjective(n: nat, x: bv32, y: bv32)
    requires Shifts(n, x) == Shifts(n, y)
    ensures x == y
  {
    hide Shift;
    if n > 0 {
      ShiftsInjective(n - 1, Shift(x), Shift(y));
      ShiftInjective(x, y);
    }
  }

  lemma XorBitsInjective(x: bv32, y: bv32, z: bv32)
    requires x ^ z == y ^ z
    ensures x == y
  {}

  lemma XorInjective(x: bv32, y: bv32, z: bv32)
    requires Xor(x, z) == Xor(y, z)
    ensures x == y
  {
    XorBitsInjective(x, y, z);
  }

  /** From different states, the same bytes never lead to the same state. */
  lemma {:induction false} FeedAllInjective(x: bv32, y: bv32, data: seq<bv8>)
    requires FeedAll(x, data) == FeedAll(y, data)
    ensures x == y
    decreases |data|
  {
    hide Shifts, Xor;
    if data != [] {
      FeedAllInjective(Feed(x, data[0]), Feed(y, data[0]), data[1..]);
      ShiftsInjective(8, Xor(x, data[0] as bv32), Xor(y, data[0] as bv32));
      XorInjective(x, y, data[0] as bv32);
    }
  }

  /** Up to four bytes as a little-endian word. */
  function Word(data: seq<bv8>): bv32
    requires |data| <= 4
  {
    if data == [] then 0 else Lift(data[0], Word(data[1..]))
  }

  function Lift(b: bv8, w: bv32): bv32 {
    Xor(b as bv32, w << 8)
  }

  predicate Fits24(w: bv32) {
    w < 0x100_0000
  }

  lemma LiftFits(b: bv8, w: bv32)
    requires w < 0x1_0000
    ensures Fits24(Lift(b, w))
  {}

  lemma LiftFits16(b: bv8, w: bv32)
    requires w < 0x100
    ensures Lift(b, w) < 0x1_0000
  {}

  lemma LiftFits8(b: bv8)
    ensures Lift(b, 0) < 0x100
  {}

  lemma WordFits(data: seq<bv8>)
    requires |data| <= 3
    ensures Fits24(Word(data))
    ensures |data| <= 2 ==> Word(data) < 0x1_0000
    ensures |data| <= 1 ==> Word(data) < 0x100
  {
    hide Lift;
    if |data| == 1 {
      LiftFits8(data[0]);
    } else if |data| == 2 {
      WordFits(data[1..]);
      LiftFits16(data[0], Word(data[1..]));
    } else if |data| == 3 {
      WordFits(data[1..]);
      LiftFits(data[0], Word(data[1..]));
    }
  }

  lemma LiftInjective(b: bv8, w: bv32, b': bv8, w': bv32)
    requires Fits24(w) && Fits24(w') && Lift(b, w) == Lift(b', w')
    ensures b == b' && w == w'
  {
    hide Xor, Lift;
    LiftRaw(b, w);
    LiftRaw(b', w');
    LiftBits(b, w, b', w', Lift(b, w));
  }

  lemma LiftRaw(b: bv8, w: bv32)
    ensures Lift(b, w) == (b as bv32) ^ (w << 8)
  {}

  lemma LiftBits(b: bv8, w: bv32, b': bv8, w': bv32, x: bv32)
    requires w < 0x100_0000 && w' < 0x100_0000 && x == (b as bv32) ^ (w << 8) && x == (b' as bv32) ^ (w' << 8)
    ensures b == b' && w == w'
  {}

  lemma {:induction false} WordInjective(a: seq<bv8>, b: seq<bv8>)
    requires |a| == |b| <= 4 && Word(a) == Word(b)
    ensures a == b
  {
    hide Lift;
    if a != [] {
      WordFits(a[1..]);
      WordFits(b[1..]);
      LiftInjective(a[0], Word(a[1..]), b[0], Word(b[1..]));
      WordInjective(a[1..], b[1..]);
      assert a == [a[0]] + a[1..] && b == [b[0]] + b[1..];
    }
  }

  lemma RestShifted(w: bv32)
    requires Fits24(w)
    ensures Rest(w << 8) == w << 8 && High(w << 8) == w
  {}

  /** A byte that waits eight bits is a byte that comes eight bits later. */
  lemma FeedAhead(crc: bv32, b: bv8, w: bv32)
    requires Fits24(w)
    ensures Xor(Feed(crc, b), w) == Shifts(8, Xor(crc, Lift(b, w)))
  {
    hide Shifts, Xor, Rest, High, Fits24;
    RestShifted(w);
    ShiftsRest(w << 8);
    ShiftsLinear(8, Xor(crc, b as bv32), w << 8);
    XorLaws(crc, b as bv32, w << 8);
  }

  /** Up to four bytes act on the state as one word, all at once. */
  lemma {:induction false} FeedWord(crc: bv32, data: seq<bv8>)
    requires |data| <= 4
    ensures FeedAll(crc, data) == Shifts(8 * |data|, Xor(crc, Word(data)))
    decreases |data|
  {
    hide Feed, Xor, Lift, Shift;
    if data == [] {
      Cancel(crc);
    } else {
      var b, rest := data[0], data[1..];
      FeedWord(Feed(crc, b), rest);
      WordFits(rest);
      FeedAhead(crc, b, Word(rest));
      ShiftsAdd(8, 8 * |rest|, Xor(crc, Word(data)));
    }
  }

  lemma {:induction false} ShiftsAdd(m: nat, n: nat, x: bv32)
    ensures Shifts(n, Shifts(m, x)) == Shifts(m + n, x)
  {
    hide Shift;
    if m > 0 { ShiftsAdd(m - 1, n, Shift(x)); }
  }

  lemma {:induction false} FeedAllAppend(crc: bv32, a: seq<bv8>, b: seq<bv8>)
    ensures FeedAll(crc, a + b) == FeedAll(FeedAll(crc, a), b)
    decreases |a|
  {
    hide Feed;
    if a == [] {
      assert a + b == b;
    } else {
      FeedAllAppend(Feed(crc, a[0]), a[1..], b);
      assert (a + b)[1..] == a[1..] + b;
    }
  }

  /**
   Buffers of equal length that agree outside a window of at most four bytes have
   the same checksum only if they are equal: every error burst confined to four
   consecutive bytes is detected.
   */
  lemma BurstDetected(before: seq<bv8>, a: seq<bv8>, b: seq<bv8>, after: seq<bv8>)
    requires |a| == |b| <= 4
    ensures Checksum(before + a + after) == Checksum(before + b + after) <==> a == b
  {
    hide Xor, Feed, Word, Shifts;
    var start: bv32 := 0xFFFF_FFFF;
    if Checksum(before + a + after) == Checksum(before + b + after) {
      XorInjective(FeedAll(start, before + a + after), FeedAll(start, before + b + after), 0xFFFF_FFFF);
      FeedAllAppend(start, before + a, after);
      FeedAllAppend(start, before + b, after);
      FeedAllAppend(start, before, a);
      FeedAllAppend(start, before, b);
      var crc := FeedAll(start, before);
      FeedAllInjective(FeedAll(crc, a), FeedAll(crc, b), after);
      FeedWord(crc, a);
      FeedWord(crc, b);
      ShiftsInjective(8 * |a|, Xor(crc, Word(a)), Xor(crc, Word(b)));
      Swap(crc, Word(a));
      Swap(crc, Word(b));
      XorInjective(Word(a), Word(b), crc);
      WordInjective(a, b);
    }
  }

  // ---------------------------------------------------------------- the residue and the check value

  /** The bytes of a word, low byte first. */
  function BytesOf(w: bv32): seq<bv8> {
    [(w & 0xFF) as bv8, ((w >> 8) & 0xFF) as bv8, ((w >> 16) & 0xFF) as bv8, (w >> 24) as bv8]
  }

  lemma JoinedBytes(w: bv32, a: bv8, b: bv8, c: bv8, d: bv8)
    requires a as bv32 == w & 0xFF && b as bv32 == (w >> 8) & 0xFF && c as bv32 == (w >> 16) & 0xFF && d as bv32 == w >> 24
    ensures (a as bv32) ^ (((b as bv32) ^ (((c as bv32) ^ ((d as bv32) << 8)) << 8)) << 8) == w
  {}

  lemma NoWord(b: bv8)
    ensures Lift(b, 0) == b as bv32
  {}

  lemma WordOfBytes(w: bv32)
    ensures Word(BytesOf(w)) == w
  {
    var s := BytesOf(w);
    var a, b, c, d := s[0], s[1], s[2], s[3];
    JoinedBytes(w, a, b, c, d);
    hide BytesOf;
    assert s[1..][0] == b && s[2..][0] == c && s[3..][0] == d && s[1..][1..] == s[2..] && s[2..][1..] == s[3..];
    assert s[3..][1..] == [];
    NoWord(d);
    LiftRaw(c, Word(s[3..]));
    LiftRaw(b, Word(s[2..]));
    LiftRaw(a, Word(s[1..]));
  }

  lemma EightShifts(x: bv32, y: bv32)
    requires y == Shift8(x)
    ensures Shifts(8, x) == y
  {
    Shifts8(x);
  }

  lemma ShiftedOnes()
    ensures Shifts(32, 0xFFFF_FFFF) == 0xDEBB_20E3
  {
    EightShifts(0xFFFF_FFFF, 0x2DFD_1072);
    EightShifts(0x2DFD_1072, 0xBE26_ED00);
    EightShifts(0xBE26_ED00, 0x00BE_26ED);
    EightShifts(0x00BE_26ED, 0xDEBB_20E3);
    hide Shifts, Shift;
    ShiftsAdd(8, 8, 0xFFFF_FFFF);
    ShiftsAdd(16, 8, 0xFFFF_FFFF);
    ShiftsAdd(24, 8, 0xFFFF_FFFF);
  }

  /** A buffer followed by its own checksum always leaves the residue of RFC 1952's CRC. */
  lemma Residue(data: seq<bv8>)
    ensures FeedAll(0xFFFF_FFFF, data + BytesOf(Checksum(data))) == 0xDEBB_20E3
  {
    hide Xor, Feed, Word, Shifts, BytesOf;
    var ones: bv32 := 0xFFFF_FFFF;
    var crc := FeedAll(ones, data);
    FourBytes(Checksum(data));
    FeedAllAppend(ones, data, BytesOf(Checksum(data)));
    FeedWord(crc, BytesOf(Checksum(data)));
    WordOfBytes(Checksum(data));
    Assoc(crc, crc, ones);
    Cancel(crc);
    Swap(0, ones);
    Cancel(ones);
    ShiftedOnes();
  }

  lemma FourBytes(w: bv32)
    ensures |BytesOf(w)| == 4
  {}

  /** The empty buffer has checksum 0. */
  lemma ChecksumOfNothing()
    ensures Checksum([]) == 0
  {}

  lemma FeedIs(crc: bv32, b: bv8, x: bv32, y: bv32)
    requires x == crc ^ (b as bv32) && y == Shift8(x)
    ensures Feed(crc, b) == y
  {
    Shifts8(x);
  }

  lemma OneTwoThree()
    ensures FeedAll(0xFFFF_FFFF, [0x31, 0x32, 0x33]) == 0x77B7_9C2D
  {
    FeedIs(0xFFFF_FFFF, 0x31, 0xFFFF_FFCE, 0x7C23_1048);
    FeedIs(0x7C23_1048, 0x32, 0x7C23_107A, 0xB0AC_BB32);
    FeedIs(0xB0AC_BB32, 0x33, 0xB0AC_BB01, 0x77B7_9C2D);
    hide Feed;
    var s: seq<bv8> := [0x31, 0x32, 0x33];
    assert s[1..] == [0x32, 0x33] && s[1..][1..] == [0x33] && s[1..][1..][1..] == [];
  }

  lemma FourFiveSix()
    ensures FeedAll(0x77B7_9C2D, [0x34, 0x35, 0x36]) == 0xF68D_2C9E
  {
    FeedIs(0x77B7_9C2D, 0x34, 0x77B7_9C19, 0x641C_1F5C);
    FeedIs(0x641C_1F5C, 0x35, 0x641C_1F69, 0x340A_C5E3);
    FeedIs(0x340A_C5E3, 0x36, 0x340A_C5D5, 0xF68D_2C9E);
    hide Feed;
    var s: seq<bv8> := [0x34, 0x35, 0x36];
    assert s[1..] == [0x35, 0x36] && s[1..][1..] == [0x36] && s[1..][1..][1..] == [];
  }

  lemma SevenEightNine()
    ensures FeedAll(0xF68D_2C9E, [0x37, 0x38, 0x39]) == 0x340B_C6D9
  {
    FeedIs(0xF68D_2C9E, 0x37, 0xF68D_2CA9, 0xAFFC_9660);
    FeedIs(0xAFFC_9660, 0x38, 0xAFFC_9658, 0x651F_2550);
    FeedIs(0x651F_2550, 0x39, 0x651F_2569, 0x340B_C6D9);
    hide Feed;
    var s: seq<bv8> := [0x37, 0x38, 0x39];
    assert s[1..] == [0x38, 0x39] && s[1..][1..] == [0x39] && s[1..][1..][1..] == [];
  }

  /** The check value that RFC 1952 implementations are known by: the checksum of "123456789". */
  lemma CheckValue()
    ensures Checksum([0x31, 0x32, 0x33, 0x34, 0x35, 0x36, 0x37, 0x38, 0x39]) == 0xCBF4_3926
  {
    OneTwoThree();
    FourFiveSix();
    SevenEightNine();
    hide FeedAll;
    var a: seq<bv8>, b: seq<bv8>, c: seq<bv8> := [0x31, 0x32, 0x33], [0x34, 0x35, 0x36], [0x37, 0x38, 0x39];
    var whole: seq<bv8> := [0x31, 0x32, 0x33, 0x34, 0x35, 0x36, 0x37, 0x38, 0x39];
    FeedAllAppend(0xFFFF_FFFF, a, b);
    FeedAllAppend(0xFFFF_FFFF, a + b, c);
    assert whole == a + b + c;
  }
}
