/**
 The server's base64 encoder. Its loop keeps an `int` accumulator that takes in a
 byte at a time and is never cleared, so on long inputs it overflows; the
 reference is the encoding of section 4 of RFC 4648, three bytes at a time.
 */
module Base64 {
  import opened Wrappers

  /** One character of encoded text: six bits, or the padding sign. */
  datatype Sym = Six(v: bv6) | Pad

  // ---------------------------------------------------------------- the reference

  function A(a: bv8): Sym { Six((a >> 2) as bv6) }
  function AB(a: bv8, b: bv8): Sym { Six((((a & 3) << 4) | (b >> 4)) as bv6) }
  function BC(b: bv8, c: bv8): Sym { Six((((b & 15) << 2) | (c >> 6)) as bv6) }
  function C(c: bv8): Sym { Six((c & 63) as bv6) }

  function Quad(a: bv8, b: bv8, c: bv8): seq<Sym> {
    [A(a), AB(a, b), BC(b, c), C(c)]
  }

  function EncodeBlocks(s: seq<bv8>): seq<Sym> {
    if |s| == 0 then []
    else if |s| == 1 then [A(s[0]), AB(s[0], 0), Pad, Pad]
    else if |s| == 2 then [A(s[0]), AB(s[0], s[1]), BC(s[1], 0), Pad]
    else Quad(s[0], s[1], s[2]) + EncodeBlocks(s[3..])
  }

  /** Whole groups of three before the last group encode independently of it. */
  lemma {:induction false} BlocksAppend(s: seq<bv8>, t: seq<bv8>)
    requires |s| % 3 == 0
    ensures EncodeBlocks(s + t) == EncodeBlocks(s) + EncodeBlocks(t)
  {
    if s == [] {
      assert s + t == t;
    } else {
      assert (s + t)[3..] == s[3..] + t;
      BlocksAppend(s[3..], t);
    }
  }

  /** Four characters for each started group of three bytes. */
  lemma {:induction false} EncodedLength(s: seq<bv8>)
    ensures |EncodeBlocks(s)| == 4 * ((|s| + 2) / 3)
  {
    if |s| >= 3 { EncodedLength(s[3..]); }
  }

  // ---------------------------------------------------------------- the decoder of the RFC

  function First(p: bv6, q: bv6): bv8 { ((p as bv8) << 2) | ((q as bv8) >> 4) }
  function Second(q: bv6, r: bv6): bv8 { ((q as bv8) << 4) | ((r as bv8) >> 2) }
  function Third(r: bv6, t: bv6): bv8 { ((r as bv8) << 6) | (t as bv8) }

  function Decode(t: seq<Sym>): Option<seq<bv8>>
    decreases |t|
  {
    if t == [] then Some([])
    else if |t| < 4 || t[0].Pad? || t[1].Pad? then None
    else if t[2].Pad? then
      if |t| == 4 && t[3].Pad? && t[1].v & 15 == 0 then Some([First(t[0].v, t[1].v)]) else None
    else if t[3].Pad? then
      if |t| == 4 && t[2].v & 3 == 0 then Some([First(t[0].v, t[1].v), Second(t[1].v, t[2].v)]) else None
    else
      match Decode(t[4..])
      case None => None
      case Some(rest) => Some([First(t[0].v, t[1].v), Second(t[1].v, t[2].v), Third(t[2].v, t[3].v)] + rest)
  }

  lemma GroupRoundTrip(a: bv8, b: bv8, c: bv8)
    ensures First(A(a).v, AB(a, b).v) == a
    ensures Second(AB(a, b).v, BC(b, c).v) == b
    ensures Third(BC(b, c).v, C(c).v) == c
    ensures AB(a, 0).v & 15 == 0 && BC(b, 0).v & 3 == 0
  {}

  /** The decoder undoes the encoding, so it is injective. */
  lemma {:induction false} DecodeEncoded(s: seq<bv8>)
    ensures Decode(EncodeBlocks(s)) == Some(s)
  {
    if |s| == 1 {
      GroupRoundTrip(s[0], 0, 0);
      assert s == [s[0]];
    } else if |s| == 2 {
      GroupRoundTrip(s[0], s[1], 0);
      assert s == [s[0], s[1]];
    } else if |s| >= 3 {
      GroupRoundTrip(s[0], s[1], s[2]);
      DecodeEncoded(s[3..]);
      assert EncodeBlocks(s)[4..] == EncodeBlocks(s[3..]);
      assert s == [s[0], s[1], s[2]] + s[3..];
    }
  }

  // ---------------------------------------------------------------- the loop

  /** `(val << 8) + c` in 32 bits. */
  function ShiftIn(val: bv32, c: bv8): bv32 {
    (val << 8) + (c as bv32)
  }

  /** The shift of a signed `int`, which copies the sign bit down. */
  function ShiftRight(val: bv32, k: int): bv32
    requires k == 0 || k == 2 || k == 4 || k == 6
  {
    var sign: bv32 := if val & 0x8000_0000 == 0 then 0 else 0xFFFF_FFFF;
    if k == 0 then val
    else if k == 2 then (val >> 2) | (sign << 30)
    else if k == 4 then (val >> 4) | (sign << 28)
    else (val >> 6) | (sign << 26)
  }

  /** `b64_chars[(val >> k) & 0x3F]`, as a number. */
  function Bits(val: bv32, k: int): Sym
    requires k == 0 || k == 2 || k == 4 || k == 6
  {
    Six((ShiftRight(val, k) & 0x3F) as bv6)
  }

  /** With nothing pending, a byte writes its high six bits. */
  lemma FirstSymbol(val: bv32, c: bv8)
    ensures Bits(ShiftIn(val, c), 2) == A(c) && ShiftIn(val, c) & 3 == (c & 3) as bv32
  {}

  /** With two bits of a pending, a byte writes them and its high four; the rest of the accumulator has no say. */
  lemma SecondSymbol(val: bv32, a: bv8, c: bv8)
    requires val & 3 == (a & 3) as bv32
    ensures Bits(ShiftIn(val, c), 4) == AB(a, c) && ShiftIn(val, c) & 15 == (c & 15) as bv32
    ensures Bits(val << 8, 4) == AB(a, 0)
  {}

  /** With four bits of b pending, a byte writes them and its high two, then its low six. */
  lemma ThirdSymbols(val: bv32, b: bv8, c: bv8)
    requires val & 15 == (b & 15) as bv32
    ensures Bits(ShiftIn(val, c), 6) == BC(b, c) && Bits(ShiftIn(val, c), 0) == C(c)
    ensures Bits(val << 8, 6) == BC(b, 0)
  {}

  /** What the loop has written, and what it holds, after the bytes s. */
  predicate Written(s: seq<bv8>, val: bv32, valb: int, out: seq<Sym>) {
    var n := |s|;
    if n % 3 == 0 then valb == -6 && out == EncodeBlocks(s)
    else if n % 3 == 1 then
      valb == -4 && val & 3 == (s[n - 1] & 3) as bv32 && out == EncodeBlocks(s[..n - 1]) + [A(s[n - 1])]
    else
      && valb == -2 && val & 15 == (s[n - 1] & 15) as bv32
      && out == EncodeBlocks(s[..n - 2]) + [A(s[n - 2]), AB(s[n - 2], s[n - 1])]
  }

  lemma JoinGroup(head: seq<bv8>, a: bv8, b: bv8, c: bv8, out: seq<Sym>, x: Sym, y: Sym)
    requires |head| % 3 == 0 && out == EncodeBlocks(head) + [A(a), AB(a, b)] && x == BC(b, c) && y == C(c)
    ensures out + [x] + [y] == EncodeBlocks(head + [a, b, c])
  {
    BlocksAppend(head, [a, b, c]);
    assert [a, b, c][3..] == [];
    assert EncodeBlocks([a, b, c]) == [A(a), AB(a, b), x, y];
  }

  lemma FromNone(s: seq<bv8>, val: bv32, out: seq<Sym>, c: bv8)
    requires Written(s, val, -6, out)
    ensures Written(s + [c], ShiftIn(val, c), -4, out + [Bits(ShiftIn(val, c), 2)])
  {
    FirstSymbol(val, c);
    assert (s + [c])[..|s|] == s;
  }

  lemma HoldFour(s: seq<bv8>, out: seq<Sym>, c: bv8, v: bv32, x: Sym)
    requires |s| % 3 == 1 && out == EncodeBlocks(s[..|s| - 1]) + [A(s[|s| - 1])]
    requires x == AB(s[|s| - 1], c) && v & 15 == (c & 15) as bv32
    ensures Written(s + [c], v, -2, out + [x])
  {
    assert (s + [c])[..|s| - 1] == s[..|s| - 1];
  }

  lemma FromTwo(s: seq<bv8>, val: bv32, out: seq<Sym>, c: bv8)
    requires Written(s, val, -4, out)
    ensures Written(s + [c], ShiftIn(val, c), -2, out + [Bits(ShiftIn(val, c), 4)])
  {
    assert |s| % 3 == 1;
    SecondSymbol(val, s[|s| - 1], c);
    HoldFour(s, out, c, ShiftIn(val, c), Bits(ShiftIn(val, c), 4));
  }

  lemma FromFour(s: seq<bv8>, val: bv32, out: seq<Sym>, c: bv8)
    requires Written(s, val, -2, out)
    ensures Written(s + [c], ShiftIn(val, c), -6, out + [Bits(ShiftIn(val, c), 6)] + [Bits(ShiftIn(val, c), 0)])
  {
    var n := |s|;
    assert n % 3 == 2;
    ThirdSymbols(val, s[n - 1], c);
    JoinGroup(s[..n - 2], s[n - 2], s[n - 1], c, out, Bits(ShiftIn(val, c), 6), Bits(ShiftIn(val, c), 0));
    assert s + [c] == s[..n - 2] + [s[n - 2], s[n - 1], c];
  }

  /** The inner loop: writes six bits at a time while there are six. */
  method WriteOut(val: bv32, start: int, before: seq<Sym>) returns (valb: int, out: seq<Sym>)
    requires start == 2 || start == 4 || start == 6
    ensures valb == if start == 6 then -6 else start - 6
    ensures start != 6 ==> out == before + [Bits(val, start)]
    ensures start == 6 ==> out == before + [Bits(val, 6)] + [Bits(val, 0)]
  {
    valb, out := start, before;
    while valb >= 0
      invariant valb == start || valb == start - 6 || (start == 6 && valb == -6)
      invariant valb == start ==> out == before
      invariant valb == start - 6 ==> out == before + [Bits(val, start)]
      invariant start == 6 && valb == -6 ==> out == before + [Bits(val, 6)] + [Bits(val, 0)]
    {
      out := out + [Bits(val, valb)];
      valb := valb - 6;
    }
  }

  /** The main loop of `base64_encode`. */
  method Accumulate(s: seq<bv8>) returns (val: bv32, valb: int, out: seq<Sym>)
    ensures (valb == -6 || valb == -4 || valb == -2) && Written(s, val, valb, out)
  {
    out := [];
    val, valb := 0, -6;
    for i := 0 to |s|
      invariant valb == -6 || valb == -4 || valb == -2
      invariant Written(s[..i], val, valb, out)
    {
      assert s[..i + 1] == s[..i] + [s[i]];
      if valb == -6 {
        FromNone(s[..i], val, out, s[i]);
      } else if valb == -4 {
        FromTwo(s[..i], val, out, s[i]);
      } else {
        FromFour(s[..i], val, out, s[i]);
      }
      val := ShiftIn(val, s[i]);
      valb, out := WriteOut(val, valb + 8, out);
    }
    assert s[..|s|] == s;
  }

  /** `base64_encode`, with its 32-bit accumulator, writes the encoding of RFC 4648 for every input. */
  method Base64Encode(s: seq<bv8>) returns (out: seq<Sym>)
    ensures out == EncodeBlocks(s)
  {
    hide EncodeBlocks, Written;
    var val, valb, held := Accumulate(s);
    out := Flush(val, valb, held, s);
    EncodedLength(s);
    out := PadOut(out, EncodeBlocks(s));
  }

  /** The bits still held make one more character. */
  method Flush(val: bv32, valb: int, held: seq<Sym>, ghost s: seq<bv8>) returns (out: seq<Sym>)
    requires (valb == -6 || valb == -4 || valb == -2) && Written(s, val, valb, held)
    ensures out <= EncodeBlocks(s) < out + [Pad, Pad, Pad, Pad]
  {
    hide EncodeBlocks, Bits, Written;
    NothingPending(s, val, valb, held);
    out := held;
    if valb > -6 {
      out := out + [Bits(val << 8, valb + 8)];
      if valb == -4 {
        FlushTwo(s, val, held);
      } else {
        FlushFour(s, val, held);
      }
    }
  }

  /** The last loop: padding up to a multiple of four. */
  method PadOut(text: seq<Sym>, ghost whole: seq<Sym>) returns (out: seq<Sym>)
    requires text <= whole < text + [Pad, Pad, Pad, Pad] && |whole| % 4 == 0
    ensures out == whole
  {
    out := text;
    while |out| % 4 != 0
      invariant |text| <= |out| <= |whole| && out <= whole
      decreases |whole| - |out|
    {
      out := out + [Pad];
    }
  }

  lemma NothingPending(s: seq<bv8>, val: bv32, valb: int, out: seq<Sym>)
    requires (valb == -6 || valb == -4 || valb == -2) && Written(s, val, valb, out)
    ensures valb == -6 ==> out == EncodeBlocks(s)
  {}

  /** The bits held at the end, with a zero byte shifted in, and padding complete the last group. */
  lemma FlushTwo(s: seq<bv8>, val: bv32, out: seq<Sym>)
    requires Written(s, val, -4, out)
    ensures out + [Bits(val << 8, 4)] + [Pad, Pad] == EncodeBlocks(s)
  {
    hide EncodeBlocks, A, AB, Bits, Written;
    HeldTwo(s, val, out);
    var head, a := s[..|s| - 1], s[|s| - 1];
    SecondSymbol(val, a, 0);
    PadOne(head, a, out, Bits(val << 8, 4));
    assert s == head + [a];
  }

  lemma HeldTwo(s: seq<bv8>, val: bv32, out: seq<Sym>)
    requires Written(s, val, -4, out)
    ensures |s| > 0 && |s[..|s| - 1]| % 3 == 0 && val & 3 == (s[|s| - 1] & 3) as bv32
    ensures out == EncodeBlocks(s[..|s| - 1]) + [A(s[|s| - 1])]
  {
    hide EncodeBlocks, A;
  }

  lemma FlushFour(s: seq<bv8>, val: bv32, out: seq<Sym>)
    requires Written(s, val, -2, out)
    ensures out + [Bits(val << 8, 6)] + [Pad] == EncodeBlocks(s)
  {
    hide EncodeBlocks, A, AB, BC, Bits, Written;
    HeldFour(s, val, out);
    var head, a, b := s[..|s| - 2], s[|s| - 2], s[|s| - 1];
    ThirdSymbols(val, b, 0);
    PadTwo(head, a, b, out, Bits(val << 8, 6));
    assert s == head + [a, b];
  }

  lemma HeldFour(s: seq<bv8>, val: bv32, out: seq<Sym>)
    requires Written(s, val, -2, out)
    ensures |s| > 1 && |s[..|s| - 2]| % 3 == 0 && val & 15 == (s[|s| - 1] & 15) as bv32
    ensures out == EncodeBlocks(s[..|s| - 2]) + [A(s[|s| - 2]), AB(s[|s| - 2], s[|s| - 1])]
  {
    hide EncodeBlocks, A, AB;
  }

  lemma PadOne(head: seq<bv8>, a: bv8, out: seq<Sym>, x: Sym)
    requires |head| % 3 == 0 && out == EncodeBlocks(head) + [A(a)] && x == AB(a, 0)
    ensures out + [x] + [Pad, Pad] == EncodeBlocks(head + [a])
  {
    BlocksAppend(head, [a]);
    assert EncodeBlocks([a]) == [A(a), x, Pad, Pad];
  }

  lemma PadTwo(head: seq<bv8>, a: bv8, b: bv8, out: seq<Sym>, x: Sym)
    requires |head| % 3 == 0 && out == EncodeBlocks(head) + [A(a), AB(a, b)] && x == BC(b, 0)
    ensures out + [x] + [Pad] == EncodeBlocks(head + [a, b])
  {
    BlocksAppend(head, [a, b]);
    assert EncodeBlocks([a, b]) == [A(a), AB(a, b), x, Pad];
  }

  // ---------------------------------------------------------------- as text

  /** The base64 alphabet: A-Z, a-z, 0-9, plus and slash. */
  function Letter(x: Sym): (c: char)
    ensures c != ',' && c != '&'
  {
    match x
    case Pad => '='
    case Six(v) =>
      var i := v as int;
      if i < 26 then ('A' as int + i) as char
      else if i < 52 then ('a' as int + (i - 26)) as char
      else if i < 62 then ('0' as int + (i - 52)) as char
      else if i == 62 then '+' else '/'
  }

  function Unletter(c: char): Option<Sym> {
    if c == '=' then Some(Pad)
    else if 'A' <= c <= 'Z' then Some(Six((c as int - 'A' as int) as bv6))
    else if 'a' <= c <= 'z' then Some(Six((c as int - 'a' as int + 26) as bv6))
    else if '0' <= c <= '9' then Some(Six((c as int - '0' as int + 52) as bv6))
    else if c == '+' then Some(Six(62))
    else if c == '/' then Some(Six(63))
    else None
  }

  lemma UnletterLetter(x: Sym)
    ensures Unletter(Letter(x)) == Some(x)
  {
    if x.Six? { SixBack(x.v); }
  }

  lemma SixBack(v: bv6)
    ensures (v as int) as bv6 == v
  {}

  function Render(xs: seq<Sym>): (t: string)
    ensures |t| == |xs| && forall k :: 0 <= k < |t| ==> t[k] == Letter(xs[k])
  {
    seq(|xs|, i requires 0 <= i < |xs| => Letter(xs[i]))
  }

  function Scan(t: string): Option<seq<Sym>> {
    if t == "" then Some([])
    else
      match (Unletter(t[0]), Scan(t[1..]))
      case (Some(x), Some(xs)) => Some([x] + xs)
      case _ => None
  }

  lemma {:induction false} ScanRendered(xs: seq<Sym>)
    ensures Scan(Render(xs)) == Some(xs)
  {
    if xs != [] {
      UnletterLetter(xs[0]);
      ScanRendered(xs[1..]);
      assert Render(xs)[1..] == Render(xs[1..]);
      assert xs == [xs[0]] + xs[1..];
    }
  }

  /** Bytes to text, as the server sends them. */
  function EncodeText(s: seq<bv8>): string {
    Render(EncodeBlocks(s))
  }

  /** Text to bytes, as a standard decoder reads them. */
  function DecodeText(t: string): Option<seq<bv8>> {
    match Scan(t)
    case None => None
    case Some(xs) => Decode(xs)
  }

  /** Encoded text decodes to its bytes, holds no comma or ampersand, and is empty only for no bytes. */
  lemma TextRoundTrip(s: seq<bv8>)
    ensures DecodeText(EncodeText(s)) == Some(s)
    ensures ',' !in EncodeText(s) && '&' !in EncodeText(s)
    ensures |EncodeText(s)| == 4 * ((|s| + 2) / 3)
    ensures EncodeText(s) == "" <==> s == []
  {
    DecodeEncoded(s);
    ScanRendered(EncodeBlocks(s));
    EncodedLength(s);
  }

  // ---------------------------------------------------------------- the alphabet and known answers

  const ALPHABET := "ABCDEFGHIJKLMNOPQRSTUVWXYZ" + "abcdefghijklmnopqrstuvwxyz" + "0123456789+/"

  lemma UpperCase(i: int)
    requires 0 <= i < 26
    ensures "ABCDEFGHIJKLMNOPQRSTUVWXYZ"[i] == ('A' as int + i) as char
  {
    assert i == 0 || i == 1 || i == 2 || i == 3 || i == 4 || i == 5 || i == 6 || i == 7 || i == 8 || i == 9 || i == 10 || i == 11 || i == 12
        || i == 13 || i == 14 || i == 15 || i == 16 || i == 17 || i == 18 || i == 19 || i == 20 || i == 21 || i == 22 || i == 23 || i == 24 || i == 25;
  }

  lemma LowerCase(i: int)
    requires 0 <= i < 26
    ensures "abcdefghijklmnopqrstuvwxyz"[i] == ('a' as int + i) as char
  {
    assert i == 0 || i == 1 || i == 2 || i == 3 || i == 4 || i == 5 || i == 6 || i == 7 || i == 8 || i == 9 || i == 10 || i == 11 || i == 12
        || i == 13 || i == 14 || i == 15 || i == 16 || i == 17 || i == 18 || i == 19 || i == 20 || i == 21 || i == 22 || i == 23 || i == 24 || i == 25;
  }

  lemma DigitsAndSigns(i: int)
    requires 0 <= i < 12
    ensures "0123456789+/"[i] == if i < 10 then ('0' as int + i) as char else if i == 10 then '+' else '/'
  {
    assert i == 0 || i == 1 || i == 2 || i == 3 || i == 4 || i == 5 || i == 6 || i == 7 || i == 8 || i == 9 || i == 10 || i == 11;
  }

  /** The characters are those of the source's table, in its order. */
  lemma AlphabetIs(v: bv6)
    ensures |ALPHABET| == 64 && Letter(Six(v)) == ALPHABET[v as int]
    ensures Letter(Pad) == '='
  {
    var i := v as int;
    if i < 26 {
      UpperCase(i);
    } else if i < 52 {
      LowerCase(i - 26);
    } else {
      DigitsAndSigns(i - 52);
    }
  }

  /** A whole group of three bytes, by the numbers of its four characters. */
  lemma GroupText(a: bv8, b: bv8, c: bv8, w: bv6, x: bv6, y: bv6, z: bv6)
    requires A(a) == Six(w) && AB(a, b) == Six(x) && BC(b, c) == Six(y) && C(c) == Six(z)
    ensures EncodeText([a, b, c]) == [Letter(Six(w)), Letter(Six(x)), Letter(Six(y)), Letter(Six(z))]
  {
    var s: seq<bv8> := [a, b, c];
    assert s[3..] == [];
    assert EncodeBlocks(s) == [Six(w), Six(x), Six(y), Six(z)] + EncodeBlocks([]);
  }

  lemma OneByteText(a: bv8, w: bv6, x: bv6)
    requires A(a) == Six(w) && AB(a, 0) == Six(x)
    ensures EncodeText([a]) == [Letter(Six(w)), Letter(Six(x)), '=', '=']
  {}

  lemma TwoByteText(a: bv8, b: bv8, w: bv6, x: bv6, y: bv6)
    requires A(a) == Six(w) && AB(a, b) == Six(x) && BC(b, 0) == Six(y)
    ensures EncodeText([a, b]) == [Letter(Six(w)), Letter(Six(x)), Letter(Six(y)), '=']
  {}

  lemma TextAppend(s: seq<bv8>, t: seq<bv8>)
    requires |s| % 3 == 0
    ensures EncodeText(s + t) == EncodeText(s) + EncodeText(t)
  {
    hide Letter;
    BlocksAppend(s, t);
  }

  /** The test vectors of section 10 of RFC 4648. */
  lemma TextOfF()
    ensures EncodeText([0x66]) == "Zg=="
  {
    OneByteText(0x66, 25, 32);
    AlphabetIs(25);
    AlphabetIs(32);
  }

  lemma TextOfFo()
    ensures EncodeText([0x66, 0x6f]) == "Zm8="
  {
    TwoByteText(0x66, 0x6f, 25, 38, 60);
    AlphabetIs(25);
    AlphabetIs(38);
    AlphabetIs(60);
  }

  lemma TextOfFoo()
    ensures EncodeText([0x66, 0x6f, 0x6f]) == "Zm9v"
  {
    GroupText(0x66, 0x6f, 0x6f, 25, 38, 61, 47);
    AlphabetIs(25);
    AlphabetIs(38);
    AlphabetIs(61);
    AlphabetIs(47);
  }

  lemma TextOfB()
    ensures EncodeText([0x62]) == "Yg=="
  {
    OneByteText(0x62, 24, 32);
    AlphabetIs(24);
    AlphabetIs(32);
  }

  lemma TextOfBa()
    ensures EncodeText([0x62, 0x61]) == "YmE="
  {
    TwoByteText(0x62, 0x61, 24, 38, 4);
    AlphabetIs(24);
    AlphabetIs(38);
    AlphabetIs(4);
  }

  lemma TextOfBar()
    ensures EncodeText([0x62, 0x61, 0x72]) == "YmFy"
  {
    GroupText(0x62, 0x61, 0x72, 24, 38, 5, 50);
    AlphabetIs(24);
    AlphabetIs(38);
    AlphabetIs(5);
    AlphabetIs(50);
  }

  lemma NoText()
    ensures EncodeText([]) == ""
  {
    assert EncodeBlocks([]) == [];
  }

  lemma TestVectors()
    ensures EncodeText([]) == ""
    ensures EncodeText([0x66, 0x6f, 0x6f, 0x62]) == "Zm9vYg=="
    ensures EncodeText([0x66, 0x6f, 0x6f, 0x62, 0x61]) == "Zm9vYmE="
    ensures EncodeText([0x66, 0x6f, 0x6f, 0x62, 0x61, 0x72]) == "Zm9vYmFy"
  {
    NoText();
    TextOfFoo();
    TextOfB();
    TextOfBa();
    TextOfBar();
    hide EncodeText;
    var foo: seq<bv8>, b: seq<bv8>, ba: seq<bv8>, bar: seq<bv8> := [0x66, 0x6f, 0x6f], [0x62], [0x62, 0x61], [0x62, 0x61, 0x72];
    TextAppend(foo, b);
    TextAppend(foo, ba);
    TextAppend(foo, bar);
    assert foo + b == [0x66, 0x6f, 0x6f, 0x62] && foo + ba == [0x66, 0x6f, 0x6f, 0x62, 0x61]
        && foo + bar == [0x66, 0x6f, 0x6f, 0x62, 0x61, 0x72];
  }

  /** A text with both signs of the alphabet. */
  lemma TextWithBothSigns()
    ensures EncodeText([0xfb, 0xff]) == "+/8="
  {
    TwoByteText(0xfb, 0xff, 62, 63, 60);
    AlphabetIs(62);
    AlphabetIs(63);
    AlphabetIs(60);
  }
}
