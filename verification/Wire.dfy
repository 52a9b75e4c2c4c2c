/**
 The 32-byte message header: how the client writes and reads it, on a host of
 either byte order, and how the server does.
 */
module Wire {
  import opened Bytes

  const MAGIC := 0x4348_4154
  const VERSION: byte := 1
  const HEADER := 32
  const LOGOUT: byte := 3

  // ---------------------------------------------------------------- numbers in memory

  datatype Host = LittleEndian | BigEndianHost

  function Reverse4(b: seq<byte>): (r: seq<byte>)
    requires |b| == 4
    ensures |r| == 4
  {
    [b[3], b[2], b[1], b[0]]
  }

  /** What `memcpy` of a 32-bit number copies. */
  function Memory(h: Host, n: int): (r: seq<byte>)
    requires IsWord(n)
    ensures |r| == 4
  {
    if h.LittleEndian? then Reverse4(BigEndian(n)) else BigEndian(n)
  }

  function FromMemory(h: Host, b: seq<byte>): (n: int)
    requires |b| == 4
    ensures IsWord(n)
  {
    if h.LittleEndian? then FromBigEndian(Reverse4(b)) else FromBigEndian(b)
  }

  function Htonl(h: Host, n: int): (r: int)
    requires IsWord(n)
    ensures IsWord(r)
  {
    FromMemory(h, BigEndian(n))
  }

  function Ntohl(h: Host, n: int): (r: int)
    requires IsWord(n)
    ensures IsWord(r)
  {
    FromBigEndian(Memory(h, n))
  }

  lemma MemoryRoundTrip(h: Host, b: seq<byte>)
    requires |b| == 4
    ensures Memory(h, FromMemory(h, b)) == b
  {
    FromBigEndianRoundTrip(b);
    FromBigEndianRoundTrip(Reverse4(b));
    assert Reverse4(Reverse4(b)) == b;
  }

  lemma HtonlWrites(h: Host, n: int)
    requires IsWord(n)
    ensures Memory(h, Htonl(h, n)) == BigEndian(n)
    ensures Ntohl(h, Htonl(h, n)) == n
  {
    MemoryRoundTrip(h, BigEndian(n));
    BigEndianRoundTrip(n);
  }

  // ---------------------------------------------------------------- 64-bit numbers

  function Memory64(h: Host, v: int): (r: seq<byte>)
    requires IsLong(v)
    ensures |r| == 8
  {
    if h.LittleEndian? then Memory(h, Lo(v)) + Memory(h, Hi(v)) else Memory(h, Hi(v)) + Memory(h, Lo(v))
  }

  function FromMemory64(h: Host, b: seq<byte>): (v: int)
    requires |b| == 8
    ensures IsLong(v)
  {
    if h.LittleEndian? then Long(FromMemory(h, b[4..]), FromMemory(h, b[..4]))
    else Long(FromMemory(h, b[..4]), FromMemory(h, b[4..]))
  }

  /** The client's `htonll`. */
  function Htonll(h: Host, v: int): (r: int)
    requires IsLong(v)
    ensures IsLong(r)
  {
    Long(Htonl(h, Lo(v)), Htonl(h, Hi(v)))
  }

  /** The client's `ntohll`. */
  function Ntohll(h: Host, v: int): (r: int)
    requires IsLong(v)
    ensures IsLong(r)
  {
    Long(Ntohl(h, Hi(v)), Ntohl(h, Lo(v)))
  }

  function SwapHalves(v: int): (r: int)
    requires IsLong(v)
    ensures IsLong(r)
  {
    Long(Lo(v), Hi(v))
  }

  /** On every host `ntohll` undoes `htonll` up to exchanging the halves, so it undoes it only if they are equal. */
  lemma NtohllHtonll(h: Host, v: int)
    requires IsLong(v)
    ensures Ntohll(h, Htonll(h, v)) == SwapHalves(v)
    ensures Ntohll(h, Htonll(h, v)) == v <==> Hi(v) == Lo(v)
  {
    HtonlWrites(h, Hi(v));
    HtonlWrites(h, Lo(v));
    LongParts(v);
  }

  /** What the client puts on the wire: big-endian from a little-endian host, halves exchanged from a big-endian one. */
  lemma HtonllWrites(h: Host, v: int)
    requires IsLong(v)
    ensures Memory64(h, Htonll(h, v)) == BigEndian64(if h.LittleEndian? then v else SwapHalves(v))
  {
    HtonlWrites(h, Hi(v));
    HtonlWrites(h, Lo(v));
  }

  /** What the client makes of eight big-endian bytes. */
  lemma NtohllReads(h: Host, v: int)
    requires IsLong(v)
    ensures Ntohll(h, FromMemory64(h, BigEndian64(v))) == if h.LittleEndian? then SwapHalves(v) else v
  {
    var b := BigEndian64(v);
    assert b[..4] == BigEndian(Hi(v)) && b[4..] == BigEndian(Lo(v));
    MemoryRoundTrip(h, BigEndian(Hi(v)));
    MemoryRoundTrip(h, BigEndian(Lo(v)));
    BigEndianRoundTrip(Hi(v));
    BigEndianRoundTrip(Lo(v));
    LongParts(v);
  }

  // ---------------------------------------------------------------- frames

  /** A header as bytes: the timestamp field is given as it stands on the wire. */
  function HeaderBytes(kind: byte, length: int, stamp: seq<byte>, userId: int): (r: seq<byte>)
    requires IsWord(length) && IsWord(userId) && |stamp| == 8
    ensures |r| == HEADER
  {
    BigEndian(MAGIC) + [VERSION, kind] + BigEndian(length) + stamp + BigEndian(userId) + [0, 0, 0, 0] + [0, 0, 0, 0, 0, 0]
  }

  predicate Sendable(payload: seq<byte>) {
    |payload| < POW32 - HEADER
  }

  /** What `createMessage` builds. */
  function ClientFrame(h: Host, kind: byte, payload: seq<byte>, userId: int, time: int): seq<byte>
    requires Sendable(payload) && IsWord(userId) && IsLong(time)
  {
    HeaderBytes(kind, |payload|, Memory64(h, Htonll(h, time)), userId) + payload
  }

  /** What `send_message` sends. */
  function ServerFrame(kind: byte, payload: seq<byte>, userId: int, time: int): seq<byte>
    requires Sendable(payload) && IsWord(userId) && IsLong(time)
  {
    HeaderBytes(kind, |payload|, BigEndian64(time), userId) + payload
  }

  /** The fields of a header that both readers pick out by position. */
  lemma HeaderFields(kind: byte, length: int, stamp: seq<byte>, userId: int, rest: seq<byte>)
    requires IsWord(length) && IsWord(userId) && |stamp| == 8
    ensures var d := HeaderBytes(kind, length, stamp, userId) + rest;
            && d[0..4] == BigEndian(MAGIC) && d[4] == VERSION && d[5] == kind && d[6..10] == BigEndian(length)
            && d[10..18] == stamp && d[18..22] == BigEndian(userId) && d[22..26] == [0, 0, 0, 0] && d[32..] == rest
  {}

  // ---------------------------------------------------------------- the client's parser

  datatype Header = Header(kind: byte, length: int, timestamp: int, userId: int, checksum: int)

  /** Unspecified stands for a read past the end of the buffer, which the source does not define. */
  datatype Parsed = Rejected | Accepted(header: Header, payload: seq<byte>) | Unspecified

  /** `parseMessage`; its length comparison is made in 32 bits. */
  function ParseMessage(h: Host, d: seq<byte>): Parsed {
    if |d| < HEADER then Rejected
    else
      var magic := Ntohl(h, FromMemory(h, d[0..4]));
      var length := Ntohl(h, FromMemory(h, d[6..10]));
      if magic != MAGIC || d[4] != VERSION || |d| < (HEADER + length) % POW32 then Rejected
      else if |d| < HEADER + length then Unspecified
      else
        Accepted(Header(d[5], length, Ntohll(h, FromMemory64(h, d[10..18])),
                        Ntohl(h, FromMemory(h, d[18..22])), Ntohl(h, FromMemory(h, d[22..26]))),
                 d[HEADER..HEADER + length])
  }

  lemma ReadsBack(h: Host, n: int)
    requires IsWord(n)
    ensures Ntohl(h, FromMemory(h, BigEndian(n))) == n
  {
    MemoryRoundTrip(h, BigEndian(n));
    BigEndianRoundTrip(n);
  }

  lemma BigEndianZero()
    ensures BigEndian(0) == [0, 0, 0, 0]
  {}

  lemma ParseFrame(h: Host, kind: byte, payload: seq<byte>, stamp: seq<byte>, userId: int)
    requires Sendable(payload) && IsWord(userId) && |stamp| == 8
    ensures ParseMessage(h, HeaderBytes(kind, |payload|, stamp, userId) + payload)
         == Accepted(Header(kind, |payload|, Ntohll(h, FromMemory64(h, stamp)), userId, 0), payload)
  {
    hide Ntohl, FromMemory, BigEndian, HeaderBytes, Ntohll, FromMemory64;
    var d := HeaderBytes(kind, |payload|, stamp, userId) + payload;
    HeaderFields(kind, |payload|, stamp, userId, payload);
    ReadsBack(h, MAGIC);
    ReadsBack(h, |payload|);
    ReadsBack(h, userId);
    ReadsBack(h, 0);
    BigEndianZero();
    assert d[HEADER..HEADER + |payload|] == payload;
  }

  lemma FromMemory64RoundTrip(h: Host, v: int)
    requires IsLong(v)
    ensures FromMemory64(h, Memory64(h, v)) == v
  {
    var b := Memory64(h, v);
    assert b == b[..4] + b[4..];
    FromMemoryRoundTrip(h, Hi(v));
    FromMemoryRoundTrip(h, Lo(v));
    LongParts(v);
  }

  lemma FromMemoryRoundTrip(h: Host, n: int)
    requires IsWord(n)
    ensures FromMemory(h, Memory(h, n)) == n
  {
    BigEndianRoundTrip(n);
    assert Reverse4(Reverse4(BigEndian(n))) == BigEndian(n);
  }

  /** The client reads back every field of its own frames except the timestamp, whose halves are exchanged. */
  lemma ClientRoundTrip(h: Host, kind: byte, payload: seq<byte>, userId: int, time: int)
    requires Sendable(payload) && IsWord(userId) && IsLong(time)
    ensures ParseMessage(h, ClientFrame(h, kind, payload, userId, time))
         == Accepted(Header(kind, |payload|, SwapHalves(time), userId, 0), payload)
  {
    ParseFrame(h, kind, payload, Memory64(h, Htonll(h, time)), userId);
    FromMemory64RoundTrip(h, Htonll(h, time));
    NtohllHtonll(h, time);
  }

  /** The client reads the server's frames with the timestamp exact on a big-endian host and exchanged on a little-endian one. */
  lemma ClientReadsServer(h: Host, kind: byte, payload: seq<byte>, userId: int, time: int)
    requires Sendable(payload) && IsWord(userId) && IsLong(time)
    ensures ParseMessage(h, ServerFrame(kind, payload, userId, time))
         == Accepted(Header(kind, |payload|, if h.LittleEndian? then SwapHalves(time) else time, userId, 0), payload)
  {
    ParseFrame(h, kind, payload, BigEndian64(time), userId);
    NtohllReads(h, time);
  }

  // ---------------------------------------------------------------- the client's writer

  /** Copies bytes to the write position of a buffer that is zero from there on. */
  method Store(buffer: array<byte>, ghost done: seq<byte>, at: nat, bytes: seq<byte>) returns (next: nat)
    requires at == |done| && at + |bytes| <= buffer.Length
    requires buffer[..] == done + Zeros(buffer.Length - at)
    modifies buffer
    ensures next == at + |bytes| && buffer[..] == done + bytes + Zeros(buffer.Length - next)
  {
    for i := 0 to |bytes|
      invariant buffer[..] == done + bytes[..i] + Zeros(buffer.Length - at - i)
    {
      buffer[at + i] := bytes[i];
    }
    assert bytes[..|bytes|] == bytes;
    next := at + |bytes|;
  }

  /** `createMessage`: a zeroed buffer, filled field by field at a moving position. */
  method CreateMessage(h: Host, kind: byte, payload: seq<byte>, userId: int, time: int) returns (message: array<byte>)
    requires Sendable(payload) && IsWord(userId) && IsLong(time)
    ensures fresh(message) && message[..] == ClientFrame(h, kind, payload, userId, time)
  {
    hide Memory, Htonl, Memory64, Htonll, BigEndian;
    message := new byte[HEADER + |payload|](_ => 0);
    var magic, length, uid := Memory(h, Htonl(h, MAGIC)), Memory(h, Htonl(h, |payload|)), Memory(h, Htonl(h, userId));
    var stamp := Memory64(h, Htonll(h, time));
    HtonlWrites(h, MAGIC);
    HtonlWrites(h, |payload|);
    HtonlWrites(h, userId);
    var ptr := Store(message, [], 0, magic);
    ptr := Store(message, magic, ptr, [VERSION, kind]);
    ptr := Store(message, magic + [VERSION, kind], ptr, length);
    ptr := Store(message, magic + [VERSION, kind] + length, ptr, stamp);
    ptr := Store(message, magic + [VERSION, kind] + length + stamp, ptr, uid);
    ptr := Store(message, magic + [VERSION, kind] + length + stamp + uid, ptr, [0, 0, 0, 0]);
    ghost var head := magic + [VERSION, kind] + length + stamp + uid + [0, 0, 0, 0] + [0, 0, 0, 0, 0, 0];
    assert head == HeaderBytes(kind, |payload|, stamp, userId);
    assert message[..] == head + Zeros(message.Length - HEADER);
    ptr := Store(message, head, HEADER, payload);
    assert message[..] == head + payload;
  }

  /** The server's `write_header`: clears the array, then copies each field to its position. */
  method WriteHeader(h: Host, out: array<byte>, kind: byte, length: int, userId: int, time: int)
    requires out.Length == HEADER && IsWord(length) && IsWord(userId) && IsLong(time)
    modifies out
    ensures out[..] == HeaderBytes(kind, length, BigEndian64(time), userId)
  {
    hide Memory, Htonl, BigEndian, Hi, Lo;
    Clear(out);
    HtonlWrites(h, MAGIC);
    HtonlWrites(h, length);
    HtonlWrites(h, Hi(time));
    HtonlWrites(h, Lo(time));
    HtonlWrites(h, userId);
    var magic, size, uid := Memory(h, Htonl(h, MAGIC)), Memory(h, Htonl(h, length)), Memory(h, Htonl(h, userId));
    var high, low := Memory(h, Htonl(h, Hi(time))), Memory(h, Htonl(h, Lo(time)));
    var next := Store(out, [], 0, magic);
    next := Store(out, magic, 4, [VERSION, kind]);
    ghost var done := magic + [VERSION, kind];
    next := Store(out, done, 6, size);
    done := done + size;
    next := Store(out, done, 10, high);
    next := Store(out, done + high, 14, low);
    done := done + (high + low);
    assert out[..] == done + Zeros(14);
    next := Store(out, done, 18, uid);
    done := done + uid;
    next := Store(out, done, 22, [0, 0, 0, 0]);
    assert out[..] == done + [0, 0, 0, 0] + [0, 0, 0, 0, 0, 0];
  }

  method Clear(out: array<byte>)
    modifies out
    ensures out[..] == [] + Zeros(out.Length)
  {
    for i := 0 to out.Length
      invariant forall k :: 0 <= k < i ==> out[k] == 0
    {
      out[i] := 0;
    }
  }

  // ---------------------------------------------------------------- the layout in numbers

  lemma MagicBytes()
    ensures BigEndian(MAGIC) == [0x43, 0x48, 0x41, 0x54]
  {}

  lemma SmallNumbers(n: int)
    requires 0 <= n < 256
    ensures BigEndian(n) == [0, 0, 0, n]
  {}

  /** A frame byte by byte: "CHAT", version, type, length, time, user, checksum, padding, payload. */
  lemma FrameExample(kind: byte, user: byte, time: byte, a: byte, b: byte)
    ensures ServerFrame(kind, [a, b], user, time)
         == [0x43, 0x48, 0x41, 0x54, 1, kind, 0, 0, 0, 2, 0, 0, 0, 0, 0, 0, 0, time, 0, 0, 0, user, 0, 0, 0, 0, 0, 0, 0, 0, 0, 0, a, b]
  {
    MagicBytes();
    SmallNumbers(2);
    SmallNumbers(user);
    SmallNumbers(time);
    SmallNumbers(0);
    assert Hi(time) == 0 && Lo(time) == time;
    hide BigEndian, Hi, Lo;
    assert BigEndian64(time) == [0, 0, 0, 0, 0, 0, 0, time];
    hide BigEndian64;
  }

  lemma ReadsMagic(h: Host, b: seq<byte>)
    requires |b| == 4
    ensures Ntohl(h, FromMemory(h, b)) == MAGIC <==> b == [0x43, 0x48, 0x41, 0x54]
  {
    MagicBytes();
    MemoryRoundTrip(h, b);
    FromBigEndianRoundTrip(b);
    BigEndianRoundTrip(MAGIC);
    hide Memory, FromMemory, BigEndian, FromBigEndian;
  }

  lemma ReadsNumber(h: Host, b: seq<byte>)
    requires |b| == 4
    ensures Ntohl(h, FromMemory(h, b)) == FromBigEndian(b)
  {
    MemoryRoundTrip(h, b);
  }

  /** The client refuses exactly what is too short, not "CHAT", not version 1, or shorter than its length field says in 32 bits. */
  lemma RejectedIff(h: Host, d: seq<byte>)
    ensures ParseMessage(h, d) == Rejected <==>
            || |d| < 32 || d[0..4] != [0x43, 0x48, 0x41, 0x54] || d[4] != 1
            || |d| < (32 + FromBigEndian(d[6..10])) % 0x1_0000_0000
  {
    if |d| >= 32 {
      ReadsMagic(h, d[0..4]);
      ReadsNumber(h, d[6..10]);
      hide Ntohl, FromMemory, FromBigEndian, Ntohll, FromMemory64;
    }
  }
}
