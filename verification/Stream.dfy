/**
 The server's end of a connection: bytes arrive in pieces of any size, and the
 handler loop turns them into requests. A socket is the bytes that will still
 arrive before the peer closes or an error ends the stream.
 */
module Stream {
  import opened Wrappers
  import opened Bytes
  import opened Wire

  /** A request as the handler loop dispatches it. */
  datatype Request = Request(kind: byte, userId: int, payload: seq<byte>, time: int)

  // ---------------------------------------------------------------- what a byte stream means

  function PayloadLength(d: seq<byte>): (n: int)
    requires |d| >= HEADER
    ensures IsWord(n)
  {
    FromBigEndian(d[6..10])
  }

  predicate ValidHeader(d: seq<byte>)
    requires |d| >= HEADER
  {
    FromBigEndian(d[0..4]) == MAGIC && d[4] == VERSION
  }

  function ReadRequest(d: seq<byte>): Request
    requires |d| >= HEADER && |d| >= HEADER + PayloadLength(d)
  {
    Request(d[5], FromBigEndian(d[18..22]), d[HEADER..HEADER + PayloadLength(d)],
            Long(FromBigEndian(d[10..14]), FromBigEndian(d[14..18])))
  }

  /** The requests a stream carries: up to its end, a bad header, a cut payload, or a LOGOUT. */
  function Dispatch(d: seq<byte>): seq<Request>
    decreases |d|
  {
    if |d| < HEADER || !ValidHeader(d) || |d| < HEADER + PayloadLength(d) then []
    else
      [ReadRequest(d)] + if d[5] == LOGOUT then [] else Dispatch(d[HEADER + PayloadLength(d)..])
  }

  // ---------------------------------------------------------------- receiving

  /** `taken` counts the bytes received so far, over the whole life of the connection. */
  class Socket {
    var incoming: seq<byte>
    var taken: nat

    constructor (bytes: seq<byte>)
      ensures incoming == bytes && taken == 0
    {
      incoming, taken := bytes, 0;
    }

    /**
     One `recv`: some positive number of the bytes that are due, or none at the end
     of the stream. The size depends on the place in the stream, which no two calls
     that receive anything share, so every way of cutting the stream is some `sizes`.
     */
    method Recv(limit: nat, sizes: nat -> nat) returns (piece: seq<byte>)
      requires limit > 0
      modifies this
      ensures |piece| <= limit && old(incoming) == piece + incoming && taken == old(taken) + |piece|
      ensures |piece| == Cut(sizes(old(taken)), if limit < |old(incoming)| then limit else |old(incoming)|)
    {
      var most := if limit < |incoming| then limit else |incoming|;
      var n := Cut(sizes(taken), most);
      piece := incoming[..n];
      incoming := incoming[n..];
      taken := taken + n;
    }

    /** `recv_all`: the next `length` bytes whatever the pieces, or None when the stream ends before them. */
    method RecvAll(length: nat, sizes: nat -> nat) returns (r: Option<seq<byte>>)
      modifies this
      ensures |old(incoming)| >= length ==> r == Some(old(incoming)[..length]) && incoming == old(incoming)[length..]
      ensures |old(incoming)| < length ==> r == None
    {
      var got := [];
      while |got| < length
        invariant |got| <= length && old(incoming) == got + incoming
        decreases length - |got|
      {
        var piece := Recv(length - |got|, sizes);
        if piece == [] {
          return None;
        }
        got := got + piece;
      }
      return Some(got);
    }

    /** The head of the loop of `handle_client`: a header, checked, and then its payload. */
    method ReceiveRequest(sizes: nat -> nat) returns (r: Option<Request>)
      modifies this
      ensures r == None ==> Dispatch(old(incoming)) == []
      ensures r.Some? ==>
        && Dispatch(old(incoming)) == [r.value] + (if r.value.kind == LOGOUT then [] else Dispatch(incoming))
        && |incoming| < |old(incoming)|
    {
      hide FromBigEndian, Long;
      ghost var d := incoming;
      var header := RecvAll(HEADER, sizes);
      if header.None? {
        return None;
      }
      var fields := header.value;
      HeaderPrefix(fields, incoming);
      assert d == fields + incoming;
      if !ValidHeader(fields) {
        return None;
      }
      var payload := RecvAll(PayloadLength(fields), sizes);
      if payload.None? {
        return None;
      }
      var request := Request(fields[5], FromBigEndian(fields[18..22]), payload.value,
                             Long(FromBigEndian(fields[10..14]), FromBigEndian(fields[14..18])));
      FirstRequest(d, fields, payload.value, incoming, request);
      return Some(request);
    }

    /** The loop of `handle_client`, up to dispatching: every request of the stream, in order. */
    method Serve(sizes: nat -> nat) returns (requests: seq<Request>)
      modifies this
      ensures requests == Dispatch(old(incoming))
    {
      hide Dispatch;
      requests := [];
      var open := true;
      while open
        invariant requests + (if open then Dispatch(incoming) else []) == Dispatch(old(incoming))
        decreases open, |incoming|
      {
        var next := ReceiveRequest(sizes);
        if next.None? {
          open := false;
        } else {
          requests := requests + [next.value];
          open := next.value.kind != LOGOUT;
        }
      }
    }
  }

  /** A transfer of 1 to most bytes; every size in that range is the cut of some wish. */
  function Cut(wish: nat, most: nat): (n: nat)
    ensures n <= most && (n == 0 <==> most == 0)
    ensures 1 <= wish <= most ==> n == wish
  {
    if most == 0 then 0 else if 1 <= wish <= most then wish else 1 + wish % most
  }

  lemma HeaderPrefix(header: seq<byte>, rest: seq<byte>)
    requires |header| == HEADER
    ensures var d := header + rest;
            && d[0..4] == header[0..4] && d[4] == header[4] && d[5] == header[5] && d[6..10] == header[6..10]
            && d[10..14] == header[10..14] && d[14..18] == header[14..18] && d[18..22] == header[18..22]
  {}

  lemma FirstRequest(d: seq<byte>, header: seq<byte>, payload: seq<byte>, after: seq<byte>, request: Request)
    requires |header| == HEADER && ValidHeader(header) && |payload| == PayloadLength(header)
    requires d == header + (payload + after)
    requires request == Request(header[5], FromBigEndian(header[18..22]), payload,
                                Long(FromBigEndian(header[10..14]), FromBigEndian(header[14..18])))
    ensures Dispatch(d) == [request] + (if request.kind == LOGOUT then [] else Dispatch(after))
  {
    hide FromBigEndian, Long;
    HeaderPrefix(header, payload + after);
    assert d[HEADER..HEADER + |payload|] == payload && d[HEADER + |payload|..] == after;
  }

  // ---------------------------------------------------------------- sending

  class Peer {
    var received: seq<byte>

    constructor ()
      ensures received == []
    {
      received := [];
    }

    /** One `send`: some positive number of the given bytes goes out, depending on the place in the stream. */
    method Send(bytes: seq<byte>, sizes: nat -> nat) returns (sent: nat)
      requires bytes != []
      modifies this
      ensures sent == Cut(sizes(|old(received)|), |bytes|) && received == old(received) + bytes[..sent]
    {
      sent := Cut(sizes(|received|), |bytes|);
      received := received + bytes[..sent];
    }

    /** `sendData` of the client and `send_all` of the server: everything goes out, once and in order. */
    method SendAll(bytes: seq<byte>, sizes: nat -> nat)
      modifies this
      ensures received == old(received) + bytes
    {
      var sent := 0;
      while sent < |bytes|
        invariant sent <= |bytes| && received == old(received) + bytes[..sent]
      {
        var n := Send(bytes[sent..], sizes);
        assert bytes[..sent + n] == bytes[..sent] + bytes[sent..][..n];
        sent := sent + n;
      }
      assert bytes[..|bytes|] == bytes;
    }
  }

  // ---------------------------------------------------------------- end to end

  /** What a client builds: type, user, payload, and the clock when it did. */
  type Message = r: Request | Sendable(r.payload) && IsWord(r.userId) && IsLong(r.time) witness Request(0, 0, [], 0)

  function FrameOf(h: Host, r: Message): seq<byte> {
    ClientFrame(h, r.kind, r.payload, r.userId, r.time)
  }

  function ClientStream(h: Host, rs: seq<Message>): seq<byte> {
    if rs == [] then [] else FrameOf(h, rs[0]) + ClientStream(h, rs[1..])
  }

  function UpToLogout(rs: seq<Request>): seq<Request> {
    if rs == [] then []
    else [rs[0]] + if rs[0].kind == LOGOUT then [] else UpToLogout(rs[1..])
  }

  /** The time the server reads: the client's own from a little-endian host. */
  function ReadTime(h: Host, time: int): int
    requires IsLong(time)
  {
    if h.LittleEndian? then time else SwapHalves(time)
  }

  function AsRead(h: Host, r: Message): Request {
    r.(time := ReadTime(h, r.time))
  }

  function AllAsRead(h: Host, rs: seq<Message>): seq<Request> {
    if rs == [] then [] else [AsRead(h, rs[0])] + AllAsRead(h, rs[1..])
  }

  lemma StampParts(h: Host, time: int)
    requires IsLong(time)
    ensures var stamp := Memory64(h, Htonll(h, time));
            Long(FromBigEndian(stamp[..4]), FromBigEndian(stamp[4..])) == ReadTime(h, time)
  {
    HtonllWrites(h, time);
    var v := ReadTime(h, time);
    var stamp := BigEndian64(v);
    assert stamp[..4] == BigEndian(Hi(v)) && stamp[4..] == BigEndian(Lo(v));
    BigEndianRoundTrip(Hi(v));
    BigEndianRoundTrip(Lo(v));
    LongParts(v);
  }

  lemma OneFrame(h: Host, r: Message, after: seq<byte>)
    ensures Dispatch(FrameOf(h, r) + after) == [AsRead(h, r)] + (if r.kind == LOGOUT then [] else Dispatch(after))
  {
    hide FromBigEndian, BigEndian, Long, Memory64, Htonll, Dispatch, ReadTime;
    var stamp := Memory64(h, Htonll(h, r.time));
    var header := HeaderBytes(r.kind, |r.payload|, stamp, r.userId);
    HeaderFields(r.kind, |r.payload|, stamp, r.userId, []);
    assert header + [] == header;
    assert header[10..14] == header[10..18][..4] && header[14..18] == header[10..18][4..];
    StampParts(h, r.time);
    BigEndianRoundTrip(MAGIC);
    BigEndianRoundTrip(|r.payload|);
    BigEndianRoundTrip(r.userId);
    assert FrameOf(h, r) + after == header + (r.payload + after);
    FirstRequest(FrameOf(h, r) + after, header, r.payload, after, AsRead(h, r));
  }

  /** The server dispatches exactly what the client built, in order, up to the first LOGOUT. */
  lemma {:induction false} EndToEnd(h: Host, rs: seq<Message>)
    ensures Dispatch(ClientStream(h, rs)) == UpToLogout(AllAsRead(h, rs))
  {
    if rs != [] {
      OneFrame(h, rs[0], ClientStream(h, rs[1..]));
      EndToEnd(h, rs[1..]);
    }
  }

  /** The client's side of a session: each message is built and sent in pieces of any size. */
  method SendSession(h: Host, rs: seq<Message>, sizes: nat -> nat) returns (peer: Peer)
    ensures fresh(peer) && peer.received == ClientStream(h, rs)
  {
    hide ClientFrame;
    peer := new Peer();
    for i := 0 to |rs|
      invariant fresh(peer) && peer.received + ClientStream(h, rs[i..]) == ClientStream(h, rs)
    {
      var r := rs[i];
      var frame := CreateMessage(h, r.kind, r.payload, r.userId, r.time);
      peer.SendAll(frame[..], sizes);
      assert rs[i..][0] == r && rs[i..][1..] == rs[i + 1..];
    }
  }

  /** A whole session: any partial sends, then any partial receives. */
  method Session(h: Host, rs: seq<Message>, sends: nat -> nat, receives: nat -> nat) returns (dispatched: seq<Request>)
    ensures dispatched == UpToLogout(AllAsRead(h, rs))
  {
    var peer := SendSession(h, rs, sends);
    var socket := new Socket(peer.received);
    EndToEnd(h, rs);
    dispatched := socket.Serve(receives);
  }

  // ---------------------------------------------------------------- where a connection ends

  lemma ValidIff(d: seq<byte>)
    requires |d| >= 32
    ensures ValidHeader(d) <==> d[0..4] == [0x43, 0x48, 0x41, 0x54] && d[4] == 1
  {
    MagicBytes();
    FromBigEndianRoundTrip(d[0..4]);
    BigEndianRoundTrip(MAGIC);
    hide BigEndian, FromBigEndian;
  }

  /** The server takes nothing from a stream exactly when it starts with too few bytes, a bad header, or a cut payload. */
  lemma NothingDispatchedIff(d: seq<byte>)
    ensures Dispatch(d) == [] <==>
            |d| < 32 || d[0..4] != [0x43, 0x48, 0x41, 0x54] || d[4] != 1 || |d| < 32 + FromBigEndian(d[6..10])
  {
    if |d| >= 32 { ValidIff(d); }
    hide FromBigEndian, ValidHeader;
  }

  /** Type 3 ends the session: nothing behind it is looked at. Any other type does not. */
  lemma LogoutEnds(h: Host, r: Message, after: seq<byte>)
    ensures Dispatch(FrameOf(h, r) + after) == [AsRead(h, r)] + (if r.kind == 3 then [] else Dispatch(after))
  {
    OneFrame(h, r, after);
  }
}
