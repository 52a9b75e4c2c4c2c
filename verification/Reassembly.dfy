/** The client's receive loop: bytes arrive in chunks, frames go to the callback. */
module Reassembly {
  import opened Bytes
  import opened Wire
  import opened Stream

  // ---------------------------------------------------------------- what a byte stream splits into

  /** A whole frame stands at the front of b. */
  predicate Complete(b: seq<byte>) {
    |b| >= HEADER && |b| >= HEADER + PayloadLength(b)
  }

  function FrameSize(b: seq<byte>): (n: nat)
    requires |b| >= HEADER
    ensures n >= HEADER
  {
    HEADER + PayloadLength(b)
  }

  function Frames(b: seq<byte>): seq<seq<byte>>
    decreases |b|
  {
    if Complete(b) then [b[..FrameSize(b)]] + Frames(b[FrameSize(b)..]) else []
  }

  function Leftover(b: seq<byte>): seq<byte>
    decreases |b|
  {
    if Complete(b) then Leftover(b[FrameSize(b)..]) else b
  }

  // ---------------------------------------------------------------- the loop

  class Receiver {
    var messageBuffer: seq<byte>
    var delivered: seq<seq<byte>>

    constructor ()
      ensures messageBuffer == [] && delivered == []
    {
      messageBuffer, delivered := [], [];
    }

    /** What the loop does with one received chunk; the callback is called once for each delivered frame. */
    method Receive(chunk: seq<byte>)
      modifies this
      ensures delivered == old(delivered) + Frames(old(messageBuffer) + chunk)
      ensures messageBuffer == Leftover(old(messageBuffer) + chunk)
    {
      messageBuffer := messageBuffer + chunk;
      ghost var start := messageBuffer;
      while |messageBuffer| >= HEADER
        invariant delivered + Frames(messageBuffer) == old(delivered) + Frames(start)
        invariant Leftover(messageBuffer) == Leftover(start)
        decreases |messageBuffer|
      {
        var total := FrameSize(messageBuffer);
        if |messageBuffer| >= total {
          delivered := delivered + [messageBuffer[..total]];
          messageBuffer := messageBuffer[total..];
        } else {
          break;
        }
      }
    }

    /** A whole run of the loop from its start. */
    method ReceiveAll(chunks: seq<seq<byte>>)
      requires messageBuffer == [] && delivered == []
      modifies this
      ensures delivered == Frames(Concat(chunks)) && messageBuffer == Leftover(Concat(chunks))
    {
      for i := 0 to |chunks|
        invariant delivered == RunFrames(chunks[..i]) && messageBuffer == RunLeftover(chunks[..i])
      {
        assert chunks[..i + 1][..i] == chunks[..i];
        Receive(chunks[i]);
      }
      assert chunks[..|chunks|] == chunks;
      ChunkingIrrelevant(chunks);
    }
  }

  function Concat(chunks: seq<seq<byte>>): seq<byte> {
    if chunks == [] then [] else Concat(chunks[..|chunks| - 1]) + chunks[|chunks| - 1]
  }

  // ---------------------------------------------------------------- chunking does not matter

  lemma LengthPrefix(a: seq<byte>, b: seq<byte>)
    requires |a| >= HEADER
    ensures PayloadLength(a + b) == PayloadLength(a)
  {
    assert (a + b)[6..10] == a[6..10];
  }

  /** Bytes that arrive later never change what has been split off already. */
  lemma {:induction false} SplitExtend(a: seq<byte>, b: seq<byte>)
    ensures Frames(a + b) == Frames(a) + Frames(Leftover(a) + b)
    ensures Leftover(a + b) == Leftover(Leftover(a) + b)
    decreases |a|
  {
    hide PayloadLength;
    if Complete(a) {
      LengthPrefix(a, b);
      var n := FrameSize(a);
      assert (a + b)[..n] == a[..n] && (a + b)[n..] == a[n..] + b;
      SplitExtend(a[n..], b);
    } else {
      assert Frames(a) == [] && Leftover(a) == a;
    }
  }

  /** What is left over is never a whole frame. */
  lemma {:induction false} LeftoverDone(b: seq<byte>)
    ensures !Complete(Leftover(b)) && Frames(Leftover(b)) == [] && |Leftover(b)| <= |b|
    decreases |b|
  {
    if Complete(b) { LeftoverDone(b[FrameSize(b)..]); }
  }

  /** Two ways of cutting the same stream deliver the same frames and leave the same bytes. */
  lemma {:induction false} ChunkingIrrelevant(chunks: seq<seq<byte>>)
    ensures RunFrames(chunks) == Frames(Concat(chunks))
    ensures RunLeftover(chunks) == Leftover(Concat(chunks))
  {
    if chunks != [] {
      var n := |chunks| - 1;
      ChunkingIrrelevant(chunks[..n]);
      SplitExtend(Concat(chunks[..n]), chunks[n]);
    }
  }

  /** The loop's state after each chunk in turn. */
  function RunFrames(chunks: seq<seq<byte>>): seq<seq<byte>> {
    if chunks == [] then []
    else
      var init, last := chunks[..|chunks| - 1], chunks[|chunks| - 1];
      RunFrames(init) + Frames(RunLeftover(init) + last)
  }

  function RunLeftover(chunks: seq<seq<byte>>): seq<byte> {
    if chunks == [] then []
    else Leftover(RunLeftover(chunks[..|chunks| - 1]) + chunks[|chunks| - 1])
  }

  // ---------------------------------------------------------------- streams of whole frames

  predicate IsFrame(f: seq<byte>) {
    |f| >= HEADER && |f| == FrameSize(f)
  }

  function Flat(fs: seq<seq<byte>>): seq<byte> {
    if fs == [] then [] else fs[0] + Flat(fs[1..])
  }

  /** A stream of frames followed by an incomplete one splits into exactly those frames. */
  lemma {:induction false} FramesOfFlat(fs: seq<seq<byte>>, tail: seq<byte>)
    requires (forall k :: 0 <= k < |fs| ==> IsFrame(fs[k])) && !Complete(tail)
    ensures Frames(Flat(fs) + tail) == fs && Leftover(Flat(fs) + tail) == tail
  {
    if fs == [] {
      assert Flat(fs) + tail == tail;
    } else {
      var f, rest := fs[0], Flat(fs[1..]) + tail;
      assert IsFrame(f);
      assert Flat(fs) + tail == f + rest;
      LengthPrefix(f, rest);
      assert (f + rest)[..|f|] == f && (f + rest)[|f|..] == rest;
      FramesOfFlat(fs[1..], tail);
    }
  }

  /** Cutting a frame short leaves an incomplete one. */
  lemma StrictPrefixIncomplete(f: seq<byte>, n: nat)
    requires IsFrame(f) && n < |f|
    ensures !Complete(f[..n])
  {
    if n >= HEADER {
      LengthPrefix(f[..n], f[n..]);
      assert f[..n] + f[n..] == f;
    }
  }

  /** A stream of frames cut anywhere: the first m frames and a strict prefix of the next one. */
  lemma {:induction false} Cut(fs: seq<seq<byte>>, n: nat) returns (m: nat, held: seq<byte>)
    requires n <= |Flat(fs)|
    ensures m <= |fs| && Flat(fs)[..n] == Flat(fs[..m]) + held
    ensures if m == |fs| then held == [] else |held| < |fs[m]| && held == fs[m][..|held|]
  {
    if fs == [] {
      m, held := 0, [];
    } else if n < |fs[0]| {
      m, held := 0, fs[0][..n];
    } else {
      m, held := Cut(fs[1..], n - |fs[0]|);
      assert Flat(fs)[..n] == fs[0] + Flat(fs[1..])[..n - |fs[0]|];
      assert fs[..m + 1][1..] == fs[1..][..m];
      m := m + 1;
    }
  }

  /**
   Part-way through a stream of frames, the frames delivered are the first m of
   them and the bytes held back are a strict prefix of the next one.
   */
  lemma PartWay(fs: seq<seq<byte>>, n: nat) returns (m: nat, held: seq<byte>)
    requires (forall k :: 0 <= k < |fs| ==> IsFrame(fs[k])) && n <= |Flat(fs)|
    ensures m <= |fs| && Frames(Flat(fs)[..n]) == fs[..m] && Leftover(Flat(fs)[..n]) == held
    ensures if m == |fs| then held == [] else |held| < |fs[m]| && held == fs[m][..|held|]
  {
    m, held := Cut(fs, n);
    if m < |fs| {
      assert IsFrame(fs[m]);
      StrictPrefixIncomplete(fs[m], |held|);
    }
    FramesOfFlat(fs[..m], held);
  }

  /** The message the client sees in a frame sent by the server. */
  function Seen(h: Host, r: Message): Parsed {
    Accepted(Header(r.kind, |r.payload|, if h.LittleEndian? then SwapHalves(r.time) else r.time, r.userId, 0), r.payload)
  }

  function Sent(r: Message): seq<byte> {
    ServerFrame(r.kind, r.payload, r.userId, r.time)
  }

  function AllSent(rs: seq<Message>): (fs: seq<seq<byte>>)
    ensures |fs| == |rs| && forall k :: 0 <= k < |rs| ==> fs[k] == Sent(rs[k])
  {
    if rs == [] then [] else [Sent(rs[0])] + AllSent(rs[1..])
  }

  lemma SentIsFrame(r: Message)
    ensures IsFrame(Sent(r))
  {
    hide FromBigEndian, BigEndian;
    HeaderFields(r.kind, |r.payload|, BigEndian64(r.time), r.userId, r.payload);
    BigEndianRoundTrip(|r.payload|);
  }

  /** Whatever the chunks, the client parses exactly the messages the server sent, in order. */
  lemma ServerToClient(h: Host, rs: seq<Message>, chunks: seq<seq<byte>>, k: nat)
    requires Concat(chunks) == Flat(AllSent(rs)) && k < |rs|
    ensures |RunFrames(chunks)| == |rs| && RunLeftover(chunks) == []
    ensures ParseMessage(h, RunFrames(chunks)[k]) == Seen(h, rs[k])
  {
    var fs := AllSent(rs);
    forall i | 0 <= i < |fs| ensures IsFrame(fs[i]) { SentIsFrame(rs[i]); }
    FramesOfFlat(fs, []);
    assert Flat(fs) + [] == Flat(fs);
    ChunkingIrrelevant(chunks);
    var r := rs[k];
    ClientReadsServer(h, r.kind, r.payload, r.userId, r.time);
  }
}
