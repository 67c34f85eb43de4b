/** Stream sockets as queues of segments, and the loops that send and receive one frame. */
module Sockets {
  import opened Bytes
  import opened Buffers

  /** What one read of at most `max` bytes returns, and what stays queued. Nothing queued reads as 0 bytes. */
  function ReadOnce(queue: seq<seq<byte>>, max: nat): (r: (seq<byte>, seq<seq<byte>>))
    ensures r.0 + Flatten(r.1) == Flatten(queue)
    ensures |r.0| <= max
  {
    if queue == [] then ([], [])
    else if |queue[0]| <= max then (queue[0], queue[1..])
    else
      var r := (queue[0][..max], [queue[0][max..]] + queue[1..]);
      assert r.1[1..] == queue[1..];
      assert Flatten(r.1) == queue[0][max..] + Flatten(queue[1..]);
      r
  }

  /** Bounds the number of reads that can still return data. */
  function Weight(queue: seq<seq<byte>>): nat {
    |Flatten(queue)| + |queue|
  }

  lemma ReadLowersWeight(queue: seq<seq<byte>>, max: nat)
    requires queue != [] && max > 0
    ensures Weight(ReadOnce(queue, max).1) < Weight(queue)
  {
  }

  /** The kernel's side of a connected socket. */
  class Socket {
    var incoming: seq<seq<byte>>  // segments that have arrived
    var outgoing: seq<byte>       // every byte the peer has accepted
    var room: nat                 // how many more bytes the peer accepts
    var writes: nat               // write calls so far
    var isOpen: bool

    constructor (incoming: seq<seq<byte>>, room: nat)
      ensures this.incoming == incoming && this.room == room && outgoing == [] && writes == 0 && isOpen
    {
      this.incoming, this.room, outgoing, writes, isOpen := incoming, room, [], 0, true;
    }

    method Read(chunk: array<byte>, max: nat) returns (len: nat)
      requires max <= chunk.Length
      modifies this`incoming, chunk
      ensures len == |ReadOnce(old(incoming), max).0|
      ensures chunk[..len] == ReadOnce(old(incoming), max).0
      ensures incoming == ReadOnce(old(incoming), max).1
    {
      var (data, rest) := ReadOnce(incoming, max);
      len := |data|;
      forall i | 0 <= i < len {
        chunk[i] := data[i];
      }
      incoming := rest;
    }

    method Write(chunk: array<byte>, len: nat) returns (taken: nat)
      requires len <= chunk.Length
      modifies this`outgoing, this`room, this`writes
      ensures taken == Min(len, old(room)) && room == old(room) - taken
      ensures outgoing == old(outgoing) + chunk[..taken] && writes == old(writes) + 1
    {
      taken := Min(len, room);
      outgoing, room, writes := outgoing + chunk[..taken], room - taken, writes + 1;
    }

    /** Shuts the connection down both ways and closes it. */
    method Close()
      modifies this`isOpen
      ensures !isOpen
    {
      isOpen := false;
    }
  }

  datatype SendResult = Sent | Refused | Short

  /** Moves the next chunk of a buffer to a socket, if there is one. */
  method MoveChunk(sock: Socket, rd: RDONBuffer, chunk: array<byte>) returns (len: nat, taken: nat)
    requires rd.Valid() && chunk.Length == CHUNK && chunk != rd.str
    modifies sock`outgoing, sock`room, sock`writes, rd`pos, chunk
    ensures rd.Valid() && len == Min(CHUNK, |old(rd.Rest())|) && taken == Min(len, old(sock.room))
    ensures rd.Rest() == old(rd.Rest())[len..] && sock.outgoing == old(sock.outgoing) + old(rd.Rest())[..taken]
    ensures sock.room == old(sock.room) - taken && sock.writes == old(sock.writes) + (if len == 0 then 0 else 1)
  {
    len := rd.Read(chunk, CHUNK);
    taken := 0;
    if len != 0 {
      taken := sock.Write(chunk, len);
    }
  }

  /** Drains a buffer in chunks until it is empty or the peer stops accepting. */
  method Drain(sock: Socket, rd: RDONBuffer) returns (r: SendResult)
    requires rd.Valid()
    modifies sock`outgoing, sock`room, sock`writes, rd`pos
    ensures sock.outgoing <= old(sock.outgoing + rd.Rest())
    ensures |sock.outgoing| == |old(sock.outgoing)| + Min(old(sock.room), |old(rd.Rest())|)
    ensures r == DrainResult(old(sock.room), |old(rd.Rest())|)
    ensures r == Sent <==> old(sock.room) >= |old(rd.Rest())|
    ensures r == Refused <==> old(sock.room) < |old(rd.Rest())| && old(sock.room) % 1024 == 0
    ensures r != Sent ==> sock.room == 0
    ensures r == Sent ==> sock.writes == old(sock.writes) + Chunks(|old(rd.Rest())|)
  {
    var chunk := new byte[CHUNK];
    ghost var all, n, sent := sock.outgoing + rd.Rest(), |rd.Rest()|, 0;
    while true
      invariant rd.Valid() && sock.outgoing + rd.Rest() == all
      invariant 0 <= sent && sent + |rd.Rest()| == n
      invariant sent % CHUNK == 0 || rd.Rest() == []
      invariant sent + sock.room == old(sock.room)
      invariant sock.writes == old(sock.writes) + Chunks(sent)
      decreases |rd.Rest()|
    {
      ghost var out, rest := sock.outgoing, rd.Rest();
      var len, taken := MoveChunk(sock, rd, chunk);
      if len == 0 { break; }
      ChunksStep(sent, len, taken);
      SplitRest(out, rest, taken);
      if taken != len {
        r := if taken == 0 then Refused else Short;
        return;
      }
      sent := sent + taken;
    }
    r := Sent;
  }

  lemma SplitRest(out: seq<byte>, rest: seq<byte>, n: nat)
    requires n <= |rest|
    ensures out + rest[..n] + rest[n..] == out + rest && out + rest[..n] <= out + rest
  {
  }

  function DrainResult(room: nat, n: nat): SendResult {
    if room >= n then Sent else if room % CHUNK == 0 then Refused else Short
  }

  lemma ChunksStep(sent: nat, len: nat, taken: nat)
    requires sent % CHUNK == 0 && taken <= len <= CHUNK
    ensures 0 < taken ==> Chunks(sent + taken) == Chunks(sent) + 1
    ensures taken < len ==> ((sent + taken) % CHUNK == 0 <==> taken == 0)
    ensures taken == CHUNK ==> (sent + taken) % CHUNK == 0
  {
    var k := sent / CHUNK;
    assert sent == k * CHUNK;
    if taken < CHUNK {
      DivMod(k, taken);
    } else {
      DivMod(k + 1, 0);
    }
    ChunksOf(k, 0);
    ChunksOf(k, taken);
  }

  lemma DivMod(k: nat, r: nat)
    requires r < CHUNK
    ensures (k * CHUNK + r) / CHUNK == k && (k * CHUNK + r) % CHUNK == r
  {
  }

  lemma ChunksOf(k: nat, r: nat)
    requires r <= CHUNK
    ensures Chunks(k * CHUNK + r) == if r == 0 then k else k + 1
  {
  }

  /**
   * Frames a message and drains it. With room for the frame it is written exactly, in the least possible number
   * of writes; otherwise a prefix is written and the last write tells how it failed.
   */
  method SendFrame(sock: Socket, msg: seq<byte>) returns (r: SendResult)
    requires Sendable(msg)
    modifies sock`outgoing, sock`room, sock`writes
    ensures r == Sent <==> old(sock.room) >= |Frame(msg)|
    ensures r == Refused <==> old(sock.room) < |Frame(msg)| && old(sock.room) % 1024 == 0
    ensures r == Sent ==> sock.outgoing == old(sock.outgoing) + Frame(msg)
    ensures r == Sent ==> sock.writes == old(sock.writes) + (|msg| + 1027) / 1024
    ensures r != Sent ==> sock.room == 0 && sock.outgoing < old(sock.outgoing) + Frame(msg)
  {
    var rd := new RDONBuffer.Sized(msg);
    r := Drain(sock, rd);
  }

  datatype Received = Closed | BadHeader | Message(msg: seq<byte>) | Stuck

  /**
   * The receive loop after the header: it stops only when the byte count is exactly `size`, so a read that
   * runs past it, or a stream that ends before it, leaves the loop spinning for ever.
   */
  function RecvBody(queue: seq<seq<byte>>, size: nat, got: seq<byte>): (Received, seq<seq<byte>>)
    decreases Weight(queue)
  {
    if queue == [] then (Stuck, queue)
    else
      ReadLowersWeight(queue, CHUNK);
      var (chunk, rest) := ReadOnce(queue, CHUNK);
      if |got| + |chunk| > size then (Stuck, rest)
      else if |got| + |chunk| == size then (Message(got + chunk), rest)
      else RecvBody(rest, size, got + chunk)
  }

  function Recv(queue: seq<seq<byte>>): (Received, seq<seq<byte>>) {
    var (head, rest) := ReadOnce(queue, INT_SIZE);
    if head == [] then (Closed, rest)
    else if |head| != INT_SIZE || DecodeInt(head) <= 0 then (BadHeader, rest)
    else RecvBody(rest, DecodeInt(head), [])
  }

  lemma FirstFour(queue: seq<seq<byte>>)
    requires queue != []
    ensures ReadOnce(queue, 4).0 == if |queue[0]| >= 4 then queue[0][..4] else queue[0]
  {
  }

  lemma GoodHeader(queue: seq<seq<byte>>)
    requires |ReadOnce(queue, 4).0| == 4 && DecodeInt(ReadOnce(queue, 4).0) > 0
    ensures Recv(queue).0 != Closed && Recv(queue).0 != BadHeader
  {
    RecvAfterHeader(queue);
    LoopStaysInBody(ReadOnce(queue, 4).1, DecodeInt(ReadOnce(queue, 4).0), []);
  }

  lemma NoGoodHeader(queue: seq<seq<byte>>)
    requires var head := ReadOnce(queue, 4).0; |head| < 4 || DecodeInt(head) <= 0
    ensures Recv(queue) == (if ReadOnce(queue, 4).0 == [] then Closed else BadHeader, ReadOnce(queue, 4).1)
  {
  }

  /** What the header read leads to: the peer has gone exactly when nothing is there, and a header is bad exactly when it
      is too short or announces no bytes. */
  lemma RecvReports(queue: seq<seq<byte>>)
    requires NonEmptySegments(queue)
    ensures Recv(queue).0 == Closed <==> queue == []
    ensures Recv(queue).0 == BadHeader <==>
              queue != [] && (|queue[0]| < 4 || DecodeInt(queue[0][..4]) <= 0)
  {
    if queue == [] {
      NoGoodHeader(queue);
    } else {
      assert queue[0] != [];
      FirstFour(queue);
      if |queue[0]| >= 4 && DecodeInt(queue[0][..4]) > 0 {
        GoodHeader(queue);
      } else {
        NoGoodHeader(queue);
      }
    }
  }

  lemma {:induction false} LoopStaysInBody(queue: seq<seq<byte>>, size: int, got: seq<byte>)
    requires size > 0
    ensures RecvBody(queue, size, got).0 != Closed && RecvBody(queue, size, got).0 != BadHeader
    decreases Weight(queue)
  {
    if queue != [] {
      ReadLowersWeight(queue, CHUNK);
      LoopStaysInBody(ReadOnce(queue, CHUNK).1, size, got + ReadOnce(queue, CHUNK).0);
    }
  }

  /** A body of which the end never comes keeps the loop reading for ever. */
  lemma {:induction false} TruncatedBody(queue: seq<seq<byte>>, size: nat, got: seq<byte>)
    requires |got| + |Flatten(queue)| < size
    ensures RecvBody(queue, size, got) == (Stuck, [])
    decreases Weight(queue)
  {
    if queue != [] {
      ReadLowersWeight(queue, CHUNK);
      var (chunk, rest) := ReadOnce(queue, CHUNK);
      assert |chunk| + |Flatten(rest)| == |Flatten(queue)|;
      TruncatedBody(rest, size, got + chunk);
    }
  }

  /** The server's receive loop, over the growing buffer. */
  method Receive(sock: Socket) returns (r: Received)
    modifies sock`incoming
    ensures (r, sock.incoming) == Recv(old(sock.incoming))
  {
    var wr := new WRONBuffer(1024);
    var chunk := new byte[CHUNK];
    var len := sock.Read(chunk, INT_SIZE);
    if len == 0 { return Closed; }
    if len != INT_SIZE || DecodeInt(chunk[..INT_SIZE]) <= 0 { return BadHeader; }
    var size, curr := DecodeInt(chunk[..INT_SIZE]), 0;
    ghost var queue := sock.incoming;
    while sock.incoming != []
      invariant wr.Valid() && fresh(wr) && fresh(wr.str) && wr.str != chunk && wr.size == 1024
      invariant curr == wr.pos == |wr.Contents()| && curr < size
      invariant RecvBody(queue, size, []) == RecvBody(sock.incoming, size, wr.Contents())
      decreases Weight(sock.incoming)
    {
      ReadLowersWeight(sock.incoming, CHUNK);
      len := sock.Read(chunk, CHUNK);
      if curr + len > size { return Stuck; }
      var _ := wr.Write(chunk, len);
      curr := curr + len;
      if curr == size {
        return Message(wr.str[..wr.pos]);
      }
    }
    r := Stuck;
  }

  datatype ClientReceived = Result(text: seq<byte>) | ReadFail | NeverReturns

  /** The client's receive loop: a missing or bad header is a read failure, end of stream included. */
  method ClientReceive(sock: Socket) returns (r: ClientReceived)
    modifies sock`incoming
    ensures r == match Recv(old(sock.incoming)).0
                 case Message(m) => Result(m)
                 case Stuck => NeverReturns
                 case _ => ReadFail
    ensures sock.incoming == Recv(old(sock.incoming)).1
  {
    var got := Receive(sock);
    r := match got case Message(m) => Result(m) case Stuck => NeverReturns case _ => ReadFail;
  }

  predicate NonEmptySegments(queue: seq<seq<byte>>) {
    forall i | 0 <= i < |queue| :: queue[i] != []
  }

  lemma ReadOncePrefix(queue: seq<seq<byte>>, more: seq<seq<byte>>, max: nat)
    requires queue != []
    ensures ReadOnce(queue + more, max) == (ReadOnce(queue, max).0, ReadOnce(queue, max).1 + more)
  {
    assert (queue + more)[0] == queue[0] && (queue + more)[1..] == queue[1..] + more;
    if |queue[0]| > max {
      assert [queue[0][max..]] + (queue[1..] + more) == [queue[0][max..]] + queue[1..] + more;
    }
  }

  lemma Reassociate(head: seq<byte>, rest: seq<byte>, end: seq<byte>)
    ensures head + (rest + end) == head + rest + end
  {
  }

  /** A body cut anywhere, with its last byte at the end of a segment. */
  lemma {:induction false} RecvBodyConfined(queue: seq<seq<byte>>, more: seq<seq<byte>>, got: seq<byte>, msg: seq<byte>)
    requires NonEmptySegments(queue) && queue != [] && got + Flatten(queue) == msg
    ensures RecvBody(queue + more, |msg|, got) == (Message(msg), more)
    decreases Weight(queue)
  {
    var (chunk, rest) := ReadOnce(queue, CHUNK);
    ReadLowersWeight(queue, CHUNK);
    ReadOncePrefix(queue, more, CHUNK);
    Reassociate(got, chunk, Flatten(rest));
    if rest == [] {
      assert got + chunk == msg && rest + more == more;
    } else {
      assert Flatten(rest) != [] by { assert rest[0] != []; }
      RecvBodyConfined(rest, more, got + chunk, msg);
    }
  }

  /** The first four bytes of a frame decode to the length of what follows. */
  lemma HeaderOf(msg: seq<byte>, head: seq<byte>, tail: seq<byte>)
    requires Sendable(msg) && head + tail == Frame(msg) && |head| == INT_SIZE
    ensures DecodeInt(head) == |msg| && tail == msg
  {
    assert head == Frame(msg)[..INT_SIZE] == EncodeInt(|msg|);
    assert tail == Frame(msg)[INT_SIZE..] == msg;
    DecodeEncode(|msg|);
  }

  lemma HeaderCut(queue: seq<seq<byte>>)
    requires NonEmptySegments(queue) && queue != [] && |queue[0]| >= INT_SIZE
    ensures |ReadOnce(queue, INT_SIZE).0| == INT_SIZE && NonEmptySegments(ReadOnce(queue, INT_SIZE).1)
  {
    var tail := ReadOnce(queue, INT_SIZE).1;
    assert |queue[0]| > INT_SIZE ==> tail[0] == queue[0][INT_SIZE..] && tail[1..] == queue[1..];
  }

  lemma RecvAfterHeader(queue: seq<seq<byte>>)
    requires |ReadOnce(queue, INT_SIZE).0| == INT_SIZE && DecodeInt(ReadOnce(queue, INT_SIZE).0) > 0
    ensures Recv(queue) == RecvBody(ReadOnce(queue, INT_SIZE).1, DecodeInt(ReadOnce(queue, INT_SIZE).0), [])
  {
  }

  /** The header read takes the first four bytes of a segment that has them and leaves the loop with the rest. */
  lemma HeaderRead(queue: seq<seq<byte>>, end: seq<byte>, after: seq<seq<byte>>, msg: seq<byte>)
    requires Sendable(msg) && NonEmptySegments(queue) && queue != [] && |queue[0]| >= INT_SIZE
    requires Flatten(queue) + end == Frame(msg)
    ensures var tail := ReadOnce(queue, INT_SIZE).1;
            && NonEmptySegments(tail) && Flatten(tail) + end == msg
            && Recv(queue + after) == RecvBody(tail + after, |msg|, [])
  {
    var (head, tail) := ReadOnce(queue, INT_SIZE);
    HeaderCut(queue);
    ReadOncePrefix(queue, after, INT_SIZE);
    Reassociate(head, Flatten(tail), end);
    HeaderOf(msg, head, Flatten(tail) + end);
    RecvAfterHeader(queue + after);
  }

  /** However a frame is cut, a receiver whose first segment holds the header and whose segments end with the
      frame gets exactly the message, and nothing of what follows is consumed. */
  lemma RecvFrame(queue: seq<seq<byte>>, more: seq<seq<byte>>, msg: seq<byte>)
    requires Sendable(msg) && NonEmptySegments(queue) && Flatten(queue) == Frame(msg)
    requires |queue[0]| >= INT_SIZE
    ensures Recv(queue + more) == (Message(msg), more)
  {
    var tail := ReadOnce(queue, INT_SIZE).1;
    assert Flatten(queue) + [] == Frame(msg);
    HeaderRead(queue, [], more, msg);
    assert Flatten(tail) + [] == Flatten(tail) && [] + Flatten(tail) == msg;
    RecvBodyConfined(tail, more, [], msg);
  }

  datatype Packet = Packet(msg: seq<byte>, segments: seq<seq<byte>>)

  predicate WellCut(p: Packet) {
    && Sendable(p.msg) && NonEmptySegments(p.segments) && Flatten(p.segments) == Frame(p.msg)
    && |p.segments[0]| >= INT_SIZE
  }

  function Arrivals(packets: seq<Packet>): seq<seq<byte>> {
    if packets == [] then [] else packets[0].segments + Arrivals(packets[1..])
  }

  function Messages(packets: seq<Packet>): seq<Received> {
    if packets == [] then [] else [Message(packets[0].msg)] + Messages(packets[1..])
  }

  /** `n` receives in a row. */
  function RecvMany(queue: seq<seq<byte>>, n: nat): (seq<Received>, seq<seq<byte>>)
    decreases n
  {
    if n == 0 then ([], queue)
    else
      var (r, rest) := Recv(queue);
      var (rs, left) := RecvMany(rest, n - 1);
      ([r] + rs, left)
  }

  /** Repeated receives on a stream of well-cut frames return the original messages, in order. */
  lemma {:induction false} RecvAll(packets: seq<Packet>)
    requires forall i | 0 <= i < |packets| :: WellCut(packets[i])
    ensures RecvMany(Arrivals(packets), |packets|)
         == (Messages(packets), [])
  {
    if packets != [] {
      RecvFrame(packets[0].segments, Arrivals(packets[1..]), packets[0].msg);
      RecvAll(packets[1..]);
    }
  }

  /** What a receiver gets when a segment holds the last `n` bytes of a message and then `extra`. */
  predicate GetsOrSticks(r: (Received, seq<seq<byte>>), n: nat, msg: seq<byte>, left: seq<seq<byte>>) {
    if n % CHUNK == 0 then r == (Message(msg), left) else r.0 == Stuck
  }

  lemma {:induction false} RecvBodyOvershoot(body: seq<byte>, extra: seq<byte>, more: seq<seq<byte>>,
                                             got: seq<byte>, msg: seq<byte>)
    requires body != [] && extra != [] && got + body == msg
    ensures GetsOrSticks(RecvBody([body + extra] + more, |msg|, got), |body|, msg, [extra] + more)
    decreases |body|
  {
    var q := [body + extra];
    ReadOncePrefix(q, more, CHUNK);
    var (chunk, rest) := ReadOnce(q, CHUNK);
    if |body| > CHUNK {
      var tail := body[CHUNK..];
      assert chunk == body[..CHUNK] && body == chunk + tail;
      assert q[0][CHUNK..] == tail + extra;
      assert rest == [tail + extra];
      Reassociate(got, chunk, tail);
      RecvBodyOvershoot(tail, extra, more, got + chunk, msg);
      assert |tail| % CHUNK == |body| % CHUNK;
    } else if |body| == CHUNK {
      assert chunk == body && rest == [extra];
    }
  }

  lemma {:induction false} RecvBodyShared(queue: seq<seq<byte>>, body: seq<byte>, extra: seq<byte>,
                                          more: seq<seq<byte>>, got: seq<byte>, msg: seq<byte>)
    requires NonEmptySegments(queue) && body != [] && extra != [] && got + Flatten(queue) + body == msg
    ensures GetsOrSticks(RecvBody(queue + ([body + extra] + more), |msg|, got), |body|, msg, [extra] + more)
    decreases Weight(queue)
  {
    var after := [body + extra] + more;
    if queue == [] {
      assert queue + after == after && got + Flatten(queue) == got;
      RecvBodyOvershoot(body, extra, more, got, msg);
    } else {
      var (chunk, rest) := ReadOnce(queue, CHUNK);
      ReadLowersWeight(queue, CHUNK);
      ReadOncePrefix(queue, after, CHUNK);
      Reassociate(got, chunk, Flatten(rest));
      RecvBodyShared(rest, body, extra, more, got + chunk, msg);
    }
  }

  /** The bytes of the message, not of its header, that share a segment with the next frame. */
  function SharedPayload(queue: seq<seq<byte>>, body: seq<byte>, msg: seq<byte>): nat {
    if queue == [] then |msg| else |body|
  }

  /**
   * The confinement above is needed: when the next frame arrives in the segment that ends a message, however the
   * message was cut before, the receiver gets it if and only if the part of it in that segment is a multiple of the
   * chunk size, and then leaves the rest of the segment for the next receive. Otherwise it never returns.
   */
  lemma CoalescedFrames(queue: seq<seq<byte>>, body: seq<byte>, extra: seq<byte>, more: seq<seq<byte>>, msg: seq<byte>)
    requires Sendable(msg) && NonEmptySegments(queue) && body != [] && extra != []
    requires Flatten(queue) + body == Frame(msg) && (queue != [] ==> |queue[0]| >= INT_SIZE)
    ensures var r := Recv(queue + ([body + extra] + more));
            if SharedPayload(queue, body, msg) % CHUNK == 0 then r == (Message(msg), [extra] + more) else r.0 == Stuck
  {
    if queue == [] {
      assert body == Frame(msg) && queue + ([body + extra] + more) == [body + extra] + more;
      CoalescedWhole(msg, extra, more);
    } else {
      CoalescedAfterCut(queue, body, extra, more, msg);
    }
  }

  lemma CoalescedAfterCut(queue: seq<seq<byte>>, body: seq<byte>, extra: seq<byte>, more: seq<seq<byte>>,
                          msg: seq<byte>)
    requires Sendable(msg) && NonEmptySegments(queue) && queue != [] && |queue[0]| >= INT_SIZE
    requires body != [] && extra != [] && Flatten(queue) + body == Frame(msg)
    ensures GetsOrSticks(Recv(queue + ([body + extra] + more)), |body|, msg, [extra] + more)
  {
    HeaderRead(queue, body, [body + extra] + more, msg);
    CoalescedTail(ReadOnce(queue, INT_SIZE).1, body, extra, more, msg);
  }

  lemma CoalescedTail(tail: seq<seq<byte>>, body: seq<byte>, extra: seq<byte>, more: seq<seq<byte>>, msg: seq<byte>)
    requires NonEmptySegments(tail) && body != [] && extra != [] && Flatten(tail) + body == msg
    ensures GetsOrSticks(RecvBody(tail + ([body + extra] + more), |msg|, []), |body|, msg, [extra] + more)
  {
    Reassociate([], Flatten(tail), body);
    assert [] + msg == msg;
    RecvBodyShared(tail, body, extra, more, [], msg);
  }

  lemma CoalescedWhole(msg: seq<byte>, extra: seq<byte>, more: seq<seq<byte>>)
    requires Sendable(msg) && extra != []
    ensures GetsOrSticks(Recv([Frame(msg) + extra] + more), |msg|, msg, [extra] + more)
  {
    SharedHeader(msg, extra, more);
    assert [] + msg == msg;
    RecvBodyOvershoot(msg, extra, more, [], msg);
  }

  lemma SharedHeader(msg: seq<byte>, extra: seq<byte>, more: seq<seq<byte>>)
    requires Sendable(msg)
    ensures Recv([Frame(msg) + extra] + more) == RecvBody([msg + extra] + more, |msg|, [])
  {
    var q := [Frame(msg) + extra];
    var (head, rest) := ReadOnce(q, INT_SIZE);
    ReadOncePrefix(q, more, INT_SIZE);
    assert q[0][INT_SIZE..] == msg + extra;
    assert rest == [msg + extra];
    assert head == Frame(msg)[..INT_SIZE];
    HeaderOf(msg, head, msg);
    RecvAfterHeader(q + more);
  }

  /** However a frame is cut into segments that end with it, it is received if and only if its first segment holds the
      whole header; otherwise it is rejected, although every byte of it has arrived. */
  lemma SplitHeader(queue: seq<seq<byte>>, more: seq<seq<byte>>, msg: seq<byte>)
    requires Sendable(msg) && NonEmptySegments(queue) && Flatten(queue) == Frame(msg)
    ensures Recv(queue + more).0 == if |queue[0]| >= INT_SIZE then Message(msg) else BadHeader
  {
    if |queue[0]| >= INT_SIZE {
      RecvFrame(queue, more, msg);
    } else {
      ReadOncePrefix(queue, more, INT_SIZE);
      assert ReadOnce(queue, INT_SIZE).0 == queue[0] && queue[0] != [];
    }
  }
}
