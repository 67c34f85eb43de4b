/** One connection of the poll server: what its operations do to it, and the class that does it. */
module Channels {
  import opened Bytes
  import opened Buffers
  import opened Sockets
  import opened Polling
  import opened Wrappers

  datatype Status = BROKEN | CLOSED | READ_PENDING | READ_READY | WRITE_PENDING | WRITE_READY

  /** A message being assembled: the announced size and what has arrived. */
  datatype Inbox = Inbox(size: nat, data: seq<byte>)

  /** The state of a channel. `outbox` is what a response still has to write; `sendHeld` is the send mutex. */
  datatype Chan = Chan(inbox: Option<Inbox>, outbox: Option<seq<byte>>, busy: bool, alive: bool, sendHeld: bool)

  const NEW_CHAN := Chan(None, None, false, true, false)

  /** The read callback, given what its two socket reads returned. */
  function OnRead(c: Chan, head: seq<byte>, chunk: seq<byte>): (Status, Chan) {
    if c.inbox.None? then
      if head == [] then (CLOSED, c)
      else if |head| != INT_SIZE || DecodeInt(head) <= 0 then (BROKEN, c.(busy := true))
      else Store(c, Inbox(DecodeInt(head), []), chunk)
    else Store(c, c.inbox.value, chunk)
  }

  /** The sized buffer takes what fits and the rest of the chunk is lost. */
  function Store(c: Chan, box: Inbox, chunk: seq<byte>): (Status, Chan) {
    var room := box.size - |box.data|;
    var data := box.data + chunk[..if room < 0 then 0 else Min(room, |chunk|)];
    var c' := c.(inbox := Some(Inbox(box.size, data)));
    if |data| == box.size then (READ_READY, c'.(busy := true)) else (READ_PENDING, c')
  }

  /** The write callback and the bytes it puts on the socket. The last chunk releases the send mutex. */
  function OnWrite(c: Chan): (Status, Chan, seq<byte>) {
    if c.outbox.None? then (WRITE_PENDING, c, [])
    else
      var n := Min(CHUNK, |c.outbox.value|);
      var c' := c.(outbox := Some(c.outbox.value[n..]));
      if c'.outbox.value == [] then (WRITE_READY, c'.(sendHeld := false), c.outbox.value[..n])
      else (WRITE_PENDING, c', c.outbox.value[..n])
  }

  /** Starting a response: the new state, the bytes written at once, and whether the rest needs a write watch. */
  function OnSend(c: Chan, msg: seq<byte>): (Chan, seq<byte>, bool)
    requires !c.sendHeld && Sendable(msg)
  {
    if !c.alive then (c, [], false)
    else
      var (status, c', sent) := OnWrite(c.(outbox := Some(Frame(msg)), sendHeld := true));
      (c', sent, status != WRITE_READY)
  }

  function OnClose(c: Chan): Chan
    requires !c.sendHeld
  {
    c.(alive := false)
  }

  function OnClear(c: Chan): Chan {
    c.(inbox := None, busy := false)
  }

  function Assembled(c: Chan): seq<byte> {
    if c.inbox.None? then [] else c.inbox.value.data
  }

  /** A read on a queue of segments: the header read happens only when no message is being assembled. */
  function ReadFrom(c: Chan, queue: seq<seq<byte>>): (Status, Chan, seq<seq<byte>>) {
    var (head, afterHead) := if c.inbox.None? then ReadOnce(queue, INT_SIZE) else ([], queue);
    if c.inbox.None? && (|head| != INT_SIZE || DecodeInt(head) <= 0) then
      var (status, c') := OnRead(c, head, []);
      (status, c', afterHead)
    else
      var (chunk, rest) := ReadOnce(afterHead, CHUNK);
      var (status, c') := OnRead(c, head, chunk);
      (status, c', rest)
  }

  /** The read callback, called for as long as bytes are queued and the channel is not busy. */
  function ReadRun(c: Chan, queue: seq<seq<byte>>): (seq<Status>, Chan, seq<seq<byte>>)
    decreases Weight(queue)
  {
    if queue == [] || c.busy then ([], c, queue)
    else
      var (status, c', rest) := ReadFrom(c, queue);
      ReadFromLowersWeight(c, queue);
      var (statuses, final, left) := ReadRun(c', rest);
      ([status] + statuses, final, left)
  }

  lemma ReadFromLowersWeight(c: Chan, queue: seq<seq<byte>>)
    requires queue != []
    ensures Weight(ReadFrom(c, queue).2) < Weight(queue)
  {
    ReadLowersWeight(queue, CHUNK);
    ReadLowersWeight(queue, INT_SIZE);
    var afterHead := ReadOnce(queue, INT_SIZE).1;
    if afterHead != [] {
      ReadLowersWeight(afterHead, CHUNK);
    }
  }

  /** Storing the next part of a message: ready exactly when the last byte is in. */
  lemma StorePart(c: Chan, msg: seq<byte>, k: nat, chunk: seq<byte>)
    requires k + |chunk| <= |msg| && chunk == msg[k..k + |chunk|]
    ensures Store(c, Inbox(|msg|, msg[..k]), chunk)
         == (if k + |chunk| == |msg| then READ_READY else READ_PENDING,
             c.(inbox := Some(Inbox(|msg|, msg[..k + |chunk|])), busy := c.busy || k + |chunk| == |msg|))
  {
    assert msg[..k] + chunk == msg[..k + |chunk|];
    assert chunk[..|chunk|] == chunk;
  }

  /** Pending, any number of times, and then ready. */
  predicate Delivered(statuses: seq<Status>) {
    && statuses != [] && statuses[|statuses| - 1] == READ_READY
    && forall i | 0 <= i < |statuses| - 1 :: statuses[i] == READ_PENDING
  }

  /** One read in the middle of a message takes its next part. */
  lemma ReadPart(c: Chan, queue: seq<seq<byte>>, more: seq<seq<byte>>, msg: seq<byte>, k: nat)
    requires queue != [] && k < |msg| && c.inbox == Some(Inbox(|msg|, msg[..k])) && Flatten(queue) == msg[k..]
    ensures var (chunk, rest) := ReadOnce(queue, CHUNK);
            && k + |chunk| <= |msg| && Flatten(rest) == msg[k + |chunk|..]
            && ReadFrom(c, queue + more)
               == (if k + |chunk| == |msg| then READ_READY else READ_PENDING,
                   c.(inbox := Some(Inbox(|msg|, msg[..k + |chunk|])), busy := c.busy || k + |chunk| == |msg|),
                   rest + more)
  {
    ReadOncePrefix(queue, more, CHUNK);
    var (chunk, rest) := ReadOnce(queue, CHUNK);
    assert chunk + Flatten(rest) == msg[k..];
    assert chunk == msg[k..][..|chunk|] == msg[k..k + |chunk|];
    assert Flatten(rest) == msg[k..][|chunk|..] == msg[k + |chunk|..];
    StorePart(c, msg, k, chunk);
  }

  /** `c` once the whole of `msg` is in. */
  function Full(c: Chan, msg: seq<byte>): Chan {
    c.(inbox := Some(Inbox(|msg|, msg)), busy := true)
  }

  /** A run of reads has delivered `msg` and left `more` unread. */
  predicate Complete(run: (seq<Status>, Chan, seq<seq<byte>>), c: Chan, msg: seq<byte>, more: seq<seq<byte>>) {
    Delivered(run.0) && run.1 == Full(c, msg) && run.2 == more
  }

  lemma ReadRunStep(c: Chan, queue: seq<seq<byte>>, msg: seq<byte>, more: seq<seq<byte>>)
    requires queue != [] && !c.busy
    requires var (status, c', rest) := ReadFrom(c, queue);
             && Full(c', msg) == Full(c, msg)
             && if status == READ_PENDING then Complete(ReadRun(c', rest), c', msg, more)
                else status == READ_READY && ReadRun(c', rest) == ([], Full(c, msg), more)
    ensures Complete(ReadRun(c, queue), c, msg, more)
  {
  }

  lemma {:induction false} ReadRunBody(c: Chan, queue: seq<seq<byte>>, more: seq<seq<byte>>, msg: seq<byte>, k: nat)
    requires NonEmptySegments(queue) && queue != [] && !c.busy
    requires k < |msg| && c.inbox == Some(Inbox(|msg|, msg[..k])) && Flatten(queue) == msg[k..]
    ensures Complete(ReadRun(c, queue + more), c, msg, more)
    decreases Weight(queue)
  {
    ReadPart(c, queue, more, msg, k);
    ReadLowersWeight(queue, CHUNK);
    var (chunk, rest) := ReadOnce(queue, CHUNK);
    var c' := ReadFrom(c, queue + more).1;
    if rest == [] {
      ReadRunEnd(c', more, msg, k + |chunk|);
    } else {
      SomethingLeft(rest, msg, k + |chunk|);
      ReadRunBody(c', rest, more, msg, k + |chunk|);
    }
    ReadRunStep(c, queue + more, msg, more);
  }

  lemma ReadRunEnd(c: Chan, more: seq<seq<byte>>, msg: seq<byte>, k: nat)
    requires c.busy && k == |msg| && c.inbox == Some(Inbox(|msg|, msg[..k]))
    ensures [] + more == more && ReadRun(c, more) == ([], Full(c, msg), more)
  {
    assert msg[..|msg|] == msg;
  }

  lemma SomethingLeft(rest: seq<seq<byte>>, msg: seq<byte>, k: nat)
    requires NonEmptySegments(rest) && rest != [] && k <= |msg| && Flatten(rest) == msg[k..]
    ensures k < |msg|
  {
    assert rest[0] != [];
  }

  /**
   * However a frame is cut after its header, the channel reports pending on every part but the last and ready on
   * the last, holds exactly the message, and leaves what follows the frame unread.
   */
  lemma Reassembly(c: Chan, p: Packet, more: seq<seq<byte>>)
    requires WellCut(p) && c.inbox.None? && !c.busy
    ensures Complete(ReadRun(c, p.segments + more), c, p.msg, more)
  {
    var queue, msg := p.segments, p.msg;
    var begun, tail := c.(inbox := Some(Inbox(|msg|, []))), ReadOnce(queue, INT_SIZE).1;
    FirstPart(c, queue, more, msg);
    assert msg[..0] == [] && msg[0..] == msg;
    ReadRunBody(begun, tail, more, msg, 0);
    ReadRunSame(c, queue + more, begun, tail + more);
  }

  /** The first callback reads the header and the first part together. */
  lemma FirstPart(c: Chan, queue: seq<seq<byte>>, more: seq<seq<byte>>, msg: seq<byte>)
    requires Sendable(msg) && NonEmptySegments(queue) && Flatten(queue) == Frame(msg) && |queue[0]| >= INT_SIZE
    requires c.inbox.None?
    ensures var tail := ReadOnce(queue, INT_SIZE).1;
            && tail != [] && NonEmptySegments(tail) && Flatten(tail) == msg
            && ReadFrom(c, queue + more) == ReadFrom(c.(inbox := Some(Inbox(|msg|, []))), tail + more)
  {
    ReadOncePrefix(queue, more, INT_SIZE);
    HeaderCut(queue);
    var (head, tail) := ReadOnce(queue, INT_SIZE);
    HeaderOf(msg, head, Flatten(tail));
  }

  /** A first segment too short for the header breaks the channel, which then takes nothing more from the socket. */
  lemma ShortHeader(c: Chan, queue: seq<seq<byte>>)
    requires c.inbox.None? && queue != [] && 0 < |queue[0]| < 4
    ensures ReadFrom(c, queue) == (BROKEN, c.(busy := true), queue[1..])
    ensures !c.busy ==> ReadRun(c, queue) == ([BROKEN], c.(busy := true), queue[1..])
  {
    assert ReadOnce(queue, INT_SIZE) == (queue[0], queue[1..]);
    if !c.busy {
      var broken := c.(busy := true);
      assert ReadRun(broken, queue[1..]) == ([], broken, queue[1..]);
      assert [BROKEN] + [] == [BROKEN];
    }
  }

  /** However a frame is cut into segments that end with it, an idle channel assembles exactly its message if and only if
      the first segment holds the four bytes of the header; otherwise it is broken, and the frame is lost. */
  lemma SplitHeaderBreaks(c: Chan, queue: seq<seq<byte>>, more: seq<seq<byte>>, msg: seq<byte>)
    requires Sendable(msg) && NonEmptySegments(queue) && Flatten(queue) == Frame(msg)
    requires c.inbox.None? && !c.busy
    ensures var run := ReadRun(c, queue + more);
            if |queue[0]| >= 4 then Complete(run, c, msg, more)
            else run == ([BROKEN], c.(busy := true), queue[1..] + more)
  {
    if |queue[0]| >= 4 {
      Reassembly(c, Packet(msg, queue), more);
    } else {
      assert (queue + more)[0] == queue[0] && (queue + more)[1..] == queue[1..] + more;
      ShortHeader(c, queue + more);
    }
  }

  /** What one read reports, on any segments: the peer has gone exactly when nothing is there where a header was due; the
      channel is broken exactly when a header is too short or announces no bytes. */
  lemma ReadReports(c: Chan, queue: seq<seq<byte>>)
    requires NonEmptySegments(queue) && !c.busy
    ensures var (status, c', rest) := ReadFrom(c, queue);
            && (status == CLOSED <==> c.inbox.None? && queue == [])
            && (status == CLOSED ==> c' == c && rest == [])
            && (status == BROKEN <==> c.inbox.None? && queue != []
                                      && (|queue[0]| < 4 || DecodeInt(queue[0][..4]) <= 0))
            && (status == BROKEN ==> c' == c.(busy := true))
            && (status == READ_READY ==> c'.busy && c'.inbox.Some? && |c'.inbox.value.data| == c'.inbox.value.size)
            && (status == READ_PENDING ==> !c'.busy && c'.inbox.Some? && |c'.inbox.value.data| != c'.inbox.value.size)
            && status != WRITE_PENDING && status != WRITE_READY
  {
    if queue != [] {
      assert queue[0] != [];
    }
  }

  /** Bytes that come in the same chunk behind the end of a message are lost. */
  lemma SurplusLost(c: Chan, box: Inbox, chunk: seq<byte>)
    requires |box.data| <= box.size <= |box.data| + |chunk|
    ensures Store(c, box, chunk)
         == (READ_READY, c.(inbox := Some(Inbox(box.size, (box.data + chunk)[..box.size])), busy := true))
  {
    assert (box.data + chunk)[..box.size] == box.data + chunk[..box.size - |box.data|];
  }

  lemma ReadRunSame(c: Chan, queue: seq<seq<byte>>, d: Chan, rest: seq<seq<byte>>)
    requires queue != [] && rest != [] && !c.busy && !d.busy && ReadFrom(c, queue) == ReadFrom(d, rest)
    ensures ReadRun(c, queue) == ReadRun(d, rest)
  {
  }

  /** Write callbacks repeated until the response is out: how many, and the bytes they wrote. */
  function WriteRun(c: Chan): (nat, Chan, seq<byte>)
    requires c.outbox.Some? && c.outbox.value != []
    decreases |c.outbox.value|
  {
    var (status, c', sent) := OnWrite(c);
    if status == WRITE_READY then (1, c', sent)
    else
      var (n, final, more) := WriteRun(c');
      (n + 1, final, sent + more)
  }

  /** A response of n bytes is out, unaltered, after exactly (n + 4) / 1024 write callbacks, rounded up. */
  lemma {:induction false} WriteRunCount(c: Chan)
    requires c.outbox.Some? && c.outbox.value != []
    ensures WriteRun(c) == ((|c.outbox.value| + 1023) / 1024, c.(outbox := Some([]), sendHeld := false), c.outbox.value)
    decreases |c.outbox.value|
  {
    var rest := c.outbox.value;
    var (status, c', sent) := OnWrite(c);
    if status != WRITE_READY {
      WriteRunCount(c');
      assert rest[..CHUNK] + rest[CHUNK..] == rest;
      assert Chunks(|rest|) == Chunks(|rest| - CHUNK) + 1;
    } else {
      assert |rest| <= CHUNK && rest[..|rest|] == rest;
    }
  }

  class Channel {
    const fd: int
    const sock: Socket
    var readBuffer: RDONBuffer?
    var writeBuffer: SizedWRONBuffer?
    var sendHeld: bool
    var alive: bool
    var busy: bool
    ghost var Repr: set<object>

    ghost predicate Valid()
      reads this, Repr
    {
      && this in Repr && sock in Repr
      && (readBuffer != null ==>
            && readBuffer in Repr && readBuffer.str in Repr && readBuffer.Valid())
      && (writeBuffer != null ==>
            && writeBuffer in Repr && writeBuffer.str in Repr && writeBuffer.Valid())
      && (readBuffer != null && writeBuffer != null ==> readBuffer.str != writeBuffer.str)
    }

    ghost function View(): Chan
      requires Valid()
      reads this, Repr
    {
      Chan(if writeBuffer == null then None else Some(Inbox(writeBuffer.size, writeBuffer.Contents())),
           if readBuffer == null then None else Some(readBuffer.Rest()),
           busy, alive, sendHeld)
    }

    constructor (fd: int, sock: Socket)
      ensures Valid() && View() == NEW_CHAN == Chan(None, None, false, true, false) && this.sock == sock && this.fd == fd
      ensures Repr == {this, sock}
    {
      this.fd, this.sock := fd, sock;
      readBuffer, writeBuffer, sendHeld, alive, busy := null, null, false, true, false;
      Repr := {this, sock};
    }

    /** The header part of the read callback: it either makes the message buffer or tells why it cannot. */
    method ReadHeader() returns (failure: Option<Status>)
      requires Valid() && writeBuffer == null
      modifies Repr
      ensures Valid() && fresh(Repr - old(Repr))
      ensures sock.outgoing == old(sock.outgoing) && sock.room == old(sock.room) && sock.isOpen == old(sock.isOpen)
      ensures sock.incoming == ReadOnce(old(sock.incoming), INT_SIZE).1
      ensures var head := ReadOnce(old(sock.incoming), INT_SIZE).0;
              if |head| != INT_SIZE || DecodeInt(head) <= 0 then
                (failure, View()) == (Some(OnRead(old(View()), head, []).0), OnRead(old(View()), head, []).1)
              else
                failure == None && View() == old(View()).(inbox := Some(Inbox(DecodeInt(head), [])))
    {
      var head := new byte[INT_SIZE];
      var len := sock.Read(head, INT_SIZE);
      if len == 0 { return Some(CLOSED); }
      if len != INT_SIZE || DecodeInt(head[..INT_SIZE]) <= 0 {
        busy := true;
        return Some(BROKEN);
      }
      assert head[..len] == head[..INT_SIZE];
      writeBuffer := new SizedWRONBuffer(DecodeInt(head[..INT_SIZE]));
      Repr := Repr + {writeBuffer, writeBuffer.str};
      failure := None;
    }

    /** The chunk part of the read callback. */
    method ReadChunk() returns (status: Status)
      requires Valid() && writeBuffer != null
      modifies Repr
      ensures Valid() && Repr == old(Repr)
      ensures sock.outgoing == old(sock.outgoing) && sock.room == old(sock.room) && sock.isOpen == old(sock.isOpen)
      ensures sock.incoming == ReadOnce(old(sock.incoming), CHUNK).1
      ensures (status, View()) == Store(old(View()), old(View()).inbox.value, ReadOnce(old(sock.incoming), CHUNK).0)
    {
      var chunk := new byte[CHUNK];
      var len := sock.Read(chunk, CHUNK);
      var taken := writeBuffer.Write(chunk, len);
      assert chunk[..len][..taken] == chunk[..taken];
      if !writeBuffer.Ready() {
        status := READ_PENDING;
      } else {
        busy := true;
        status := READ_READY;
      }
    }

    /** The read callback. A busy channel would wait here for its worker. */
    method Read() returns (status: Status)
      requires Valid() && !busy
      modifies Repr
      ensures Valid() && fresh(Repr - old(Repr))
      ensures (status, View(), sock.incoming) == ReadFrom(old(View()), old(sock.incoming))
      ensures sock.outgoing == old(sock.outgoing) && sock.room == old(sock.room) && sock.isOpen == old(sock.isOpen)
      ensures status == CLOSED || status == BROKEN || status == READ_READY || status == READ_PENDING
      ensures status == CLOSED <==> old(View().inbox).None? && ReadOnce(old(sock.incoming), 4).0 == []
      ensures var head := ReadOnce(old(sock.incoming), 4).0;
              status == BROKEN <==> old(View().inbox).None? && head != [] && (|head| != 4 || DecodeInt(head) <= 0)
      ensures busy <==> status == BROKEN || status == READ_READY
    {
      if writeBuffer == null {
        var failure := ReadHeader();
        if failure.Some? { return failure.value; }
      }
      status := ReadChunk();
    }

    /** How much of a chunk the socket takes is not looked at: what does not fit is lost. */
    method Write() returns (status: Status)
      requires Valid()
      modifies Repr
      ensures Valid() && Repr == old(Repr)
      ensures var (s, c', sent) := OnWrite(old(View()));
              && status == s && View() == c'
              && sock.outgoing == old(sock.outgoing) + sent[..Min(|sent|, old(sock.room))]
      ensures sock.incoming == old(sock.incoming) && sock.isOpen == old(sock.isOpen)
      ensures var left := if old(View().outbox).None? then [] else old(View().outbox).value;
              && (old(View().outbox).None? ==> status == WRITE_PENDING && View() == old(View()))
              && (old(View().outbox).Some? ==>
                    && View().outbox == Some(left[Min(1024, |left|)..])
                    && (status == WRITE_READY <==> |left| <= 1024) && (status == WRITE_READY ==> !sendHeld))
    {
      if readBuffer == null {
        return WRITE_PENDING;
      }
      var chunk := new byte[CHUNK];
      var len := readBuffer.Read(chunk, CHUNK);
      var taken := sock.Write(chunk, len);
      assert chunk[..len][..taken] == chunk[..taken];
      if readBuffer.Ready() {
        sendHeld := false;
        return WRITE_READY;
      }
      status := WRITE_PENDING;
    }

    /** Puts a new response in place of the last one. */
    method Load(msg: seq<byte>)
      requires Valid() && Sendable(msg)
      modifies this
      ensures Valid() && fresh(Repr - old(Repr)) && sendHeld
      ensures View() == old(View()).(outbox := Some(Frame(msg)), sendHeld := true)
    {
      sendHeld := true;
      readBuffer := new RDONBuffer.Sized(msg);
      Repr := Repr + {readBuffer, readBuffer.str};
    }

    method Send(pm: PollManager, msg: seq<byte>)
      requires Valid() && !sendHeld && Sendable(msg)
      requires pm.Valid() && pm !in Repr && 0 <= fd < FD_SETSIZE
      modifies Repr, pm
      ensures Valid() && fresh(Repr - old(Repr)) && pm.Valid()
      ensures var (c', sent, watch) := OnSend(old(View()), msg);
              && View() == c' && sock.outgoing == old(sock.outgoing) + sent[..Min(|sent|, old(sock.room))]
              && pm.watchedWrite == old(pm.watchedWrite) + (if watch then {fd} else {})
      ensures pm.watchedRead == old(pm.watchedRead) && sock.incoming == old(sock.incoming)
      ensures sock.isOpen == old(sock.isOpen)
      ensures var first := Min(1024, |Frame(msg)|);
              if old(alive) then
                && View() == old(View()).(outbox := Some(Frame(msg)[first..]), sendHeld := |Frame(msg)| > 1024)
                && sock.outgoing == old(sock.outgoing) + Frame(msg)[..Min(first, old(sock.room))]
                && (pm.watchedWrite == old(pm.watchedWrite) + if |Frame(msg)| > 1024 then {fd} else {})
              else
                View() == old(View()) && sock.outgoing == old(sock.outgoing) && pm.watchedWrite == old(pm.watchedWrite)
    {
      if !alive {
        return;
      }
      Load(msg);
      var status := Write();
      if status != WRITE_READY {
        pm.Watch(fd, WRITE);
      }
    }

    method Close()
      requires Valid() && !sendHeld
      modifies this`alive, sock`isOpen
      ensures Valid() && Repr == old(Repr) && View() == OnClose(old(View())) && !sock.isOpen
      ensures View() == old(View()).(alive := false)
    {
      sock.Close();
      alive := false;
    }

    method GetMsg() returns (msg: seq<byte>)
      requires Valid()
      ensures msg == Assembled(View())
      ensures msg == if View().inbox.None? then [] else View().inbox.value.data
    {
      msg := if writeBuffer == null then [] else writeBuffer.str[..writeBuffer.pos];
    }

    method ClearMsg()
      requires Valid()
      modifies this
      ensures Valid() && Repr == old(Repr) && View() == OnClear(old(View()))
      ensures View() == old(View()).(inbox := None, busy := false)
    {
      writeBuffer := null;
      busy := false;
    }
  }
}
