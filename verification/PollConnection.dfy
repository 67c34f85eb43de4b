/**
 * One connection of the poll server seen whole: the synchronous client, the bytes under way in both directions,
 * the channel, and the job the thread pool holds for it.
 */
module PollConnection {
  import opened Bytes
  import opened Sockets
  import opened Channels
  import opened Wrappers

  /** Where the client stands in its current call. `Failed` is the read failure it throws. */
  datatype Client =
    | Idle
    | Writing(request: seq<byte>, rest: seq<byte>)
    | AwaitHead(request: seq<byte>)
    | AwaitBody(request: seq<byte>, size: nat, got: seq<byte>)
    | Failed

  /** `Arming` is a worker between the first chunk of a response and the call that watches the descriptor;
      `Race` is two jobs at once on a channel, or a job on a channel that has been deleted. */
  datatype Job = NoJob | Queued | Copied(msg: seq<byte>) | Handling(msg: seq<byte>) | Arming | Race

  datatype Link = Backlog | Open(fd: int) | Gone

  datatype Exchange = Exchange(request: seq<byte>, reply: seq<byte>)

  /** `served` is what the workers have answered and `returned` what the client's calls have returned. */
  datatype Conn = Conn(link: Link, client: Client, c2s: seq<byte>, s2c: seq<byte>, eof: bool,
                       chan: Chan, job: Job, served: seq<Exchange>, returned: seq<Exchange>)

  const NEW_CONN := Conn(Backlog, Idle, [], [], false, NEW_CHAN, NoJob, [], [])

  // ---------------------------------------------------------------------------------------------- the client

  predicate CanStart(c: Conn, msg: seq<byte>) {
    c.client.Idle? && !c.eof && Sendable(msg)
  }

  function Start(c: Conn, msg: seq<byte>): Conn
    requires CanStart(c, msg)
  {
    c.(client := Writing(msg, Frame(msg)))
  }

  predicate CanClientWrite(c: Conn) {
    c.client.Writing?
  }

  function ClientWrite(c: Conn): Conn
    requires CanClientWrite(c)
  {
    var n := Min(CHUNK, |c.client.rest|);
    var rest := c.client.rest[n..];
    c.(c2s := c.c2s + c.client.rest[..n],
       client := if rest == [] then AwaitHead(c.client.request) else Writing(c.client.request, rest))
  }

  /** The header read returns once something has arrived, or the server has closed. */
  predicate CanClientHead(c: Conn) {
    c.client.AwaitHead? && (c.s2c != [] || c.link.Gone?)
  }

  function ClientHead(c: Conn): Conn
    requires CanClientHead(c)
  {
    var n := Min(INT_SIZE, |c.s2c|);
    var head := c.s2c[..n];
    c.(s2c := c.s2c[n..],
       client := if n != INT_SIZE || DecodeInt(head) <= 0 then Failed
                 else AwaitBody(c.client.request, DecodeInt(head), []))
  }

  predicate CanClientBody(c: Conn, k: nat) {
    c.client.AwaitBody? && 0 < k <= Min(CHUNK, |c.s2c|)
  }

  function ClientBody(c: Conn, k: nat): Conn
    requires CanClientBody(c, k)
  {
    var got := c.client.got + c.s2c[..k];
    var c' := c.(s2c := c.s2c[k..]);
    if |got| == c.client.size
    then c'.(client := Idle, returned := c.returned + [Exchange(c.client.request, got)])
    else c'.(client := AwaitBody(c.client.request, c.client.size, got))
  }

  predicate CanHangup(c: Conn) {
    c.client.Idle? && !c.eof
  }

  function Hangup(c: Conn): Conn {
    c.(eof := true)
  }

  // ---------------------------------------------------------------------------------------------- the server

  predicate Readable(c: Conn) {
    c.c2s != [] || c.eof
  }

  /** Bytes the header read of the next read callback takes. */
  function HeadBytes(c: Conn): nat {
    if c.chan.inbox.None? then Min(INT_SIZE, |c.c2s|) else 0
  }

  /** The read callback blocks on a busy channel; its chunk read returns any part of what has arrived. */
  predicate CanRead(c: Conn, k: nat) {
    var left := |c.c2s| - HeadBytes(c);
    !c.chan.busy && k <= Min(CHUNK, left) && (left > 0 ==> k > 0)
  }

  function Read(c: Conn, k: nat): (Status, Conn)
    requires CanRead(c, k)
  {
    var h := HeadBytes(c);
    var head := c.c2s[..h];
    if c.chan.inbox.None? && (h != INT_SIZE || DecodeInt(head) <= 0) then
      var (status, chan) := OnRead(c.chan, head, []);
      (status, c.(c2s := c.c2s[h..], chan := chan))
    else
      var (status, chan) := OnRead(c.chan, head, c.c2s[h..][..k]);
      var job := if status == READ_READY then (if c.job.NoJob? then Queued else Race) else c.job;
      (status, c.(c2s := c.c2s[h..][k..], chan := chan, job := job))
  }

  /** Closing waits for the send mutex; the channel is deleted whether or not a worker still has it. */
  predicate CanClose(c: Conn) {
    !c.chan.sendHeld
  }

  function Close(c: Conn): Conn
    requires CanClose(c)
  {
    c.(link := Gone, chan := OnClose(c.chan), job := if c.job.NoJob? then NoJob else Race)
  }

  function Write(c: Conn): (Status, Conn) {
    var (status, chan, sent) := OnWrite(c.chan);
    (status, c.(chan := chan, s2c := c.s2c + sent))
  }

  function Copy(c: Conn): Conn {
    c.(job := Copied(Assembled(c.chan)))
  }

  function Clear(c: Conn): Conn
    requires c.job.Copied?
  {
    c.(job := Handling(c.job.msg), chan := OnClear(c.chan))
  }

  predicate CanRespond(c: Conn, reply: seq<byte>) {
    c.job.Handling? && !c.chan.sendHeld && Sendable(reply)
  }

  function Respond(c: Conn, reply: seq<byte>): Conn
    requires CanRespond(c, reply)
  {
    var (chan, sent, watch) := OnSend(c.chan, reply);
    c.(chan := chan, s2c := c.s2c + sent, job := if watch then Arming else NoJob,
       served := c.served + [Exchange(c.job.msg, reply)])
  }

  // ----------------------------------------------------------------------------- one message, in one stage

  /** A response with bytes still to write. */
  predicate Owes(c: Conn) {
    c.chan.outbox.Some? && c.chan.outbox.value != []
  }

  predicate NothingToSend(c: Conn) {
    !Owes(c) && !c.chan.sendHeld && c.s2c == [] && c.returned == c.served
  }

  predicate NothingToRead(c: Conn) {
    c.c2s == [] && c.chan.inbox.None? && !c.chan.busy
  }

  predicate Quiet(c: Conn) {
    && c.client.Idle? && c.job.NoJob? && NothingToSend(c) && NothingToRead(c)
    && (c.link.Gone? ==> c.eof)
  }

  /** What the client has not written yet. */
  function Unwritten(c: Conn): seq<byte> {
    if c.client.Writing? then c.client.rest else []
  }

  /** The request travels: assembled, in flight and unwritten bytes make up its frame. */
  predicate Asking(c: Conn) {
    && (c.client.Writing? || c.client.AwaitHead?) && c.job.NoJob? && NothingToSend(c)
    && !c.eof && !c.link.Gone? && !c.chan.busy
    && var request := c.client.request;
       && Sendable(request)
       && (c.client.Writing? ==> c.client.rest != [])
       && match c.chan.inbox
          case None =>
            && c.c2s + Unwritten(c) == Frame(request)
            && (c.c2s == [] || |c.c2s| >= INT_SIZE)
          case Some(box) =>
            && box.size == |request| && |box.data| < |request|
            && box.data + c.c2s + Unwritten(c) == request
  }

  /** The request is with the thread pool. */
  predicate Working(c: Conn) {
    && c.client.AwaitHead? && NothingToSend(c) && !c.eof && c.link.Open? && c.c2s == []
    && var request := c.client.request;
       match c.job
       case Queued => c.chan.busy && c.chan.inbox == Some(Inbox(|request|, request))
       case Copied(msg) => c.chan.busy && c.chan.inbox == Some(Inbox(|request|, request)) && msg == request
       case Handling(msg) => NothingToRead(c) && msg == request
       case _ => false
  }

  /** The response travels: received, in flight and unwritten bytes make up its frame. */
  predicate Answering(c: Conn) {
    && (c.client.AwaitHead? || c.client.AwaitBody?) && NothingToRead(c) && !c.eof && c.link.Open?
    && |c.served| == |c.returned| + 1 && c.served[..|c.returned|] == c.returned
    && c.chan.outbox.Some? && (c.chan.sendHeld <==> Owes(c))
    && (c.job.NoJob? || (c.job.Arming? && Owes(c)))
    && var Exchange(request, reply) := c.served[|c.returned|];
       && request == c.client.request && Sendable(reply)
       && match c.client
          case AwaitHead(_) => c.s2c + c.chan.outbox.value == Frame(reply) && |c.s2c| >= INT_SIZE
          case AwaitBody(_, size, got) =>
            size == |reply| && |got| < size && got + c.s2c + c.chan.outbox.value == reply
          case _ => false
  }

  predicate ConnOk(c: Conn) {
    && (Quiet(c) || Asking(c) || Working(c) || Answering(c))
    && (c.chan.alive <==> !c.link.Gone?)
    && (c.link.Backlog? ==> c.chan == NEW_CHAN)
  }

  /** The stages exclude one another. */
  lemma OneStage(c: Conn)
    ensures Quiet(c) ==> !Asking(c) && !Working(c) && !Answering(c)
    ensures Asking(c) ==> !Working(c) && !Answering(c)
    ensures Working(c) ==> !Answering(c)
  {
  }

  /** What counts as a race: a message that becomes ready while the channel's last one still has its job, and a channel
      closed under a job. A connection in order has no race. */
  lemma RacesAreSeen(c: Conn, k: nat)
    requires !c.job.NoJob?
    ensures CanRead(c, k) && Read(c, k).0 == READ_READY ==> Read(c, k).1.job == Race && !ConnOk(Read(c, k).1)
    ensures CanClose(c) ==> Close(c).job == Race && !ConnOk(Close(c))
  {
  }

  /** The client's header read fails exactly when the header is short or announces nothing. */
  lemma HeadFails(c: Conn)
    requires CanClientHead(c)
    ensures ClientHead(c).client.Failed? <==> |c.s2c| < 4 || DecodeInt(c.s2c[..4]) <= 0
    ensures !ClientHead(c).client.Failed? ==>
              && ClientHead(c).client == AwaitBody(c.client.request, DecodeInt(c.s2c[..4]), [])
              && ClientHead(c).s2c == c.s2c[4..]
  {
  }

  // ------------------------------------------------------------------------ every step keeps the argument

  lemma StartKeeps(c: Conn, msg: seq<byte>)
    requires ConnOk(c) && CanStart(c, msg)
    ensures Asking(Start(c, msg)) && ConnOk(Start(c, msg))
  {
  }

  lemma ClientWriteKeeps(c: Conn)
    requires ConnOk(c) && CanClientWrite(c)
    ensures Asking(ClientWrite(c)) && ConnOk(ClientWrite(c))
  {
    var rest := c.client.rest;
    var n := Min(CHUNK, |rest|);
    assert rest[..n] + rest[n..] == rest;
    var c' := ClientWrite(c);
    assert Unwritten(c') == rest[n..];
    assert c'.c2s + Unwritten(c') == c.c2s + rest;
    if c.chan.inbox.Some? {
      var data := c.chan.inbox.value.data;
      assert data + c'.c2s + Unwritten(c') == data + (c'.c2s + Unwritten(c')) == data + c.c2s + rest;
    }
  }

  lemma ClientHeadKeeps(c: Conn)
    requires ConnOk(c) && CanClientHead(c)
    ensures Answering(ClientHead(c)) && ConnOk(ClientHead(c))
  {
    assert Answering(c);
    var reply := c.served[|c.returned|].reply;
    var head, tail := c.s2c[..INT_SIZE], c.s2c[INT_SIZE..];
    assert head + (tail + c.chan.outbox.value) == c.s2c + c.chan.outbox.value;
    HeaderOf(reply, head, tail + c.chan.outbox.value);
    assert [] + tail + c.chan.outbox.value == reply;
  }

  lemma ClientBodyKeeps(c: Conn, k: nat)
    requires ConnOk(c) && CanClientBody(c, k)
    ensures ConnOk(ClientBody(c, k))
    ensures var c' := ClientBody(c, k); Quiet(c') || Answering(c')
  {
    assert Answering(c);
    var reply := c.served[|c.returned|].reply;
    var out := c.chan.outbox.value;
    var got := c.client.got + c.s2c[..k];
    assert c.s2c == c.s2c[..k] + c.s2c[k..];
    assert got + c.s2c[k..] + out == c.client.got + c.s2c + out == reply;
    if |got| == c.client.size {
      assert |c.s2c[k..]| + |out| == 0;
      assert got + c.s2c[k..] + out == got;
      assert c.served == c.returned + [c.served[|c.returned|]];
    }
  }

  lemma HangupKeeps(c: Conn)
    requires ConnOk(c) && CanHangup(c)
    ensures Quiet(Hangup(c)) && ConnOk(Hangup(c))
  {
  }

  /** A readable channel is never busy, so the read callback does not wait; and what it finds is either the next
      part of the request or a client that has hung up. */
  lemma ReadKeeps(c: Conn, k: nat)
    requires ConnOk(c) && Readable(c) && c.link.Open? && CanRead(c, k)
    ensures var (status, c') := Read(c, k);
            && (c.c2s == [] ==> status == CLOSED && c' == c && Quiet(c))
            && (c.c2s != [] ==> (status == READ_PENDING && Asking(c')) || (status == READ_READY && Working(c')))
            && ConnOk(c')
  {
    if c.c2s != [] {
      assert Asking(c);
      AskingRead(c, k);
    }
  }

  /** A travelling request in parts: what is assembled, what a read finds after any header, what is unwritten. */
  lemma AskingParts(c: Conn)
    requires Asking(c) && c.c2s != []
    ensures c.chan.inbox.None? ==> HeadBytes(c) == INT_SIZE && DecodeInt(c.c2s[..INT_SIZE]) == |c.client.request|
    ensures c.chan.inbox.Some? ==> HeadBytes(c) == 0 && c.chan.inbox.value.size == |c.client.request|
    ensures Assembled(c.chan) + c.c2s[HeadBytes(c)..] + Unwritten(c) == c.client.request
  {
    var h, request := HeadBytes(c), c.client.request;
    var head, left := c.c2s[..h], c.c2s[h..];
    assert c.c2s == head + left;
    if c.chan.inbox.None? {
      assert head + (left + Unwritten(c)) == c.c2s + Unwritten(c);
      HeaderOf(request, head, left + Unwritten(c));
      assert [] + left + Unwritten(c) == request;
    } else {
      assert left == c.c2s;
    }
  }

  /** Cutting the next k bytes off what a read finds. */
  lemma NextPart(have: seq<byte>, left: seq<byte>, unsent: seq<byte>, k: nat, request: seq<byte>)
    requires have + left + unsent == request && k <= |left|
    ensures have == request[..|have|] && left[..k] == request[|have|..|have| + k]
    ensures request[..|have| + k] + left[k..] + unsent == request
    ensures |have| + k == |request| ==> left[k..] == [] && unsent == [] && request[..|have| + k] == request
  {
  }

  lemma AskingRead(c: Conn, k: nat)
    requires Asking(c) && ConnOk(c) && c.c2s != [] && c.link.Open? && CanRead(c, k)
    ensures var (status, c') := Read(c, k);
            && ConnOk(c') && |c'.c2s| < |c.c2s| && Unwritten(c') == Unwritten(c)
            && ((status == READ_PENDING && Asking(c')) || (status == READ_READY && Working(c')))
  {
    ReadIs(c, k);
    ReadResultKeeps(c, k);
  }

  /** What a read makes of a travelling request of which the first m bytes are now assembled. */
  function ReadResult(c: Conn, request: seq<byte>, m: nat, rest: seq<byte>): (Status, Conn)
    requires m <= |request|
  {
    var done := m == |request|;
    (if done then READ_READY else READ_PENDING,
     c.(c2s := rest, job := if done then Queued else c.job,
        chan := c.chan.(inbox := Some(Inbox(|request|, request[..m])), busy := c.chan.busy || done)))
  }

  lemma ReadIs(c: Conn, k: nat)
    requires Asking(c) && c.c2s != [] && CanRead(c, k)
    ensures |Assembled(c.chan)| + k <= |c.client.request|
    ensures Read(c, k) == ReadResult(c, c.client.request, |Assembled(c.chan)| + k, c.c2s[HeadBytes(c)..][k..])
  {
    var request, n := c.client.request, |Assembled(c.chan)|;
    var left := c.c2s[HeadBytes(c)..];
    AskingParts(c);
    NextPart(Assembled(c.chan), left, Unwritten(c), k, request);
    StorePart(c.chan, request, n, left[..k]);
  }

  lemma ReadResultKeeps(c: Conn, k: nat)
    requires Asking(c) && ConnOk(c) && c.c2s != [] && c.link.Open? && CanRead(c, k)
    requires |Assembled(c.chan)| + k <= |c.client.request|
    ensures var (status, c') :=
              ReadResult(c, c.client.request, |Assembled(c.chan)| + k, c.c2s[HeadBytes(c)..][k..]);
            && ConnOk(c') && |c'.c2s| < |c.c2s| && Unwritten(c') == Unwritten(c)
            && ((status == READ_PENDING && Asking(c')) || (status == READ_READY && Working(c')))
  {
    var left, request, m := c.c2s[HeadBytes(c)..], c.client.request, |Assembled(c.chan)| + k;
    AskingParts(c);
    NextPart(Assembled(c.chan), left, Unwritten(c), k, request);
    PartKeeps(c, m, left[k..]);
  }

  /** A travelling request of which the first m bytes are assembled and the next ones in flight. */
  lemma PartKeeps(c: Conn, m: nat, rest: seq<byte>)
    requires Asking(c) && ConnOk(c) && c.link.Open? && m <= |c.client.request|
    requires c.client.request[..m] + rest + Unwritten(c) == c.client.request
    requires m == |c.client.request| ==>
               rest == [] && Unwritten(c) == [] && c.client.request[..m] == c.client.request
    ensures var (status, c') := ReadResult(c, c.client.request, m, rest);
            && ConnOk(c') && Unwritten(c') == Unwritten(c)
            && ((status == READ_PENDING && Asking(c')) || (status == READ_READY && Working(c')))
  {
  }

  lemma CloseKeeps(c: Conn)
    requires ConnOk(c) && Quiet(c) && c.eof && c.link.Open?
    ensures CanClose(c) && Quiet(Close(c)) && ConnOk(Close(c))
  {
  }

  lemma WriteKeeps(c: Conn)
    requires ConnOk(c) && Owes(c) && !c.job.Arming?
    ensures var (status, c') := Write(c);
            && Answering(c) && Answering(c') && ConnOk(c') && (status == WRITE_READY <==> !Owes(c'))
  {
    assert Answering(c);
    var out := c.chan.outbox.value;
    var n := Min(CHUNK, |out|);
    assert out[..n] + out[n..] == out;
    assert (c.s2c + out[..n]) + out[n..] == c.s2c + out;
    if c.client.AwaitBody? {
      assert c.client.got + (c.s2c + out[..n]) + out[n..] == c.client.got + c.s2c + out;
    }
  }

  lemma CopyKeeps(c: Conn)
    requires ConnOk(c) && c.job.Queued?
    ensures Working(Copy(c)) && ConnOk(Copy(c))
  {
  }

  lemma ClearKeeps(c: Conn)
    requires ConnOk(c) && c.job.Copied?
    ensures Working(Clear(c)) && ConnOk(Clear(c))
  {
  }

  lemma RespondKeeps(c: Conn, reply: seq<byte>)
    requires ConnOk(c) && CanRespond(c, reply)
    ensures var c' := Respond(c, reply);
            Answering(c') && ConnOk(c') && (c'.job.Arming? <==> Owes(c'))
  {
  }

  lemma ArmedKeeps(c: Conn)
    requires ConnOk(c) && c.job.Arming?
    ensures Answering(c) && ConnOk(c.(job := NoJob)) && Owes(c)
  {
  }

  // ------------------------------------------------------------------------------------- the class and the step

  /** What the two socket reads of the callback leave behind, in bytes. */
  lemma HeadSplit(c: Conn, queue: seq<seq<byte>>)
    requires NonEmptySegments(queue) && Flatten(queue) == c.c2s
    requires c.chan.inbox.None? && queue != [] ==> |queue[0]| >= HeadBytes(c)
    ensures var (head, after) := if c.chan.inbox.None? then ReadOnce(queue, INT_SIZE) else ([], queue);
            && head == c.c2s[..HeadBytes(c)] && Flatten(after) == c.c2s[HeadBytes(c)..] && NonEmptySegments(after)
  {
    if c.chan.inbox.None? {
      HeadIsPrefix(c, queue);
      var (head, after) := ReadOnce(queue, INT_SIZE);
      assert head + Flatten(after) == c.c2s;
    }
  }

  lemma HeadIsPrefix(c: Conn, queue: seq<seq<byte>>)
    requires NonEmptySegments(queue) && Flatten(queue) == c.c2s && c.chan.inbox.None?
    requires queue != [] ==> |queue[0]| >= HeadBytes(c)
    ensures |ReadOnce(queue, INT_SIZE).0| == HeadBytes(c) && NonEmptySegments(ReadOnce(queue, INT_SIZE).1)
  {
    if queue != [] {
      assert |c.c2s| == |queue[0]| + |Flatten(queue[1..])|;
    }
  }

  lemma ChunkSplit(queue: seq<seq<byte>>, bytes: seq<byte>)
    requires NonEmptySegments(queue) && Flatten(queue) == bytes
    ensures var (chunk, rest) := ReadOnce(queue, CHUNK);
            && |chunk| <= Min(CHUNK, |bytes|) && (bytes != [] ==> chunk != [])
            && chunk == bytes[..|chunk|] && Flatten(rest) == bytes[|chunk|..]
  {
    var (chunk, rest) := ReadOnce(queue, CHUNK);
    assert chunk + Flatten(rest) == bytes;
    if queue != [] {
      assert queue[0] != [];
    }
  }

  /** The read of the `Channel` class, on segments that hold the bytes in flight, is one of the read steps above, so
      what is shown for every step holds for the class. */
  lemma ChannelReadIsRead(c: Conn, queue: seq<seq<byte>>) returns (k: nat)
    requires NonEmptySegments(queue) && Flatten(queue) == c.c2s && !c.chan.busy
    requires c.chan.inbox.None? && queue != [] ==> |queue[0]| >= HeadBytes(c)
    ensures CanRead(c, k)
    ensures var (status, chan, rest) := ReadFrom(c.chan, queue);
            Read(c, k).0 == status && Read(c, k).1.chan == chan && Read(c, k).1.c2s == Flatten(rest)
  {
    HeadSplit(c, queue);
    var h := HeadBytes(c);
    if c.chan.inbox.None? && (h != INT_SIZE || DecodeInt(c.c2s[..h]) <= 0) {
      k := Min(1, |c.c2s| - h);
    } else {
      var after := if c.chan.inbox.None? then ReadOnce(queue, INT_SIZE).1 else queue;
      ChunkSplit(after, c.c2s[h..]);
      k := |ReadOnce(after, CHUNK).0|;
    }
  }

  // --------------------------------------------------------------------------------------------- progress

  /** How far a call is from returning: the stage, then the work left in it. */
  function Rank(c: Conn): nat {
    if c.client.Idle? then 0
    else if |c.served| > |c.returned| then 1
    else if !c.job.NoJob? then 2
    else 3
  }

  function Left(c: Conn): nat {
    if c.client.Idle? then 0
    else if |c.served| > |c.returned| then
      2 * (if c.chan.outbox.Some? then |c.chan.outbox.value| else 0) + |c.s2c| + (if c.job.Arming? then 1 else 0)
    else if !c.job.NoJob? then (if c.job.Queued? then 2 else if c.job.Copied? then 1 else 0)
    else 2 * |Unwritten(c)| + |c.c2s| + (if c.link.Backlog? then 1 else 0)
  }

  predicate Closer(c': Conn, c: Conn) {
    Rank(c') < Rank(c) || (Rank(c') == Rank(c) && Left(c') < Left(c))
  }

  lemma ClientCloser(c: Conn)
    requires ConnOk(c)
    ensures CanClientWrite(c) ==> Closer(ClientWrite(c), c)
    ensures CanClientHead(c) ==> Closer(ClientHead(c), c)
  {
    if CanClientWrite(c) {
      ClientWriteKeeps(c);
    }
    if CanClientHead(c) {
      ClientHeadKeeps(c);
    }
  }

  lemma BodyCloser(c: Conn, k: nat)
    requires ConnOk(c) && CanClientBody(c, k)
    ensures Closer(ClientBody(c, k), c) && 1 <= k <= 1024
  {
  }

  lemma ReadCloser(c: Conn, k: nat)
    requires ConnOk(c) && !Quiet(c) && Readable(c) && c.link.Open? && CanRead(c, k)
    ensures Closer(Read(c, k).1, c) && !(Read(c, k).0 == CLOSED || Read(c, k).0 == BROKEN) && k <= 1024
  {
    ReadKeeps(c, k);
    AskingRead(c, k);
  }

  lemma WriteCloser(c: Conn)
    requires ConnOk(c) && Owes(c) && !c.job.Arming?
    ensures Closer(Write(c).1, c)
  {
  }

  lemma WorkerCloser(c: Conn)
    requires ConnOk(c)
    ensures c.job.Queued? ==> Closer(Copy(c), c)
    ensures c.job.Copied? ==> Closer(Clear(c), c)
    ensures c.job.Arming? ==> Closer(c.(job := NoJob), c)
  {
  }

  lemma RespondCloser(c: Conn, reply: seq<byte>)
    requires ConnOk(c) && CanRespond(c, reply)
    ensures Closer(Respond(c, reply), c)
  {
  }

  lemma AcceptCloser(c: Conn, fd: int)
    requires ConnOk(c) && c.link.Backlog? && !Quiet(c)
    ensures Closer(c.(link := Open(fd), chan := NEW_CHAN), c)
  {
  }
}
