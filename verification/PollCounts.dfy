/** How many steps responses and calls take, over whole runs of the poll server. */
module PollCounts {
  import opened Bytes
  import opened Channels
  import opened PollConnection
  import opened PollGuarantees
  import opened PollProtocol
  import opened Wrappers

  // ------------------------------------------------------------------------------------- writes of a response

  /** A step that writes response bytes on a connection. */
  predicate WritesOn(s: Server, l: Label, id: nat) {
    match l
    case WorkerRespond(i, _) => i == id
    case LoopWrite =>
      && s.loop.Batch? && s.loop.writable != []
      && s.loop.writable[0] in s.channels && s.channels[s.loop.writable[0]] == id
    case _ => false
  }

  /** How many steps of a run write on a connection. */
  ghost function WriteSteps(listener: int, labels: seq<Label>, id: nat): nat {
    if labels == [] then 0
    else
      var shorter, l := labels[..|labels| - 1], labels[|labels| - 1];
      var before := After(listener, shorter);
      WriteSteps(listener, shorter, id) + (if before.Some? && WritesOn(before.value, l, id) then 1 else 0)
  }

  /** The chunks that the frames of some responses make. */
  function ChunksFor(replies: seq<seq<byte>>): nat {
    if replies == [] then 0
    else ChunksFor(replies[..|replies| - 1]) + Chunks(INT_SIZE + |replies[|replies| - 1]|)
  }

  /** The chunks still to be written. */
  function ChunksLeft(c: Conn): nat {
    if c.chan.outbox.Some? then Chunks(|c.chan.outbox.value|) else 0
  }

  lemma ChunkOff(n: nat)
    requires n > 0
    ensures Chunks(n) == 1 + Chunks(n - Min(CHUNK, n))
  {
  }

  lemma RespondWrites(c: Conn, reply: seq<byte>)
    requires ConnOk(c) && CanRespond(c, reply)
    ensures 1 + ChunksLeft(Respond(c, reply)) == ChunksLeft(c) + Chunks(INT_SIZE + |reply|)
  {
    ChunkOff(INT_SIZE + |reply|);
  }

  lemma CallbackWrites(c: Conn)
    requires Owes(c)
    ensures 1 + ChunksLeft(Write(c).1) == ChunksLeft(c)
  {
    ChunkOff(|c.chan.outbox.value|);
  }

  lemma OnReadWritesNothing(c: Chan, head: seq<byte>, chunk: seq<byte>)
    ensures OnRead(c, head, chunk).1.outbox == c.outbox
  {
  }

  lemma ReadWritesNothing(c: Conn, k: nat)
    requires CanRead(c, k)
    ensures Read(c, k).1.chan.outbox == c.chan.outbox
  {
    var h := HeadBytes(c);
    OnReadWritesNothing(c.chan, c.c2s[..h], []);
    OnReadWritesNothing(c.chan, c.c2s[..h], c.c2s[h..][..k]);
  }

  /** One step: what it writes is what is then no longer left to write. */
  lemma WriteStep(s: Server, l: Label, id: nat)
    requires Inv(s) && Guard(s, l) && id in s.conns
    ensures id in Apply(s, l).conns
    ensures (if WritesOn(s, l, id) then 1 else 0) + ChunksLeft(Apply(s, l).conns[id])
         == ChunksLeft(s.conns[id])
            + (if l.WorkerRespond? && l.id == id then Chunks(INT_SIZE + |l.reply|) else 0)
  {
    var c := s.conns[id];
    assert ConnOk(c);
    match l {
      case WorkerRespond(i, reply) => if i == id { RespondWrites(c, reply); }
      case LoopWrite => LoopWriteWrites(s, id);
      case LoopRead(k) => LoopReadWrites(s, k, id);
      case _ =>
    }
  }

  lemma LoopWriteWrites(s: Server, id: nat)
    requires Inv(s) && Guard(s, LoopWrite) && id in s.conns
    ensures id in Apply(s, LoopWrite).conns
    ensures (if WritesOn(s, LoopWrite, id) then 1 else 0) + ChunksLeft(Apply(s, LoopWrite).conns[id])
         == ChunksLeft(s.conns[id])
  {
    var fd := s.loop.writable[0];
    assert AllWriteWatched(s, s.loop.writable) && fd in s.watchedWrite && Watches(s);
    assert fd in s.channels && Due(s.conns[s.channels[fd]]);
    CallbackWrites(s.conns[s.channels[fd]]);
  }

  lemma LoopReadWrites(s: Server, k: nat, id: nat)
    requires Guard(s, LoopRead(k)) && id in s.conns
    ensures id in Apply(s, LoopRead(k)).conns
    ensures Apply(s, LoopRead(k)).conns[id].chan.outbox == s.conns[id].chan.outbox
  {
    var fd := s.loop.readable[0];
    if fd in s.channels {
      ReadWritesNothing(s.conns[s.channels[fd]], k);
    }
  }

  lemma ChunksForMore(replies: seq<seq<byte>>, reply: seq<byte>)
    ensures ChunksFor(replies + [reply]) == ChunksFor(replies) + Chunks(INT_SIZE + |reply|)
    ensures replies + [] == replies
  {
    assert (replies + [reply])[..|replies|] == replies;
  }

  /** At any point of a run the steps that have written on a connection, and the chunks left, are the chunks of all
      its responses. */
  lemma {:induction false} WritesAndChunks(listener: int, labels: seq<Label>, s: Server, id: nat)
    requires Reaches(listener, labels, s)
    ensures WriteSteps(listener, labels, id) + (if id in s.conns then ChunksLeft(s.conns[id]) else 0)
         == ChunksFor(Replied(labels, id))
  {
    if labels != [] {
      var shorter, l := labels[..|labels| - 1], labels[|labels| - 1];
      var before := After(listener, shorter).value;
      WritesAndChunks(listener, shorter, before, id);
      ReachableInv(listener, shorter, before);
      ChunksForMore(Replied(shorter, id), if l.WorkerRespond? then l.reply else []);
      if id in before.conns {
        WriteStep(before, l, id);
      } else {
        NotYetOpen(before, l, id);
      }
    }
  }

  /** So once a call has returned, its response and those before it have taken exactly (n + 4) / 1024 steps each,
      rounded up, however these interleave with everything else. */
  lemma ResponseTakesItsChunks(listener: int, labels: seq<Label>, s: Server, id: nat)
    requires Reaches(listener, labels, s) && id in s.conns && s.conns[id].client.Idle?
    ensures WriteSteps(listener, labels, id) == ChunksFor(Replied(labels, id))
  {
    WritesAndChunks(listener, labels, s, id);
    ReachableInv(listener, labels, s);
    assert ConnOk(s.conns[id]);
  }

  /** Every step of a run was possible when its turn came. */
  lemma {:induction false} PrefixReached(listener: int, labels: seq<Label>, n: nat)
    requires n < |labels| && After(listener, labels).Some?
    ensures After(listener, labels[..n]).Some? && Guard(After(listener, labels[..n]).value, labels[n])
    decreases |labels|
  {
    var shorter := labels[..|labels| - 1];
    if n < |shorter| {
      PrefixReached(listener, shorter, n);
      assert shorter[..n] == labels[..n];
    }
  }

  lemma {:induction false} RepliedGrows(labels: seq<Label>, n: nat, id: nat)
    requires n <= |labels|
    ensures Replied(labels[..n], id) <= Replied(labels, id)
    decreases |labels|
  {
    if n < |labels| {
      var shorter := labels[..|labels| - 1];
      RepliedGrows(shorter, n, id);
      assert shorter[..n] == labels[..n];
    } else {
      assert labels[..n] == labels;
    }
  }

  lemma NothingLeft(c: Conn)
    requires ConnOk(c) && (c.job.Handling? || c.returned == c.served)
    ensures ChunksLeft(c) == 0
  {
    assert c.chan.outbox.Some? ==> !Owes(c);
  }

  /** Up to and with a response, that response is the one answer that a run adds on its connection. */
  lemma RepliedNext(labels: seq<Label>, n: nat, id: nat)
    requires n < |labels| && labels[n].WorkerRespond? && labels[n].id == id
    requires |Replied(labels, id)| == |Replied(labels[..n], id)| + 1
    ensures Replied(labels, id) == Replied(labels[..n], id) + [labels[n].reply]
  {
    RepliedGrows(labels, n + 1, id);
    var next := labels[..n + 1];
    assert next[..n] == labels[..n] && next[n] == labels[n];
  }

  /** Each single response: from the step that starts it until its call has returned and before the next response on its
      connection, exactly (n + 4) / 1024 steps, rounded up, write on that connection, in any interleaving. */
  lemma EachResponseTakesItsChunks(listener: int, labels: seq<Label>, n: nat, s: Server, t: Server, id: nat)
    requires n < |labels| && labels[n].WorkerRespond? && labels[n].id == id
    requires Reaches(listener, labels[..n], s) && Reaches(listener, labels, t) && id in s.conns && id in t.conns
    requires |t.conns[id].returned| == |t.conns[id].served| == |s.conns[id].served| + 1
    ensures WriteSteps(listener, labels, id)
         == WriteSteps(listener, labels[..n], id) + Chunks(INT_SIZE + |labels[n].reply|)
    ensures t.conns[id].returned[|s.conns[id].served|].reply == labels[n].reply
  {
    PrefixReached(listener, labels, n);
    HistoryAt(listener, labels[..n], s, id);
    HistoryAt(listener, labels, t, id);
    RepliedNext(labels, n, id);
    ChunksForMore(Replied(labels[..n], id), labels[n].reply);
    WritesAndChunks(listener, labels[..n], s, id);
    WritesAndChunks(listener, labels, t, id);
    NothingLeft(s.conns[id]);
    NothingLeft(t.conns[id]);
  }

  /** What a run says of one connection. */
  lemma HistoryAt(listener: int, labels: seq<Label>, s: Server, id: nat)
    requires Reaches(listener, labels, s) && id in s.conns
    ensures ConnOk(s.conns[id]) && |s.conns[id].served| == |Replied(labels, id)|
    ensures |s.conns[id].returned| == |s.conns[id].served| ==> s.conns[id].returned == s.conns[id].served
    ensures forall i | 0 <= i < |s.conns[id].served| :: s.conns[id].served[i].reply == Replied(labels, id)[i]
  {
    ReachableInv(listener, labels, s);
    History(listener, labels, s, id);
    assert ConnOk(s.conns[id]);
  }

  lemma NotYetOpen(s: Server, l: Label, id: nat)
    requires Inv(s) && Guard(s, l) && id !in s.conns
    ensures !WritesOn(s, l, id) && !(l.WorkerRespond? && l.id == id) && !(l.StartCall? && l.id == id)
    ensures id in Apply(s, l).conns ==> Apply(s, l).conns[id] == NEW_CONN
  {
    if l.LoopWrite? && s.loop.writable[0] in s.channels {
      assert s.channels[s.loop.writable[0]] in s.conns;
    }
  }

  // ---------------------------------------------------------------------------------------- writes of a request

  /** How many steps of a run write request bytes on a connection. */
  function RequestSteps(labels: seq<Label>, id: nat): nat {
    if labels == [] then 0
    else RequestSteps(labels[..|labels| - 1], id) + (if labels[|labels| - 1] == WriteRequest(id) then 1 else 0)
  }

  lemma AskStep(s: Server, l: Label, id: nat)
    requires Inv(s) && Guard(s, l) && id in s.conns
    ensures id in Apply(s, l).conns
    ensures (if l == WriteRequest(id) then 1 else 0) + Chunks(|Unwritten(Apply(s, l).conns[id])|)
         == Chunks(|Unwritten(s.conns[id])|) + (if l.StartCall? && l.id == id then Chunks(4 + |l.msg|) else 0)
  {
    var c := s.conns[id];
    assert ConnOk(c);
    if l == WriteRequest(id) {
      ChunkOff(|c.client.rest|);
    } else if !((l.StartCall? || l.ReadHead? || l.ReadBody?) && l.id == id) {
      SameTalkUnwritten(s, l, id);
    }
  }

  /** The other steps leave the client as it is. */
  lemma SameTalkUnwritten(s: Server, l: Label, id: nat)
    requires Guard(s, l) && id in s.conns
    requires l.StartCall? || l.ReadHead? || l.ReadBody? || l.WriteRequest? ==> l.id != id
    ensures id in Apply(s, l).conns && Apply(s, l).conns[id].client == s.conns[id].client
  {
  }

  /** A request of n bytes is written in exactly (n + 4) / 1024 steps, rounded up, however they interleave: the steps that
      have written on a connection and the chunks still unwritten are the chunks of all its requests. */
  lemma {:induction false} RequestsAndChunks(listener: int, labels: seq<Label>, s: Server, id: nat)
    requires Reaches(listener, labels, s)
    ensures RequestSteps(labels, id) + (if id in s.conns then Chunks(|Unwritten(s.conns[id])|) else 0)
         == ChunksFor(Asked(labels, id))
  {
    if labels != [] {
      var shorter, l := labels[..|labels| - 1], labels[|labels| - 1];
      var before := After(listener, shorter).value;
      RequestsAndChunks(listener, shorter, before, id);
      ReachableInv(listener, shorter, before);
      ChunksForMore(Asked(shorter, id), if l.StartCall? then l.msg else []);
      if id in before.conns {
        AskStep(before, l, id);
      } else {
        NotYetOpen(before, l, id);
        assert l != WriteRequest(id);
      }
    }
  }

  // --------------------------------------------------------------------------------------------- steps of a call

  /** What may still happen to a connection before its client starts another call or a worker answers. */
  function Potential(c: Conn): nat {
    Left(c) + (if Rank(c) == 3 then 3 else if Rank(c) == 2 then 1 else 0)
    + (if c.eof then 0 else 1) + (if c.link.Gone? then 0 else if c.link.Open? then 1 else 2)
  }

  /** What a step brings in: the bytes of a request or of a response, each moved at most twice. */
  function Brings(l: Label, id: nat): nat {
    if l.StartCall? && l.id == id then 2 * (INT_SIZE + |l.msg|) + 5
    else if l.WorkerRespond? && l.id == id then 2 * (INT_SIZE + |l.reply|) + 1
    else 0
  }

  lemma StartSpends(c: Conn, msg: seq<byte>)
    requires ConnOk(c) && CanStart(c, msg)
    ensures Potential(Start(c, msg)) + 1 <= Potential(c) + 2 * (INT_SIZE + |msg|) + 5
  {
    StartKeeps(c, msg);
  }

  lemma RespondSpends(c: Conn, reply: seq<byte>)
    requires ConnOk(c) && CanRespond(c, reply)
    ensures Potential(Respond(c, reply)) + 1 <= Potential(c) + 2 * (INT_SIZE + |reply|) + 1
  {
  }

  lemma ClientSpends(c: Conn)
    requires ConnOk(c)
    ensures CanClientWrite(c) ==> Potential(ClientWrite(c)) + 1 <= Potential(c)
    ensures CanClientHead(c) ==> Potential(ClientHead(c)) + 1 <= Potential(c)
    ensures CanHangup(c) ==> Potential(Hangup(c)) + 1 <= Potential(c)
  {
    if CanClientWrite(c) {
      ClientWriteKeeps(c);
    }
    if CanClientHead(c) {
      ClientHeadKeeps(c);
    }
  }

  lemma BodySpends(c: Conn, k: nat)
    requires ConnOk(c) && CanClientBody(c, k)
    ensures Potential(ClientBody(c, k)) + 1 <= Potential(c)
  {
    ClientBodyKeeps(c, k);
  }

  lemma ReadSpends(c: Conn, k: nat)
    requires ConnOk(c) && c.c2s != [] && Readable(c) && c.link.Open? && CanRead(c, k)
    ensures Potential(Read(c, k).1) + 1 <= Potential(c) && !Ends(Read(c, k).0)
  {
    ReadKeeps(c, k);
    AskingRead(c, k);
  }

  lemma CloseSpends(c: Conn, k: nat)
    requires ConnOk(c) && c.c2s == [] && Readable(c) && c.link.Open? && CanRead(c, k)
    ensures Read(c, k) == (CLOSED, c) && CanClose(c) && Potential(Close(c)) + 1 <= Potential(c)
  {
    ReadKeeps(c, k);
    CloseKeeps(c);
  }

  lemma WriteSpends(c: Conn)
    requires ConnOk(c) && Due(c)
    ensures Potential(Write(c).1) + 1 <= Potential(c)
  {
    WriteKeeps(c);
  }

  lemma WorkerSpends(c: Conn)
    requires ConnOk(c)
    ensures c.job.Queued? ==> Potential(Copy(c)) + 1 <= Potential(c)
    ensures c.job.Copied? ==> Potential(Clear(c)) + 1 <= Potential(c)
    ensures c.job.Arming? ==> Potential(c.(job := NoJob)) + 1 <= Potential(c)
  {
  }

  lemma AcceptSpends(c: Conn, fd: int)
    requires ConnOk(c) && c.link.Backlog?
    ensures Potential(c.(link := Open(fd), chan := NEW_CHAN)) + 1 <= Potential(c)
  {
  }

  ghost predicate Spends(s: Server, l: Label, id: nat)
    requires Guard(s, l) && id in s.conns
  {
    && id in Apply(s, l).conns
    && (Apply(s, l).conns[id] == s.conns[id]
        || Potential(Apply(s, l).conns[id]) + 1 <= Potential(s.conns[id]) + Brings(l, id))
  }

  lemma LoopReadSpends(s: Server, k: nat, id: nat)
    requires Inv(s) && Guard(s, LoopRead(k)) && id in s.conns
    ensures Spends(s, LoopRead(k), id)
  {
    var fd := s.loop.readable[0];
    assert Ready(s, fd);
    if s.channels[fd] == id {
      var c := s.conns[id];
      assert ConnOk(c);
      if c.c2s == [] {
        CloseSpends(c, k);
      } else {
        ReadSpends(c, k);
      }
    }
  }

  lemma LoopWriteSpends(s: Server, id: nat)
    requires Inv(s) && Guard(s, LoopWrite) && id in s.conns
    ensures Spends(s, LoopWrite, id)
  {
    var fd := s.loop.writable[0];
    assert AllWriteWatched(s, s.loop.writable) && fd in s.watchedWrite && Watches(s);
    assert fd in s.channels && Due(s.conns[s.channels[fd]]);
    WriteSpends(s.conns[s.channels[fd]]);
  }

  lemma ClientStepSpends(s: Server, l: Label, id: nat)
    requires Inv(s) && Guard(s, l) && id in s.conns
    requires l.StartCall? || l.WriteRequest? || l.ReadHead? || l.ReadBody? || l.HangUp?
    ensures Spends(s, l, id)
  {
    var c := s.conns[id];
    assert ConnOk(c);
    if l.id == id {
      match l {
        case StartCall(_, msg) => StartSpends(c, msg);
        case ReadBody(_, k) => BodySpends(c, k);
        case _ => ClientSpends(c);
      }
    }
  }

  lemma WorkerStepSpends(s: Server, l: Label, id: nat)
    requires Inv(s) && Guard(s, l) && id in s.conns
    requires l.WorkerCopy? || l.WorkerClear? || l.WorkerRespond? || l.WorkerWatch?
    ensures Spends(s, l, id)
  {
    var c := s.conns[id];
    assert ConnOk(c);
    if l.id == id {
      match l {
        case WorkerRespond(_, reply) => RespondSpends(c, reply);
        case _ => WorkerSpends(c);
      }
    }
  }

  lemma LoopAcceptSpends(s: Server, i: nat, fd: int, id: nat)
    requires Inv(s) && Guard(s, LoopAccept(i, fd)) && id in s.conns
    ensures Spends(s, LoopAccept(i, fd), id)
  {
    var c := s.conns[id];
    assert ConnOk(c);
    if i == id {
      AcceptSpends(c, fd);
    }
  }

  lemma StepSpends(s: Server, l: Label, id: nat)
    requires Inv(s) && Guard(s, l) && id in s.conns
    ensures Spends(s, l, id)
  {
    match l {
      case LoopRead(k) => LoopReadSpends(s, k, id);
      case LoopWrite => LoopWriteSpends(s, id);
      case LoopAccept(i, fd) => LoopAcceptSpends(s, i, fd, id);
      case Connect(_) =>
      case PollReturns(_, _) =>
      case LoopUnwatch =>
      case LoopDone =>
      case WorkerCopy(_) => WorkerStepSpends(s, l, id);
      case WorkerClear(_) => WorkerStepSpends(s, l, id);
      case WorkerRespond(_, _) => WorkerStepSpends(s, l, id);
      case WorkerWatch(_) => WorkerStepSpends(s, l, id);
      case _ => ClientStepSpends(s, l, id);
    }
  }

  /** How many steps of a run change a connection. */
  ghost function Touches(listener: int, labels: seq<Label>, id: nat): nat {
    if labels == [] then 0
    else
      var shorter, l := labels[..|labels| - 1], labels[|labels| - 1];
      var before, after := After(listener, shorter), After(listener, labels);
      Touches(listener, shorter, id) + (if before.Some? && after.Some? && Changes(before.value, after.value, id) then 1 else 0)
  }

  predicate Changes(s: Server, s': Server, id: nat) {
    id in s.conns && id in s'.conns && s'.conns[id] != s.conns[id]
  }

  /** All that the calls and answers of a run bring in. */
  function Brought(labels: seq<Label>, id: nat): nat {
    if labels == [] then 0 else Brought(labels[..|labels| - 1], id) + Brings(labels[|labels| - 1], id)
  }

  /** The steps that touch a connection are bounded by the bytes of its requests and responses: 2 for each byte of a
      frame and a constant for each message, and 3 for being accepted, hung up and closed. */
  lemma {:induction false} BoundedSteps(listener: int, labels: seq<Label>, s: Server, id: nat)
    requires Reaches(listener, labels, s)
    ensures Touches(listener, labels, id) + (if id in s.conns then Potential(s.conns[id]) else 3) <= Brought(labels, id) + 3
  {
    if labels != [] {
      var shorter, l := labels[..|labels| - 1], labels[|labels| - 1];
      var before := After(listener, shorter).value;
      BoundedSteps(listener, shorter, before, id);
      ReachableInv(listener, shorter, before);
      if id in before.conns {
        StepSpends(before, l, id);
      } else {
        NotYetOpen(before, l, id);
      }
    }
  }
}
