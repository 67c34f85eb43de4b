/** What the poll server promises over whole runs. */
module PollGuarantees {
  import opened Bytes
  import opened Channels
  import opened PollConnection
  import opened PollProtocol
  import opened Polling
  import opened Wrappers

  /** The state a list of steps leads to from the start, if every step is possible when its turn comes. */
  ghost function After(listener: int, labels: seq<Label>): Option<Server> {
    if labels == [] then Some(Init(listener))
    else
      var before, l := After(listener, labels[..|labels| - 1]), labels[|labels| - 1];
      if before.Some? && Guard(before.value, l) then Some(Apply(before.value, l)) else None
  }

  ghost predicate Reaches(listener: int, labels: seq<Label>, s: Server) {
    After(listener, labels) == Some(s)
  }

  lemma {:induction false} ReachableInv(listener: int, labels: seq<Label>, s: Server)
    requires Reaches(listener, labels, s)
    ensures Inv(s)
  {
    if labels == [] {
      assert Linked(s) && Watches(s);
    } else {
      var before := After(listener, labels[..|labels| - 1]).value;
      ReachableInv(listener, labels[..|labels| - 1], before);
      StepKeeps(before, labels[|labels| - 1]);
    }
  }

  /** In every reachable state each connection has its message in exactly one stage, and no connection has seen a
      failed read, a second job at once, or a job on a deleted channel. */
  lemma OneMessageInFlight(listener: int, labels: seq<Label>, s: Server, id: nat)
    requires Reaches(listener, labels, s) && id in s.conns
    ensures var c := s.conns[id];
            && (Quiet(c) || Asking(c) || Working(c) || Answering(c))
            && !(Quiet(c) && Asking(c)) && !(Quiet(c) && Working(c)) && !(Quiet(c) && Answering(c))
            && !(Asking(c) && Working(c)) && !(Asking(c) && Answering(c)) && !(Working(c) && Answering(c))
            && !c.client.Failed? && !c.job.Race?
            && c.returned <= c.served && |c.served| <= |c.returned| + 1
  {
    ReachableInv(listener, labels, s);
    OneStage(s.conns[id]);
    assert ConnOk(s.conns[id]);
  }

  // --------------------------------------------------------------------------------- requests and responses

  /** The requests the calls on one connection were started with, in order. */
  function Asked(labels: seq<Label>, id: nat): seq<seq<byte>> {
    if labels == [] then []
    else
      var l := labels[|labels| - 1];
      Asked(labels[..|labels| - 1], id) + (if l.StartCall? && l.id == id then [l.msg] else [])
  }

  /** The responses the workers made on one connection, in order. */
  function Replied(labels: seq<Label>, id: nat): seq<seq<byte>> {
    if labels == [] then []
    else
      var l := labels[|labels| - 1];
      Replied(labels[..|labels| - 1], id) + (if l.WorkerRespond? && l.id == id then [l.reply] else [])
  }

  ghost predicate HistoryOk(c: Conn, asked: seq<seq<byte>>, replied: seq<seq<byte>>) {
    && |c.served| == |replied| <= |asked|
    && (forall i | 0 <= i < |c.served| :: c.served[i] == Exchange(asked[i], replied[i]))
    && |asked| == |c.returned| + (if c.client.Idle? then 0 else 1)
    && (!c.client.Idle? && !c.client.Failed? ==> asked[|c.returned|] == c.client.request)
  }

  lemma HistoryStep(s: Server, l: Label, id: nat, asked: seq<seq<byte>>, replied: seq<seq<byte>>)
    requires Inv(s) && Guard(s, l) && id in Apply(s, l).conns
    requires if id in s.conns then HistoryOk(s.conns[id], asked, replied) else asked == [] && replied == []
    ensures HistoryOk(Apply(s, l).conns[id],
                      asked + (if l.StartCall? && l.id == id then [l.msg] else []),
                      replied + (if l.WorkerRespond? && l.id == id then [l.reply] else []))
  {
    if id in s.conns {
      var c := s.conns[id];
      assert ConnOk(c);
      if l.ReadBody? && l.id == id {
        BodyHistory(c, l.k, asked, replied);
      } else if l.ReadHead? && l.id == id {
        HeadHistory(c, asked, replied);
      } else if l.WorkerRespond? && l.id == id {
        RespondHistory(c, l.reply, asked, replied);
      } else if l.StartCall? && l.id == id {
        StartHistory(c, l.msg, asked, replied);
      } else {
        SameTalk(s, l, id);
      }
      assert asked + [] == asked && replied + [] == replied;
    }
  }

  lemma BodyHistory(c: Conn, k: nat, asked: seq<seq<byte>>, replied: seq<seq<byte>>)
    requires ConnOk(c) && CanClientBody(c, k) && HistoryOk(c, asked, replied)
    ensures HistoryOk(ClientBody(c, k), asked, replied)
  {
  }

  lemma HeadHistory(c: Conn, asked: seq<seq<byte>>, replied: seq<seq<byte>>)
    requires ConnOk(c) && CanClientHead(c) && HistoryOk(c, asked, replied)
    ensures HistoryOk(ClientHead(c), asked, replied)
  {
  }

  lemma RespondHistory(c: Conn, reply: seq<byte>, asked: seq<seq<byte>>, replied: seq<seq<byte>>)
    requires ConnOk(c) && CanRespond(c, reply) && HistoryOk(c, asked, replied)
    ensures HistoryOk(Respond(c, reply), asked, replied + [reply])
  {
  }

  lemma StartHistory(c: Conn, msg: seq<byte>, asked: seq<seq<byte>>, replied: seq<seq<byte>>)
    requires ConnOk(c) && CanStart(c, msg) && HistoryOk(c, asked, replied)
    ensures HistoryOk(Start(c, msg), asked + [msg], replied)
  {
  }

  /** The steps that are not the start or the end of a call or of its handling leave the history as it is. */
  lemma SameTalk(s: Server, l: Label, id: nat)
    requires Inv(s) && Guard(s, l) && id in s.conns
    requires l.StartCall? || l.ReadHead? || l.ReadBody? || l.WorkerRespond? ==> l.id != id
    ensures id in Apply(s, l).conns && SameTalkAs(Apply(s, l).conns[id], s.conns[id])
  {
    if l.LoopRead? {
      LoopReadTalk(s, l.k, id);
    } else if l.LoopWrite? {
      LoopWriteTalk(s, id);
    }
  }

  lemma LoopReadTalk(s: Server, k: nat, id: nat)
    requires Guard(s, LoopRead(k)) && id in s.conns
    ensures id in Apply(s, LoopRead(k)).conns && SameTalkAs(Apply(s, LoopRead(k)).conns[id], s.conns[id])
  {
    if s.loop.readable[0] in s.channels {
      var c := s.conns[s.channels[s.loop.readable[0]]];
      assert SameTalkAs(Read(c, k).1, c);
    }
  }

  lemma LoopWriteTalk(s: Server, id: nat)
    requires Guard(s, LoopWrite) && id in s.conns
    ensures id in Apply(s, LoopWrite).conns && SameTalkAs(Apply(s, LoopWrite).conns[id], s.conns[id])
  {
    if s.loop.writable[0] in s.channels {
      var c := s.conns[s.channels[s.loop.writable[0]]];
      assert SameTalkAs(Write(c).1, c);
    }
  }

  predicate SameTalkAs(c': Conn, c: Conn) {
    && c'.served == c.served && c'.returned == c.returned && (c'.client.Idle? <==> c.client.Idle?)
    && (c'.client == c.client || (c.client.Writing? && (c'.client.Writing? || c'.client.AwaitHead?)
                                  && c'.client.request == c.client.request))
  }

  lemma {:induction false} History(listener: int, labels: seq<Label>, s: Server, id: nat)
    requires Reaches(listener, labels, s)
    ensures if id in s.conns then HistoryOk(s.conns[id], Asked(labels, id), Replied(labels, id))
            else Asked(labels, id) == [] && Replied(labels, id) == []
  {
    if labels != [] {
      var shorter, l := labels[..|labels| - 1], labels[|labels| - 1];
      var before := After(listener, shorter).value;
      History(listener, shorter, before, id);
      ReachableInv(listener, shorter, before);
      if id in s.conns {
        HistoryStep(before, l, id, Asked(shorter, id), Replied(shorter, id));
      }
    }
  }

  /** Over a whole run every call that has returned returned the response made for its own request, and each
      request was answered once: the i-th return is the i-th request with the i-th response. */
  lemma EveryCallGetsItsReply(listener: int, labels: seq<Label>, s: Server, id: nat, i: nat)
    requires Reaches(listener, labels, s) && id in s.conns && i < |s.conns[id].returned|
    ensures |Replied(labels, id)| <= |Asked(labels, id)| <= |s.conns[id].returned| + 1
    ensures i < |Replied(labels, id)|
    ensures s.conns[id].returned[i] == Exchange(Asked(labels, id)[i], Replied(labels, id)[i])
  {
    History(listener, labels, s, id);
    ReachableInv(listener, labels, s);
    assert ConnOk(s.conns[id]);
  }

  // ------------------------------------------------------------------------------- watch sets and batches

  /** In every reachable state a descriptor is watched for writing exactly when its response has bytes left and no
      worker is still about to watch it, apart from the one the loop thread has just found drained and is about to
      unwatch; and the read watches are the listener and the channels. */
  lemma NoLostWakeup(listener: int, labels: seq<Label>, s: Server)
    requires Reaches(listener, labels, s)
    ensures s.listener !in s.channels && s.watchedRead == {s.listener} + s.channels.Keys
    ensures forall fd | fd in s.channels :: s.channels[fd] in s.conns && s.conns[s.channels[fd]].link == Open(fd)
    ensures forall fd :: fd in s.watchedWrite <==>
              || (fd in s.channels && Owes(s.conns[s.channels[fd]]) && !s.conns[s.channels[fd]].job.Arming?)
              || (s.loop.Unwatching? && fd == s.loop.fd)
    ensures s.loop.Unwatching? ==> s.loop.fd in s.channels && !Owes(s.conns[s.channels[s.loop.fd]])
  {
    ReachableInv(listener, labels, s);
  }

  /** No event of a batch is ever stale: every read event left names the listener with someone waiting or a live
      channel with something to read, and every write event a live channel with bytes to write. */
  lemma NoStaleEvents(listener: int, labels: seq<Label>, s: Server)
    requires Reaches(listener, labels, s) && s.loop.Batch?
    ensures forall fd <- s.loop.readable ::
              && fd in s.watchedRead
              && if fd == s.listener then HasBacklog(s)
                 else fd in s.channels && s.channels[fd] in s.conns && Readable(s.conns[s.channels[fd]])
    ensures forall fd <- s.loop.writable ::
              fd in s.watchedWrite && fd in s.channels && s.channels[fd] in s.conns && Due(s.conns[s.channels[fd]])
  {
    ReachableInv(listener, labels, s);
    forall fd <- s.loop.readable ensures Ready(s, fd) {
      var i :| 0 <= i < |s.loop.readable| && s.loop.readable[i] == fd;
      assert Ready(s, s.loop.readable[i]);
    }
  }

  /** An accepted descriptor never takes the place of a live channel. */
  lemma AcceptIsFresh(listener: int, labels: seq<Label>, s: Server, id: nat, fd: int)
    requires Reaches(listener, labels, s) && Guard(s, LoopAccept(id, fd))
    ensures fd !in s.channels
  {
    ReachableInv(listener, labels, s);
    AcceptKeeps(s, id, fd);
  }

  // ---------------------------------------------------------------------------------------------- progress

  /** Neither thread ever waits for the other: a channel with something to read is not busy, a channel about to be
      closed or answered has its send mutex free. So the loop thread always has a step to take. */
  lemma LoopNeverBlocks(listener: int, labels: seq<Label>, s: Server)
    requires Reaches(listener, labels, s) && !s.loop.Waiting?
    ensures exists l :: Guard(s, l) && (l.LoopRead? || l.LoopAccept? || l.LoopWrite? || l.LoopUnwatch? || l.LoopDone?)
  {
    ReachableInv(listener, labels, s);
    if s.loop.Unwatching? {
      assert Guard(s, LoopUnwatch);
    } else if s.loop.readable != [] {
      var fd := s.loop.readable[0];
      assert Ready(s, fd);
      if fd == s.listener {
        var id :| id in s.conns && s.conns[id].link.Backlog?;
        var spare := UnusedDescriptor(s);
        assert Guard(s, LoopAccept(id, spare));
      } else {
        var c := s.conns[s.channels[fd]];
        var k := Min(1, |c.c2s| - HeadBytes(c));
        assert CanRead(c, k) by { assert ConnOk(c); }
        ReadKeeps(c, k);
        assert Guard(s, LoopRead(k));
      }
    } else if s.loop.writable != [] {
      NoStaleEvents(listener, labels, s);
      assert s.loop.writable[0] in s.loop.writable;
      assert Guard(s, LoopWrite);
    } else {
      assert Guard(s, LoopDone);
    }
  }

  lemma UnusedDescriptor(s: Server) returns (fd: int)
    requires Inv(s)
    ensures Unused(s, fd)
  {
    var used := s.channels.Keys + {s.listener};
    fd := AboveAll(used);
    forall id | id in s.conns ensures s.conns[id].link != Open(fd) {
      if s.conns[id].link.Open? {
        assert s.conns[id].link.fd in used;
      }
    }
  }

  lemma AboveAll(fds: set<int>) returns (top: int)
    ensures forall fd | fd in fds :: fd < top
  {
    if fds == {} {
      top := 0;
    } else {
      NonEmpty(fds);
      var fd :| fd in fds;
      var rest := AboveAll(fds - {fd});
      top := if rest > fd then rest else fd + 1;
      assert fds == fds - {fd} + {fd};
    }
  }

  /** A worker that has a response to send is never made to wait for the mutex. */
  lemma WorkerNeverBlocks(listener: int, labels: seq<Label>, s: Server, id: nat, reply: seq<byte>)
    requires Reaches(listener, labels, s) && id in s.conns && s.conns[id].job.Handling? && Sendable(reply)
    ensures Guard(s, WorkerRespond(id, reply)) && s.conns[id].client == AwaitHead(s.conns[id].job.msg)
  {
    ReachableInv(listener, labels, s);
    assert ConnOk(s.conns[id]);
  }

  /** Every step either leaves a call in progress as it is or brings it strictly closer to returning. */
  lemma EveryStepGetsCloser(listener: int, labels: seq<Label>, s: Server, l: Label, id: nat)
    requires Reaches(listener, labels, s) && Guard(s, l) && id in s.conns && !Quiet(s.conns[id])
    ensures id in Apply(s, l).conns
    ensures Apply(s, l).conns[id] == s.conns[id] || Closer(Apply(s, l).conns[id], s.conns[id])
  {
    ReachableInv(listener, labels, s);
    CloserStep(s, l, id);
  }

  /** A connection after a step: as it was, or closer to returning. */
  ghost predicate SameOrCloser(s: Server, l: Label, id: nat)
    requires Guard(s, l) && id in s.conns
  {
    && id in Apply(s, l).conns
    && (Apply(s, l).conns[id] == s.conns[id] || Closer(Apply(s, l).conns[id], s.conns[id]))
  }

  lemma WriteStepCloser(s: Server, id: nat)
    requires Inv(s) && Guard(s, LoopWrite) && id in s.conns
    ensures SameOrCloser(s, LoopWrite, id)
  {
    var fd := s.loop.writable[0];
    assert AllWriteWatched(s, s.loop.writable) && Watches(s);
    assert fd in s.watchedWrite;
    assert fd in s.channels && Due(s.conns[s.channels[fd]]);
    WriteCloser(s.conns[s.channels[fd]]);
  }

  lemma ReadStepCloser(s: Server, k: nat, id: nat)
    requires Inv(s) && Guard(s, LoopRead(k)) && id in s.conns && !Quiet(s.conns[id])
    ensures SameOrCloser(s, LoopRead(k), id)
  {
    var fd := s.loop.readable[0];
    assert Ready(s, fd);
    if s.channels[fd] == id {
      ReadCloser(s.conns[id], k);
    }
  }

  lemma AcceptStepCloser(s: Server, i: nat, fd: int, id: nat)
    requires Inv(s) && Guard(s, LoopAccept(i, fd)) && id in s.conns && !Quiet(s.conns[id])
    ensures SameOrCloser(s, LoopAccept(i, fd), id)
  {
    assert ConnOk(s.conns[id]);
    if i == id {
      AcceptCloser(s.conns[id], fd);
    }
  }

  /** These steps touch no connection that is already there. */
  lemma OtherStepSame(s: Server, l: Label, id: nat)
    requires Guard(s, l) && id in s.conns && (l.Connect? || l.PollReturns? || l.LoopUnwatch? || l.LoopDone?)
    ensures SameOrCloser(s, l, id)
  {
  }

  lemma CloserEnd(s: Server, l: Label, id: nat)
    requires Inv(s) && Guard(s, l) && id in s.conns && !Quiet(s.conns[id])
    requires l.StartCall? || l.WriteRequest? || l.ReadHead? || l.ReadBody? || l.HangUp?
    ensures SameOrCloser(s, l, id)
  {
    var c := s.conns[id];
    assert ConnOk(c);
    if l.id == id {
      ClientCloser(c);
      if l.ReadBody? {
        BodyCloser(c, l.k);
      }
    }
  }

  lemma CloserWork(s: Server, l: Label, id: nat)
    requires Inv(s) && Guard(s, l) && id in s.conns && !Quiet(s.conns[id])
    requires l.WorkerCopy? || l.WorkerClear? || l.WorkerRespond? || l.WorkerWatch?
    ensures SameOrCloser(s, l, id)
  {
    var c := s.conns[id];
    assert ConnOk(c);
    if l.id == id {
      WorkerCloser(c);
      if l.WorkerRespond? {
        RespondCloser(c, l.reply);
      }
    }
  }

  lemma CloserStep(s: Server, l: Label, id: nat)
    requires Inv(s) && Guard(s, l) && id in s.conns && !Quiet(s.conns[id])
    ensures SameOrCloser(s, l, id)
  {
    match l {
      case LoopRead(k) => ReadStepCloser(s, k, id);
      case LoopWrite => WriteStepCloser(s, id);
      case LoopAccept(i, fd) => AcceptStepCloser(s, i, fd, id);
      case WorkerCopy(_) => CloserWork(s, l, id);
      case WorkerClear(_) => CloserWork(s, l, id);
      case WorkerRespond(_, _) => CloserWork(s, l, id);
      case WorkerWatch(_) => CloserWork(s, l, id);
      case StartCall(_, _) => CloserEnd(s, l, id);
      case WriteRequest(_) => CloserEnd(s, l, id);
      case ReadHead(_) => CloserEnd(s, l, id);
      case ReadBody(_, _) => CloserEnd(s, l, id);
      case HangUp(_) => CloserEnd(s, l, id);
      case _ => OtherStepSame(s, l, id);
    }
  }

  /** Someone can always act on a call in progress: the client, a worker, or the loop thread as soon as it polls,
      since what it must act on is watched: the channel, or the listener while the client waits to be accepted. */
  lemma SomeoneCanAct(listener: int, labels: seq<Label>, s: Server, id: nat)
    requires Reaches(listener, labels, s) && id in s.conns && !Quiet(s.conns[id])
    ensures var c := s.conns[id];
            || Guard(s, WriteRequest(id)) || Guard(s, ReadHead(id)) || Guard(s, ReadBody(id, 1))
            || Guard(s, WorkerCopy(id)) || Guard(s, WorkerClear(id)) || Guard(s, WorkerWatch(id))
            || c.job.Handling?
            || (c.link.Backlog? && s.listener in s.watchedRead && HasBacklog(s))
            || (c.link.Open? && c.link.fd in s.watchedRead && Readable(c))
            || (c.link.Open? && c.link.fd in s.watchedWrite && Owes(c))
  {
    ReachableInv(listener, labels, s);
    var c := s.conns[id];
    assert ConnOk(c);
  }

  /** The loop thread's own work in a batch: every step of it leaves less, so every batch ends. */
  function BatchLeft(s: Server): nat {
    match s.loop
    case Waiting => 0
    case Batch(readable, writable) => 1 + 2 * |readable| + 2 * |writable|
    case Unwatching(_, writable) => 2 + 2 * |writable|
  }

  lemma BatchesEnd(s: Server, l: Label)
    requires Guard(s, l) && !l.PollReturns?
    ensures BatchLeft(Apply(s, l)) <= BatchLeft(s)
    ensures l.LoopRead? || l.LoopAccept? || l.LoopWrite? || l.LoopUnwatch? || l.LoopDone? ==>
              BatchLeft(Apply(s, l)) < BatchLeft(s)
  {
  }
}
