/**
 * The poll server as a step system: any number of synchronous clients, the loop thread working through a batch of
 * select events, and pool workers, interleaved in any order. No transport failure; clients hang up between calls.
 */
module PollProtocol {
  import opened Bytes
  import opened Channels
  import opened PollConnection
  import opened Polling

  /** `Unwatching` is the loop thread between a last write callback and the call that unwatches the descriptor. */
  datatype Loop = Waiting | Batch(readable: seq<int>, writable: seq<int>) | Unwatching(fd: int, writable: seq<int>)

  datatype Server = Server(listener: int, conns: map<nat, Conn>, channels: map<int, nat>,
                           watchedRead: set<int>, watchedWrite: set<int>, loop: Loop)

  datatype Label =
    | Connect(id: nat)
    | StartCall(id: nat, msg: seq<byte>)
    | WriteRequest(id: nat)
    | ReadHead(id: nat)
    | ReadBody(id: nat, k: nat)
    | HangUp(id: nat)
    | PollReturns(readable: seq<int>, writable: seq<int>)
    | LoopRead(k: nat)
    | LoopAccept(id: nat, fd: int)
    | LoopWrite
    | LoopUnwatch
    | LoopDone
    | WorkerCopy(id: nat)
    | WorkerClear(id: nat)
    | WorkerRespond(id: nat, reply: seq<byte>)
    | WorkerWatch(id: nat)

  function Init(listener: int): Server {
    Server(listener, map[], map[], {listener}, {}, Waiting)
  }

  ghost predicate HasBacklog(s: Server) {
    exists id :: id in s.conns && s.conns[id].link.Backlog?
  }

  ghost predicate Ready(s: Server, fd: int) {
    && fd in s.watchedRead
    && if fd == s.listener then HasBacklog(s)
       else fd in s.channels && s.channels[fd] in s.conns && Readable(s.conns[s.channels[fd]])
  }

  ghost predicate AllReady(s: Server, fds: seq<int>) {
    Ascending(fds) && forall i | 0 <= i < |fds| :: Ready(s, fds[i])
  }

  predicate AllWriteWatched(s: Server, fds: seq<int>) {
    Ascending(fds) && forall i | 0 <= i < |fds| :: fds[i] in s.watchedWrite
  }

  /** The kernel never hands out a descriptor that is open. */
  predicate Unused(s: Server, fd: int) {
    fd != s.listener && forall id | id in s.conns :: s.conns[id].link != Open(fd)
  }

  /** The read callback goes on to close the channel when the client is gone or its message is broken. */
  predicate Ends(status: Status) {
    status == CLOSED || status == BROKEN
  }

  ghost predicate Guard(s: Server, l: Label) {
    match l
    case Connect(id) => id !in s.conns
    case StartCall(id, msg) => id in s.conns && CanStart(s.conns[id], msg)
    case WriteRequest(id) => id in s.conns && CanClientWrite(s.conns[id])
    case ReadHead(id) => id in s.conns && CanClientHead(s.conns[id])
    case ReadBody(id, k) => id in s.conns && CanClientBody(s.conns[id], k)
    case HangUp(id) => id in s.conns && CanHangup(s.conns[id])
    case PollReturns(readable, writable) =>
      s.loop.Waiting? && AllReady(s, readable) && AllWriteWatched(s, writable)
    case LoopRead(k) =>
      && s.loop.Batch? && s.loop.readable != [] && s.loop.readable[0] != s.listener
      && var fd := s.loop.readable[0];
         fd in s.channels ==>
           && s.channels[fd] in s.conns
           && CanRead(s.conns[s.channels[fd]], k)
           && (Ends(Read(s.conns[s.channels[fd]], k).0) ==> CanClose(Read(s.conns[s.channels[fd]], k).1))
    case LoopAccept(id, fd) =>
      && s.loop.Batch? && s.loop.readable != [] && s.loop.readable[0] == s.listener
      && id in s.conns && s.conns[id].link.Backlog? && Unused(s, fd)
    case LoopWrite =>
      && s.loop.Batch? && s.loop.readable == [] && s.loop.writable != []
      && (s.loop.writable[0] in s.channels ==> s.channels[s.loop.writable[0]] in s.conns)
    case LoopUnwatch => s.loop.Unwatching?
    case LoopDone => s.loop == Batch([], [])
    case WorkerCopy(id) => id in s.conns && s.conns[id].job.Queued?
    case WorkerClear(id) => id in s.conns && s.conns[id].job.Copied?
    case WorkerRespond(id, reply) => id in s.conns && CanRespond(s.conns[id], reply)
    case WorkerWatch(id) => id in s.conns && s.conns[id].job.Arming? && s.conns[id].link.Open?
  }

  function Put(s: Server, id: nat, c: Conn): Server {
    s.(conns := s.conns[id := c])
  }

  /** Closing: both watches go, the channel is deleted and its entry erased. */
  function Drop(s: Server, fd: int, c: Conn): Server
    requires fd in s.channels && CanClose(c)
  {
    Put(s, s.channels[fd], Close(c))
      .(channels := s.channels - {fd}, watchedRead := s.watchedRead - {fd}, watchedWrite := s.watchedWrite - {fd})
  }

  function NextRead(s: Server): Server
    requires s.loop.Batch? && s.loop.readable != []
  {
    s.(loop := Batch(s.loop.readable[1..], s.loop.writable))
  }

  ghost function Apply(s: Server, l: Label): Server
    requires Guard(s, l)
  {
    match l
    case Connect(id) => Put(s, id, NEW_CONN)
    case StartCall(id, msg) => Put(s, id, Start(s.conns[id], msg))
    case WriteRequest(id) => Put(s, id, ClientWrite(s.conns[id]))
    case ReadHead(id) => Put(s, id, ClientHead(s.conns[id]))
    case ReadBody(id, k) => Put(s, id, ClientBody(s.conns[id], k))
    case HangUp(id) => Put(s, id, Hangup(s.conns[id]))
    case PollReturns(readable, writable) => s.(loop := Batch(readable, writable))
    case LoopRead(k) =>
      var fd := s.loop.readable[0];
      if fd !in s.channels then NextRead(s)
      else
        var (status, c) := Read(s.conns[s.channels[fd]], k);
        if Ends(status) then NextRead(Drop(s, fd, c)) else NextRead(Put(s, s.channels[fd], c))
    case LoopAccept(id, fd) =>
      NextRead(Put(s, id, s.conns[id].(link := Open(fd), chan := NEW_CHAN)))
        .(watchedRead := s.watchedRead + {fd}, channels := s.channels[fd := id])
    case LoopWrite =>
      var fd, later := s.loop.writable[0], s.loop.writable[1..];
      if fd !in s.channels then s.(loop := Batch([], later))
      else
        var (status, c) := Write(s.conns[s.channels[fd]]);
        Put(s, s.channels[fd], c)
          .(loop := if status == WRITE_READY then Unwatching(fd, later) else Batch([], later))
    case LoopUnwatch => s.(watchedWrite := s.watchedWrite - {s.loop.fd}, loop := Batch([], s.loop.writable))
    case LoopDone => s.(loop := Waiting)
    case WorkerCopy(id) => Put(s, id, Copy(s.conns[id]))
    case WorkerClear(id) => Put(s, id, Clear(s.conns[id]))
    case WorkerRespond(id, reply) => Put(s, id, Respond(s.conns[id], reply))
    case WorkerWatch(id) =>
      Put(s, id, s.conns[id].(job := NoJob)).(watchedWrite := s.watchedWrite + {s.conns[id].link.fd})
  }

  // -------------------------------------------------------------------------------------------- the invariant

  /** The response has bytes left and its worker has finished arming the write watch. */
  predicate Due(c: Conn) {
    Owes(c) && !c.job.Arming?
  }

  /** `_channels` and the open connections are the same thing, and the listener is none of them. */
  ghost predicate Linked(s: Server) {
    && s.listener !in s.channels
    && (forall fd | fd in s.channels :: s.channels[fd] in s.conns && s.conns[s.channels[fd]].link == Open(fd))
    && (forall id | id in s.conns && s.conns[id].link.Open? ::
          s.conns[id].link.fd in s.channels && s.channels[s.conns[id].link.fd] == id)
  }

  ghost predicate Watches(s: Server)
    requires Linked(s)
  {
    && s.watchedRead == {s.listener} + s.channels.Keys
    && (forall fd :: fd in s.watchedWrite <==>
          (fd in s.channels && Due(s.conns[s.channels[fd]])) || (s.loop.Unwatching? && s.loop.fd == fd))
  }

  /** Every event left in the batch still means what select said. */
  ghost predicate LoopOk(s: Server)
    requires Linked(s)
  {
    match s.loop
    case Waiting => true
    case Batch(readable, writable) => AllReady(s, readable) && AllWriteWatched(s, writable)
    case Unwatching(fd, writable) =>
      && AllWriteWatched(s, writable) && fd !in writable
      && fd in s.channels && s.conns[s.channels[fd]].job.NoJob? && !Owes(s.conns[s.channels[fd]])
  }

  ghost predicate Inv(s: Server) {
    && Linked(s) && Watches(s) && LoopOk(s)
    && forall id | id in s.conns :: ConnOk(s.conns[id])
  }

  /** A change to one connection that keeps its link and its claim to a write watch, and no event it answers to. */
  lemma PutKeeps(s: Server, id: nat, c': Conn)
    requires Inv(s) && id in s.conns && ConnOk(c') && c'.link == s.conns[id].link
    requires Due(c') <==> Due(s.conns[id])
    requires s.loop.Batch? && c'.link.Open? && c'.link.fd in s.loop.readable ==> Readable(c')
    requires s.loop.Unwatching? && c'.link == Open(s.loop.fd) ==> c'.job.NoJob? && !Owes(c')
    ensures Inv(Put(s, id, c'))
  {
    var s' := Put(s, id, c');
    forall fd | Ready(s, fd) && (fd in s.channels && s.channels[fd] == id ==> Readable(c'))
      ensures Ready(s', fd)
    {
      if fd == s.listener {
        var b :| b in s.conns && s.conns[b].link.Backlog?;
        assert b in s'.conns && s'.conns[b].link.Backlog?;
      }
    }
    assert Linked(s');
    assert Watches(s');
    if s.loop.Batch? {
      forall i | 0 <= i < |s.loop.readable| ensures Ready(s', s.loop.readable[i]) {
        assert Ready(s, s.loop.readable[i]);
      }
    }
  }

  /** A read callback ends in a close exactly when a header was due and what came is short or announces nothing, be it
      that the client is gone or that its message is broken; the descriptor is then watched no more. */
  lemma LoopReadCloses(s: Server, k: nat)
    requires Guard(s, LoopRead(k)) && s.loop.readable[0] in s.channels
    ensures var fd, s' := s.loop.readable[0], Apply(s, LoopRead(k));
            var c := s.conns[s.channels[fd]];
            && (fd !in s'.channels <==> c.chan.inbox.None? && (|c.c2s| < 4 || DecodeInt(c.c2s[..4]) <= 0))
            && (fd !in s'.channels ==>
                  s'.conns[s.channels[fd]].link.Gone? && s'.channels == s.channels - {fd}
                  && s'.watchedRead == s.watchedRead - {fd} && s'.watchedWrite == s.watchedWrite - {fd})
            && (fd in s'.channels ==>
                  s'.channels == s.channels && s'.watchedRead == s.watchedRead && s'.watchedWrite == s.watchedWrite)
  {
  }

  predicate OfLoop(l: Label) {
    l.PollReturns? || l.LoopRead? || l.LoopAccept? || l.LoopWrite? || l.LoopUnwatch? || l.LoopDone?
  }

  /** There is one loop thread: at any time at most one kind of step is its next one, and reads come before writes. */
  lemma LoopIsOneThread(s: Server, l: Label, m: Label)
    requires Guard(s, l) && Guard(s, m) && OfLoop(l) && OfLoop(m)
    ensures l.PollReturns? == m.PollReturns? && l.LoopRead? == m.LoopRead? && l.LoopAccept? == m.LoopAccept?
    ensures l.LoopWrite? == m.LoopWrite? && l.LoopUnwatch? == m.LoopUnwatch? && l.LoopDone? == m.LoopDone?
  {
  }

  /** Taking the first read event off the batch. */
  lemma NextReadKeeps(s: Server)
    requires Inv(s) && s.loop.Batch? && s.loop.readable != []
    ensures Inv(NextRead(s)) && s.loop.readable[0] !in NextRead(s).loop.readable
  {
    var s' := NextRead(s);
    forall i | 0 <= i < |s'.loop.readable|
      ensures Ready(s', s'.loop.readable[i]) && s'.loop.readable[i] != s.loop.readable[0]
    {
      assert s'.loop.readable[i] == s.loop.readable[i + 1];
      assert Ready(s, s.loop.readable[i + 1]);
    }
  }

  lemma ConnectKeeps(s: Server, id: nat)
    requires Inv(s) && id !in s.conns
    ensures Inv(Put(s, id, NEW_CONN))
  {
    var s' := Put(s, id, NEW_CONN);
    assert ConnOk(NEW_CONN);
    assert s'.conns[id].link.Backlog?;
    assert Linked(s') && Watches(s');
    if s.loop.Batch? {
      forall i | 0 <= i < |s.loop.readable| ensures Ready(s', s.loop.readable[i]) {
        assert Ready(s, s.loop.readable[i]);
      }
    }
  }

  /** Requests, responses and hang-ups, as the client takes part in them. */
  lemma ClientKeeps(s: Server, l: Label)
    requires Inv(s) && Guard(s, l)
    requires l.StartCall? || l.WriteRequest? || l.ReadHead? || l.ReadBody? || l.HangUp?
    ensures Inv(Apply(s, l))
  {
    var c := s.conns[l.id];
    match l {
      case StartCall(id, msg) => StartKeeps(c, msg);
      case WriteRequest(id) => ClientWriteKeeps(c);
      case ReadHead(id) => ClientHeadKeeps(c);
      case ReadBody(id, k) => ClientBodyKeeps(c, k);
      case HangUp(id) => HangupKeeps(c);
    }
    var c' := Apply(s, l).conns[l.id];
    if s.loop.Batch? && c.link.Open? && c.link.fd in s.loop.readable {
      assert Ready(s, c.link.fd);
    }
    PutKeeps(s, l.id, c');
  }

  lemma LoopReadKeeps(s: Server, k: nat)
    requires Inv(s) && Guard(s, LoopRead(k))
    ensures Inv(Apply(s, LoopRead(k)))
  {
    var fd := s.loop.readable[0];
    assert Ready(s, fd);
    var id := s.channels[fd];
    var (status, c') := Read(s.conns[id], k);
    ReadKeeps(s.conns[id], k);
    NextReadKeeps(s);
    if Ends(status) {
      DropKeeps(NextRead(s), fd);
      assert NextRead(Drop(s, fd, c')) == Drop(NextRead(s), fd, c');
    } else {
      PutKeeps(NextRead(s), id, c');
    }
  }

  lemma DropKeeps(s: Server, fd: int)
    requires Inv(s) && s.loop.Batch? && fd in s.channels && fd !in s.loop.readable
    requires Quiet(s.conns[s.channels[fd]]) && s.conns[s.channels[fd]].eof
    ensures CanClose(s.conns[s.channels[fd]]) && Inv(Drop(s, fd, s.conns[s.channels[fd]]))
  {
    var c := s.conns[s.channels[fd]];
    CloseKeeps(c);
    var s' := Drop(s, fd, c);
    assert !Due(c) && fd !in s.watchedWrite;
    assert Linked(s') && Watches(s');
    forall i | 0 <= i < |s.loop.readable| ensures Ready(s', s.loop.readable[i]) {
      assert Ready(s, s.loop.readable[i]);
      if s.loop.readable[i] == s.listener {
        var b :| b in s.conns && s.conns[b].link.Backlog?;
        assert b in s'.conns && s'.conns[b].link.Backlog?;
      }
    }
  }

  lemma AcceptLinks(s: Server, id: nat, fd: int)
    requires Inv(s) && Guard(s, LoopAccept(id, fd))
    ensures fd !in s.channels && Linked(Apply(s, LoopAccept(id, fd))) && Watches(Apply(s, LoopAccept(id, fd)))
  {
    assert forall f | f in s.channels :: s.channels[f] in s.conns && s.conns[s.channels[f]].link == Open(f);
  }

  lemma AcceptKeeps(s: Server, id: nat, fd: int)
    requires Inv(s) && Guard(s, LoopAccept(id, fd))
    ensures fd !in s.channels && Inv(Apply(s, LoopAccept(id, fd)))
  {
    AcceptLinks(s, id, fd);
    NextReadKeeps(s);
    var t := NextRead(s);
    var c := s.conns[id].(link := Open(fd), chan := NEW_CHAN);
    assert ConnOk(c);
    var s' := Apply(s, LoopAccept(id, fd));
    assert s'.conns == s.conns[id := c] && s'.channels == s.channels[fd := id];
    forall i | 0 <= i < |t.loop.readable| ensures Ready(s', t.loop.readable[i]) {
      assert Ready(t, t.loop.readable[i]) && t.loop.readable[i] != s.listener;
    }
  }

  lemma LoopWriteKeeps(s: Server)
    requires Inv(s) && Guard(s, LoopWrite)
    ensures Inv(Apply(s, LoopWrite))
  {
    var fd, later := s.loop.writable[0], s.loop.writable[1..];
    assert fd in s.watchedWrite;
    var id := s.channels[fd];
    var c := s.conns[id];
    WriteKeeps(c);
    var (status, c') := Write(c);
    assert fd !in later && AllWriteWatched(s, later);
    var t := s.(loop := Batch([], later));
    if status != WRITE_READY {
      PutKeeps(t, id, c');
    } else {
      var s' := Put(s, id, c').(loop := Unwatching(fd, later));
      assert Linked(s') && Watches(s') && LoopOk(s');
    }
  }

  lemma WorkerKeeps(s: Server, l: Label)
    requires Inv(s) && Guard(s, l)
    requires l.WorkerCopy? || l.WorkerClear? || l.WorkerRespond? || l.WorkerWatch?
    ensures Inv(Apply(s, l))
  {
    var c := s.conns[l.id];
    if s.loop.Batch? && c.link.Open? && c.link.fd in s.loop.readable {
      assert Ready(s, c.link.fd);
    }
    match l {
      case WorkerCopy(id) => CopyKeeps(c); PutKeeps(s, id, Copy(c));
      case WorkerClear(id) => ClearKeeps(c); PutKeeps(s, id, Clear(c));
      case WorkerRespond(id, reply) => RespondKeeps(c, reply); PutKeeps(s, id, Respond(c, reply));
      case WorkerWatch(id) =>
        WatchKeeps(s, id);
    }
  }

  /** A response whose write watch has just been armed is due. */
  lemma WatchKeeps(s: Server, id: nat)
    requires Inv(s) && Guard(s, WorkerWatch(id))
    ensures Inv(Apply(s, WorkerWatch(id)))
  {
    ArmedKeeps(s.conns[id]);
    var s' := Apply(s, WorkerWatch(id));
    assert Linked(s') && Watches(s');
    if s.loop.Batch? {
      forall i | 0 <= i < |s.loop.readable| ensures Ready(s', s.loop.readable[i]) {
        assert Ready(s, s.loop.readable[i]);
        if s.loop.readable[i] == s.listener {
          var b :| b in s.conns && s.conns[b].link.Backlog?;
          assert b in s'.conns && s'.conns[b].link.Backlog?;
        }
      }
    }
  }

  lemma PollKeeps(s: Server, readable: seq<int>, writable: seq<int>)
    requires Inv(s) && Guard(s, PollReturns(readable, writable))
    ensures Inv(s.(loop := Batch(readable, writable)))
  {
    var s' := s.(loop := Batch(readable, writable));
    assert Linked(s') && Watches(s');
    forall i | 0 <= i < |readable| ensures Ready(s', readable[i]) {
      assert Ready(s, readable[i]);
    }
  }

  lemma UnwatchKeeps(s: Server)
    requires Inv(s) && s.loop.Unwatching?
    ensures Inv(Apply(s, LoopUnwatch))
  {
  }

  /** Every step of every thread keeps the invariant. */
  lemma StepKeeps(s: Server, l: Label)
    requires Inv(s) && Guard(s, l)
    ensures Inv(Apply(s, l))
  {
    match l {
      case Connect(id) => ConnectKeeps(s, id);
      case LoopRead(k) => LoopReadKeeps(s, k);
      case LoopAccept(id, fd) => AcceptKeeps(s, id, fd);
      case LoopWrite => LoopWriteKeeps(s);
      case PollReturns(readable, writable) => PollKeeps(s, readable, writable);
      case LoopUnwatch => UnwatchKeeps(s);
      case LoopDone => DoneKeeps(s);
      case WorkerCopy(_) => WorkerKeeps(s, l);
      case WorkerClear(_) => WorkerKeeps(s, l);
      case WorkerRespond(_, _) => WorkerKeeps(s, l);
      case WorkerWatch(_) => WorkerKeeps(s, l);
      case _ => ClientKeeps(s, l);
    }
  }

  lemma DoneKeeps(s: Server)
    requires Inv(s) && s.loop == Batch([], [])
    ensures Inv(s.(loop := Waiting))
  {
  }
}
