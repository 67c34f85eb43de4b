/** From every reachable state of the poll server each call in progress has a run in which it returns. */
module PollProgress {
  import opened Bytes
  import opened Channels
  import opened PollConnection
  import opened PollGuarantees
  import opened PollProtocol
  import opened Polling
  import opened Wrappers

  /** What the call in progress returns: the answer already made to it, or the one its worker makes. */
  function Eventual(c: Conn, reply: seq<byte>): Exchange
    requires !c.client.Idle? && !c.client.Failed?
  {
    if |c.served| > |c.returned| then c.served[|c.returned|] else Exchange(c.client.request, reply)
  }

  /** Still the same call, or returned with what it was to return. */
  predicate OnItsWay(c: Conn, c': Conn, reply: seq<byte>)
    requires !c.client.Idle? && !c.client.Failed?
  {
    if c'.client.Idle? then c'.returned == c.returned + [Eventual(c, reply)]
    else !c'.client.Failed? && c'.returned == c.returned && Eventual(c', reply) == Eventual(c, reply)
  }

  // ------------------------------------------------------------------------------- one step keeps it on its way

  lemma TalkOnItsWay(c: Conn, c': Conn, reply: seq<byte>)
    requires !c.client.Idle? && !c.client.Failed? && !c'.client.Failed? && SameTalkAs(c', c)
    ensures OnItsWay(c, c', reply)
  {
  }

  lemma HeadOnItsWay(c: Conn, reply: seq<byte>)
    requires ConnOk(c) && CanClientHead(c)
    ensures !c.client.Idle? && !c.client.Failed? && OnItsWay(c, ClientHead(c), reply)
  {
    ClientHeadKeeps(c);
  }

  lemma BodyOnItsWay(c: Conn, k: nat, reply: seq<byte>)
    requires ConnOk(c) && CanClientBody(c, k)
    ensures !c.client.Idle? && !c.client.Failed? && OnItsWay(c, ClientBody(c, k), reply)
  {
    ClientBodyKeeps(c, k);
  }

  lemma RespondOnItsWay(c: Conn, reply: seq<byte>)
    requires ConnOk(c) && CanRespond(c, reply)
    ensures !c.client.Idle? && !c.client.Failed? && OnItsWay(c, Respond(c, reply), reply)
  {
  }

  lemma StepOnItsWay(s: Server, l: Label, id: nat, reply: seq<byte>)
    requires Inv(s) && Guard(s, l) && id in s.conns && !s.conns[id].client.Idle?
    requires l.WorkerRespond? && l.id == id ==> l.reply == reply
    ensures id in Apply(s, l).conns
    ensures !s.conns[id].client.Failed? && OnItsWay(s.conns[id], Apply(s, l).conns[id], reply)
  {
    var c := s.conns[id];
    assert ConnOk(c);
    if l.ReadHead? && l.id == id {
      HeadOnItsWay(c, reply);
    } else if l.ReadBody? && l.id == id {
      BodyOnItsWay(c, l.k, reply);
    } else if l.WorkerRespond? && l.id == id {
      RespondOnItsWay(c, reply);
    } else {
      SameTalk(s, l, id);
      TalkOnItsWay(c, Apply(s, l).conns[id], reply);
    }
  }

  // ------------------------------------------------------------------------------------------------ runs onward

  /** A run that goes on. */
  lemma Extend(listener: int, labels: seq<Label>, s: Server, l: Label)
    requires Reaches(listener, labels, s) && Guard(s, l)
    ensures Reaches(listener, labels + [l], Apply(s, l))
  {
    assert (labels + [l])[..|labels|] == labels;
  }

  predicate InCall(s: Server, id: nat) {
    id in s.conns && !s.conns[id].client.Idle? && !s.conns[id].client.Failed?
  }

  /** What has to fall until a call returns. */
  predicate Nearer(s: Server, s': Server, id: nat)
    requires id in s.conns && id in s'.conns
  {
    var c, c' := s.conns[id], s'.conns[id];
    Closer(c', c) || (Rank(c') == Rank(c) && Left(c') == Left(c) && BatchLeft(s') < BatchLeft(s))
  }

  /** Some steps that keep the call on its way and bring it nearer, or return it. */
  ghost predicate Advances(listener: int, labels: seq<Label>, s: Server, more: seq<Label>, t: Server, id: nat,
                           reply: seq<byte>)
    requires InCall(s, id)
  {
    && Reaches(listener, labels + more, t) && id in t.conns
    && OnItsWay(s.conns[id], t.conns[id], reply) && Nearer(s, t, id)
  }

  /** A step that changes the connection, or that leaves it and shortens the batch. */
  lemma OneStep(listener: int, labels: seq<Label>, s: Server, l: Label, id: nat, reply: seq<byte>)
    requires Reaches(listener, labels, s) && Guard(s, l) && InCall(s, id)
    requires l.WorkerRespond? && l.id == id ==> l.reply == reply
    requires id in Apply(s, l).conns && Apply(s, l).conns[id] == s.conns[id] ==> BatchLeft(Apply(s, l)) < BatchLeft(s)
    ensures Advances(listener, labels, s, [l], Apply(s, l), id, reply)
  {
    ReachableInv(listener, labels, s);
    assert ConnOk(s.conns[id]);
    Extend(listener, labels, s, l);
    StepOnItsWay(s, l, id, reply);
    EveryStepGetsCloser(listener, labels, s, l, id);
  }

  /** The steps of the client and of the call's worker. */
  predicate Own(l: Label, id: nat, reply: seq<byte>) {
    || l == WriteRequest(id) || l == ReadHead(id) || l == ReadBody(id, 1)
    || l == WorkerCopy(id) || l == WorkerClear(id) || l == WorkerWatch(id) || l == WorkerRespond(id, reply)
  }

  lemma OwnChanges(c: Conn, c': Conn)
    requires Closer(c', c)
    ensures c' != c
  {
  }

  lemma OwnStep(listener: int, labels: seq<Label>, s: Server, l: Label, id: nat, reply: seq<byte>)
    requires Reaches(listener, labels, s) && Guard(s, l) && InCall(s, id) && Own(l, id, reply)
    ensures Advances(listener, labels, s, [l], Apply(s, l), id, reply)
  {
    ReachableInv(listener, labels, s);
    var c := s.conns[id];
    assert ConnOk(c);
    ClientCloser(c);
    WorkerCloser(c);
    if l.ReadBody? {
      BodyCloser(c, 1);
    } else if l.WorkerRespond? {
      RespondCloser(c, reply);
    }
    OwnChanges(c, Apply(s, l).conns[id]);
    OneStep(listener, labels, s, l, id, reply);
  }

  /** While it works through a batch the loop thread gets on with it. */
  lemma BatchStep(listener: int, labels: seq<Label>, s: Server, id: nat, reply: seq<byte>)
    returns (more: seq<Label>, t: Server)
    requires Reaches(listener, labels, s) && InCall(s, id) && !s.loop.Waiting?
    ensures Advances(listener, labels, s, more, t, id, reply)
  {
    LoopNeverBlocks(listener, labels, s);
    var l :| Guard(s, l) && (l.LoopRead? || l.LoopAccept? || l.LoopWrite? || l.LoopUnwatch? || l.LoopDone?);
    BatchesEnd(s, l);
    OneStep(listener, labels, s, l, id, reply);
    more, t := [l], Apply(s, l);
  }

  /** A batch of one event. */
  lemma Poll(listener: int, labels: seq<Label>, s: Server, readable: seq<int>, writable: seq<int>)
    requires Reaches(listener, labels, s) && s.loop.Waiting?
    requires AllReady(s, readable) && AllWriteWatched(s, writable)
    ensures Reaches(listener, labels + [PollReturns(readable, writable)], s.(loop := Batch(readable, writable)))
  {
    Extend(listener, labels, s, PollReturns(readable, writable));
  }

  /** Two steps of which the first leaves the connections alone. */
  lemma AfterPoll(listener: int, labels: seq<Label>, s: Server, first: Label, t: Server, l: Label, id: nat,
                  reply: seq<byte>)
    requires Reaches(listener, labels + [first], t) && InCall(s, id) && t.conns == s.conns && Guard(t, l)
    requires !l.WorkerRespond? && id in Apply(t, l).conns && Apply(t, l).conns[id] != s.conns[id]
    ensures Advances(listener, labels, s, [first, l], Apply(t, l), id, reply)
  {
    OneStep(listener, labels + [first], t, l, id, reply);
    EveryStepGetsCloser(listener, labels + [first], t, l, id);
    assert labels + [first] + [l] == labels + [first, l];
  }

  lemma ReadableStep(listener: int, labels: seq<Label>, s: Server, id: nat, reply: seq<byte>)
    returns (more: seq<Label>, t: Server)
    requires Reaches(listener, labels, s) && InCall(s, id) && s.loop.Waiting?
    requires s.conns[id].link.Open? && s.conns[id].link.fd in s.watchedRead && Readable(s.conns[id])
    ensures Advances(listener, labels, s, more, t, id, reply)
  {
    ReachableInv(listener, labels, s);
    var c := s.conns[id];
    assert ConnOk(c);
    var fd, k := c.link.fd, Min(1, |c.c2s| - HeadBytes(c));
    Poll(listener, labels, s, [fd], []);
    var polled := s.(loop := Batch([fd], []));
    ReadKeeps(c, k) by { assert CanRead(c, k); }
    ReadCloser(c, k);
    OwnChanges(c, Read(c, k).1);
    AfterPoll(listener, labels, s, PollReturns([fd], []), polled, LoopRead(k), id, reply);
    more, t := [PollReturns([fd], []), LoopRead(k)], Apply(polled, LoopRead(k));
  }

  lemma WritableStep(listener: int, labels: seq<Label>, s: Server, id: nat, reply: seq<byte>)
    returns (more: seq<Label>, t: Server)
    requires Reaches(listener, labels, s) && InCall(s, id) && s.loop.Waiting?
    requires s.conns[id].link.Open? && s.conns[id].link.fd in s.watchedWrite && Owes(s.conns[id])
    ensures Advances(listener, labels, s, more, t, id, reply)
  {
    ReachableInv(listener, labels, s);
    NoLostWakeup(listener, labels, s);
    var c := s.conns[id];
    assert ConnOk(c);
    var fd := c.link.fd;
    Poll(listener, labels, s, [], [fd]);
    var polled := s.(loop := Batch([], [fd]));
    WriteCloser(c);
    OwnChanges(c, Write(c).1);
    AfterPoll(listener, labels, s, PollReturns([], [fd]), polled, LoopWrite, id, reply);
    more, t := [PollReturns([], [fd]), LoopWrite], Apply(polled, LoopWrite);
  }

  lemma BacklogStep(listener: int, labels: seq<Label>, s: Server, id: nat, reply: seq<byte>)
    returns (more: seq<Label>, t: Server)
    requires Reaches(listener, labels, s) && InCall(s, id) && s.loop.Waiting?
    requires s.conns[id].link.Backlog? && s.listener in s.watchedRead
    ensures Advances(listener, labels, s, more, t, id, reply)
  {
    ReachableInv(listener, labels, s);
    assert HasBacklog(s);
    Poll(listener, labels, s, [s.listener], []);
    var polled := s.(loop := Batch([s.listener], []));
    var fd := UnusedDescriptor(s);
    AfterPoll(listener, labels, s, PollReturns([s.listener], []), polled, LoopAccept(id, fd), id, reply);
    more, t := [PollReturns([s.listener], []), LoopAccept(id, fd)], Apply(polled, LoopAccept(id, fd));
  }

  /** Whatever a call waits for, something can bring it nearer. */
  lemma Advance(listener: int, labels: seq<Label>, s: Server, id: nat, reply: seq<byte>)
    returns (more: seq<Label>, t: Server)
    requires Reaches(listener, labels, s) && InCall(s, id) && Sendable(reply)
    ensures Advances(listener, labels, s, more, t, id, reply)
  {
    var c := s.conns[id];
    if s.conns[id].job.Handling? {
      WorkerNeverBlocks(listener, labels, s, id, reply);
    }
    SomeoneCanAct(listener, labels, s, id);
    if l :| Own(l, id, reply) && Guard(s, l) {
      OwnStep(listener, labels, s, l, id, reply);
      more, t := [l], Apply(s, l);
    } else if !s.loop.Waiting? {
      more, t := BatchStep(listener, labels, s, id, reply);
    } else if c.link.Backlog? {
      more, t := BacklogStep(listener, labels, s, id, reply);
    } else if Readable(c) && c.link.Open? && c.link.fd in s.watchedRead {
      more, t := ReadableStep(listener, labels, s, id, reply);
    } else {
      more, t := WritableStep(listener, labels, s, id, reply);
    }
  }

  lemma OnItsWayOn(c: Conn, d: Conn, e: Conn, reply: seq<byte>)
    requires !c.client.Idle? && !c.client.Failed? && OnItsWay(c, d, reply)
    requires !d.client.Idle? && OnItsWay(d, e, reply)
    ensures OnItsWay(c, e, reply)
  {
  }

  lemma {:induction false} Return(listener: int, labels: seq<Label>, s: Server, id: nat, reply: seq<byte>)
    returns (more: seq<Label>, t: Server)
    requires Reaches(listener, labels, s) && InCall(s, id) && Sendable(reply)
    ensures Reaches(listener, labels + more, t) && id in t.conns && t.conns[id].client.Idle?
    ensures OnItsWay(s.conns[id], t.conns[id], reply)
    decreases Rank(s.conns[id]), Left(s.conns[id]), BatchLeft(s)
  {
    more, t := Advance(listener, labels, s, id, reply);
    if !t.conns[id].client.Idle? {
      var rest, u := Return(listener, labels + more, t, id, reply);
      OnItsWayOn(s.conns[id], t.conns[id], u.conns[id], reply);
      assert labels + more + rest == labels + (more + rest);
      more, t := more + rest, u;
    }
  }

  /** From every reachable state a call in progress has a run in which it returns: with the answer its worker has
      already made, or else with any answer at all that the handler makes of its request. */
  lemma CallCanReturn(listener: int, labels: seq<Label>, s: Server, id: nat, reply: seq<byte>)
    requires Reaches(listener, labels, s) && id in s.conns && !s.conns[id].client.Idle? && Sendable(reply)
    ensures !s.conns[id].client.Failed?
    ensures exists more: seq<Label>, t: Server ::
              && Reaches(listener, labels + more, t) && id in t.conns && t.conns[id].client.Idle?
              && t.conns[id].returned == s.conns[id].returned + [Eventual(s.conns[id], reply)]
  {
    OneMessageInFlight(listener, labels, s, id);
    var more, t := Return(listener, labels, s, id, reply);
  }

  /** A client that is not in a call and has not hung up can make its next one, and so can one that is still to come: it
      can start a call with any request, and that call can return any answer. */
  lemma NextCallCanReturn(listener: int, labels: seq<Label>, s: Server, id: nat, msg: seq<byte>, reply: seq<byte>)
    requires Reaches(listener, labels, s) && Sendable(msg) && Sendable(reply)
    requires id in s.conns ==> s.conns[id].client.Idle? && !s.conns[id].eof
    ensures exists more: seq<Label>, t: Server ::
              && Reaches(listener, labels + more, t) && id in t.conns && t.conns[id].client.Idle?
              && t.conns[id].returned == (if id in s.conns then s.conns[id].returned else []) + [Exchange(msg, reply)]
  {
    var first := if id in s.conns then [] else [Connect(id)];
    var s1 := if id in s.conns then s else Apply(s, Connect(id));
    if id !in s.conns {
      Extend(listener, labels, s, Connect(id));
    }
    assert labels + [] == labels;
    assert Reaches(listener, labels + first, s1);
    Extend(listener, labels + first, s1, StartCall(id, msg));
    var s2 := Apply(s1, StartCall(id, msg));
    OneMessageInFlight(listener, labels + first + [StartCall(id, msg)], s2, id);
    var rest, t := Return(listener, labels + first + [StartCall(id, msg)], s2, id, reply);
    assert labels + first + [StartCall(id, msg)] + rest == labels + (first + [StartCall(id, msg)] + rest);
  }
}
