/** Which calls can still end: runs onward from a reachable state of the thread-per-connection server. */
module SockProgress {
  import opened Proto
  import opened Retry
  import opened SockConnection
  import opened SockProtocol
  import opened SockGuarantees
  import opened Wrappers

  function Continue(s: State, labels: seq<Label>): Option<State> {
    if labels == [] then Some(s)
    else
      var before, l := Continue(s, labels[..|labels| - 1]), labels[|labels| - 1];
      if before.Some? && Guard(before.value, l) then Some(Apply(before.value, l)) else None
  }

  /** Some run from one state ends in the other. */
  ghost predicate Leads(s: State, t: State) {
    exists labels: seq<Label> :: Continue(s, labels) == Some(t)
  }

  lemma Stay(s: State)
    ensures Leads(s, s)
  {
    assert Continue(s, []) == Some(s);
  }

  lemma Go(s: State, t: State, l: Label)
    requires Leads(s, t) && Guard(t, l)
    ensures Leads(s, Apply(t, l))
  {
    var labels: seq<Label> :| Continue(s, labels) == Some(t);
    var longer := labels + [l];
    assert longer[..|longer| - 1] == labels;
    assert Continue(s, longer) == Some(Apply(t, l));
  }

  lemma {:induction false} ContinueInv(s: State, labels: seq<Label>)
    requires Inv(s) && Continue(s, labels).Some?
    ensures Inv(Continue(s, labels).value)
  {
    if labels != [] {
      ContinueInv(s, labels[..|labels| - 1]);
      StepKeeps(Continue(s, labels[..|labels| - 1]).value, labels[|labels| - 1]);
    }
  }

  lemma LeadsInv(s: State, t: State)
    requires Inv(s) && Leads(s, t)
    ensures Inv(t)
  {
    var labels: seq<Label> :| Continue(s, labels) == Some(t);
    ContinueInv(s, labels);
  }

  // ------------------------------------------------------------------------------------------ doomed connections

  /** Nothing is there to read and nothing will come: the thread is over, spins, or is about to be over without an
      error. */
  predicate Doomed(conn: Conn) {
    conn.s2c == [] && (conn.thread.Ended? || conn.thread.Spinning? || (conn.thread.AtGuard? && !conn.connected))
  }

  predicate OnDoomed(s: State, c: nat) {
    HasConn(s, c) && Doomed(ConnOf(s, c))
  }

  /** The accept loop joins a thread that spins, so it accepts nothing more. */
  predicate Blocked(s: State) {
    s.loop.Joining? && s.pool != [] && s.pool[0] in s.conns && s.conns[s.pool[0]].thread.Spinning?
  }

  /** The client has no connection, one that has not been accepted, or one that only has SOCKET_CLOSED left to read. */
  predicate NeedsAccept(s: State, c: nat) {
    && c in s.clients
    && (s.clients[c].cur.Some? ==> HasConn(s, c) && (Unaccepted(ConnOf(s, c)) || Evicting(ConnOf(s, c))))
  }

  predicate Unaccepted(conn: Conn) {
    conn.thread.NotStarted? && conn.s2c == []
  }

  predicate Evicting(conn: Conn) {
    conn.thread.Ended? && conn.s2c == [Error(SOCKET_CLOSED)]
  }

  /** The client is on a doomed connection, or needs one from an accept loop that is blocked. */
  predicate Hopeless(s: State, c: nat) {
    OnDoomed(s, c) || (Blocked(s) && NeedsAccept(s, c))
  }

  /** A call in progress of such a client. */
  predicate Stuck(s: State, c: nat) {
    Hopeless(s, c) && !s.clients[c].phase.Idle?
  }

  lemma DoomedThreadStep(conn: Conn, t: SockConnection.ThreadStep)
    requires Doomed(conn) && CanStep(conn, t)
    ensures Doomed(Step(conn, t))
  {
  }

  /** No step brings a doomed connection back. */
  lemma DoomedStep(s: State, l: Label, k: nat)
    requires k in s.conns && Doomed(s.conns[k]) && Guard(s, l)
    requires s.loop.Joining? && s.loop.incoming in s.conns ==> s.conns[s.loop.incoming].thread.NotStarted?
    ensures k in Apply(s, l).conns && Doomed(Apply(s, l).conns[k])
  {
    match l {
      case ThreadStep(j, t) =>
        if j == k {
          DoomedThreadStep(s.conns[k], t);
        }
      case _ =>
    }
  }

  /** A client on a doomed connection stays on it, and none of its calls ends. */
  lemma WaiterStep(s: State, l: Label, c: nat)
    requires OnDoomed(s, c) && Guard(s, l)
    ensures c in Apply(s, l).clients && (!s.clients[c].phase.Idle? ==> !Apply(s, l).clients[c].phase.Idle?)
    ensures Apply(s, l).clients[c].cur == s.clients[c].cur && Apply(s, l).clients[c].history == s.clients[c].history
  {
    match l {
      case ReadReply(d) => assert d != c;
      case _ =>
    }
  }

  lemma DoomedClientStep(s: State, l: Label, c: nat)
    requires PoolOk(s) && OnDoomed(s, c) && Guard(s, l)
    ensures OnDoomed(Apply(s, l), c) && Apply(s, l).clients[c].history == s.clients[c].history
    ensures !s.clients[c].phase.Idle? ==> !Apply(s, l).clients[c].phase.Idle?
  {
    DoomedStep(s, l, s.clients[c].cur.value);
    WaiterStep(s, l, c);
  }

  /** No step gets a blocked accept loop going again. */
  lemma BlockedStep(s: State, l: Label)
    requires Blocked(s) && Guard(s, l)
    ensures Blocked(Apply(s, l)) && Apply(s, l).accepted == s.accepted
  {
    match l {
      case ThreadStep(j, t) => assert j != s.pool[0];
      case ReadReply(c) => assert Receive(s.clients[c], ConnOf(s, c)).1.thread == ConnOf(s, c).thread;
      case _ =>
    }
  }

  /** An eviction that finds a thread in the middle of a message whose rest is lost stops the accept loop for good. */
  lemma {:induction false} BlockedForever(s: State, labels: seq<Label>)
    requires Blocked(s) && Continue(s, labels).Some?
    ensures Blocked(Continue(s, labels).value) && Continue(s, labels).value.accepted == s.accepted
  {
    if labels != [] {
      BlockedForever(s, labels[..|labels| - 1]);
      BlockedStep(Continue(s, labels[..|labels| - 1]).value, labels[|labels| - 1]);
    }
  }

  /** With a full pool, an accept while the oldest thread is inside a message can do that. */
  lemma MidMessageBlocks(s: State, k: nat)
    requires Guard(s, AcceptOne(k)) && |s.pool| >= s.size && s.pool[0] != k && s.conns[s.pool[0]].thread.AtBody?
    ensures var joining, lose := Apply(s, AcceptOne(k)), Label.ThreadStep(s.pool[0], SLose);
            Guard(joining, lose) && Blocked(Apply(joining, lose))
  {
  }

  lemma {:induction false} AfterContinues(size: nat, clients: set<nat>, labels: seq<Label>)
    ensures After(size, clients, labels) == Continue(Init(size, clients), labels)
  {
    if labels != [] {
      AfterContinues(size, clients, labels[..|labels| - 1]);
    }
  }

  /** A run with a pool of one and two clients in which it happens. */
  lemma BlockedHappens()
    ensures exists labels: seq<Label>, s :: Reaches(1, {0, 1}, labels, s) && Blocked(s)
  {
    var s0 := Init(1, {0, 1});
    Stay(s0);
    var s1 := Took(s0);
    Go(s0, s1, Begin(1, Void, []));
    var s2 := Apply(s1, Begin(1, Void, []));
    Go(s0, s2, Dial(1, 1));
    var s3 := Apply(s2, Dial(1, 1));
    MidMessageBlocks(s3, 1);
    Go(s0, s3, AcceptOne(1));
    var s4 := Apply(s3, AcceptOne(1));
    Go(s0, s4, Label.ThreadStep(0, SLose));
    var s5 := Apply(s4, Label.ThreadStep(0, SLose));
    var labels: seq<Label> :| Continue(s0, labels) == Some(s5);
    AfterContinues(1, {0, 1}, labels);
    assert Reaches(1, {0, 1}, labels, s5);
  }

  /** The first client has sent a request on a connection not yet accepted. */
  lemma Asked(s: State) returns (t: State)
    requires s == Init(1, {0, 1})
    ensures Leads(s, t) && t.conns.Keys == {0} && t.conns[0].c2s != []
    ensures t.conns[0].thread.NotStarted? && t.conns[0].connected && t.pool == t.accepted == []
    ensures t.size == 1 && t.loop.Accepting? && t.clients.Keys == {0, 1} && t.clients[1] == NEW_CLIENT
  {
    Stay(s);
    Go(s, s, Begin(0, Void, []));
    t := Apply(s, Begin(0, Void, []));
    Go(s, t, Dial(0, 0));
    t := Apply(t, Dial(0, 0));
    assert t.conns[0] == NewConn(0);
    Go(s, t, Send(0, false));
    t := Apply(t, Send(0, false));
  }

  /** It is accepted and the header of its request read. */
  lemma Took(s: State) returns (t: State)
    requires s == Init(1, {0, 1})
    ensures Leads(s, t) && t.conns.Keys == {0} && t.conns[0].thread.AtBody? && t.pool == t.accepted == [0]
    ensures t.size == 1 && t.loop.Accepting? && t.clients.Keys == {0, 1} && t.clients[1] == NEW_CLIENT
  {
    var asked := Asked(s);
    Go(s, asked, AcceptOne(0));
    t := Apply(asked, AcceptOne(0));
    assert t.pool == t.accepted == [0] && t.conns[0] == asked.conns[0].(thread := AtGuard);
    t := GoThread(s, t, 0, SLoop);
    t := GoThread(s, t, 0, STake);
  }

  /** A client that reads SOCKET_CLOSED has no connection then. */
  lemma LeavesOnClosed(cl: Client, k: Conn)
    requires cl.phase.Awaiting? && Evicting(k)
    ensures var (cl', k') := Receive(cl, k);
            cl'.cur.None? && cl'.phase.Sending? && cl'.history == cl.history
  {
  }

  lemma NeedsAcceptOwnStep(s: State, l: Label, c: nat)
    requires NeedsAccept(s, c) && Guard(s, l) && !s.clients[c].phase.Idle?
    requires l.Dial? || l.Send? || l.SendFails? || l.ReadReply? || l.ReadFails?
    requires l.c == c
    ensures NeedsAccept(Apply(s, l), c) && Apply(s, l).clients[c].history == s.clients[c].history
    ensures !Apply(s, l).clients[c].phase.Idle?
  {
    if l.ReadReply? {
      LeavesOnClosed(s.clients[c], ConnOf(s, c));
    }
  }

  lemma OthersConn(s: State, c: nat, d: nat)
    requires CallsOk(s) && HasConn(s, c) && HasConn(s, d) && c != d
    ensures s.clients[c].cur != s.clients[d].cur
  {
    assert ClientOk(s, c) && ClientOk(s, d);
  }

  lemma OtherClientsStep(s: State, l: Label, c: nat)
    requires NeedsAccept(s, c) && Guard(s, l)
    requires l.Dial? || l.Send? || l.SendFails? || l.ReadReply? || l.ReadFails? || l.Begin?
    requires l.c != c && (HasConn(s, c) && HasConn(s, l.c) ==> s.clients[c].cur != s.clients[l.c].cur)
    ensures NeedsAccept(Apply(s, l), c) && Apply(s, l).clients[c] == s.clients[c]
  {
  }

  /** The accept loop is blocked and threads step only where there is something to do. */
  lemma ServerStep(s: State, l: Label, c: nat)
    requires Blocked(s) && NeedsAccept(s, c) && Guard(s, l) && (l.AcceptOne? || l.JoinOldest? || l.ThreadStep?)
    ensures NeedsAccept(Apply(s, l), c) && Apply(s, l).clients[c] == s.clients[c]
  {
  }

  /** Steps of others do not change what the client waits for. */
  lemma NeedsAcceptOtherStep(s: State, l: Label, c: nat)
    requires CallsOk(s) && Blocked(s) && NeedsAccept(s, c) && Guard(s, l)
    requires l.Dial? || l.Send? || l.SendFails? || l.ReadReply? || l.ReadFails? || l.Begin? ==> l.c != c
    ensures NeedsAccept(Apply(s, l), c) && Apply(s, l).clients[c] == s.clients[c]
  {
    if l.AcceptOne? || l.JoinOldest? || l.ThreadStep? {
      ServerStep(s, l, c);
    } else {
      if HasConn(s, c) && HasConn(s, l.c) {
        OthersConn(s, c, l.c);
      }
      OtherClientsStep(s, l, c);
    }
  }

  lemma HopelessStep(s: State, l: Label, c: nat)
    requires Inv(s) && Stuck(s, c) && Guard(s, l)
    ensures Stuck(Apply(s, l), c) && Apply(s, l).clients[c].history == s.clients[c].history
  {
    if OnDoomed(s, c) {
      DoomedClientStep(s, l, c);
    } else {
      BlockedStep(s, l);
      if (l.Dial? || l.Send? || l.SendFails? || l.ReadReply? || l.ReadFails?) && l.c == c {
        NeedsAcceptOwnStep(s, l, c);
      } else {
        NeedsAcceptOtherStep(s, l, c);
      }
    }
  }

  /** A read failure never leads to a reconnect, and a blocked accept loop takes no connection, so such a call never
      returns, whatever happens. */
  lemma {:induction false} StuckForever(s: State, c: nat, labels: seq<Label>)
    requires Inv(s) && Stuck(s, c) && Continue(s, labels).Some?
    ensures Stuck(Continue(s, labels).value, c)
    ensures Continue(s, labels).value.clients[c].history == s.clients[c].history
  {
    if labels != [] {
      var shorter, l := labels[..|labels| - 1], labels[|labels| - 1];
      StuckForever(s, c, shorter);
      ContinueInv(s, shorter);
      HopelessStep(Continue(s, shorter).value, l, c);
    }
  }

  lemma ClosedFacts(s: State, c: nat)
    requires CallsOk(s) && HasConn(s, c) && s.clients[c].phase.Idle? && !ConnOf(s, c).serverOpen
    ensures ConnOf(s, c).thread.Ended? && (ConnOf(s, c).s2c == [] || ConnOf(s, c).s2c == [Error(SOCKET_CLOSED)])
  {
    assert ClientOk(s, c) && OwnedOk(s, s.clients[c].cur.value);
  }

  lemma SentOnClosed(s: State, c: nat, kind: Kind, arg: string)
    requires HasConn(s, c) && s.clients[c].phase.Idle? && !ConnOf(s, c).serverOpen && ConnOf(s, c).thread.Ended?
    ensures Guard(s, Begin(c, kind, arg)) && Guard(Apply(s, Begin(c, kind, arg)), Send(c, true))
    ensures var sent := Apply(Apply(s, Begin(c, kind, arg)), Send(c, true));
            && (ConnOf(s, c).s2c == [] ==> Stuck(sent, c))
            && (ConnOf(s, c).s2c == [Error(SOCKET_CLOSED)] ==>
                  && Guard(sent, ReadReply(c)) && Apply(sent, ReadReply(c)).clients[c].cur == None
                  && Apply(sent, ReadReply(c)).clients[c].phase == Sending(kind, Msg(c, |s.clients[c].history|, arg), 0))
  {
  }

  /** The next call on a connection the server has closed: with the error frame waiting it can leave for a new
      connection; without, it is stuck as soon as it has written its request. */
  lemma NextCallAfterEviction(s: State, c: nat, kind: Kind, arg: string)
    requires Inv(s) && HasConn(s, c) && s.clients[c].phase.Idle? && !ConnOf(s, c).serverOpen
    ensures ConnOf(s, c).s2c == [] || ConnOf(s, c).s2c == [Error(SOCKET_CLOSED)]
    ensures Guard(s, Begin(c, kind, arg)) && Guard(Apply(s, Begin(c, kind, arg)), Send(c, true))
    ensures var sent := Apply(Apply(s, Begin(c, kind, arg)), Send(c, true));
            if ConnOf(s, c).s2c == [] then Stuck(sent, c)
            else Guard(sent, ReadReply(c)) && Apply(sent, ReadReply(c)).clients[c].cur == None
                 && Apply(sent, ReadReply(c)).clients[c].phase == Sending(kind, Msg(c, |s.clients[c].history|, arg), 0)
  {
    ClosedFacts(s, c);
    SentOnClosed(s, c, kind, arg);
  }

  // ---------------------------------------------------------------------------------------------- a refused call

  /** A call that raised a server error is the client's last, and leaves it on a doomed connection. */
  predicate RaisedLast(s: State, c: nat)
    requires c in s.clients
  {
    forall i | 0 <= i < |s.clients[c].history| && s.clients[c].history[i].Raised? ::
      i == |s.clients[c].history| - 1 && OnDoomed(s, c)
  }

  lemma OthersKeepHistory(s: State, l: Label, c: nat)
    requires c in s.clients && Guard(s, l) && l != ReadReply(c)
    ensures c in Apply(s, l).clients && Apply(s, l).clients[c].history == s.clients[c].history
  {
  }

  /** A reply ends at most one call, and if it does so with an error it was the last frame the connection had. */
  predicate EndsOne(cl: Client, cl': Client, k': Conn) {
    && |cl.history| <= |cl'.history| <= |cl.history| + 1 && cl'.history[..|cl.history|] == cl.history
    && (|cl'.history| > |cl.history| && cl'.history[|cl.history|].Raised? ==> cl'.cur == cl.cur && Doomed(k'))
  }

  lemma RaisedByReply(cl: Client, k: Conn, n: nat)
    requires ConnOk(k) && PairOk(cl, k, n) && cl.phase.Awaiting? && k.s2c != []
    ensures EndsOne(cl, Receive(cl, k).0, Receive(cl, k).1)
  {
  }

  lemma ReplyRaises(s: State, c: nat)
    requires CallsOk(s) && Guard(s, ReadReply(c))
    ensures var (cl', k') := Receive(s.clients[c], ConnOf(s, c)); EndsOne(s.clients[c], cl', k')
  {
    assert ClientOk(s, c) && OwnedOk(s, s.clients[c].cur.value);
    RaisedByReply(s.clients[c], ConnOf(s, c), Runs(s.execs, c, |s.clients[c].history|));
  }

  lemma RaisedLastReply(s: State, c: nat)
    requires c in s.clients && RaisedLast(s, c) && Guard(s, ReadReply(c)) && !OnDoomed(s, c)
    requires var (cl', k') := Receive(s.clients[c], ConnOf(s, c)); EndsOne(s.clients[c], cl', k')
    ensures RaisedLast(Apply(s, ReadReply(c)), c)
  {
    var cl := s.clients[c];
    var (cl', k') := Receive(cl, ConnOf(s, c));
    forall i | 0 <= i < |cl.history| ensures cl'.history[i] == cl.history[i] {
      assert cl'.history[..|cl.history|][i] == cl.history[i];
    }
  }

  lemma RaisedLastStep(s: State, l: Label, c: nat)
    requires Inv(s) && c in s.clients && RaisedLast(s, c) && Guard(s, l)
    ensures c in Apply(s, l).clients && RaisedLast(Apply(s, l), c)
  {
    if OnDoomed(s, c) {
      DoomedClientStep(s, l, c);
    } else if l == ReadReply(c) {
      ReplyRaises(s, c);
      RaisedLastReply(s, c);
    } else {
      OthersKeepHistory(s, l, c);
    }
  }

  /** After a call that raised a server error no later call of that client ever ends: the thread is over, but the
      socket stays open and the client stays on it. */
  lemma {:induction false} RaisedIsLast(size: nat, clients: set<nat>, labels: seq<Label>, s: State, c: nat)
    requires Reaches(size, clients, labels, s) && c in s.clients
    ensures forall i | 0 <= i < |s.clients[c].history| && s.clients[c].history[i].Raised? ::
              i == |s.clients[c].history| - 1 && OnDoomed(s, c)
  {
    if labels != [] {
      var before, l := After(size, clients, labels[..|labels| - 1]).value, labels[|labels| - 1];
      ReachableInv(size, clients, labels[..|labels| - 1], before);
      ClientsStay(before, l, c);
      RaisedIsLast(size, clients, labels[..|labels| - 1], before, c);
      RaisedLastStep(before, l, c);
    }
  }

  lemma ClientsStay(s: State, l: Label, c: nat)
    requires Guard(s, l)
    ensures c in Apply(s, l).clients <==> c in s.clients
  {
  }

  // -------------------------------------------------------------------------------------------- ways onward

  /** One step of one thread that executes nothing. */
  lemma GoThread(s: State, t: State, k: nat, step: SockConnection.ThreadStep) returns (u: State)
    requires Leads(s, t) && k in t.conns && CanStep(t.conns[k], step)
    ensures Leads(s, u) && u.clients == t.clients && k in u.conns && u.conns[k] == Step(t.conns[k], step)
    ensures !Executes(step) ==> u == PutConn(t, k, u.conns[k])
  {
    Go(s, t, Label.ThreadStep(k, step));
    u := Apply(t, Label.ThreadStep(k, step));
  }

  function Towards(t: Thread): SockConnection.ThreadStep
    requires !t.NotStarted? && !t.Spinning? && !t.Ended?
  {
    match t
    case AtGuard => SLoop
    case AtBody(_) => SBody
    case AtRecv => SSeeEnd
    case AtHandle(_) => SHandle(Refused(METHOD_NOT_FOUND))
    case AtSend(_, _) => SRespond
    case AtCheck => SCheck
    case AtCatch(_) => SCatch
  }

  function Left(t: Thread): nat {
    match t
    case Ended => 0
    case AtGuard => 1
    case AtCatch(_) => 1
    case AtSend(_, _) => 3
    case AtBody(_) => 3
    case _ => 2
  }

  /** The thread will say SOCKET_CLOSED next. */
  predicate WillClose(k: Conn) {
    k.thread.AtRecv? || k.thread.AtCheck? || k.thread == AtCatch(SOCKET_CLOSED)
  }

  /** `k'` is `k` once its thread is over. */
  predicate Finished(k: Conn, k': Conn) {
    && k'.thread.Ended? && k'.serverOpen == k.serverOpen && k'.clientOpen == k.clientOpen
    && (WillClose(k) ==> k'.s2c == k.s2c + [Error(SOCKET_CLOSED)])
  }

  lemma StepFinishes(k: Conn)
    requires ShutOff(k) && !k.thread.Spinning? && !k.thread.Ended?
    ensures CanStep(k, Towards(k.thread)) && !Executes(Towards(k.thread))
    ensures var next := Step(k, Towards(k.thread));
            && ShutOff(next) && !next.thread.Spinning? && Left(next.thread) < Left(k.thread)
            && next.serverOpen == k.serverOpen && next.clientOpen == k.clientOpen
            && (next.thread.Ended? ==> Finished(k, next))
            && (WillClose(k) && !next.thread.Ended? ==> WillClose(next) && next.s2c == k.s2c)
  {
  }

  /** The thread of an evicted connection can come to its end, whatever it was doing, unless it spins. */
  lemma {:induction false} Finish(s: State, t: State, k: nat) returns (u: State)
    requires Leads(s, t) && k in t.conns && ShutOff(t.conns[k])
    requires !t.conns[k].thread.Spinning? && !t.conns[k].thread.Ended?
    ensures Leads(s, u) && k in u.conns && u == PutConn(t, k, u.conns[k]) && Finished(t.conns[k], u.conns[k])
    decreases Left(t.conns[k].thread)
  {
    StepFinishes(t.conns[k]);
    var v := GoThread(s, t, k, Towards(t.conns[k].thread));
    if v.conns[k].thread.Ended? {
      u := v;
    } else {
      u := Finish(s, v, k);
      assert t.conns[k := v.conns[k]][k := u.conns[k]] == t.conns[k := u.conns[k]];
    }
  }

  /** An accept loop that waits for a thread can get past it. */
  lemma Join(s: State, t: State) returns (u: State)
    requires Inv(s) && Leads(s, t) && t.loop.Joining? && !Blocked(t)
    ensures Leads(s, u) && u.clients == t.clients && u.loop.Accepting?
    ensures t.pool != [] && t.pool[0] in t.conns && !t.conns[t.pool[0]].thread.NotStarted?
    ensures t.loop.incoming in t.conns && t.loop.incoming in u.conns
    ensures u.conns[t.loop.incoming] == t.conns[t.loop.incoming].(thread := AtGuard)
    ensures forall j | j in t.conns && j != t.pool[0] && j != t.loop.incoming :: j in u.conns && u.conns[j] == t.conns[j]
  {
    JoinFacts(s, t);
    var v := t;
    if !t.conns[t.pool[0]].thread.Ended? {
      v := Finish(s, t, t.pool[0]);
    }
    u := Joined(s, v);
  }

  lemma Joined(s: State, t: State) returns (u: State)
    requires Leads(s, t) && Guard(t, JoinOldest) && t.loop.incoming != t.pool[0]
    ensures Leads(s, u) && u.clients == t.clients && u.loop.Accepting?
    ensures t.loop.incoming in u.conns && u.conns[t.loop.incoming] == t.conns[t.loop.incoming].(thread := AtGuard)
    ensures forall j | j in t.conns && j != t.pool[0] && j != t.loop.incoming :: j in u.conns && u.conns[j] == t.conns[j]
  {
    Go(s, t, JoinOldest);
    u := Apply(t, JoinOldest);
  }

  lemma JoinFacts(s: State, t: State)
    requires Inv(s) && Leads(s, t) && t.loop.Joining?
    ensures t.size > 0 && t.pool != [] && t.pool[0] in t.conns && ShutOff(t.conns[t.pool[0]])
    ensures t.loop.incoming in t.conns && t.loop.incoming != t.pool[0]
  {
    LeadsInv(s, t);
    OldestAccepted(t);
  }

  lemma AcceptFacts(s: State, t: State, k: nat)
    requires Inv(s) && Leads(s, t) && k in t.conns && t.conns[k].thread.NotStarted? && t.loop.Accepting?
    ensures Guard(t, AcceptOne(k)) && !Blocked(Apply(t, AcceptOne(k))) && (t.pool != [] ==> t.pool[0] != k)
  {
    LeadsInv(s, t);
    if t.pool != [] {
      OldestAccepted(t);
    }
  }

  lemma Accept(s: State, t: State, k: nat) returns (u: State)
    requires Inv(s) && Leads(s, t) && k in t.conns && t.conns[k].thread.NotStarted? && t.loop.Accepting?
    ensures Leads(s, u) && u.clients == t.clients && k in u.conns && u.conns[k] == t.conns[k].(thread := AtGuard)
  {
    AcceptFacts(s, t, k);
    Go(s, t, AcceptOne(k));
    u := Apply(t, AcceptOne(k));
    if |t.pool| >= t.size {
      u := Join(s, u);
    }
  }

  /** A connection that waits to be accepted can be, unless the accept loop is blocked. */
  lemma GetAccepted(s: State, t: State, k: nat) returns (u: State)
    requires Inv(s) && Leads(s, t) && k in t.conns && t.conns[k].thread.NotStarted? && !Blocked(t)
    ensures Leads(s, u) && u.clients == t.clients && k in u.conns && u.conns[k] == t.conns[k].(thread := AtGuard)
  {
    u := t;
    if t.loop.Joining? {
      u := Join(s, t);
    }
    if !(t.loop.Joining? && t.loop.incoming == k) {
      u := Accept(s, u, k);
    }
  }

  // ------------------------------------------------------------------------------------------ a call served

  /** A call about to be sent for the first time. */
  predicate Begun(s: State, c: nat) {
    c in s.clients && s.clients[c].phase.Sending? && s.clients[c].phase.tried == 0
  }

  /** Its connection is open with nothing queued. */
  predicate Ready(s: State, c: nat) {
    Begun(s, c) && HasConn(s, c) && ConnOf(s, c).s2c == [] && ConnOf(s, c).c2s == [] && ConnOf(s, c).serverOpen
  }

  ghost predicate Returned(s: State, t: State, c: nat, value: string) {
    c in s.clients && c in t.clients && t.clients[c].history == s.clients[c].history + [Done(value)]
  }

  lemma ReadResponse(s: State, t: State, c: nat, m: Msg, value: string) returns (u: State)
    requires Leads(s, t) && HasConn(t, c) && t.clients[c].phase.Awaiting? && t.clients[c].phase.tried == 0
    requires ConnOf(t, c).s2c == [Response(m, value)]
    ensures Leads(s, u) && Returned(t, u, c, value)
  {
    Go(s, t, ReadReply(c));
    u := Apply(t, ReadReply(c));
  }

  /** Request, handler, response. */
  lemma Serve(s: State, t: State, c: nat, value: string) returns (u: State)
    requires Leads(s, t) && Ready(t, c) && ConnOf(t, c).thread.AtRecv?
    ensures Leads(s, u) && Returned(t, u, c, value)
  {
    var k, m := t.clients[c].cur.value, t.clients[c].phase.msg;
    Go(s, t, Send(c, false));
    u := Apply(t, Send(c, false));
    assert u.conns[k].c2s == [m] && u.clients[c].history == t.clients[c].history;
    u := GoThread(s, u, k, STake);
    u := GoThread(s, u, k, SBody);
    u := GoThread(s, u, k, SHandle(Ran(value)));
    u := GoThread(s, u, k, SRespond);
    assert u.conns[k].s2c == [Response(m, value)];
    u := ReadResponse(s, u, c, m, value);
  }

  /** A connection that has not been evicted takes the call. */
  lemma ServeLive(s: State, t: State, c: nat, value: string) returns (u: State)
    requires Leads(s, t) && Ready(t, c) && ConnOf(t, c).connected
    requires ConnOf(t, c).thread.AtGuard? || ConnOf(t, c).thread.AtCheck? || ConnOf(t, c).thread.AtRecv?
    ensures Leads(s, u) && Returned(t, u, c, value)
  {
    var k := t.clients[c].cur.value;
    u := t;
    if u.conns[k].thread.AtCheck? {
      u := GoThread(s, u, k, SCheck);
    }
    if u.conns[k].thread.AtGuard? {
      u := GoThread(s, u, k, SLoop);
    }
    u := Serve(s, u, c, value);
  }

  lemma ServePending(s: State, t: State, c: nat, value: string) returns (u: State)
    requires Inv(s) && Leads(s, t) && Ready(t, c) && ConnOf(t, c).thread.NotStarted? && ConnOf(t, c).connected
    requires !Blocked(t)
    ensures Leads(s, u) && Returned(t, u, c, value)
  {
    var v := GetAccepted(s, t, t.clients[c].cur.value);
    u := ServeLive(s, v, c, value);
  }

  lemma {:induction false} Unused(used: set<nat>) returns (k: nat)
    ensures forall j | j in used :: j < k
  {
    if j :| j in used {
      var above := Unused(used - {j});
      k := if above > j then above else j + 1;
      forall i | i in used ensures i < k {
        assert i == j || i in used - {j};
      }
    } else {
      k := 0;
    }
  }

  lemma ServeFresh(s: State, t: State, c: nat, value: string) returns (u: State)
    requires Inv(s) && Leads(s, t) && Begun(t, c) && t.clients[c].cur.None? && !Blocked(t)
    ensures Leads(s, u) && Returned(t, u, c, value)
  {
    var k := Unused(t.conns.Keys);
    Go(s, t, Dial(c, k));
    u := ServePending(s, Apply(t, Dial(c, k)), c, value);
  }

  /** A client that finds the SOCKET_CLOSED error leaves the connection. */
  lemma Leave(s: State, t: State, c: nat) returns (u: State)
    requires Leads(s, t) && Begun(t, c) && HasConn(t, c)
    requires Evicting(ConnOf(t, c)) && !Blocked(t)
    ensures Leads(s, u) && Begun(u, c) && u.clients[c].cur.None? && u.clients[c].history == t.clients[c].history
    ensures !Blocked(u)
  {
    var send := Send(c, !ConnOf(t, c).serverOpen);
    Go(s, t, send);
    u := Apply(t, send);
    assert ConnOf(u, c).s2c == [Error(SOCKET_CLOSED)];
    Go(s, u, ReadReply(c));
    u := Apply(u, ReadReply(c));
  }

  /** It is then served on a new one. */
  lemma ServeElsewhere(s: State, t: State, c: nat, value: string) returns (u: State)
    requires Inv(s) && Leads(s, t) && Begun(t, c) && HasConn(t, c) && Evicting(ConnOf(t, c)) && !Blocked(t)
    ensures Leads(s, u) && Returned(t, u, c, value)
  {
    u := Leave(s, t, c);
    u := ServeFresh(s, u, c, value);
  }

  /** What the connection of a client with a call just begun may look like. */
  lemma BegunFacts(s: State, c: nat)
    requires Inv(s) && Begun(s, c) && s.clients[c].cur.Some?
    ensures HasConn(s, c)
    ensures var conn := ConnOf(s, c);
            match conn.thread
            case Ended => conn.s2c == [] || conn.s2c == [Error(SOCKET_CLOSED)]
            case NotStarted => Ready(s, c) && conn.connected
            case AtGuard => Ready(s, c) && (conn.connected || ShutOff(conn))
            case AtBody(_) => false
            case Spinning => false
            case AtHandle(_) => false
            case AtSend(_, _) => false
            case AtCatch(_) => conn.s2c == [] && ShutOff(conn) && WillClose(conn)
            case _ => Ready(s, c) && (conn.connected || ShutOff(conn))
  {
    assert ClientOk(s, c) && OwnedOk(s, s.clients[c].cur.value);
    assert s.clients[c].cur.value in s.accepted || Pending(ConnOf(s, c));
  }

  /** Only the connection whose thread the accept loop is joining is shut with its thread under way. */
  lemma ShutOffIsJoined(s: State, k: nat)
    requires PoolOk(s) && k in s.conns && s.conns[k].readShut && !s.conns[k].thread.Ended?
    ensures s.loop.Joining? && s.pool != [] && s.pool[0] == k
  {
    assert k in s.accepted || Pending(s.conns[k]);
    var i :| 0 <= i < |s.accepted| && s.accepted[i] == k;
    assert i == |s.accepted| - |s.pool|;
    assert s.pool != [] && s.pool[0] == s.accepted[i];
  }

  /** A call just begun can return, with any value, unless its client is hopeless. */
  lemma CanReturn(s: State, c: nat, value: string) returns (u: State)
    requires Inv(s) && Begun(s, c) && !Hopeless(s, c)
    ensures Leads(s, u) && Returned(s, u, c, value)
  {
    Stay(s);
    if s.clients[c].cur.None? {
      u := ServeFresh(s, s, c, value);
    } else {
      BegunFacts(s, c);
      var k := s.clients[c].cur.value;
      if s.conns[k].thread.Ended? {
        u := ServeElsewhere(s, s, c, value);
      } else if s.conns[k].thread.NotStarted? {
        u := ServePending(s, s, c, value);
      } else if s.conns[k].connected {
        u := ServeLive(s, s, c, value);
      } else {
        ShutOffIsJoined(s, k);
        u := Finish(s, s, k);
        u := ServeElsewhere(s, u, c, value);
      }
    }
  }

  /** Some run from here ends a call of the client. */
  ghost predicate CanEnd(s: State, c: nat)
    requires c in s.clients
  {
    exists t :: Leads(s, t) && c in t.clients && |t.clients[c].history| > |s.clients[c].history|
  }

  /** Such a call cannot end. */
  lemma StuckThere(s: State, c: nat, t: State)
    requires Inv(s) && Stuck(s, c) && Leads(s, t)
    ensures c in t.clients && t.clients[c].history == s.clients[c].history
  {
    var steps: seq<Label> :| Continue(s, steps) == Some(t);
    StuckForever(s, c, steps);
  }

  lemma CannotEnd(s: State, c: nat)
    requires Inv(s) && Stuck(s, c)
    ensures !CanEnd(s, c)
  {
    forall t | Leads(s, t) ensures c in t.clients && t.clients[c].history == s.clients[c].history {
      StuckThere(s, c, t);
    }
  }

  lemma BeginFacts(s: State, c: nat, kind: Kind, arg: string)
    requires c in s.clients && s.clients[c].phase.Idle?
    ensures Guard(s, Begin(c, kind, arg))
    ensures var t := Apply(s, Begin(c, kind, arg));
            && Begun(t, c) && t.clients[c].history == s.clients[c].history
            && (Hopeless(t, c) <==> Hopeless(s, c)) && (Hopeless(s, c) ==> Stuck(t, c))
  {
  }

  /** In any reachable state, the next call of an idle client can end if and only if the client is not on a doomed
      connection and does not need one from a blocked accept loop; and then it can return, whatever value the handler
      computes. */
  lemma NextCallEnds(size: nat, clients: set<nat>, labels: seq<Label>, s: State, c: nat,
                     kind: Kind, arg: string, value: string)
    requires Reaches(size, clients, labels, s) && c in s.clients && s.clients[c].phase.Idle?
    ensures Guard(s, Begin(c, kind, arg)) && c in Apply(s, Begin(c, kind, arg)).clients
    ensures CanEnd(Apply(s, Begin(c, kind, arg)), c) <==> !Hopeless(s, c)
    ensures !Hopeless(s, c) ==> exists t :: Leads(Apply(s, Begin(c, kind, arg)), t) && Returned(s, t, c, value)
  {
    ReachableInv(size, clients, labels, s);
    BeginFacts(s, c, kind, arg);
    var t := Apply(s, Begin(c, kind, arg));
    StepKeeps(s, Begin(c, kind, arg));
    if Hopeless(s, c) {
      CannotEnd(t, c);
    } else {
      var u := CanReturn(t, c, value);
    }
  }
}
