/**
 * The thread-per-connection server as a step system: clients with their retry loops, connection threads, and the
 * accept loop that evicts the oldest connection, interleaved in any order. Sockets lose no queued frame; a client
 * that finds its socket closed sees a read or write failure.
 */
module SockProtocol {
  import opened Retry
  import opened SockConnection
  import opened SockPool
  import opened Wrappers

  /** `Joining` is the accept loop waiting for the thread of the oldest connection, with a new one in hand. */
  datatype Accept = Accepting | Joining(incoming: nat)

  datatype State = State(size: nat, conns: map<nat, Conn>, clients: map<nat, Client>, execs: seq<Run>,
                         pool: seq<nat>, accepted: seq<nat>, loop: Accept)

  datatype Label =
    | Begin(c: nat, kind: Kind, arg: string)
    | Dial(c: nat, k: nat)
    | Send(c: nat, lost: bool)
    | SendFails(c: nat)
    | ReadReply(c: nat)
    | ReadFails(c: nat)
    | AcceptOne(k: nat)
    | JoinOldest
    | ThreadStep(k: nat, t: SockConnection.ThreadStep)

  const NEW_CLIENT := Client(Idle, None, [])

  function Init(size: nat, clients: set<nat>): State {
    State(size, map[], map c | c in clients :: NEW_CLIENT, [], [], [], Accepting)
  }

  /** The client's current connection. */
  predicate HasConn(s: State, c: nat) {
    c in s.clients && s.clients[c].cur.Some? && s.clients[c].cur.value in s.conns
  }

  function ConnOf(s: State, c: nat): Conn
    requires HasConn(s, c)
  {
    s.conns[s.clients[c].cur.value]
  }

  predicate Guard(s: State, l: Label) {
    match l
    case Begin(c, _, _) => c in s.clients && s.clients[c].phase.Idle?
    case Dial(c, k) => c in s.clients && s.clients[c].phase.Sending? && s.clients[c].cur.None? && k !in s.conns
    case Send(c, lost) => HasConn(s, c) && s.clients[c].phase.Sending? && CanSend(ConnOf(s, c), lost)
    case SendFails(c) => HasConn(s, c) && s.clients[c].phase.Sending? && !ConnOf(s, c).serverOpen
    case ReadReply(c) => HasConn(s, c) && s.clients[c].phase.Awaiting? && ConnOf(s, c).s2c != []
    case ReadFails(c) => HasConn(s, c) && CanReadFail(s.clients[c], ConnOf(s, c))
    case AcceptOne(k) =>
      && s.loop.Accepting? && s.size > 0 && k in s.conns && k !in s.accepted && s.conns[k].thread.NotStarted?
      && (|s.pool| >= s.size ==> s.pool[0] in s.conns)
    case JoinOldest =>
      && s.loop.Joining? && s.size > 0 && s.pool != [] && s.pool[0] in s.conns && s.loop.incoming in s.conns
      && s.conns[s.pool[0]].thread.Ended?
    case ThreadStep(k, t) => k in s.conns && CanStep(s.conns[k], t)
  }

  function PutConn(s: State, k: nat, conn: Conn): State {
    s.(conns := s.conns[k := conn])
  }

  function PutClient(s: State, c: nat, cl: Client): State {
    s.(clients := s.clients[c := cl])
  }

  /** Into the pool, and the thread starts. */
  function Admit(s: State, k: nat): State
    requires s.size > 0 && k in s.conns
  {
    PutConn(s, k, s.conns[k].(thread := AtGuard))
      .(pool := Admitted(s.pool, s.size, k).0, accepted := s.accepted + [k], loop := Accepting)
  }

  function Apply(s: State, l: Label): State
    requires Guard(s, l)
  {
    match l
    case Begin(c, kind, arg) =>
      var cl := s.clients[c];
      PutClient(s, c, cl.(phase := Sending(kind, Msg(c, |cl.history|, arg), 0)))
    case Dial(c, k) =>
      PutConn(PutClient(s, c, s.clients[c].(cur := Some(k))), k, NewConn(c))
    case Send(c, lost) =>
      var cl := s.clients[c];
      PutConn(PutClient(s, c, cl.(phase := Awaiting(cl.phase.kind, cl.phase.msg, cl.phase.tried))),
              cl.cur.value, Queue(ConnOf(s, c), cl.phase.msg, lost))
    case SendFails(c) => PutClient(s, c, Failed(s.clients[c]))
    case ReadReply(c) =>
      var (cl, conn) := Receive(s.clients[c], ConnOf(s, c));
      PutConn(PutClient(s, c, cl), s.clients[c].cur.value, conn)
    case ReadFails(c) => PutClient(s, c, Failed(s.clients[c]))
    case AcceptOne(k) =>
      if |s.pool| >= s.size
      then PutConn(s, s.pool[0], ShutDown(s.conns[s.pool[0]])).(loop := Joining(k))
      else Admit(s, k)
    case JoinOldest =>
      Admit(PutConn(s, s.pool[0], CloseSocket(s.conns[s.pool[0]])), s.loop.incoming)
    case ThreadStep(k, t) =>
      var conn := s.conns[k];
      var s' := PutConn(s, k, Step(conn, t));
      if Executes(t) then s'.(execs := s.execs + [Run(conn.thread.msg, t.h.value)]) else s'
  }

  /** The client a step is a step of. */
  predicate IsBy(l: Label, c: nat) {
    (l.Begin? || l.Dial? || l.Send? || l.SendFails? || l.ReadReply? || l.ReadFails?) && l.c == c
  }

  /** A client does one thing at a time: between calls nothing but begin one, before an attempt nothing but connect or
      send, and after it nothing but read; and no step of another thread changes it. */
  lemma ClientIsOneThread(s: State, l: Label, c: nat)
    requires Guard(s, l) && c in s.clients
    ensures !IsBy(l, c) ==> c in Apply(s, l).clients && Apply(s, l).clients[c] == s.clients[c]
    ensures IsBy(l, c) ==>
              match s.clients[c].phase
              case Idle => l.Begin?
              case Sending(_, _, _) => if s.clients[c].cur.None? then l.Dial? else l.Send? || l.SendFails?
              case Awaiting(_, _, _) => l.ReadReply? || l.ReadFails?
  {
  }

  // -------------------------------------------------------------------------------------------- the invariant

  /** How often a call has been executed, on whatever connections. */
  function Runs(execs: seq<Run>, c: nat, id: nat): nat {
    if execs == [] then 0
    else
      var last := execs[|execs| - 1];
      Runs(execs[..|execs| - 1], c, id) + (if last.msg.client == c && last.msg.id == id then 1 else 0)
  }

  lemma RunsAppend(execs: seq<Run>, r: Run, c: nat, id: nat)
    ensures Runs(execs + [r], c, id)
         == Runs(execs, c, id) + (if r.msg.client == c && r.msg.id == id then 1 else 0)
  {
  }

  /** A call that returned ran exactly once and returned what that run computed; one that raised never ran. */
  ghost predicate SettledOk(execs: seq<Run>, c: nat, id: nat, r: Result) {
    match r
    case Done(value) =>
      && Runs(execs, c, id) == 1
      && exists i :: 0 <= i < |execs| && execs[i].msg.client == c && execs[i].msg.id == id && execs[i].value == value
    case Raised(_) => Runs(execs, c, id) == 0
    case TooManyFailures => Runs(execs, c, id) == 1
  }

  ghost predicate HistoryOk(execs: seq<Run>, c: nat, cl: Client) {
    && (forall i | 0 <= i < |cl.history| :: SettledOk(execs, c, i, cl.history[i]))
    && (forall i | i > |cl.history| :: Runs(execs, c, i) == 0)
    && (!cl.phase.Idle? ==> cl.phase.msg.client == c && cl.phase.msg.id == |cl.history|)
  }

  ghost predicate ClientOk(s: State, c: nat)
    requires c in s.clients
  {
    var cl := s.clients[c];
    var n := Runs(s.execs, c, |cl.history|);
    && HistoryOk(s.execs, c, cl)
    && if cl.cur.Some? then
         cl.cur.value in s.conns && s.conns[cl.cur.value].owner == c && PairOk(cl, s.conns[cl.cur.value], n)
       else
         !cl.phase.Awaiting? && n == 0
  }

  ghost predicate OwnedOk(s: State, k: nat)
    requires k in s.conns
  {
    var conn := s.conns[k];
    && ConnOk(conn) && conn.owner in s.clients
    && (s.clients[conn.owner].cur == Some(k) || LeftOk(conn))
    && (forall r | r in conn.ran :: r in s.execs)
  }

  /** The message ids one client has had executed strictly increase. */
  ghost predicate Increasing(execs: seq<Run>) {
    forall i, j | 0 <= i < j < |execs| && execs[i].msg.client == execs[j].msg.client ::
      execs[i].msg.id < execs[j].msg.id
  }

  ghost predicate CallsOk(s: State) {
    && (forall c | c in s.clients :: ClientOk(s, c))
    && (forall k | k in s.conns :: OwnedOk(s, k))
    && Increasing(s.execs)
    && (forall i | 0 <= i < |s.execs| :: s.execs[i].msg.client in s.clients)
  }

  ghost predicate Evicted(conn: Conn) {
    !conn.serverOpen && conn.thread.Ended? && !conn.connected
  }

  /** A connection that still waits to be accepted. */
  predicate Pending(conn: Conn) {
    conn.thread.NotStarted? && conn.serverOpen && conn.connected && !conn.readShut && conn.shutAt.None?
  }

  /** A connection whose thread has been started, before any eviction. */
  predicate Started(conn: Conn) {
    !conn.thread.NotStarted? && conn.shutAt != Some(NotStarted)
  }

  /** A connection that has been shut down, its thread started. */
  predicate ShutOff(conn: Conn) {
    conn.readShut && !conn.connected && !conn.thread.NotStarted?
  }

  /** Of the accepted connections the first ones are evicted and the rest open, none of them shut for reading but the
      one whose thread the accept loop is joining; the others wait. */
  ghost predicate AcceptedOk(conns: map<nat, Conn>, accepted: seq<nat>, gone: int, joining: bool) {
    && (forall i | 0 <= i < |accepted| ::
          && accepted[i] in conns && Started(conns[accepted[i]])
          && if i < gone then Evicted(conns[accepted[i]]) else OpenConn(conns[accepted[i]], joining && i == gone))
    && (forall k | k in conns && k !in accepted :: Pending(conns[k]))
  }

  predicate OpenConn(conn: Conn, joining: bool) {
    conn.serverOpen && (conn.readShut ==> joining)
  }

  ghost predicate Distinct(accepted: seq<nat>) {
    forall i, j | 0 <= i < j < |accepted| :: accepted[i] != accepted[j]
  }

  ghost predicate JoiningOk(conns: map<nat, Conn>, size: nat, pool: seq<nat>, accepted: seq<nat>, loop: Accept) {
    loop.Joining? ==>
      && loop.incoming in conns && loop.incoming !in accepted
      && |pool| == size && pool != [] && pool[0] in conns && ShutOff(conns[pool[0]])
  }

  ghost predicate PoolOk(s: State) {
    && s.size > 0 && HoldsLast(s.pool, s.size, s.accepted) && Distinct(s.accepted)
    && AcceptedOk(s.conns, s.accepted, |s.accepted| - |s.pool|, s.loop.Joining?)
    && JoiningOk(s.conns, s.size, s.pool, s.accepted, s.loop)
  }

  ghost predicate Inv(s: State) {
    CallsOk(s) && PoolOk(s)
  }

  // -------------------------------------------------------------------------------- every step keeps it: calls

  /** One connection changes, and with it possibly its owner. */
  lemma PairKeeps(s: State, k: nat, conn: Conn, cl: Client)
    requires CallsOk(s) && k in s.conns && conn.owner == s.conns[k].owner && conn.ran == s.conns[k].ran
    requires ConnOk(conn)
    requires HistoryOk(s.execs, conn.owner, cl)
    requires s.clients[conn.owner].cur == Some(k) ==>
               if cl.cur == Some(k) then PairOk(cl, conn, Runs(s.execs, conn.owner, |cl.history|))
               else LeftOk(conn) && cl.cur == None && !cl.phase.Awaiting?
                    && Runs(s.execs, conn.owner, |cl.history|) == 0
    requires s.clients[conn.owner].cur != Some(k) ==> cl == s.clients[conn.owner] && LeftOk(conn)
    ensures CallsOk(PutConn(PutClient(s, conn.owner, cl), k, conn))
  {
    var c := conn.owner;
    var s' := PutConn(PutClient(s, c, cl), k, conn);
    forall d | d in s'.clients ensures ClientOk(s', d) {
      assert ClientOk(s, d);
    }
    forall j | j in s'.conns ensures OwnedOk(s', j) {
      assert OwnedOk(s, k);
      if j != k {
        assert OwnedOk(s, j);
      }
    }
  }

  /** One connection changes and no client does. */
  lemma ConnKeeps(s: State, k: nat, conn: Conn)
    requires CallsOk(s) && k in s.conns && conn.owner == s.conns[k].owner && conn.ran == s.conns[k].ran
    requires ConnOk(conn)
    requires s.clients[conn.owner].cur == Some(k) ==>
               PairOk(s.clients[conn.owner], conn, Runs(s.execs, conn.owner, |s.clients[conn.owner].history|))
    requires s.clients[conn.owner].cur != Some(k) ==> LeftOk(conn)
    ensures CallsOk(PutConn(s, k, conn))
  {
  }

  /** Only the client changes, and keeps its connection. */
  lemma ClientKeeps(s: State, c: nat, cl: Client)
    requires CallsOk(s) && c in s.clients && cl.cur == s.clients[c].cur && HistoryOk(s.execs, c, cl)
    requires |cl.history| == |s.clients[c].history|
    requires cl.cur.Some? ==> PairOk(cl, s.conns[cl.cur.value], Runs(s.execs, c, |cl.history|))
    requires cl.cur.None? ==> !cl.phase.Awaiting?
    ensures CallsOk(PutClient(s, c, cl))
  {
    var s' := PutClient(s, c, cl);
    forall d | d in s'.clients ensures ClientOk(s', d) {
      assert ClientOk(s, d);
    }
    forall k | k in s'.conns ensures OwnedOk(s', k) {
      assert OwnedOk(s, k);
    }
  }

  lemma DialKeeps(s: State, c: nat, k: nat)
    requires CallsOk(s) && Guard(s, Dial(c, k))
    ensures CallsOk(Apply(s, Dial(c, k)))
  {
    var s' := Apply(s, Dial(c, k));
    assert ConnOk(NewConn(c));
    forall d | d in s'.clients ensures ClientOk(s', d) {
      assert ClientOk(s, d);
    }
    forall j | j in s'.conns ensures OwnedOk(s', j) {
      if j != k {
        assert OwnedOk(s, j);
      }
    }
  }

  /** A settled call is settled for good: a later run is of another call. */
  lemma SettledKeeps(execs: seq<Run>, r: Run, c: nat, id: nat, result: Result)
    requires SettledOk(execs, c, id, result) && (r.msg.client != c || r.msg.id != id)
    ensures SettledOk(execs + [r], c, id, result)
  {
    RunsAppend(execs, r, c, id);
    if result.Done? {
      var i :| 0 <= i < |execs| && execs[i].msg.client == c && execs[i].msg.id == id && execs[i].value == result.value;
      assert (execs + [r])[i] == execs[i];
    }
  }

  /** No run of a call that has been counted zero times is in the history. */
  lemma {:induction false} NoRuns(execs: seq<Run>, c: nat, id: nat, i: nat)
    requires Runs(execs, c, id) == 0 && i < |execs| && execs[i].msg.client == c
    ensures execs[i].msg.id != id
  {
    if i < |execs| - 1 {
      NoRuns(execs[..|execs| - 1], c, id, i);
    }
  }

  lemma HistoryKeeps(execs: seq<Run>, r: Run, c: nat, cl: Client)
    requires HistoryOk(execs, c, cl) && (r.msg.client == c ==> r.msg.id == |cl.history|)
    ensures HistoryOk(execs + [r], c, cl)
  {
    forall i | 0 <= i < |cl.history| ensures SettledOk(execs + [r], c, i, cl.history[i]) {
      SettledKeeps(execs, r, c, i, cl.history[i]);
    }
    forall i | i > |cl.history| ensures Runs(execs + [r], c, i) == 0 {
      RunsAppend(execs, r, c, i);
    }
  }

  lemma IncreasingKeeps(execs: seq<Run>, r: Run, cl: Client)
    requires Increasing(execs) && HistoryOk(execs, r.msg.client, cl)
    requires r.msg.id == |cl.history| && Runs(execs, r.msg.client, r.msg.id) == 0
    ensures Increasing(execs + [r])
  {
    forall i | 0 <= i < |execs| && execs[i].msg.client == r.msg.client ensures execs[i].msg.id < r.msg.id {
      NoRuns(execs, r.msg.client, r.msg.id, i);
      if execs[i].msg.id > r.msg.id {
        assert Runs(execs, r.msg.client, execs[i].msg.id) == 0;
        NoRuns(execs, r.msg.client, execs[i].msg.id, i);
      }
    }
  }

  lemma ThreadKeeps(s: State, k: nat, t: SockConnection.ThreadStep)
    requires CallsOk(s) && Guard(s, Label.ThreadStep(k, t))
    ensures CallsOk(Apply(s, Label.ThreadStep(k, t)))
  {
    var conn := s.conns[k];
    var c := conn.owner;
    assert OwnedOk(s, k);
    assert s.clients[c].cur == Some(k);
    assert ClientOk(s, c);
    StepConnOk(conn, t);
    StepPairOk(s.clients[c], conn, Runs(s.execs, c, |s.clients[c].history|), t);
    if Executes(t) {
      ExecuteKeeps(s, k, t);
    } else {
      ConnKeeps(s, k, Step(conn, t));
    }
  }

  lemma ExecuteKeeps(s: State, k: nat, t: SockConnection.ThreadStep)
    requires CallsOk(s) && Guard(s, Label.ThreadStep(k, t)) && Executes(t)
    requires s.clients[s.conns[k].owner].cur == Some(k)
    ensures CallsOk(Apply(s, Label.ThreadStep(k, t)))
  {
    var conn := s.conns[k];
    var c := conn.owner;
    var cl, r := s.clients[c], Run(conn.thread.msg, t.h.value);
    assert OwnedOk(s, k) && ClientOk(s, c);
    StepConnOk(conn, t);
    StepPairOk(cl, conn, Runs(s.execs, c, |cl.history|), t);
    assert r.msg == cl.phase.msg;
    IncreasingKeeps(s.execs, r, cl);
    ExecutedRest(s, k, Step(conn, t), r);
  }

  /** An execution counts for the call in hand and for no other. */
  lemma ExecutedRest(s: State, k: nat, conn: Conn, r: Run)
    requires CallsOk(s) && k in s.conns && conn.owner == s.conns[k].owner && conn.owner in s.clients
    requires s.clients[conn.owner].cur == Some(k)
    requires ConnOk(conn) && conn.ran == s.conns[k].ran + [r] && r.msg.client == conn.owner
    requires var cl := s.clients[conn.owner];
             var n := Runs(s.execs, conn.owner, |cl.history|);
             PairOk(cl, conn, n + 1) && r.msg.id == |cl.history| && n == 0
    requires Increasing(s.execs + [r])
    ensures CallsOk(PutConn(s, k, conn).(execs := s.execs + [r]))
  {
    ExecutedClients(s, k, conn, r);
    var s' := PutConn(s, k, conn).(execs := s.execs + [r]);
    forall j | j in s'.conns ensures OwnedOk(s', j) {
      assert OwnedOk(s, j);
    }
  }

  lemma ExecutedClients(s: State, k: nat, conn: Conn, r: Run)
    requires CallsOk(s) && k in s.conns && conn.owner == s.conns[k].owner && conn.owner in s.clients
    requires s.clients[conn.owner].cur == Some(k) && r.msg.client == conn.owner
    requires var cl := s.clients[conn.owner];
             var n := Runs(s.execs, conn.owner, |cl.history|);
             PairOk(cl, conn, n + 1) && r.msg.id == |cl.history|
    ensures var s' := PutConn(s, k, conn).(execs := s.execs + [r]);
            forall d | d in s'.clients :: ClientOk(s', d)
  {
    var s' := PutConn(s, k, conn).(execs := s.execs + [r]);
    forall d | d in s'.clients ensures ClientOk(s', d) {
      assert ClientOk(s, d);
      HistoryKeeps(s.execs, r, d, s.clients[d]);
      RunsAppend(s.execs, r, d, |s.clients[d].history|);
    }
  }

  /** What reading a reply does to the client's history is justified by the executions. */
  lemma ReadReplyHistory(s: State, c: nat)
    requires CallsOk(s) && Guard(s, ReadReply(c))
    ensures HistoryOk(s.execs, c, Receive(s.clients[c], ConnOf(s, c)).0)
  {
    var cl, conn := s.clients[c], ConnOf(s, c);
    assert ClientOk(s, c) && OwnedOk(s, cl.cur.value);
    ReceiveKeeps(cl, conn, Runs(s.execs, c, |cl.history|));
    var cl' := Receive(cl, conn).0;
    if conn.s2c[0].Response? {
      SettleRun(s.execs, c, cl, Run(cl.phase.msg, conn.s2c[0].value), cl');
    } else if cl'.phase.Idle? {
      SettleError(s.execs, c, cl, cl');
    }
  }

  lemma ReadReplyKeeps(s: State, c: nat)
    requires CallsOk(s) && Guard(s, ReadReply(c))
    ensures CallsOk(Apply(s, ReadReply(c)))
  {
    var cl, k, conn := s.clients[c], s.clients[c].cur.value, ConnOf(s, c);
    assert ClientOk(s, c) && OwnedOk(s, k);
    ReceiveKeeps(cl, conn, Runs(s.execs, c, |cl.history|));
    ReadReplyHistory(s, c);
    var (cl', conn') := Receive(cl, conn);
    PairKeeps(s, k, conn', cl');
  }

  lemma SettleRun(execs: seq<Run>, c: nat, cl: Client, r: Run, cl': Client)
    requires HistoryOk(execs, c, cl) && !cl.phase.Idle? && r.msg == cl.phase.msg && r in execs
    requires Runs(execs, c, |cl.history|) == 1
    requires cl'.phase.Idle?
    requires cl'.history == cl.history + [Done(r.value)] || cl'.history == cl.history + [TooManyFailures]
    ensures HistoryOk(execs, c, cl')
  {
    var id := |cl.history|;
    assert SettledOk(execs, c, id, Done(r.value)) by {
      var i :| 0 <= i < |execs| && execs[i] == r;
      assert execs[i].msg.client == c && execs[i].msg.id == id && execs[i].value == r.value;
    }
    forall i | 0 <= i < |cl'.history| ensures SettledOk(execs, c, i, cl'.history[i]) {
      if i < id {
        assert cl'.history[i] == cl.history[i];
      }
    }
  }

  lemma SettleError(execs: seq<Run>, c: nat, cl: Client, cl': Client)
    requires HistoryOk(execs, c, cl) && Runs(execs, c, |cl.history|) == 0 && cl'.phase.Idle?
    requires |cl'.history| == |cl.history| + 1 && cl'.history[..|cl.history|] == cl.history
    requires cl'.history[|cl.history|].Raised?
    ensures HistoryOk(execs, c, cl')
  {
    forall i | 0 <= i < |cl'.history| ensures SettledOk(execs, c, i, cl'.history[i]) {
      if i < |cl.history| {
        assert cl'.history[i] == cl.history[i];
      }
    }
  }

  lemma SendKeepsCalls(s: State, c: nat, lost: bool)
    requires CallsOk(s) && Guard(s, Send(c, lost))
    ensures CallsOk(Apply(s, Send(c, lost)))
  {
    var cl, k := s.clients[c], s.clients[c].cur.value;
    assert ClientOk(s, c) && OwnedOk(s, k);
    SendKeeps(cl, ConnOf(s, c), Runs(s.execs, c, |cl.history|), lost);
    PairKeeps(s, k, Queue(ConnOf(s, c), cl.phase.msg, lost),
              cl.(phase := Awaiting(cl.phase.kind, cl.phase.msg, cl.phase.tried)));
  }

  lemma BeginKeeps(s: State, c: nat, kind: Kind, arg: string)
    requires CallsOk(s) && Guard(s, Begin(c, kind, arg))
    ensures CallsOk(Apply(s, Begin(c, kind, arg)))
  {
  }

  lemma FailureKeeps(s: State, c: nat)
    requires CallsOk(s) && (Guard(s, SendFails(c)) || Guard(s, ReadFails(c)))
    ensures CallsOk(PutClient(s, c, Failed(s.clients[c])))
  {
    assert ClientOk(s, c);
    var cl := s.clients[c];
    assert OwnedOk(s, cl.cur.value);
    if cl.phase.Awaiting? {
      ReadFailKeeps(cl, ConnOf(s, c), Runs(s.execs, c, |cl.history|));
    }
    ClientKeeps(s, c, Failed(cl));
  }

  lemma ShutDownKeepsCalls(s: State, k: nat)
    requires CallsOk(s) && k in s.conns
    ensures CallsOk(PutConn(s, k, ShutDown(s.conns[k])))
  {
    var conn := s.conns[k];
    assert OwnedOk(s, k) && ClientOk(s, conn.owner);
    var cl := s.clients[conn.owner];
    ShutDownKeeps(cl, conn, Runs(s.execs, conn.owner, |cl.history|));
    ConnKeeps(s, k, ShutDown(conn));
  }

  lemma CloseKeepsCalls(s: State, k: nat)
    requires CallsOk(s) && k in s.conns && s.conns[k].thread.Ended?
    ensures CallsOk(PutConn(s, k, CloseSocket(s.conns[k])))
  {
    var conn := s.conns[k];
    assert OwnedOk(s, k) && ClientOk(s, conn.owner);
    var cl := s.clients[conn.owner];
    CloseSocketKeeps(cl, conn, Runs(s.execs, conn.owner, |cl.history|));
    ConnKeeps(s, k, CloseSocket(conn));
  }

  lemma AdmitKeepsCalls(s: State, k: nat)
    requires CallsOk(s) && s.size > 0 && k in s.conns && s.conns[k].thread.NotStarted?
    ensures CallsOk(Admit(s, k))
  {
    var conn := s.conns[k];
    assert OwnedOk(s, k) && ClientOk(s, conn.owner);
    var cl := s.clients[conn.owner];
    StartKeeps(cl, conn, Runs(s.execs, conn.owner, |cl.history|));
    ConnKeeps(s, k, conn.(thread := AtGuard));
    var t, s' := PutConn(s, k, conn.(thread := AtGuard)), Admit(s, k);
    forall c | c in s'.clients ensures ClientOk(s', c) {
      assert ClientOk(t, c);
    }
    forall j | j in s'.conns ensures OwnedOk(s', j) {
      assert OwnedOk(t, j);
    }
  }

  // --------------------------------------------------------------------------------- every step keeps it: pool

  /** A change to one connection that the pool does not care about. */
  lemma PutAccepted(conns: map<nat, Conn>, accepted: seq<nat>, gone: int, joining: bool, k: nat, conn: Conn)
    requires AcceptedOk(conns, accepted, gone, joining) && k in conns && Onward(conns[k], conn)
    ensures AcceptedOk(conns[k := conn], accepted, gone, joining)
  {
  }

  lemma PutKeepsPool(s: State, k: nat, conn: Conn)
    requires PoolOk(s) && k in s.conns && Onward(s.conns[k], conn)
    ensures PoolOk(PutConn(s, k, conn))
  {
    PutAccepted(s.conns, s.accepted, |s.accepted| - |s.pool|, s.loop.Joining?, k, conn);
  }

  lemma DialKeepsPool(s: State, k: nat, owner: nat)
    requires PoolOk(s) && k !in s.conns
    ensures PoolOk(PutConn(s, k, NewConn(owner)))
  {
  }

  /** The oldest connection of a pool that is not empty. */
  lemma OldestAccepted(s: State)
    requires PoolOk(s) && s.pool != []
    ensures s.pool[0] == s.accepted[|s.accepted| - |s.pool|] && s.pool[0] in s.conns
  {
  }

  lemma ShutDownAccepted(conns: map<nat, Conn>, accepted: seq<nat>, gone: nat)
    requires AcceptedOk(conns, accepted, gone, false) && Distinct(accepted) && gone < |accepted|
    ensures AcceptedOk(conns[accepted[gone] := ShutDown(conns[accepted[gone]])], accepted, gone, true)
  {
  }

  lemma ShutDownKeepsPool(s: State, k: nat)
    requires PoolOk(s) && Guard(s, AcceptOne(k)) && |s.pool| >= s.size
    ensures PoolOk(Apply(s, AcceptOne(k)))
  {
    OldestAccepted(s);
    ShutDownAccepted(s.conns, s.accepted, |s.accepted| - |s.pool|);
  }

  lemma StartAccepted(conns: map<nat, Conn>, accepted: seq<nat>, gone: int, k: nat)
    requires AcceptedOk(conns, accepted, gone, false) && gone <= |accepted| && k in conns && k !in accepted
    ensures AcceptedOk(conns[k := conns[k].(thread := AtGuard)], accepted + [k], gone, false)
  {
  }

  lemma AdmitKeepsPool(s: State, k: nat)
    requires PoolOk(s) && k in s.conns && k !in s.accepted && |s.pool| < s.size
    ensures PoolOk(Admit(s, k))
  {
    AdmitKeepsLast(s.pool, s.size, s.accepted, k);
    StartAccepted(s.conns, s.accepted, |s.accepted| - |s.pool|, k);
  }

  lemma CloseAccepted(conns: map<nat, Conn>, accepted: seq<nat>, gone: nat)
    requires AcceptedOk(conns, accepted, gone, true) && Distinct(accepted) && gone < |accepted|
    requires conns[accepted[gone]].thread.Ended? && !conns[accepted[gone]].connected
    ensures AcceptedOk(conns[accepted[gone] := CloseSocket(conns[accepted[gone]])], accepted, gone + 1, false)
  {
  }

  /** The oldest connection leaves the pool for good and the new one takes its place at the other end. */
  lemma JoinKeepsPool(s: State)
    requires PoolOk(s) && Guard(s, JoinOldest)
    ensures PoolOk(Apply(s, JoinOldest))
  {
    var gone, k := |s.accepted| - |s.pool|, s.loop.incoming;
    OldestAccepted(s);
    CloseAccepted(s.conns, s.accepted, gone);
    StartAccepted(s.conns[s.pool[0] := CloseSocket(s.conns[s.pool[0]])], s.accepted, gone + 1, k);
    AdmitKeepsLast(s.pool, s.size, s.accepted, k);
  }

  lemma AcceptKeepsCalls(s: State, k: nat)
    requires Inv(s) && Guard(s, AcceptOne(k))
    ensures CallsOk(Apply(s, AcceptOne(k)))
  {
    if |s.pool| >= s.size {
      ShutDownKeepsCalls(s, s.pool[0]);
      LoopIrrelevant(PutConn(s, s.pool[0], ShutDown(s.conns[s.pool[0]])), Joining(k));
    } else {
      AdmitKeepsCalls(s, k);
    }
  }

  lemma JoinKeepsCalls(s: State)
    requires Inv(s) && Guard(s, JoinOldest)
    ensures CallsOk(Apply(s, JoinOldest))
  {
    OldestAccepted(s);
    CloseKeepsCalls(s, s.pool[0]);
    AdmitKeepsCalls(PutConn(s, s.pool[0], CloseSocket(s.conns[s.pool[0]])), s.loop.incoming);
  }

  lemma StepKeepsCalls(s: State, l: Label)
    requires Inv(s) && Guard(s, l)
    ensures CallsOk(Apply(s, l))
  {
    match l {
      case Begin(c, kind, arg) => BeginKeeps(s, c, kind, arg);
      case Dial(c, k) => DialKeeps(s, c, k);
      case Send(c, lost) => SendKeepsCalls(s, c, lost);
      case SendFails(c) => FailureKeeps(s, c);
      case ReadReply(c) => ReadReplyKeeps(s, c);
      case ReadFails(c) => FailureKeeps(s, c);
      case AcceptOne(k) => AcceptKeepsCalls(s, k);
      case JoinOldest => JoinKeepsCalls(s);
      case ThreadStep(k, t) => ThreadKeeps(s, k, t);
    }
  }

  lemma SendKeepsPool(s: State, c: nat, lost: bool)
    requires PoolOk(s) && Guard(s, Send(c, lost))
    ensures PoolOk(Apply(s, Send(c, lost)))
  {
    PutKeepsPool(s, s.clients[c].cur.value, Queue(ConnOf(s, c), s.clients[c].phase.msg, lost));
  }

  lemma ReadReplyKeepsPool(s: State, c: nat)
    requires PoolOk(s) && Guard(s, ReadReply(c))
    ensures PoolOk(Apply(s, ReadReply(c)))
  {
    PutKeepsPool(s, s.clients[c].cur.value, Receive(s.clients[c], ConnOf(s, c)).1);
  }

  lemma ThreadStepKeepsPool(s: State, k: nat, t: SockConnection.ThreadStep)
    requires PoolOk(s) && Guard(s, Label.ThreadStep(k, t))
    ensures PoolOk(Apply(s, Label.ThreadStep(k, t)))
  {
    StepOnward(s.conns[k], t);
    PutKeepsPool(s, k, Step(s.conns[k], t));
  }

  lemma AcceptKeepsPool(s: State, k: nat)
    requires PoolOk(s) && Guard(s, AcceptOne(k))
    ensures PoolOk(Apply(s, AcceptOne(k)))
  {
    if |s.pool| >= s.size {
      ShutDownKeepsPool(s, k);
    } else {
      AdmitKeepsPool(s, k);
    }
  }

  /** The pool is about connections, not about clients. */
  lemma ClientStepKeepsPool(s: State, l: Label)
    requires PoolOk(s) && Guard(s, l) && (l.Begin? || l.SendFails? || l.ReadFails?)
    ensures PoolOk(Apply(s, l))
  {
  }

  lemma ConnectionKeepsPool(s: State, l: Label)
    requires PoolOk(s) && Guard(s, l) && (l.Dial? || l.Send? || l.ReadReply?)
    ensures PoolOk(Apply(s, l))
  {
    match l {
      case Dial(c, k) => DialKeepsPool(s, k, c);
      case Send(c, lost) => SendKeepsPool(s, c, lost);
      case ReadReply(c) => ReadReplyKeepsPool(s, c);
    }
  }

  lemma StepKeepsPool(s: State, l: Label)
    requires PoolOk(s) && Guard(s, l)
    ensures PoolOk(Apply(s, l))
  {
    match l {
      case AcceptOne(k) => AcceptKeepsPool(s, k);
      case JoinOldest => JoinKeepsPool(s);
      case ThreadStep(k, t) => ThreadStepKeepsPool(s, k, t);
      case Dial(_, _) => ConnectionKeepsPool(s, l);
      case Send(_, _) => ConnectionKeepsPool(s, l);
      case ReadReply(_) => ConnectionKeepsPool(s, l);
      case _ => ClientStepKeepsPool(s, l);
    }
  }

  /** Every step of every client, thread and the accept loop keeps the invariant. */
  lemma StepKeeps(s: State, l: Label)
    requires Inv(s) && Guard(s, l)
    ensures Inv(Apply(s, l))
  {
    StepKeepsCalls(s, l);
    StepKeepsPool(s, l);
  }

  lemma LoopIrrelevant(s: State, loop: Accept)
    requires CallsOk(s)
    ensures CallsOk(s.(loop := loop))
  {
    var s' := s.(loop := loop);
    forall c | c in s'.clients ensures ClientOk(s', c) {
      assert ClientOk(s, c);
    }
    forall k | k in s'.conns ensures OwnedOk(s', k) {
      assert OwnedOk(s, k);
    }
  }
}
