/** What the thread-per-connection server and its retrying clients promise over whole runs. */
module SockGuarantees {
  import opened Proto
  import opened Retry
  import opened SockConnection
  import opened SockPool
  import opened SockProtocol
  import opened Wrappers

  /** The state a list of steps leads to from the start, if every step is possible when its turn comes. */
  function After(size: nat, clients: set<nat>, labels: seq<Label>): Option<State> {
    if labels == [] then Some(Init(size, clients))
    else
      var before, l := After(size, clients, labels[..|labels| - 1]), labels[|labels| - 1];
      if before.Some? && Guard(before.value, l) then Some(Apply(before.value, l)) else None
  }

  ghost predicate Reaches(size: nat, clients: set<nat>, labels: seq<Label>, s: State) {
    size > 0 && After(size, clients, labels) == Some(s)
  }

  lemma {:induction false} ReachableInv(size: nat, clients: set<nat>, labels: seq<Label>, s: State)
    requires Reaches(size, clients, labels, s)
    ensures Inv(s)
  {
    if labels == [] {
      forall c | c in s.clients ensures ClientOk(s, c) {
        assert s.clients[c] == NEW_CLIENT;
      }
    } else {
      var before := After(size, clients, labels[..|labels| - 1]).value;
      ReachableInv(size, clients, labels[..|labels| - 1], before);
      StepKeeps(before, labels[|labels| - 1]);
    }
  }

  // --------------------------------------------------------------------------------------------- exactly once

  lemma {:induction false} RunsCountsAll(execs: seq<Run>, c: nat, id: nat, i: nat, j: nat)
    requires i < j < |execs| && execs[i].msg.client == execs[j].msg.client == c
    requires execs[i].msg.id == execs[j].msg.id == id
    ensures Runs(execs, c, id) >= 2
  {
    var shorter := execs[..|execs| - 1];
    if j == |execs| - 1 {
      if Runs(shorter, c, id) == 0 {
        NoRuns(shorter, c, id, i);
      }
    } else {
      RunsCountsAll(shorter, c, id, i, j);
    }
  }

  /** A call that returned ran its handler exactly once, over all connections and attempts, and returned what that
      run computed. A call that raised a server error never ran it. */
  lemma ExactlyOnce(size: nat, clients: set<nat>, labels: seq<Label>, s: State, c: nat, id: nat)
    requires Reaches(size, clients, labels, s) && c in s.clients && id < |s.clients[c].history|
    ensures match s.clients[c].history[id]
            case Done(value) =>
              && Runs(s.execs, c, id) == 1
              && forall i | 0 <= i < |s.execs| && s.execs[i].msg.client == c && s.execs[i].msg.id == id ::
                   s.execs[i].value == value
            case Raised(code) => Runs(s.execs, c, id) == 0
            case TooManyFailures => Runs(s.execs, c, id) == 1
  {
    ReachableInv(size, clients, labels, s);
    assert ClientOk(s, c);
    assert SettledOk(s.execs, c, id, s.clients[c].history[id]);
    if s.clients[c].history[id].Done? {
      var j :| 0 <= j < |s.execs| && s.execs[j].msg.client == c && s.execs[j].msg.id == id
            && s.execs[j].value == s.clients[c].history[id].value;
      forall i | 0 <= i < |s.execs| && s.execs[i].msg.client == c && s.execs[i].msg.id == id
        ensures i == j
      {
        if i < j {
          RunsCountsAll(s.execs, c, id, i, j);
        } else if j < i {
          RunsCountsAll(s.execs, c, id, j, i);
        }
      }
    }
  }

  /** No call is ever executed twice, finished or not, and a client's executed message ids strictly increase. */
  lemma AtMostOnce(size: nat, clients: set<nat>, labels: seq<Label>, s: State, c: nat, id: nat)
    requires Reaches(size, clients, labels, s) && c in s.clients
    ensures Runs(s.execs, c, id) <= 1 && Increasing(s.execs)
  {
    ReachableInv(size, clients, labels, s);
    assert ClientOk(s, c);
    var cl := s.clients[c];
    if id < |cl.history| {
      assert SettledOk(s.execs, c, id, cl.history[id]);
    }
  }

  /** An attempt answered by an error, the error of an eviction included, was never executed. */
  lemma ErrorMeansNotRun(size: nat, clients: set<nat>, labels: seq<Label>, s: State, c: nat)
    requires Reaches(size, clients, labels, s) && Guard(s, ReadReply(c)) && ConnOf(s, c).s2c[0].Error?
    ensures Runs(s.execs, c, s.clients[c].phase.msg.id) == 0
  {
    ReachableInv(size, clients, labels, s);
    assert ClientOk(s, c) && OwnedOk(s, s.clients[c].cur.value);
    ReceiveKeeps(s.clients[c], ConnOf(s, c), Runs(s.execs, c, |s.clients[c].history|));
  }

  // ------------------------------------------------------------------------------------- one connection's run

  /** The frames a connection has sent are the responses to its first requests, in the order they came, and then at
      most one error, which is the last thing its thread does. */
  lemma RepliesInOrder(size: nat, clients: set<nat>, labels: seq<Label>, s: State, k: nat)
    requires Reaches(size, clients, labels, s) && k in s.conns
    ensures InOrder(s.conns[k])
  {
    ReachableInv(size, clients, labels, s);
    assert OwnedOk(s, k);
    ConnInOrder(s.conns[k]);
  }

  ghost predicate InOrder(conn: Conn) {
    && |conn.ran| <= |conn.got| <= |conn.ran| + 1 && |conn.replies| <= |conn.ran| + 1
    && (forall i | 0 <= i < |conn.ran| :: conn.ran[i].msg == conn.got[i])
    && (forall i | 0 <= i < |conn.replies| && conn.replies[i].Response? ::
          i < |conn.ran| && conn.replies[i] == Response(conn.ran[i].msg, conn.ran[i].value))
    && (forall i | 0 <= i < |conn.replies| && conn.replies[i].Error? ::
          i == |conn.replies| - 1 && i == |conn.ran| && conn.thread.Ended?)
  }

  lemma ConnInOrder(conn: Conn)
    requires ConnOk(conn)
    ensures InOrder(conn)
  {
  }

  /** After its error a connection reads, executes and sends nothing more. */
  lemma NothingAfterError(size: nat, clients: set<nat>, labels: seq<Label>, s: State, k: nat, l: Label)
    requires Reaches(size, clients, labels, s) && k in s.conns && Guard(s, l)
    requires exists i :: 0 <= i < |s.conns[k].replies| && s.conns[k].replies[i].Error?
    ensures var before, after := s.conns[k], Apply(s, l).conns[k];
            after.got == before.got && after.ran == before.ran && after.replies == before.replies
  {
    ReachableInv(size, clients, labels, s);
    assert OwnedOk(s, k);
    assert s.conns[k].thread.Ended?;
    OnlyItsThread(s, k, l);
  }

  predicate SameRecord(k': Conn, k: Conn) {
    k'.got == k.got && k'.ran == k.ran && k'.replies == k.replies
  }

  lemma OnlyItsThread(s: State, k: nat, l: Label)
    requires k in s.conns && Guard(s, l) && s.conns[k].thread.Ended?
    ensures SameRecord(Apply(s, l).conns[k], s.conns[k])
  {
    match l {
      case Begin(_, _, _) =>
      case Dial(_, _) =>
      case Send(_, _) =>
      case SendFails(_) =>
      case ReadReply(c) =>
        var conn := ConnOf(s, c);
        assert SameRecord(Receive(s.clients[c], conn).1, conn);
      case ReadFails(_) =>
      case AcceptOne(j) =>
      case JoinOldest =>
        var t := PutConn(s, s.pool[0], CloseSocket(s.conns[s.pool[0]]));
        assert SameRecord(t.conns[k], s.conns[k]) && SameRecord(Admit(t, s.loop.incoming).conns[k], t.conns[k]);
      case ThreadStep(j, t) =>
        assert j != k;
    }
  }

  // -------------------------------------------------------------------------------------------------- the pool

  /** Between accepts the pool holds the last connections accepted, in order, as many as fit, all open; every
      earlier one has been shut down, joined and closed. */
  lemma PoolHoldsLast(size: nat, clients: set<nat>, labels: seq<Label>, s: State)
    requires Reaches(size, clients, labels, s)
    ensures HoldsLast(s.pool, s.size, s.accepted)
    ensures forall i | 0 <= i < |s.accepted| :: s.accepted[i] in s.conns
    ensures forall i | 0 <= i < |s.accepted| - |s.pool| :: Evicted(s.conns[s.accepted[i]])
    ensures forall i | 0 <= i < |s.pool| :: s.pool[i] in s.conns && s.conns[s.pool[i]].serverOpen
  {
    ReachableInv(size, clients, labels, s);
    AcceptedInPool(s.conns, s.size, s.pool, s.accepted, s.loop.Joining?);
  }

  lemma AcceptedInPool(conns: map<nat, Conn>, size: nat, pool: seq<nat>, accepted: seq<nat>, joining: bool)
    requires HoldsLast(pool, size, accepted) && AcceptedOk(conns, accepted, |accepted| - |pool|, joining)
    ensures forall i | 0 <= i < |pool| :: pool[i] in conns && conns[pool[i]].serverOpen
  {
    forall i | 0 <= i < |pool| ensures pool[i] in conns && conns[pool[i]].serverOpen {
      assert pool[i] == accepted[|accepted| - |pool| + i];
    }
  }

  // ------------------------------------------------------------------------- where eviction leaves a client

  /** An evicted connection tells its client so unless the eviction found it between two rounds of its loop, or it
      had refused, or went on to refuse, a request: then that refusal is the last thing it said. */
  lemma EvictionIsAnnounced(size: nat, clients: set<nat>, labels: seq<Label>, s: State, k: nat)
    requires Reaches(size, clients, labels, s) && k in s.conns
    requires s.conns[k].shutAt.Some? && s.conns[k].thread.Ended?
    ensures EndsWith(s.conns[k], 1) <==> !s.conns[k].shutAt.value.AtGuard? && s.conns[k].refusal.None?
    ensures s.conns[k].refusal.Some? ==> EndsWith(s.conns[k], s.conns[k].refusal.value.code)
    ensures s.conns[k].refusal.None? ==> forall code :: code != 1 ==> !EndsWith(s.conns[k], code)
    ensures var found := s.conns[k].shutAt.value;
            found.Ended? || (found.AtCatch? && found.code != SOCKET_CLOSED) ==> s.conns[k].refusal.Some?
  {
    ReachableInv(size, clients, labels, s);
    assert OwnedOk(s, k);
    assert k in s.accepted;
    Announced(s.conns[k]);
  }

  lemma Announced(conn: Conn)
    requires RepliesOk(conn.thread, conn.ran, conn.replies) && EndingOk(conn) && FlagsOk(conn)
    requires Started(conn) && conn.shutAt.Some? && conn.thread.Ended?
    ensures EndsWith(conn, 1) <==> !conn.shutAt.value.AtGuard? && conn.refusal.None?
    ensures conn.refusal.Some? ==> EndsWith(conn, conn.refusal.value.code)
    ensures conn.refusal.None? ==> forall code :: code != 1 ==> !EndsWith(conn, code)
    ensures var found := conn.shutAt.value;
            found.Ended? || (found.AtCatch? && found.code != SOCKET_CLOSED) ==> conn.refusal.Some?
  {
  }

  // ------------------------------------------------------------------------------------------------- refusals

  /** The step of a run with this number refuses that request, on that connection, with that code. */
  ghost predicate RefusesAt(size: nat, clients: set<nat>, labels: seq<Label>, n: int, k: nat, m: Msg, code: int) {
    && 0 <= n < |labels| && labels[n] == Label.ThreadStep(k, SHandle(Refused(code)))
    && var before := After(size, clients, labels[..n]);
       before.Some? && k in before.value.conns && before.value.conns[k].thread == AtHandle(m)
  }

  ghost predicate WasRefused(size: nat, clients: set<nat>, labels: seq<Label>, k: nat, r: Refusal) {
    exists n :: RefusesAt(size, clients, labels, n, k, r.msg, r.code)
  }

  lemma RefusedBefore(size: nat, clients: set<nat>, labels: seq<Label>, k: nat, r: Refusal)
    requires labels != [] && WasRefused(size, clients, labels[..|labels| - 1], k, r)
    ensures WasRefused(size, clients, labels, k, r)
  {
    var shorter, l := labels[..|labels| - 1], labels[|labels| - 1];
    var n :| RefusesAt(size, clients, shorter, n, k, r.msg, r.code);
    RefusesLater(size, clients, shorter, l, n, k, r.msg, r.code);
    assert shorter + [l] == labels;
  }

  lemma RefusedLast(size: nat, clients: set<nat>, labels: seq<Label>, k: nat, r: Refusal)
    requires labels != [] && labels[|labels| - 1] == Label.ThreadStep(k, SHandle(Refused(r.code)))
    requires var before := After(size, clients, labels[..|labels| - 1]);
             before.Some? && k in before.value.conns && before.value.conns[k].thread == AtHandle(r.msg)
    ensures WasRefused(size, clients, labels, k, r)
  {
    assert RefusesAt(size, clients, labels, |labels| - 1, k, r.msg, r.code);
  }

  lemma RefusesLater(size: nat, clients: set<nat>, labels: seq<Label>, l: Label, n: int, k: nat, m: Msg, code: int)
    requires RefusesAt(size, clients, labels, n, k, m, code)
    ensures RefusesAt(size, clients, labels + [l], n, k, m, code)
  {
    assert (labels + [l])[..n] == labels[..n];
  }

  /** The step refuses a request on this connection. */
  predicate Refuses(l: Label, k: nat) {
    l.ThreadStep? && l.k == k && l.t.SHandle? && l.t.h.Refused?
  }

  /** A refusal is recorded when it happens, and stays: a connection refuses at most once. */
  ghost predicate RefusalMoves(s: State, l: Label, k: nat)
    requires Guard(s, l)
  {
    && (k in s.conns ==> k in Apply(s, l).conns)
    && (k in s.conns && s.conns[k].refusal.Some? ==> !Refuses(l, k))
    && (k in Apply(s, l).conns ==>
          if Refuses(l, k) then
            && k in s.conns && s.conns[k].thread.AtHandle?
            && Apply(s, l).conns[k].refusal == Some(Refusal(s.conns[k].thread.msg, l.t.h.code))
          else Apply(s, l).conns[k].refusal == if k in s.conns then s.conns[k].refusal else None)
  }

  lemma RefusalStep(s: State, l: Label, k: nat)
    requires Guard(s, l) && (k in s.conns && s.conns[k].refusal.Some? ==> !s.conns[k].thread.AtHandle?)
    ensures RefusalMoves(s, l, k)
  {
    match l {
      case ReadReply(c) => assert Receive(s.clients[c], ConnOf(s, c)).1.refusal == ConnOf(s, c).refusal;
      case ThreadStep(j, t) => StepRefusal(s.conns[j], t);
      case _ =>
    }
  }

  /** The last step of a run. */
  lemma LastRefusal(size: nat, clients: set<nat>, labels: seq<Label>, s: State, k: nat)
    requires Reaches(size, clients, labels, s) && labels != []
    ensures var before, l := After(size, clients, labels[..|labels| - 1]), labels[|labels| - 1];
            before.Some? && Guard(before.value, l) && s == Apply(before.value, l) && RefusalMoves(before.value, l, k)
  {
    var before := After(size, clients, labels[..|labels| - 1]).value;
    ReachableInv(size, clients, labels[..|labels| - 1], before);
    if k in before.conns {
      assert OwnedOk(before, k);
    }
    RefusalStep(before, labels[|labels| - 1], k);
  }

  /** What a connection has on record as refused was refused by a step of the run. */
  lemma {:induction false} RefusalHappened(size: nat, clients: set<nat>, labels: seq<Label>, s: State, k: nat)
    requires Reaches(size, clients, labels, s) && k in s.conns && s.conns[k].refusal.Some?
    ensures WasRefused(size, clients, labels, k, s.conns[k].refusal.value)
  {
    if labels != [] {
      var shorter := labels[..|labels| - 1];
      LastRefusal(size, clients, labels, s, k);
      if Refuses(labels[|labels| - 1], k) {
        RefusedLast(size, clients, labels, k, s.conns[k].refusal.value);
      } else {
        RefusalHappened(size, clients, shorter, After(size, clients, shorter).value, k);
        RefusedBefore(size, clients, labels, k, s.conns[k].refusal.value);
      }
    }
  }

  lemma {:induction false} RefusalRecorded(size: nat, clients: set<nat>, labels: seq<Label>, s: State, n: int, k: nat,
                                           m: Msg, code: int)
    requires Reaches(size, clients, labels, s) && RefusesAt(size, clients, labels, n, k, m, code)
    ensures k in s.conns && s.conns[k].refusal == Some(Refusal(m, code))
  {
    var shorter := labels[..|labels| - 1];
    LastRefusal(size, clients, labels, s, k);
    if n < |shorter| {
      assert shorter[..n] == labels[..n];
      RefusalRecorded(size, clients, shorter, After(size, clients, shorter).value, n, k, m, code);
    }
  }

  /** In every run a thread that refused a request ends by sending the code of that refusal, and nothing after it. */
  lemma RefusalIsSent(size: nat, clients: set<nat>, labels: seq<Label>, s: State, n: int, k: nat, m: Msg, code: int)
    requires Reaches(size, clients, labels, s) && RefusesAt(size, clients, labels, n, k, m, code)
    ensures k in s.conns && (s.conns[k].thread == AtCatch(code) || s.conns[k].thread.Ended?)
    ensures s.conns[k].thread.Ended? ==> EndsWith(s.conns[k], code)
  {
    RefusalRecorded(size, clients, labels, s, n, k, m, code);
    ReachableInv(size, clients, labels, s);
    assert OwnedOk(s, k);
  }

  /** A call in a client's history that raised a server error had its own request refused in the run, with that code. */
  ghost predicate RefusedInRun(size: nat, clients: set<nat>, labels: seq<Label>, c: nat, id: nat, code: int) {
    exists k: nat, r: Refusal ::
      WasRefused(size, clients, labels, k, r) && r.msg.client == c && r.msg.id == id && r.code == code
  }

  lemma RefusedInLonger(size: nat, clients: set<nat>, labels: seq<Label>, c: nat, id: nat, code: int)
    requires labels != [] && RefusedInRun(size, clients, labels[..|labels| - 1], c, id, code)
    ensures RefusedInRun(size, clients, labels, c, id, code)
  {
    var k: nat, r: Refusal :|
      WasRefused(size, clients, labels[..|labels| - 1], k, r) && r.msg.client == c && r.msg.id == id && r.code == code;
    RefusedBefore(size, clients, labels, k, r);
  }

  /** A history that has not changed, or has one more end of a call; an error raised is that of the recorded refusal of
      the call's own request. */
  predicate RaisesRefusal(h: seq<Result>, h': seq<Result>, c: nat, refusal: Option<Refusal>) {
    || h' == h
    || (|h'| == |h| + 1 && h'[..|h|] == h
        && (h'[|h|].Raised? ==>
              refusal.Some? && refusal.value.code == h'[|h|].code
              && refusal.value.msg.client == c && refusal.value.msg.id == |h|))
  }

  lemma RaisedReply(s: State, c: nat)
    requires CallsOk(s) && Guard(s, ReadReply(c))
    ensures RaisesRefusal(s.clients[c].history, Receive(s.clients[c], ConnOf(s, c)).0.history, c, ConnOf(s, c).refusal)
  {
    var cl, conn := s.clients[c], ConnOf(s, c);
    assert ClientOk(s, c) && OwnedOk(s, cl.cur.value);
    if conn.s2c[0].Error? && !Reconnects(cl.phase.kind, conn.s2c[0].code) {
      RaisesItsRefusal(cl, conn, Runs(s.execs, c, |cl.history|));
    }
  }

  lemma OthersRaiseNothing(s: State, l: Label, c: nat)
    requires Guard(s, l) && c in Apply(s, l).clients && l != ReadReply(c)
    ensures c in s.clients && Apply(s, l).clients[c].history == s.clients[c].history
  {
  }

  lemma LastRaise(size: nat, clients: set<nat>, labels: seq<Label>, s: State, c: nat)
    requires Reaches(size, clients, labels, s) && labels != [] && c in s.clients
    ensures var before := After(size, clients, labels[..|labels| - 1]);
            && before.Some? && c in before.value.clients
            && (s.clients[c].history == before.value.clients[c].history
                || (HasConn(before.value, c)
                    && RaisesRefusal(before.value.clients[c].history, s.clients[c].history, c,
                                     ConnOf(before.value, c).refusal)))
  {
    var before, l := After(size, clients, labels[..|labels| - 1]).value, labels[|labels| - 1];
    ReachableInv(size, clients, labels[..|labels| - 1], before);
    if l == ReadReply(c) {
      RaisedReply(before, c);
    } else {
      OthersRaiseNothing(before, l, c);
    }
  }

  lemma {:induction false} RaisedWasRefused(size: nat, clients: set<nat>, labels: seq<Label>, s: State, c: nat, id: nat)
    requires Reaches(size, clients, labels, s) && c in s.clients && id < |s.clients[c].history|
    requires s.clients[c].history[id].Raised?
    ensures RefusedInRun(size, clients, labels, c, id, s.clients[c].history[id].code)
  {
    if labels != [] {
      var shorter := labels[..|labels| - 1];
      var before := After(size, clients, shorter).value;
      LastRaise(size, clients, labels, s, c);
      var h, code := before.clients[c].history, s.clients[c].history[id].code;
      if id < |h| {
        assert s.clients[c].history[..|h|] == h;
        assert s.clients[c].history[..|h|][id] == s.clients[c].history[id];
        RaisedWasRefused(size, clients, shorter, before, c, id);
      } else {
        RefusalHappened(size, clients, shorter, before, before.clients[c].cur.value);
      }
      assert RefusedInRun(size, clients, shorter, c, id, code);
      RefusedInLonger(size, clients, labels, c, id, code);
    }
  }
}
