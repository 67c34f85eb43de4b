/** The calls of the thread-per-connection server's clients are calls of the retry loop: each ends as that loop ends on
    the outcomes that its attempts had in the run. */
module SockRetry {
  import opened Proto
  import opened Retry
  import opened SockConnection
  import opened SockGuarantees
  import opened SockProtocol
  import opened Wrappers

  /** A call that has ended, with the outcomes of its attempts. */
  datatype EndedCall = EndedCall(kind: Kind, attempts: seq<Attempt>)

  /** What a run has shown of a client: its calls so far, and the attempts of the one in progress. */
  datatype Seen = Seen(calls: seq<EndedCall>, attempts: seq<Attempt>)

  function Tree(f: Frame): JValue {
    match f
    case Response(_, value) => ResponseTree(JString(value))
    case Error(code) => ErrorTree(code)
  }

  function See(s: State, l: Label, c: nat, seen: Seen): Seen
    requires Guard(s, l)
  {
    match l
    case Begin(d, _, _) => if d == c then seen.(attempts := []) else seen
    case SendFails(d) => if d == c then seen.(attempts := seen.attempts + [WriteFailed]) else seen
    case ReadFails(d) => if d == c then seen.(attempts := seen.attempts + [ReadFailed]) else seen
    case ReadReply(d) =>
      if d != c then seen
      else
        var kind, a := s.clients[c].phase.kind, Replied(Tree(ConnOf(s, c).s2c[0]), true);
        if Retries(kind, a) then seen.(attempts := seen.attempts + [a])
        else Seen(seen.calls + [EndedCall(kind, seen.attempts + [a])], [])
    case _ => seen
  }

  /** What a run has shown, step by step. */
  function SeenOf(size: nat, clients: set<nat>, labels: seq<Label>, c: nat): Seen {
    if labels == [] then Seen([], [])
    else
      var before, l := After(size, clients, labels[..|labels| - 1]), labels[|labels| - 1];
      var seen := SeenOf(size, clients, labels[..|labels| - 1], c);
      if before.Some? && Guard(before.value, l) then See(before.value, l, c, seen) else seen
  }

  function AsOutcome(r: Result): Outcome {
    match r
    case Done(value) => Returned(ResponseTree(JString(value)))
    case Raised(code) => Threw(ServerError(code))
    case TooManyFailures => Threw(CallFailed)
  }

  ghost predicate EndedAs(call: EndedCall, r: Result) {
    EndsAs(call.kind, call.attempts, AsOutcome(r))
  }

  /** The calls that have ended did so as they should; the attempts of the one in progress are all tried again. */
  ghost predicate SeenOk(cl: Client, seen: Seen) {
    && |seen.calls| == |cl.history|
    && (forall i | 0 <= i < |cl.history| :: EndedAs(seen.calls[i], cl.history[i]))
    && (!cl.phase.Idle? ==>
          && (forall i | 0 <= i < |seen.attempts| :: Retries(cl.phase.kind, seen.attempts[i]))
          && cl.phase.tried == Failures(seen.attempts))
  }

  /** What the client makes of a reply is what the retry loop makes of it. */
  lemma ReplyVerdict(cl: Client, k: Conn)
    requires cl.phase.Awaiting? && k.s2c != []
    requires k.s2c[0].Error? ==> SOCKET_CLOSED <= k.s2c[0].code <= BAD_MESSAGE
    ensures var a, cl' := Replied(Tree(k.s2c[0]), true), Receive(cl, k).0;
            if Retries(cl.phase.kind, a) then
              cl'.phase == Sending(cl.phase.kind, cl.phase.msg, cl.phase.tried) && cl'.history == cl.history
            else
              && cl'.phase.Idle? && |cl'.history| == |cl.history| + 1
              && cl'.history == cl.history + [cl'.history[|cl.history|]]
              && AsOutcome(cl'.history[|cl.history|]) == Verdict(cl.phase.kind, a, cl.phase.tried)
  {
    match k.s2c[0]
    case Response(_, value) => ResponseRoundTrip(JString(value), 0);
    case Error(code) => ResponseRoundTrip(JNull, code);
  }

  lemma MoreFailures(attempts: seq<Attempt>, a: Attempt)
    ensures Failures(attempts + [a]) == Failures(attempts) + (if a.ReadFailed? || a.WriteFailed? then 1 else 0)
  {
    assert (attempts + [a])[..|attempts|] == attempts;
  }

  /** One more attempt that is tried again. */
  lemma TriedAgain(cl: Client, cl': Client, seen: Seen, a: Attempt)
    requires SeenOk(cl, seen) && !cl.phase.Idle? && Retries(cl.phase.kind, a) && cl'.history == cl.history
    requires !cl'.phase.Idle? && cl'.phase.kind == cl.phase.kind
    requires cl'.phase.tried == cl.phase.tried + (if a.ReadFailed? || a.WriteFailed? then 1 else 0)
    ensures SeenOk(cl', seen.(attempts := seen.attempts + [a]))
  {
    MoreFailures(seen.attempts, a);
  }

  /** The attempt that ends the call. */
  lemma EndedWith(kind: Kind, attempts: seq<Attempt>, a: Attempt, tried: nat, r: Result)
    requires forall i | 0 <= i < |attempts| :: Retries(kind, attempts[i])
    requires !Retries(kind, a) && tried == Failures(attempts) && AsOutcome(r) == Verdict(kind, a, tried)
    ensures EndedAs(EndedCall(kind, attempts + [a]), r)
  {
    var n, all := |attempts|, attempts + [a];
    assert all[..n] == attempts && all[n] == a;
    assert EndsAt(kind, all, n);
    CallEnds(kind, all, n);
  }

  lemma OneMoreCall(cl: Client, cl': Client, seen: Seen, call: EndedCall, r: Result)
    requires SeenOk(cl, seen) && EndedAs(call, r) && cl'.phase.Idle? && cl'.history == cl.history + [r]
    ensures SeenOk(cl', Seen(seen.calls + [call], []))
  {
    var calls := seen.calls + [call];
    forall i | 0 <= i < |cl'.history| ensures EndedAs(calls[i], cl'.history[i]) {
      if i < |cl.history| {
        assert calls[i] == seen.calls[i] && cl'.history[i] == cl.history[i];
      } else {
        assert calls[i] == call && cl'.history[i] == r;
      }
    }
  }

  lemma SeeReply(s: State, c: nat, seen: Seen)
    requires CallsOk(s) && Guard(s, ReadReply(c)) && SeenOk(s.clients[c], seen)
    ensures SeenOk(Apply(s, ReadReply(c)).clients[c], See(s, ReadReply(c), c, seen))
  {
    var cl, conn := s.clients[c], ConnOf(s, c);
    assert ClientOk(s, c) && OwnedOk(s, cl.cur.value);
    HeadOfQueue(conn);
    ReplyVerdict(cl, conn);
    var cl', a := Receive(cl, conn).0, Replied(Tree(conn.s2c[0]), true);
    if Retries(cl.phase.kind, a) {
      TriedAgain(cl, cl', seen, a);
    } else {
      var r := cl'.history[|cl.history|];
      EndedWith(cl.phase.kind, seen.attempts, a, cl.phase.tried, r);
      OneMoreCall(cl, cl', seen, EndedCall(cl.phase.kind, seen.attempts + [a]), r);
    }
  }

  lemma SeeFailure(s: State, l: Label, c: nat, seen: Seen)
    requires Guard(s, l) && (l == SendFails(c) || l == ReadFails(c)) && SeenOk(s.clients[c], seen)
    ensures SeenOk(Apply(s, l).clients[c], See(s, l, c, seen))
  {
    TriedAgain(s.clients[c], Failed(s.clients[c]), seen, if l.SendFails? then WriteFailed else ReadFailed);
  }

  /** The other steps show nothing of the client's attempts, and leave what its call has come to. */
  lemma SeeOther(s: State, l: Label, c: nat, seen: Seen)
    requires Guard(s, l) && c in s.clients && SeenOk(s.clients[c], seen)
    requires l != ReadReply(c) && l != SendFails(c) && l != ReadFails(c)
    ensures c in Apply(s, l).clients && SeenOk(Apply(s, l).clients[c], See(s, l, c, seen))
  {
    var cl, cl' := s.clients[c], Apply(s, l).clients[c];
    assert cl'.history == cl.history;
  }

  /** Over every run, each call of each client has ended as the retry loop ends on the outcomes that its attempts had:
      by the first that is not tried again and the transport failures before it. */
  lemma {:induction false} CallsEndAsRetried(size: nat, clients: set<nat>, labels: seq<Label>, s: State, c: nat)
    requires Reaches(size, clients, labels, s) && c in s.clients
    ensures SeenOk(s.clients[c], SeenOf(size, clients, labels, c))
  {
    if labels != [] {
      var shorter, l := labels[..|labels| - 1], labels[|labels| - 1];
      var before, seen := After(size, clients, shorter).value, SeenOf(size, clients, shorter, c);
      ReachableInv(size, clients, shorter, before);
      SameClients(before, l, c);
      CallsEndAsRetried(size, clients, shorter, before, c);
      if l == ReadReply(c) {
        SeeReply(before, c, seen);
      } else if l == SendFails(c) || l == ReadFails(c) {
        SeeFailure(before, l, c, seen);
      } else {
        SeeOther(before, l, c, seen);
      }
    }
  }

  lemma SameClients(s: State, l: Label, c: nat)
    requires Guard(s, l)
    ensures c in Apply(s, l).clients <==> c in s.clients
  {
  }
}
