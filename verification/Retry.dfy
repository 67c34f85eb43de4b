/** The client's call loops: which outcomes of an attempt are tried again, and what a call ends with. */
module Retry {
  import opened Proto

  const MAX_TRY := 8

  datatype Kind = Void | Valued

  /** How one attempt goes. A reply says too whether a reconnect, should it be needed, succeeds. */
  datatype Attempt =
    | Replied(tree: JValue, reconnects: bool)
    | ReadFailed
    | WriteFailed
    | HostFailed

  datatype Raised = HostFail | ServerError(code: int) | NoResult | CallFailed

  datatype Outcome = Returned(tree: JValue) | Threw(what: Raised) | Aborted | StillTrying

  /** A server error goes to a handler that reconnects: any of them without a return value, else only one. */
  predicate Reconnects(kind: Kind, code: int) {
    kind == Void || code == SOCKET_CLOSED
  }

  predicate Retries(kind: Kind, a: Attempt) {
    match a
    case Replied(tree, reconnects) =>
      var reply := ParseResponse(tree);
      reply.Throws? && Reconnects(kind, reply.code) && reconnects
    case ReadFailed => true
    case WriteFailed => true
    case HostFailed => false
  }

  function Failures(attempts: seq<Attempt>): nat {
    if attempts == [] then 0
    else Failures(attempts[..|attempts| - 1])
         + (if attempts[|attempts| - 1].ReadFailed? || attempts[|attempts| - 1].WriteFailed? then 1 else 0)
  }

  /** What ends a call whose last attempt is not tried again, after so many transport failures. */
  function Verdict(kind: Kind, a: Attempt, failures: nat): Outcome
    requires !Retries(kind, a)
  {
    match a
    case HostFailed => Threw(HostFail)
    case Replied(tree, _) =>
      match ParseResponse(tree)
      case Fatal => Aborted
      case Throws(code) => if Reconnects(kind, code) then Threw(HostFail) else Threw(ServerError(code))
      case Value(_) =>
        if kind == Valued && RESULT !in tree.fields then Threw(NoResult)
        else if failures > MAX_TRY then Threw(CallFailed)
        else Returned(tree)
  }

  /** The first attempt that is not tried again. */
  ghost predicate EndsAt(kind: Kind, attempts: seq<Attempt>, i: int) {
    0 <= i < |attempts| && !Retries(kind, attempts[i]) && forall j | 0 <= j < i :: Retries(kind, attempts[j])
  }

  // ------------------------------------------------------------------- how a call ends, in terms of the replies

  /** A reply that says an error with this code. */
  predicate RepliesError(a: Attempt, code: int) {
    a.Replied? && SaysError(a.tree, code)
  }

  predicate RepliesValue(a: Attempt) {
    a.Replied? && a.tree.JObject? && "error" !in a.tree.fields
  }

  predicate FailsTransport(a: Attempt) {
    a.ReadFailed? || a.WriteFailed?
  }

  /** The code of the error a reply says, one of those the client knows. */
  predicate RepliesKnownError(a: Attempt) {
    RepliesError(a, 1) || RepliesError(a, 2) || RepliesError(a, 3) || RepliesError(a, 4) || RepliesError(a, 5)
  }

  /** Errors that make the client reconnect: every one without a return value, SOCKET_CLOSED alone with one. */
  predicate MakesReconnect(kind: Kind, a: Attempt) {
    match kind
    case Void => RepliesKnownError(a)
    case Valued => RepliesError(a, 1)
  }

  predicate TriedAgain(kind: Kind, a: Attempt) {
    FailsTransport(a) || (MakesReconnect(kind, a) && a.reconnects)
  }

  /** The first attempt that is not tried again, told by the replies. */
  ghost predicate Settles(kind: Kind, attempts: seq<Attempt>, i: int) {
    0 <= i < |attempts| && !TriedAgain(kind, attempts[i]) && forall j | 0 <= j < i :: TriedAgain(kind, attempts[j])
  }

  /** The attempts before i that failed in transport. */
  ghost function FailedBefore(attempts: seq<Attempt>, i: int): set<int>
    requires i <= |attempts|
  {
    set j | 0 <= j < i && FailsTransport(attempts[j])
  }

  /** What a call ends with, by its first attempt that is not tried again: in each case if and only if. */
  ghost predicate EndsAs(kind: Kind, attempts: seq<Attempt>, r: Outcome) {
    && (forall tree :: r == Returned(tree) <==> exists i ::
          && Settles(kind, attempts, i) && RepliesValue(attempts[i]) && attempts[i].tree == tree
          && (kind == Valued ==> "result" in tree.fields) && |FailedBefore(attempts, i)| <= 8)
    && (r == Threw(CallFailed) <==> exists i ::
          && Settles(kind, attempts, i) && RepliesValue(attempts[i])
          && (kind == Valued ==> "result" in attempts[i].tree.fields) && |FailedBefore(attempts, i)| > 8)
    && (r == Threw(NoResult) <==> exists i ::
          && Settles(kind, attempts, i) && RepliesValue(attempts[i])
          && kind == Valued && "result" !in attempts[i].tree.fields)
    && (forall code :: r == Threw(ServerError(code)) <==>
          && kind == Valued && 2 <= code <= 5
          && exists i :: Settles(kind, attempts, i) && RepliesError(attempts[i], code))
    && (r == Threw(HostFail) <==> exists i ::
          Settles(kind, attempts, i) && (attempts[i].HostFailed? || MakesReconnect(kind, attempts[i])))
    && (r == Aborted <==> exists i ::
          && Settles(kind, attempts, i)
          && attempts[i].Replied? && !RepliesValue(attempts[i]) && !RepliesKnownError(attempts[i]))
    && (r == StillTrying <==> forall i | 0 <= i < |attempts| :: TriedAgain(kind, attempts[i]))
  }

  /** The loop tries again exactly after transport failures and after errors with a successful reconnect. */
  lemma RetriesExactly(kind: Kind, a: Attempt)
    ensures Retries(kind, a) <==> TriedAgain(kind, a)
  {
    if a.Replied? {
      ParseResponseExactly(a.tree);
    }
  }

  lemma SettlesExactly(kind: Kind, attempts: seq<Attempt>, i: int)
    ensures EndsAt(kind, attempts, i) <==> Settles(kind, attempts, i)
  {
    forall j | 0 <= j < |attempts| ensures Retries(kind, attempts[j]) <==> TriedAgain(kind, attempts[j]) {
      RetriesExactly(kind, attempts[j]);
    }
  }

  lemma SettlesOnce(kind: Kind, attempts: seq<Attempt>, i: int, j: int)
    requires Settles(kind, attempts, i) && Settles(kind, attempts, j)
    ensures i == j
  {
  }

  lemma {:induction false} FailuresCount(attempts: seq<Attempt>, i: nat)
    requires i <= |attempts|
    ensures Failures(attempts[..i]) == |FailedBefore(attempts, i)|
    decreases i
  {
    if i > 0 {
      FailuresCount(attempts, i - 1);
      assert attempts[..i][..i - 1] == attempts[..i - 1];
      var before := FailedBefore(attempts, i - 1);
      assert FailedBefore(attempts, i) == if FailsTransport(attempts[i - 1]) then before + {i - 1} else before;
    }
  }

  /** The verdict on one attempt, in terms of its reply. */
  lemma VerdictExactly(kind: Kind, a: Attempt, failures: nat)
    requires !Retries(kind, a)
    ensures var v := Verdict(kind, a, failures);
            var complete := RepliesValue(a) && (kind == Valued ==> "result" in a.tree.fields);
            && (forall tree :: v == Returned(tree) <==> complete && a.tree == tree && failures <= 8)
            && (v == Threw(CallFailed) <==> complete && failures > 8)
            && (v == Threw(NoResult) <==> RepliesValue(a) && !complete)
            && (forall code :: v == Threw(ServerError(code)) <==>
                  kind == Valued && 2 <= code <= 5 && RepliesError(a, code))
            && (v == Threw(HostFail) <==> a.HostFailed? || MakesReconnect(kind, a))
            && (v == Aborted <==> a.Replied? && !RepliesValue(a) && !RepliesKnownError(a))
            && v != StillTrying
  {
    if a.Replied? {
      ParseResponseExactly(a.tree);
    }
  }

  /** The verdict on the first attempt that is not tried again is the end of the call. */
  lemma CallEnds(kind: Kind, attempts: seq<Attempt>, i: nat)
    requires EndsAt(kind, attempts, i)
    ensures EndsAs(kind, attempts, Verdict(kind, attempts[i], Failures(attempts[..i])))
  {
    SettlesExactly(kind, attempts, i);
    forall j | Settles(kind, attempts, j) ensures j == i {
      SettlesOnce(kind, attempts, i, j);
    }
    FailuresCount(attempts, i);
    VerdictExactly(kind, attempts[i], Failures(attempts[..i]));
  }

  lemma CallGoesOn(kind: Kind, attempts: seq<Attempt>)
    requires forall i | 0 <= i < |attempts| :: Retries(kind, attempts[i])
    ensures EndsAs(kind, attempts, StillTrying)
  {
    forall i | 0 <= i < |attempts| ensures TriedAgain(kind, attempts[i]) {
      RetriesExactly(kind, attempts[i]);
    }
    assert forall i :: !Settles(kind, attempts, i);
  }

  class AbstractClient {
    var msgId: int
    const clientno: int

    constructor (clientno: int)
      ensures msgId == 0 && this.clientno == clientno
    {
      this.clientno, msgId := clientno, 0;
    }

    /**
     * One call over the outcomes its attempts would have, for either kind of call. It ends with the first
     * attempt that is not tried again, and every attempt sends the same request under the same message id.
     */
    method Call(kind: Kind, method_: int, params: seq<JValue>, now: int, attempts: seq<Attempt>)
      returns (r: Outcome, sent: seq<JValue>)
      modifies this
      ensures msgId == old(msgId) + 1
      ensures |sent| <= |attempts| && EndsAs(kind, attempts, r)
      ensures forall i | 0 <= i < |sent| :: sent[i] == RequestTree(clientno, 0, old(msgId), now, method_, params)
      ensures r == StillTrying ==> |sent| == |attempts|
      ensures r != StillTrying ==> Settles(kind, attempts, |sent| - 1)
    {
      var msg := BuildRequest(clientno, 0, msgId, now, method_, params);
      msgId := msgId + 1;
      r, sent := Attempts(kind, msg, attempts);
      if r == StillTrying {
        CallGoesOn(kind, attempts);
      } else {
        CallEnds(kind, attempts, |sent| - 1);
        SettlesExactly(kind, attempts, |sent| - 1);
      }
    }

    /** The loop of a call. */
    static method Attempts(kind: Kind, msg: JValue, attempts: seq<Attempt>) returns (r: Outcome, sent: seq<JValue>)
      ensures |sent| <= |attempts| && forall i | 0 <= i < |sent| :: sent[i] == msg
      ensures r == StillTrying ==>
                |sent| == |attempts| && forall i | 0 <= i < |attempts| :: Retries(kind, attempts[i])
      ensures r != StillTrying ==>
                && EndsAt(kind, attempts, |sent| - 1)
                && r == Verdict(kind, attempts[|sent| - 1], Failures(attempts[..|sent| - 1]))
    {
      var tried := 0;
      sent, r := [], StillTrying;
      while |sent| < |attempts|
        invariant |sent| <= |attempts| && r == StillTrying && tried == Failures(attempts[..|sent|])
        invariant forall i | 0 <= i < |sent| :: sent[i] == msg && Retries(kind, attempts[i])
        decreases |attempts| - |sent|
      {
        var a := attempts[|sent|];
        assert attempts[..|sent| + 1][..|sent|] == attempts[..|sent|];
        sent := sent + [msg];
        match a {
          case ReadFailed => tried := tried + 1;
          case WriteFailed => tried := tried + 1;
          case HostFailed => r := Threw(HostFail); break;
          case Replied(tree, reconnects) =>
            match ParseResponse(tree) {
              case Fatal => r := Aborted; break;
              case Throws(code) =>
                if !Reconnects(kind, code) { r := Threw(ServerError(code)); break; }
                if !reconnects { r := Threw(HostFail); break; }
              case Value(_) =>
                r := if kind == Valued && RESULT !in tree.fields then Threw(NoResult) else Returned(tree);
                break;
            }
        }
      }
      if r.Returned? && tried > MAX_TRY {
        r := Threw(CallFailed);
      }
    }
  }

  /** A call without a return value outlives every valued one on the same outcomes: it ends no earlier, and while
      the host can be reached no server error ever ends it. */
  lemma VoidOutlivesValued(attempts: seq<Attempt>, i: nat, j: nat)
    requires EndsAt(Void, attempts, i) && EndsAt(Valued, attempts, j)
    ensures j <= i
    ensures !Verdict(Void, attempts[i], Failures(attempts[..i])).Threw?
         || !Verdict(Void, attempts[i], Failures(attempts[..i])).what.ServerError?
    ensures j < i ==> attempts[j].Replied? && ParseResponse(attempts[j].tree).Throws?
    ensures j < i ==> ParseResponse(attempts[j].tree).code != SOCKET_CLOSED
  {
  }
}
