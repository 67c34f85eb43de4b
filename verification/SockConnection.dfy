/**
 * One connection of the thread-per-connection server and the client that owns it, one message at a time: what the
 * connection thread, an eviction and the client's call loop do to it.
 */
module SockConnection {
  import opened Proto
  import opened Retry
  import opened Wrappers

  /** The text of a request: the client that made it, its message id, and the rest. */
  datatype Msg = Msg(client: nat, id: nat, arg: string)

  datatype Frame = Response(msg: Msg, value: string) | Error(code: int)

  /** What the handler makes of a request: it runs, or it is refused before it runs. */
  datatype Handled = Ran(value: string) | Refused(code: int)

  /** Where the connection thread is. `AtBody` is the receive loop between the header of a message and its last byte, and
      `Spinning` that loop on a socket shut for reading when the rest of the message is lost: it reads 0 for ever. */
  datatype Thread =
    | NotStarted
    | AtGuard
    | AtRecv
    | AtBody(msg: Msg)
    | Spinning
    | AtHandle(msg: Msg)
    | AtSend(msg: Msg, value: string)
    | AtCheck
    | AtCatch(code: int)
    | Ended

  datatype Run = Run(msg: Msg, value: string)

  datatype Refusal = Refusal(msg: Msg, code: int)

  /** `got`, `ran` and `replies` are the whole history: requests read, executed, and frames sent. `refusal` is
      the request that was refused, and why, and `shutAt` where an eviction found the thread. */
  datatype Conn = Conn(owner: nat, clientOpen: bool, serverOpen: bool, connected: bool, readShut: bool,
                       thread: Thread, c2s: seq<Msg>, s2c: seq<Frame>,
                       got: seq<Msg>, ran: seq<Run>, replies: seq<Frame>,
                       refusal: Option<Refusal>, shutAt: Option<Thread>)

  function NewConn(owner: nat): Conn {
    Conn(owner, true, true, true, false, NotStarted, [], [], [], [], [], None, None)
  }

  // ------------------------------------------------------------------------------------ the connection thread

  function Loop(k: Conn): Conn {
    k.(thread := if k.connected then AtRecv else Ended)
  }

  /** Queued requests may still be read after the socket is shut for reading, or not. */
  predicate CanTake(k: Conn) {
    k.thread.AtRecv? && k.c2s != []
  }

  function Take(k: Conn): Conn
    requires CanTake(k)
  {
    k.(thread := AtBody(k.c2s[0]), c2s := k.c2s[1..], got := k.got + [k.c2s[0]])
  }

  function Body(k: Conn): Conn
    requires k.thread.AtBody?
  {
    k.(thread := AtHandle(k.thread.msg))
  }

  /** The rest of a message under way may be lost once the socket is shut for reading. */
  predicate CanLose(k: Conn) {
    k.thread.AtBody? && k.readShut
  }

  function Lose(k: Conn): Conn {
    k.(thread := Spinning)
  }

  /** End of stream: the client has gone with nothing queued, or an eviction has shut the socket for reading. */
  predicate CanSeeEnd(k: Conn) {
    k.thread.AtRecv? && (k.readShut || (!k.clientOpen && k.c2s == []))
  }

  function SeeEnd(k: Conn): Conn {
    k.(thread := AtCatch(SOCKET_CLOSED))
  }

  predicate CanHandle(k: Conn, h: Handled) {
    k.thread.AtHandle? && (h.Refused? ==> METHOD_NOT_FOUND <= h.code <= BAD_MESSAGE)
  }

  function Handle(k: Conn, h: Handled): Conn
    requires CanHandle(k, h)
  {
    match h
    case Ran(value) => k.(thread := AtSend(k.thread.msg, value), ran := k.ran + [Run(k.thread.msg, value)])
    case Refused(code) => k.(thread := AtCatch(code), refusal := Some(Refusal(k.thread.msg, code)))
  }

  function Emit(k: Conn, f: Frame): Conn {
    k.(s2c := k.s2c + [f], replies := k.replies + [f])
  }

  function Respond(k: Conn): Conn
    requires k.thread.AtSend?
  {
    Emit(k, Response(k.thread.msg, k.thread.value)).(thread := AtCheck)
  }

  function Check(k: Conn): Conn {
    k.(thread := if k.connected then AtGuard else AtCatch(SOCKET_CLOSED))
  }

  /** The exception handler, under the mutex it shares with an eviction. */
  function Catch(k: Conn): Conn
    requires k.thread.AtCatch?
  {
    if !k.connected || k.thread.code != SOCKET_CLOSED
    then Emit(k, Error(k.thread.code)).(thread := Ended)
    else k.(connected := false, thread := Ended)
  }

  // --------------------------------------------------------------------------------------------- the eviction

  function ShutDown(k: Conn): Conn {
    k.(connected := false, readShut := true, shutAt := if k.shutAt.None? then Some(k.thread) else k.shutAt)
  }

  function CloseSocket(k: Conn): Conn {
    k.(serverOpen := false)
  }

  // ------------------------------------------------------------------------------------------------ the client

  datatype Phase =
    | Idle
    | Sending(kind: Kind, msg: Msg, tried: nat)
    | Awaiting(kind: Kind, msg: Msg, tried: nat)

  datatype Result = Done(value: string) | Raised(code: int) | TooManyFailures

  /** `history` holds what each call so far ended with; the next call gets the next message id. */
  datatype Client = Client(phase: Phase, cur: Option<nat>, history: seq<Result>)

  /** A request written to a socket the server has shut or closed may never be queued. */
  predicate CanSend(k: Conn, lost: bool) {
    (lost ==> k.readShut || !k.serverOpen) && (!lost ==> k.serverOpen)
  }

  function Queue(k: Conn, m: Msg, lost: bool): Conn {
    if lost then k else k.(c2s := k.c2s + [m])
  }

  /** A reply the loop does not try again ends the call; an error that it does makes it leave the connection. */
  function Receive(cl: Client, k: Conn): (Client, Conn)
    requires cl.phase.Awaiting? && k.s2c != []
  {
    var k' := k.(s2c := k.s2c[1..]);
    match k.s2c[0]
    case Response(_, value) =>
      (cl.(phase := Idle, history := cl.history + [if cl.phase.tried > MAX_TRY then TooManyFailures else Done(value)]), k')
    case Error(code) =>
      if Reconnects(cl.phase.kind, code)
      then (cl.(phase := Sending(cl.phase.kind, cl.phase.msg, cl.phase.tried), cur := None), k'.(clientOpen := false))
      else (cl.(phase := Idle, history := cl.history + [Raised(code)]), k')
  }

  /** End of stream where a header was due: a read failure, counted and tried again on the same socket. */
  predicate CanReadFail(cl: Client, k: Conn) {
    cl.phase.Awaiting? && k.s2c == [] && !k.serverOpen
  }

  function Failed(cl: Client): Client
    requires !cl.phase.Idle?
  {
    cl.(phase := Sending(cl.phase.kind, cl.phase.msg, cl.phase.tried + 1))
  }

  // ------------------------------------------------------------------------------------------- the invariant

  /** The responses to the executed requests in order, then at most one error, after which the thread is over. */
  ghost predicate RepliesOk(t: Thread, ran: seq<Run>, replies: seq<Frame>) {
    var done := if t.AtSend? then |ran| - 1 else |ran|;
    && 0 <= done <= |replies| <= done + 1
    && (forall i | 0 <= i < done :: replies[i] == Response(ran[i].msg, ran[i].value))
    && (|replies| > done ==>
          replies[done].Error? && SOCKET_CLOSED <= replies[done].code <= BAD_MESSAGE && t.Ended?)
    && (t.AtSend? ==> ran[done] == Run(t.msg, t.value))
  }

  /** Requests are executed in the order they were read, all of them but possibly the last one read. */
  ghost predicate TakenOk(t: Thread, got: seq<Msg>, ran: seq<Run>) {
    && |ran| <= |got| <= |ran| + 1
    && (forall i | 0 <= i < |ran| :: ran[i].msg == got[i])
    && (|got| > |ran| ==> t.Ended? || t.AtBody? || t.Spinning? || t.AtHandle? || t.AtCatch?)
    && (t.AtBody? || t.AtHandle? ==> |got| > |ran| && got[|ran|] == t.msg)
  }

  /** What is still to be read is the end of what has been sent. */
  ghost predicate QueuedOk(s2c: seq<Frame>, replies: seq<Frame>) {
    |s2c| <= |replies| && s2c == replies[|replies| - |s2c|..]
  }

  ghost predicate FlagsOk(k: Conn) {
    && (k.readShut <==> !k.connected) && (k.readShut <==> k.shutAt.Some?)
    && (!k.serverOpen ==> k.thread.Ended?)
    && (!k.clientOpen ==> k.thread.Ended?)
    && (k.thread.Spinning? ==> k.readShut)
    && (k.thread.AtCatch? ==> SOCKET_CLOSED <= k.thread.code <= BAD_MESSAGE)
  }

  /** The last frame sent is this error. */
  predicate EndsWith(k: Conn, code: int) {
    |k.replies| > 0 && k.replies[|k.replies| - 1] == Error(code)
  }

  predicate BetweenRounds(t: Thread) {
    t.NotStarted? || t.AtGuard?
  }

  /** How a thread ends: with the error of the request it refused; with SOCKET_CLOSED; or, when the eviction found it
      between two rounds, with no error. */
  ghost predicate EndingOk(k: Conn) {
    && (k.thread.AtCatch? && k.thread.code == SOCKET_CLOSED ==> k.readShut && k.refusal.None?)
    && (k.thread.AtCatch? && k.thread.code != SOCKET_CLOSED ==> k.refusal.Some?)
    && (k.refusal.Some? ==>
          && METHOD_NOT_FOUND <= k.refusal.value.code <= BAD_MESSAGE
          && (k.thread == AtCatch(k.refusal.value.code) || (k.thread.Ended? && EndsWith(k, k.refusal.value.code))))
    && (k.thread.Ended? ==> k.refusal.Some? || k.readShut)
    && (k.shutAt.Some? && BetweenRounds(k.shutAt.value) ==>
          && (BetweenRounds(k.thread) || k.thread.Ended?) && k.refusal.None? && |k.replies| == |k.ran|)
    && (k.shutAt.Some? && !BetweenRounds(k.shutAt.value) && k.refusal.None? ==>
          !BetweenRounds(k.thread) && (k.thread.Ended? ==> EndsWith(k, SOCKET_CLOSED)))
    && (k.shutAt.Some? && (k.shutAt.value.Ended? || (k.shutAt.value.AtCatch? && k.shutAt.value.code != SOCKET_CLOSED)) ==>
          k.refusal.Some?)
  }

  ghost predicate ConnOk(k: Conn) {
    && RepliesOk(k.thread, k.ran, k.replies) && TakenOk(k.thread, k.got, k.ran) && QueuedOk(k.s2c, k.replies)
    && FlagsOk(k) && EndingOk(k)
  }

  /** The thread has no request in hand. */
  predicate Resting(k: Conn) {
    && (k.thread.AtCatch? ==> k.thread.code == SOCKET_CLOSED)
    && !k.thread.AtBody? && !k.thread.Spinning? && !k.thread.AtHandle? && !k.thread.AtSend?
    && (k.s2c == [] || (k.s2c == [Error(SOCKET_CLOSED)] && k.thread.Ended?))
  }

  /** Nothing is queued in either direction. */
  predicate Empty(k: Conn) {
    k.c2s == [] && k.s2c == []
  }

  predicate Unread(k: Conn) {
    Resting(k) && (k.thread.Ended? || k.c2s == [])
  }

  predicate Waiting(k: Conn, m: Msg) {
    Resting(k) && (k.thread.Ended? || k.c2s == [] || k.c2s == [m])
  }

  /** The request has been refused, and all that is or will be there to read is that error. */
  predicate Turned(k: Conn, m: Msg) {
    && k.c2s == [] && k.refusal.Some? && k.refusal.value.msg == m && k.refusal.value.code != SOCKET_CLOSED
    && ((k.thread.AtCatch? && k.thread.code != SOCKET_CLOSED && k.s2c == [])
        || (k.thread.Ended? && k.s2c == [Error(k.refusal.value.code)]))
  }

  predicate Answered(k: Conn, m: Msg) {
    && k.c2s == [] && |k.s2c| > 0 && k.s2c[0].Response? && k.s2c[0].msg == m
    && Resting(k.(s2c := k.s2c[1..]))
  }

  /** A client and its current connection. `n` counts how often its current (or, idle, its next) call has run. */
  predicate PairOk(cl: Client, k: Conn, n: nat) {
    && k.clientOpen
    && match cl.phase
       case Idle => Unread(k) && n == 0
       case Sending(_, _, _) => Unread(k) && n == 0
       case Awaiting(_, m, _) =>
         || (Waiting(k, m) && n == 0)
         || ((k.thread == AtBody(m) || k.thread.Spinning? || k.thread == AtHandle(m)) && Empty(k) && n == 0)
         || (k.thread.AtSend? && k.thread.msg == m && Empty(k) && n == 1)
         || (Turned(k, m) && n == 0)
         || (Answered(k, m) && n == 1)
  }

  /** A connection its client has left, which can do nothing more. */
  predicate LeftOk(k: Conn) {
    !k.clientOpen && k.thread.Ended?
  }

  // ----------------------------------------------------------------------------------- every step keeps it

  datatype ThreadStep = SLoop | STake | SBody | SLose | SSeeEnd | SHandle(h: Handled) | SRespond | SCheck | SCatch

  predicate CanStep(k: Conn, t: ThreadStep) {
    match t
    case SLoop => k.thread.AtGuard?
    case STake => CanTake(k)
    case SBody => k.thread.AtBody?
    case SLose => CanLose(k)
    case SSeeEnd => CanSeeEnd(k)
    case SHandle(h) => CanHandle(k, h)
    case SRespond => k.thread.AtSend?
    case SCheck => k.thread.AtCheck?
    case SCatch => k.thread.AtCatch?
  }

  function Step(k: Conn, t: ThreadStep): Conn
    requires CanStep(k, t)
  {
    match t
    case SLoop => Loop(k)
    case STake => Take(k)
    case SBody => Body(k)
    case SLose => Lose(k)
    case SSeeEnd => SeeEnd(k)
    case SHandle(h) => Handle(k, h)
    case SRespond => Respond(k)
    case SCheck => Check(k)
    case SCatch => Catch(k)
  }

  /** The one step that executes a request. */
  predicate Executes(t: ThreadStep) {
    t.SHandle? && t.h.Ran?
  }

  lemma StepReplies(k: Conn, t: ThreadStep)
    requires ConnOk(k) && CanStep(k, t)
    ensures var k' := Step(k, t); RepliesOk(k'.thread, k'.ran, k'.replies)
  {
  }

  lemma StepTaken(k: Conn, t: ThreadStep)
    requires ConnOk(k) && CanStep(k, t)
    ensures var k' := Step(k, t); TakenOk(k'.thread, k'.got, k'.ran)
  {
  }

  lemma StepQueued(k: Conn, t: ThreadStep)
    requires QueuedOk(k.s2c, k.replies) && CanStep(k, t)
    ensures var k' := Step(k, t); QueuedOk(k'.s2c, k'.replies)
  {
    if t.SRespond? {
      EmitQueued(k.s2c, k.replies, Response(k.thread.msg, k.thread.value));
    } else if t.SCatch? {
      EmitQueued(k.s2c, k.replies, Error(k.thread.code));
    }
  }

  lemma EmitQueued(s2c: seq<Frame>, replies: seq<Frame>, f: Frame)
    requires QueuedOk(s2c, replies)
    ensures QueuedOk(s2c + [f], replies + [f])
  {
  }

  lemma StepFlags(k: Conn, t: ThreadStep)
    requires ConnOk(k) && CanStep(k, t)
    ensures FlagsOk(Step(k, t))
  {
  }

  lemma StepEnding(k: Conn, t: ThreadStep)
    requires ConnOk(k) && CanStep(k, t)
    ensures EndingOk(Step(k, t))
  {
  }

  lemma StepConnOk(k: Conn, t: ThreadStep)
    requires ConnOk(k) && CanStep(k, t)
    ensures ConnOk(Step(k, t))
  {
    StepReplies(k, t);
    StepTaken(k, t);
    StepQueued(k, t);
    StepFlags(k, t);
    StepEnding(k, t);
  }

  /** The record of a refusal is made by the step that refuses and by no other. */
  lemma StepRefusal(k: Conn, t: ThreadStep)
    requires CanStep(k, t)
    ensures Step(k, t).refusal
         == if t.SHandle? && t.h.Refused? then Some(Refusal(k.thread.msg, t.h.code)) else k.refusal
  {
  }

  /** A thread sees the end when an eviction lets it, or when its client has gone and nothing of the client's is left to
      read; to a client that has gone it says nothing, and notes that the connection is over. */
  lemma HangUpIsSilent(k: Conn)
    requires CanSeeEnd(k)
    ensures k.readShut || (!k.clientOpen && k.c2s == [])
    ensures var k' := Catch(SeeEnd(k));
            k' == k.(thread := Ended, connected := false, s2c := k'.s2c, replies := k'.replies)
    ensures Catch(SeeEnd(k)).replies == if k.connected then k.replies else k.replies + [Error(1)]
    ensures Catch(SeeEnd(k)).s2c == if k.connected then k.s2c else k.s2c + [Error(1)]
  {
  }

  predicate CanWalk(k: Conn, ts: seq<ThreadStep>)
    decreases ts
  {
    ts != [] ==> CanStep(k, ts[0]) && CanWalk(Step(k, ts[0]), ts[1..])
  }

  /** The connection after these steps of its thread. */
  function Walk(k: Conn, ts: seq<ThreadStep>): Conn
    requires CanWalk(k, ts)
    decreases ts
  {
    if ts == [] then k else Walk(Step(k, ts[0]), ts[1..])
  }

  lemma WalkOn(k: Conn, t: ThreadStep, more: seq<ThreadStep>)
    ensures CanWalk(k, [t] + more) <==> CanStep(k, t) && CanWalk(Step(k, t), more)
    ensures CanWalk(k, [t] + more) ==> Walk(k, [t] + more) == Walk(Step(k, t), more)
  {
    assert ([t] + more)[1..] == more;
  }

  /** From the guard of its loop a thread that has a request to read reads it and hands it over. */
  lemma FetchRound(k: Conn, m: Msg, later: seq<Msg>, more: seq<ThreadStep>)
    requires k.thread.AtGuard? && k.connected && k.c2s == [m] + later
    ensures var k' := k.(thread := AtHandle(m), c2s := later, got := k.got + [m]);
            && (CanWalk(k, [SLoop] + ([STake] + ([SBody] + more))) <==> CanWalk(k', more))
            && (CanWalk(k', more) ==> Walk(k, [SLoop] + ([STake] + ([SBody] + more))) == Walk(k', more))
  {
    var k1 := Step(k, SLoop);
    var k2 := Step(k1, STake);
    WalkOn(k, SLoop, [STake] + ([SBody] + more));
    WalkOn(k1, STake, [SBody] + more);
    WalkOn(k2, SBody, more);
    assert Step(k2, SBody) == k.(thread := AtHandle(m), c2s := later, got := k.got + [m]);
  }

  function ServedSteps(value: string): seq<ThreadStep> {
    [SLoop] + ([STake] + ([SBody] + ([SHandle(Ran(value))] + ([SRespond] + [SCheck]))))
  }

  /** One whole round for a request that runs: it is read, run and answered, and the thread is back where it was. */
  lemma ServedRound(k: Conn, m: Msg, later: seq<Msg>, value: string)
    requires k.thread.AtGuard? && k.connected && k.c2s == [m] + later
    ensures CanWalk(k, ServedSteps(value))
    ensures Walk(k, ServedSteps(value))
         == k.(c2s := later, s2c := k.s2c + [Response(m, value)], got := k.got + [m],
               ran := k.ran + [Run(m, value)], replies := k.replies + [Response(m, value)])
  {
    var k3 := k.(thread := AtHandle(m), c2s := later, got := k.got + [m]);
    var k4 := Step(k3, SHandle(Ran(value)));
    FetchRound(k, m, later, [SHandle(Ran(value))] + ([SRespond] + [SCheck]));
    WalkOn(k3, SHandle(Ran(value)), [SRespond] + [SCheck]);
    WalkOn(k4, SRespond, [SCheck]);
    WalkOn(Step(k4, SRespond), SCheck, []);
    assert [SCheck] + [] == [SCheck];
  }

  function RefusedSteps(code: int): seq<ThreadStep> {
    [SLoop] + ([STake] + ([SBody] + ([SHandle(Refused(code))] + [SCatch])))
  }

  /** One round for a request that is refused: its error, 2 to 5, is answered, the thread is over and the socket open. */
  lemma RefusedRound(k: Conn, m: Msg, later: seq<Msg>, code: int)
    requires k.thread.AtGuard? && k.connected && k.c2s == [m] + later
    ensures CanWalk(k, RefusedSteps(code)) <==> 2 <= code <= 5
    ensures 2 <= code <= 5 ==>
              var k' := Walk(k, RefusedSteps(code));
              k' == k.(thread := Ended, c2s := later, s2c := k.s2c + [Error(code)], got := k.got + [m],
                       replies := k.replies + [Error(code)], refusal := Some(Refusal(m, code)))
  {
    var k3 := k.(thread := AtHandle(m), c2s := later, got := k.got + [m]);
    FetchRound(k, m, later, [SHandle(Refused(code))] + [SCatch]);
    WalkOn(k3, SHandle(Refused(code)), [SCatch]);
    if 2 <= code <= 5 {
      WalkOn(Step(k3, SHandle(Refused(code))), SCatch, []);
      assert [SCatch] + [] == [SCatch];
    }
  }

  /** A request is queued behind those before it; it is lost only on a socket shut or closed, and always on a closed one. */
  lemma SendsExactly(k: Conn, m: Msg, lost: bool)
    requires CanSend(k, lost)
    ensures lost ==> !k.serverOpen || k.readShut
    ensures !k.serverOpen ==> lost
    ensures Queue(k, m, lost) == if lost then k else k.(c2s := k.c2s + [m])
  {
  }

  /** What the pool sees of a change to a connection: an open socket stays open, and nothing that is over comes back. */
  predicate Onward(k: Conn, k': Conn) {
    && k'.serverOpen == k.serverOpen && (k.thread.Ended? ==> k'.thread.Ended?)
    && (k'.connected ==> k.connected) && k'.readShut == k.readShut
    && (k'.thread.NotStarted? <==> k.thread.NotStarted?) && (k.thread.NotStarted? ==> k'.connected == k.connected)
    && k'.shutAt == k.shutAt
  }

  lemma StepOnward(k: Conn, t: ThreadStep)
    requires CanStep(k, t)
    ensures Onward(k, Step(k, t))
  {
  }

  /** A thread step keeps the pair in order; executing happens only to a request that has not run yet. */
  lemma StepPairOk(cl: Client, k: Conn, n: nat, t: ThreadStep)
    requires ConnOk(k) && PairOk(cl, k, n) && CanStep(k, t)
    ensures Executes(t) ==> n == 0 && cl.phase.Awaiting? && k.thread.msg == cl.phase.msg
    ensures PairOk(cl, Step(k, t), if Executes(t) then n + 1 else n)
  {
  }

  lemma ShutDownKeeps(cl: Client, k: Conn, n: nat)
    requires ConnOk(k)
    ensures ConnOk(ShutDown(k)) && (PairOk(cl, k, n) ==> PairOk(cl, ShutDown(k), n))
  {
  }

  lemma CloseSocketKeeps(cl: Client, k: Conn, n: nat)
    requires ConnOk(k) && k.thread.Ended?
    ensures ConnOk(CloseSocket(k)) && (PairOk(cl, k, n) ==> PairOk(cl, CloseSocket(k), n))
  {
  }

  lemma StartKeeps(cl: Client, k: Conn, n: nat)
    requires ConnOk(k) && k.thread.NotStarted?
    ensures ConnOk(k.(thread := AtGuard)) && (PairOk(cl, k, n) ==> PairOk(cl, k.(thread := AtGuard), n))
  {
  }

  lemma QueueConnOk(k: Conn, m: Msg, lost: bool)
    requires ConnOk(k)
    ensures ConnOk(Queue(k, m, lost))
  {
  }

  lemma SendKeeps(cl: Client, k: Conn, n: nat, lost: bool)
    requires ConnOk(k) && PairOk(cl, k, n) && cl.phase.Sending? && CanSend(k, lost)
    ensures ConnOk(Queue(k, cl.phase.msg, lost))
    ensures PairOk(cl.(phase := Awaiting(cl.phase.kind, cl.phase.msg, cl.phase.tried)), Queue(k, cl.phase.msg, lost), n)
  {
    QueueConnOk(k, cl.phase.msg, lost);
  }

  lemma SuffixTail(s2c: seq<Frame>, replies: seq<Frame>)
    requires QueuedOk(s2c, replies) && s2c != []
    ensures QueuedOk(s2c[1..], replies) && s2c[0] == replies[|replies| - |s2c|]
  {
  }

  /** A response at the head of the queue is that of an executed request; an error is the last thing there. */
  lemma HeadOfQueue(k: Conn)
    requires ConnOk(k) && k.s2c != []
    ensures k.s2c[0].Response? ==> Run(k.s2c[0].msg, k.s2c[0].value) in k.ran
    ensures k.s2c[0].Error? ==> k.thread.Ended? && SOCKET_CLOSED <= k.s2c[0].code <= BAD_MESSAGE
  {
    var i := |k.replies| - |k.s2c|;
    SuffixTail(k.s2c, k.replies);
    assert k.replies[i] == k.s2c[0];
    if k.s2c[0].Response? {
      assert k.ran[i] == Run(k.s2c[0].msg, k.s2c[0].value);
    }
  }

  lemma TailConnOk(k: Conn)
    requires ConnOk(k) && k.s2c != []
    ensures ConnOk(k.(s2c := k.s2c[1..]))
  {
    SuffixTail(k.s2c, k.replies);
  }

  lemma LeaveConnOk(k: Conn)
    requires ConnOk(k) && k.thread.Ended?
    ensures ConnOk(k.(clientOpen := false))
  {
  }

  lemma ReceiveConnOk(cl: Client, k: Conn)
    requires ConnOk(k) && cl.phase.Awaiting? && k.s2c != []
    ensures ConnOk(Receive(cl, k).1)
  {
    HeadOfQueue(k);
    TailConnOk(k);
    if k.s2c[0].Error? {
      LeaveConnOk(k.(s2c := k.s2c[1..]));
    }
  }

  /** What a client reads is its own response, after one execution, or an error, after none. */
  lemma ReceiveKeeps(cl: Client, k: Conn, n: nat)
    requires ConnOk(k) && PairOk(cl, k, n) && cl.phase.Awaiting? && cl.cur.Some? && k.s2c != []
    ensures var (cl', k') := Receive(cl, k);
            && ConnOk(k')
            && (k.s2c[0].Response? ==>
                  && n == 1 && k.s2c[0].msg == cl.phase.msg
                  && cl'.history == cl.history + [if cl.phase.tried > MAX_TRY then TooManyFailures else Done(k.s2c[0].value)]
                  && Run(cl.phase.msg, k.s2c[0].value) in k.ran)
            && (k.s2c[0].Error? ==> n == 0 && k.thread.Ended?)
            && (if cl'.cur.None? then LeftOk(k') else PairOk(cl', k', 0))
  {
    HeadOfQueue(k);
    ReceiveConnOk(cl, k);
  }

  /** A call that raises a server error raises that of the refusal of its own request. */
  lemma RaisesItsRefusal(cl: Client, k: Conn, n: nat)
    requires ConnOk(k) && PairOk(cl, k, n) && cl.phase.Awaiting? && k.s2c != []
    requires k.s2c[0].Error? && !Reconnects(cl.phase.kind, k.s2c[0].code)
    ensures k.refusal == Some(Refusal(cl.phase.msg, k.s2c[0].code))
    ensures Receive(cl, k).0.history == cl.history + [Raised(k.s2c[0].code)]
  {
  }

  lemma ReadFailKeeps(cl: Client, k: Conn, n: nat)
    requires ConnOk(k) && PairOk(cl, k, n) && CanReadFail(cl, k)
    ensures PairOk(Failed(cl), k, n)
  {
  }
}
