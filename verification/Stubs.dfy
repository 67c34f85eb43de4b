/** The generated client stubs and server wrappers as statements, what running them does, and why they agree. */
module Stubs {
  import opened Proto
  import opened SortedMaps
  import opened Serializers
  import opened Wrappers

  datatype Function = Function(name: string, rettype: string, params: seq<Entry>)

  const VOID := "void"

  predicate Valued(f: Function): (valued: bool)
    ensures valued <==> f.rettype != "void"
  {
    f.rettype != VOID
  }

  // ----------------------------------------------------------------------------------------- names of arguments

  function Digit(n: nat): char
    requires n < 10
  {
    ('0' as int + n) as char
  }

  /** Decimal, without leading zeros. */
  function Itos(n: nat): (s: string)
    ensures s != []
  {
    if n < 10 then [Digit(n)] else Itos(n / 10) + [Digit(n % 10)]
  }

  /** The number that a string of decimal digits stands for. */
  function Decimal(s: string): nat
    requires forall i | 0 <= i < |s| :: '0' <= s[i] <= '9'
  {
    if s == [] then 0 else 10 * Decimal(s[..|s| - 1]) + (s[|s| - 1] as int - '0' as int)
  }

  lemma {:induction false} ItosDecimal(n: nat)
    ensures (forall i | 0 <= i < |Itos(n)| :: '0' <= Itos(n)[i] <= '9') && Decimal(Itos(n)) == n
    ensures Itos(n)[0] == '0' ==> n == 0
    decreases n
  {
    if n >= 10 {
      ItosDecimal(n / 10);
      assert Itos(n)[..|Itos(n)| - 1] == Itos(n / 10);
    }
  }

  lemma {:induction false} ItosInjective(m: nat, n: nat)
    requires Itos(m) == Itos(n)
    ensures m == n
    decreases m
  {
    var s, t := Itos(m), Itos(n);
    assert s[|s| - 1] == t[|t| - 1];
    assert s[|s| - 1] == Digit(m % 10) && t[|t| - 1] == Digit(n % 10);
    assert m % 10 == n % 10;
    if m >= 10 && n >= 10 {
      assert Itos(m / 10) == s[..|s| - 1] && Itos(n / 10) == t[..|t| - 1];
      ItosInjective(m / 10, n / 10);
    }
  }

  function ArgName(i: nat): string {
    "_arg" + Itos(i)
  }

  lemma ArgNamesDiffer(i: nat, j: nat)
    requires i != j
    ensures ArgName(i) != ArgName(j)
  {
    if ArgName(i) == ArgName(j) {
      assert Itos(i) == ArgName(i)[4..] && Itos(j) == ArgName(j)[4..];
      ItosInjective(i, j);
    }
  }

  // ------------------------------------------------------------------------------------------ the client's stub

  /** `Call` names the protocol constant, the function's name in upper case. */
  datatype ClientStmt =
    | DeclOut
    | PutParam(name: string)
    | DeclResult(kind: string)
    | Call(constant: string, valued: bool)
    | ReturnResult

  function Upper(s: string): (u: string)
    ensures |u| == |s|
    ensures forall i | 0 <= i < |s| :: u[i] == if 'a' <= s[i] <= 'z' then s[i] - 'a' + 'A' else s[i]
  {
    if s == [] then []
    else [if 'a' <= s[0] <= 'z' then (s[0] as int - 32) as char else s[0]] + Upper(s[1..])
  }

  function Puts(ps: seq<Entry>): seq<ClientStmt> {
    if ps == [] then [] else [PutParam(ps[0].name)] + Puts(ps[1..])
  }

  function CallStmts(f: Function): seq<ClientStmt> {
    if Valued(f) then [DeclResult(f.rettype), Call(Upper(f.name), true), ReturnResult] else [Call(Upper(f.name), false)]
  }

  function ClientBody(f: Function): seq<ClientStmt> {
    [DeclOut] + Puts(f.params) + CallStmts(f)
  }

  method EmitClient(f: Function) returns (body: seq<ClientStmt>)
    ensures body == ClientBody(f)
  {
    body := [DeclOut];
    assert f.params[0..] == f.params;
    for i := 0 to |f.params|
      invariant body + Puts(f.params[i..]) == [DeclOut] + Puts(f.params)
    {
      assert f.params[i..][1..] == f.params[i + 1..];
      assert body + [PutParam(f.params[i].name)] + Puts(f.params[i + 1..]) == body + Puts(f.params[i..]);
      body := body + [PutParam(f.params[i].name)];
    }
    assert body + [] == body;
    if Valued(f) {
      body := body + [DeclResult(f.rettype)];
    }
    if Valued(f) {
      body := body + [Call(Upper(f.name), true)];
      body := body + [ReturnResult];
    } else {
      body := body + [Call(Upper(f.name), false)];
    }
  }

  /** What a stub hands to the call: the constant, the serialized parameters, and whether a result is wanted. */
  datatype Sent = Sent(constant: string, params: seq<JValue>, valued: bool)

  /** Ranks of parameter types are below this. */
  ghost function TopRank(cs: Classes, es: seq<Entry>): (top: nat)
    ensures Below(cs, es, top)
  {
    if es == [] then 0
    else
      var t := TopRank(cs, es[1..]);
      assert forall i | 0 < i < |es| :: es[i] == es[1..][i - 1];
      if Rank(cs, es[0].kind) < t then t else Rank(cs, es[0].kind) + 1
  }

  /** Arguments of the declared types, one for each parameter name. */
  ghost predicate ArgsOk(cs: Classes, f: Function, env: map<string, Value>)
    requires Acyclic(cs)
  {
    Sorted(f.params) && env.Keys == Contents(f.params).Keys && HasTypes(cs, f.params, env, TopRank(cs, f.params))
  }

  /** The local for the result: its type, and its value once the call has stored one. */
  datatype Slot = Slot(kind: string, value: Option<Value>)

  /** A running stub: the serializer and the result local, once declared, and the calls made so far. */
  datatype StubFrame = StubFrame(out: Option<seq<JValue>>, result: Option<Slot>, sent: seq<Sent>)

  /** `NoResult` and `Unreadable` are the exceptions of a reply without a result, and with one of another type. */
  datatype StubEnd =
    | FellOff
    | ReturnedValue(value: Value)
    | RaisedError(code: int)
    | NoResult
    | Unreadable
    | Aborts
    | Malformed

  datatype StubStep = Goes(frame: StubFrame) | Stops(end: StubEnd, sent: seq<Sent>)

  /** How a stub has run: what it ended with, and the calls it has made. */
  datatype StubRun = StubRun(end: StubEnd, sent: seq<Sent>)

  /** What the call does with a reply that is no error: without a result pointer nothing, else it stores the result. */
  ghost function StoreResult(cs: Classes, st: StubFrame, valued: bool, tree: JValue): StubStep
    requires Acyclic(cs) && tree.JObject? && (valued ==> st.result.Some?)
  {
    if !valued then Goes(st)
    else if RESULT !in tree.fields then Stops(NoResult, st.sent)
    else if !tree.fields[RESULT].JArray? then Stops(Unreadable, st.sent)
    else
      match Read(cs, st.result.value.kind, tree.fields[RESULT].items)
      case None => Stops(Unreadable, st.sent)
      case Some((v, _)) => Goes(st.(result := Some(st.result.value.(value := Some(v)))))
  }

  /** Runs one statement of a stub. Each parameter is written under its declared type; `answer` is what the server replies. */
  ghost function ExecStub(cs: Classes, kinds: map<string, string>, env: map<string, Value>, answer: Sent -> JValue,
                          stmt: ClientStmt, st: StubFrame): StubStep
    requires Acyclic(cs)
  {
    match stmt
    case DeclOut => Goes(st.(out := Some([])))
    case PutParam(name) =>
      if st.out.Some? && name in kinds && name in env && HasType(cs, kinds[name], env[name])
      then Goes(st.(out := Some(st.out.value + Write(cs, kinds[name], env[name]))))
      else Stops(Malformed, st.sent)
    case DeclResult(kind) => Goes(st.(result := Some(Slot(kind, None))))
    case Call(constant, valued) =>
      if st.out.None? || (valued && st.result.None?) then Stops(Malformed, st.sent)
      else
        var sent := Sent(constant, st.out.value, valued);
        (match ParseResponse(answer(sent))
         case Fatal => Stops(Aborts, st.sent + [sent])
         case Throws(code) => Stops(RaisedError(code), st.sent + [sent])
         case Value(tree) => StoreResult(cs, st.(sent := st.sent + [sent]), valued, tree))
    case ReturnResult =>
      if st.result.Some? && st.result.value.value.Some? then Stops(ReturnedValue(st.result.value.value.value), st.sent)
      else Stops(Malformed, st.sent)
  }

  /** Runs a stub to its end. */
  ghost function RunStub(cs: Classes, kinds: map<string, string>, env: map<string, Value>, answer: Sent -> JValue,
                         body: seq<ClientStmt>, st: StubFrame): StubRun
    requires Acyclic(cs)
    decreases |body|
  {
    if body == [] then StubRun(FellOff, st.sent)
    else
      match ExecStub(cs, kinds, env, answer, body[0], st)
      case Goes(st') => RunStub(cs, kinds, env, answer, body[1..], st')
      case Stops(end, sent) => StubRun(end, sent)
  }

  const ENTERED := StubFrame(None, None, [])

  ghost predicate Declares(kinds: map<string, string>, es: seq<Entry>) {
    forall i | 0 <= i < |es| :: es[i].name in kinds && kinds[es[i].name] == es[i].kind
  }

  lemma RunPut(cs: Classes, kinds: map<string, string>, env: map<string, Value>, answer: Sent -> JValue, name: string,
               rest: seq<ClientStmt>, out: seq<JValue>)
    requires Acyclic(cs) && name in kinds && name in env && HasType(cs, kinds[name], env[name])
    ensures RunStub(cs, kinds, env, answer, [PutParam(name)] + rest, StubFrame(Some(out), None, []))
         == RunStub(cs, kinds, env, answer, rest,
                    StubFrame(Some(out + Write(cs, kinds[name], env[name])), None, []))
  {
  }

  lemma {:induction false} RunPuts(cs: Classes, kinds: map<string, string>, env: map<string, Value>,
                                   answer: Sent -> JValue, es: seq<Entry>, rank: nat, rest: seq<ClientStmt>,
                                   out: seq<JValue>)
    requires Acyclic(cs) && Below(cs, es, rank) && HasTypes(cs, es, env, rank) && Declares(kinds, es)
    ensures RunStub(cs, kinds, env, answer, Puts(es) + rest, StubFrame(Some(out), None, []))
         == RunStub(cs, kinds, env, answer, rest, StubFrame(Some(out + WriteAll(cs, es, env, rank)), None, []))
    decreases |es|
  {
    if es == [] {
      assert Puts(es) + rest == rest;
      assert out + [] == out;
    } else {
      var e, more := es[0], Puts(es[1..]) + rest;
      var first := Write(cs, e.kind, env[e.name]);
      assert Puts(es) + rest == [PutParam(e.name)] + more;
      RunPut(cs, kinds, env, answer, e.name, more, out);
      RunPuts(cs, kinds, env, answer, es[1..], rank, rest, out + first);
      assert out + first + WriteAll(cs, es[1..], env, rank) == out + WriteAll(cs, es, env, rank);
    }
  }

  lemma {:induction false} KindOf(es: seq<Entry>, i: nat)
    requires Sorted(es) && i < |es|
    ensures es[i].name in Contents(es) && Contents(es)[es[i].name] == es[i].kind
  {
    SortedHead(es);
    if i > 0 {
      KindOf(es[1..], i - 1);
      assert es[1..][i - 1] == es[i];
    }
  }

  /** What the stub of a function hands to its one call. */
  ghost function SentBy(cs: Classes, f: Function, env: map<string, Value>): Sent
    requires Acyclic(cs) && ArgsOk(cs, f, env)
  {
    Sent(Upper(f.name), WriteAll(cs, f.params, env, TopRank(cs, f.params)), Valued(f))
  }

  ghost function RunOf(cs: Classes, f: Function, env: map<string, Value>, answer: Sent -> JValue): StubRun
    requires Acyclic(cs)
  {
    RunStub(cs, Contents(f.params), env, answer, ClientBody(f), ENTERED)
  }

  /** A stub comes to its call with its parameters written in map order. */
  lemma ToTheCall(cs: Classes, f: Function, env: map<string, Value>, answer: Sent -> JValue)
    requires Acyclic(cs) && ArgsOk(cs, f, env)
    ensures RunOf(cs, f, env, answer)
         == RunStub(cs, Contents(f.params), env, answer, CallStmts(f),
                    StubFrame(Some(SentBy(cs, f, env).params), None, []))
  {
    var rest, w := Puts(f.params) + CallStmts(f), WriteAll(cs, f.params, env, TopRank(cs, f.params));
    assert ClientBody(f)[0] == DeclOut && ClientBody(f)[1..] == rest;
    forall i | 0 <= i < |f.params|
      ensures f.params[i].name in Contents(f.params) && Contents(f.params)[f.params[i].name] == f.params[i].kind
    {
      KindOf(f.params, i);
    }
    RunPuts(cs, Contents(f.params), env, answer, f.params, TopRank(cs, f.params), CallStmts(f), []);
    assert [] + w == w;
  }

  /** A reply that holds a result of this type, and which. */
  ghost predicate HoldsResult(cs: Classes, kind: string, reply: JValue, v: Value)
    requires Acyclic(cs)
  {
    && reply.JObject? && "error" !in reply.fields && "result" in reply.fields && reply.fields["result"].JArray?
    && Read(cs, kind, reply.fields["result"].items).Some? && Read(cs, kind, reply.fields["result"].items).value.0 == v
  }

  predicate IsValue(reply: JValue) {
    reply.JObject? && "error" !in reply.fields
  }

  predicate SaysKnownError(reply: JValue) {
    SaysError(reply, 1) || SaysError(reply, 2) || SaysError(reply, 3) || SaysError(reply, 4) || SaysError(reply, 5)
  }

  /** A reply with a result that is not of this type. */
  ghost predicate HoldsUnreadable(cs: Classes, kind: string, reply: JValue)
    requires Acyclic(cs)
  {
    IsValue(reply) && "result" in reply.fields && forall v :: !HoldsResult(cs, kind, reply, v)
  }

  /** Each end of a stub, if and only if the reply says so. */
  ghost predicate EndsBy(cs: Classes, f: Function, reply: JValue, end: StubEnd)
    requires Acyclic(cs)
  {
    && (forall code :: end == RaisedError(code) <==> SaysError(reply, code) && 1 <= code <= 5)
    && (end == FellOff <==> !Valued(f) && IsValue(reply))
    && (forall v :: end == ReturnedValue(v) <==> Valued(f) && HoldsResult(cs, f.rettype, reply, v))
    && (end == NoResult <==> Valued(f) && IsValue(reply) && "result" !in reply.fields)
    && (end == Unreadable <==> Valued(f) && HoldsUnreadable(cs, f.rettype, reply))
    && (end == Aborts <==> !IsValue(reply) && !SaysKnownError(reply))
  }

  /** The call statement on its own, in a stub that has made no call yet. */
  lemma CallStep(cs: Classes, kinds: map<string, string>, env: map<string, Value>, answer: Sent -> JValue,
                 constant: string, valued: bool, st: StubFrame)
    requires Acyclic(cs) && st.out.Some? && (valued ==> st.result.Some?) && st.sent == []
    ensures var sent := Sent(constant, st.out.value, valued);
            var reply := answer(sent);
            var step := ExecStub(cs, kinds, env, answer, Call(constant, valued), st);
            && (if step.Goes? then step.frame.sent == [sent] else step.sent == [sent])
            && (step.Goes? ==> IsValue(reply))
            && (valued && step.Goes? ==>
                  step.frame.result.Some? && step.frame.result.value.value.Some?
                  && HoldsResult(cs, st.result.value.kind, reply, step.frame.result.value.value.value))
            && (step.Stops? ==>
                  match step.end
                  case RaisedError(code) => SaysError(reply, code) && 1 <= code <= 5
                  case NoResult => valued && IsValue(reply) && "result" !in reply.fields
                  case Unreadable => valued && HoldsUnreadable(cs, st.result.value.kind, reply)
                  case Aborts => !IsValue(reply) && !SaysKnownError(reply)
                  case _ => false)
  {
    var sent := Sent(constant, st.out.value, valued);
    assert [] + [sent] == [sent];
    ParseResponseExactly(answer(sent));
  }

  /** From the call on a stub makes one call, and what it ends with is decided by the reply. */
  lemma CallRuns(cs: Classes, f: Function, env: map<string, Value>, answer: Sent -> JValue, out: seq<JValue>)
    requires Acyclic(cs)
    ensures var sent := Sent(Upper(f.name), out, Valued(f));
            var reply := answer(sent);
            var run := RunStub(cs, Contents(f.params), env, answer, CallStmts(f), StubFrame(Some(out), None, []));
            && run.sent == [sent]
            && EndsBy(cs, f, reply, run.end)
  {
    if Valued(f) {
      ValuedCallRuns(cs, f, env, answer, out);
    } else {
      var st, call := StubFrame(Some(out), None, []), Call(Upper(f.name), false);
      CallStep(cs, Contents(f.params), env, answer, Upper(f.name), false, st);
      assert CallStmts(f) == [call] && [call][1..] == [];
    }
  }

  lemma ValuedCallRuns(cs: Classes, f: Function, env: map<string, Value>, answer: Sent -> JValue, out: seq<JValue>)
    requires Acyclic(cs) && Valued(f)
    ensures var sent := Sent(Upper(f.name), out, true);
            var reply := answer(sent);
            var run := RunStub(cs, Contents(f.params), env, answer, CallStmts(f), StubFrame(Some(out), None, []));
            run.sent == [sent] && EndsBy(cs, f, reply, run.end)
  {
    var kinds, call := Contents(f.params), Call(Upper(f.name), true);
    var st := StubFrame(Some(out), Some(Slot(f.rettype, None)), []);
    CallStep(cs, kinds, env, answer, Upper(f.name), true, st);
    var body := CallStmts(f);
    assert body[0] == DeclResult(f.rettype) && body[1..][0] == call && body[1..][1..] == [ReturnResult];
    var step := ExecStub(cs, kinds, env, answer, call, st);
    assert RunStub(cs, kinds, env, answer, body, StubFrame(Some(out), None, []))
        == RunStub(cs, kinds, env, answer, body[1..], st);
    assert RunStub(cs, kinds, env, answer, body[1..], st)
        == if step.Goes? then RunStub(cs, kinds, env, answer, [ReturnResult], step.frame)
           else StubRun(step.end, step.sent);
  }

  /** Whatever the server answers, a stub makes one call: with its parameters in map order, under its function's
      constant. */
  lemma ClientSends(cs: Classes, f: Function, env: map<string, Value>, answer: Sent -> JValue)
    requires Acyclic(cs) && ArgsOk(cs, f, env)
    ensures RunOf(cs, f, env, answer).sent
         == [Sent(Upper(f.name), WriteAll(cs, f.params, env, TopRank(cs, f.params)), Valued(f))]
  {
    ToTheCall(cs, f, env, answer);
    CallRuns(cs, f, env, answer, SentBy(cs, f, env).params);
  }

  /** Whatever the server answers, a stub raises the error the reply says; with a return type it returns the result the
      reply holds, and only that; without one it comes to its end on any other object. The other ends are told as exactly. */
  lemma StubEnds(cs: Classes, f: Function, env: map<string, Value>, answer: Sent -> JValue)
    requires Acyclic(cs) && ArgsOk(cs, f, env)
    ensures EndsBy(cs, f, answer(SentBy(cs, f, env)), RunOf(cs, f, env, answer).end)
  {
    ToTheCall(cs, f, env, answer);
    CallRuns(cs, f, env, answer, SentBy(cs, f, env).params);
  }

  // ----------------------------------------------------------------------------------------- the server's wrapper

  datatype ServerStmt =
    | DeclIn
    | DeclArg(kind: string, arg: string)
    | GetArg(arg: string)
    | Invoke(method_: string, args: seq<string>)
    | InvokeFor(kind: string, method_: string, args: seq<string>)
    | DeclReply
    | PutResult

  function Gets(ps: seq<Entry>, i: nat): seq<ServerStmt>
    requires i <= |ps|
    decreases |ps| - i
  {
    if i == |ps| then [] else [DeclArg(ps[i].kind, ArgName(i)), GetArg(ArgName(i))] + Gets(ps, i + 1)
  }

  function ArgNames(n: nat): seq<string> {
    if n == 0 then [] else ArgNames(n - 1) + [ArgName(n - 1)]
  }

  function InvokeStmts(f: Function): seq<ServerStmt> {
    if Valued(f) then [InvokeFor(f.rettype, f.name, ArgNames(|f.params|)), DeclReply, PutResult]
    else [Invoke(f.name, ArgNames(|f.params|))]
  }

  function WrapperBody(f: Function): seq<ServerStmt> {
    (if f.params == [] then [] else [DeclIn]) + Gets(f.params, 0) + InvokeStmts(f)
  }

  method EmitWrapper(f: Function) returns (body: seq<ServerStmt>)
    ensures body == WrapperBody(f)
  {
    body := [];
    var args: seq<string> := [];
    if |f.params| != 0 {
      body := body + [DeclIn];
      var count := 0;
      while count < |f.params|
        invariant 0 <= count <= |f.params| && args == ArgNames(count)
        invariant body + Gets(f.params, count) == [DeclIn] + Gets(f.params, 0)
      {
        var name := ArgName(count);
        args := args + [name];
        ghost var later := Gets(f.params, count + 1);
        assert body + [DeclArg(f.params[count].kind, name)] + [GetArg(name)] + later == body + Gets(f.params, count);
        body := body + [DeclArg(f.params[count].kind, name)];
        body := body + [GetArg(name)];
        count := count + 1;
      }
      assert body + [] == body;
    }
    if f.rettype == VOID {
      body := body + [Invoke(f.name, args)];
    } else {
      body := body + [InvokeFor(f.rettype, f.name, args)];
      body := body + [DeclReply];
      body := body + [PutResult];
    }
  }

  datatype Invocation = Invocation(method_: string, args: seq<Value>)

  /** A running wrapper: unread elements, typed locals, methods called so far, result, reply elements. */
  datatype Frame = Frame(input: seq<JValue>, kinds: map<string, string>, locals: map<string, Value>,
                         calls: seq<Invocation>, result: Option<(string, Value)>, out: seq<JValue>)

  /** `SerializeFail` is the exception an unreadable argument raises. */
  datatype Stepped = Next(frame: Frame) | SerializeFail | IllFormed

  type Methods = (string, seq<Value>) -> Value

  function ValuesOf(locals: map<string, Value>, args: seq<string>): seq<Value>
    requires forall i | 0 <= i < |args| :: args[i] in locals
  {
    seq(|args|, i requires 0 <= i < |args| => locals[args[i]])
  }

  ghost function Exec(cs: Classes, methods: Methods, stmt: ServerStmt, st: Frame): Stepped
    requires Acyclic(cs)
  {
    match stmt
    case DeclIn => Next(st)
    case DeclArg(kind, arg) => Next(st.(kinds := st.kinds[arg := kind]))
    case GetArg(arg) =>
      if arg !in st.kinds then IllFormed
      else
        (match Read(cs, st.kinds[arg], st.input)
         case None => SerializeFail
         case Some((v, rest)) => Next(st.(input := rest, locals := st.locals[arg := v])))
    case Invoke(m, args) =>
      if forall i | 0 <= i < |args| :: args[i] in st.locals
      then Next(st.(calls := st.calls + [Invocation(m, ValuesOf(st.locals, args))]))
      else IllFormed
    case InvokeFor(kind, m, args) =>
      if forall i | 0 <= i < |args| :: args[i] in st.locals then
        var values := ValuesOf(st.locals, args);
        Next(st.(calls := st.calls + [Invocation(m, values)], result := Some((kind, methods(m, values)))))
      else IllFormed
    case DeclReply => Next(st)
    case PutResult =>
      if st.result.Some? && HasType(cs, st.result.value.0, st.result.value.1)
      then Next(st.(out := st.out + Write(cs, st.result.value.0, st.result.value.1)))
      else IllFormed
  }

  ghost function RunAll(cs: Classes, methods: Methods, body: seq<ServerStmt>, st: Frame): Stepped
    requires Acyclic(cs)
  {
    if body == [] then Next(st)
    else
      match Exec(cs, methods, body[0], st)
      case Next(st') => RunAll(cs, methods, body[1..], st')
      case fail => fail
  }

  function Fresh(input: seq<JValue>): Frame {
    Frame(input, map[], map[], [], None, [])
  }

  /** The argument statements, as one loop over the parameters. */
  ghost function Load(cs: Classes, ps: seq<Entry>, i: nat, st: Frame): Stepped
    requires Acyclic(cs) && i <= |ps|
    decreases |ps| - i
  {
    if i == |ps| then Next(st)
    else
      match Read(cs, ps[i].kind, st.input)
      case None => SerializeFail
      case Some((v, rest)) =>
        Load(cs, ps, i + 1, st.(input := rest, kinds := st.kinds[ArgName(i) := ps[i].kind],
                                locals := st.locals[ArgName(i) := v]))
  }

  lemma {:induction false} RunGets(cs: Classes, methods: Methods, ps: seq<Entry>, i: nat, tail: seq<ServerStmt>, st: Frame)
    requires Acyclic(cs) && i <= |ps|
    ensures RunAll(cs, methods, Gets(ps, i) + tail, st)
         == match Load(cs, ps, i, st)
            case Next(st') => RunAll(cs, methods, tail, st')
            case fail => fail
    decreases |ps| - i
  {
    var body := Gets(ps, i) + tail;
    if i == |ps| {
      assert body == tail;
    } else {
      assert body[0] == DeclArg(ps[i].kind, ArgName(i)) && body[1..][0] == GetArg(ArgName(i));
      assert body[1..][1..] == Gets(ps, i + 1) + tail;
      var declared := st.(kinds := st.kinds[ArgName(i) := ps[i].kind]);
      assert RunAll(cs, methods, body, st) == RunAll(cs, methods, body[1..], declared);
      var r := Read(cs, ps[i].kind, st.input);
      if r.Some? {
        var next := declared.(input := r.value.1, locals := st.locals[ArgName(i) := r.value.0]);
        RunGets(cs, methods, ps, i + 1, tail, next);
        assert Exec(cs, methods, body[1..][0], declared) == Next(next);
      } else {
        assert Exec(cs, methods, body[1..][0], declared) == SerializeFail;
      }
    }
  }

  /** Each numbered local from i on holds the value of its parameter. */
  ghost predicate HoldsArgs(ps: seq<Entry>, i: nat, locals: map<string, Value>, fields: map<string, Value>) {
    forall j | i <= j < |ps| ::
      ps[j].name in fields && ArgName(j) in locals && locals[ArgName(j)] == fields[ps[j].name]
  }

  ghost predicate KeepsOthers(ps: seq<Entry>, i: nat, before: map<string, Value>, after: map<string, Value>) {
    forall name | name in before && (forall j | i <= j < |ps| :: name != ArgName(j)) ::
      name in after && after[name] == before[name]
  }

  /** Loading succeeds exactly when the array can be read as the parameters, and each numbered local then holds the
      value read for its parameter. */
  lemma {:induction false} LoadReads(cs: Classes, ps: seq<Entry>, i: nat, st: Frame, rank: nat)
    requires Acyclic(cs) && Sorted(ps) && i <= |ps| && Below(cs, ps[i..], rank)
    ensures var loaded, read := Load(cs, ps, i, st), ReadAll(cs, ps[i..], st.input, rank);
            match read
            case None => loaded == SerializeFail
            case Some((fields, _)) =>
              && loaded.Next? && loaded.frame.calls == st.calls && loaded.frame.out == st.out
              && KeepsOthers(ps, i, st.locals, loaded.frame.locals)
              && HoldsArgs(ps, i, loaded.frame.locals, fields)
    decreases |ps| - i
  {
    if i < |ps| {
      var tail := ps[i + 1..];
      assert ps[i..][0] == ps[i] && ps[i..][1..] == tail;
      assert Below(cs, tail, rank) by {
        assert forall j | 0 <= j < |tail| :: tail[j] == ps[i..][j + 1];
      }
      var r := Read(cs, ps[i].kind, st.input);
      if r.Some? {
        var next := st.(input := r.value.1, kinds := st.kinds[ArgName(i) := ps[i].kind],
                        locals := st.locals[ArgName(i) := r.value.0]);
        LoadReads(cs, ps, i + 1, next, rank);
        forall j | i < j < |ps| ensures ArgName(j) != ArgName(i) && ps[j].name != ps[i].name {
          ArgNamesDiffer(i, j);
          LessTrichotomy(ps[i].name, ps[j].name);
        }
      }
    }
  }

  /** Positional arguments for named values, in the order of the generated declaration. */
  function Positional(ps: seq<Entry>, fields: map<string, Value>): seq<Value>
    requires HasFields(ps, fields)
  {
    seq(|ps|, i requires 0 <= i < |ps| => fields[ps[i].name])
  }

  /** The service's method returns values of the declared type. */
  ghost predicate ReturnsTyped(cs: Classes, f: Function, methods: Methods)
    requires Acyclic(cs)
  {
    Valued(f) ==> forall args :: HasType(cs, f.rettype, methods(f.name, args))
  }

  /** The wrapper has called its method once, with each value in its parameter's position, and replied with the
      result, if there is one. */
  ghost predicate Called(cs: Classes, f: Function, methods: Methods, run: Stepped, fields: map<string, Value>)
    requires Acyclic(cs) && ReturnsTyped(cs, f, methods)
  {
    && HasFields(f.params, fields) && run.Next?
    && run.frame.calls == [Invocation(f.name, Positional(f.params, fields))]
    && run.frame.out == if Valued(f) then Write(cs, f.rettype, methods(f.name, Positional(f.params, fields))) else []
  }

  lemma {:induction false} ArgNamesAt(n: nat)
    ensures |ArgNames(n)| == n && forall i | 0 <= i < n :: ArgNames(n)[i] == ArgName(i)
  {
    if n > 0 {
      ArgNamesAt(n - 1);
    }
  }

  /**
   * The generated wrapper, on any array: it raises the serializer's exception, and calls nothing, exactly when the
   * array does not start with values of the parameter types; otherwise it calls the method once, with each
   * parameter's value in its position, and replies with the result.
   */
  lemma WrapperCalls(cs: Classes, f: Function, methods: Methods, input: seq<JValue>)
    requires Acyclic(cs) && Sorted(f.params)
    requires ReturnsTyped(cs, f, methods)
    ensures var run := RunAll(cs, methods, WrapperBody(f), Fresh(input));
            match ReadAll(cs, f.params, input, TopRank(cs, f.params))
            case None => run == SerializeFail
            case Some((fields, _)) => Called(cs, f, methods, run, fields)
  {
    var st, ps, body := Fresh(input), f.params, WrapperBody(f);
    assert ps[0..] == ps;
    RunGets(cs, methods, ps, 0, InvokeStmts(f), st);
    LoadReads(cs, ps, 0, st, TopRank(cs, ps));
    if ps == [] {
      assert body == Gets(ps, 0) + InvokeStmts(f);
    } else {
      assert body[0] == DeclIn && body[1..] == Gets(ps, 0) + InvokeStmts(f);
    }
    var read := ReadAll(cs, ps, input, TopRank(cs, ps));
    if read.Some? {
      InvokeRuns(cs, f, methods, Load(cs, ps, 0, st).frame, read.value.0);
    }
  }

  lemma InvokeRuns(cs: Classes, f: Function, methods: Methods, st: Frame, fields: map<string, Value>)
    requires Acyclic(cs) && st.calls == [] && st.out == []
    requires HasFields(f.params, fields) && HoldsArgs(f.params, 0, st.locals, fields)
    requires ReturnsTyped(cs, f, methods)
    ensures Called(cs, f, methods, RunAll(cs, methods, InvokeStmts(f), st), fields)
  {
    var names := ArgNames(|f.params|);
    ArgNamesAt(|f.params|);
    assert ValuesOf(st.locals, names) == Positional(f.params, fields);
    var body := InvokeStmts(f);
    if Valued(f) {
      var args := Positional(f.params, fields);
      var called := st.(calls := [Invocation(f.name, args)], result := Some((f.rettype, methods(f.name, args))));
      assert Exec(cs, methods, body[0], st) == Next(called);
      assert body[1..] == [DeclReply, PutResult] && body[1..][1..] == [PutResult] && body[1..][1..][1..] == [];
      assert RunAll(cs, methods, body[1..][1..], called)
          == Next(called.(out := [] + Write(cs, f.rettype, methods(f.name, args))));
    } else {
      assert body[1..] == [];
    }
  }
}
