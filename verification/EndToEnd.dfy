/** A generated client calling a generated service: stub, request, dispatch, wrapper, response. */
module EndToEnd {
  import opened Proto
  import opened Scopes
  import opened SortedMaps
  import opened Serializers
  import Services
  import opened Stubs
  import opened Wrappers

  /** The protocol constants: an arbitrary hash of each function's name in upper case. */
  function Ids(fs: seq<Function>, hash: string -> int): seq<int> {
    seq(|fs|, i requires 0 <= i < |fs| => hash(Upper(fs[i].name)))
  }

  ghost predicate SpecOk(cs: Classes, fs: seq<Function>, hash: string -> int, methods: Methods) {
    && Acyclic(cs)
    && forall i | 0 <= i < |fs| ::
         Sorted(fs[i].params) && IsSize(hash(Upper(fs[i].name))) && ReturnsTyped(cs, fs[i], methods)
  }

  datatype Served = Served(calls: seq<Invocation>, reply: JValue)

  /** What either server does with a request: parse, look the handler up, run the wrapper, build the reply. */
  ghost function Serve(cs: Classes, fs: seq<Function>, hash: string -> int, methods: Methods, tree: JValue): Served
    requires SpecOk(cs, fs, hash, methods)
  {
    match ParseRequest(tree)
    case JsonNotParsed => Served([], ErrorTree(JSON_NOT_PARSED))
    case Accepted(r) =>
      match Services.Dispatch(Services.Registered(Ids(fs, hash)), r.handlerid)
      case None => Served([], ErrorTree(METHOD_NOT_FOUND))
      case Some(h) =>
        Services.DispatchLast(Ids(fs, hash), r.handlerid);
        (match RunAll(cs, methods, WrapperBody(fs[h]), Fresh(r.params))
         case Next(frame) => Served(frame.calls, ResponseTree(JArray(frame.out)))
         case SerializeFail => Served([], ErrorTree(PARAM_MISMATCH))
         case IllFormed => Served([], JNull))
  }

  /** The request that carries a call of a stub. */
  function RequestOf(sent: Sent, hash: string -> int, clientno: int, msgId: int, now: int): (tree: JValue)
    ensures tree == JObject(map["clientno" := JInteger(clientno), "serverno" := JInteger(0), "version" := JInteger(1),
                                "timestamp" := JInteger(now), "messageid" := JInteger(msgId),
                                "method" := JInteger(ToLong(hash(sent.constant))), "params" := JArray(sent.params)])
  {
    WireFormat(clientno, 0, msgId, now, hash(sent.constant), sent.params, JNull, 0);
    RequestTree(clientno, 0, msgId, now, hash(sent.constant), sent.params)
  }

  /** What a server replies to the calls of one client: each is wrapped in a request and served. */
  ghost function Server(cs: Classes, fs: seq<Function>, hash: string -> int, methods: Methods,
                        clientno: int, msgId: int, now: int): Sent -> JValue
    requires SpecOk(cs, fs, hash, methods)
  {
    (sent: Sent) =>
      Serve(cs, fs, hash, methods, RequestOf(sent, hash, clientno, msgId, now)).reply
  }

  /**
   * For every specification with distinct protocol constants whose names resolve in all bodies, every function of it and
   * all arguments of the declared types: the generated stub, run to its end against the generated service, makes one call;
   * that call runs the service's method exactly once, with each argument bound to the parameter it was named for; and
   * the stub returns what the method returned, or comes to its end if there is nothing to return.
   */
  lemma StubCallsMethod(space: string, h: Headers, cs: Classes, fs: seq<Function>, hash: string -> int,
                        methods: Methods, i: nat, env: map<string, Value>, clientno: int, msgId: int, now: int)
    requires SpecOk(cs, fs, hash, methods) && Services.Distinct(Ids(fs, hash)) && Compiles(space, h, cs.members.Keys, fs)
    requires i < |fs| && ArgsOk(cs, fs[i], env)
    requires IsInt(clientno) && IsInt(msgId) && IsLong(now)
    ensures HasFields(fs[i].params, env)
    ensures var run := RunOf(cs, fs[i], env, Server(cs, fs, hash, methods, clientno, msgId, now));
            var args := Positional(fs[i].params, env);
            && |run.sent| == 1
            && Serve(cs, fs, hash, methods, RequestOf(run.sent[0], hash, clientno, msgId, now)).calls
               == [Invocation(fs[i].name, args)]
            && run.end == if Valued(fs[i]) then ReturnedValue(methods(fs[i].name, args)) else FellOff
  {
    var f, answer := fs[i], Server(cs, fs, hash, methods, clientno, msgId, now);
    ClientSends(cs, f, env, answer);
    ServedCall(cs, fs, hash, methods, i, env, clientno, msgId, now);
    StubEnds(cs, f, env, answer);
    if Valued(f) {
      assert HoldsResult(cs, f.rettype, answer(SentBy(cs, f, env)), methods(f.name, Positional(f.params, env)));
    }
  }

  /** The service's side of that call. */
  lemma ServedCall(cs: Classes, fs: seq<Function>, hash: string -> int, methods: Methods, i: nat,
                   env: map<string, Value>, clientno: int, msgId: int, now: int)
    requires SpecOk(cs, fs, hash, methods) && Services.Distinct(Ids(fs, hash))
    requires i < |fs| && ArgsOk(cs, fs[i], env)
    requires IsInt(clientno) && IsInt(msgId) && IsLong(now)
    ensures HasFields(fs[i].params, env)
    ensures var f, sent := fs[i], SentBy(cs, fs[i], env);
            var args := Positional(f.params, env);
            var served := Serve(cs, fs, hash, methods, RequestOf(sent, hash, clientno, msgId, now));
            && served.calls == [Invocation(f.name, args)]
            && served.reply.JObject? && "error" !in served.reply.fields
            && (Valued(f) ==> HoldsResult(cs, f.rettype, served.reply, methods(f.name, args)))
  {
    var f, params := fs[i], SentBy(cs, fs[i], env).params;
    var request := RequestTree(clientno, 0, msgId, now, hash(Upper(f.name)), params);
    RequestRoundTrip(clientno, 0, msgId, now, hash(Upper(f.name)), params);
    WrittenArgs(cs, f, methods, env);
    ServeDispatches(cs, fs, hash, methods, i, request);
    var run := RunAll(cs, methods, WrapperBody(f), Fresh(params));
    ReplyConcludes(cs, f, methods, Positional(f.params, env), run.frame.out);
  }

  /** With distinct ids a well-formed request runs the wrapper of its own function. */
  lemma ServeDispatches(cs: Classes, fs: seq<Function>, hash: string -> int, methods: Methods, i: nat, tree: JValue)
    requires SpecOk(cs, fs, hash, methods) && Services.Distinct(Ids(fs, hash)) && i < |fs|
    requires ParseRequest(tree).Accepted? && ParseRequest(tree).request.handlerid == Ids(fs, hash)[i]
    requires RunAll(cs, methods, WrapperBody(fs[i]), Fresh(ParseRequest(tree).request.params)).Next?
    ensures var frame := RunAll(cs, methods, WrapperBody(fs[i]), Fresh(ParseRequest(tree).request.params)).frame;
            Serve(cs, fs, hash, methods, tree) == Served(frame.calls, ResponseTree(JArray(frame.out)))
  {
    var ids := Ids(fs, hash);
    Services.DispatchFaithful(ids);
    assert Services.Dispatch(Services.Registered(ids), ids[i]) == Some(i);
  }

  /** The wrapper reads the stub's array back as the stub's arguments. */
  lemma WrittenArgs(cs: Classes, f: Function, methods: Methods, env: map<string, Value>)
    requires Acyclic(cs) && ArgsOk(cs, f, env) && ReturnsTyped(cs, f, methods)
    ensures Called(cs, f, methods,
                   RunAll(cs, methods, WrapperBody(f), Fresh(WriteAll(cs, f.params, env, TopRank(cs, f.params)))), env)
  {
    var top := TopRank(cs, f.params);
    var params := WriteAll(cs, f.params, env, top);
    WrapperCalls(cs, f, methods, params);
    ReadWriteAll(cs, f.params, env, top, []);
    assert params + [] == params;
    RestrictAll(f.params, env);
  }

  /** The response holds the method's result, whole and nothing else. */
  lemma ReplyConcludes(cs: Classes, f: Function, methods: Methods, args: seq<Value>, out: seq<JValue>)
    requires Acyclic(cs) && ReturnsTyped(cs, f, methods)
    requires Valued(f) ==> out == Write(cs, f.rettype, methods(f.name, args))
    ensures var reply := ResponseTree(JArray(out));
            && reply.JObject? && "error" !in reply.fields
            && (Valued(f) ==>
                  && HoldsResult(cs, f.rettype, reply, methods(f.name, args))
                  && Read(cs, f.rettype, reply.fields["result"].items) == Some((methods(f.name, args), [])))
  {
    ResponseRoundTrip(JArray(out), 0);
    if Valued(f) {
      ReadWrite(cs, f.rettype, methods(f.name, args), []);
      assert out + [] == out;
    }
  }

  lemma RestrictAll(es: seq<Entry>, env: map<string, Value>)
    requires HasFields(es, env) && env.Keys == Contents(es).Keys
    ensures Restrict(es, env) == env
  {
  }

  /** The last function with this id. */
  predicate IsLast(ids: seq<int>, id: int, h: int) {
    0 <= h < |ids| && ids[h] == id && forall j | h < j < |ids| :: ids[j] != id
  }

  /** The request is for function h, by its id. */
  predicate AsksFor(fs: seq<Function>, hash: string -> int, tree: JValue, h: int) {
    LooksLikeRequest(tree) && IsLast(Ids(fs, hash), ToSize(tree.fields["method"].i), h)
  }

  lemma DispatchIsLast(ids: seq<int>, id: int, h: int)
    ensures IsLast(ids, id, h) <==> h >= 0 && Services.Dispatch(Services.Registered(ids), id) == Some(h)
  {
    Services.DispatchLast(ids, id);
  }

  /** The method has been called once, with these arguments, and what it returned is the reply. */
  ghost predicate AnsweredWith(cs: Classes, f: Function, methods: Methods, served: Served, fields: map<string, Value>)
    requires Acyclic(cs) && ReturnsTyped(cs, f, methods)
  {
    && HasFields(f.params, fields)
    && var args := Positional(f.params, fields);
       var result := if Valued(f) then Write(cs, f.rettype, methods(f.name, args)) else [];
       served == Served([Invocation(f.name, args)], JObject(map["result" := JArray(result)]))
  }

  /** A request for a function: one call with the arguments its array holds, answered by the method's result; or, when the
      array does not hold arguments of the declared types, PARAM_MISMATCH and no call. */
  lemma ServeFunction(cs: Classes, fs: seq<Function>, hash: string -> int, methods: Methods, tree: JValue, h: int)
    requires SpecOk(cs, fs, hash, methods) && AsksFor(fs, hash, tree, h)
    ensures match ReadAll(cs, fs[h].params, tree.fields["params"].items, TopRank(cs, fs[h].params))
            case None => Serve(cs, fs, hash, methods, tree) == Served([], ErrorTree(4))
            case Some((fields, _)) => AnsweredWith(cs, fs[h], methods, Serve(cs, fs, hash, methods, tree), fields)
  {
    AcceptsExactly(tree);
    DispatchIsLast(Ids(fs, hash), ToSize(tree.fields["method"].i), h);
    WrapperCalls(cs, fs[h], methods, tree.fields["params"].items);
  }

  /** The array of the request holds arguments of the types of function h. */
  ghost predicate FitsFunction(cs: Classes, fs: seq<Function>, hash: string -> int, tree: JValue, h: int)
    requires Acyclic(cs) && AsksFor(fs, hash, tree, h) && Sorted(fs[h].params)
  {
    ReadAll(cs, fs[h].params, tree.fields["params"].items, TopRank(cs, fs[h].params)).Some?
  }

  lemma NobodyAsked(fs: seq<Function>, hash: string -> int, tree: JValue)
    requires LooksLikeRequest(tree)
    ensures (forall h :: !AsksFor(fs, hash, tree, h)) <==> ToSize(tree.fields["method"].i) !in Ids(fs, hash)
  {
    var ids, id := Ids(fs, hash), ToSize(tree.fields["method"].i);
    Services.DispatchLast(ids, id);
    var h := Services.Dispatch(Services.Registered(ids), id);
    if h.Some? {
      assert IsLast(ids, id, h.value);
      assert AsksFor(fs, hash, tree, h.value);
    }
  }

  /** Which error answers a request, and when. */
  lemma ServeErrors(cs: Classes, fs: seq<Function>, hash: string -> int, methods: Methods, tree: JValue)
    requires SpecOk(cs, fs, hash, methods)
    ensures var served := Serve(cs, fs, hash, methods, tree);
            && (served.reply == ErrorTree(3) <==> !LooksLikeRequest(tree))
            && (served.reply == ErrorTree(2) <==>
                  LooksLikeRequest(tree) && ToSize(tree.fields["method"].i) !in Ids(fs, hash))
            && (served.reply == ErrorTree(4) <==>
                  exists h :: AsksFor(fs, hash, tree, h) && !FitsFunction(cs, fs, hash, tree, h))
  {
    AcceptsExactly(tree);
    WireFormat(0, 0, 0, 0, 0, [], JNull, 2);
    WireFormat(0, 0, 0, 0, 0, [], JNull, 3);
    WireFormat(0, 0, 0, 0, 0, [], JNull, 4);
    ErrorsDiffer();
    if LooksLikeRequest(tree) {
      NobodyAsked(fs, hash, tree);
      if h :| AsksFor(fs, hash, tree, h) {
        ServeFunction(cs, fs, hash, methods, tree, h);
        forall g | AsksFor(fs, hash, tree, g) ensures g == h {
          DispatchIsLast(Ids(fs, hash), ToSize(tree.fields["method"].i), g);
          DispatchIsLast(Ids(fs, hash), ToSize(tree.fields["method"].i), h);
        }
      } else {
        Services.DispatchLast(Ids(fs, hash), ToSize(tree.fields["method"].i));
      }
    }
  }

  /** Error trees with different codes differ, and none is a result. */
  lemma ErrorsDiffer()
    ensures ErrorTree(2) != ErrorTree(3) && ErrorTree(3) != ErrorTree(4) && ErrorTree(2) != ErrorTree(4)
    ensures forall code, content :: ErrorTree(code) != JObject(map["result" := content])
  {
    assert forall code :: ErrorTree(code).fields[ERROR] == JInteger(code);
    assert |"result"| == 6 && |"error"| == 5;
    forall code, content ensures ErrorTree(code) != JObject(map["result" := content]) {
      assert ERROR in ErrorTree(code).fields && ERROR !in JObject(map["result" := content]).fields;
    }
  }

  /** A request answered by an error has called nothing, whatever it holds; and the error is never SOCKET_CLOSED. */
  lemma RefusedMeansNotCalled(cs: Classes, fs: seq<Function>, hash: string -> int, methods: Methods, tree: JValue)
    requires SpecOk(cs, fs, hash, methods)
    ensures var served := Serve(cs, fs, hash, methods, tree);
            match ParseResponse(served.reply)
            case Throws(code) => served.calls == [] && METHOD_NOT_FOUND <= code <= PARAM_MISMATCH
            case Value(_) => |served.calls| == 1
            case Fatal => false
  {
    DistinctKeys();
    var parsed := ParseRequest(tree);
    if parsed.Accepted? {
      var r, ids := parsed.request, Ids(fs, hash);
      Services.DispatchLast(ids, r.handlerid);
      var h := Services.Dispatch(Services.Registered(ids), r.handlerid);
      if h.Some? {
        WrapperCalls(cs, fs[h.value], methods, r.params);
      }
    }
  }
}
