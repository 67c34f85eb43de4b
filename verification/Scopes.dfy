/** Which names the generated bodies declare and use, and when each use finds what the generator meant. */
module Scopes {
  import opened SortedMaps
  import opened Stubs

  /** Where a name is found: in the innermost place that declares it. */
  datatype Place = Local | Member | Inherited | Outside

  /** A name before `::` is looked up among types and namespaces alone, so neither a local nor a member hides it. */
  datatype Event =
    | Declares(name: string)
    | Uses(name: string, meant: Place)
    | NamesType(name: string)
    | Qualifies(name: string)

  /** The members of the class a body belongs to, its own and its base's, and the names that denote exactly one type
      outside it. */
  datatype ClassScope = ClassScope(own: set<string>, base: set<string>, types: set<string>)

  function Lookup(sc: ClassScope, locals: set<string>, name: string): Place {
    if name in locals then Local
    else if name in sc.own then Member
    else if name in sc.base then Inherited
    else Outside
  }

  /** No name is declared twice, and every use finds what was meant. */
  predicate WellFormed(sc: ClassScope, locals: set<string>, events: seq<Event>)
    decreases |events|
  {
    if events == [] then true
    else
      match events[0]
      case Declares(name) => name !in locals && WellFormed(sc, locals + {name}, events[1..])
      case Uses(name, meant) => Lookup(sc, locals, name) == meant && WellFormed(sc, locals, events[1..])
      case NamesType(name) =>
        Lookup(sc, locals, name).Outside? && name in sc.types && WellFormed(sc, locals, events[1..])
      case Qualifies(_) => WellFormed(sc, locals, events[1..])
  }

  /** The locals after some events. */
  function After(locals: set<string>, events: seq<Event>): set<string>
    decreases |events|
  {
    if events == [] then locals
    else After(if events[0].Declares? then locals + {events[0].name} else locals, events[1..])
  }

  lemma {:induction false} WellFormedAppend(sc: ClassScope, locals: set<string>, a: seq<Event>, b: seq<Event>)
    ensures WellFormed(sc, locals, a + b) <==> WellFormed(sc, locals, a) && WellFormed(sc, After(locals, a), b)
    ensures After(locals, a + b) == After(After(locals, a), b)
    decreases |a|
  {
    if a == [] {
      assert a + b == b;
    } else {
      assert (a + b)[0] == a[0] && (a + b)[1..] == a[1..] + b;
      WellFormedAppend(sc, if a[0].Declares? then locals + {a[0].name} else locals, a[1..], b);
    }
  }

  /** Not a member, so found outside the class unless a local hides it, and there a type. */
  predicate IsType(sc: ClassScope, name: string) {
    name !in sc.own && name !in sc.base && name in sc.types
  }

  function LocalUses(names: seq<string>): seq<Event> {
    if names == [] then [] else [Uses(names[0], Local)] + LocalUses(names[1..])
  }

  lemma {:induction false} LocalUsesWellFormed(sc: ClassScope, locals: set<string>, names: seq<string>)
    requires forall i | 0 <= i < |names| :: names[i] in locals
    ensures WellFormed(sc, locals, LocalUses(names)) && After(locals, LocalUses(names)) == locals
    decreases |names|
  {
    if names != [] {
      assert forall i | 0 <= i < |names[1..]| :: names[1..][i] == names[i + 1];
      LocalUsesWellFormed(sc, locals, names[1..]);
    }
  }

  // ------------------------------------------------------------------------------------------ the client's stub

  const CLIENT_BASE := {"_client", "_msg_id", "_clientno", "call", "_parse_response"}

  function ProtocolName(space: string): string {
    space + "Protocol"
  }

  function ParamEvents(ps: seq<Entry>): seq<Event> {
    if ps == [] then [] else [NamesType(ps[0].kind), Declares(ps[0].name)] + ParamEvents(ps[1..])
  }

  function StubStmtEvents(stmt: ClientStmt, protocol: string): seq<Event> {
    match stmt
    case DeclOut => [NamesType("OutSerializer"), Declares("sout")]
    case PutParam(name) => LocalUses(["sout", name])
    case DeclResult(kind) => [NamesType(kind), Declares("__r")]
    case Call(_, valued) =>
      [Uses("call", Inherited), Qualifies(protocol)] + LocalUses(if valued then ["sout", "__r"] else ["sout"])
    case ReturnResult => LocalUses(["__r"])
  }

  function StubBodyEvents(body: seq<ClientStmt>, protocol: string): seq<Event> {
    if body == [] then [] else StubStmtEvents(body[0], protocol) + StubBodyEvents(body[1..], protocol)
  }

  /** The names in the definition of a stub, in the order they are written. */
  function StubEvents(f: Function, protocol: string): seq<Event> {
    ParamEvents(f.params) + StubBodyEvents(ClientBody(f), protocol)
  }

  /** No parameter type is a member, or the name of a parameter written before it. */
  predicate KindsVisible(sc: ClassScope, ps: seq<Entry>) {
    forall i | 0 <= i < |ps| :: IsType(sc, ps[i].kind) && forall j | 0 <= j < i :: ps[j].name != ps[i].kind
  }

  /** What a caller of the generator can check of the names in a function. */
  predicate StubNamesOk(sc: ClassScope, f: Function) {
    var names := Contents(f.params).Keys;
    && KindsVisible(sc, f.params)
    && "sout" !in names && "call" !in names && "OutSerializer" !in names
    && "call" !in sc.own && IsType(sc, "OutSerializer")
    && (Valued(f) ==> "__r" !in names && f.rettype !in names && f.rettype != "sout" && IsType(sc, f.rettype))
  }

  lemma {:induction false} ParamsWellFormed(sc: ClassScope, locals: set<string>, ps: seq<Entry>)
    requires Sorted(ps) && forall i | 0 <= i < |ps| :: ps[i].name !in locals
    ensures WellFormed(sc, locals, ParamEvents(ps)) <==>
            KindsVisible(sc, ps) && forall i | 0 <= i < |ps| :: ps[i].kind !in locals
    ensures After(locals, ParamEvents(ps)) == locals + Contents(ps).Keys
    decreases |ps|
  {
    if ps != [] {
      var events, more := ParamEvents(ps), locals + {ps[0].name};
      forall i | 0 < i < |ps| ensures ps[i].name != ps[0].name && ps[i] == ps[1..][i - 1] {
        LessTrichotomy(ps[0].name, ps[i].name);
      }
      assert events[1..][0] == Declares(ps[0].name) && events[1..][1..] == ParamEvents(ps[1..]);
      ParamsWellFormed(sc, more, ps[1..]);
      assert Contents(ps).Keys == {ps[0].name} + Contents(ps[1..]).Keys;
      KindsOfHead(sc, ps, locals);
    }
  }

  lemma KindsOfHead(sc: ClassScope, ps: seq<Entry>, locals: set<string>)
    requires ps != []
    ensures KindsVisible(sc, ps) && (forall i | 0 <= i < |ps| :: ps[i].kind !in locals) <==>
            && IsType(sc, ps[0].kind) && ps[0].kind !in locals
            && KindsVisible(sc, ps[1..]) && forall i | 0 <= i < |ps[1..]| :: ps[1..][i].kind !in locals + {ps[0].name}
  {
    var tail := ps[1..];
    assert forall i | 0 < i < |ps| :: ps[i] == tail[i - 1];
    assert forall i | 0 <= i < |tail| :: tail[i] == ps[i + 1];
  }

  lemma {:induction false} PutsWellFormed(sc: ClassScope, locals: set<string>, ps: seq<Entry>, tail: seq<ClientStmt>,
                                          protocol: string)
    requires "sout" in locals && forall i | 0 <= i < |ps| :: ps[i].name in locals
    ensures WellFormed(sc, locals, StubBodyEvents(Puts(ps) + tail, protocol))
         == WellFormed(sc, locals, StubBodyEvents(tail, protocol))
    decreases |ps|
  {
    if ps == [] {
      assert Puts(ps) + tail == tail;
    } else {
      var body := Puts(ps) + tail;
      assert body[0] == PutParam(ps[0].name) && body[1..] == Puts(ps[1..]) + tail;
      assert forall i | 0 <= i < |ps[1..]| :: ps[1..][i] == ps[i + 1];
      LocalUsesWellFormed(sc, locals, ["sout", ps[0].name]);
      WellFormedAppend(sc, locals, LocalUses(["sout", ps[0].name]), StubBodyEvents(body[1..], protocol));
      PutsWellFormed(sc, locals, ps[1..], tail, protocol);
    }
  }

  /** The last statements of a stub, among its parameters and `sout`. */
  lemma CallWellFormed(sc: ClassScope, locals: set<string>, f: Function, protocol: string)
    requires "sout" in locals && sc.base == CLIENT_BASE
    ensures WellFormed(sc, locals, StubBodyEvents(CallStmts(f), protocol)) <==>
            && "call" !in locals && "call" !in sc.own
            && (Valued(f) ==> "__r" !in locals && f.rettype !in locals && IsType(sc, f.rettype))
  {
    if Valued(f) {
      var call := Call(Upper(f.name), true);
      var more := locals + {"__r"};
      assert CallStmts(f)[1..] == [call, ReturnResult] && [call, ReturnResult][1..] == [ReturnResult];
      assert StubBodyEvents(CallStmts(f), protocol)
          == StubStmtEvents(DeclResult(f.rettype), protocol) + StubBodyEvents([call, ReturnResult], protocol);
      WellFormedAppend(sc, locals, StubStmtEvents(DeclResult(f.rettype), protocol),
                       StubBodyEvents([call, ReturnResult], protocol));
      DeclareWellFormed(sc, locals, f.rettype, "__r");
      CallOnly(sc, more, ["sout", "__r"], protocol, StubBodyEvents([ReturnResult], protocol));
      assert StubBodyEvents([ReturnResult], protocol) == LocalUses(["__r"]) + [] == LocalUses(["__r"]);
      LocalUsesWellFormed(sc, more, ["__r"]);
    } else {
      CallOnly(sc, locals, ["sout"], protocol, []);
    }
  }

  lemma DeclareWellFormed(sc: ClassScope, locals: set<string>, kind: string, name: string)
    ensures var events := [NamesType(kind), Declares(name)];
            && (WellFormed(sc, locals, events) <==> kind !in locals && IsType(sc, kind) && name !in locals)
            && After(locals, events) == locals + {name}
  {
    var last := [Declares(name)];
    assert last[1..] == [] && [NamesType(kind), Declares(name)][1..] == last;
    assert WellFormed(sc, locals, last) <==> name !in locals;
    assert After(locals, last) == locals + {name};
  }

  lemma CallOnly(sc: ClassScope, locals: set<string>, args: seq<string>, protocol: string, rest: seq<Event>)
    requires sc.base == CLIENT_BASE && forall i | 0 <= i < |args| :: args[i] in locals
    ensures WellFormed(sc, locals, [Uses("call", Inherited), Qualifies(protocol)] + LocalUses(args) + rest) <==>
            && "call" !in locals && "call" !in sc.own
            && WellFormed(sc, locals, rest)
  {
    var events := [Uses("call", Inherited), Qualifies(protocol)];
    var last := [Qualifies(protocol)];
    assert last[1..] == [] && events[1..] == last && WellFormed(sc, locals, last);
    assert WellFormed(sc, locals, events) <==> "call" !in locals && "call" !in sc.own;
    WellFormedAppend(sc, locals, events + LocalUses(args), rest);
    WellFormedAppend(sc, locals, events, LocalUses(args));
    LocalUsesWellFormed(sc, locals, args);
  }

  /** In a stub every name means what the generator meant by it, exactly when no parameter is called `sout`, `call`,
      `OutSerializer` or, with a return value, `__r` or like the return type; no parameter type is the name of an earlier
      parameter; every type denotes one outside the class; and no member of the class hides one of these. */
  lemma StubCompiles(own: set<string>, types: set<string>, f: Function, space: string)
    requires Sorted(f.params)
    ensures var sc, protocol := ClassScope(own, CLIENT_BASE, types), ProtocolName(space);
            WellFormed(sc, {}, StubEvents(f, protocol)) <==> StubNamesOk(sc, f)
  {
    var sc, protocol := ClassScope(own, CLIENT_BASE, types), ProtocolName(space);
    var names := Contents(f.params).Keys;
    var body := StubBodyEvents(ClientBody(f), protocol);
    var rest := Puts(f.params) + CallStmts(f);
    WellFormedAppend(sc, {}, ParamEvents(f.params), body);
    ParamsWellFormed(sc, {}, f.params);
    assert ClientBody(f)[0] == DeclOut && ClientBody(f)[1..] == rest;
    WellFormedAppend(sc, names, StubStmtEvents(DeclOut, protocol), StubBodyEvents(rest, protocol));
    DeclareWellFormed(sc, names, "OutSerializer", "sout");
    forall i | 0 <= i < |f.params| ensures f.params[i].name in names {
      KindOf(f.params, i);
    }
    PutsWellFormed(sc, names + {"sout"}, f.params, CallStmts(f), protocol);
    assert {} + names == names;
    assert "call"[0] != "sout"[0] && |"__r"| == 3 && |"sout"| == 4;
    CallWellFormed(sc, names + {"sout"}, f, protocol);
  }

  // ----------------------------------------------------------------------------------------- the server's wrapper

  const SERVICE_BASE :=
    {"listen", "stop", "register_service", "reg", "on_request", "_s", "_handlers"}

  function WrapperStmtEvents(stmt: ServerStmt): seq<Event> {
    match stmt
    case DeclIn => [NamesType("InSerializer"), Declares("sin")] + LocalUses(["req"])
    case DeclArg(kind, arg) => [NamesType(kind), Declares(arg)]
    case GetArg(arg) => LocalUses(["sin", arg])
    case Invoke(m, args) => [Uses(m, Member)] + LocalUses(args)
    case InvokeFor(kind, m, args) => [NamesType(kind), Declares("__r")] + ([Uses(m, Member)] + LocalUses(args))
    case DeclReply => [NamesType("OutSerializer"), Declares("sout")] + LocalUses(["req"])
    case PutResult => LocalUses(["sout", "__r"])
  }

  function WrapperBodyEvents(body: seq<ServerStmt>): seq<Event> {
    if body == [] then [] else WrapperStmtEvents(body[0]) + WrapperBodyEvents(body[1..])
  }

  /** The names in the definition of a wrapper, in the order they are written. */
  function WrapperEvents(f: Function): seq<Event> {
    [NamesType("Request"), Declares("req")] + WrapperBodyEvents(WrapperBody(f))
  }

  function ArgSet(i: nat, n: nat): set<string> {
    set k | i <= k < n :: ArgName(k)
  }

  /** The locals of a wrapper when it comes to call its method. */
  function WrapperLocals(n: nat): set<string> {
    {"req"} + (if n == 0 then {} else {"sin"} + ArgSet(0, n))
  }

  predicate ArgKindsVisible(sc: ClassScope, locals: set<string>, ps: seq<Entry>, i: nat) {
    forall j | i <= j < |ps| ::
      IsType(sc, ps[j].kind) && ps[j].kind !in locals && forall k | i <= k < j :: ps[j].kind != ArgName(k)
  }

  /** What a caller of the generator can check of the names in a function. */
  predicate WrapperNamesOk(sc: ClassScope, f: Function) {
    var n := |f.params|;
    && IsType(sc, "Request")
    && (n > 0 ==> IsType(sc, "InSerializer") && ArgKindsVisible(sc, {"req", "sin"}, f.params, 0))
    && f.name in sc.own && f.name !in WrapperLocals(n)
    && (Valued(f) ==> f.name != "__r" && f.rettype !in WrapperLocals(n) && IsType(sc, f.rettype)
                      && IsType(sc, "OutSerializer"))
  }

  lemma ArgSetStep(i: nat, n: nat)
    requires i < n
    ensures ArgSet(i, n) == {ArgName(i)} + ArgSet(i + 1, n)
  {
    assert ArgName(i) in ArgSet(i, n);
  }

  lemma KindsOfNext(sc: ClassScope, locals: set<string>, ps: seq<Entry>, i: nat)
    requires i < |ps|
    ensures ArgKindsVisible(sc, locals, ps, i) <==>
            && IsType(sc, ps[i].kind) && ps[i].kind !in locals
            && ArgKindsVisible(sc, locals + {ArgName(i)}, ps, i + 1)
  {
  }

  /** One argument: its declaration and its read. */
  lemma GetWellFormed(sc: ClassScope, locals: set<string>, kind: string, arg: string, rest: seq<Event>)
    requires "sin" in locals
    ensures WellFormed(sc, locals, [NamesType(kind), Declares(arg)] + (LocalUses(["sin", arg]) + rest)) <==>
            kind !in locals && IsType(sc, kind) && arg !in locals && WellFormed(sc, locals + {arg}, rest)
  {
    DeclareWellFormed(sc, locals, kind, arg);
    WellFormedAppend(sc, locals, [NamesType(kind), Declares(arg)], LocalUses(["sin", arg]) + rest);
    WellFormedAppend(sc, locals + {arg}, LocalUses(["sin", arg]), rest);
    LocalUsesWellFormed(sc, locals + {arg}, ["sin", arg]);
  }

  lemma GetsEvents(ps: seq<Entry>, i: nat, tail: seq<ServerStmt>)
    requires i < |ps|
    ensures WrapperBodyEvents(Gets(ps, i) + tail)
         == [NamesType(ps[i].kind), Declares(ArgName(i))]
            + (LocalUses(["sin", ArgName(i)]) + WrapperBodyEvents(Gets(ps, i + 1) + tail))
  {
    var body := Gets(ps, i) + tail;
    assert body[0] == DeclArg(ps[i].kind, ArgName(i)) && body[1..][0] == GetArg(ArgName(i));
    assert body[1..][1..] == Gets(ps, i + 1) + tail;
  }

  lemma {:induction false} GetsWellFormed(sc: ClassScope, locals: set<string>, ps: seq<Entry>, i: nat,
                                          tail: seq<ServerStmt>)
    requires i <= |ps| && "sin" in locals && forall k | i <= k < |ps| :: ArgName(k) !in locals
    ensures WellFormed(sc, locals, WrapperBodyEvents(Gets(ps, i) + tail)) <==>
            ArgKindsVisible(sc, locals, ps, i) && WellFormed(sc, locals + ArgSet(i, |ps|), WrapperBodyEvents(tail))
    decreases |ps| - i
  {
    if i == |ps| {
      assert Gets(ps, i) + tail == tail && locals + ArgSet(i, i) == locals;
    } else {
      var arg, more := ArgName(i), locals + {ArgName(i)};
      GetsEvents(ps, i, tail);
      GetWellFormed(sc, locals, ps[i].kind, arg, WrapperBodyEvents(Gets(ps, i + 1) + tail));
      forall k | i < k < |ps| ensures ArgName(k) !in more {
        ArgNamesDiffer(i, k);
      }
      GetsWellFormed(sc, more, ps, i + 1, tail);
      KindsOfNext(sc, locals, ps, i);
      ArgSetStep(i, |ps|);
      assert more + ArgSet(i + 1, |ps|) == locals + ArgSet(i, |ps|);
    }
  }

  lemma CallMember(sc: ClassScope, locals: set<string>, m: string, args: seq<string>, rest: seq<Event>)
    requires forall i | 0 <= i < |args| :: args[i] in locals
    ensures WellFormed(sc, locals, [Uses(m, Member)] + LocalUses(args) + rest) <==>
            m !in locals && m in sc.own && WellFormed(sc, locals, rest)
  {
    var events := [Uses(m, Member)];
    assert events[1..] == [];
    assert WellFormed(sc, locals, events) <==> m !in locals && m in sc.own;
    WellFormedAppend(sc, locals, events + LocalUses(args), rest);
    WellFormedAppend(sc, locals, events, LocalUses(args));
    LocalUsesWellFormed(sc, locals, args);
  }

  lemma ReplyWellFormed(sc: ClassScope, locals: set<string>)
    requires "req" in locals && "__r" in locals && "sout" !in locals && "OutSerializer" !in locals
    ensures WellFormed(sc, locals, WrapperBodyEvents([DeclReply, PutResult])) <==> IsType(sc, "OutSerializer")
  {
    var more := locals + {"sout"};
    assert [DeclReply, PutResult][1..] == [PutResult] && [PutResult][1..] == [];
    var declare, last := [NamesType("OutSerializer"), Declares("sout")], WrapperBodyEvents([PutResult]);
    assert last == LocalUses(["sout", "__r"]) + [] == LocalUses(["sout", "__r"]);
    assert WrapperBodyEvents([DeclReply, PutResult]) == declare + (LocalUses(["req"]) + last);
    DeclareWellFormed(sc, locals, "OutSerializer", "sout");
    WellFormedAppend(sc, locals, declare, LocalUses(["req"]) + last);
    WellFormedAppend(sc, more, LocalUses(["req"]), last);
    LocalUsesWellFormed(sc, more, ["req"]);
    LocalUsesWellFormed(sc, more, ["sout", "__r"]);
  }

  lemma InvokeWellFormed(sc: ClassScope, locals: set<string>, f: Function)
    requires "req" in locals && "__r" !in locals && "sout" !in locals && "OutSerializer" !in locals
    requires forall i | 0 <= i < |f.params| :: ArgName(i) in locals
    ensures WellFormed(sc, locals, WrapperBodyEvents(InvokeStmts(f))) <==>
            && f.name !in locals && f.name in sc.own
            && (Valued(f) ==> f.name != "__r" && f.rettype !in locals && IsType(sc, f.rettype)
                              && IsType(sc, "OutSerializer"))
  {
    var args := ArgNames(|f.params|);
    ArgNamesAt(|f.params|);
    var call := [Uses(f.name, Member)] + LocalUses(args);
    if Valued(f) {
      var more, declare := locals + {"__r"}, [NamesType(f.rettype), Declares("__r")];
      var reply := WrapperBodyEvents([DeclReply, PutResult]);
      assert InvokeStmts(f)[1..] == [DeclReply, PutResult];
      assert WrapperBodyEvents(InvokeStmts(f)) == declare + (call + reply);
      WellFormedAppend(sc, locals, declare, call + reply);
      DeclareWellFormed(sc, locals, f.rettype, "__r");
      CallMember(sc, more, f.name, args, reply);
      assert |"sout"| == 4 && |"__r"| == 3 && |"OutSerializer"| == 13;
      ReplyWellFormed(sc, more);
    } else {
      assert InvokeStmts(f)[1..] == [];
      assert WrapperBodyEvents(InvokeStmts(f)) == call + [];
      CallMember(sc, locals, f.name, args, []);
    }
  }

  /** None of the names a wrapper uses is one of its numbered locals. */
  lemma ArgNamesApart(i: nat)
    ensures ArgName(i) != "req" && ArgName(i) != "sin" && ArgName(i) != "__r" && ArgName(i) != "sout"
         && ArgName(i) != "OutSerializer"
  {
    assert ArgName(i)[0] == '_' && ArgName(i)[1] == 'a' && "sout"[0] == 's' && "__r"[1] == '_';
    assert "req"[0] == 'r' && "sin"[0] == 's' && "OutSerializer"[0] == 'O';
  }

  lemma LocalsApart(n: nat)
    ensures "__r" !in WrapperLocals(n) && "sout" !in WrapperLocals(n) && "OutSerializer" !in WrapperLocals(n)
    ensures n > 0 ==> {"req"} + {"sin"} + ArgSet(0, n) == WrapperLocals(n)
    ensures forall k | 0 <= k < n :: ArgName(k) in WrapperLocals(n) && ArgName(k) !in {"req", "sin"}
  {
    forall k: nat ensures ArgName(k) !in {"__r", "sout", "OutSerializer", "req", "sin"} {
      ArgNamesApart(k);
    }
    assert |"req"| == |"sin"| == |"__r"| == 3 && |"sout"| == 4 && |"OutSerializer"| == 13;
    assert "req"[0] == 'r' && "sin"[0] == 's' && "__r"[0] == '_';
  }

  lemma ArgsWellFormed(sc: ClassScope, f: Function, tail: seq<ServerStmt>)
    requires f.params != []
    ensures WellFormed(sc, {"req"}, WrapperBodyEvents([DeclIn] + Gets(f.params, 0) + tail)) <==>
            && IsType(sc, "InSerializer") && ArgKindsVisible(sc, {"req", "sin"}, f.params, 0)
            && WellFormed(sc, WrapperLocals(|f.params|), WrapperBodyEvents(tail))
  {
    var body, two := [DeclIn] + Gets(f.params, 0) + tail, {"req"} + {"sin"};
    assert body[0] == DeclIn && body[1..] == Gets(f.params, 0) + tail;
    var declare, rest := [NamesType("InSerializer"), Declares("sin")], WrapperBodyEvents(body[1..]);
    assert WrapperBodyEvents(body) == declare + (LocalUses(["req"]) + rest);
    WellFormedAppend(sc, {"req"}, declare, LocalUses(["req"]) + rest);
    assert |"InSerializer"| == 12 && |"req"| == 3 && "req"[0] != "sin"[0];
    DeclareWellFormed(sc, {"req"}, "InSerializer", "sin");
    WellFormedAppend(sc, two, LocalUses(["req"]), rest);
    LocalUsesWellFormed(sc, two, ["req"]);
    LocalsApart(|f.params|);
    assert two == {"req", "sin"};
    GetsWellFormed(sc, two, f.params, 0, tail);
  }

  /** In a wrapper every name means what the generator meant by it, exactly when its method is not called like one of its
      locals, no parameter type and no return type is the name of a local declared before it, every type it uses denotes
      one outside the class, and no member of the class hides it. The names of the parameters do not matter. */
  lemma WrapperCompiles(own: set<string>, types: set<string>, f: Function)
    ensures var sc := ClassScope(own, SERVICE_BASE, types);
            WellFormed(sc, {}, WrapperEvents(f)) <==> WrapperNamesOk(sc, f)
  {
    var sc, n := ClassScope(own, SERVICE_BASE, types), |f.params|;
    var declare, body := [NamesType("Request"), Declares("req")], WrapperBodyEvents(WrapperBody(f));
    WellFormedAppend(sc, {}, declare, body);
    DeclareWellFormed(sc, {}, "Request", "req");
    assert {} + {"req"} == {"req"};
    LocalsApart(n);
    InvokeWellFormed(sc, WrapperLocals(n), f);
    if n == 0 {
      assert WrapperBody(f) == [] + [] + InvokeStmts(f) == InvokeStmts(f);
      assert WrapperLocals(0) == {"req"};
    } else {
      ArgsWellFormed(sc, f, InvokeStmts(f));
    }
  }

  // -------------------------------------------------------------------------------------------- a whole specification

  /** What is declared outside any class besides the classes of the specification: names that are no types, types, among
      them the keywords of types and the generated protocol class, and types visible through a using-directive. */
  datatype Headers = Headers(values: set<string>, types: set<string>, imported: set<string>)

  /** The constants of the protocol header, which hide a class of the same name. */
  const PROTO_VALUES :=
    {"ClientNo", "ServerNo", "MessageId", "Version", "Timestamp", "Method", "Param", "Result", "Error",
     "READ_FAIL", "WRITE_FAIL", "BIND_FAIL", "ACCEPT_FAIL", "SOCKET_FAIL"}

  /** The names that denote exactly one type outside the generated service and client: declared once, as a class of the
      specification, by a header, or in a namespace in use, and as nothing else. */
  function TypesOutside(h: Headers, classes: set<string>): set<string> {
    (classes + h.types + h.imported) - PROTO_VALUES - h.values
    - classes * h.types - classes * h.imported - h.types * h.imported
  }

  /** A name denotes a type there if and only if it is declared in exactly one of the three ways and never as a value. */
  lemma OneMeaning(h: Headers, classes: set<string>, name: string)
    ensures name in TypesOutside(h, classes) <==>
              && name !in PROTO_VALUES && name !in h.values
              && (if name in classes then name !in h.types && name !in h.imported
                  else (name in h.types) != (name in h.imported))
  {
  }

  function Names(fs: seq<Function>): set<string> {
    set i | 0 <= i < |fs| :: fs[i].name
  }

  function WrapperName(name: string): string {
    "_" + name + "_wrapper"
  }

  function ClientScopeOf(h: Headers, classes: set<string>, fs: seq<Function>): ClassScope {
    ClassScope(Names(fs), CLIENT_BASE, TypesOutside(h, classes))
  }

  function ServiceScopeOf(h: Headers, classes: set<string>, fs: seq<Function>): ClassScope {
    ClassScope(Names(fs) + (set i | 0 <= i < |fs| :: WrapperName(fs[i].name)) + {"_reg_wrappers"}, SERVICE_BASE,
               TypesOutside(h, classes))
  }

  predicate BodiesCompile(space: string, h: Headers, classes: set<string>, fs: seq<Function>, i: int)
    requires 0 <= i < |fs|
  {
    && WellFormed(ClientScopeOf(h, classes, fs), {}, StubEvents(fs[i], ProtocolName(space)))
    && WellFormed(ServiceScopeOf(h, classes, fs), {}, WrapperEvents(fs[i]))
  }

  /** In every generated body every name means what the generator meant. */
  predicate Compiles(space: string, h: Headers, classes: set<string>, fs: seq<Function>) {
    forall i | 0 <= i < |fs| :: BodiesCompile(space, h, classes, fs, i)
  }

  predicate NamesOk(h: Headers, classes: set<string>, fs: seq<Function>, i: int)
    requires 0 <= i < |fs|
  {
    StubNamesOk(ClientScopeOf(h, classes, fs), fs[i]) && WrapperNamesOk(ServiceScopeOf(h, classes, fs), fs[i])
  }

  /** The names of a specification resolve in all bodies exactly when they pass the two checks, function by function. */
  lemma SpecCompiles(space: string, h: Headers, classes: set<string>, fs: seq<Function>)
    requires forall i | 0 <= i < |fs| :: Sorted(fs[i].params)
    ensures Compiles(space, h, classes, fs) <==> forall i | 0 <= i < |fs| :: NamesOk(h, classes, fs, i)
  {
    forall i | 0 <= i < |fs| ensures BodiesCompile(space, h, classes, fs, i) <==> NamesOk(h, classes, fs, i) {
      StubCompiles(Names(fs), TypesOutside(h, classes), fs[i], space);
      WrapperCompiles(ServiceScopeOf(h, classes, fs).own, TypesOutside(h, classes), fs[i]);
    }
  }

  /** No function can have a parameter of a type that the protocol header uses as the name of a constant, declared in
      the specification or not: a class called `Result`, for one. */
  lemma ConstantIsNoType(space: string, h: Headers, classes: set<string>, fs: seq<Function>, i: nat, j: nat)
    requires forall k | 0 <= k < |fs| :: Sorted(fs[k].params)
    requires i < |fs| && j < |fs[i].params| && fs[i].params[j].kind in PROTO_VALUES
    ensures !Compiles(space, h, classes, fs)
  {
    SpecCompiles(space, h, classes, fs);
    assert !IsType(ClientScopeOf(h, classes, fs), fs[i].params[j].kind);
    assert !NamesOk(h, classes, fs, i);
  }

  /** Nor one of a class called like a type of a namespace in use, such as `OutSerializer`; and then no function at all
      can be declared if that type is the serializer's own. */
  lemma ImportedIsAmbiguous(space: string, h: Headers, classes: set<string>, fs: seq<Function>, i: nat, name: string)
    requires forall k | 0 <= k < |fs| :: Sorted(fs[k].params)
    requires i < |fs| && name in classes && name in h.imported
    requires name == "OutSerializer" || exists j :: 0 <= j < |fs[i].params| && fs[i].params[j].kind == name
    ensures !Compiles(space, h, classes, fs)
  {
    SpecCompiles(space, h, classes, fs);
    assert !IsType(ClientScopeOf(h, classes, fs), name);
    assert !NamesOk(h, classes, fs, i);
  }

  lemma LiteralsDiffer()
    ensures "foo" != "int" && "foo" != "reg" && "int" != "reg" && "req" != "int" && "sin" != "int" && "foo" != "req"
         && "foo" != "sin"
    ensures {"int", "Request", "InSerializer", "OutSerializer"} !! CLIENT_BASE + SERVICE_BASE
    ensures {"int", "Request", "InSerializer", "OutSerializer"} !! {"foo", "_foo_wrapper", "_reg_wrappers"}
    ensures "call" != "foo" && forall i: nat :: ArgName(i) != "foo"
  {
    assert "foo"[0] == 'f' && "int"[0] == 'i' && "reg"[0] == 'r' && "req"[0] == 'r' && "sin"[0] == 's';
    assert "Request"[0] == 'R' && "InSerializer"[0] == 'I' && "OutSerializer"[0] == 'O';
    assert "_client"[0] == "_msg_id"[0] == "_foo_wrapper"[0] == "_reg_wrappers"[0] == '_';
    forall i: nat ensures ArgName(i) != "foo" {
      assert ArgName(i)[0] == '_';
    }
  }

  function OneParameter(name: string): Function {
    Function("foo", VOID, [Entry(name, "int")])
  }

  lemma OneParameterStub(h: Headers, classes: set<string>, protocol: string)
    requires {"int", "Request", "InSerializer", "OutSerializer"} <= TypesOutside(h, classes)
    requires |protocol| >= 8 && protocol[|protocol| - 1] == 'l'
    ensures StubNamesOk(ClientScopeOf(h, classes, [OneParameter(protocol)]), OneParameter(protocol))
  {
    var f := OneParameter(protocol);
    assert Contents(f.params).Keys == {protocol} by { assert Contents(f.params[1..]) == map[]; }
    assert Names([f]) == {"foo"} by { assert [f][0].name == "foo"; }
    assert "OutSerializer"[12] == 'r' && |"call"| == |"sout"| == 4;
    LiteralsDiffer();
  }

  lemma OneParameterWrapper(h: Headers, classes: set<string>, name: string)
    requires {"int", "Request", "InSerializer", "OutSerializer"} <= TypesOutside(h, classes)
    ensures WrapperNamesOk(ServiceScopeOf(h, classes, [OneParameter(name)]), OneParameter(name))
  {
    var f := OneParameter(name);
    assert ServiceScopeOf(h, classes, [f]).own == {"foo", "_foo_wrapper", "_reg_wrappers"} by {
      assert [f][0].name == "foo" && WrapperName("foo") == "_foo_wrapper";
    }
    LiteralsDiffer();
    assert WrapperLocals(1) == {"req", "sin", ArgName(0)};
  }

  /** A parameter called like the protocol class is harmless, since the class is only used before `::`. */
  lemma ProtocolParameter(space: string, h: Headers, classes: set<string>)
    requires {"int", "Request", "InSerializer", "OutSerializer"} <= TypesOutside(h, classes)
    ensures Compiles(space, h, classes, [Function("foo", VOID, [Entry(ProtocolName(space), "int")])])
  {
    var fs := [OneParameter(ProtocolName(space))];
    OneParameterStub(h, classes, ProtocolName(space));
    OneParameterWrapper(h, classes, ProtocolName(space));
    SpecCompiles(space, h, classes, fs);
    assert NamesOk(h, classes, fs, 0);
  }
}
