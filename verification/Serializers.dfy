/**
 * Values of declared types as they travel in a JSON array. A value of a built-in type is one element; a value of a
 * declared class is what its generated serializer makes of it, member by member in the order of the member map.
 */
module Serializers {
  import opened Proto
  import opened SortedMaps
  import opened Wrappers

  datatype Value = Plain(json: JValue) | Object(fields: map<string, Value>)

  /** The declared classes. */
  datatype Classes = Classes(members: map<string, seq<Entry>>)

  /** Each class on the path has a member of the next one's type. */
  predicate Path(cs: Classes, path: seq<string>) {
    && (forall i | 0 <= i < |path| :: path[i] in cs.members)
    && (forall i | 0 < i < |path| :: Nests(cs, path[i - 1], path[i]))
  }

  predicate Nests(cs: Classes, outer: string, inner: string)
    requires outer in cs.members
  {
    exists i :: 0 <= i < |cs.members[outer]| && cs.members[outer][i].kind == inner
  }

  ghost predicate Reaches(cs: Classes, outer: string, inner: string) {
    exists path :: |path| > 1 && Path(cs, path) && path[0] == outer && path[|path| - 1] == inner
  }

  /** The classes whose values a value of this class holds, at any depth. */
  ghost function Inside(cs: Classes, kind: string): set<string> {
    set inner | inner in cs.members && Reaches(cs, kind, inner)
  }

  /** Bounds how deep a type nests. */
  ghost function Rank(cs: Classes, kind: string): nat {
    if kind in cs.members then 1 + |Inside(cs, kind)| else 0
  }

  ghost predicate Below(cs: Classes, es: seq<Entry>, rank: nat) {
    forall i | 0 <= i < |es| :: Rank(cs, es[i].kind) < rank
  }

  /** Members in map order, and every class ranks above the types of its members. */
  ghost predicate Acyclic(cs: Classes) {
    forall c | c in cs.members :: Sorted(cs.members[c]) && Below(cs, cs.members[c], Rank(cs, c))
  }

  lemma ReachesFirst(cs: Classes, outer: string, mid: string)
    requires outer in cs.members && mid in cs.members && Nests(cs, outer, mid)
    ensures Reaches(cs, outer, mid)
    ensures forall inner | Reaches(cs, mid, inner) :: Reaches(cs, outer, inner)
  {
    assert Path(cs, [outer, mid]);
    forall inner | Reaches(cs, mid, inner) ensures Reaches(cs, outer, inner) {
      var path :| |path| > 1 && Path(cs, path) && path[0] == mid && path[|path| - 1] == inner;
      var longer := [outer] + path;
      assert Path(cs, longer) && longer[|longer| - 1] == inner;
    }
  }

  lemma SmallerInside(cs: Classes, outer: string, mid: string)
    requires outer in cs.members && mid in cs.members && Nests(cs, outer, mid) && !Reaches(cs, mid, mid)
    ensures Rank(cs, mid) < Rank(cs, outer)
  {
    ReachesFirst(cs, outer, mid);
    var both := Inside(cs, mid) + {mid};
    assert mid !in Inside(cs, mid) && both <= Inside(cs, outer);
    SubsetSize(both, Inside(cs, outer));
  }

  lemma {:induction false} SubsetSize(a: set<string>, b: set<string>)
    requires a <= b
    ensures |a| <= |b|
  {
    assert b == a + (b - a);
  }

  /** Along a path ranks fall. */
  lemma {:induction false} PathFalls(cs: Classes, path: seq<string>)
    requires Acyclic(cs) && |path| > 1 && Path(cs, path)
    ensures Rank(cs, path[|path| - 1]) < Rank(cs, path[0])
  {
    var n := |path|;
    assert Nests(cs, path[n - 2], path[n - 1]);
    if n > 2 {
      assert forall i | 0 <= i < n - 1 :: path[..n - 1][i] == path[i];
      PathFalls(cs, path[..n - 1]);
    }
  }

  /** The tables that are accepted are exactly those in which no class reaches itself. */
  lemma AcyclicExactly(cs: Classes)
    requires forall c | c in cs.members :: Sorted(cs.members[c])
    ensures Acyclic(cs) <==> forall c | c in cs.members :: !Reaches(cs, c, c)
  {
    if Acyclic(cs) {
      forall c | c in cs.members ensures !Reaches(cs, c, c) {
        if Reaches(cs, c, c) {
          var path :| |path| > 1 && Path(cs, path) && path[0] == c && path[|path| - 1] == c;
          PathFalls(cs, path);
        }
      }
    }
    if forall c | c in cs.members :: !Reaches(cs, c, c) {
      forall c, i | c in cs.members && 0 <= i < |cs.members[c]|
        ensures Rank(cs, cs.members[c][i].kind) < Rank(cs, c)
      {
        if cs.members[c][i].kind in cs.members {
          SmallerInside(cs, c, cs.members[c][i].kind);
        }
      }
    }
  }

  /** The elements a built-in type accepts; a type the reader does not know takes any. */
  predicate Accepts(kind: string, j: JValue) {
    if kind == "int" || kind == "long" then j.JInteger?
    else if kind == "string" || kind == "std::string" then j.JString?
    else if kind == "bool" then j.JBool?
    else true
  }

  /** The built-in types by name. */
  lemma AcceptsByName(j: JValue)
    ensures Accepts("int", j) == Accepts("long", j) == j.JInteger?
    ensures Accepts("string", j) == Accepts("std::string", j) == j.JString?
    ensures Accepts("bool", j) == j.JBool?
    ensures forall kind :: kind !in {"int", "long", "string", "std::string", "bool"} ==> Accepts(kind, j)
  {
    assert |"int"| == 3 && |"bool"| == |"long"| == 4 && "bool"[0] == 'b' && "long"[0] == 'l';
    assert |"string"| == 6 && |"std::string"| == 11;
  }

  predicate HasFields(es: seq<Entry>, fields: map<string, Value>) {
    forall i | 0 <= i < |es| :: es[i].name in fields
  }

  ghost predicate HasType(cs: Classes, kind: string, v: Value)
    requires Acyclic(cs)
    decreases Rank(cs, kind), 0
  {
    if kind in cs.members then
      && v.Object? && v.fields.Keys == Contents(cs.members[kind]).Keys
      && HasTypes(cs, cs.members[kind], v.fields, Rank(cs, kind))
    else
      v.Plain? && Accepts(kind, v.json)
  }

  ghost predicate HasTypes(cs: Classes, es: seq<Entry>, fields: map<string, Value>, rank: nat)
    requires Acyclic(cs) && Below(cs, es, rank)
    decreases rank, 0, |es|
  {
    forall i | 0 <= i < |es| :: es[i].name in fields && HasType(cs, es[i].kind, fields[es[i].name])
  }

  /** `serializer & x`, writing. */
  ghost function Write(cs: Classes, kind: string, v: Value): seq<JValue>
    requires Acyclic(cs) && HasType(cs, kind, v)
    decreases Rank(cs, kind), 0
  {
    if kind in cs.members then WriteAll(cs, cs.members[kind], v.fields, Rank(cs, kind)) else [v.json]
  }

  ghost function WriteAll(cs: Classes, es: seq<Entry>, fields: map<string, Value>, rank: nat): seq<JValue>
    requires Acyclic(cs) && Below(cs, es, rank) && HasTypes(cs, es, fields, rank)
    decreases rank, 0, |es|
  {
    if es == [] then []
    else Write(cs, es[0].kind, fields[es[0].name]) + WriteAll(cs, es[1..], fields, rank)
  }

  /** `serializer & x`, reading: the value and what is left, or a failure. */
  ghost function Read(cs: Classes, kind: string, s: seq<JValue>): Option<(Value, seq<JValue>)>
    requires Acyclic(cs)
    decreases Rank(cs, kind), 0
  {
    if kind in cs.members then
      match ReadAll(cs, cs.members[kind], s, Rank(cs, kind))
      case None => None
      case Some((fields, rest)) => Some((Object(fields), rest))
    else if s != [] && Accepts(kind, s[0]) then Some((Plain(s[0]), s[1..]))
    else None
  }

  ghost function ReadAll(cs: Classes, es: seq<Entry>, s: seq<JValue>, rank: nat)
    : Option<(map<string, Value>, seq<JValue>)>
    requires Acyclic(cs) && Below(cs, es, rank)
    decreases rank, 0, |es|
  {
    if es == [] then Some((map[], s))
    else
      match Read(cs, es[0].kind, s)
      case None => None
      case Some((v, rest)) =>
        match ReadAll(cs, es[1..], rest, rank)
        case None => None
        case Some((fields, left)) => Some((fields[es[0].name := v], left))
  }

  /** The named values only. */
  function Restrict(es: seq<Entry>, fields: map<string, Value>): map<string, Value>
    requires HasFields(es, fields)
  {
    map name | name in Contents(es) && name in fields :: fields[name]
  }

  lemma SliceTypes(cs: Classes, es: seq<Entry>, k: nat, fields: map<string, Value>, rank: nat)
    requires Acyclic(cs) && Below(cs, es, rank) && HasTypes(cs, es, fields, rank) && k <= |es|
    ensures Below(cs, es[..k], rank) && HasTypes(cs, es[..k], fields, rank)
    ensures Below(cs, es[k..], rank) && HasTypes(cs, es[k..], fields, rank)
  {
  }

  /** Members are written in order: the elements of the first ones come before those of the others. */
  lemma {:induction false} WriteSplit(cs: Classes, es: seq<Entry>, k: nat, fields: map<string, Value>, rank: nat)
    requires Acyclic(cs) && Below(cs, es, rank) && HasTypes(cs, es, fields, rank) && k <= |es|
    requires Below(cs, es[..k], rank) && HasTypes(cs, es[..k], fields, rank)
    requires Below(cs, es[k..], rank) && HasTypes(cs, es[k..], fields, rank)
    ensures WriteAll(cs, es, fields, rank) == WriteAll(cs, es[..k], fields, rank) + WriteAll(cs, es[k..], fields, rank)
    decreases |es|
  {
    if k == 0 {
      assert es[k..] == es;
    } else {
      var tail, head := es[1..], es[..k];
      SliceTypes(cs, es, 1, fields, rank);
      SliceTypes(cs, head, 1, fields, rank);
      assert head[1..] == tail[..k - 1] && tail[k - 1..] == es[k..];
      WriteSplit(cs, tail, k - 1, fields, rank);
      Reassociate(Write(cs, es[0].kind, fields[es[0].name]), WriteAll(cs, tail[..k - 1], fields, rank),
                  WriteAll(cs, es[k..], fields, rank));
    }
  }

  /** A value of a built-in type is one element, that of a class what its members are in map order. */
  lemma WriteOne(cs: Classes, e: Entry, fields: map<string, Value>, rank: nat)
    requires Acyclic(cs) && Below(cs, [e], rank) && HasTypes(cs, [e], fields, rank)
    ensures e.name in fields && HasType(cs, e.kind, fields[e.name])
    ensures WriteAll(cs, [e], fields, rank)
         == if e.kind in cs.members
            then WriteAll(cs, cs.members[e.kind], fields[e.name].fields, Rank(cs, e.kind))
            else [fields[e.name].json]
  {
    assert [e][0] == e;
    assert WriteAll(cs, [e][1..], fields, rank) == [];
  }

  /** Reading back what the serializer of a type wrote gives the same value and consumes exactly its elements. */
  lemma {:induction false} ReadWrite(cs: Classes, kind: string, v: Value, rest: seq<JValue>)
    requires Acyclic(cs) && HasType(cs, kind, v)
    ensures Read(cs, kind, Write(cs, kind, v) + rest) == Some((v, rest))
    decreases Rank(cs, kind), 0
  {
    if kind in cs.members {
      ReadWriteAll(cs, cs.members[kind], v.fields, Rank(cs, kind), rest);
      assert Restrict(cs.members[kind], v.fields) == v.fields;
    }
  }

  lemma {:induction false} ReadWriteAll(cs: Classes, es: seq<Entry>, fields: map<string, Value>, rank: nat,
                                        rest: seq<JValue>)
    requires Acyclic(cs) && Sorted(es) && Below(cs, es, rank) && HasTypes(cs, es, fields, rank)
    ensures ReadAll(cs, es, WriteAll(cs, es, fields, rank) + rest, rank) == Some((Restrict(es, fields), rest))
    decreases rank, 0, |es|
  {
    if es == [] {
      assert [] + rest == rest;
    } else {
      SortedHead(es);
      var first, tail := Write(cs, es[0].kind, fields[es[0].name]), WriteAll(cs, es[1..], fields, rank);
      Reassociate(first, tail, rest);
      ReadWrite(cs, es[0].kind, fields[es[0].name], tail + rest);
      ReadWriteAll(cs, es[1..], fields, rank, rest);
      assert Restrict(es, fields) == Restrict(es[1..], fields)[es[0].name := fields[es[0].name]];
    }
  }

  lemma Reassociate(first: seq<JValue>, tail: seq<JValue>, rest: seq<JValue>)
    ensures first + tail + rest == first + (tail + rest)
  {
  }

  /** Conversely, whatever a read accepts is a value of the type, and writing it gives the elements consumed. */
  lemma {:induction false} WriteRead(cs: Classes, kind: string, s: seq<JValue>)
    requires Acyclic(cs) && Read(cs, kind, s).Some?
    ensures var (v, rest) := Read(cs, kind, s).value; HasType(cs, kind, v) && Write(cs, kind, v) + rest == s
    decreases Rank(cs, kind), 0
  {
    if kind in cs.members {
      var es := cs.members[kind];
      var (fields, rest) := ReadAll(cs, es, s, Rank(cs, kind)).value;
      WriteReadAll(cs, es, s, Rank(cs, kind));
    } else {
      assert [s[0]] + s[1..] == s;
    }
  }

  lemma {:induction false} WriteReadAll(cs: Classes, es: seq<Entry>, s: seq<JValue>, rank: nat)
    requires Acyclic(cs) && Sorted(es) && Below(cs, es, rank) && ReadAll(cs, es, s, rank).Some?
    ensures var (fields, rest) := ReadAll(cs, es, s, rank).value;
            && fields.Keys == Contents(es).Keys && HasTypes(cs, es, fields, rank)
            && WriteAll(cs, es, fields, rank) + rest == s
    decreases rank, 0, |es|
  {
    if es != [] {
      SortedHead(es);
      var (v, rest) := Read(cs, es[0].kind, s).value;
      var (tail, left) := ReadAll(cs, es[1..], rest, rank).value;
      WriteRead(cs, es[0].kind, s);
      WriteReadAll(cs, es[1..], rest, rank);
      WriteFirst(cs, es, v, tail, rank);
      assert Write(cs, es[0].kind, v) + WriteAll(cs, es[1..], tail, rank) + left == s;
    }
  }

  /** Adding the first member's value to those of the others. */
  lemma WriteFirst(cs: Classes, es: seq<Entry>, v: Value, tail: map<string, Value>, rank: nat)
    requires Acyclic(cs) && es != [] && Below(cs, es, rank) && HasType(cs, es[0].kind, v)
    requires Below(cs, es[1..], rank) && HasTypes(cs, es[1..], tail, rank)
    requires tail.Keys == Contents(es[1..]).Keys && es[0].name !in Contents(es[1..])
    ensures var fields := tail[es[0].name := v];
            && HasTypes(cs, es, fields, rank)
            && WriteAll(cs, es, fields, rank) == Write(cs, es[0].kind, v) + WriteAll(cs, es[1..], tail, rank)
  {
    SameOnTail(cs, es[1..], tail, tail[es[0].name := v], rank);
    assert forall i | 0 < i < |es| :: es[i] == es[1..][i - 1];
  }

  /** What is written depends only on the named values. */
  lemma {:induction false} SameOnTail(cs: Classes, es: seq<Entry>, a: map<string, Value>, b: map<string, Value>,
                                      rank: nat)
    requires Acyclic(cs) && Below(cs, es, rank) && HasTypes(cs, es, a, rank)
    requires forall name | name in Contents(es) :: name in b && name in a && b[name] == a[name]
    ensures HasTypes(cs, es, b, rank) && WriteAll(cs, es, b, rank) == WriteAll(cs, es, a, rank)
    decreases |es|
  {
    if es != [] {
      assert es[0].name in Contents(es);
      assert forall i | 0 <= i < |es[1..]| :: es[1..][i] == es[i + 1];
      SameOnTail(cs, es[1..], a, b, rank);
      assert forall i | 0 < i < |es| :: es[i] == es[1..][i - 1];
    }
  }
}
