/** `std::map<std::string, std::string>` as the stub generator uses it: entries in ascending order of their keys. */
module SortedMaps {

  datatype Entry = Entry(name: string, kind: string)

  /** The order of `std::less<std::string>`. */
  predicate Less(a: string, b: string) {
    if b == [] then false
    else if a == [] then true
    else if a[0] != b[0] then a[0] < b[0]
    else Less(a[1..], b[1..])
  }

  lemma {:induction false} LessTrichotomy(a: string, b: string)
    ensures Less(a, b) || a == b || Less(b, a)
    ensures !(Less(a, b) && Less(b, a)) && !Less(a, a)
  {
    if a != [] && b != [] {
      LessTrichotomy(a[1..], b[1..]);
      assert a == [a[0]] + a[1..] && b == [b[0]] + b[1..];
    }
    if a != [] {
      LessTrichotomy(a[1..], a[1..]);
    }
  }

  /** The strings agree up to i, where the first one ends or has the smaller character. */
  predicate SmallerAt(a: string, b: string, i: int) {
    0 <= i <= |a| && i < |b| && a[..i] == b[..i] && (i == |a| || a[i] < b[i])
  }

  /** The order is the one of dictionaries: a prefix comes first, and else the smaller character where they differ. */
  lemma {:induction false} LessIsLexicographic(a: string, b: string)
    ensures Less(a, b) <==> exists i :: SmallerAt(a, b, i)
    decreases |a|
  {
    forall i | SmallerAt(a, b, i) && i > 0 ensures a[0] == b[0] {
      AgreeFirst(a, b, i);
    }
    if a != [] && b != [] && a[0] == b[0] {
      LessIsLexicographic(a[1..], b[1..]);
      if i :| SmallerAt(a[1..], b[1..], i) {
        assert a[..i + 1] == [a[0]] + a[1..][..i] && b[..i + 1] == [b[0]] + b[1..][..i];
        assert SmallerAt(a, b, i + 1);
      }
      if i :| SmallerAt(a, b, i) {
        assert i > 0;
        assert a[1..][..i - 1] == a[..i][1..] && b[1..][..i - 1] == b[..i][1..];
        assert SmallerAt(a[1..], b[1..], i - 1);
      }
    } else if b != [] {
      if a == [] || a[0] < b[0] {
        assert SmallerAt(a, b, 0);
      } else {
        assert !SmallerAt(a, b, 0);
      }
    }
  }

  lemma AgreeFirst(a: string, b: string, i: int)
    requires SmallerAt(a, b, i) && i > 0
    ensures a[0] == b[0]
  {
    assert a[..i][0] == b[..i][0];
  }

  lemma {:induction false} LessTransitive(a: string, b: string, c: string)
    requires Less(a, b) && Less(b, c)
    ensures Less(a, c)
  {
    if a != [] && a[0] == b[0] && b[0] == c[0] {
      LessTransitive(a[1..], b[1..], c[1..]);
    }
  }

  predicate Sorted(es: seq<Entry>) {
    forall i, j | 0 <= i < j < |es| :: Less(es[i].name, es[j].name)
  }

  function Contents(es: seq<Entry>): map<string, string> {
    if es == [] then map[] else Contents(es[1..])[es[0].name := es[0].kind]
  }

  lemma ContentsEmpty(es: seq<Entry>)
    ensures es == [] <==> Contents(es) == map[]
  {
    if es != [] {
      assert es[0].name in Contents(es);
    }
  }

  lemma {:induction false} ContentsKeys(es: seq<Entry>, name: string)
    ensures name in Contents(es) <==> exists i :: 0 <= i < |es| && es[i].name == name
  {
    if es != [] {
      ContentsKeys(es[1..], name);
      if name in Contents(es[1..]) {
        var i :| 0 <= i < |es[1..]| && es[1..][i].name == name;
        assert es[i + 1].name == name;
      }
      if i :| 0 <= i < |es| && es[i].name == name {
        if i > 0 {
          assert es[1..][i - 1].name == name;
        }
      }
    }
  }

  lemma SortedHead(es: seq<Entry>)
    requires es != [] && Sorted(es)
    ensures Sorted(es[1..]) && es[0].name !in Contents(es[1..])
    ensures forall name | name in Contents(es[1..]) :: Less(es[0].name, name)
  {
    forall name | name in Contents(es[1..]) ensures Less(es[0].name, name) {
      ContentsKeys(es[1..], name);
    }
    LessTrichotomy(es[0].name, es[0].name);
  }

  /** `m[name] = kind`. */
  function Insert(es: seq<Entry>, e: Entry): seq<Entry> {
    if es == [] then [e]
    else if es[0].name == e.name then [e] + es[1..]
    else if Less(e.name, es[0].name) then [e] + es
    else [es[0]] + Insert(es[1..], e)
  }

  lemma {:induction false} InsertContents(es: seq<Entry>, e: Entry)
    requires Sorted(es)
    ensures Contents(Insert(es, e)) == Contents(es)[e.name := e.kind]
  {
    if es != [] {
      SortedHead(es);
      if es[0].name != e.name && !Less(e.name, es[0].name) {
        InsertContents(es[1..], e);
        assert ([es[0]] + Insert(es[1..], e))[1..] == Insert(es[1..], e);
      } else {
        assert ([e] + es)[1..] == es && ([e] + es[1..])[1..] == es[1..];
      }
    }
  }

  lemma {:induction false} InsertSorted(es: seq<Entry>, e: Entry)
    requires Sorted(es)
    ensures Sorted(Insert(es, e))
  {
    if es != [] {
      SortedHead(es);
      var head, tail := es[0], es[1..];
      if head.name == e.name {
      } else if Less(e.name, head.name) {
        forall i | 0 <= i < |es| ensures Less(e.name, es[i].name) {
          if i > 0 {
            LessTransitive(e.name, head.name, es[i].name);
          }
        }
      } else {
        LessTrichotomy(e.name, head.name);
        InsertSorted(tail, e);
        InsertContents(tail, e);
        var rest := Insert(tail, e);
        forall i | 0 <= i < |rest| ensures Less(head.name, rest[i].name) {
          ContentsKeys(rest, rest[i].name);
        }
      }
    }
  }

  /** The entries depend on the contents alone, not on the order they were put in. */
  lemma {:induction false} SortedUnique(a: seq<Entry>, b: seq<Entry>)
    requires Sorted(a) && Sorted(b) && Contents(a) == Contents(b)
    ensures a == b
  {
    if a == [] || b == [] {
      ContentsEmpty(a);
      ContentsEmpty(b);
    } else {
      SortedHead(a);
      SortedHead(b);
      var x, y := a[0].name, b[0].name;
      assert x in Contents(b) && y in Contents(a);
      LessTrichotomy(x, y);
      assert x == y;
      assert Contents(a[1..]) == Contents(a) - {x} && Contents(b[1..]) == Contents(b) - {y};
      SortedUnique(a[1..], b[1..]);
    }
  }

  /** A definition being filled in member by member: the parameters of a function or the members of a class. */
  class MapBuilder {
    var entries: seq<Entry>

    constructor ()
      ensures entries == [] && Sorted(entries)
    {
      entries := [];
    }

    method Add(name: string, kind: string)
      requires Sorted(entries)
      modifies this
      ensures Sorted(entries) && Contents(entries) == Contents(old(entries))[name := kind]
    {
      InsertSorted(entries, Entry(name, kind));
      InsertContents(entries, Entry(name, kind));
      entries := Insert(entries, Entry(name, kind));
    }
  }

  /** The contents after a run of additions: a later addition of a name replaces an earlier one. */
  function Added(given: seq<Entry>): map<string, string> {
    if given == [] then map[]
    else Added(given[..|given| - 1])[given[|given| - 1].name := given[|given| - 1].kind]
  }

  /** Filling from the keys of a JSON object, in whatever order they come. */
  method FromKeys(given: seq<Entry>) returns (entries: seq<Entry>)
    ensures Sorted(entries) && Contents(entries) == Added(given)
  {
    var b := new MapBuilder();
    assert given[..0] == [];
    for i := 0 to |given|
      invariant Sorted(b.entries) && Contents(b.entries) == Added(given[..i])
    {
      assert given[..i + 1][..i] == given[..i];
      b.Add(given[i].name, given[i].kind);
    }
    assert given[..|given|] == given;
    entries := b.entries;
  }
}
