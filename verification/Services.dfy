/** The handler table of a service: registration by id and dispatch. */
module Services {
  import opened Wrappers

  /** The table after registering handlers 0, 1, ... under their ids: a later one replaces an earlier one. */
  function Registered(ids: seq<int>): map<int, nat> {
    if ids == [] then map[] else Registered(ids[..|ids| - 1])[ids[|ids| - 1] := |ids| - 1]
  }

  function Dispatch(handlers: map<int, nat>, id: int): Option<nat> {
    if id in handlers then Some(handlers[id]) else None
  }

  class AbstractService {
    var handlers: map<int, nat>

    constructor ()
      ensures handlers == map[]
    {
      handlers := map[];
    }

    method Reg(id: int, handler: nat) returns (rst: int)
      modifies this
      ensures handlers == old(handlers)[id := handler]
      ensures rst == if id in old(handlers) then 1 else 0
    {
      rst := 0;
      if id in handlers {
        rst := 1;
      }
      handlers := handlers[id := handler];
    }

    /** The generated registration: one call for each function, in order. It reports whether any id was taken. */
    method RegWrappers(ids: seq<int>) returns (clash: bool)
      requires handlers == map[]
      modifies this
      ensures handlers == Registered(ids)
      ensures clash <==> !Distinct(ids)
    {
      clash := false;
      assert ids[..0] == [];
      for i := 0 to |ids|
        invariant handlers == Registered(ids[..i])
        invariant clash <==> !Distinct(ids[..i])
      {
        assert ids[..i + 1][..i] == ids[..i];
        RegisteredKeys(ids[..i], ids[i]);
        DistinctStep(ids, i);
        var rst := Reg(ids[i], i);
        clash := clash || rst != 0;
      }
      assert ids[..|ids|] == ids;
    }
  }

  ghost predicate Distinct(ids: seq<int>) {
    forall i, j | 0 <= i < j < |ids| :: ids[i] != ids[j]
  }

  lemma DistinctStep(ids: seq<int>, n: nat)
    requires n < |ids|
    ensures Distinct(ids[..n + 1]) <==> Distinct(ids[..n]) && ids[n] !in ids[..n]
  {
    if Distinct(ids[..n + 1]) {
      forall i, j | 0 <= i < j < n ensures ids[..n][i] != ids[..n][j] {
        assert ids[..n + 1][i] != ids[..n + 1][j];
      }
      forall i | 0 <= i < n ensures ids[..n][i] != ids[n] {
        assert ids[..n + 1][i] != ids[..n + 1][n];
      }
    }
    if Distinct(ids[..n]) && ids[n] !in ids[..n] {
      var longer := ids[..n + 1];
      forall i, j | 0 <= i < j < |longer| ensures longer[i] != longer[j] {
        assert ids[..n][i] in ids[..n];
        if j < n {
          assert ids[..n][i] != ids[..n][j];
        }
      }
    }
  }

  lemma {:induction false} RegisteredKeys(ids: seq<int>, id: int)
    ensures id in Registered(ids) <==> id in ids
  {
    if ids != [] {
      RegisteredKeys(ids[..|ids| - 1], id);
      assert ids == ids[..|ids| - 1] + [ids[|ids| - 1]];
    }
  }

  /** A request for an id runs the last handler registered under it, and no handler for any other id. */
  lemma {:induction false} DispatchLast(ids: seq<int>, id: int)
    ensures match Dispatch(Registered(ids), id)
            case None => id !in ids
            case Some(h) => h < |ids| && ids[h] == id && forall j | h < j < |ids| :: ids[j] != id
  {
    if ids != [] {
      DispatchLast(ids[..|ids| - 1], id);
      assert ids == ids[..|ids| - 1] + [ids[|ids| - 1]];
      assert forall j | 0 <= j < |ids| - 1 :: ids[j] == ids[..|ids| - 1][j];
    }
  }

  /** Every function is reached under its own id exactly when the ids are pairwise distinct. */
  lemma DispatchFaithful(ids: seq<int>)
    ensures (forall i | 0 <= i < |ids| :: Dispatch(Registered(ids), ids[i]) == Some(i)) <==> Distinct(ids)
  {
    forall i | 0 <= i < |ids|
      ensures Dispatch(Registered(ids), ids[i]).Some? && Dispatch(Registered(ids), ids[i]).value >= i
      ensures Dispatch(Registered(ids), ids[i]).value < |ids|
      ensures ids[Dispatch(Registered(ids), ids[i]).value] == ids[i]
    {
      DispatchLast(ids, ids[i]);
    }
    if forall i | 0 <= i < |ids| :: Dispatch(Registered(ids), ids[i]) == Some(i) {
      forall i, j | 0 <= i < j < |ids| ensures ids[i] != ids[j] {
        assert Dispatch(Registered(ids), ids[i]) == Some(i) && Dispatch(Registered(ids), ids[j]) == Some(j);
      }
    }
  }
}
