/** The bounded pool of the thread-per-connection server: first in, first evicted. */
module SockPool {

  /** The pool after one more connection, and the one that had to go. */
  function Admitted(pool: seq<nat>, size: nat, k: nat): (seq<nat>, seq<nat>)
    requires 0 < size
  {
    if |pool| >= size then (pool[1..] + [k], [pool[0]]) else (pool + [k], [])
  }

  /** The pool holds the last connections accepted, in order, as many as fit. */
  predicate HoldsLast(pool: seq<nat>, size: nat, accepted: seq<nat>) {
    && |pool| == (if |accepted| < size then |accepted| else size)
    && pool == accepted[|accepted| - |pool|..]
  }

  lemma AdmitKeepsLast(pool: seq<nat>, size: nat, accepted: seq<nat>, k: nat)
    requires 0 < size && HoldsLast(pool, size, accepted)
    ensures var (pool', gone) := Admitted(pool, size, k);
            && HoldsLast(pool', size, accepted + [k])
            && accepted[..|accepted| - |pool|] + gone == (accepted + [k])[..|accepted| + 1 - |pool'|]
  {
  }

  class SockServer {
    const poolSize: nat
    var connections: seq<nat>
    var closed: seq<nat>  // shut down, joined and closed, in the order it happened

    constructor (poolSize: nat)
      ensures this.poolSize == poolSize && connections == [] && closed == []
    {
      this.poolSize, connections, closed := poolSize, [], [];
    }

    method Admit(k: nat)
      requires 0 < poolSize
      modifies this
      ensures connections == Admitted(old(connections), poolSize, k).0
      ensures closed == old(closed) + Admitted(old(connections), poolSize, k).1
    {
      if |connections| >= poolSize {
        var oldest := connections[0];
        closed := closed + [oldest];
        connections := connections[1..];
      }
      connections := connections + [k];
      assert closed == old(closed) + Admitted(old(connections), poolSize, k).1;
    }

    /** The accept loop over any run of accepted connections. */
    method Loop(accepted: seq<nat>)
      requires 0 < poolSize && connections == [] && closed == []
      modifies this
      ensures HoldsLast(connections, poolSize, accepted)
      ensures closed + connections == accepted
    {
      for i := 0 to |accepted|
        invariant |connections| == (if i < poolSize then i else poolSize)
        invariant closed + connections == accepted[..i]
      {
        AdmitMoves(closed, connections, poolSize, accepted[i]);
        assert accepted[..i] + [accepted[i]] == accepted[..i + 1];
        Admit(accepted[i]);
      }
      assert accepted[..|accepted|] == accepted;
      assert accepted[|accepted| - |connections|..] == connections;
    }
  }

  /** Nothing is lost on the way from the pool to the closed connections. */
  lemma AdmitMoves(closed: seq<nat>, pool: seq<nat>, size: nat, k: nat)
    requires 0 < size
    ensures var (pool', gone) := Admitted(pool, size, k); closed + gone + pool' == closed + pool + [k]
  {
    if |pool| >= size {
      assert pool == [pool[0]] + pool[1..];
    }
  }
}
