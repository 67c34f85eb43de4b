/** The registry of watched descriptors behind the poll server. */
module Polling {

  const FD_SETSIZE := 1024

  datatype Mode = READ | WRITE

  /** What one `select` call reports; on success the bits it leaves set among the descriptors it was asked about. */
  datatype Selected = SelectFailed | Selected(readable: set<int>, writable: set<int>)

  datatype PollResult = Failed | Found(readable: seq<int>, writable: seq<int>) | StillWaiting

  ghost predicate IsHighest(h: int, fds: set<int>) {
    && 0 <= h && (h == 0 || h in fds)
    && forall fd | fd in fds :: fd <= h
  }

  predicate Ascending(s: seq<int>) {
    forall i, j | 0 <= i < j < |s| :: s[i] < s[j]
  }

  /** `s` lists exactly the members of `fds`, in ascending order without repeats. */
  ghost predicate Lists(s: seq<int>, fds: set<int>) {
    && Ascending(s)
    && (forall fd :: fd in s <==> fd in fds)
  }

  lemma NonEmpty(fds: set<int>)
    ensures fds != {} ==> exists fd :: fd in fds
  {
    if forall fd :: fd !in fds {
      assert fds == {};
    }
  }

  lemma ListsEmpty(s: seq<int>, fds: set<int>)
    requires Lists(s, fds)
    ensures s == [] <==> fds == {}
  {
    if s != [] {
      assert s[0] in s;
    } else if fds != {} {
      NonEmpty(fds);
    }
  }

  lemma {:induction false} ListsUnique(a: seq<int>, b: seq<int>, fds: set<int>)
    requires Lists(a, fds) && Lists(b, fds)
    ensures a == b
  {
    if a == [] || b == [] {
      ListsEmpty(a, fds);
      ListsEmpty(b, fds);
    } else {
      var m, n := |a| - 1, |b| - 1;
      assert a[m] in b && b[n] in a;
      assert a[m] == b[n];
      forall fd ensures fd in a[..m] <==> fd in fds - {a[m]} {
        if fd in fds - {a[m]} {
          assert fd in a;
        }
      }
      forall fd ensures fd in b[..n] <==> fd in fds - {a[m]} {
        if fd in fds - {a[m]} {
          assert fd in b;
        }
      }
      ListsUnique(a[..m], b[..n], fds - {a[m]});
      assert a == a[..m] + [a[m]] && b == b[..n] + [b[n]];
    }
  }

  ghost function Below(fds: set<int>, n: int): set<int> {
    set fd | fd in fds && fd < n
  }

  lemma ListsStep(s: seq<int>, fds: set<int>, n: int)
    requires Lists(s, Below(fds, n))
    ensures Lists(if n in fds then s + [n] else s, Below(fds, n + 1))
  {
    assert forall fd :: fd in Below(fds, n + 1) <==> fd in Below(fds, n) || (fd == n && n in fds);
    forall i | 0 <= i < |s| ensures s[i] < n {
      assert s[i] in s;
    }
  }

  class PollManager {
    var highest: int
    var readSet: set<int>       // the fd_set handed to select for reading
    var writeSet: set<int>      // the fd_set handed to select for writing
    var watchedRead: set<int>
    var watchedWrite: set<int>

    ghost predicate Valid()
      reads this
    {
      && readSet == watchedRead && writeSet == watchedWrite
      && (forall fd | fd in watchedRead + watchedWrite :: 0 <= fd < FD_SETSIZE)
      && IsHighest(highest, watchedRead + watchedWrite)
    }

    constructor ()
      ensures Valid() && watchedRead == {} && watchedWrite == {}
    {
      highest, readSet, writeSet, watchedRead, watchedWrite := 0, {}, {}, {}, {};
    }

    method Watch(fd: int, mode: Mode)
      requires Valid() && 0 <= fd < FD_SETSIZE
      modifies this
      ensures Valid()
      ensures watchedRead == old(watchedRead) + (if mode == READ then {fd} else {})
      ensures watchedWrite == old(watchedWrite) + (if mode == WRITE then {fd} else {})
    {
      if mode == READ {
        readSet, watchedRead := readSet + {fd}, watchedRead + {fd};
      } else {
        writeSet, watchedWrite := writeSet + {fd}, watchedWrite + {fd};
      }
      if fd > highest {
        highest := fd;
      }
    }

    method Unwatch(fd: int, mode: Mode)
      requires Valid() && 0 <= fd < FD_SETSIZE
      modifies this
      ensures Valid()
      ensures watchedRead == old(watchedRead) - (if mode == READ then {fd} else {})
      ensures watchedWrite == old(watchedWrite) - (if mode == WRITE then {fd} else {})
    {
      if mode == READ {
        readSet, watchedRead := readSet - {fd}, watchedRead - {fd};
      } else {
        writeSet, watchedWrite := writeSet - {fd}, watchedWrite - {fd};
      }
      var newHighest := MaxScan(watchedRead, 0);
      newHighest := MaxScan(watchedWrite, newHighest);
      highest := newHighest;
    }

    /** The scan over one hash set, in whatever order the set is iterated. */
    static method MaxScan(fds: set<int>, start: int) returns (h: int)
      ensures h >= start && (h == start || h in fds) && forall fd | fd in fds :: fd <= h
    {
      h := start;
      var left := fds;
      while left != {}
        invariant left <= fds && h >= start && (h == start || h in fds)
        invariant forall fd | fd in fds && fd !in left :: fd <= h
        decreases left
      {
        NonEmpty(left);
        var fd :| fd in left;
        if h < fd {
          h := fd;
        }
        left := left - {fd};
      }
    }

    /** A successful select that reports no watched descriptor. */
    ghost predicate Nothing(reply: Selected)
      reads this
    {
      reply.Selected? && watchedRead * reply.readable == {} && watchedWrite * reply.writable == {}
    }

    /**
     * Waits through a run of select results. It reports the first one that has a watched descriptor ready, as
     * the ascending lists of exactly the watched descriptors reported ready.
     */
    method Poll(script: seq<Selected>) returns (r: PollResult, used: nat)
      requires Valid()
      ensures used <= |script|
      ensures forall k | 0 <= k < used - 1 :: Nothing(script[k])
      ensures r == StillWaiting ==> used == |script| && (used > 0 ==> Nothing(script[used - 1]))
      ensures r != StillWaiting ==> used > 0
      ensures r == Failed ==> script[used - 1] == SelectFailed
      ensures r.Found? ==> script[used - 1].Selected? && !Nothing(script[used - 1])
      ensures r.Found? ==> Lists(r.readable, watchedRead * script[used - 1].readable)
      ensures r.Found? ==> Lists(r.writable, watchedWrite * script[used - 1].writable)
    {
      used := 0;
      while used < |script|
        invariant used <= |script|
        invariant forall k | 0 <= k < used :: Nothing(script[k])
      {
        var reply := script[used];
        used := used + 1;
        if reply == SelectFailed { return Failed, used; }
        // select clears every bit that is not ready among the descriptors below highest + 1
        var readBits := set fd | fd in readSet && (fd > highest || fd in reply.readable);
        var writeBits := set fd | fd in writeSet && (fd > highest || fd in reply.writable);
        var readable, writable := [], [];
        for i := 0 to highest + 1
          invariant Lists(readable, Below(readBits, i))
          invariant Lists(writable, Below(writeBits, i))
        {
          ListsStep(readable, readBits, i);
          ListsStep(writable, writeBits, i);
          if i in readBits {
            readable := readable + [i];
          }
          if i in writeBits {
            writable := writable + [i];
          }
        }
        assert Below(readBits, highest + 1) == watchedRead * reply.readable;
        assert Below(writeBits, highest + 1) == watchedWrite * reply.writable;
        ListsEmpty(readable, watchedRead * reply.readable);
        ListsEmpty(writable, watchedWrite * reply.writable);
        if readable != [] || writable != [] { return Found(readable, writable), used; }
      }
      r := StillWaiting;
    }
  }
}

/** Runs of watch and unwatch, against a model that is nothing but two sets. */
module WatchRuns {
  import opened Polling

  datatype WatchOp = Watching(fd: int, mode: Mode) | Unwatching(fd: int, mode: Mode)

  /** The simple model: two sets and nothing else. */
  function Watched(ops: seq<WatchOp>, mode: Mode): set<int> {
    if ops == [] then {}
    else
      var before, op := Watched(ops[..|ops| - 1], mode), ops[|ops| - 1];
      if op.mode != mode then before
      else if op.Watching? then before + {op.fd} else before - {op.fd}
  }

  /** After any run of operations the manager agrees with the simple model, cached maximum included. */
  method Replay(ops: seq<WatchOp>) returns (pm: PollManager)
    requires forall i | 0 <= i < |ops| :: 0 <= ops[i].fd < FD_SETSIZE
    ensures fresh(pm) && pm.Valid()
    ensures pm.readSet == Watched(ops, READ) && pm.writeSet == Watched(ops, WRITE)
  {
    pm := new PollManager();
    assert ops[..0] == [];
    for i := 0 to |ops|
      invariant fresh(pm) && pm.Valid()
      invariant pm.watchedRead == Watched(ops[..i], READ) && pm.watchedWrite == Watched(ops[..i], WRITE)
    {
      assert ops[..i + 1][..i] == ops[..i];
      match ops[i] {
        case Watching(fd, mode) => pm.Watch(fd, mode);
        case Unwatching(fd, mode) => pm.Unwatch(fd, mode);
      }
    }
    assert ops[..|ops|] == ops;
  }
}
