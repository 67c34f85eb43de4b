/** The read-only and write-only buffers that messages are drained from and assembled in. */
module Buffers {
  import opened Bytes

  const KB := 1024

  /** The copying between arrays that the buffers are made of. */
  method MemCopy(dst: array<byte>, at: nat, src: array<byte>, from: nat, n: nat)
    requires dst != src && at + n <= dst.Length && from + n <= src.Length
    modifies dst
    ensures dst[..at] == old(dst[..at]) && dst[at + n..] == old(dst[at + n..])
    ensures dst[at..at + n] == src[from..from + n]
  {
    forall i | 0 <= i < n {
      dst[at + i] := src[from + i];
    }
  }

  /** A buffer that is drained by `Read`. The three constructors are the three C++ classes of the family. */
  class RDONBuffer {
    var str: array<byte>
    var size: nat
    var pos: nat

    ghost predicate Valid()
      reads this
    {
      pos <= size <= str.Length
    }

    /** What has not been read yet. */
    ghost function Rest(): seq<byte>
      requires Valid()
      reads this, str
    {
      str[pos..size]
    }

    /** Borrows the caller's array. */
    constructor Wrap(str: array<byte>, size: nat)
      requires 0 < size <= str.Length
      ensures Valid() && this.str == str && Rest() == str[..size]
    {
      this.str, this.size, pos := str, size, 0;
    }

    /** Copies the caller's array. */
    constructor Heavy(str: array<byte>, size: nat)
      requires 0 < size <= str.Length
      ensures Valid() && fresh(this.str) && Rest() == str[..size]
    {
      var copy := new byte[size](i requires 0 <= i < size <= str.Length reads str => str[i]);
      this.str, this.size, pos := copy, size, 0;
      new;
      assert copy[..] == str[..size];
    }

    /** Copies the message behind its own length. */
    constructor Sized(msg: seq<byte>)
      requires Sendable(msg)
      ensures Valid() && fresh(str) && Rest() == Frame(msg)
    {
      var head := EncodeInt(|msg|);
      var total := INT_SIZE + |msg|;
      var copy := new byte[total](i requires 0 <= i < total =>
        if i < INT_SIZE then head[i] else msg[i - INT_SIZE]);
      str, size, pos := copy, total, 0;
      new;
      assert copy[..] == Frame(msg);
    }

    method Read(chunk: array<byte>, n: nat) returns (len: nat)
      requires Valid() && n <= chunk.Length && chunk != str
      modifies this`pos, chunk
      ensures Valid()
      ensures len == Min(n, |old(Rest())|)
      ensures chunk[..len] == old(Rest())[..len] && chunk[len..] == old(chunk[len..])
      ensures Rest() == old(Rest())[len..]
    {
      if pos == size { return 0; }
      len := n;
      if pos + n > size {
        len := size - pos;
      }
      MemCopy(chunk, 0, str, pos, len);
      assert chunk[..len] == chunk[0..0 + len];
      pos := pos + len;
    }

    /** Only the sized buffer has this in the source. */
    predicate Ready()
      reads this
    {
      pos == size
    }

    method Reset()
      requires Valid()
      modifies this`pos
      ensures Valid() && Rest() == str[..size]
    {
      pos := 0;
    }
  }

  /** An append-only buffer. Growth replaces the storage but leaves `size` as it was. */
  class WRONBuffer {
    var str: array<byte>
    var size: nat
    var pos: nat

    ghost predicate Valid()
      reads this
    {
      size <= str.Length && pos <= str.Length && 0 < size
    }

    ghost function Contents(): seq<byte>
      requires Valid()
      reads this, str
    {
      str[..pos]
    }

    constructor (size: nat)
      requires size > 0
      ensures Valid() && fresh(str) && Contents() == [] && this.size == size
    {
      str := new byte[size];
      this.size, pos := size, 0;
    }

    /** The default constructor of the source passes MIN_BUFFER_SIZE. The new size is held in an int. */
    method Write(src: array<byte>, n: nat) returns (len: nat)
      requires Valid() && n <= src.Length && src != str
      requires size + KB < INT_LIMIT && pos + n < INT_LIMIT
      modifies this, str
      ensures Valid() && (str == old(str) || fresh(str)) && size == old(size)
      ensures len == n && Contents() == old(Contents()) + src[..n]
      ensures str.Length == if old(pos) + n <= size then old(str.Length) else
                              if size + 1024 > old(pos) + n then size + 1024 else old(pos) + n
    {
      ghost var before := Contents();
      if pos + n > size {
        Grow(if size + KB > pos + n then size + KB else pos + n);
      }
      MemCopy(str, pos, src, 0, n);
      assert str[..pos + n] == before + src[0..0 + n];
      pos := pos + n;
      len := n;
    }

    method Grow(newSize: nat)
      requires Valid() && size <= newSize && pos <= newSize
      modifies this`str
      ensures Valid() && fresh(str) && str.Length == newSize && Contents() == old(Contents())
    {
      var grown := new byte[newSize];
      MemCopy(grown, 0, str, 0, pos);
      assert grown[..pos] == grown[0..0 + pos];
      str := grown;
    }

    method Reset()
      requires Valid()
      modifies this`pos, str
      ensures Valid() && Contents() == []
    {
      pos := 0;
      forall i | 0 <= i < size {
        str[i] := 0;
      }
    }

    method Do(op: BufferOp)
      requires Valid() && size + KB < INT_LIMIT && Moved(pos, op) < INT_LIMIT
      modifies this, str
      ensures Valid() && (str == old(str) || fresh(str)) && size == old(size)
      ensures Contents() == Applied(old(Contents()), op) && pos == Moved(old(pos), op)
    {
      match op {
        case Put(data) =>
          var src := new byte[|data|](k requires 0 <= k < |data| => data[k]);
          assert src[..|data|] == data;
          ghost var before := Contents();
          var _ := Write(src, |data|);
          assert |Contents()| == |before| + |data|;
        case Clear =>
          Reset();
          assert |Contents()| == 0;
      }
    }

    /** Runs any list of writes and resets. */
    method Replay(ops: seq<BufferOp>)
      requires Valid() && size + KB < INT_LIMIT && Peak(pos, ops) < INT_LIMIT
      modifies this, str
      ensures Valid() && (str == old(str) || fresh(str)) && size == old(size)
      ensures Contents() == After(old(Contents()), ops)
      ensures str.Length >= size && str.Length >= pos
    {
      ghost var start := Contents();
      var i := 0;
      assert ops[..0] == [];
      while i < |ops|
        invariant 0 <= i <= |ops| && Valid() && (str == old(str) || fresh(str)) && size == old(size)
        invariant Contents() == After(start, ops[..i])
        invariant Peak(pos, ops[i..]) < INT_LIMIT
      {
        AfterStep(start, ops, i);
        PeakStep(pos, ops, i);
        Do(ops[i]);
        i := i + 1;
      }
      assert ops[..i] == ops;
    }
  }

  datatype BufferOp = Put(data: seq<byte>) | Clear

  /** What one operation makes of the content, and of the position. */
  function Applied(content: seq<byte>, op: BufferOp): seq<byte> {
    match op case Put(data) => content + data case Clear => []
  }

  function Moved(pos: nat, op: BufferOp): nat {
    match op case Put(data) => pos + |data| case Clear => 0
  }

  /** The most a buffer at `pos` has to hold at any time in a run. */
  function Peak(pos: nat, ops: seq<BufferOp>): (peak: nat)
    ensures pos <= peak
    decreases ops
  {
    if ops == [] then pos
    else
      var later := Peak(Moved(pos, ops[0]), ops[1..]);
      if pos > later then pos else later
  }

  /** The append-only sequence a run of operations leaves behind. */
  function After(start: seq<byte>, ops: seq<BufferOp>): seq<byte> {
    if ops == [] then start else Applied(After(start, ops[..|ops| - 1]), ops[|ops| - 1])
  }

  lemma AfterStep(start: seq<byte>, ops: seq<BufferOp>, i: nat)
    requires i < |ops|
    ensures After(start, ops[..i + 1]) == Applied(After(start, ops[..i]), ops[i])
  {
    assert ops[..i + 1][..i] == ops[..i];
  }

  lemma PeakStep(pos: nat, ops: seq<BufferOp>, i: nat)
    requires i < |ops|
    ensures Moved(pos, ops[i]) <= Peak(Moved(pos, ops[i]), ops[i + 1..]) <= Peak(pos, ops[i..])
  {
    assert ops[i..][1..] == ops[i + 1..];
  }

  /** Concatenation of all the data of a run without a reset. */
  function Written(ops: seq<BufferOp>): seq<byte> {
    if ops == [] then [] else (if ops[0].Put? then ops[0].data else []) + Written(ops[1..])
  }

  /** Nothing before the last reset survives, and everything after it does, in order. */
  lemma {:induction false} AfterLastClear(start: seq<byte>, before: seq<BufferOp>, puts: seq<BufferOp>)
    requires forall op <- puts :: op.Put?
    ensures After(start, before + [Clear] + puts) == Written(puts)
    decreases |puts|
  {
    var ops := before + [Clear] + puts;
    if puts == [] {
      assert ops == before + [Clear];
    } else {
      var n := |puts| - 1;
      assert ops[..|ops| - 1] == before + [Clear] + puts[..n];
      AfterLastClear(start, before, puts[..n]);
      WrittenLast(puts);
    }
  }

  lemma {:induction false} WrittenLast(puts: seq<BufferOp>)
    requires puts != [] && forall op <- puts :: op.Put?
    ensures Written(puts) == Written(puts[..|puts| - 1]) + puts[|puts| - 1].data
  {
    if |puts| > 1 {
      WrittenLast(puts[1..]);
      assert puts[1..][..|puts| - 2] == puts[..|puts| - 1][1..];
    }
  }

  /** A write-only buffer that never takes more than the size it was made for. */
  class SizedWRONBuffer {
    var str: array<byte>
    var size: nat
    var pos: nat

    ghost predicate Valid()
      reads this
    {
      pos <= size == str.Length && 0 < size
    }

    ghost function Contents(): seq<byte>
      requires Valid()
      reads this, str
    {
      str[..pos]
    }

    constructor (size: nat)
      requires size > 0
      ensures Valid() && fresh(str) && Contents() == [] && this.size == size
    {
      str := new byte[size];
      this.size, pos := size, 0;
    }

    method Write(src: array<byte>, n: nat) returns (len: nat)
      requires Valid() && n <= src.Length && src != str
      modifies this`pos, str
      ensures Valid()
      ensures len == Min(n, size - old(pos))
      ensures Contents() == old(Contents()) + src[..len]
    {
      if pos == size { return 0; }
      len := n;
      if pos + n > size {
        len := size - pos;
      }
      MemCopy(str, pos, src, 0, len);
      assert str[..pos + len] == str[..pos] + str[pos..pos + len];
      pos := pos + len;
    }

    predicate Ready()
      reads this
    {
      pos == size
    }
  }
}
