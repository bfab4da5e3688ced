/** The three-region input/output buffer: [prependable][readable][writable] in one growable array. */
module Buffers {
  import opened Bytes

  const CHEAP_PREPEND: nat := 8
  const EXTRA_BUFFER: nat := 65536

  class Buffer {
    var store: array<byte>
    var readIndex: nat
    var writeIndex: nat

    ghost predicate Valid()
      reads this
    {
      CHEAP_PREPEND <= readIndex <= writeIndex <= store.Length
    }

    /** The byte queue the buffer stands for. */
    ghost function Contents(): bytes
      requires Valid()
      reads this, store
    {
      store[readIndex..writeIndex]
    }

    function ReadableBytes(): nat
      requires Valid()
      reads this
    {
      writeIndex - readIndex
    }

    function WritableBytes(): nat
      requires Valid()
      reads this
    {
      store.Length - writeIndex
    }

    /** What one readv can take: the writable region, and a stack buffer unless that region is large. */
    function ReadCapacity(): nat
      requires Valid()
      reads this
    {
      WritableBytes() + if WritableBytes() < EXTRA_BUFFER then EXTRA_BUFFER else 0
    }

    constructor (initialSize: nat)
      ensures Valid() && fresh(store) && Contents() == []
    {
      store := new byte[CHEAP_PREPEND + initialSize](_ => 0);
      readIndex, writeIndex := CHEAP_PREPEND, CHEAP_PREPEND;
    }

    method RetrieveAll()
      requires Valid()
      modifies this`readIndex, this`writeIndex
      ensures Valid() && Contents() == []
    {
      readIndex, writeIndex := CHEAP_PREPEND, CHEAP_PREPEND;
    }

    /** Consuming at least everything resets the indices. */
    method Retrieve(len: nat)
      requires Valid()
      modifies this`readIndex, this`writeIndex
      ensures Valid()
      ensures Contents() == if len < |old(Contents())| then old(Contents())[len..] else []
    {
      if len < ReadableBytes() {
        readIndex := readIndex + len;
      } else {
        RetrieveAll();
      }
    }

    method RetrieveAsString(len: nat) returns (result: bytes)
      requires Valid()
      modifies this`readIndex, this`writeIndex
      ensures Valid() && result + Contents() == old(Contents())
      ensures |result| == if len < |old(Contents())| then len else |old(Contents())|
    {
      var actual := if len < ReadableBytes() then len else ReadableBytes();
      result := store[readIndex..readIndex + actual];
      Retrieve(actual);
    }

    /** The overlapping std::copy of makeSpace: shift the readable region down to the prepend mark. */
    method MoveDown()
      requires Valid()
      modifies this`readIndex, this`writeIndex, store
      ensures Valid() && readIndex == CHEAP_PREPEND && Contents() == old(Contents())
    {
      var readable := ReadableBytes();
      ghost var before := Contents();
      var i := 0;
      while i < readable
        modifies store
        invariant 0 <= i <= readable
        invariant store[CHEAP_PREPEND..CHEAP_PREPEND + i] == before[..i]
        invariant store[readIndex + i..writeIndex] == before[i..]
      {
        assert store[readIndex + i] == before[i];
        store[CHEAP_PREPEND + i] := store[readIndex + i];
        assert store[CHEAP_PREPEND..CHEAP_PREPEND + i + 1] == before[..i] + [before[i]];
        i := i + 1;
      }
      readIndex := CHEAP_PREPEND;
      writeIndex := readIndex + readable;
    }

    /** std::vector::resize to a larger size. */
    method Resize(size: nat)
      requires Valid() && store.Length <= size
      modifies this`store
      ensures Valid() && fresh(store) && store.Length == size && Contents() == old(Contents())
    {
      var current := store;
      store := new byte[size](i requires 0 <= i reads current => if i < current.Length then current[i] else 0);
    }

    method MakeSpace(len: nat)
      requires Valid() && WritableBytes() < len
      modifies this, store
      ensures Valid() && (store == old(store) || fresh(store))
      ensures Contents() == old(Contents()) && WritableBytes() >= len
    {
      if WritableBytes() + readIndex < len + CHEAP_PREPEND {
        Resize(writeIndex + len);
      } else {
        MoveDown();
      }
    }

    method EnsureWritableBytes(len: nat)
      requires Valid()
      modifies this, store
      ensures Valid() && (store == old(store) || fresh(store))
      ensures Contents() == old(Contents()) && WritableBytes() >= len
    {
      if WritableBytes() < len {
        MakeSpace(len);
      }
    }

    /** Copy into the writable region without moving the write index. */
    method Fill(data: bytes)
      requires Valid() && |data| <= WritableBytes()
      modifies store
      ensures Contents() == old(Contents())
      ensures store[writeIndex..writeIndex + |data|] == data
    {
      ghost var before := Contents();
      var i := 0;
      while i < |data|
        invariant 0 <= i <= |data|
        invariant store[readIndex..writeIndex] == before
        invariant store[writeIndex..writeIndex + i] == data[..i]
      {
        store[writeIndex + i] := data[i];
        assert store[writeIndex..writeIndex + i + 1] == data[..i] + [data[i]];
        i := i + 1;
      }
    }

    method Append(data: bytes)
      requires Valid()
      modifies this, store
      ensures Valid() && (store == old(store) || fresh(store))
      ensures Contents() == old(Contents()) + data
    {
      EnsureWritableBytes(|data|);
      Fill(data);
      assert store[readIndex..writeIndex + |data|] == store[readIndex..writeIndex] + store[writeIndex..writeIndex + |data|];
      writeIndex := writeIndex + |data|;
    }

    /**
     * readCore: readv puts `data` into the writable region and spills what does
     * not fit into a 64 KiB stack buffer, which is then appended.
     */
    method ReadCore(data: bytes)
      requires Valid()
      requires |data| <= ReadCapacity()
      modifies this, store
      ensures Valid() && (store == old(store) || fresh(store))
      ensures Contents() == old(Contents()) + data
    {
      var writable := WritableBytes();
      if |data| <= writable {
        Fill(data);
        assert store[readIndex..writeIndex + |data|] == store[readIndex..writeIndex] + store[writeIndex..writeIndex + |data|];
        writeIndex := writeIndex + |data|;
      } else {
        Fill(data[..writable]);
        assert store[readIndex..store.Length] == store[readIndex..writeIndex] + store[writeIndex..store.Length];
        writeIndex := store.Length;
        assert Contents() == old(Contents()) + data[..writable];
        Append(data[writable..]);
        assert data == data[..writable] + data[writable..];
      }
    }

    /** writeCore: the kernel takes the first `n` readable bytes. */
    method WriteCore(n: nat) returns (taken: bytes)
      requires Valid() && n <= ReadableBytes()
      modifies this`readIndex, this`writeIndex
      ensures Valid() && |taken| == n && taken + Contents() == old(Contents())
    {
      taken := store[readIndex..readIndex + n];
      Retrieve(n);
    }

    /** The offset of the first CRLF in the readable region, or -1. */
    method FindCRLF() returns (at: int)
      requires Valid()
      ensures -1 <= at < |Contents()| - 1 || at == -1
      ensures at >= 0 ==> CrLfAt(Contents(), at) && forall j :: 0 <= j < at ==> !CrLfAt(Contents(), j)
      ensures at < 0 ==> forall j :: 0 <= j ==> !CrLfAt(Contents(), j)
    {
      var i := 0;
      while i + 1 < ReadableBytes()
        invariant 0 <= i
        invariant forall j :: 0 <= j < i ==> !CrLfAt(Contents(), j)
      {
        if store[readIndex + i] == 0x0D && store[readIndex + i + 1] == 0x0A {
          return i;
        }
        i := i + 1;
      }
      return -1;
    }
  }

  predicate CrLfAt(s: bytes, j: int) { 0 <= j && j + 1 < |s| && s[j] == 0x0D && s[j + 1] == 0x0A }

  // ----- A byte queue -----

  datatype Op = AppendOp(data: bytes) | ReadOp(data: bytes) | RetrieveOp(len: nat) | WriteOp(len: nat)

  function Min(a: nat, b: nat): nat { if a < b then a else b }

  function Apply(queue: bytes, op: Op): bytes {
    match op
    case AppendOp(data) => queue + data
    case ReadOp(data) => queue + data
    case RetrieveOp(n) => queue[Min(n, |queue|)..]
    case WriteOp(n) => queue[Min(n, |queue|)..]
  }

  function ApplyAll(queue: bytes, ops: seq<Op>): bytes {
    if ops == [] then queue else Apply(ApplyAll(queue, ops[..|ops| - 1]), ops[|ops| - 1])
  }

  /** The operation carried out for one asked for: a read may deliver only the front of what the socket holds. */
  predicate CarriesOut(op: Op, did: Op) {
    if op.ReadOp? then did.ReadOp? && did.data <= op.data else did == op
  }

  ghost predicate AllCarriedOut(ops: seq<Op>, did: seq<Op>) {
    |did| == |ops| && forall i :: 0 <= i < |ops| ==> CarriesOut(ops[i], did[i])
  }

  /** One operation; a read takes as much as readv can hold. */
  method Do(b: Buffer, op: Op) returns (did: Op)
    requires b.Valid()
    modifies b, b.store
    ensures b.Valid() && (b.store == old(b.store) || fresh(b.store))
    ensures CarriesOut(op, did) && b.Contents() == Apply(old(b.Contents()), did)
    ensures op.ReadOp? ==> did.data == op.data[..Min(|op.data|, old(b.ReadCapacity()))]
  {
    did := op;
    match op
    case AppendOp(data) => b.Append(data);
    case ReadOp(data) =>
      did := ReadOp(data[..Min(|data|, b.ReadCapacity())]);
      b.ReadCore(did.data);
    case RetrieveOp(n) => b.Retrieve(n);
    case WriteOp(n) => var taken := b.WriteCore(Min(n, b.ReadableBytes()));
  }

  /**
   * Any sequence of operations leaves the buffer holding what a plain byte queue
   * would hold after the operations carried out, which are those asked for but
   * for reads that stop at the room there is.
   */
  method Run(b: Buffer, ops: seq<Op>) returns (did: seq<Op>)
    requires b.Valid()
    modifies b, b.store
    ensures b.Valid() && (b.store == old(b.store) || fresh(b.store))
    ensures AllCarriedOut(ops, did) && b.Contents() == ApplyAll(old(b.Contents()), did)
  {
    did := [];
    ghost var queue := b.Contents();
    for i := 0 to |ops|
      invariant b.Valid() && (b.store == old(b.store) || fresh(b.store))
      invariant AllCarriedOut(ops[..i], did) && b.Contents() == ApplyAll(queue, did)
    {
      var one := Do(b, ops[i]);
      assert (did + [one])[..|did|] == did;
      did := did + [one];
    }
    assert ops[..|ops|] == ops;
  }
}
