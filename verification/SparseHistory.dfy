/** Every history of a sparse array: its bytes are those of a flat, zero-initialised array
    to which the same operations were applied. */
module SparseHistory {
  import opened Common
  import opened Sparse

  // Blits come from another array, whose bytes are given by a function.
  datatype Op =
    | WriteOp(buf: seq<byte>, offset: nat)
    | FillOp(c: byte, count: nat, offset: nat)
    | ZeroOp(count: nat, offset: nat)
    | BlitOp(count: nat, from: nat, offset: nat)
  {
    function Length(): nat { if WriteOp? then |buf| else count }

    predicate InRange() { offset + Length() <= INT64_MAX && (BlitOp? ==> from + count <= INT64_MAX) }

    // The operation cut off after n bytes.
    function Cut(n: nat): Op
      requires n <= Length()
    {
      if WriteOp? then this.(buf := buf[..n]) else this.(count := n)
    }
  }

  // Byte x of a flat array after one more operation.
  function Byte(op: Op, source: nat -> byte, x: nat, was: byte): byte {
    if !(op.offset <= x < op.offset + op.Length()) then was
    else match op
      case WriteOp(buf, offset) => buf[x - offset]
      case FillOp(c, _, _) => c
      case ZeroOp(_, _) => 0
      case BlitOp(_, from, offset) => source(from + (x - offset))
  }

  // Byte x after a whole history: the last operation that covers it decides.
  function Flat(ops: seq<Op>, source: nat -> byte, x: nat): byte {
    if ops == [] then 0
    else Byte(ops[|ops| - 1], source, x, Flat(ops[..|ops| - 1], source, x))
  }

  // An operation on one array only.
  method ApplyHere(a: SparseArray, op: Op, ghost source: nat -> byte, memory: seq<bool>)
    returns (ok: bool, ghost done: nat, left: seq<bool>)
    requires a.Valid() && op.InRange() && !op.BlitOp?
    modifies a.Repr
    ensures a.Valid() && old(a.Repr) <= a.Repr && fresh(a.Repr - old(a.Repr))
    ensures done <= op.Length() && (ok <==> done == op.Length()) && Allocated(memory, left, ok)
    ensures forall x: nat :: a.At(x) == Byte(op.Cut(done), source, x, old(a.At(x)))
  {
    assert op.offset + op.Length() <= INT64_MAX && op.Length() == if op.WriteOp? then |op.buf| else op.count;
    NoneAllocated(memory);
    hide *;
    left := memory;
    match op {
      case WriteOp(buf, offset) =>
        ghost var tried;
        ok, tried, done, left := a.Write(buf, offset, memory);
      case FillOp(c, count, offset) => ok, done, left := a.Fill(c, count, offset, memory);
      case ZeroOp(count, offset) => ok, done := a.Zero(count, offset);
    }
    forall x: nat
      ensures a.At(x) == Byte(op.Cut(done), source, x, old(a.At(x)))
    {
      Changed(op, done, source, x, old(a.At(x)));
    }
  }

  method Apply(a: SparseArray, op: Op, src: SparseArray, ghost source: nat -> byte, memory: seq<bool>)
    returns (ok: bool, ghost done: nat, left: seq<bool>)
    requires a.Valid() && src.Valid() && src.Repr !! a.Repr && op.InRange()
    requires forall x: nat :: src.At(x) == source(x)
    modifies a.Repr
    ensures a.Valid() && old(a.Repr) <= a.Repr && fresh(a.Repr - old(a.Repr))
    ensures src.Valid() && src.Repr == old(src.Repr) && forall x: nat :: src.At(x) == source(x)
    ensures done <= op.Length() && (ok <==> done == op.Length()) && Allocated(memory, left, ok)
    ensures forall x: nat :: a.At(x) == Byte(op.Cut(done), source, x, old(a.At(x)))
  {
    assert src in src.Repr;
    hide SparseArray.Valid, SparseArray.At, Allocated;
    if op.BlitOp? {
      ok, done, left := ApplyBlit(a, op, src, source, memory);
    } else {
      ok, done, left := ApplyHere(a, op, source, memory);
    }
  }

  method ApplyBlit(a: SparseArray, op: Op, src: SparseArray, ghost source: nat -> byte, memory: seq<bool>)
    returns (ok: bool, ghost done: nat, left: seq<bool>)
    requires a.Valid() && src.Valid() && src.Repr !! a.Repr && op.InRange() && op.BlitOp?
    requires forall x: nat :: src.At(x) == source(x)
    modifies a.Repr
    ensures a.Valid() && old(a.Repr) <= a.Repr && fresh(a.Repr - old(a.Repr))
    ensures done <= op.Length() && (ok <==> done == op.Length()) && Allocated(memory, left, ok)
    ensures forall x: nat :: a.At(x) == Byte(op.Cut(done), source, x, old(a.At(x)))
  {
    hide SparseArray.Valid, SparseArray.At, Allocated;
    ok, done, left := a.Blit(src, op.count, op.from, op.offset, memory);
  }

  lemma Changed(op: Op, done: nat, source: nat -> byte, x: nat, was: byte)
    requires done <= op.Length()
    ensures op.WriteOp? ==> Patch(x, op.offset, op.buf[..done], was) == Byte(op.Cut(done), source, x, was)
    ensures op.FillOp? ==> Patch(x, op.offset, Repeat(op.c, done), was) == Byte(op.Cut(done), source, x, was)
    ensures op.ZeroOp? ==> Patch(x, op.offset, Repeat(0, done), was) == Byte(op.Cut(done), source, x, was)
  {
  }

  // What is left after a failure: the operations before it, and a part of the one that failed.
  ghost function Happened(ops: seq<Op>, n: nat, done: nat): seq<Op>
    requires n <= |ops| && (n < |ops| ==> done <= ops[n].Length())
  {
    if n == |ops| then ops else ops[..n] + [ops[n].Cut(done)]
  }

  method Replay(ops: seq<Op>, src: SparseArray, ghost source: nat -> byte, memory: seq<bool>)
    returns (a: SparseArray, ok: bool, ghost n: nat, ghost done: nat, left: seq<bool>)
    requires src.Valid() && forall k :: 0 <= k < |ops| ==> ops[k].InRange()
    requires forall x: nat :: src.At(x) == source(x)
    ensures a.Valid() && fresh(a.Repr)
    ensures n <= |ops| && (ok <==> n == |ops|) && (n < |ops| ==> done < ops[n].Length())
    ensures Allocated(memory, left, ok)
    ensures forall x: nat :: a.At(x) == Flat(Happened(ops, n, done), source, x)
  {
    assert src in src.Repr;
    a := new SparseArray();
    NoneAllocated(memory);
    hide SparseArray.Valid, SparseArray.At, Byte, Allocated;
    n, done, ok, left := 0, 0, true, memory;
    var k := 0;
    while k < |ops|
      invariant Allocated(memory, left, true)
      invariant k <= |ops| && a.Valid() && fresh(a.Repr) && src.Valid() && src.Repr !! a.Repr
      invariant forall x: nat :: src.At(x) == source(x)
      invariant forall x: nat :: a.At(x) == Flat(ops[..k], source, x)
    {
      ghost var rest := left;
      ok, done, left := Apply(a, ops[k], src, source, left);
      AllocatedThen(memory, rest, left, ok);
      ghost var prefix := ops[..k] + [ops[k].Cut(done)];
      assert prefix[..k] == ops[..k];
      assert forall x: nat :: a.At(x) == Flat(prefix, source, x);
      if !ok {
        n := k;
        return;
      }
      assert ops[k].Cut(done) == ops[k];
      assert prefix == ops[..k + 1];
      k := k + 1;
    }
    n := k;
    assert ops[..k] == ops;
  }
}
