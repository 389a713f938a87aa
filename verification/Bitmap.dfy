/** The packed bitmap: 1, 2, 4 or 8 bits per disk block, shown to behave as an array
    with one small number per block. */
module Bitmap {
  import opened Common

  // ---------- Fields of a byte ----------

  // bpb, the bits per block, and ibpb, the blocks per byte.
  datatype Width = W1 | W2 | W4 | W8
  {
    function Bits(): nat { match this case W1 => 1 case W2 => 2 case W4 => 4 case W8 => 8 }
    function PerByte(): nat { match this case W1 => 8 case W2 => 4 case W4 => 2 case W8 => 1 }
  }

  function Ones(w: Width): bv8 {
    ((1 as bv8) << w.Bits()) - 1
  }

  // BITMAP_OFFSET_BIT_MASK for slot s of a byte.
  function Mask(w: Width, s: nat): bv8
    requires s < w.PerByte()
  {
    Ones(w) << (w.Bits() * s)
  }

  function Field(b: bv8, w: Width, s: nat): bv8
    requires s < w.PerByte()
  {
    Unplaced(w, s, b & Mask(w, s))
  }

  // Clear the field, then or in the low byte of v, shifted and cut to a byte.
  function SetField(b: bv8, w: Width, s: nat, v: bv32): bv8
    requires s < w.PerByte()
  {
    (b & !Mask(w, s)) | Placed(w, s, v)
  }

  function Placed(w: Width, s: nat, v: bv32): bv8
    requires s < w.PerByte()
  {
    ((v & 0xff) as bv8) << (w.Bits() * s)
  }

  function Unplaced(w: Width, s: nat, x: bv8): bv8
    requires s < w.PerByte()
  {
    x >> (w.Bits() * s)
  }

  predicate Fits(v: bv32, w: Width) {
    v <= Ones(w) as bv32
  }

  lemma MasksApart(w: Width, s: nat, t: nat)
    requires s < w.PerByte() && t < w.PerByte() && s != t
    ensures Mask(w, s) & Mask(w, t) == 0
  {
  }

  // A value that fits stays inside the mask once shifted.
  lemma InsideMask(w: Width, s: nat, v: bv32)
    requires s < w.PerByte() && Fits(v, w)
    ensures Placed(w, s, v) & !Mask(w, s) == 0
  {
  }

  lemma OtherMask(b: bv8, m: bv8, m': bv8, x: bv8)
    requires m & m' == 0 && x & !m == 0
    ensures ((b & !m) | x) & m' == b & m'
  {
  }

  lemma SameMask(b: bv8, m: bv8, x: bv8)
    ensures ((b & !m) | x) & m == x & m
  {
  }

  lemma PlacedReads(w: Width, s: nat, v: bv32)
    requires s < w.PerByte()
    ensures Unplaced(w, s, Placed(w, s, v) & Mask(w, s)) == ((v & 0xff) as bv8) & Ones(w)
  {
  }

  lemma SetThenGet(b: bv8, w: Width, s: nat, v: bv32)
    requires s < w.PerByte()
    ensures Field(SetField(b, w, s, v), w, s) == ((v & 0xff) as bv8) & Ones(w)
  {
    hide Mask, Placed, Unplaced;
    SameMask(b, Mask(w, s), Placed(w, s, v));
    PlacedReads(w, s, v);
  }

  /** What was stored reads back exactly when it fits in the field. */
  lemma ReadsBackIffFits(b: bv8, w: Width, s: nat, v: bv32)
    requires s < w.PerByte()
    ensures Field(SetField(b, w, s, v), w, s) as bv32 == v <==> Fits(v, w)
  {
    hide Field, SetField;
    SetThenGet(b, w, s, v);
  }

  /** A value that does not fit can spoil its neighbour. */
  lemma OversizeSpoilsNeighbour()
    ensures Field(SetField(0, W1, 0, 3), W1, 1) != Field(0, W1, 1)
  {
  }

  lemma ZeroByte(w: Width, s: nat)
    requires s < w.PerByte()
    ensures Field(0, w, s) == 0
  {
  }

  lemma NonZeroByte(b: bv8, w: Width) returns (s: nat)
    requires b != 0
    ensures s < w.PerByte() && Field(b, w, s) != 0
  {
    hide Field;
    s := 0;
    while Field(b, w, s) == 0
      invariant s < w.PerByte()
      invariant forall t: nat :: t < s ==> Field(b, w, t) == 0
      decreases w.PerByte() - s
    {
      if s + 1 == w.PerByte() {
        AllFieldsZero(b, w);
      }
      s := s + 1;
    }
  }

  lemma AllFieldsZero(b: bv8, w: Width)
    requires forall t: nat :: t < w.PerByte() ==> Field(b, w, t) == 0
    ensures b == 0
  {
    match w
    case W1 =>
      assert Field(b, w, 0) == 0 && Field(b, w, 1) == 0 && Field(b, w, 2) == 0 && Field(b, w, 3) == 0;
      assert Field(b, w, 4) == 0 && Field(b, w, 5) == 0 && Field(b, w, 6) == 0 && Field(b, w, 7) == 0;
    case W2 =>
      assert Field(b, w, 0) == 0 && Field(b, w, 1) == 0 && Field(b, w, 2) == 0 && Field(b, w, 3) == 0;
    case W4 =>
      assert Field(b, w, 0) == 0 && Field(b, w, 1) == 0;
    case W8 =>
      assert Field(b, w, 0) == 0;
  }

  // The bits of v that would land outside the field.
  function Spill(w: Width, s: nat, v: bv32): bv8
    requires s < w.PerByte()
  {
    Placed(w, s, v) & !Mask(w, s)
  }

  ghost predicate KeepsOthers(w: Width, s: nat, v: bv32)
    requires s < w.PerByte()
  {
    forall b: bv8, t: nat :: t < w.PerByte() && t != s ==> Field(SetField(b, w, s, v), w, t) == Field(b, w, t)
  }

  lemma FitsWithoutSpill(w: Width, s: nat, v: bv32)
    requires s < w.PerByte() && Fits(v, w)
    ensures Spill(w, s, v) == 0
  {
    InsideMask(w, s, v);
  }

  lemma SpillFields(w: Width, s: nat, t: nat, v: bv32)
    requires s < w.PerByte() && t < w.PerByte()
    ensures Field(Spill(w, s, v), w, t) == if t == s then 0 else Field(Placed(w, s, v), w, t)
  {
    hide Mask, Placed;
    if t == s {
      NotInMask(Placed(w, s, v), Mask(w, s));
      assert Unplaced(w, s, 0) == 0;
    } else {
      MasksApart(w, s, t);
      BesideMask(Placed(w, s, v), Mask(w, s), Mask(w, t));
    }
  }

  lemma NotInMask(x: bv8, m: bv8)
    ensures (x & !m) & m == 0
  {
  }

  lemma BesideMask(x: bv8, m: bv8, m': bv8)
    requires m & m' == 0
    ensures (x & !m) & m' == x & m'
  {
  }

  /** Storing v leaves the other blocks of the byte alone, whatever they hold, exactly if no
      bit of v lands outside the field. */
  lemma KeepsOthersIff(w: Width, s: nat, v: bv32)
    requires s < w.PerByte()
    ensures KeepsOthers(w, s, v) <==> Spill(w, s, v) == 0
  {
    hide Mask, Placed, Unplaced, Field;
    if Spill(w, s, v) == 0 {
      forall b: bv8, t: nat | t < w.PerByte() && t != s
        ensures Field(SetField(b, w, s, v), w, t) == Field(b, w, t)
      {
        SetBeside(b, w, s, t, v);
      }
    }
    if KeepsOthers(w, s, v) {
      ClearedByte(Placed(w, s, v), Mask(w, s));
      forall t: nat | t < w.PerByte()
        ensures Field(Spill(w, s, v), w, t) == 0
      {
        SpillFields(w, s, t, v);
        ZeroByte(w, t);
        assert SetField(0, w, s, v) == Placed(w, s, v);
      }
      AllFieldsZero(Spill(w, s, v), w);
    }
  }

  lemma ClearedByte(x: bv8, m: bv8)
    ensures (0 & !m) | x == x
  {
  }

  lemma SetBeside(b: bv8, w: Width, s: nat, t: nat, v: bv32)
    requires s < w.PerByte() && t < w.PerByte() && s != t && Spill(w, s, v) == 0
    ensures Field(SetField(b, w, s, v), w, t) == Field(b, w, t)
  {
    hide Mask, Placed, Unplaced;
    MasksApart(w, s, t);
    OtherMask(b, Mask(w, s), Mask(w, t), Placed(w, s, v));
  }

  // ---------- The bitmap ----------

  function ByteOf(w: Width, blk: nat): nat { blk / w.PerByte() }
  function SlotOf(w: Width, blk: nat): (s: nat)
    ensures s < w.PerByte()
  {
    blk % w.PerByte()
  }

  lemma BlockAt(w: Width, i: nat, s: nat)
    requires s < w.PerByte()
    ensures ByteOf(w, i * w.PerByte() + s) == i && SlotOf(w, i * w.PerByte() + s) == s
  {
  }

  lemma BlockIs(w: Width, blk: nat)
    ensures blk == ByteOf(w, blk) * w.PerByte() + SlotOf(w, blk)
  {
  }

  lemma InRange(w: Width, blk: nat, n: nat)
    ensures ByteOf(w, blk) < n <==> blk < n * w.PerByte()
  {
  }

  lemma CeilDiv(n: nat, d: nat)
    requires d > 0
    ensures var q := (n + d - 1) / d; n <= q * d < n + d
  {
    assert n + d - 1 == (n + d - 1) / d * d + (n + d - 1) % d;
  }

  lemma MulAdds(a: nat, b: nat, d: nat)
    ensures (a + b) * d == a * d + b * d && b * d >= 0
  {
  }

  lemma MulOrder(a: nat, b: nat, d: nat)
    ensures a <= b ==> a * d <= b * d
    ensures a < b ==> a * d + d <= b * d
  {
    if a < b {
      MulAdds(a + 1, b - a - 1, d);
      MulAdds(a, 1, d);
    }
  }

  lemma MulGroups(a: nat, b: nat, c: nat)
    ensures (a * b) * c == a * (b * c)
  {
  }

  // n units are just enough for size bytes: no more than m, exactly if m are enough.
  lemma JustEnough(n: nat, m: nat, u: nat, v: nat, size: nat)
    requires size <= (n * u) * v < size + u * v
    ensures n <= m <==> size <= (m * u) * v
    ensures n == 0 <==> size == 0
  {
    MulGroups(n, u, v);
    MulGroups(m, u, v);
    MulOrder(n, m, u * v);
    MulOrder(m, n, u * v);
    MulOrder(0, n, u * v);
  }

  // The number of bytes for a disk of the given size.
  method BytesFor(w: Width, blksize: nat, size: nat) returns (n: nat)
    requires blksize > 0
    ensures size <= (n * w.PerByte()) * blksize < size + w.PerByte() * blksize
  {
    var d := blksize * 8 / w.Bits();
    assert d == blksize * w.PerByte();
    n := (size + d - 1) / d;
    CeilDiv(size, d);
    assert n * d == (n * w.PerByte()) * blksize;
  }

  class Bitmap {
    const w: Width
    const blksize: nat
    var bitmap: array<bv8>

    // bitmap_init
    constructor (blksize: nat, bpb: nat)
      requires blksize > 0 && bpb in {1, 2, 4, 8}
      ensures this.blksize == blksize && w.Bits() == bpb && Limit() == 0 && fresh(bitmap)
    {
      this.blksize := blksize;
      w := match bpb case 1 => W1 case 2 => W2 case 4 => W4 case _ => W8;
      bitmap := new bv8[0];
    }

    ghost function Limit(): nat
      reads this
    {
      bitmap.Length * w.PerByte()
    }

    // The abstract value: the number stored for a block.
    ghost function Value(blk: nat): bv8
      requires blk < Limit()
      reads this, bitmap
    {
      InRange(w, blk, bitmap.Length);
      Field(bitmap[ByteOf(w, blk)], w, SlotOf(w, blk))
    }

    // bitmap_get_blk
    method GetBlk(blk: nat, default_: bv8) returns (v: bv8)
      ensures v == if blk < Limit() then Value(blk) else default_
    {
      InRange(w, blk, bitmap.Length);
      if ByteOf(w, blk) >= bitmap.Length {
        return default_;
      }
      v := Field(bitmap[ByteOf(w, blk)], w, SlotOf(w, blk));
    }

    // bitmap_set_blk
    method SetBlk(blk: nat, v: bv32)
      modifies bitmap
      ensures blk < Limit() ==> (Value(blk) as bv32 == v <==> Fits(v, w))
      ensures Spill(w, SlotOf(w, blk), v) == 0 ==> forall k: nat :: k < Limit() && k != blk ==> Value(k) == old(Value(k))
      ensures Fits(v, w) ==> Spill(w, SlotOf(w, blk), v) == 0
      ensures forall k: nat :: k < Limit() && ByteOf(w, k) != ByteOf(w, blk) ==> Value(k) == old(Value(k))
    {
      hide Field, SetField, Spill;
      assert Fits(v, w) ==> Spill(w, SlotOf(w, blk), v) == 0 by {
        if Fits(v, w) { FitsWithoutSpill(w, SlotOf(w, blk), v); }
      }
      InRange(w, blk, bitmap.Length);
      var i, s := ByteOf(w, blk), SlotOf(w, blk);
      if i >= bitmap.Length {
        return;
      }
      ghost var b := bitmap[i];
      bitmap[i] := SetField(bitmap[i], w, s, v);
      ReadsBackIffFits(b, w, s, v);
      forall k: nat | k < Limit() && k != blk
        ensures ByteOf(w, k) != i || Spill(w, s, v) == 0 ==> Value(k) == old(Value(k))
      {
        InRange(w, k, bitmap.Length);
        BlockIs(w, k);
        BlockIs(w, blk);
        if ByteOf(w, k) == i && Spill(w, s, v) == 0 {
          SetBeside(b, w, s, SlotOf(w, k), v);
        }
      }
    }

    // bitmap_resize, on a machine that can address sizeMax bytes; realloc tells whether
    // the memory is there.
    method Resize(newSize: nat, sizeMax: nat, realloc: bool) returns (ok: bool)
      requires newSize <= INT64_MAX && blksize > 0
      modifies this
      ensures ok <==> newSize <= (sizeMax * w.PerByte()) * blksize && (newSize == 0 || realloc)
      ensures !ok ==> bitmap == old(bitmap)
      ensures ok ==> fresh(bitmap) && newSize <= Limit() * blksize < newSize + w.PerByte() * blksize
      ensures ok ==> forall i :: 0 <= i < bitmap.Length ==>
                       bitmap[i] == if i < old(bitmap.Length) then old(bitmap[i]) else 0
      ensures ok ==> forall k: nat :: k < Limit() ==> Value(k) == if k < old(Limit()) then old(Value(k)) else 0
    {
      hide Field;
      var n := BytesFor(w, blksize, newSize);
      JustEnough(n, sizeMax, w.PerByte(), blksize, newSize);
      if n > sizeMax {
        return false;
      }
      ok := n == 0 || realloc;
      if !ok {
        return;
      }
      var grown := new bv8[n];
      var keep := Min(n, bitmap.Length);
      forall i | 0 <= i < n {
        grown[i] := if i < keep then bitmap[i] else 0;
      }
      ghost var before := bitmap;
      bitmap := grown;
      forall k: nat | k < Limit() ensures Value(k) == if k < old(Limit()) then old(Value(k)) else 0 {
        InRange(w, k, n);
        InRange(w, k, before.Length);
        ZeroByte(w, SlotOf(w, k));
      }
    }

    ghost predicate ZeroBlocks(from: nat, to: nat)
      requires to <= Limit()
      reads this, bitmap
    {
      forall k: nat :: from <= k < to ==> Value(k) == 0
    }

    // Step block by block to the first one that is not zero or starts a byte.
    method Scan(from: nat) returns (blk: nat, found: bool)
      requires from <= Limit()
      ensures from <= blk <= Limit() && ZeroBlocks(from, blk)
      ensures if found then blk < Limit() && Value(blk) != 0 else blk == Limit() || blk % w.PerByte() == 0
    {
      hide Field;
      var limit := bitmap.Length * w.PerByte();
      blk := from;
      while blk < limit && blk % w.PerByte() != 0
        invariant from <= blk <= limit && ZeroBlocks(from, blk)
      {
        var v := GetBlk(blk, 0);
        if v != 0 {
          return blk, true;
        }
        blk := blk + 1;
      }
      found := false;
    }

    lemma ZeroByteBlocks(i: nat)
      requires i < bitmap.Length && bitmap[i] == 0
      ensures (i + 1) * w.PerByte() <= Limit() && ZeroBlocks(i * w.PerByte(), (i + 1) * w.PerByte())
    {
      InRange(w, i * w.PerByte() + w.PerByte() - 1, bitmap.Length);
      BlockAt(w, i, w.PerByte() - 1);
      forall k: nat | i * w.PerByte() <= k < (i + 1) * w.PerByte() ensures Value(k) == 0 {
        BlockAt(w, i, k - i * w.PerByte());
        ZeroByte(w, SlotOf(w, k));
      }
    }

    // next_non_zero from byte start on.
    method NextNonZero(start: nat) returns (i: nat)
      requires start <= bitmap.Length
      ensures start <= i <= bitmap.Length && i * w.PerByte() <= Limit()
      ensures ZeroBlocks(start * w.PerByte(), i * w.PerByte())
      ensures i < bitmap.Length ==> bitmap[i] != 0
    {
      hide Field;
      i := start;
      while i < bitmap.Length && bitmap[i] == 0
        invariant start <= i <= bitmap.Length && i * w.PerByte() <= Limit()
        invariant ZeroBlocks(start * w.PerByte(), i * w.PerByte())
      {
        ZeroByteBlocks(i);
        i := i + 1;
      }
    }

    // A byte that is not zero has a block that is not.
    lemma SomeBlock(i: nat) returns (k: nat)
      requires i < bitmap.Length && bitmap[i] != 0
      ensures i * w.PerByte() <= k < Limit() && Value(k) != 0
    {
      var s := NonZeroByte(bitmap[i], w);
      BlockAt(w, i, s);
      k := i * w.PerByte() + s;
      InRange(w, k, bitmap.Length);
    }

    lemma ZeroJoin(a: nat, b: nat, c: nat)
      requires a <= b <= c <= Limit() && ZeroBlocks(a, b) && ZeroBlocks(b, c)
      ensures ZeroBlocks(a, c)
    {
    }

    // The last loop of bitmap_next, which ends because some block is not zero.
    method Find(start: nat, ghost found: nat) returns (blk: nat)
      requires start <= found < Limit() && Value(found) != 0
      ensures start <= blk < Limit() && Value(blk) != 0 && ZeroBlocks(start, blk)
    {
      hide Field;
      blk := start;
      var limit := bitmap.Length * w.PerByte();
      while blk < limit
        invariant start <= blk <= found
        invariant ZeroBlocks(start, blk)
      {
        var v := GetBlk(blk, 0);
        if v != 0 {
          return;
        }
        blk := blk + 1;
      }
      assert false; // the abort is never reached
    }

    // bitmap_next
    method Next(from: nat) returns (r: int)
      requires from <= Limit()
      ensures r == -1 || (from <= r < Limit() && Value(r) != 0)
      ensures ZeroBlocks(from, if r == -1 then Limit() else r)
    {
      var limit := bitmap.Length * w.PerByte();
      assert limit == Limit();
      hide Bitmap.ZeroBlocks, Bitmap.Value, Bitmap.Limit, Field;
      var blk, hit := Scan(from);
      if hit {
        return blk;
      }
      if blk == limit {
        return -1;
      }
      BlockIs(w, blk);
      InRange(w, blk, bitmap.Length);
      var i := NextNonZero(blk / w.PerByte());
      if i == bitmap.Length {
        ZeroJoin(from, blk, limit);
        return -1;
      }
      ghost var found := SomeBlock(i);
      ZeroJoin(from, blk, i * w.PerByte());
      r := Find(i * w.PerByte(), found);
      ZeroJoin(from, i * w.PerByte(), r);
    }
  }
}
