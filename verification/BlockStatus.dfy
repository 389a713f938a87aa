/** Block status end to end: the extents of a sparse array, turned into the block
    descriptors that a client receives. */
module BlockStatus {
  import opened Common
  import opened ZeroBuffer
  import opened Sparse
  import opened Extents
  import opened ExtentQuery

  // ---------- sparse_array_extents ----------

  ghost predicate ZeroRange(sa: SparseArray, from: nat, to: nat)
    requires sa.Valid()
    reads sa, sa.Repr
  {
    forall x: nat :: from <= x < to ==> sa.At(x) == 0
  }

  // What a query at offset reports for the bytes of page k: a hole when the page is
  // not mapped, zeroes when the part of the page from offset on is all zero.
  ghost function PageType(sa: SparseArray, offset: nat, k: nat): bv32
    requires sa.Valid()
    reads sa, sa.Repr
  {
    if sa.PageAt(k) == null then HOLE | ZERO
    else if ZeroRange(sa, if offset < k * SPARSE_PAGE then k * SPARSE_PAGE else offset, (k + 1) * SPARSE_PAGE) then ZERO
    else 0
  }

  // ty is what a query at offset reports for every byte.
  ghost predicate ReportedBy(sa: SparseArray, offset: nat, ty: nat -> bv32)
    requires sa.Valid()
    reads sa, sa.Repr
  {
    forall x: nat :: ty(x) == PageType(sa, offset, x / SPARSE_PAGE)
  }

  // There is such a ty.
  ghost function Reported(sa: SparseArray, offset: nat): (ty: nat -> bv32)
    requires sa.Valid()
    reads sa, sa.Repr
    ensures ReportedBy(sa, offset, ty)
  {
    var types := imap x: nat :: PageType(sa, offset, x / SPARSE_PAGE);
    (x: nat) => if x in types then types[x] else 0
  }

  /** Nothing reported as a hole or as zeroes holds data, and every hole is zeroes. */
  lemma TypesAreSound(sa: SparseArray, offset: nat, ty: nat -> bv32, x: nat)
    requires sa.Valid() && ReportedBy(sa, offset, ty) && offset <= x
    ensures (ty(x) & 3 != 0 ==> sa.At(x) == 0) && (ty(x) & HOLE != 0 ==> ty(x) & ZERO != 0)
  {
    var k := x / SPARSE_PAGE;
    assert k * SPARSE_PAGE <= x < (k + 1) * SPARSE_PAGE;
  }

  lemma UniformInPage(sa: SparseArray, start: nat, ty: nat -> bv32, offset: nat)
    requires sa.Valid() && ReportedBy(sa, start, ty)
    ensures Uniform(ty, offset, SPARSE_PAGE - offset % SPARSE_PAGE, PageType(sa, start, offset / SPARSE_PAGE))
  {
    forall x: nat | offset <= x < offset + SPARSE_PAGE - offset % SPARSE_PAGE
      ensures ty(x) == PageType(sa, start, offset / SPARSE_PAGE)
    {
      assert x / SPARSE_PAGE == offset / SPARSE_PAGE;
    }
  }

  // The type of the bytes from offset to the end of its page.  The query started at
  // start, and offset is either there or the first byte of page k.
  method TypeHere(sa: SparseArray, ghost start: nat, ghost k: nat, offset: nat) returns (n: nat, typ: bv32)
    requires sa.Valid() && start <= offset && (offset == start || offset == k * SPARSE_PAGE) && k == offset / SPARSE_PAGE
    ensures n == SPARSE_PAGE - offset % SPARSE_PAGE
    ensures typ == PageType(sa, start, k)
  {
    var p, rest, dir, slot, entry := sa.Lookup(offset);
    n := rest;
    if p == null {
      typ := HOLE | ZERO;
    } else {
      sa.PageHome(k);
      var pos := offset % SPARSE_PAGE;
      var zero := IsZero(p, pos, n);
      ZeroSlice(sa, k, p, offset, n);
      typ := if zero then ZERO else 0;
    }
  }

  // The rest of a mapped page is zero just when that slice of it is.
  lemma ZeroSlice(sa: SparseArray, k: nat, p: array<byte>, offset: nat, n: nat)
    requires sa.Valid() && k == offset / SPARSE_PAGE && p == sa.PageAt(k) && p.Length == SPARSE_PAGE
    requires n == SPARSE_PAGE - offset % SPARSE_PAGE
    ensures offset + n == (k + 1) * SPARSE_PAGE
    ensures var pos := offset % SPARSE_PAGE;
            AllZero(p[pos..pos + n]) <==> ZeroRange(sa, offset, (k + 1) * SPARSE_PAGE)
  {
    var pos := offset % SPARSE_PAGE;
    var s := p[pos..pos + n];
    forall x: nat | offset <= x < offset + n ensures sa.At(x) == s[x - offset] {
      assert x / SPARSE_PAGE == k && x % SPARSE_PAGE == pos + (x - offset);
    }
    if i :| 0 <= i < |s| && s[i] != 0 {
      assert sa.At(offset + i) != 0;
    }
  }

  method ClassifyPage(sa: SparseArray, ghost ty: nat -> bv32, ghost start: nat, ghost k: nat, offset: nat) returns (n: nat, typ: bv32)
    requires sa.Valid() && start <= offset && (offset == start || offset == k * SPARSE_PAGE) && k == offset / SPARSE_PAGE
    requires ReportedBy(sa, start, ty)
    ensures 0 < n <= SPARSE_PAGE && offset + n == (k + 1) * SPARSE_PAGE
    ensures Uniform(ty, offset, n, typ)
  {
    n, typ := TypeHere(sa, start, k, offset);
    UniformInPage(sa, start, ty, offset);
  }

  // The list covers the range up to pos exactly, or less if it is full.
  ghost predicate Covered(xs: seq<Extent>, start: nat, end: nat, pos: nat) {
    && EndOf(xs, start) <= Min(pos, end)
    && (EndOf(xs, start) == Min(pos, end) || |xs| == MAX_EXTENTS)
  }

  // The end of the page that holds the byte before x.
  ghost function PageEnd(x: nat): nat {
    (x + SPARSE_PAGE - 1) / SPARSE_PAGE * SPARSE_PAGE
  }

  // The list stands at pos: it can be continued there and covers what comes before.
  ghost predicate Standing(s: State, ty: nat -> bv32, pos: nat) {
    && Good(s, ty) && s.start <= pos && s.next == (if pos == s.start then -1 else pos)
    && Covered(s.extents, s.start, s.end, pos)
  }

  // Reporting the next n bytes never fails.  Only the last report can reach past
  // INT64_MAX, to the end of its page, and then only next is spoiled.
  lemma ReportRound(s: State, ty: nat -> bv32, pos: nat, n: nat, typ: bv32)
    requires Standing(s, ty, pos) && n > 0 && pos + n < UINT64_RANGE && Uniform(ty, pos, n, typ)
    ensures var (s', ok) := Add(s, pos, n, typ);
            && ok && s'.start == s.start && s'.end == s.end
            && Covered(s'.extents, s.start, s.end, pos + n)
            && GoodRuns(s'.extents, s.start, s.end, ty)
            && (pos + n <= INT64_MAX ==> Standing(s', ty, pos + n))
  {
    if pos + n <= INT64_MAX {
      AddKeepsGood(s, pos, n, typ, ty);
    } else {
      OverlongKeepsRuns(s, pos, n, typ, ty);
    }
  }

  method SparseExtents(sa: SparseArray, ghost ty: nat -> bv32, count: nat, offset: nat, exts: ExtentList)
    requires sa.Valid() && exts !in sa.Repr && offset + count <= INT64_MAX
    requires exts.View() == New(offset, exts.end) && ValidRange(offset, exts.end)
    requires ReportedBy(sa, offset, ty)
    modifies exts
    ensures GoodRuns(exts.extents, offset, exts.end, ty)
    ensures Covered(exts.extents, offset, exts.end, if count == 0 then offset else PageEnd(offset + count))
  {
    var pos := offset;
    ghost var k: nat := offset / SPARSE_PAGE;
    while pos < offset + count
      invariant offset <= pos && (pos == offset || pos == k * SPARSE_PAGE) && k == pos / SPARSE_PAGE
      invariant pos > offset ==> count > 0 && pos < offset + count + SPARSE_PAGE
      invariant if pos < offset + count then Standing(exts.View(), ty, pos)
                else GoodRuns(exts.extents, offset, exts.end, ty) && Covered(exts.extents, offset, exts.end, pos)
    {
      var n, typ := ClassifyPage(sa, ty, offset, k, pos);
      ReportRound(exts.View(), ty, pos, n, typ);
      var ok := exts.AddExtent(pos, n, typ);
      assert ok; // so the error return after nbdkit_add_extent is dead
      pos, k := pos + n, k + 1;
    }
    if count > 0 {
      PageEndIs(offset + count, k);
    }
  }

  lemma PageEndIs(x: nat, k: nat)
    requires x <= k * SPARSE_PAGE < x + SPARSE_PAGE
    ensures PageEnd(x) == k * SPARSE_PAGE
  {
  }

  // ---------- extents_to_block_descriptors ----------

  // struct nbd_block_descriptor_32
  datatype Block = Block(length: nat, flags: bv32)

  /** The in-code assertion that every extent but the last fits in a descriptor holds
      exactly under this condition on the request and the first extent. */
  predicate FitsDescriptors(xs: seq<Extent>, reqOne: bool, count: nat)
    requires xs != []
  {
    reqOne || count < UINT32_MAX || xs[0].length <= UINT32_MAX
  }

  lemma FitsIff(xs: seq<Extent>, reqOne: bool, count: nat)
    requires xs != []
    ensures FitsDescriptors(xs, reqOne, count) <==> reqOne || count < UINT32_MAX || xs[0].length <= UINT32_MAX
  {
  }

  // Descriptor i stands for the front of extent i, and for all of it unless it is
  // the last one, which is the first to reach past the request.
  ghost predicate Describe(bs: seq<Block>, xs: seq<Extent>, count: nat, offset: nat) {
    && 1 <= |bs| <= |xs|
    && (forall i :: 0 <= i < |bs| ==>
          bs[i].length == Min(xs[i].length, UINT32_MAX) && bs[i].flags == xs[i].typ & 3)
    && (forall i :: 0 <= i < |bs| - 1 ==>
          xs[i].length <= UINT32_MAX && xs[i].End() <= offset + count)
    && (|bs| == |xs| || xs[|bs| - 1].offset + bs[|bs| - 1].length > offset + count)
  }

  // The in-code assertion fails when ok is false.
  method ToBlockDescriptors(xs: seq<Extent>, reqOne: bool, count: nat, offset: nat) returns (ok: bool, blocks: array<Block>, nr: nat)
    requires xs != [] && Contiguous(xs, offset) && 0 < count <= UINT32_MAX
    ensures ok <==> FitsDescriptors(xs, reqOne, count)
    ensures nr <= blocks.Length
    ensures ok && reqOne ==> blocks[..nr] == [Block(Min(xs[0].length, count), xs[0].typ & 3)]
    ensures ok && !reqOne ==> Describe(blocks[..nr], xs, count, offset)
  {
    blocks := new Block[if reqOne then 1 else |xs|](_ => Block(0, 0));
    nr := 0;
    if reqOne {
      nr := 1;
      blocks[0] := Block(Min(xs[0].length, count), xs[0].typ & 3);
      return true, blocks, nr;
    }
    var pos := offset;
    for i := 0 to |xs|
      invariant nr == i && blocks.Length == |xs|
      invariant i < |xs| ==> pos == xs[i].offset
      invariant i > 0 ==> offset < pos && FitsDescriptors(xs, reqOne, count)
      invariant forall j :: 0 <= j < i ==>
                  blocks[j].length == Min(xs[j].length, UINT32_MAX) && blocks[j].flags == xs[j].typ & 3
      invariant forall j :: 0 <= j < i ==> xs[j].length <= UINT32_MAX && xs[j].End() <= offset + count
    {
      var length := Min(xs[i].length, UINT32_MAX);
      blocks[i] := Block(length, xs[i].typ & 3);
      nr := nr + 1;
      pos := pos + length;
      if pos > offset + count {
        return true, blocks, nr;
      }
      if xs[i].length > length {
        return false, blocks, nr; // protocol.c:511
      }
    }
    return true, blocks, nr;
  }

  // Where descriptor j starts, as the client counts it.
  ghost function StartOf(bs: seq<Block>, offset: nat, j: nat): nat
    requires j <= |bs|
  {
    if j == 0 then offset else StartOf(bs, offset, j - 1) + bs[j - 1].length
  }

  // Descriptors follow on from the offset of the request without gaps.
  lemma {:induction false} StartsMatch(bs: seq<Block>, xs: seq<Extent>, count: nat, offset: nat, j: nat)
    requires Describe(bs, xs, count, offset) && Contiguous(xs, offset) && j < |bs|
    ensures StartOf(bs, offset, j) == xs[j].offset <= offset + count
    decreases j
  {
    if j > 0 {
      StartsMatch(bs, xs, count, offset, j - 1);
    }
  }

  // Of the bytes from offset to end, more than 32 bits can count have one type.
  ghost predicate LongRun(ty: nat -> bv32, offset: nat, end: nat) {
    offset + UINT32_MAX < end && Uniform(ty, offset, UINT32_MAX + 1, ty(offset))
  }

  /** What that condition means for the disk. */
  lemma FirstIsLong(xs: seq<Extent>, ty: nat -> bv32, offset: nat, end: nat, to: nat)
    requires xs != [] && Canonical(xs, ty, offset, EndOf(xs, offset)) && Covered(xs, offset, end, to)
    ensures xs[0].length > UINT32_MAX <==> LongRun(ty, offset, Min(to, end))
  {
    assert Uniform(ty, offset, xs[0].length, xs[0].typ) && ty(offset) == xs[0].typ;
    if xs[0].length > UINT32_MAX {
      if |xs| > 1 {
        ContiguousOrder(xs, offset, 0, |xs| - 1);
      }
    } else if |xs| > 1 {
      assert Uniform(ty, xs[1].offset, xs[1].length, xs[1].typ) && ty(xs[1].offset) == xs[1].typ;
    }
  }

  // Every byte of block j has the type that the block claims.
  ghost predicate TypedBlock(bs: seq<Block>, ty: nat -> bv32, offset: nat, j: nat)
    requires j < |bs|
  {
    forall x: nat :: StartOf(bs, offset, j) <= x < StartOf(bs, offset, j) + bs[j].length ==> bs[j].flags == ty(x) & 3
  }

  /** A reply: blocks that follow on from offset, each truthful and not empty, that
      start inside the request and, unless the list was cut, reach its end. */
  ghost predicate TypedReply(bs: seq<Block>, ty: nat -> bv32, reqOne: bool, count: nat, offset: nat, cut: bool) {
    && bs != []
    && (forall j :: 0 <= j < |bs| ==> TypedBlock(bs, ty, offset, j) && 0 < bs[j].length <= UINT32_MAX)
    && StartOf(bs, offset, |bs| - 1) <= offset + count
    && (if reqOne then |bs| == 1 && bs[0].length <= count
        else offset + count <= StartOf(bs, offset, |bs|) || cut)
  }

  lemma OneIsTyped(xs: seq<Extent>, ty: nat -> bv32, b: Block, count: nat, offset: nat, cut: bool)
    requires xs != [] && Contiguous(xs, offset) && Describes(xs, ty) && 0 < count <= UINT32_MAX
    requires b == Block(Min(xs[0].length, count), xs[0].typ & 3)
    ensures TypedReply([b], ty, true, count, offset, cut)
  {
    assert Uniform(ty, xs[0].offset, xs[0].length, xs[0].typ);
  }

  // The blocks say something about every byte asked for, unless the list was cut.
  lemma BlocksCover(xs: seq<Extent>, bs: seq<Block>, count: nat, offset: nat)
    requires Contiguous(xs, offset) && Describe(bs, xs, count, offset) && count <= UINT32_MAX
    requires FitsDescriptors(xs, false, count) && offset + count <= EndOf(xs, offset)
    ensures offset + count <= StartOf(bs, offset, |bs|)
  {
    var last := |bs| - 1;
    StartsMatch(bs, xs, count, offset, last);
    if last > 0 {
      ContiguousOrder(xs, offset, 0, last);
    }
  }

  lemma ManyAreTyped(xs: seq<Extent>, ty: nat -> bv32, bs: seq<Block>, count: nat, offset: nat)
    requires Contiguous(xs, offset) && Describes(xs, ty) && Describe(bs, xs, count, offset)
    requires 0 < count <= UINT32_MAX && FitsDescriptors(xs, false, count)
    requires offset + count <= EndOf(xs, offset) || |xs| == MAX_EXTENTS
    ensures TypedReply(bs, ty, false, count, offset, |xs| == MAX_EXTENTS)
  {
    forall j | 0 <= j < |bs| ensures TypedBlock(bs, ty, offset, j) && 0 < bs[j].length <= UINT32_MAX {
      StartsMatch(bs, xs, count, offset, j);
      assert Uniform(ty, xs[j].offset, xs[j].length, xs[j].typ);
    }
    StartsMatch(bs, xs, count, offset, |bs| - 1);
    if offset + count <= EndOf(xs, offset) {
      BlocksCover(xs, bs, count, offset);
    }
  }

  // Extents and descriptors together: what a reply says about a truthful list.
  method Reply(xs: seq<Extent>, ghost ty: nat -> bv32, reqOne: bool, count: nat, offset: nat)
    returns (ok: bool, blocks: array<Block>, nr: nat)
    requires xs != [] && Contiguous(xs, offset) && Describes(xs, ty) && 0 < count <= UINT32_MAX
    requires offset + count <= EndOf(xs, offset) || |xs| == MAX_EXTENTS
    ensures nr <= blocks.Length
    ensures ok <==> FitsDescriptors(xs, reqOne, count)
    ensures ok ==> TypedReply(blocks[..nr], ty, reqOne, count, offset, |xs| == MAX_EXTENTS)
  {
    ok, blocks, nr := ToBlockDescriptors(xs, reqOne, count, offset);
    if ok && reqOne {
      OneIsTyped(xs, ty, blocks[..nr][0], count, offset, |xs| == MAX_EXTENTS);
    } else if ok {
      ManyAreTyped(xs, ty, blocks[..nr], count, offset);
    }
  }

  // ---------- End to end ----------

  lemma {:induction false} StartsAfter(bs: seq<Block>, offset: nat, j: nat)
    requires j <= |bs|
    ensures offset <= StartOf(bs, offset, j)
  {
    if j > 0 {
      StartsAfter(bs, offset, j - 1);
    }
  }

  /** Every byte of a block flagged as a hole or as zero reads as zero. */
  lemma FlaggedReadsZero(sa: SparseArray, ty: nat -> bv32, bs: seq<Block>, offset: nat, j: nat, x: nat)
    requires sa.Valid() && ReportedBy(sa, offset, ty) && j < |bs| && TypedBlock(bs, ty, offset, j)
    requires StartOf(bs, offset, j) <= x < StartOf(bs, offset, j) + bs[j].length && bs[j].flags != 0
    ensures sa.At(x) == 0
  {
    StartsAfter(bs, offset, j);
    TypesAreSound(sa, offset, ty, x);
  }

  // Every byte of a block with a flag reads as zero.
  ghost predicate FlagsAreTrue(sa: SparseArray, bs: seq<Block>, offset: nat)
    requires sa.Valid()
    reads sa, sa.Repr
  {
    forall j, x: nat ::
      0 <= j < |bs| && bs[j].flags != 0 && StartOf(bs, offset, j) <= x < StartOf(bs, offset, j) + bs[j].length ==>
        sa.At(x) == 0
  }

  lemma FlaggedBlocks(sa: SparseArray, ty: nat -> bv32, bs: seq<Block>, reqOne: bool, count: nat, offset: nat, cut: bool)
    requires sa.Valid() && ReportedBy(sa, offset, ty) && TypedReply(bs, ty, reqOne, count, offset, cut)
    ensures FlagsAreTrue(sa, bs, offset)
  {
    hide ReportedBy, StartOf, SparseArray.At, SparseArray.Valid;
    forall j, x: nat | 0 <= j < |bs| && bs[j].flags != 0 && StartOf(bs, offset, j) <= x < StartOf(bs, offset, j) + bs[j].length
      ensures sa.At(x) == 0
    {
      FlaggedReadsZero(sa, ty, bs, offset, j, x);
    }
  }

  // The extents of a query, as the server gets them for its reply.
  method QueryExtents(sa: SparseArray, ghost ty: nat -> bv32, size: nat, count: nat, offset: nat) returns (xs: seq<Extent>)
    requires sa.Valid() && ReportedBy(sa, offset, ty)
    requires size <= INT64_MAX && 0 < count && offset + count <= size
    ensures xs != [] && Contiguous(xs, offset) && Describes(xs, ty)
    ensures offset + count <= EndOf(xs, offset) || |xs| == MAX_EXTENTS
    ensures xs[0].length > UINT32_MAX <==> LongRun(ty, offset, Min(PageEnd(offset + count), size))
  {
    hide ReportedBy, LongRun, SparseArray.At, SparseArray.Valid;
    var exts := new ExtentList(offset, size);
    SparseExtents(sa, ty, count, offset, exts);
    xs := exts.extents;
    FirstIsLong(xs, ty, offset, size, PageEnd(offset + count));
  }

  /** NBD_CMD_BLOCK_STATUS on a sparse array export of the given size: whenever the in-code
      assertion holds, the reply has the types of the pages, and flagged bytes read as zero. */
  method SparseBlockStatus(sa: SparseArray, size: nat, reqOne: bool, count: nat, offset: nat)
    returns (ok: bool, xs: seq<Extent>, blocks: array<Block>, nr: nat, ghost ty: nat -> bv32)
    requires sa.Valid()
    requires size <= INT64_MAX && 0 < count <= UINT32_MAX && offset + count <= size
    ensures xs != [] && (ok <==> FitsDescriptors(xs, reqOne, count))
    ensures ReportedBy(sa, offset, ty)
    ensures ok <==> reqOne || count < UINT32_MAX || !LongRun(ty, offset, Min(PageEnd(offset + count), size))
    ensures ok ==> nr <= blocks.Length && TypedReply(blocks[..nr], ty, reqOne, count, offset, |xs| == MAX_EXTENTS)
    ensures ok ==> FlagsAreTrue(sa, blocks[..nr], offset)
  {
    ty := Reported(sa, offset);
    hide *;
    xs := QueryExtents(sa, ty, size, count, offset);
    FitsIff(xs, reqOne, count);
    ok, blocks, nr := Reply(xs, ty, reqOne, count, offset);
    if ok {
      FlaggedBlocks(sa, ty, blocks[..nr], reqOne, count, offset, |xs| == MAX_EXTENTS);
    }
  }

  /** A new array of 4 GiB, asked for the status of all of it but the last byte, hits the
      failing assertion. */
  method LargestCountFails() returns (ok: bool)
    ensures !ok
  {
    hide SparseArray.Valid, SparseArray.At, SparseArray.PageAt, ReportedBy, LongRun, TypedReply, FlagsAreTrue, PageEnd;
    var sa := new SparseArray();
    ghost var ty;
    var xs, blocks, nr;
    ok, xs, blocks, nr, ty := SparseBlockStatus(sa, UINT32_MAX + 1, false, UINT32_MAX, 0);
    NewIsLong(sa, ty);
  }

  lemma NewIsLong(sa: SparseArray, ty: nat -> bv32)
    requires sa.Valid() && ReportedBy(sa, 0, ty) && forall k: nat :: sa.PageAt(k) == null
    ensures LongRun(ty, 0, Min(PageEnd(UINT32_MAX), UINT32_MAX + 1))
  {
    hide SparseArray.Valid, SparseArray.At, SparseArray.PageAt;
    assert forall x: nat :: ty(x) == PageType(sa, 0, x / SPARSE_PAGE) == HOLE | ZERO;
  }
}
