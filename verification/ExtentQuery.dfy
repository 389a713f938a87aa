/** The mutable extent list and the two helpers that filters use to query the layer
    below: complete coverage of a range, and coverage rounded to an alignment. */
module ExtentQuery {
  import opened Common
  import opened Extents

  // struct nbdkit_extents
  class ExtentList {
    var extents: seq<Extent>
    const start: nat
    const end: nat
    var next: int

    ghost function View(): State
      reads this
    {
      State(extents, start, end, next)
    }

    constructor (start: nat, end: nat)
      ensures View() == New(start, end)
    {
      this.extents, this.start, this.end, this.next := [], start, end, -1;
    }

    // nbdkit_add_extent
    method AddExtent(offset: nat, length: nat, typ: bv32) returns (ok: bool)
      requires offset < UINT64_RANGE && length < UINT64_RANGE
      modifies this
      ensures (View(), ok) == Add(old(View()), offset, length, typ)
    {
      if next >= 0 && next != offset {
        return false;
      }
      var sum := AddU64(offset, length);
      next := AsInt64(sum);
      if length == 0 {
        return true;
      }
      if offset >= end || |extents| >= MAX_EXTENTS {
        return true;
      }
      var offset, length := offset, length;
      if sum > end {
        length := length - (sum - end);
      }
      if |extents| == 0 {
        if AddU64(offset, length) <= start {
          return true;
        }
        if offset > start {
          return false;
        }
        var overlap := start - offset;
        length := length - overlap;
        offset := offset + overlap;
      }
      AppendOrExtend(offset, length, typ);
      return true;
    }

    method AppendOrExtend(offset: nat, length: nat, typ: bv32)
      modifies this`extents
      ensures extents == Coalesce(old(extents), offset, length, typ)
    {
      var n := |extents|;
      if n > 0 && extents[n - 1].typ == typ {
        extents := extents[..n - 1] + [extents[n - 1].(length := WrapU64(extents[n - 1].length + length))];
      } else {
        extents := extents + [Extent(offset, length, typ)];
      }
    }
  }

  // nbdkit_extents_new: null when the range is not one.
  method NewExtents(start: nat, end: nat) returns (r: ExtentList?)
    ensures r == null <==> !ValidRange(start, end)
    ensures r != null ==> fresh(r) && r.View() == New(start, end)
  {
    if start > INT64_MAX || end > INT64_MAX {
      return null;
    }
    if start > end {
      return null;
    }
    r := new ExtentList(start, end);
  }

  // ---------- The layer below ----------

  // What one .extents call of the layer below does: fail, or make these calls of
  // nbdkit_add_extent.
  datatype Answer = Fails | Reports(calls: seq<Call>)

  class Layer {
    const size: nat
    // The type of every byte of the export.
    ghost const ty: nat -> bv32
    // The answers still to come, in order.
    var script: seq<Answer>
    var failed: bool
    // The lists that it has filled in.
    ghost var answers: seq<seq<Extent>>

    // Every answer reports true types, in any pieces and starting anywhere.
    ghost predicate Truthful()
      reads this
    {
      && size <= INT64_MAX
      && forall i, j :: 0 <= i < |script| && script[i].Reports? && 0 <= j < |script[i].calls| ==>
           var c := script[i].calls[j]; Honest(c) && Uniform(ty, c.offset, c.length, c.typ)
    }

    // backend_extents into an empty list.  Like plugin_extents it turns an empty
    // answer into an error; it ignores failures of nbdkit_add_extent.
    method Extents(count: nat, offset: nat, exts: ExtentList) returns (ok: bool)
      requires Truthful()
      requires 0 < count && offset + count <= size
      requires exts.extents == [] && exts.next == -1 && ValidRange(exts.start, exts.end)
      modifies this`script, this`failed, this`answers, exts
      ensures Truthful() && |script| <= old(|script|) && old(answers) <= answers
      ensures if ok then exts.extents != [] && Good(exts.View(), ty) && failed == old(failed) && answers == old(answers) + [exts.extents]
              else failed
    {
      if script == [] || script[0].Fails? {
        script := if script == [] then [] else script[1..];
        failed := true;
        return false;
      }
      var calls := script[0].calls;
      for i := 0 to |calls|
        invariant Good(exts.View(), ty)
        modifies exts
      {
        assert Honest(calls[i]) && Uniform(ty, calls[i].offset, calls[i].length, calls[i].typ);
        AddKeepsGood(exts.View(), calls[i].offset, calls[i].length, calls[i].typ, ty);
        var _ := exts.AddExtent(calls[i].offset, calls[i].length, calls[i].typ);
      }
      script := script[1..];
      ok := exts.extents != [];
      failed := failed || !ok;
      answers := answers + [exts.extents];
    }
  }

  // ---------- nbdkit_extents_full ----------

  // The list built so far covers [start, off) and is to be continued at off.
  ghost predicate Upto(s: State, ty: nat -> bv32, off: nat) {
    && Good(s, ty)
    && s.start <= off <= s.end
    && (if off == s.start then s == New(s.start, s.end) else s.next == off)
    && (EndOf(s.extents, s.start) == off || |s.extents| == MAX_EXTENTS)
  }

  lemma UptoStep(s: State, ty: nat -> bv32, off: nat, e: Extent)
    requires Upto(s, ty, off) && e.offset == off && 0 < e.length && e.End() <= s.end
    requires Uniform(ty, e.offset, e.length, e.typ)
    ensures var (s', ok) := Add(s, e.offset, e.length, e.typ);
            ok && Upto(s', ty, e.End()) && s'.start == s.start && s'.end == s.end
  {
    AddKeepsGood(s, e.offset, e.length, e.typ, ty);
  }

  // The inner loop: append one answer, which starts where ret stops.
  method Stitch(ghost ty: nat -> bv32, ret: ExtentList, t: ExtentList) returns (off: nat)
    requires t != ret && t.extents != [] && t.start < t.end == ret.end
    requires Upto(ret.View(), ty, t.start) && Good(t.View(), ty)
    modifies ret
    ensures t.start < off <= t.end && Upto(ret.View(), ty, off)
  {
    off := t.start;
    var left := t.end - t.start;
    for i := 0 to |t.extents|
      invariant off == (if i == 0 then t.start else t.extents[i - 1].End()) && off + left == t.end
      invariant i > 0 ==> t.start < off
      invariant Upto(ret.View(), ty, off)
    {
      var e := t.extents[i];
      if i < |t.extents| - 1 {
        ContiguousOrder(t.extents, t.start, i, |t.extents| - 1);
      }
      assert e.length <= left; // extents.c:333
      UptoStep(ret.View(), ty, off, e);
      var ok := ret.AddExtent(e.offset, e.length, e.typ);
      assert ok; // so the error return after nbdkit_add_extent is dead
      off, left := off + e.length, left - e.length;
    }
  }

  method ExtentsFull(next: Layer, count: nat, offset: nat) returns (ret: ExtentList?)
    requires next.Truthful() && !next.failed
    requires count <= UINT32_MAX && offset + count <= next.size
    modifies next`script, next`failed, next`answers
    ensures ret == null <==> next.failed
    ensures ret != null ==>
              var to := EndOf(ret.extents, offset);
              && Canonical(ret.extents, next.ty, offset, to)
              && (to == offset + count || |ret.extents| == MAX_EXTENTS)
  {
    var end := offset + count;
    ret := NewExtents(offset, end);
    var off := offset;
    while off < end
      invariant off <= end && next.Truthful() && !next.failed
      invariant fresh(ret) && ret.start == offset && ret.end == end
      invariant Upto(ret.View(), next.ty, off)
    {
      var oldOffset := off;
      var t := NewExtents(off, end);
      var ok := next.Extents(end - off, off, t);
      if !ok {
        return null;
      }
      off := Stitch(next.ty, ret, t);
      assert off > oldOffset; // extents.c:339
    }
  }

  // ---------- nbdkit_extents_aligned ----------

  // Type bits: the bits of t are among those of u; the bits that t and u share.
  predicate Within(t: bv32, u: bv32) { t & u == t }
  function Meet(t: bv32, u: bv32): bv32 { t & u }

  lemma MeetWithin(t: bv32, u: bv32, v: bv32)
    ensures Within(t, v) || Within(u, v) ==> Within(Meet(t, u), v)
  {
  }

  // No byte is given a type bit that the layer below did not report for it.
  ghost predicate WeakerRun(e: Extent, ty: nat -> bv32) {
    forall x: nat :: e.offset <= x < e.End() ==> Within(e.typ, ty(x))
  }

  ghost predicate Weaker(xs: seq<Extent>, ty: nat -> bv32) {
    forall i :: 0 <= i < |xs| ==> WeakerRun(xs[i], ty)
  }

  // m is among the bits that the layer below reports for every byte.
  ghost predicate Shared(m: bv32, ty: nat -> bv32, from: nat, to: nat) {
    forall x: nat :: from <= x < to ==> Within(m, ty(x))
  }

  // No bit is missing that all bytes share: a type that is also weaker is their intersection.
  ghost predicate Tight(typ: bv32, ty: nat -> bv32, from: nat, to: nat) {
    forall m: bv32 :: Shared(m, ty, from, to) ==> Within(m, typ)
  }

  lemma UniformIsTight(ty: nat -> bv32, offset: nat, length: nat, typ: bv32, from: nat, to: nat)
    requires Uniform(ty, offset, length, typ) && offset <= from < to <= offset + length
    ensures Tight(typ, ty, from, to)
  {
    hide Within;
    assert ty(from) == typ;
  }

  lemma MergedIsTight(t: bv32, u: bv32, ty: nat -> bv32, from: nat, mid: nat, to: nat)
    requires from <= mid <= to && Tight(t, ty, from, mid) && Tight(u, ty, mid, to)
    ensures Tight(Meet(t, u), ty, from, to)
  {
    hide Within, Meet;
    forall m: bv32 | Shared(m, ty, from, to)
      ensures Within(m, Meet(t, u))
    {
      assert Shared(m, ty, from, mid) && Shared(m, ty, mid, to);
      WithinMeet(m, t, u);
    }
  }

  lemma WithinMeet(m: bv32, t: bv32, u: bv32)
    requires Within(m, t) && Within(m, u)
    ensures Within(m, Meet(t, u))
  {
  }

  // The first extent is exact for its bytes below limit, and the others are as reported.
  ghost predicate ExactFront(xs: seq<Extent>, ty: nat -> bv32, limit: nat) {
    && xs != [] && Tight(xs[0].typ, ty, xs[0].offset, Min(xs[0].End(), limit))
    && forall i :: 1 <= i < |xs| ==> Uniform(ty, xs[i].offset, xs[i].length, xs[i].typ)
  }

  lemma MergedFrontIsExact(d: Extent, xs: seq<Extent>, ty: nat -> bv32, limit: nat)
    requires xs != [] && d.End() == xs[0].offset < limit && xs[0].length > 0
    requires Tight(d.typ, ty, d.offset, d.End()) && Describes(xs, ty)
    ensures ExactFront([Extent(d.offset, d.length + xs[0].length, Meet(d.typ, xs[0].typ))] + xs[1..], ty, limit)
  {
    hide Tight, Meet;
    var e := xs[0];
    var to := Min(e.End(), limit);
    UniformIsTight(ty, e.offset, e.length, e.typ, e.offset, to);
    MergedIsTight(d.typ, e.typ, ty, d.offset, d.End(), to);
  }

  ghost predicate AlignedCover(xs: seq<Extent>, ty: nat -> bv32, offset: nat, align: nat)
    requires align > 0
  {
    && xs != [] && Contiguous(xs, offset) && Weaker(xs, ty)
    && forall i :: 0 <= i < |xs| ==> xs[i].length % align == 0 && Tight(xs[i].typ, ty, xs[i].offset, xs[i].End())
  }

  lemma MulAtLeast(k: int, m: int)
    requires m > 0
    ensures k >= 1 ==> k * m >= m
    ensures k <= -1 ==> k * m <= -m
  {
    if k >= 1 {
      assert k * m == (k - 1) * m + m;
    }
    if k <= -1 {
      assert k * m == (k + 1) * m - m;
    }
  }

  lemma MultiplesAdd(a: nat, b: nat, m: nat)
    requires m > 0 && a % m == 0 && b % m == 0
    ensures (a + b) % m == 0 && (b > 0 ==> b >= m)
  {
    var k := a / m + b / m - (a + b) / m;
    assert (a + b) % m == k * m by {
      assert a == (a / m) * m;
      assert b == (b / m) * m;
      assert a + b == ((a + b) / m) * m + (a + b) % m;
    }
    MulAtLeast(k, m);
  }

  lemma RoundDown(a: nat, m: nat)
    requires m > 0
    ensures (a - a % m) % m == 0 && (a >= m ==> a - a % m >= m)
  {
    var b := a - a % m;
    var k := a / m - b / m;
    assert b % m == k * m by {
      assert b == (a / m) * m;
      assert b == (b / m) * m + b % m;
    }
    MulAtLeast(k, m);
    MultiplesAdd(0, b, m);
  }

  function RoundedDown(e: Extent, align: nat): Extent
    requires align > 0
  {
    assert e.length % align <= e.length;
    e.(length := e.length - e.length % align)
  }

  lemma FirstCutToAlign(e: Extent, ty: nat -> bv32, offset: nat, align: nat)
    requires align > 0 && e.offset == offset && e.length >= align && WeakerRun(e, ty)
    requires Tight(e.typ, ty, offset, offset + align)
    ensures AlignedCover([e.(length := align)], ty, offset, align)
  {
    assert WeakerRun(e.(length := align), ty);
  }

  // Cutting the first extent that is not aligned, beyond the first align bytes.
  lemma TruncatedIsAligned(xs: seq<Extent>, ty: nat -> bv32, offset: nat, align: nat, i: nat)
    requires align > 0 && i < |xs| && Contiguous(xs, offset) && Describes(xs, ty)
    requires forall j :: 0 <= j < i ==> xs[j].length % align == 0
    requires xs[i].End() > offset + align
    ensures var e := RoundedDown(xs[i], align);
            AlignedCover(xs[..i] + if e.length > 0 then [e] else [], ty, offset, align)
  {
    hide Tight, Within;
    RoundDown(xs[i].length, align);
    var e := RoundedDown(xs[i], align);
    ReportedIsWeaker(xs, ty);
    assert WeakerRun(xs[i], ty) && WeakerRun(e, ty);
    ReportedIsTight(xs, ty, offset);
    if e.length > 0 {
      UniformIsTight(ty, xs[i].offset, xs[i].length, xs[i].typ, e.offset, e.End());
    }
  }

  lemma ReportedIsTight(xs: seq<Extent>, ty: nat -> bv32, offset: nat)
    requires Contiguous(xs, offset) && Describes(xs, ty)
    ensures forall j :: 0 <= j < |xs| ==> Tight(xs[j].typ, ty, xs[j].offset, xs[j].End())
  {
    hide Tight;
    forall j | 0 <= j < |xs|
      ensures Tight(xs[j].typ, ty, xs[j].offset, xs[j].End())
    {
      UniformIsTight(ty, xs[j].offset, xs[j].length, xs[j].typ, xs[j].offset, xs[j].End());
    }
  }

  lemma MergeRuns(d: Extent, e: Extent, ty: nat -> bv32)
    requires WeakerRun(d, ty) && WeakerRun(e, ty) && e.offset == d.End()
    ensures WeakerRun(Extent(d.offset, d.length + e.length, Meet(d.typ, e.typ)), ty)
  {
    hide Within, Meet;
    forall x: nat | d.offset <= x < e.End() ensures Within(Meet(d.typ, e.typ), ty(x)) {
      MeetWithin(d.typ, e.typ, ty(x));
    }
  }

  lemma ReportedIsWeaker(xs: seq<Extent>, ty: nat -> bv32)
    requires Describes(xs, ty)
    ensures Weaker(xs, ty)
  {
    forall i | 0 <= i < |xs| ensures WeakerRun(xs[i], ty) {
      assert Uniform(ty, xs[i].offset, xs[i].length, xs[i].typ);
    }
  }

  // Merging the head of a contiguous list into the extent just before it.
  lemma MergeHead(d: Extent, xs: seq<Extent>, ty: nat -> bv32)
    requires d.length > 0 && WeakerRun(d, ty)
    requires xs != [] && Contiguous(xs, d.End()) && Weaker(xs, ty)
    ensures var ys := [Extent(d.offset, d.length + xs[0].length, Meet(d.typ, xs[0].typ))] + xs[1..];
            Contiguous(ys, d.offset) && Weaker(ys, ty)
  {
    MergeRuns(d, xs[0], ty);
  }

  // The list has run out before align bytes: ask the layer below for the rest of
  // them and merge its first extent into e.
  method Requery(next: Layer, offset: nat, align: nat, e: Extent) returns (ok: bool, xs: seq<Extent>)
    requires next.Truthful() && !next.failed && offset + align <= next.size
    requires e.offset == offset && 0 < e.length < align && WeakerRun(e, next.ty) && Tight(e.typ, next.ty, offset, e.End())
    modifies next`script, next`failed, next`answers
    ensures next.Truthful() && (ok <==> !next.failed) && old(next.answers) <= next.answers
    ensures ok ==> xs != [] && Contiguous(xs, offset) && Weaker(xs, next.ty) && xs[0].length > e.length
    ensures ok ==> ExactFront(xs, next.ty, offset + align)
  {
    hide Tight, Within, Meet;
    var extents2 := NewExtents(e.End(), offset + align);
    ok := next.Extents(align - e.length, offset + e.length, extents2);
    if !ok {
      return false, [];
    }
    xs := extents2.extents;
    assert xs[0].offset == e.End(); // extents.c:276
    ReportedIsWeaker(xs, next.ty);
    MergeHead(e, xs, next.ty);
    MergedFrontIsExact(e, xs, next.ty, offset + align);
    xs := [Extent(e.offset, e.length + xs[0].length, Meet(e.typ, xs[0].typ))] + xs[1..];
  }

  // Coalesce at the front until the first extent has at least align bytes.
  method MergeFront(next: Layer, offset: nat, align: nat, xs: seq<Extent>) returns (ok: bool, ys: seq<Extent>)
    requires next.Truthful() && !next.failed && 0 < align && offset + align <= next.size
    requires xs != [] && Contiguous(xs, offset) && Describes(xs, next.ty)
    modifies next`script, next`failed, next`answers
    ensures (ok <==> !next.failed) && old(next.answers) <= next.answers
    ensures ok ==> ys != [] && Contiguous(ys, offset) && Weaker(ys, next.ty) && ys[0].length >= align
    ensures ok ==> Tight(ys[0].typ, next.ty, offset, offset + align)
  {
    ReportedIsWeaker(xs, next.ty);
    hide Tight, Within, Meet;
    UniformIsTight(next.ty, xs[0].offset, xs[0].length, xs[0].typ, offset, Min(xs[0].End(), offset + align));
    ok, ys := true, xs;
    while ys[0].length < align
      invariant next.Truthful() && !next.failed && ok && old(next.answers) <= next.answers
      invariant ys != [] && Contiguous(ys, offset) && Weaker(ys, next.ty) && ExactFront(ys, next.ty, offset + align)
      decreases align - ys[0].length
    {
      if |ys| > 1 {
        MergeHead(ys[0], ys[1..], next.ty);
        MergedFrontIsExact(ys[0], ys[1..], next.ty, offset + align);
        ys := [Extent(offset, ys[0].length + ys[1].length, Meet(ys[0].typ, ys[1].typ))] + ys[1..][1..];
      } else {
        var zs;
        ok, zs := Requery(next, offset, align, ys[0]);
        if !ok {
          return;
        }
        ys := zs;
      }
    }
  }

  ghost function FirstMisaligned(xs: seq<Extent>, align: nat): nat
    requires align > 0
  {
    if xs == [] || xs[0].length % align != 0 then 0 else 1 + FirstMisaligned(xs[1..], align)
  }

  lemma {:induction false} FirstIs(xs: seq<Extent>, align: nat, i: nat)
    requires align > 0 && i <= |xs| && forall j :: 0 <= j < i ==> xs[j].length % align == 0
    requires i < |xs| ==> xs[i].length % align != 0
    ensures FirstMisaligned(xs, align) == i
  {
    if i > 0 {
      FirstIs(xs[1..], align, i - 1);
    }
  }

  function Down(n: nat, m: nat): (d: nat)
    requires m > 0
    ensures d <= n
  {
    assert n % m <= n;
    n - n % m
  }

  // The end is the first misaligned boundary of the answer, or else its end, rounded down,
  // but at least align bytes are covered.
  ghost predicate Reaches(end: nat, answer: seq<Extent>, offset: nat, align: nat)
    requires align > 0
  {
    var i := FirstMisaligned(answer, align);
    var boundary := if i < |answer| then answer[i].End() else EndOf(answer, offset);
    boundary >= offset && end == offset + Max(align, Down(boundary - offset, align))
  }

  lemma Multiple(a: nat, m: nat)
    requires m > 0
    ensures 0 % m == 0 && (a % m == 0 ==> Down(a, m) == a)
  {
  }

  lemma DownAdds(a: nat, b: nat, m: nat)
    requires m > 0 && a % m == 0
    ensures Down(a + b, m) == a + Down(b, m)
  {
    var k := a / m + b / m - (a + b) / m;
    assert (a + b) % m - b % m == k * m by {
      assert a == (a / m) * m;
      assert b == (b / m) * m + b % m;
      assert a + b == ((a + b) / m) * m + (a + b) % m;
    }
    MulAtLeast(k, m);
  }

  // Cut or merge the answer xs of the layer below at its first extent that is not aligned.
  method AlignExtents(next: Layer, offset: nat, align: nat, xs: seq<Extent>) returns (ok: bool, changed: bool, ys: seq<Extent>)
    requires next.Truthful() && !next.failed && 0 < align && offset + align <= next.size
    requires xs != [] && Contiguous(xs, offset) && Describes(xs, next.ty)
    modifies next`script, next`failed, next`answers
    ensures (ok <==> !next.failed) && (ok && !changed ==> ys == xs) && old(next.answers) <= next.answers
    ensures ok ==> AlignedCover(ys, next.ty, offset, align) && Reaches(EndOf(ys, offset), xs, offset, align)
  {
    ReportedIsWeaker(xs, next.ty);
    ReportedIsTight(xs, next.ty, offset);
    Multiple(0, align);
    hide Tight, Within, Uniform, Down;
    ok, changed, ys := true, false, xs;
    for i := 0 to |xs|
      invariant ok && !changed && ys == xs && !next.failed && next.Truthful() && next.answers == old(next.answers)
      invariant forall j :: 0 <= j < i ==> xs[j].length % align == 0
      invariant i > 0 ==> xs[i - 1].End() >= offset + align && (xs[i - 1].End() - offset) % align == 0
    {
      var e := xs[i];
      assert e.offset == if i == 0 then offset else xs[i - 1].End();
      if e.length % align != 0 {
        FirstIs(xs, align, i);
        changed := true;
        if e.End() > offset + align {
          TruncatedIsAligned(xs, next.ty, offset, align, i);
          ys := xs[..i] + if RoundedDown(e, align).length > 0 then [RoundedDown(e, align)] else [];
          CutReaches(xs, ys, offset, align, i);
          return;
        }
        assert i == 0; // extents.c:250
        ok, ys := MergeFront(next, offset, align, xs);
        if ok {
          FirstCutToAlign(ys[0], next.ty, offset, align);
          ys := [ys[0].(length := align)];
        }
        return;
      }
      MultiplesAdd(0, e.length, align);
      MultiplesAdd(e.offset - offset, e.length, align);
    }
    FirstIs(xs, align, |xs|);
    Multiple(EndOf(xs, offset) - offset, align);
  }

  lemma CutReaches(xs: seq<Extent>, ys: seq<Extent>, offset: nat, align: nat, i: nat)
    requires align > 0 && i < |xs| && Contiguous(xs, offset) && FirstMisaligned(xs, align) == i
    requires xs[i].offset >= offset && (xs[i].offset - offset) % align == 0 && xs[i].End() > offset + align
    requires ys == xs[..i] + if RoundedDown(xs[i], align).length > 0 then [RoundedDown(xs[i], align)] else []
    ensures Reaches(EndOf(ys, offset), xs, offset, align)
  {
    var e := xs[i];
    DownAdds(e.offset - offset, e.length, align);
    AtLeastOne(e.End() - offset, align);
  }

  lemma AtLeastOne(n: nat, m: nat)
    requires 0 < m <= n
    ensures Down(n, m) >= m
  {
    RoundDown(n, m);
  }

  // nbdkit_extents_aligned
  method ExtentsAligned(next: Layer, count: nat, offset: nat, align: nat, exts: ExtentList) returns (ok: bool)
    requires next.Truthful() && !next.failed && 0 < count && offset + count <= next.size
    requires 0 < align && count % align == 0 && offset % align == 0
    requires exts.View() == New(offset, exts.end) && ValidRange(offset, exts.end)
    modifies next`script, next`failed, next`answers, exts
    ensures ok <==> !next.failed
    ensures ok ==> AlignedCover(exts.extents, next.ty, offset, align)
    ensures ok ==> exts.next >= EndOf(exts.extents, offset)
    ensures ok ==> |old(next.answers)| < |next.answers|
                   && Reaches(EndOf(exts.extents, offset), next.answers[|old(next.answers)|], offset, align)
  {
    hide AlignedCover, Reaches;
    ok := next.Extents(count, offset, exts);
    if !ok {
      return;
    }
    MultiplesAdd(0, count, align);
    var changed, xs;
    ok, changed, xs := AlignExtents(next, offset, align, exts.extents);
    if ok && changed {
      exts.extents, exts.next := xs, EndOf(xs, offset);
    }
  }
}
