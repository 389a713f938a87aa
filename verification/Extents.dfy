/** Extent lists: clipped, coalesced runs of block status built one call at a time. */
module Extents {
  import opened Common

  // NBDKIT_EXTENT_HOLE and NBDKIT_EXTENT_ZERO
  const HOLE: bv32 := 1
  const ZERO: bv32 := 2

  datatype Extent = Extent(offset: nat, length: nat, typ: bv32)
  {
    function End(): nat { offset + length }
  }

  // ---------- Run lists ----------

  // The extents follow on from one another, starting at from, and none is empty.
  ghost predicate Contiguous(xs: seq<Extent>, from: nat) {
    && (xs != [] ==> xs[0].offset == from)
    && (forall i :: 0 <= i < |xs| ==> xs[i].length > 0)
    && (forall i, j :: 0 <= i < j < |xs| && j == i + 1 ==> xs[j].offset == xs[i].End())
  }

  ghost predicate Coalesced(xs: seq<Extent>) {
    forall i, j :: 0 <= i < j < |xs| && j == i + 1 ==> xs[j].typ != xs[i].typ
  }

  function EndOf(xs: seq<Extent>, from: nat): nat {
    if xs == [] then from else xs[|xs| - 1].End()
  }

  ghost predicate Uniform(ty: nat -> bv32, offset: nat, length: nat, typ: bv32) {
    forall x: nat :: offset <= x < offset + length ==> ty(x) == typ
  }

  ghost predicate Describes(xs: seq<Extent>, ty: nat -> bv32) {
    forall i :: 0 <= i < |xs| ==> Uniform(ty, xs[i].offset, xs[i].length, xs[i].typ)
  }

  /** xs is the canonical run-length encoding of ty on [from, to). */
  ghost predicate Canonical(xs: seq<Extent>, ty: nat -> bv32, from: nat, to: nat) {
    Contiguous(xs, from) && Coalesced(xs) && Describes(xs, ty) && EndOf(xs, from) == to
  }

  lemma {:induction false} ContiguousOrder(xs: seq<Extent>, from: nat, i: nat, j: nat)
    requires Contiguous(xs, from) && i < j < |xs|
    ensures from <= xs[i].offset && xs[i].End() <= xs[j].offset
    decreases j
  {
    if i + 1 < j {
      ContiguousOrder(xs, from, i, j - 1);
    }
    if 0 < i {
      ContiguousOrder(xs, from, 0, i);
    }
  }

  lemma {:induction false} TailCanonical(xs: seq<Extent>, ty: nat -> bv32, from: nat, to: nat)
    requires Canonical(xs, ty, from, to) && xs != []
    ensures Canonical(xs[1..], ty, xs[0].End(), to)
    ensures xs[0].End() <= to && (|xs| == 1 <==> xs[0].End() == to)
  {
    if |xs| > 1 {
      ContiguousOrder(xs, from, 0, |xs| - 1);
    }
  }

  // A first run cannot stop short of another's: the next one would have its type.
  lemma FirstRunMaximal(xs: seq<Extent>, ys: seq<Extent>, ty: nat -> bv32, from: nat, to: nat)
    requires Canonical(xs, ty, from, to) && Canonical(ys, ty, from, to)
    requires xs != [] && ys != []
    ensures xs[0].length >= ys[0].length && xs[0].typ == ys[0].typ
  {
    TailCanonical(xs, ty, from, to);
    TailCanonical(ys, ty, from, to);
    assert ty(from) == xs[0].typ == ys[0].typ;
    assert |xs| > 1 ==> ty(xs[1].offset) == xs[1].typ;
  }

  /** A range has only one canonical encoding. */
  lemma {:induction false} CanonicalUnique(xs: seq<Extent>, ys: seq<Extent>, ty: nat -> bv32, from: nat, to: nat)
    requires Canonical(xs, ty, from, to) && Canonical(ys, ty, from, to)
    ensures xs == ys
    decreases |xs|
  {
    if xs == [] || ys == [] {
      if xs != [] {
        TailCanonical(xs, ty, from, to);
      }
      if ys != [] {
        TailCanonical(ys, ty, from, to);
      }
    } else {
      FirstRunMaximal(xs, ys, ty, from, to);
      FirstRunMaximal(ys, xs, ty, from, to);
      TailCanonical(xs, ty, from, to);
      TailCanonical(ys, ty, from, to);
      CanonicalUnique(xs[1..], ys[1..], ty, xs[0].End(), to);
      assert xs == [xs[0]] + xs[1..] && ys == [ys[0]] + ys[1..];
    }
  }

  // ---------- Building a list ----------

  // The fields of struct nbdkit_extents.
  datatype State = State(extents: seq<Extent>, start: nat, end: nat, next: int)

  predicate ValidRange(start: nat, end: nat) {
    start <= end <= INT64_MAX
  }

  // A uint64_t stored in an int64_t.
  function AsInt64(u: nat): (r: int)
    requires u < UINT64_RANGE
  {
    if u <= INT64_MAX then u else u - UINT64_RANGE
  }

  // nbdkit_add_extent: the new state and whether the call succeeded.  Additions of
  // two uint64_t values wrap.
  function Add(s: State, offset: nat, length: nat, typ: bv32): (State, bool)
    requires offset < UINT64_RANGE && length < UINT64_RANGE
  {
    var sum := AddU64(offset, length);
    if s.next >= 0 && s.next != offset then (s, false)
    else
      var s := s.(next := AsInt64(sum));
      if length == 0 || offset >= s.end || |s.extents| >= MAX_EXTENTS then (s, true)
      else
        var length := if sum > s.end then length - (sum - s.end) else length;
        if s.extents == [] then
          if AddU64(offset, length) <= s.start then (s, true)
          else if offset > s.start then (s, false)
          else (s.(extents := Coalesce([], s.start, length - (s.start - offset), typ)), true)
        else (s.(extents := Coalesce(s.extents, offset, length, typ)), true)
  }

  // Extend the last extent if the type matches, else add a new one.  The length of an
  // extent is a uint64_t too.
  function Coalesce(xs: seq<Extent>, offset: nat, length: nat, typ: bv32): seq<Extent> {
    if xs != [] && xs[|xs| - 1].typ == typ then
      var last := xs[|xs| - 1];
      xs[..|xs| - 1] + [last.(length := WrapU64(last.length + length))]
    else
      xs + [Extent(offset, length, typ)]
  }

  // The list is canonical for ty, inside the range and not over-long.
  ghost predicate GoodRuns(xs: seq<Extent>, start: nat, end: nat, ty: nat -> bv32) {
    && ValidRange(start, end)
    && Canonical(xs, ty, start, EndOf(xs, start))
    && EndOf(xs, start) <= end && |xs| <= MAX_EXTENTS
  }

  /** What every accepted call keeps: the list is canonical for the types reported so
      far, inside the range, and next is where it can be continued. */
  ghost predicate Good(s: State, ty: nat -> bv32) {
    var to := EndOf(s.extents, s.start);
    && GoodRuns(s.extents, s.start, s.end, ty)
    && s.next >= -1
    && (s.extents == [] || s.next == to || (s.next > to && (to == s.end || |s.extents| == MAX_EXTENTS)))
  }

  // How far an accepted call takes the list.
  function Reached(s: State, offset: nat, length: nat): nat {
    var to := EndOf(s.extents, s.start);
    if length == 0 || |s.extents| >= MAX_EXTENTS || offset >= s.end || offset + length <= to then to else Min(offset + length, s.end)
  }

  // Extending the last run, or starting a new one of another type, keeps the
  // encoding canonical.
  lemma CoalesceCanonical(xs: seq<Extent>, ty: nat -> bv32, from: nat, length: nat, typ: bv32)
    requires Canonical(xs, ty, from, EndOf(xs, from)) && length > 0 && EndOf(xs, from) + length < UINT64_RANGE
    requires Uniform(ty, EndOf(xs, from), length, typ)
    ensures Canonical(Coalesce(xs, EndOf(xs, from), length, typ), ty, from, EndOf(xs, from) + length)
    ensures var ys := Coalesce(xs, EndOf(xs, from), length, typ);
            0 < |ys| <= |xs| + 1 && EndOf(ys, from) == EndOf(xs, from) + length
  {
    hide Uniform;
    if xs != [] && xs[|xs| - 1].typ == typ {
      LastRunGrows(xs, ty, from, length);
    } else {
      var ys := xs + [Extent(EndOf(xs, from), length, typ)];
      assert ys == Coalesce(xs, EndOf(xs, from), length, typ);
    }
  }

  lemma LastRunGrows(xs: seq<Extent>, ty: nat -> bv32, from: nat, length: nat)
    requires xs != [] && Canonical(xs, ty, from, EndOf(xs, from)) && length > 0 && EndOf(xs, from) + length < UINT64_RANGE
    requires Uniform(ty, EndOf(xs, from), length, xs[|xs| - 1].typ)
    ensures Canonical(Coalesce(xs, EndOf(xs, from), length, xs[|xs| - 1].typ), ty, from, EndOf(xs, from) + length)
  {
    hide Uniform;
    var last := xs[|xs| - 1];
    assert Uniform(ty, last.offset, last.length, last.typ);
    UniformJoins(ty, last.offset, last.length, length, last.typ);
    var ys := Coalesce(xs, EndOf(xs, from), length, last.typ);
    assert ys == xs[..|xs| - 1] + [last.(length := last.length + length)];
  }

  lemma UniformJoins(ty: nat -> bv32, offset: nat, n: nat, m: nat, typ: bv32)
    requires Uniform(ty, offset, n, typ) && Uniform(ty, offset + n, m, typ)
    ensures Uniform(ty, offset, n + m, typ)
  {
  }

  lemma UniformPart(ty: nat -> bv32, offset: nat, length: nat, typ: bv32, from: nat, n: nat)
    requires Uniform(ty, offset, length, typ) && offset <= from && from + n <= offset + length
    ensures Uniform(ty, from, n, typ)
  {
  }

  // When next is honest, a call either leaves the extents alone or continues them
  // exactly where they end.
  lemma AddContinues(s: State, offset: nat, length: nat, typ: bv32)
    requires ValidRange(s.start, s.end) && offset + length <= INT64_MAX
    requires var to := EndOf(s.extents, s.start);
             s.extents == [] || s.next == to || (s.next > to && (to == s.end || |s.extents| == MAX_EXTENTS))
    ensures var (s', ok) := Add(s, offset, length, typ);
            var to, reached := EndOf(s.extents, s.start), Reached(s, offset, length);
            && s'.start == s.start && s'.end == s.end
            && (if ok then s'.next == offset + length else s'.next == s.next || (s.extents == [] && s'.next >= 0))
            && (if ok && reached > to then
                  offset <= to && |s.extents| < MAX_EXTENTS && s'.extents == Coalesce(s.extents, to, reached - to, typ)
                else s'.extents == s.extents)
  {
  }

  /** When a call is accepted: it goes on where the last one ended, and the first extent does
      not leave out the front of the range. */
  lemma AcceptedIff(s: State, offset: nat, length: nat, typ: bv32)
    requires ValidRange(s.start, s.end) && offset + length <= INT64_MAX
    ensures Add(s, offset, length, typ).1 <==>
              (s.next < 0 || s.next == offset) && !(s.extents == [] && s.start < offset < s.end && length > 0)
  {
  }

  lemma AddKeepsGood(s: State, offset: nat, length: nat, typ: bv32, ty: nat -> bv32)
    requires Good(s, ty) && Uniform(ty, offset, length, typ)
    requires offset + length <= INT64_MAX
    ensures var (s', ok) := Add(s, offset, length, typ);
            && Good(s', ty)
            && s'.start == s.start && s'.end == s.end
            && (ok ==> EndOf(s'.extents, s.start) == Reached(s, offset, length) && s'.next == offset + length)
  {
    hide Add, Reached, EndOf, Uniform, Good;
    if Add(s, offset, length, typ).1 && Reached(s, offset, length) > EndOf(s.extents, s.start) {
      AddGrowsGood(s, offset, length, typ, ty);
    } else {
      AddLeavesGood(s, offset, length, typ, ty);
    }
  }

  lemma AddGrowsGood(s: State, offset: nat, length: nat, typ: bv32, ty: nat -> bv32)
    requires Good(s, ty) && Uniform(ty, offset, length, typ) && offset + length <= INT64_MAX
    requires Add(s, offset, length, typ).1 && Reached(s, offset, length) > EndOf(s.extents, s.start)
    ensures var s' := Add(s, offset, length, typ).0;
            && Good(s', ty)
            && s'.start == s.start && s'.end == s.end
            && EndOf(s'.extents, s.start) == Reached(s, offset, length) && s'.next == offset + length
  {
    hide Add, Coalesce, Canonical, EndOf, Uniform;
    AddContinues(s, offset, length, typ);
    var to, reached := EndOf(s.extents, s.start), Reached(s, offset, length);
    UniformPart(ty, offset, length, typ, to, reached - to);
    CoalesceCanonical(s.extents, ty, s.start, reached - to, typ);
  }

  lemma AddLeavesGood(s: State, offset: nat, length: nat, typ: bv32, ty: nat -> bv32)
    requires Good(s, ty) && offset + length <= INT64_MAX
    requires !Add(s, offset, length, typ).1 || Reached(s, offset, length) <= EndOf(s.extents, s.start)
    ensures var (s', ok) := Add(s, offset, length, typ);
            && Good(s', ty)
            && s'.start == s.start && s'.end == s.end
            && (ok ==> EndOf(s'.extents, s.start) == Reached(s, offset, length) && s'.next == offset + length)
  {
    hide Coalesce, Canonical, EndOf;
    AddContinues(s, offset, length, typ);
  }

  // ---------- Whole runs of calls ----------

  datatype Call = Call(offset: nat, length: nat, typ: bv32)

  // A call whose range ends inside int64_t, as every device offset does.
  predicate Honest(c: Call) {
    c.offset + c.length <= INT64_MAX
  }

  function New(start: nat, end: nat): State {
    State([], start, end, -1)
  }

  // A run of calls that stops at the first one that fails.
  function AddAll(s: State, calls: seq<Call>): (State, bool)
    requires forall i :: 0 <= i < |calls| ==> Honest(calls[i])
  {
    if calls == [] then (s, true)
    else
      var (s', ok) := AddAll(s, calls[..|calls| - 1]);
      var c := calls[|calls| - 1];
      assert Honest(c);
      if ok then Add(s', c.offset, c.length, c.typ) else (s', false)
  }

  // Every call goes on where the one before it ended.
  ghost predicate Adjoin(calls: seq<Call>) {
    forall i, j :: 0 <= i < j < |calls| && j == i + 1 ==> calls[j].offset == calls[i].offset + calls[i].length
  }

  function Stop(calls: seq<Call>): int {
    if calls == [] then -1 else calls[|calls| - 1].offset + calls[|calls| - 1].length
  }

  ghost predicate Silent(calls: seq<Call>) {
    forall i :: 0 <= i < |calls| ==> calls[i].length == 0
  }

  // The calls do not start inside the range, behind its front, unless they say nothing.
  ghost predicate Startable(calls: seq<Call>, start: nat, end: nat) {
    calls == [] || calls[0].offset <= start || calls[0].offset >= end || Silent(calls)
  }

  // How the list stands after calls that were accepted.
  ghost predicate Accepted(s: State, calls: seq<Call>, start: nat, end: nat) {
    && s.start == start && s.end == end && s.next == Stop(calls)
    && (s.extents == [] ==> calls == [] || Silent(calls) || calls[0].offset >= end || Stop(calls) <= start || start == end)
    && (s.extents != [] ==> calls != [] && !Silent(calls) && calls[0].offset <= start)
  }

  /** A run of calls is accepted as a whole exactly if the calls adjoin and start at or before
      the range, or behind it, or say nothing at all. */
  lemma {:induction false} RunAcceptedIff(start: nat, end: nat, calls: seq<Call>)
    requires ValidRange(start, end) && forall i :: 0 <= i < |calls| ==> Honest(calls[i])
    ensures var (s, ok) := AddAll(New(start, end), calls);
            (ok <==> Adjoin(calls) && Startable(calls, start, end)) && (ok ==> Accepted(s, calls, start, end))
    decreases |calls|
  {
    hide Add;
    if calls != [] {
      var before, c := calls[..|calls| - 1], calls[|calls| - 1];
      RunAcceptedIff(start, end, before);
      OneMoreCall(before, c, start, end);
      var (s, ok) := AddAll(New(start, end), before);
      assert Honest(c) && calls == before + [c];
      if ok {
        AcceptedIff(s, c.offset, c.length, c.typ);
        AcceptedStep(s, before, c, start, end);
      }
    }
  }

  lemma OneMoreCall(before: seq<Call>, c: Call, start: nat, end: nat)
    ensures Adjoin(before + [c]) <==> Adjoin(before) && (before == [] || c.offset == Stop(before))
    ensures Silent(before + [c]) <==> Silent(before) && c.length == 0
    ensures Startable(before + [c], start, end) ==> Startable(before, start, end)
  {
    var calls := before + [c];
    assert forall i :: 0 <= i < |before| ==> calls[i] == before[i];
    assert Silent(calls) ==> calls[|before|].length == 0;
    if Adjoin(calls) && before != [] {
      assert calls[|before|].offset == calls[|before| - 1].offset + calls[|before| - 1].length;
    }
  }

  // Silent calls that adjoin all start at the same place.
  lemma {:induction false} SilentStop(calls: seq<Call>)
    requires calls != [] && Adjoin(calls) && Silent(calls)
    ensures Stop(calls) == calls[0].offset
  {
    if |calls| > 1 {
      var before := calls[..|calls| - 1];
      SilentStop(before);
      assert calls[|calls| - 1].offset == calls[|calls| - 2].offset + calls[|calls| - 2].length;
    }
  }

  lemma {:induction false} StopAfter(calls: seq<Call>)
    requires calls != [] && Adjoin(calls)
    ensures Stop(calls) >= calls[0].offset
  {
    if |calls| > 1 {
      var before := calls[..|calls| - 1];
      StopAfter(before);
      assert calls[|calls| - 1].offset == calls[|calls| - 2].offset + calls[|calls| - 2].length;
    }
  }

  lemma AcceptedStep(s: State, before: seq<Call>, c: Call, start: nat, end: nat)
    requires ValidRange(start, end) && Honest(c)
    requires Adjoin(before) && Startable(before, start, end) && Accepted(s, before, start, end)
    ensures Add(s, c.offset, c.length, c.typ).1 <==> Adjoin(before + [c]) && Startable(before + [c], start, end)
    ensures var (s', ok) := Add(s, c.offset, c.length, c.typ);
            ok ==> Accepted(s', before + [c], start, end)
  {
    hide Adjoin, Silent;
    OneMoreCall(before, c, start, end);
    AcceptedIff(s, c.offset, c.length, c.typ);
    if before != [] {
      StopAfter(before);
      if Silent(before) {
        SilentStop(before);
      }
    } else {
      NoCalls();
    }
  }

  lemma NoCalls()
    ensures Adjoin([]) && Silent([])
  {
  }

  // The type reported for byte x, 0 if there was none.
  function TypeAt(calls: seq<Call>, x: nat): bv32 {
    if calls == [] then 0
    else
      var c := calls[|calls| - 1];
      if c.offset <= x < c.offset + c.length then c.typ else TypeAt(calls[..|calls| - 1], x)
  }

  lemma DescribesBelow(xs: seq<Extent>, from: nat, ty: nat -> bv32, ty': nat -> bv32, limit: nat)
    requires Contiguous(xs, from) && Describes(xs, ty) && EndOf(xs, from) <= limit
    requires forall x: nat :: x < limit ==> ty(x) == ty'(x)
    ensures Describes(xs, ty')
  {
    forall i | 0 <= i < |xs| ensures Uniform(ty', xs[i].offset, xs[i].length, xs[i].typ) {
      assert Uniform(ty, xs[i].offset, xs[i].length, xs[i].typ);
      if i < |xs| - 1 {
        ContiguousOrder(xs, from, i, |xs| - 1);
      }
    }
  }

  ghost predicate Reported(calls: seq<Call>, x: nat) {
    exists i :: 0 <= i < |calls| && calls[i].offset <= x < calls[i].offset + calls[i].length
  }

  lemma ReportedMore(calls: seq<Call>, x: nat)
    requires calls != []
    ensures var c := calls[|calls| - 1];
            Reported(calls, x) <==> Reported(calls[..|calls| - 1], x) || c.offset <= x < c.offset + c.length
  {
    var before, c := calls[..|calls| - 1], calls[|calls| - 1];
    if Reported(before, x) {
      var i :| 0 <= i < |before| && before[i].offset <= x < before[i].offset + before[i].length;
      assert calls[i] == before[i];
    }
    if Reported(calls, x) {
      var i :| 0 <= i < |calls| && calls[i].offset <= x < calls[i].offset + calls[i].length;
      assert i < |before| ==> before[i] == calls[i];
    }
  }

  // The list covers the bytes of the range that were reported, and no others; it falls
  // short of that only when it is full.
  ghost predicate Complete(s: State, calls: seq<Call>) {
    forall x: nat :: s.start <= x < s.end ==>
      && (x < EndOf(s.extents, s.start) ==> Reported(calls, x))
      && (Reported(calls, x) ==> x < EndOf(s.extents, s.start) || |s.extents| == MAX_EXTENTS)
  }

  /** After any run of successful calls the list is the canonical encoding of what was
      reported, clipped to the range, and cut short only by MAX_EXTENTS. */
  lemma {:induction false} AddedRunIsCanonical(start: nat, end: nat, calls: seq<Call>)
    requires ValidRange(start, end)
    requires forall i :: 0 <= i < |calls| ==> Honest(calls[i])
    requires AddAll(New(start, end), calls).1
    ensures var s := AddAll(New(start, end), calls).0;
            && Good(s, (x: nat) => TypeAt(calls, x)) && s.start == start && s.end == end
            && Complete(s, calls)
            && (calls != [] ==>
                  var last := calls[|calls| - 1].offset + calls[|calls| - 1].length;
                  && s.next == last
                  && (s.extents != [] ==> EndOf(s.extents, start) == Min(last, end) || |s.extents| == MAX_EXTENTS))
    decreases |calls|
  {
    if calls == [] {
      assert Complete(New(start, end), calls);
    }
    hide Complete, Canonical, Coalesce;
    if calls != [] {
      var before, c := calls[..|calls| - 1], calls[|calls| - 1];
      AddedRunIsCanonical(start, end, before);
      var s := AddAll(New(start, end), before).0;
      var ty: nat -> bv32 := (x: nat) => TypeAt(calls, x);
      if s.extents != [] {
        DescribesBelow(s.extents, start, (x: nat) => TypeAt(before, x), ty, c.offset);
      }
      AddKeepsGood(s, c.offset, c.length, c.typ, ty);
      AddContinues(s, c.offset, c.length, c.typ);
      StaysComplete(s, c, calls, Add(s, c.offset, c.length, c.typ).0);
    }
  }

  lemma StaysComplete(s: State, c: Call, calls: seq<Call>, s': State)
    requires calls != [] && c == calls[|calls| - 1] && Honest(c) && Complete(s, calls[..|calls| - 1])
    requires |s.extents| <= MAX_EXTENTS && EndOf(s.extents, s.start) <= s.end && ValidRange(s.start, s.end)
    requires s'.start == s.start && s'.end == s.end && |s'.extents| >= |s.extents|
    requires var to, reached := EndOf(s.extents, s.start), Reached(s, c.offset, c.length);
             EndOf(s'.extents, s.start) == reached && (reached > to ==> c.offset <= to) && |s'.extents| <= MAX_EXTENTS
    ensures Complete(s', calls)
  {
    hide Reported, EndOf;
    forall x: nat | s.start <= x < s.end
      ensures x < EndOf(s'.extents, s.start) ==> Reported(calls, x)
      ensures Reported(calls, x) ==> x < EndOf(s'.extents, s.start) || |s'.extents| == MAX_EXTENTS
    {
      ReportedMore(calls, x);
    }
  }

  // ---------- Calls that are not honest ----------

  /** next records where the last extent ended exactly when that end fits in int64_t. */
  lemma NextTracksIffHonest(s: State, offset: nat, length: nat, typ: bv32)
    requires offset < UINT64_RANGE && length < UINT64_RANGE
    requires s.next < 0 || s.next == offset
    ensures Add(s, offset, length, typ).0.next == offset + length <==> Honest(Call(offset, length, typ))
  {
    var sum := AddU64(offset, length);
    assert sum == offset + length || sum == offset + length - UINT64_RANGE;
    assert Add(s, offset, length, typ).0.next == AsInt64(sum);
  }

  lemma {:induction false} EndAfterStart(xs: seq<Extent>, from: nat)
    requires Contiguous(xs, from) && xs != []
    ensures EndOf(xs, from) > from
  {
    if |xs| > 1 {
      ContiguousOrder(xs, from, 0, |xs| - 1);
    }
  }

  // A call past INT64_MAX does to the extents what the clipped call does.
  lemma OverlongIsClipped(s: State, offset: nat, length: nat, typ: bv32)
    requires ValidRange(s.start, s.end) && INT64_MAX < offset + length < UINT64_RANGE
    ensures var (long, ok) := Add(s, offset, length, typ);
            && long.start == s.start && long.end == s.end
            && (if offset < s.end then
                  && ok == Add(s, offset, s.end - offset, typ).1
                  && long.extents == Add(s, offset, s.end - offset, typ).0.extents
                  && (EndOf(s.extents, s.start) <= s.end ==> Reached(s, offset, length) == Reached(s, offset, s.end - offset))
                else
                  long.extents == s.extents && Reached(s, offset, length) == EndOf(s.extents, s.start))
  {
  }

  // The list itself survives one call past INT64_MAX.
  lemma OverlongKeepsRuns(s: State, offset: nat, length: nat, typ: bv32, ty: nat -> bv32)
    requires Good(s, ty) && INT64_MAX < offset + length < UINT64_RANGE
    requires Uniform(ty, offset, length, typ)
    ensures var (s', ok) := Add(s, offset, length, typ);
            && GoodRuns(s'.extents, s.start, s.end, ty)
            && (ok ==> EndOf(s'.extents, s.start) == Reached(s, offset, length))
  {
    hide Add, Canonical, EndOf;
    OverlongIsClipped(s, offset, length, typ);
    if offset < s.end {
      AddKeepsGood(s, offset, s.end - offset, typ, ty);
    }
  }

  lemma OverlongState(s: State, offset: nat, length: nat, typ: bv32, ty: nat -> bv32)
    requires Good(s, ty) && INT64_MAX < offset + length < UINT64_RANGE
    ensures var s' := Add(s, offset, length, typ).0;
            && Contiguous(s'.extents, s.start) && |s'.extents| <= |s.extents| + 1
            && s'.start == s.start && s'.end == s.end
            && (Add(s, offset, length, typ).1 ==> s'.next < 0)
  {
    OverlongIsClipped(s, offset, length, typ);
    if offset < s.end {
      AddContinues(s, offset, s.end - offset, typ);
    }
  }

  // A further call that is accepted and leaves a gap or an overlap.
  ghost predicate Spoils(s: State, c: Call) {
    && c.offset < UINT64_RANGE && c.length < UINT64_RANGE
    && Add(s, c.offset, c.length, c.typ).1 && !Contiguous(Add(s, c.offset, c.length, c.typ).0.extents, s.start)
  }

  lemma UncheckedOverlap(s: State) returns (c: Call)
    requires Contiguous(s.extents, s.start) && s.extents != [] && |s.extents| < MAX_EXTENTS
    requires ValidRange(s.start, s.end) && s.start < s.end && s.next < 0
    ensures Spoils(s, c)
  {
    EndAfterStart(s.extents, s.start);
    c := Call(s.start, 1, !s.extents[|s.extents| - 1].typ);
    var xs := Add(s, c.offset, 1, c.typ).0.extents;
    assert xs == s.extents + [Extent(s.start, 1, c.typ)];
    assert xs[|xs| - 1].offset != xs[|xs| - 2].End();
  }

  /** After an accepted call that ends past INT64_MAX, short of wrapping, the order of calls
      is no longer checked: some further call spoils the list, exactly if the list is not
      empty and not full. */
  lemma OverlongCallUnchecked(s: State, offset: nat, length: nat, typ: bv32, ty: nat -> bv32)
    requires Good(s, ty) && INT64_MAX < offset + length < UINT64_RANGE && Add(s, offset, length, typ).1
    ensures var s' := Add(s, offset, length, typ).0;
            (exists c :: Spoils(s', c)) <==> s'.extents != [] && |s'.extents| < MAX_EXTENTS
  {
    OverlongState(s, offset, length, typ, ty);
    var s' := Add(s, offset, length, typ).0;
    if s'.extents != [] && |s'.extents| < MAX_EXTENTS {
      assert s.start < s.end by { OverlongInside(s, offset, length, typ, ty); }
      var c := UncheckedOverlap(s');
    }
    if c :| Spoils(s', c) {
      NothingToSpoil(s', c);
    }
  }

  lemma OverlongInside(s: State, offset: nat, length: nat, typ: bv32, ty: nat -> bv32)
    requires Good(s, ty) && INT64_MAX < offset + length < UINT64_RANGE && Add(s, offset, length, typ).0.extents != []
    ensures s.start < s.end
  {
    if s.extents != [] {
      EndAfterStart(s.extents, s.start);
    }
  }

  lemma NothingToSpoil(s: State, c: Call)
    requires Contiguous(s.extents, s.start) && ValidRange(s.start, s.end) && Spoils(s, c)
    ensures s.extents != [] && |s.extents| < MAX_EXTENTS
  {
  }

  // A first call of 2^63 bytes, and then one for the first byte again.
  lemma OverlongCallSpoils()
    ensures var s := State([Extent(0, 10, 0)], 0, 10, -1 - INT64_MAX);
            Add(New(0, 10), 0, INT64_MAX + 1, 0) == (s, true) && Spoils(s, Call(0, 1, 1))
  {
    var s := State([Extent(0, 10, 0)], 0, 10, -1 - INT64_MAX);
    assert Coalesce([], 0, 10, 0) == s.extents;
    var xs := Coalesce(s.extents, 0, 1, 1);
    assert xs == [Extent(0, 10, 0), Extent(0, 1, 1)];
    assert xs[1].offset != xs[0].End();
  }

  // ---------- Calls that wrap ----------

  lemma {:induction false} LastEnds(xs: seq<Extent>, from: nat)
    requires Contiguous(xs, from) && xs != []
    ensures xs[|xs| - 1].length <= EndOf(xs, from) - from
  {
    if |xs| > 1 {
      ContiguousOrder(xs, from, 0, |xs| - 1);
    }
  }

  /** A call whose end wraps around 2^64 is not clipped.  It takes the list as far as it
      should exactly if it starts beyond the range, or the list is full, or the range is
      empty.  Otherwise a list that is not empty ends beyond the range, or, if the length of
      its last extent wraps too, before what was already reported. */
  lemma WrappingCallIsWrong(s: State, offset: nat, length: nat, typ: bv32, ty: nat -> bv32)
    requires Good(s, ty) && offset < UINT64_RANGE && length < UINT64_RANGE <= offset + length
    requires Add(s, offset, length, typ).1
    ensures var to, to' := EndOf(s.extents, s.start), EndOf(Add(s, offset, length, typ).0.extents, s.start);
            && (to' == Reached(s, offset, length) <==>
                  offset >= s.end || |s.extents| == MAX_EXTENTS || s.start == s.end)
            && (s.extents != [] && offset < s.end && |s.extents| < MAX_EXTENTS ==>
                  var last := s.extents[|s.extents| - 1];
                  if last.typ == typ && last.length + length >= UINT64_RANGE then to' < to else to' > s.end)
  {
    if s.extents != [] {
      EndAfterStart(s.extents, s.start);
      LastEnds(s.extents, s.start);
    }
  }

  // Five bytes are reported out of ten, and then a call with the largest length.
  lemma WrappingCallSpoils()
    ensures var s := State([Extent(0, 5, 0)], 0, 10, 5);
            && Good(s, (x: nat) => 0)
            && Add(s, 5, UINT64_RANGE - 1, 0) == (s.(extents := [Extent(0, 4, 0)], next := 4), true)
            && Add(s, 5, UINT64_RANGE - 1, 1) ==
                 (s.(extents := [Extent(0, 5, 0), Extent(5, UINT64_RANGE - 1, 1)], next := 4), true)
  {
    var s := State([Extent(0, 5, 0)], 0, 10, 5);
    assert WrapU64(5 + (UINT64_RANGE - 1)) == 4 == AddU64(5, UINT64_RANGE - 1);
    assert Coalesce(s.extents, 5, UINT64_RANGE - 1, 0) == [Extent(0, 4, 0)];
    assert Coalesce(s.extents, 5, UINT64_RANGE - 1, 1) == [Extent(0, 5, 0), Extent(5, UINT64_RANGE - 1, 1)];
  }
}
