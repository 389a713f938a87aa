/** The sparse array allocator: a two-level page table over lazily allocated pages,
    shown to behave as a flat byte array that starts out all zero. */
module Sparse {
  import opened Common
  import opened ZeroBuffer

  const SPARSE_PAGE: nat := 32768
  const L2_SIZE: nat := 4096
  const L1_SPAN: nat := SPARSE_PAGE * L2_SIZE

  // ---------- The abstract value: a flat byte array ----------

  // The byte at x after data is written at offset over a byte that was `was`.
  function Patch(x: nat, offset: nat, data: seq<byte>, was: byte): byte {
    if offset <= x < offset + |data| then data[x - offset] else was
  }

  // Writing data piece by piece writes data.
  lemma PatchTwice(x: nat, offset: nat, data: seq<byte>, pos: nat, n: nat, was: byte)
    requires pos + n <= |data|
    ensures Patch(x, offset + pos, data[pos..][..n], Patch(x, offset, data[..pos], was))
            == Patch(x, offset, data[..pos + n], was)
    ensures Patch(x, offset, data[..0], was) == was
  {
  }

  function Repeat(c: byte, count: nat): seq<byte> {
    seq(count, _ => c)
  }

  lemma RepeatTwice(x: nat, offset: nat, c: byte, pos: nat, n: nat, was: byte)
    ensures Patch(x, offset + pos, Repeat(c, n), Patch(x, offset, Repeat(c, pos), was)) == Patch(x, offset, Repeat(c, pos + n), was)
    ensures Patch(x, offset, Repeat(c, 0), was) == was
  {
  }

  // ---------- The L1 directory ----------

  type PageRef = array?<byte>

  datatype L1Entry = L1Entry(offset: nat, l2: array<PageRef>)

  function PageOf(x: nat): nat { x / SPARSE_PAGE }

  predicate PageIs(page: nat, x: int) { x >= 0 && page == x / SPARSE_PAGE }

  predicate Covers(e: L1Entry, offset: nat) {
    e.offset <= offset < e.offset + L1_SPAN
  }

  // compare_l1_offsets: negative, zero or positive as offset is below, inside or
  // above the range of the entry.
  function CompareL1Offsets(offset: nat, e: L1Entry): (r: int)
    ensures r == 0 <==> Covers(e, offset)
    ensures r < 0 <==> offset < e.offset
    ensures r > 0 <==> e.offset + L1_SPAN <= offset
  {
    if offset < e.offset then -1
    else if offset >= e.offset + L1_SPAN then 1
    else 0
  }

  // The number of the first page of the range of an entry.
  ghost function FirstPage(e: L1Entry): nat { e.offset / SPARSE_PAGE }

  ghost predicate CoversPage(e: L1Entry, k: nat) {
    FirstPage(e) <= k < FirstPage(e) + L2_SIZE
  }

  ghost predicate Aligned(e: L1Entry) {
    e.offset % L1_SPAN == 0
  }

  lemma AlignedCoversPages(e: L1Entry, offset: nat)
    requires Aligned(e)
    ensures Covers(e, offset) <==> CoversPage(e, offset / SPARSE_PAGE)
    ensures Covers(e, offset) ==> (offset - e.offset) / SPARSE_PAGE == offset / SPARSE_PAGE - FirstPage(e)
    ensures e.offset == FirstPage(e) * SPARSE_PAGE && FirstPage(e) % L2_SIZE == 0
  {
    assert e.offset == L1_SPAN * (e.offset / L1_SPAN);
    assert FirstPage(e) == L2_SIZE * (e.offset / L1_SPAN);
  }

  // Entries are aligned and follow one another without overlap.
  ghost predicate Ordered(l1: seq<L1Entry>) {
    && (forall i {:trigger Aligned(l1[i])} :: 0 <= i < |l1| ==> Aligned(l1[i]))
    && (forall i, j :: 0 <= i < j < |l1| ==> FirstPage(l1[i]) + L2_SIZE <= FirstPage(l1[j]))
  }

  // The index of the entry of page k, -1 if there is none.
  ghost function EntryOf(l1: seq<L1Entry>, k: nat): (r: int)
    ensures -1 <= r < |l1|
    ensures r >= 0 ==> CoversPage(l1[r], k)
    ensures r < 0 ==> forall i :: 0 <= i < |l1| ==> !CoversPage(l1[i], k)
  {
    if i: nat :| i < |l1| && CoversPage(l1[i], k) then i else -1
  }

  lemma OneEntryCovers(l1: seq<L1Entry>, k: nat, i: nat)
    requires Ordered(l1) && i < |l1| && CoversPage(l1[i], k)
    ensures EntryOf(l1, k) == i
  {
    var r := EntryOf(l1, k);
    assert CoversPage(l1[r], k);
  }

  // l1_dir_search: binary search finds the entry of the page, if there is one.
  method SearchL1(l1: seq<L1Entry>, offset: nat) returns (r: int)
    requires Ordered(l1)
    ensures r == EntryOf(l1, offset / SPARSE_PAGE)
  {
    ghost var k := offset / SPARSE_PAGE;
    var low, high := 0, |l1|;
    while low < high
      invariant 0 <= low <= high <= |l1|
      invariant forall i :: 0 <= i < low ==> FirstPage(l1[i]) + L2_SIZE <= k
      invariant forall i :: high <= i < |l1| ==> k < FirstPage(l1[i])
    {
      var mid := (low + high) / 2;
      var c := CompareL1Offsets(offset, l1[mid]);
      assert Aligned(l1[mid]);
      AlignedCoversPages(l1[mid], offset);
      if c < 0 {
        high := mid;
      } else if c > 0 {
        low := mid + 1;
      } else {
        OneEntryCovers(l1, k, mid);
        return mid;
      }
    }
    return -1;
  }

  // insert_l1_entry: where a linear scan for the first larger offset puts a new entry.
  method InsertL1Entry(l1: seq<L1Entry>, entry: L1Entry) returns (i: nat)
    requires Ordered(l1) && Aligned(entry)
    requires EntryOf(l1, FirstPage(entry)) < 0
    ensures i <= |l1| && Ordered(l1[..i] + [entry] + l1[i..])
  {
    i := 0;
    while i < |l1|
      invariant i <= |l1|
      invariant forall j :: 0 <= j < i ==> FirstPage(l1[j]) + L2_SIZE <= FirstPage(entry)
    {
      assert Aligned(l1[i]) && !CoversPage(l1[i], FirstPage(entry));
      AlignedCoversPages(l1[i], entry.offset);
      AlignedCoversPages(entry, l1[i].offset);
      if entry.offset < l1[i].offset {
        break;
      }
      assert entry.offset != l1[i].offset; // sparse.c:215
      i := i + 1;
    }
    InsertionOrdered(l1, i, entry);
  }

  lemma InsertionOrdered(l1: seq<L1Entry>, i: nat, entry: L1Entry)
    requires Ordered(l1) && Aligned(entry) && i <= |l1|
    requires forall j :: 0 <= j < i ==> FirstPage(l1[j]) + L2_SIZE <= FirstPage(entry)
    requires i < |l1| ==> FirstPage(entry) + L2_SIZE <= FirstPage(l1[i])
    ensures Ordered(l1[..i] + [entry] + l1[i..])
  {
    var l1' := l1[..i] + [entry] + l1[i..];
    forall a | 0 <= a < |l1'| ensures Aligned(l1'[a]) {
      assert a < i ==> Aligned(l1[a]);
      assert a > i ==> Aligned(l1[a - 1]);
    }
  }

  // The directory-aligned start of the range that holds offset.
  function L1Base(offset: nat): (b: nat)
    ensures b % L1_SPAN == 0 && b <= offset < b + L1_SPAN
  {
    offset - offset % L1_SPAN
  }

  // Inserting an entry moves the others but finds the same ones for other pages.
  lemma InsertedEntryOf(l1: seq<L1Entry>, l1': seq<L1Entry>, i: nat, entry: L1Entry, k: nat)
    requires Ordered(l1') && i <= |l1| && l1' == l1[..i] + [entry] + l1[i..]
    ensures var r, r' := EntryOf(l1, k), EntryOf(l1', k);
            if CoversPage(entry, k) then r' == i && r < 0
            else r' == if r < i then r else r + 1
  {
    var r, r' := EntryOf(l1, k), EntryOf(l1', k);
    assert 0 <= r' < i ==> l1'[r'] == l1[r'];
    assert r' > i ==> l1'[r'] == l1[r' - 1];
    if CoversPage(entry, k) {
      OneEntryCovers(l1', k, i);
    }
    if r >= 0 {
      OneEntryCovers(l1', k, if r < i then r else r + 1);
    }
  }

  // ---------- Memory ----------

  // Memory is what the allocations to come will answer, in order; when there are no more
  // answers they succeed.  From before to after, all of them did, or the last one failed.
  ghost predicate Allocated(before: seq<bool>, after: seq<bool>, ok: bool) {
    var k := |before| - |after|;
    && 0 <= k && after == before[k..]
    && (forall j :: 0 <= j < (if ok then k else k - 1) ==> before[j])
    && (!ok ==> k > 0 && !before[k - 1])
  }

  lemma AllocatedThen(a: seq<bool>, b: seq<bool>, c: seq<bool>, ok: bool)
    requires Allocated(a, b, true) && Allocated(b, c, ok)
    ensures Allocated(a, c, ok)
  {
    assert forall j :: 0 <= j < |b| ==> b[j] == a[|a| - |b| + j];
  }

  lemma NoneAllocated(a: seq<bool>)
    ensures Allocated(a, a, true)
  {
  }

  // The next n allocations succeed, and what is left after them.
  ghost predicate Granted(memory: seq<bool>, n: nat) {
    forall j :: 0 <= j < n && j < |memory| ==> memory[j]
  }

  ghost function Rest(memory: seq<bool>, n: nat): seq<bool> {
    memory[Min(n, |memory|)..]
  }

  // n allocations were asked for, and ok tells whether they succeeded.
  ghost predicate Asked(before: seq<bool>, after: seq<bool>, n: nat, ok: bool) {
    && Allocated(before, after, ok)
    && (ok <==> Granted(before, n)) && (ok ==> after == Rest(before, n))
  }

  lemma AskedNothing(a: seq<bool>)
    ensures Asked(a, a, 0, true)
  {
  }

  lemma AskedThen(a: seq<bool>, b: seq<bool>, c: seq<bool>, n: nat, m: nat, ok: bool)
    requires Asked(a, b, n, true) && Asked(b, c, m, ok)
    ensures Asked(a, c, n + m, ok)
  {
    hide Allocated, Granted, Rest;
    AllocatedThen(a, b, c, ok);
    GrantedThen(a, n, m);
  }

  lemma GrantedThen(memory: seq<bool>, n: nat, m: nat)
    ensures Granted(memory, n + m) <==> Granted(memory, n) && Granted(Rest(memory, n), m)
    ensures Rest(memory, n + m) == Rest(Rest(memory, n), m)
  {
    if n < |memory| {
      var rest := Rest(memory, n);
      forall j | 0 <= j < |rest| ensures rest[j] == memory[n + j] {
      }
      forall j | n <= j < |memory| ensures memory[j] == rest[j - n] {
      }
    }
  }

  lemma AskedMore(a: seq<bool>, b: seq<bool>, n: nat, m: nat)
    requires Asked(a, b, n, false) && n <= m
    ensures Asked(a, b, m, false)
  {
    hide Allocated;
  }

  method Allocate(memory: seq<bool>) returns (ok: bool, left: seq<bool>)
    ensures Asked(memory, left, 1, ok)
  {
    if memory == [] {
      return true, memory;
    }
    return memory[0], memory[1..];
  }

  // ---------- How far a write gets ----------

  // The pages that are mapped, and those whose directory exists.
  datatype Table = Table(pages: iset<nat>, covered: iset<nat>)

  // The pages that share the directory of page k.
  ghost function Siblings(k: nat): iset<nat> {
    iset j: nat | j / L2_SIZE == k / L2_SIZE
  }

  // The directory of page k has been added.
  ghost predicate Added(was: seq<L1Entry>, now: seq<L1Entry>, k: nat) {
    forall j: nat :: EntryOf(now, j) >= 0 <==> EntryOf(was, j) >= 0 || j in Siblings(k)
  }

  lemma EntrySiblings(e: L1Entry, offset: nat, k: nat)
    requires Aligned(e) && Covers(e, offset)
    ensures CoversPage(e, k) <==> k in Siblings(offset / SPARSE_PAGE)
  {
    AlignedCoversPages(e, offset);
  }

  lemma DirectoryAdded(was: seq<L1Entry>, now: seq<L1Entry>, i: nat, entry: L1Entry, offset: nat)
    requires Ordered(now) && i <= |was| && now == was[..i] + [entry] + was[i..] && Aligned(entry) && Covers(entry, offset)
    ensures Added(was, now, offset / SPARSE_PAGE)
  {
    hide EntryOf, CoversPage, Ordered, Siblings;
    forall j: nat ensures EntryOf(now, j) >= 0 <==> EntryOf(was, j) >= 0 || j in Siblings(offset / SPARSE_PAGE) {
      InsertedEntryOf(was, now, i, entry, j);
      EntrySiblings(entry, offset, j);
    }
  }

  // The directory of page k is there, as before or added.
  ghost predicate Entered(was: seq<L1Entry>, now: seq<L1Entry>, k: nat) {
    if EntryOf(was, k) >= 0 then now == was else Added(was, now, k)
  }

  // What page k costs: itself, and a directory with its entry in the L1 vector.
  ghost function Needed(t: Table, k: nat): nat {
    Cost(k in t.pages, k in t.covered)
  }

  ghost function Cost(mapped: bool, covered: bool): nat {
    if mapped then 0 else if covered then 1 else 3
  }

  ghost function With(t: Table, k: nat): Table {
    Table(t.pages + iset{k}, if Needed(t, k) == 3 then t.covered + Siblings(k) else t.covered)
  }

  // The bytes of the range that can be stored before the first page that cannot be had.
  ghost function Reach(t: Table, memory: seq<bool>, offset: nat, count: nat): nat
    decreases count
  {
    var k := offset / SPARSE_PAGE;
    var n := Min(SPARSE_PAGE - offset % SPARSE_PAGE, count);
    if count == 0 || !Granted(memory, Needed(t, k)) then 0
    else n + Reach(With(t, k), Rest(memory, Needed(t, k)), offset + n, count - n)
  }

  // Page k was asked for, and ok tells whether it could be had.
  ghost predicate Had(t: Table, u: Table, k: nat, memory: seq<bool>, left: seq<bool>, ok: bool) {
    Asked(memory, left, Needed(t, k), ok) && (ok ==> u == With(t, k))
  }

  lemma ReachNothing()
    ensures forall t, memory, offset :: Reach(t, memory, offset, 0) == 0
  {
  }

  lemma ReachOn(t: Table, u: Table, memory: seq<bool>, left: seq<bool>, ok: bool, offset: nat, count: nat)
    requires count > 0 && Had(t, u, offset / SPARSE_PAGE, memory, left, ok)
    ensures var n := Min(SPARSE_PAGE - offset % SPARSE_PAGE, count);
            Reach(t, memory, offset, count) == if ok then n + Reach(u, left, offset + n, count - n) else 0
  {
    hide Allocated, Granted, Rest, With, Needed;
  }

  lemma {:induction false} ReachMapped(t: Table, memory: seq<bool>, offset: nat, count: nat)
    requires forall x: nat :: offset <= x < offset + count ==> PageOf(x) in t.pages
    ensures Reach(t, memory, offset, count) == count
    decreases count
  {
    hide Granted, Rest, With, Needed;
    if count > 0 {
      var n := Min(SPARSE_PAGE - offset % SPARSE_PAGE, count);
      assert PageOf(offset) in t.pages;
      WithMapped(t, PageOf(offset), memory);
      ReachMapped(t, memory, offset + n, count - n);
    }
  }

  lemma WithMapped(t: Table, k: nat, memory: seq<bool>)
    ensures k in t.pages ==> Needed(t, k) == 0 && With(t, k) == t
    ensures Granted(memory, 0) && Rest(memory, 0) == memory
  {
    assert k in t.pages ==> t.pages + iset{k} == t.pages;
  }

  // ---------- The allocator ----------

  datatype Outcome = Done | Failed | RestartExclusive

  class SparseArray {
    var l1: seq<L1Entry>

    ghost var Repr: set<object>
    // The page number each page was allocated for: no page is linked twice.
    ghost var home: map<array<byte>, nat>

    ghost predicate SlotOk(i: nat, s: nat)
      requires i < |l1| && s < l1[i].l2.Length
      reads this, l1[i].l2
    {
      var p := l1[i].l2[s];
      p != null ==>
        && p in Repr
        && p.Length == SPARSE_PAGE
        && p in home && home[p] == FirstPage(l1[i]) + s
    }

    ghost predicate DirsOk()
      reads this
    {
      && this in Repr
      && Ordered(l1)
      && (forall i :: 0 <= i < |l1| ==> l1[i].l2 in Repr && l1[i].l2.Length == L2_SIZE)
      && (forall i, j :: 0 <= i < j < |l1| ==> l1[i].l2 != l1[j].l2)
    }

    ghost predicate Valid()
      reads this, Repr
      ensures Valid() ==> DirsOk()
    {
      && DirsOk()
      && (forall i, s :: 0 <= i < |l1| && 0 <= s < L2_SIZE ==> SlotOk(i, s))
    }

    // The page that holds bytes [k * SPARSE_PAGE, (k+1) * SPARSE_PAGE), if mapped.
    ghost function PageAt(k: nat): PageRef
      requires DirsOk()
      reads this, Repr
    {
      var i := EntryOf(l1, k);
      if i < 0 then null else l1[i].l2[k - FirstPage(l1[i])]
    }

    // The slot that belongs to page k is the only one that can hold it.
    lemma PageHome(k: nat)
      requires Valid()
      ensures PageAt(k) != null ==>
                && PageAt(k) in Repr && PageAt(k).Length == SPARSE_PAGE
                && PageAt(k) in home && home[PageAt(k)] == k
    {
      var i := EntryOf(l1, k);
      if i >= 0 {
        assert SlotOk(i, k - FirstPage(l1[i]));
      }
    }

    ghost function At(x: nat): byte
      requires Valid()
      reads this, Repr
    {
      PageHome(x / SPARSE_PAGE);
      var p := PageAt(x / SPARSE_PAGE);
      if p == null then 0 else p[x % SPARSE_PAGE]
    }

    ghost function View(): Table
      requires DirsOk()
      reads this, Repr
    {
      Table(iset k: nat | PageAt(k) != null, iset k: nat | EntryOf(l1, k) >= 0)
    }

    // sparse_array_create
    constructor ()
      ensures Valid() && fresh(Repr)
      ensures forall k: nat :: PageAt(k) == null
      ensures forall x: nat :: At(x) == 0
    {
      l1 := [];
      Repr := {this};
      home := map[];
    }


    // Writing data over the bytes at offset in their page changes exactly those bytes of
    // the flat array and leaves the page table alone.
    twostate lemma PageChanged(new offset: nat, new p: array<byte>, new data: seq<byte>)
      requires old(Valid()) && p == old(PageAt(offset / SPARSE_PAGE)) && offset % SPARSE_PAGE + |data| <= SPARSE_PAGE
      requires unchanged(this) && unchanged(Repr - {p})
      requires forall i :: 0 <= i < p.Length ==> p[i] == Patch(i, offset % SPARSE_PAGE, data, old(p[i]))
      ensures Valid()
      ensures forall j: nat :: PageAt(j) == old(PageAt(j))
      ensures forall x: nat :: At(x) == Patch(x, offset, data, old(At(x)))
    {
      var k := offset / SPARSE_PAGE;
      forall i, s | 0 <= i < |l1| && 0 <= s < L2_SIZE ensures SlotOk(i, s) {
        assert old(SlotOk(i, s));
      }
      PageHome(k);
      forall x: nat ensures At(x) == Patch(x, offset, data, old(At(x))) {
        var q := PageAt(x / SPARSE_PAGE);
        PageHome(x / SPARSE_PAGE);
        assert q == old(PageAt(x / SPARSE_PAGE));
        assert q == p <==> x / SPARSE_PAGE == k;
      }
    }

    // lookup with create == false: no allocation, no change.  Returns the page, the
    // bytes left from offset to its end, and the directory slot that holds it.
    method Lookup(offset: nat)
      returns (p: PageRef, remaining: nat, dir: array?<PageRef>, slot: nat, ghost entry: int)
      requires Valid()
      ensures remaining == SPARSE_PAGE - offset % SPARSE_PAGE
      ensures p == PageAt(offset / SPARSE_PAGE)
      ensures dir != null ==> HoldsSlot(entry, dir, slot, offset / SPARSE_PAGE)
      ensures dir == null ==> EntryOf(l1, offset / SPARSE_PAGE) < 0 && p == null
    {
      remaining := SPARSE_PAGE - offset % SPARSE_PAGE;
      var i := SearchL1(l1, offset);
      entry := i;
      dir, slot := null, 0;
      if i >= 0 {
        assert Aligned(l1[i]);
        AlignedCoversPages(l1[i], offset);
        dir, slot := l1[i].l2, (offset - l1[i].offset) / SPARSE_PAGE;
        p := dir[slot];
      } else {
        p := null;
      }
    }

    // Allocate the zeroed page k in its empty slot.
    method LinkPage(ghost k: nat, ghost entry: int, dir: array<PageRef>, slot: nat) returns (p: array<byte>)
      requires Valid() && HoldsSlot(entry, dir, slot, k) && PageAt(k) == null
      modifies this`Repr, this`home, dir
      ensures Valid() && Repr == old(Repr) + {p} && fresh(p)
      ensures p == PageAt(k) && HoldsSlot(entry, dir, slot, k)
      ensures forall j: nat :: j != k ==> PageAt(j) == old(PageAt(j))
      ensures forall x: nat :: At(x) == old(At(x))
    {
      p := new byte[SPARSE_PAGE](_ => 0);
      dir[slot] := p;
      Repr := Repr + {p};
      home := home[p := k];
      forall i, s | 0 <= i < |l1| && 0 <= s < L2_SIZE ensures SlotOk(i, s) {
        assert old(SlotOk(i, s));
      }
      OneEntryCovers(l1, k, entry);
      forall j: nat | j != k ensures PageAt(j) == old(PageAt(j)) {
      }
      forall x: nat ensures At(x) == old(At(x)) {
        assert x / SPARSE_PAGE != k ==> PageAt(x / SPARSE_PAGE) == old(PageAt(x / SPARSE_PAGE));
      }
    }

    twostate lemma InsertedPages(new i: nat, new entry: L1Entry)
      requires old(Valid()) && DirsOk() && i <= |old(l1)|
      requires l1 == old(l1)[..i] + [entry] + old(l1)[i..]
      requires unchanged(old(Repr) - {this})
      requires entry.l2.Length == L2_SIZE && forall s :: 0 <= s < L2_SIZE ==> entry.l2[s] == null
      ensures forall j: nat :: PageAt(j) == old(PageAt(j))
    {
      forall j: nat ensures PageAt(j) == old(PageAt(j)) {
        var r, r' := EntryOf(old(l1), j), EntryOf(l1, j);
        InsertedEntryOf(old(l1), l1, i, entry, j);
        if r' == i {
          assert entry.l2[j - FirstPage(entry)] == null;
        } else if r' >= 0 {
          assert l1[r'] == old(l1)[r];
        }
      }
    }

    twostate lemma SameView()
      requires old(DirsOk()) && DirsOk() && l1 == old(l1) && forall j: nat :: PageAt(j) == old(PageAt(j))
      ensures View() == old(View())
    {
      var t, u := old(View()), View();
      assert t.pages == u.pages;
    }

    twostate lemma PageInView(k: nat)
      requires old(DirsOk()) && DirsOk() && PageAt(k) != null && Entered(old(l1), l1, k)
      requires forall j: nat :: j != k ==> PageAt(j) == old(PageAt(j))
      ensures View() == With(old(View()), k)
    {
      hide Siblings, SparseArray.PageAt;
      var t, u := old(View()), View();
      CostWas(k);
      assert u.pages == With(t, k).pages;
      assert u.covered == With(t, k).covered;
    }

    twostate lemma CostWas(k: nat)
      requires old(DirsOk())
      ensures Needed(old(View()), k) == Cost(old(PageAt(k)) != null, EntryOf(old(l1), k) >= 0)
      ensures EntryOf(old(l1), k) < 0 ==> old(PageAt(k)) == null
    {
    }

    // Linking an empty directory changes no page.
    method InsertDirectory(i: nat, entry: L1Entry)
      requires Valid() && i <= |l1| && Ordered(l1[..i] + [entry] + l1[i..])
      requires entry.l2 !in Repr && entry.l2.Length == L2_SIZE
      requires forall s :: 0 <= s < L2_SIZE ==> entry.l2[s] == null
      modifies this`l1, this`Repr
      ensures Valid() && Repr == old(Repr) + {entry.l2}
      ensures l1 == old(l1[..i] + [entry] + l1[i..])
      ensures forall j: nat :: PageAt(j) == old(PageAt(j))
      ensures forall x: nat :: At(x) == old(At(x))
    {
      l1 := l1[..i] + [entry] + l1[i..];
      Repr := Repr + {entry.l2};
      forall a, s | 0 <= a < |l1| && 0 <= s < L2_SIZE ensures SlotOk(a, s) {
        if a != i {
          assert old(SlotOk(if a < i then a else a - 1, s));
        }
      }
      InsertedPages(i, entry);
    }

    // Allocate an empty L2 directory for the range around offset and insert it.
    method AddDirectory(offset: nat, memory: seq<bool>) returns (ok: bool, left: seq<bool>)
      requires Valid() && EntryOf(l1, offset / SPARSE_PAGE) < 0
      modifies this`l1, this`Repr
      ensures Valid() && old(Repr) <= Repr && fresh(Repr - old(Repr))
      ensures ok ==> EntryOf(l1, offset / SPARSE_PAGE) >= 0 && Added(old(l1), l1, offset / SPARSE_PAGE)
      ensures Asked(memory, left, 2, ok)
      ensures forall j: nat :: PageAt(j) == old(PageAt(j))
      ensures forall x: nat :: At(x) == old(At(x))
    {
      hide Asked, SparseArray.At, SparseArray.PageAt;
      ok, left := Allocate(memory); // of the directory
      if !ok {
        AskedMore(memory, left, 1, 2);
        return;
      }
      var l2 := new PageRef[L2_SIZE](_ => null);
      var entry := L1Entry(L1Base(offset), l2);
      BaseCovers(l1, entry, offset);
      var i := InsertL1Entry(l1, entry);
      ghost var rest := left;
      ok, left := Allocate(left); // to grow the vector
      AskedThen(memory, rest, left, 1, 1, ok);
      if !ok {
        return;
      }
      InsertDirectory(i, entry);
      DirectoryAdded(old(l1), l1, i, entry, offset);
      OneEntryCovers(l1, offset / SPARSE_PAGE, i);
    }

    // Allocate page k if it was not found, unless there is no memory.
    method CreatePage(ghost k: nat, found: PageRef, ghost entry: int, dir: array<PageRef>, slot: nat, memory: seq<bool>)
      returns (p: PageRef, left: seq<bool>)
      requires Valid() && HoldsSlot(entry, dir, slot, k) && found == PageAt(k)
      modifies this`Repr, this`home, dir
      ensures Valid() && old(Repr) <= Repr && fresh(Repr - old(Repr))
      ensures Asked(memory, left, Cost(found != null, true), p != null) && (found != null ==> p == found)
      ensures p == PageAt(k) && HoldsSlot(entry, dir, slot, k)
      ensures forall j: nat :: j != k ==> PageAt(j) == old(PageAt(j))
      ensures forall x: nat :: At(x) == old(At(x))
    {
      AskedNothing(memory);
      hide Asked, SparseArray.Valid, SparseArray.At, SparseArray.PageAt;
      p, left := found, memory;
      if p == null {
        var ok;
        ok, left := Allocate(memory);
        if ok {
          p := LinkPage(k, entry, dir, slot);
        }
      }
    }

    // lookup with create == true: a missing directory is allocated and the search
    // repeated; a missing page is allocated.  A null page is an allocation failure.
    method LookupCreate(offset: nat, memory: seq<bool>)
      returns (p: PageRef, remaining: nat, dir: array?<PageRef>, slot: nat, ghost entry: int, ghost searches: nat, left: seq<bool>)
      requires Valid()
      modifies Repr
      ensures Valid() && old(Repr) <= Repr && fresh(Repr - old(Repr))
      ensures remaining == SPARSE_PAGE - offset % SPARSE_PAGE
      ensures searches <= 2
      ensures p == PageAt(offset / SPARSE_PAGE) && (p != null ==> HoldsSlot(entry, dir, slot, offset / SPARSE_PAGE))
      ensures Asked(memory, left, Cost(old(PageAt(offset / SPARSE_PAGE)) != null, EntryOf(old(l1), offset / SPARSE_PAGE) >= 0), p != null)
      ensures p != null ==> Entered(old(l1), l1, offset / SPARSE_PAGE)
      ensures old(PageAt(offset / SPARSE_PAGE)) != null ==> p == old(PageAt(offset / SPARSE_PAGE))
      ensures forall j: nat :: j == offset / SPARSE_PAGE || PageAt(j) == old(PageAt(j))
      ensures forall x: nat :: At(x) == old(At(x))
    {
      remaining := SPARSE_PAGE - offset % SPARSE_PAGE;
      searches := 0;
      left := memory;
      ghost var k := offset / SPARSE_PAGE;
      CostWas(k);
      hide Asked, Added, SparseArray.Valid, SparseArray.At, SparseArray.PageAt;
      while true
        invariant Valid() && old(Repr) <= Repr && fresh(Repr - old(Repr))
        invariant searches == 0 ==> left == memory && l1 == old(l1)
        invariant searches != 0 ==> searches == 1 && EntryOf(l1, k) >= 0 && EntryOf(old(l1), k) < 0
        invariant searches != 0 ==> Asked(memory, left, 2, true) && Added(old(l1), l1, k)
        invariant forall j: nat :: PageAt(j) == old(PageAt(j))
        invariant forall x: nat :: At(x) == old(At(x))
        decreases 2 - searches
      {
        searches := searches + 1;
        var rest;
        p, rest, dir, slot, entry := Lookup(offset);
        ghost var before := left;
        if dir != null {
          p, left := CreatePage(k, p, entry, dir, slot, left);
          if searches == 2 {
            AskedThen(memory, before, left, 2, 1, p != null);
          }
          return;
        }
        var ok;
        ok, left := AddDirectory(offset, left);
        if !ok {
          AskedMore(memory, left, 2, 3);
          return;
        }
      }
    }

    // memcpy or memset into the mapped page at offset.
    method Store(p: array<byte>, offset: nat, data: seq<byte>)
      requires Valid() && p == PageAt(offset / SPARSE_PAGE) && offset % SPARSE_PAGE + |data| <= SPARSE_PAGE
      modifies p
      ensures Valid()
      ensures forall j: nat :: PageAt(j) == old(PageAt(j))
      ensures forall x: nat :: At(x) == Patch(x, offset, data, old(At(x)))
    {
      var pos := offset % SPARSE_PAGE;
      PageHome(offset / SPARSE_PAGE);
      forall i | 0 <= i < |data| {
        p[pos + i] := data[i];
      }
      PageChanged(offset, p, data);
    }

    // Free page k and clear its slot: the whole page now reads as zero.
    method FreePage(ghost k: nat, ghost entry: int, dir: array<PageRef>, slot: nat)
      requires Valid() && HoldsSlot(entry, dir, slot, k)
      modifies dir
      ensures Valid() && PageAt(k) == null
      ensures forall j: nat :: j != k ==> PageAt(j) == old(PageAt(j))
      ensures forall x: nat :: At(x) == Patch(x, k * SPARSE_PAGE, Repeat(0, SPARSE_PAGE), old(At(x)))
    {
      dir[slot] := null;
      forall i, s | 0 <= i < |l1| && 0 <= s < L2_SIZE ensures SlotOk(i, s) {
        assert old(SlotOk(i, s));
      }
      OneEntryCovers(l1, k, entry);
      forall j: nat | j != k ensures PageAt(j) == old(PageAt(j)) {
      }
      forall x: nat ensures At(x) == Patch(x, k * SPARSE_PAGE, Repeat(0, SPARSE_PAGE), old(At(x))) {
        assert x / SPARSE_PAGE != k ==> PageAt(x / SPARSE_PAGE) == old(PageAt(x / SPARSE_PAGE));
      }
    }

    // One round of sparse_array_read.
    method ReadPage(buf: array<byte>, at: nat, count: nat, offset: nat) returns (n: nat)
      requires Valid() && buf !in Repr && at + count <= buf.Length && count > 0
      modifies buf
      ensures 0 < n <= count
      ensures forall i :: at <= i < at + n ==> buf[i] == At(offset + (i - at))
      ensures forall i :: 0 <= i < buf.Length && !(at <= i < at + n) ==> buf[i] == old(buf[i])
    {
      ghost var k := offset / SPARSE_PAGE;
      var p, rest, dir, slot, entry := Lookup(offset);
      n := Min(rest, count);
      PageHome(k);
      if p == null {
        forall i | at <= i < at + n {
          buf[i] := 0;
        }
      } else {
        var pos := offset % SPARSE_PAGE;
        forall i | at <= i < at + n {
          buf[i] := p[pos + (i - at)];
        }
      }
      forall i | at <= i < at + n ensures buf[i] == At(offset + (i - at)) {
        assert (offset + (i - at)) / SPARSE_PAGE == k;
      }
    }

    // sparse_array_read: buf[at..at + count] receives the bytes of the range.
    method Read(buf: array<byte>, at: nat, count: nat, offset: nat)
      requires Valid() && buf !in Repr && at + count <= buf.Length
      requires offset + count <= INT64_MAX
      modifies buf
      ensures forall i :: at <= i < at + count ==> buf[i] == At(offset + (i - at))
      ensures forall i :: 0 <= i < buf.Length && !(at <= i < at + count) ==> buf[i] == old(buf[i])
    {
      hide SparseArray.Valid, SparseArray.At;
      var done := 0;
      while done < count
        invariant done <= count
        invariant forall i :: at <= i < at + done ==> buf[i] == At(offset + (i - at))
        invariant forall i :: 0 <= i < buf.Length && !(at <= i < at + done) ==> buf[i] == old(buf[i])
      {
        var n := ReadPage(buf, at + done, count - done, offset + done);
        done := done + n;
      }
    }

    // One round of a write loop: find (or, with the exclusive lock, create) the page
    // at offset and store as much of data as fits in it.
    method WritePage(exclusive: bool, offset: nat, data: seq<byte>, memory: seq<bool>) returns (r: Outcome, n: nat, left: seq<bool>)
      requires Valid() && data != []
      modifies Repr
      ensures Valid() && old(Repr) <= Repr && fresh(Repr - old(Repr))
      ensures n <= |data| && (r == Done <==> n > 0)
      ensures forall x: nat :: At(x) == Patch(x, offset, data[..n], old(At(x)))
      ensures exclusive ==> r != RestartExclusive
      ensures !exclusive ==> r != Failed && l1 == old(l1) && Repr == old(Repr)
      ensures !exclusive ==> forall j: nat :: PageAt(j) == old(PageAt(j))
      ensures if exclusive then Allocated(memory, left, r == Done)
              else left == memory && (r == Done <==> old(PageAt(offset / SPARSE_PAGE)) != null)
      ensures r == Done ==> n == Min(SPARSE_PAGE - offset % SPARSE_PAGE, |data|)
      ensures exclusive ==> Had(old(View()), View(), offset / SPARSE_PAGE, memory, left, r == Done)
      ensures r == Done || PageAt(PageOf(offset)) == null
      ensures forall x: nat :: offset <= x < offset + n ==> PageAt(PageOf(x)) != null
      ensures forall j: nat :: old(PageAt(j)) != null ==> PageAt(j) == old(PageAt(j))
    {
      hide Allocated, Granted, Rest, With, Needed, SparseArray.View;
      var p, rest, dir, slot;
      left := memory;
      ghost var entry, searches;
      if !exclusive {
        p, rest, dir, slot, entry := Lookup(offset);
        if p == null {
          return RestartExclusive, 0, left;
        }
      } else {
        p, rest, dir, slot, entry, searches, left := LookupCreate(offset, memory);
        CostWas(offset / SPARSE_PAGE);
        if p == null {
          return Failed, 0, left;
        }
        PageInView(offset / SPARSE_PAGE);
      }
      n := Min(rest, |data|);
      PageHome(offset / SPARSE_PAGE);
      label found:
      Store(p, offset, data[..n]);
      SameView@found();
      assert forall x: nat :: offset <= x < offset + n ==> PageOf(x) == offset / SPARSE_PAGE;
      r := Done;
    }

    // do_write
    method DoWrite(exclusive: bool, buf: seq<byte>, offset: nat, memory: seq<bool>)
      returns (r: Outcome, ghost done: nat, left: seq<bool>)
      requires Valid() && offset + |buf| <= INT64_MAX
      modifies Repr
      ensures Valid() && old(Repr) <= Repr && fresh(Repr - old(Repr))
      ensures done <= |buf| && (r == Done <==> done == |buf|)
      ensures forall x: nat :: At(x) == Patch(x, offset, buf[..done], old(At(x)))
      ensures exclusive ==> r != RestartExclusive && Allocated(memory, left, r == Done)
      ensures exclusive ==> done == Reach(old(View()), memory, offset, |buf|)
      ensures !exclusive ==> r != Failed && l1 == old(l1) && Repr == old(Repr) && left == memory
      ensures !exclusive ==> forall j: nat :: PageAt(j) == old(PageAt(j))
      ensures r == Done || PageAt(PageOf(offset + done)) == null
      ensures forall x: nat :: offset <= x < offset + done ==> PageAt(PageOf(x)) != null
      ensures forall j: nat :: old(PageAt(j)) != null ==> PageAt(j) == old(PageAt(j))
    {
      NoneAllocated(memory);
      hide Allocated, PageOf, SparseArray.Valid, SparseArray.At, SparseArray.PageAt, Patch, SparseArray.View, Had, Reach;
      ReachNothing();
      var pos := 0;
      forall x: nat ensures At(x) == Patch(x, offset, buf[..0], At(x)) { PatchTwice(x, offset, buf, 0, 0, At(x)); }
      left := memory;
      while pos < |buf|
        invariant pos <= |buf|
        invariant Valid() && old(Repr) <= Repr && fresh(Repr - old(Repr))
        invariant !exclusive ==> l1 == old(l1) && Repr == old(Repr) && left == memory
        invariant !exclusive ==> forall j: nat :: PageAt(j) == old(PageAt(j))
        invariant Allocated(memory, left, true)
        invariant exclusive ==> pos + Reach(View(), left, offset + pos, |buf| - pos) == Reach(old(View()), memory, offset, |buf|)
        invariant forall x: nat :: offset <= x < offset + pos ==> PageAt(PageOf(x)) != null
        invariant forall j: nat :: old(PageAt(j)) != null ==> PageAt(j) == old(PageAt(j))
        invariant forall x: nat :: At(x) == Patch(x, offset, buf[..pos], old(At(x)))
      {
        var n;
        ghost var t, rest := View(), left;
        r, n, left := WritePage(exclusive, offset + pos, buf[pos..], left);
        if exclusive {
          AllocatedThen(memory, rest, left, r == Done);
          ReachOn(t, View(), rest, left, r == Done, offset + pos, |buf| - pos);
        }
        forall x: nat ensures At(x) == Patch(x, offset, buf[..pos + n], old(At(x))) {
          PatchTwice(x, offset, buf, pos, n, old(At(x)));
        }
        if r != Done {
          return r, pos, left;
        }
        pos := pos + n;
      }
      return Done, pos, left;
    }

    lemma MappedReach(buf: seq<byte>, offset: nat, memory: seq<bool>)
      requires Valid() && forall x: nat :: offset <= x < offset + |buf| ==> PageAt(PageOf(x)) != null
      ensures Reach(View(), memory, offset, |buf|) == |buf|
    {
      hide Reach, SparseArray.PageAt, PageOf;
      ReachMapped(View(), memory, offset, |buf|);
    }

    // sparse_array_write: try under the shared lock, restart under the exclusive one.
    // The shared pass has stored a prefix of what the exclusive one stores.
    method Write(buf: seq<byte>, offset: nat, memory: seq<bool>)
      returns (ok: bool, ghost tried: nat, ghost done: nat, left: seq<bool>)
      requires Valid() && offset + |buf| <= INT64_MAX
      modifies Repr
      ensures Valid() && old(Repr) <= Repr && fresh(Repr - old(Repr))
      ensures tried <= done == Reach(old(View()), memory, offset, |buf|) <= |buf|
      ensures (ok <==> done == |buf|) && Allocated(memory, left, ok)
      ensures forall x: nat :: At(x) == Patch(x, offset, buf[..done], old(At(x)))
    {
      NoneAllocated(memory);
      hide Allocated, Reach, SparseArray.Valid, SparseArray.At, SparseArray.PageAt, SparseArray.View;
      var r;
      r, tried, left := DoWrite(false, buf, offset, memory);
      SameView();
      done := tried;
      if r == RestartExclusive {
        r, done, left := DoWrite(true, buf, offset, left);
        assert tried <= done; // the pages below tried were there
      } else {
        MappedReach(buf, offset, memory);
      }
      ok := r == Done;
    }

    // sparse_array_fill
    method Fill(c: byte, count: nat, offset: nat, memory: seq<bool>) returns (ok: bool, ghost done: nat, left: seq<bool>)
      requires Valid() && offset + count <= INT64_MAX
      modifies Repr
      ensures Valid() && old(Repr) <= Repr && fresh(Repr - old(Repr))
      ensures done == if c == 0 then count else Reach(old(View()), memory, offset, count)
      ensures done <= count && (ok <==> done == count) && Allocated(memory, left, ok)
      ensures forall x: nat :: At(x) == Patch(x, offset, Repeat(c, done), old(At(x)))
      ensures c == 0 && count > 0 ==> UsefulPages(offset / SPARSE_PAGE, (offset + count - 1) / SPARSE_PAGE + 1)
    {
      NoneAllocated(memory);
      hide Allocated, SparseArray.View, Had, Reach, SparseArray.UsefulPages;
      ReachNothing();
      left := memory;
      if c == 0 {
        ok, done := Zero(count, offset);
        return;
      }
      var pos := 0;
      while pos < count
        invariant pos <= count && Allocated(memory, left, true)
        invariant Valid() && old(Repr) <= Repr && fresh(Repr - old(Repr))
        invariant pos + Reach(View(), left, offset + pos, count - pos) == Reach(old(View()), memory, offset, count)
        invariant forall x: nat :: At(x) == Patch(x, offset, Repeat(c, pos), old(At(x)))
      {
        ghost var t, rest := View(), left;
        var r, n;
        r, n, left := WritePage(true, offset + pos, Repeat(c, count - pos), left);
        ReachOn(t, View(), rest, left, r == Done, offset + pos, count - pos);
        AllocatedThen(memory, rest, left, r == Done);
        if r != Done {
          return false, pos, left;
        }
        pos := pos + n;
      }
      return true, pos, left;
    }

    // Page k is unmapped or holds some data.
    ghost predicate Useful(k: nat)
      requires Valid()
      reads this, Repr
    {
      PageAt(k) == null || exists x: nat :: x / SPARSE_PAGE == k && At(x) != 0
    }

    ghost predicate UsefulPages(from: nat, to: nat)
      requires Valid()
      reads this, Repr
    {
      forall k: nat :: from <= k < to ==> Useful(k)
    }

    // Free page k if it has become all zero, which needs the exclusive lock.
    method FreeIfZero(exclusive: bool, ghost k: nat, ghost entry: int, dir: array<PageRef>, slot: nat) returns (r: Outcome)
      requires Valid() && HoldsSlot(entry, dir, slot, k) && PageAt(k) != null
      modifies dir
      ensures Valid()
      ensures r != Failed && (exclusive ==> r == Done) && (r == Done ==> Useful(k))
      ensures forall x: nat :: At(x) == old(At(x))
      ensures forall j: nat :: j != k || !exclusive ==> PageAt(j) == old(PageAt(j))
    {
      PageHome(k);
      OneEntryCovers(l1, k, entry);
      var zero := IsZero(dir[slot], 0, SPARSE_PAGE);
      ghost var page := dir[slot][0..SPARSE_PAGE];
      if !zero {
        ghost var i :| 0 <= i < |page| && page[i] != 0;
        assert At(k * SPARSE_PAGE + i) != 0;
      } else if exclusive {
        assert forall x: nat :: x / SPARSE_PAGE == k ==> At(x) == page[x % SPARSE_PAGE];
        FreePage(k, entry, dir, slot);
      }
      r := if zero && !exclusive then RestartExclusive else Done;
    }

    // Clearing bytes of one page leaves every other page as useful as it was.
    twostate lemma StillUseful(new from: nat, new offset: nat, new n: nat)
      requires old(Valid()) && Valid() && n <= SPARSE_PAGE - offset % SPARSE_PAGE
      requires forall x: nat :: At(x) == Patch(x, offset, Repeat(0, n), old(At(x)))
      requires forall j: nat :: j != offset / SPARSE_PAGE ==> PageAt(j) == old(PageAt(j))
      requires old(UsefulPages(from, offset / SPARSE_PAGE))
      ensures UsefulPages(from, offset / SPARSE_PAGE)
    {
      forall j: nat | from <= j < offset / SPARSE_PAGE ensures Useful(j) {
        assert old(Useful(j));
        if PageAt(j) != null {
          var x: nat :| x / SPARSE_PAGE == j && old(At(x)) != 0;
          assert At(x) != 0;
        }
      }
    }

    // One round of do_zero.  n bytes were cleared, also when the round asks to restart.
    method ZeroPage(exclusive: bool, offset: nat, count: nat, ghost from: nat) returns (r: Outcome, n: nat)
      requires Valid() && count > 0 && UsefulPages(from, offset / SPARSE_PAGE)
      modifies Repr
      ensures Valid() && Repr == old(Repr) && l1 == old(l1)
      ensures r != Failed && (exclusive ==> r == Done)
      ensures n <= count && n <= SPARSE_PAGE - offset % SPARSE_PAGE
      ensures r == Done ==> n == Min(SPARSE_PAGE - offset % SPARSE_PAGE, count)
      ensures forall x: nat :: At(x) == Patch(x, offset, Repeat(0, n), old(At(x)))
      ensures forall j: nat :: j != offset / SPARSE_PAGE || !exclusive ==> PageAt(j) == old(PageAt(j))
      ensures r == Done ==> UsefulPages(from, offset / SPARSE_PAGE + 1)
    {
      ghost var k := offset / SPARSE_PAGE;
      var p, rest, dir, slot, entry := Lookup(offset);
      n := Min(rest, count);
      if p == null {
        forall x: nat | offset <= x < offset + n ensures At(x) == 0 {
          assert x / SPARSE_PAGE == k;
        }
        return Done, n;
      }
      PageHome(k);
      if n < SPARSE_PAGE {
        Store(p, offset, Repeat(0, n));
        r := FreeIfZero(exclusive, k, entry, dir, slot);
      } else {
        assert offset == k * SPARSE_PAGE && n == SPARSE_PAGE; // sparse.c:445
        if !exclusive {
          return RestartExclusive, 0;
        }
        FreePage(k, entry, dir, slot);
        r := Done;
      }
      StillUseful(from, offset, n);
    }

    // The same round, which starts in the given page and ends with it or before.
    method ZeroRound(exclusive: bool, offset: nat, count: nat, ghost from: nat, ghost page: nat) returns (r: Outcome, n: nat)
      requires Valid() && count > 0 && PageIs(page, offset) && UsefulPages(from, page)
      modifies Repr
      ensures Valid() && Repr == old(Repr) && l1 == old(l1)
      ensures r != Failed && (exclusive ==> r == Done) && n <= count
      ensures forall x: nat :: At(x) == Patch(x, offset, Repeat(0, n), old(At(x)))
      ensures !exclusive ==> forall j: nat :: PageAt(j) == old(PageAt(j))
      ensures r == Done ==> n > 0 && UsefulPages(from, page + 1)
      ensures r == Done ==> if n < count then PageIs(page + 1, offset + n) else PageIs(page, offset + count - 1)
    {
      hide SparseArray.Valid, SparseArray.At, SparseArray.PageAt, SparseArray.UsefulPages, Patch, Repeat;
      r, n := ZeroPage(exclusive, offset, count, from);
      if r == Done {
        RoundEnds(offset, count, n);
      }
    }

    // do_zero
    method DoZero(exclusive: bool, count: nat, offset: nat) returns (r: Outcome, ghost done: nat)
      requires Valid() && offset + count <= INT64_MAX
      modifies Repr
      ensures Valid() && Repr == old(Repr) && l1 == old(l1)
      ensures r != Failed && (exclusive ==> r == Done)
      ensures done <= count && (r == Done ==> done == count)
      ensures forall x: nat :: At(x) == Patch(x, offset, Repeat(0, done), old(At(x)))
      ensures !exclusive ==> forall j: nat :: PageAt(j) == old(PageAt(j))
      ensures r == Done && count > 0 ==> UsefulPages(offset / SPARSE_PAGE, (offset + count - 1) / SPARSE_PAGE + 1)
    {
      ghost var first: nat := offset / SPARSE_PAGE;
      assert UsefulPages(first, first) && PageIs(first, offset);
      ghost var last := offset + count - 1;
      assert forall k: nat :: PageIs(k, last) ==> k == last / SPARSE_PAGE;
      hide SparseArray.Valid, SparseArray.At, SparseArray.PageAt, SparseArray.UsefulPages, Patch, Repeat, PageIs;
      var pos := 0;
      ghost var page: nat := first;
      forall x: nat ensures At(x) == Patch(x, offset, Repeat(0, 0), At(x)) { RepeatTwice(x, offset, 0, 0, 0, At(x)); }
      while pos < count
        invariant pos <= count && (pos < count ==> PageIs(page, offset + pos))
        invariant pos == count > 0 ==> page > 0 && PageIs(page - 1, last)
        invariant Valid() && Repr == old(Repr) && l1 == old(l1)
        invariant forall x: nat :: At(x) == Patch(x, offset, Repeat(0, pos), old(At(x)))
        invariant !exclusive ==> forall j: nat :: PageAt(j) == old(PageAt(j))
        invariant UsefulPages(first, page)
      {
        var n;
        r, n := ZeroRound(exclusive, offset + pos, count - pos, first, page);
        forall x: nat ensures At(x) == Patch(x, offset, Repeat(0, pos + n), old(At(x))) {
          RepeatTwice(x, offset, 0, pos, n, old(At(x)));
        }
        if r != Done {
          return r, pos + n;
        }
        pos := pos + n;
        page := page + 1;
      }
      return Done, pos;
    }

    // sparse_array_zero
    method Zero(count: nat, offset: nat) returns (ok: bool, ghost done: nat)
      requires Valid() && offset + count <= INT64_MAX
      modifies Repr
      ensures Valid() && old(Repr) <= Repr && fresh(Repr - old(Repr))
      ensures ok && done == count
      ensures forall x: nat :: At(x) == Patch(x, offset, Repeat(0, count), old(At(x)))
      ensures count > 0 ==> UsefulPages(offset / SPARSE_PAGE, (offset + count - 1) / SPARSE_PAGE + 1)
    {
      var r;
      r, done := DoZero(false, count, offset);
      if r == RestartExclusive {
        r, done := DoZero(true, count, offset);
      }
      ok := r == Done;
    }

    // Read n bytes of src straight into the page at offset2.
    method ReadInto(src: SparseArray, p: array<byte>, n: nat, offset1: nat, offset2: nat)
      requires Valid() && p == PageAt(offset2 / SPARSE_PAGE) && offset2 % SPARSE_PAGE + n <= SPARSE_PAGE
      requires src.Valid() && src.Repr !! Repr && offset1 + n <= INT64_MAX
      modifies p
      ensures Valid()
      ensures forall j: nat :: PageAt(j) == old(PageAt(j))
      ensures forall x: nat :: At(x) == if offset2 <= x < offset2 + n then old(src.At(offset1 + (x - offset2))) else old(At(x))
    {
      var pos := offset2 % SPARSE_PAGE;
      PageHome(offset2 / SPARSE_PAGE);
      src.Read(p, pos, n, offset1);
      PageChanged(offset2, p, p[pos..pos + n]);
      forall x: nat | offset2 <= x < offset2 + n ensures At(x) == old(src.At(offset1 + (x - offset2))) {
        assert At(x) == p[pos + (x - offset2)];
      }
    }

    // One round of sparse_array_blit: read the source straight into the page.
    method BlitPage(src: SparseArray, count: nat, offset1: nat, offset2: nat, memory: seq<bool>) returns (n: nat, left: seq<bool>)
      requires Valid() && src.Valid() && src.Repr !! Repr && count > 0
      requires offset1 + count <= INT64_MAX
      modifies Repr
      ensures Valid() && old(Repr) <= Repr && fresh(Repr - old(Repr))
      ensures src.Valid() && n <= count && Allocated(memory, left, n > 0)
      ensures n > 0 ==> n == Min(SPARSE_PAGE - offset2 % SPARSE_PAGE, count) && Useful(offset2 / SPARSE_PAGE)
      ensures forall j: nat :: j != offset2 / SPARSE_PAGE ==> PageAt(j) == old(PageAt(j))
      ensures forall x: nat :: src.At(x) == old(src.At(x))
      ensures forall x: nat :: At(x) == if offset2 <= x < offset2 + n then old(src.At(offset1 + (x - offset2))) else old(At(x))
    {
      hide Allocated, Had, SparseArray.View, SparseArray.Useful;
      ghost var k := offset2 / SPARSE_PAGE;
      var p, rest, dir, slot;
      ghost var entry, searches;
      p, rest, dir, slot, entry, searches, left := LookupCreate(offset2, memory);
      if p == null {
        return 0, left;
      }
      n := Min(rest, count);
      PageHome(k);
      ReadInto(src, p, n, offset1, offset2);
      var r := FreeIfZero(true, k, entry, dir, slot);
    }

    lemma StartPages(offset: nat, last: int)
      requires Valid()
      ensures UsefulPages(offset / SPARSE_PAGE, offset / SPARSE_PAGE) && PageIs(offset / SPARSE_PAGE, offset)
      ensures forall k: nat :: PageIs(k, last) ==> k == last / SPARSE_PAGE
    {
    }

    // What happens to the bytes of page k leaves the other pages as useful as they were.
    twostate lemma OthersUseful(new from: nat, new k: nat)
      requires old(Valid()) && Valid() && old(UsefulPages(from, k)) && Useful(k)
      requires forall j: nat :: j != k ==> PageAt(j) == old(PageAt(j))
      requires forall x: nat :: x / SPARSE_PAGE != k ==> At(x) == old(At(x))
      ensures UsefulPages(from, k + 1)
    {
      hide SparseArray.Valid, SparseArray.At, SparseArray.PageAt;
      forall j: nat | from <= j < k + 1 ensures Useful(j) {
        if j < k {
          assert old(Useful(j));
          if PageAt(j) != null {
            var x: nat :| x / SPARSE_PAGE == j && old(At(x)) != 0;
            assert At(x) != 0;
          }
        }
      }
    }

    // The same round, which starts in the given page and ends with it or before.
    method BlitRound(src: SparseArray, count: nat, offset1: nat, offset2: nat, ghost from: nat, ghost page: nat, memory: seq<bool>)
      returns (n: nat, left: seq<bool>)
      requires Valid() && src.Valid() && src.Repr !! Repr && count > 0 && PageIs(page, offset2) && UsefulPages(from, page)
      requires offset1 + count <= INT64_MAX
      modifies Repr
      ensures Valid() && old(Repr) <= Repr && fresh(Repr - old(Repr))
      ensures src.Valid() && n <= count && Allocated(memory, left, n > 0)
      ensures n > 0 ==> UsefulPages(from, page + 1)
      ensures n > 0 ==> if n < count then PageIs(page + 1, offset2 + n) else PageIs(page, offset2 + count - 1)
      ensures forall x: nat :: src.At(x) == old(src.At(x))
      ensures forall x: nat :: At(x) == if offset2 <= x < offset2 + n then old(src.At(offset1 + (x - offset2))) else old(At(x))
    {
      hide Allocated, SparseArray.Valid, SparseArray.At, SparseArray.PageAt, SparseArray.UsefulPages, SparseArray.Useful;
      n, left := BlitPage(src, count, offset1, offset2, memory);
      if n > 0 {
        RoundEnds(offset2, count, n);
        InOnePage(offset2, n);
        OthersUseful(from, page);
      }
    }

    // sparse_array_blit
    method Blit(src: SparseArray, count: nat, offset1: nat, offset2: nat, memory: seq<bool>)
      returns (ok: bool, ghost done: nat, left: seq<bool>)
      requires Valid() && src.Valid() && src.Repr !! Repr
      requires offset1 + count <= INT64_MAX && offset2 + count <= INT64_MAX
      modifies Repr
      ensures Valid() && old(Repr) <= Repr && fresh(Repr - old(Repr))
      ensures src.Valid() && forall x: nat :: src.At(x) == old(src.At(x))
      ensures done <= count && (ok <==> done == count) && Allocated(memory, left, ok)
      ensures forall x: nat :: At(x) == if offset2 <= x < offset2 + done then old(src.At(offset1 + (x - offset2))) else old(At(x))
      ensures ok && count > 0 ==> UsefulPages(offset2 / SPARSE_PAGE, (offset2 + count - 1) / SPARSE_PAGE + 1)
    {
      hide Allocated, PageIs, SparseArray.Valid, SparseArray.At, SparseArray.PageAt, SparseArray.UsefulPages;
      NoneAllocated(memory);
      ghost var first, last := offset2 / SPARSE_PAGE, offset2 + count - 1;
      StartPages(offset2, last);
      var pos := 0;
      ghost var page: nat := first;
      left := memory;
      while pos < count
        invariant pos <= count && Allocated(memory, left, true)
        invariant pos < count ==> PageIs(page, offset2 + pos)
        invariant pos == count > 0 ==> page > 0 && PageIs(page - 1, last)
        invariant Valid() && old(Repr) <= Repr && fresh(Repr - old(Repr)) && UsefulPages(first, page)
        invariant src.Valid() && src.Repr !! Repr
        invariant forall x: nat :: src.At(x) == old(src.At(x))
        invariant forall x: nat :: At(x) == if offset2 <= x < offset2 + pos then old(src.At(offset1 + (x - offset2))) else old(At(x))
      {
        ghost var rest := left;
        var n;
        n, left := BlitRound(src, count - pos, offset1 + pos, offset2 + pos, first, page, left);
        AllocatedThen(memory, rest, left, n > 0);
        if n == 0 {
          return false, pos, left;
        }
        pos := pos + n;
        page := page + 1;
      }
      return true, pos, left;
    }

    // entry is the L1 entry whose directory dir holds page k in slot.
    ghost predicate HoldsSlot(entry: int, dir: array?<PageRef>, slot: nat, k: nat)
      reads this
    {
      && 0 <= entry < |l1| && l1[entry].l2 == dir
      && slot < L2_SIZE && FirstPage(l1[entry]) + slot == k
    }
  }

  // A round that stops at the end of the page or of the request.
  lemma RoundEnds(offset: nat, count: nat, n: nat)
    requires count > 0 && n == Min(SPARSE_PAGE - offset % SPARSE_PAGE, count)
    ensures n > 0 && (offset + n - 1) / SPARSE_PAGE == offset / SPARSE_PAGE
    ensures n < count ==> (offset + n) / SPARSE_PAGE == offset / SPARSE_PAGE + 1
  {
  }

  lemma InOnePage(offset: nat, n: nat)
    requires n <= SPARSE_PAGE - offset % SPARSE_PAGE
    ensures forall x: nat :: offset <= x < offset + n ==> x / SPARSE_PAGE == offset / SPARSE_PAGE
  {
  }

  // No entry for the page of offset means none for the range of a new one there.
  lemma BaseCovers(l1: seq<L1Entry>, entry: L1Entry, offset: nat)
    requires Ordered(l1) && entry.offset == L1Base(offset) && EntryOf(l1, offset / SPARSE_PAGE) < 0
    ensures Aligned(entry) && CoversPage(entry, offset / SPARSE_PAGE) && EntryOf(l1, FirstPage(entry)) < 0
  {
    AlignedCoversPages(entry, offset);
    var r := EntryOf(l1, FirstPage(entry));
    if r >= 0 {
      assert Aligned(l1[r]);
      AlignedCoversPages(l1[r], entry.offset);
    }
  }
}
