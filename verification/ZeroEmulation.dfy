/** Writing zeroes through ordinary writes, with forced unit access (FUA) native or
    emulated by a flush. */
module ZeroEmulation {
  import opened Common
  import opened Capabilities

  // ---------- What is on the disk ----------

  function Overwritten(s: seq<byte>, offset: nat, data: seq<byte>): (r: seq<byte>)
    requires offset + |data| <= |s|
    ensures |r| == |s|
  {
    s[..offset] + data + s[offset + |data|..]
  }

  function Zeroes(count: nat): (r: seq<byte>)
    ensures |r| == count
  {
    seq(count, _ => 0)
  }

  function Zeroed(s: seq<byte>, offset: nat, count: nat): (r: seq<byte>)
    requires offset + count <= |s|
    ensures |r| == |s|
  {
    Overwritten(s, offset, Zeroes(count))
  }

  // Which bytes are dirty after the range was written over.
  function Marked(dirty: seq<bool>, offset: nat, count: nat, mark: bool): seq<bool>
    requires offset + count <= |dirty|
  {
    dirty[..offset] + seq(count, _ => mark) + dirty[offset + count..]
  }

  ghost predicate Durable(dirty: seq<bool>, offset: nat, count: nat) {
    forall x :: offset <= x < offset + count && x < |dirty| ==> !dirty[x]
  }

  // Storing n of the next zeroes after the first done bytes were zeroed.
  lemma ZeroedNext(s: seq<byte>, offset: nat, done: nat, limit: nat, n: nat)
    requires offset + done + n <= |s| && n <= limit
    ensures Overwritten(Zeroed(s, offset, done), offset + done, Zeroes(limit)[..n]) == Zeroed(s, offset, done + n)
  {
    assert Zeroes(limit)[..n] == Zeroes(n);
    assert Zeroes(done) + Zeroes(n) == Zeroes(done + n);
  }

  lemma ZeroedNothing(s: seq<byte>, offset: nat)
    requires offset <= |s|
    ensures Zeroed(s, offset, 0) == s
  {
  }

  // ---------- How a request is cut up ----------

  datatype WriteCall = WriteCall(offset: nat, count: nat, fua: bool)

  // The writes of an emulated zero.  all: every write carries FUA; last: the last one does.
  function Chunks(offset: nat, count: nat, all: bool, last: bool): seq<WriteCall>
    decreases count
  {
    if count == 0 then []
    else
      var limit := Min(count, MAX_REQUEST_SIZE);
      [WriteCall(offset, limit, all || (last && limit == count))] + Chunks(offset + limit, count - limit, all, last)
  }

  // The same writes, all at one offset.
  function AllAt(offset: nat, ws: seq<WriteCall>): seq<WriteCall> {
    seq(|ws|, k requires 0 <= k < |ws| => ws[k].(offset := offset))
  }

  // x lies in the range of the last write.
  predicate WithinLast(ws: seq<WriteCall>, x: nat) {
    ws != [] && var w := ws[|ws| - 1]; w.offset <= x <= w.offset + w.count
  }

  lemma NoneAt(offset: nat)
    ensures AllAt(offset, []) == []
  {
  }

  lemma FirstAt(made: seq<WriteCall>, offset: nat, ws: seq<WriteCall>)
    requires ws != []
    ensures made + AllAt(offset, ws) == made + [ws[0].(offset := offset)] + AllAt(offset, ws[1..])
  {
  }

  lemma NoChunks(offset: nat)
    ensures forall all, last :: Chunks(offset, 0, all, last) == []
  {
  }

  lemma NextChunk(made: seq<WriteCall>, offset: nat, count: nat, all: bool, last: bool)
    requires count > 0
    ensures var limit := Min(count, MAX_REQUEST_SIZE);
            var w := WriteCall(offset, limit, all || (last && limit == count));
            && Chunks(offset, count, all, last) == [w] + Chunks(offset + limit, count - limit, all, last)
            && made + Chunks(offset, count, all, last) == made + [w] + Chunks(offset + limit, count - limit, all, last)
  {
  }

  /** The writes tile the range: in order, without gap or overlap, none empty and none
      larger than 64 MiB; all but the last are as large as that. */
  lemma {:induction false} ChunksTile(offset: nat, count: nat, all: bool, last: bool, k: nat)
    requires k < |Chunks(offset, count, all, last)|
    ensures var w := Chunks(offset, count, all, last)[k];
            && w.offset == offset + k * MAX_REQUEST_SIZE
            && 0 < w.count <= MAX_REQUEST_SIZE && w.offset + w.count <= offset + count
            && (w.count < MAX_REQUEST_SIZE ==> w.offset + w.count == offset + count)
            && (w.offset + w.count == offset + count <==> k == |Chunks(offset, count, all, last)| - 1)
    decreases count
  {
    var limit := Min(count, MAX_REQUEST_SIZE);
    if k > 0 {
      ChunksTile(offset + limit, count - limit, all, last, k - 1);
    }
  }

  // ---------- The plugin ----------

  // What a callback answers.  A write that fails may have stored a prefix.
  datatype Answer = Answer(ok: bool, stored: nat)

  predicate AllPass(plan: nat -> Answer, from: nat, n: nat) {
    forall j :: from <= j < from + n ==> plan(j).ok
  }

  // A write with FUA is followed by a flush unless the plugin has FUA natively.
  function CallsOf(w: WriteCall, canFua: int): nat {
    if w.fua && canFua != NATIVE then 2 else 1
  }

  function TotalCalls(ws: seq<WriteCall>, canFua: int): nat {
    if ws == [] then 0 else CallsOf(ws[0], canFua) + TotalCalls(ws[1..], canFua)
  }

  lemma NoCalls(canFua: int)
    ensures TotalCalls([], canFua) == 0
  {
  }

  lemma FirstCalls(w: WriteCall, ws: seq<WriteCall>, canFua: int)
    ensures TotalCalls([w] + ws, canFua) == CallsOf(w, canFua) + TotalCalls(ws, canFua)
  {
    assert ([w] + ws)[1..] == ws;
  }

  class Disk {
    // The answers of the callbacks, and how many have been called.
    const plan: nat -> Answer
    var calls: nat
    var data: seq<byte>
    // The bytes that were written but may not have reached stable storage.
    var dirty: seq<bool>
    const canFua: int
    // The writes the plugin has been asked for.
    ghost var writes: seq<WriteCall>

    ghost predicate Valid()
      reads this
    {
      |dirty| == |data|
    }

    // The plugin's own .pwrite.
    method CallPwrite(buf: seq<byte>, offset: nat, fua: bool) returns (ok: bool, ghost n: nat)
      requires Valid() && offset + |buf| <= |data|
      modifies this`data, this`dirty, this`calls
      ensures Valid() && calls == old(calls) + 1 && ok == plan(old(calls)).ok
      ensures n == if ok then |buf| else Min(plan(old(calls)).stored, |buf|)
      ensures data == Overwritten(old(data), offset, buf[..n])
      ensures dirty == Marked(old(dirty), offset, |buf|, !(ok && fua))
    {
      ok := plan(calls).ok;
      var stored := if ok then |buf| else Min(plan(calls).stored, |buf|);
      calls, n := calls + 1, stored;
      data := Overwritten(data, offset, buf[..stored]);
      dirty := Marked(dirty, offset, |buf|, !(ok && fua));
    }

    // The plugin's own .flush.
    method CallFlush() returns (ok: bool)
      requires Valid()
      modifies this`dirty, this`calls
      ensures calls == old(calls) + 1 && ok == plan(old(calls)).ok
      ensures Valid() && if ok then Durable(dirty, 0, |dirty|) else dirty == old(dirty)
    {
      ok := plan(calls).ok;
      calls := calls + 1;
      if ok {
        dirty := seq(|dirty|, _ => false);
      }
    }

    // plugin_pwrite
    method Pwrite(buf: seq<byte>, offset: nat, fua: bool) returns (ok: bool, ghost n: nat)
      requires Valid() && offset + |buf| <= |data|
      modifies this
      ensures Valid() && n == (if plan(old(calls)).ok then |buf| else Min(plan(old(calls)).stored, |buf|))
      ensures ok ==> n == |buf|
      ensures var needed := CallsOf(WriteCall(offset, |buf|, fua), canFua);
              (ok <==> AllPass(plan, old(calls), needed)) && (ok ==> calls == old(calls) + needed)
      ensures writes == old(writes) + [WriteCall(offset, |buf|, fua)]
      ensures data == Overwritten(old(data), offset, buf[..n])
      ensures ok && fua ==> Durable(dirty, offset, |buf|)
      ensures ok && fua ==> forall x :: 0 <= x < |dirty| ==> dirty[x] ==> old(dirty)[x]
      ensures ok && fua && canFua != NATIVE ==> Durable(dirty, 0, |dirty|)
    {
      writes := writes + [WriteCall(offset, |buf|, fua)];
      var needFlush := fua && canFua != NATIVE;
      ok, n := CallPwrite(buf, offset, fua && !needFlush);
      if ok && needFlush {
        ok := CallFlush();
      }
    }

    // backend_zero when zeroes are emulated
    method EmulatedZero(count: nat, offset: nat, fua: bool, fast: bool) returns (ok: bool, ghost done: nat)
      requires Valid() && 0 < count && offset + count <= |data|
      modifies this
      ensures Valid() && done <= count && (ok ==> done == count)
      ensures var chunks := Chunks(offset, count, fua && canFua != EMULATE, fua && canFua == EMULATE);
              && (ok <==> !fast && AllPass(plan, old(calls), TotalCalls(chunks, canFua)))
              && (ok ==> writes == old(writes) + chunks)
              && old(writes) <= writes <= old(writes) + chunks
      ensures !ok && !fast ==> writes != old(writes) && WithinLast(writes, offset + done)
      ensures |data| == old(|data|) && data == Zeroed(old(data), offset, done)
      ensures ok && fua ==> Durable(dirty, offset, count)
    {
      hide Overwritten, Zeroes, Zeroed, Chunks, TotalCalls, CallsOf;
      ZeroedNothing(data, offset);
      if fast {
        return false, 0;
      }
      NoChunks(offset + count);
      NoCalls(canFua);
      var needFlush := fua && canFua == EMULATE;
      var writeFua := fua && !needFlush;
      var pos := 0;
      ghost var chunks := Chunks(offset, count, fua && !needFlush, needFlush);
      while pos < count
        invariant pos <= count && Valid() && |data| == old(|data|)
        invariant data == Zeroed(old(data), offset, pos)
        invariant pos < count ==> writeFua == (fua && !needFlush)
        invariant old(writes) <= writes
        invariant writes + Chunks(offset + pos, count - pos, fua && !needFlush, needFlush) == old(writes) + chunks
        invariant old(calls) <= calls && AllPass(plan, old(calls), calls - old(calls))
        invariant var rest := Chunks(offset + pos, count - pos, fua && !needFlush, needFlush);
                  calls + TotalCalls(rest, canFua) == old(calls) + TotalCalls(chunks, canFua)
        invariant fua && (!needFlush || pos == count) ==> Durable(dirty, offset, pos)
      {
        var limit := Min(count - pos, MAX_REQUEST_SIZE);
        if limit == count - pos && needFlush {
          writeFua := true;
        }
        ghost var n;
        NextChunk(writes, offset + pos, count - pos, fua && !needFlush, needFlush);
        FirstCalls(WriteCall(offset + pos, limit, writeFua), Chunks(offset + pos + limit, count - pos - limit, fua && !needFlush, needFlush), canFua);
        ok, n := Pwrite(Zeroes(limit), offset + pos, writeFua);
        ZeroedNext(old(data), offset, pos, limit, n);
        if !ok {
          return false, pos + n;
        }
        pos := pos + limit;
      }
      return true, pos;
    }

    // plugin_zero when the plugin cannot zero natively after all: it falls back to
    // writes, but every write goes to the same offset.
    method FallbackZero(count: nat, offset: nat, fua: bool) returns (ok: bool, ghost done: nat)
      requires Valid() && 0 < count && offset + count <= |data|
      modifies this
      ensures var chunks := Chunks(offset, count, fua && canFua == NATIVE, false);
              && (ok <==> AllPass(plan, old(calls), |chunks| + if fua && canFua != NATIVE then 1 else 0))
              && (ok ==> writes == old(writes) + AllAt(offset, chunks))
      ensures done <= Min(count, MAX_REQUEST_SIZE) && (ok ==> done == Min(count, MAX_REQUEST_SIZE))
      ensures Valid() && |data| == old(|data|) && data == Zeroed(old(data), offset, done)
      ensures ok && fua ==> Durable(dirty, offset, done)
    {
      hide Overwritten, Zeroes, Zeroed, Chunks, AllAt;
      ZeroedNothing(data, offset);
      NoChunks(offset + count);
      NoneAt(offset);
      var needFlush := fua && canFua != NATIVE;
      var left: nat := count;
      done := 0;
      ghost var first := Min(count, MAX_REQUEST_SIZE);
      ghost var chunks := Chunks(offset, count, fua && !needFlush, false);
      ghost var rest := chunks;
      while left > 0
        invariant left <= count && Valid() && |data| == old(|data|)
        invariant done == (if left == count then 0 else first) && data == Zeroed(old(data), offset, done)
        invariant left < count && fua && !needFlush ==> Durable(dirty, offset, first)
        invariant rest == Chunks(offset + count - left, left, fua && !needFlush, false)
        invariant writes + AllAt(offset, rest) == old(writes) + AllAt(offset, chunks)
        invariant calls + |rest| == old(calls) + |chunks| && old(calls) <= calls && AllPass(plan, old(calls), calls - old(calls))
      {
        var limit := Min(left, MAX_REQUEST_SIZE);
        ghost var n;
        NextChunk([], offset + count - left, left, fua && !needFlush, false);
        FirstAt(writes, offset, rest);
        ok, n := Pwrite(Zeroes(limit), offset, fua && !needFlush);
        ZeroedAgain(old(data), offset, done, limit, n);
        done := Max(done, n);
        if !ok {
          return;
        }
        left := left - limit;
        rest := rest[1..];
      }
      ok := true;
      if needFlush {
        ok := CallFlush();
      }
    }
  }

  // Storing n zeroes where done were stored before.
  lemma ZeroedAgain(s: seq<byte>, offset: nat, done: nat, limit: nat, n: nat)
    requires n <= limit && offset + limit <= |s| && offset + done <= |s|
    ensures Overwritten(Zeroed(s, offset, done), offset, Zeroes(limit)[..n]) == Zeroed(s, offset, Max(done, n))
  {
    assert Zeroes(limit)[..n] == Zeroes(n);
  }

  /** The fallback zeroes the whole range exactly when it fits in one write, or when
      the rest was zero already. */
  lemma FallbackCompleteIff(s: seq<byte>, offset: nat, count: nat)
    requires offset + count <= |s|
    ensures Zeroed(s, offset, Min(count, MAX_REQUEST_SIZE)) == Zeroed(s, offset, count)
            <==> count <= MAX_REQUEST_SIZE || s[offset + MAX_REQUEST_SIZE..offset + count] == Zeroes(count - MAX_REQUEST_SIZE)
  {
    if count > MAX_REQUEST_SIZE {
      var a, b := Zeroed(s, offset, MAX_REQUEST_SIZE), Zeroed(s, offset, count);
      var rest := s[offset + MAX_REQUEST_SIZE..offset + count];
      assert a[offset + MAX_REQUEST_SIZE..] == s[offset + MAX_REQUEST_SIZE..];
      assert a[offset + MAX_REQUEST_SIZE..offset + count] == rest;
      assert b[offset + MAX_REQUEST_SIZE..offset + count] == Zeroes(count - MAX_REQUEST_SIZE);
      if rest == Zeroes(count - MAX_REQUEST_SIZE) {
        assert s[offset + MAX_REQUEST_SIZE..] == rest + s[offset + count..];
        assert Zeroes(MAX_REQUEST_SIZE) + Zeroes(count - MAX_REQUEST_SIZE) == Zeroes(count);
      }
    }
  }

  lemma FallbackFallsShort()
    ensures var s := seq(MAX_REQUEST_SIZE + 1, _ => 1 as byte);
            Zeroed(s, 0, MAX_REQUEST_SIZE) != Zeroed(s, 0, MAX_REQUEST_SIZE + 1)
  {
    var s := seq(MAX_REQUEST_SIZE + 1, _ => 1 as byte);
    FallbackCompleteIff(s, 0, MAX_REQUEST_SIZE + 1);
    assert s[MAX_REQUEST_SIZE..MAX_REQUEST_SIZE + 1][0] == 1;
  }
}
