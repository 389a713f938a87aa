/** What an accepted request comes to at the plugin: which calls reach it, what they cover,
    and how durable they are. */
module Calls {
  import opened Common
  import opened Capabilities
  import opened Requests
  import opened Errors

  // ---------- The range ----------

  // Where calls that adjoin end, from the first one on.
  function Reach(calls: seq<Op>, from: nat): nat {
    if calls == [] then from else Reach(calls[1..], from + if calls[0].FlushOp? then 0 else calls[0].count)
  }

  // The calls adjoin, in order, and none is empty.
  ghost predicate Tile(calls: seq<Op>, from: nat) {
    calls == [] ||
    (!calls[0].FlushOp? && calls[0].offset == from && calls[0].count > 0 && Tile(calls[1..], from + calls[0].count))
  }

  lemma TileFirst(op: Op, calls: seq<Op>, from: nat)
    requires !op.FlushOp? && op.offset == from && op.count > 0 && Tile(calls, from + op.count)
    ensures Tile([op] + calls, from) && Reach([op] + calls, from) == Reach(calls, from + op.count)
  {
    assert ([op] + calls)[1..] == calls;
  }

  lemma TileOne(op: Op)
    requires !op.FlushOp? && op.count > 0
    ensures Tile([op], op.offset) && Reach([op], op.offset) == op.offset + op.count
  {
    TileFirst(op, [], op.offset);
  }

  // ---------- FUA at the plugin ----------

  predicate Stores(op: Op) { op.Pwrite? || op.TrimOp? || op.ZeroOp? }

  // What was stored is durable: every callback that stores carries FUA, or a flush comes last.
  ghost predicate Durable(made: seq<Op>, canFua: int) {
    if canFua == NATIVE then forall k :: 0 <= k < |made| && Stores(made[k]) ==> made[k].fua
    else made != [] && made[|made| - 1] == FlushOp
  }

  // Nothing was made durable that did not have to be.
  ghost predicate Lazy(made: seq<Op>) {
    forall k :: 0 <= k < |made| ==> !made[k].FlushOp? && (Stores(made[k]) ==> !made[k].fua)
  }

  ghost predicate AllStore(ops: seq<Op>, fua: bool) {
    forall k :: 0 <= k < |ops| ==> Stores(ops[k]) && ops[k].fua == fua
  }

  lemma StoresJoin(a: seq<Op>, c: seq<Op>, fua: bool)
    requires AllStore(a, fua) && AllStore(c, fua)
    ensures AllStore(a + c, fua)
  {
  }

  lemma {:induction false} WritesMade(count: nat, offset: nat, fua: bool, script: seq<Answer>)
    ensures AllStore(Writes(count, offset, fua, script).made, fua)
    decreases count
  {
    if count > 0 {
      var limit := Min(count, MAX_REQUEST_SIZE);
      var w := Callback(Pwrite(limit, offset, fua), script);
      WritesMade(count - limit, offset, fua, w.rest);
      assert w.made == [Pwrite(limit, offset, fua)] && AllStore(w.made, fua);
      StoresJoin(w.made, Writes(count - limit, offset, fua, w.rest).made, fua);
    }
  }

  lemma ZeroMade(op: Op, canFua: int, script: seq<Answer>)
    requires op.ZeroOp?
    ensures var e := PluginZero(op, canFua, script);
            && e.made != [] && e.made[0] == Native(op, canFua)
            && (op.fua && e.err.None? ==> Durable(e.made, canFua))
            && (!op.fua ==> Lazy(e.made))
  {
    var zero := Callback(Native(op, canFua), script);
    var fua := op.fua && canFua == NATIVE;
    WritesMade(op.count, op.offset, fua, zero.rest);
    var writes := Writes(op.count, op.offset, fua, zero.rest);
    assert zero.made == [Native(op, canFua)] && AllStore(zero.made, fua);
    StoresJoin(zero.made, writes.made, fua);
  }

  /** A call of the plugin starts with the callback for it.  With FUA, success means that all
      is durable; without, nothing is flushed. */
  lemma PluginMade(op: Op, canFua: int, script: seq<Answer>)
    ensures var e := PluginOp(op, canFua, script);
            && e.made != [] && e.made[0] == Native(op, canFua)
            && (Asks(op) && e.err.None? ==> Durable(e.made, canFua))
            && (Stores(op) && !op.fua ==> Lazy(e.made))
  {
    if op.ZeroOp? {
      ZeroMade(op, canFua, script);
    }
  }

  /** A write or trim is one callback, and a flush after it exactly if FUA is asked for and
      not native, and the callback passed. */
  lemma WriteOrTrimMade(op: Op, canFua: int, script: seq<Answer>)
    requires op.Pwrite? || op.TrimOp?
    ensures var e := PluginOp(op, canFua, script);
            var flushes := op.fua && canFua != NATIVE && FirstFailure(script, 1).None?;
            var fua := op.fua && canFua == NATIVE;
            var first := if op.Pwrite? then Pwrite(op.count, op.offset, fua) else TrimOp(op.count, op.offset, fua);
            && e.made == [first] + (if flushes then [FlushOp] else [])
            && e.err == FirstFailure(script, |e.made|)
  {
    assert FirstFailure(Drop(script, 1), 1) == Callback(FlushOp, Callback(op, script).rest).err;
    OneMoreFailure(script, 1);
  }

  // ---------- Emulated calls ----------

  // A piece of an emulated call.  FUA is on all of them, or only on the last one.
  predicate IsChunk(b: Backends, op: Op, call: Op)
    requires op.ZeroOp? || op.CacheOp?
  {
    && (call.Pread? || call.Pwrite?) && call.Pread? == op.CacheOp?
    && 0 < call.count <= MAX_REQUEST_SIZE
    && op.offset <= call.offset && call.offset + call.count <= op.offset + op.count
    && (op.ZeroOp? ==>
          call.fua == (op.fua && (Power(b, Fua) != EMULATE || call.offset + call.count == op.offset + op.count)))
  }

  lemma NextChunk(b: Backends, i: nat, op: Op, count: nat, offset: nat)
    requires b.Primed() && Normalised(b.plugin) && i < |b.layers| && Able(b, op) && Emulated(b.layers[i], op)
    requires 0 < count && op.offset <= offset && offset + count == op.offset + op.count
    ensures var chunk := Chunk(b.layers[i], op, count, offset);
            && Able(b, chunk) && !EmulatedBy(b, chunk) && (chunk.Pread? || chunk.Pwrite?) && IsChunk(b, op, chunk)
            && chunk.offset == offset && chunk.count == Min(count, MAX_REQUEST_SIZE)
  {
    hide Power, Backends.Primed, Normalised;
    AssertsIffAble(b, i, op);
    ChunkIsAble(b, i, op, count, offset);
  }

  // A call that is not emulated, from the layer that makes it on.
  lemma BelowPasses(b: Backends, i: nat, op: Op, script: seq<Answer>)
    requires b.Primed() && Normalised(b.plugin) && i < |b.layers|
    requires Able(b, op) && !EmulatedBy(b, op) && !op.ExtentsOp?
    ensures Below(b.layers, i, op, script).ended == PluginOp(op, Power(b, Fua), script)
    ensures Below(b.layers, i, op, script).calls == [op]
  {
    hide Power, Backends.Primed, Normalised, PluginOp, CallAt;
    LayerFacts(b, 0);
    FuaMatters(b, op, script);
    if i > 0 {
      PassedUp(b, i - 1, op, script);
    }
  }

  lemma DurableJoins(a: seq<Op>, c: seq<Op>, canFua: int)
    requires Durable(c, canFua) && (canFua != EMULATE ==> Durable(a, canFua))
    ensures Durable(a + c, canFua)
  {
  }

  ghost predicate ChunksServe(b: Backends, op: Op, x: Exit, count: nat, offset: nat)
    requires op.ZeroOp? || op.CacheOp?
  {
    && Tile(x.calls, offset) && Reach(x.calls, offset) <= offset + count
    && (x.ended.err.None? ==> Reach(x.calls, offset) == offset + count)
    && (forall k :: 0 <= k < |x.calls| ==> IsChunk(b, op, x.calls[k]))
    && (op.ZeroOp? && op.fua && count > 0 && x.ended.err.None? ==> Durable(x.ended.made, Power(b, Fua)))
  }

  lemma {:induction false} ChunksAreServed(b: Backends, i: nat, op: Op, count: nat, offset: nat, script: seq<Answer>)
    requires b.Primed() && Normalised(b.plugin) && i < |b.layers|
    requires Able(b, op) && Emulated(b.layers[i], op)
    requires op.offset <= offset && offset + count == op.offset + op.count
    ensures ChunksServe(b, op, ChunksAt(b.layers, i, op, count, offset, script), count, offset)
    decreases count
  {
    hide Power, Backends.Primed, Normalised, PluginOp, CallAt, Below, Able, Chunk, EmulatedBy, IsChunk, ChunksServe, Durable;
    if count == 0 {
      NoChunksServe(b, op, script, offset);
    } else {
      var chunk := Chunk(b.layers[i], op, count, offset);
      NextChunk(b, i, op, count, offset);
      BelowPasses(b, i, chunk, script);
      PluginMade(chunk, Power(b, Fua), script);
      var below := Below(b.layers, i, chunk, script);
      if below.ended.err.Some? {
        FailedServes(b, op, chunk, below, count, ExitHolds(chunk, below.ended.err) && below.holds);
      } else {
        var left := count - chunk.count;
        ChunksAreServed(b, i, op, left, offset + chunk.count, below.ended.rest);
        ChunkThenMore(b, op, chunk, below, ChunksAt(b.layers, i, op, left, offset + chunk.count, below.ended.rest), left,
          ChunksAt(b.layers, i, op, count, offset, script).holds);
      }
    }
  }

  lemma NoChunksServe(b: Backends, op: Op, script: seq<Answer>, offset: nat)
    requires op.ZeroOp? || op.CacheOp?
    ensures ChunksServe(b, op, Exit(Ended(None, script, []), true, []), 0, offset)
  {
  }

  lemma FailedServes(b: Backends, op: Op, chunk: Op, below: Exit, count: nat, holds: bool)
    requires (op.ZeroOp? || op.CacheOp?) && IsChunk(b, op, chunk) && chunk.count <= count
    requires below.calls == [chunk] && below.ended.err.Some?
    ensures ChunksServe(b, op, below.(holds := holds), count, chunk.offset)
  {
    TileOne(chunk);
  }

  // One chunk that passes, and what comes after it.
  lemma ChunkThenMore(b: Backends, op: Op, chunk: Op, below: Exit, more: Exit, left: nat, holds: bool)
    requires (op.ZeroOp? || op.CacheOp?) && IsChunk(b, op, chunk)
    requires chunk.offset + chunk.count + left == op.offset + op.count
    requires below.calls == [chunk] && below.ended.err.None? && (Asks(chunk) ==> Durable(below.ended.made, Power(b, Fua)))
    requires ChunksServe(b, op, more, left, chunk.offset + chunk.count) && (left == 0 ==> more.ended.made == [])
    ensures ChunksServe(b, op, Exit(Followed(below.ended, more.ended), holds, below.calls + more.calls), chunk.count + left, chunk.offset)
  {
    hide Power, Tile, Reach, Durable;
    TileFirst(chunk, more.calls, chunk.offset);
    if op.ZeroOp? && op.fua && more.ended.err.None? {
      if left > 0 {
        DurableJoins(below.ended.made, more.ended.made, Power(b, Fua));
      } else {
        assert below.ended.made + [] == below.ended.made;
      }
    }
  }

  // ---------- Whole requests ----------

  // How the server answers for the chain without asking the plugin: extents that are made up,
  // and fast zeroes that would have to be emulated.
  predicate Unasked(b: Backends, op: Op) {
    (op.ExtentsOp? && Power(b, Extents) == 0) || (op.ZeroOp? && op.fast && Power(b, Zero) != NATIVE)
  }

  lemma CallIsServed(b: Backends, i: nat, op: Op, script: seq<Answer>)
    requires b.Primed() && Normalised(b.plugin) && i < |b.layers| && Able(b, op)
    ensures var x := CallAt(b.layers, i, op, script);
            if Unasked(b, op) then x.calls == x.ended.made == [] && (x.ended.err.None? <==> op.ExtentsOp?)
            else if EmulatedBy(b, op) then ChunksServe(b, op, x, op.count, op.offset)
            else x.calls == [op] && x.ended == PluginOp(op, Power(b, Fua), script)
  {
    hide Power, Backends.Primed, Normalised, PluginOp, ChunksAt, Able, ChunksServe, Below, Asserts;
    AssertsIffAble(b, i, op);
    LayerFacts(b, i);
    if EmulatedBy(b, op) {
      if !Unasked(b, op) {
        ChunksAreServed(b, i, op, op.count, op.offset, script);
      }
    } else if !Unasked(b, op) {
      PassedUp(b, i, op, script);
    }
  }

  // A call at the plugin that does part of what the request asks for.
  predicate Serves(b: Backends, req: Request, call: Op) {
    var f := req.flags;
    && (!call.FlushOp? ==> req.offset <= call.offset && call.offset + call.count <= req.offset + req.count)
    && (match req.cmd
        case CmdRead => call.Pread?
        case CmdWrite => call.Pwrite?
        case CmdFlush => call.FlushOp?
        case CmdTrim => call.TrimOp?
        case CmdCache => if Power(b, Cache) == EMULATE then call.Pread? else call.CacheOp?
        case CmdWriteZeroes =>
          if Power(b, Zero) == NATIVE then call.ZeroOp? && call.mayTrim == !f.noHole && call.fast == f.fastZero else call.Pwrite?
        case CmdBlockStatus => call.ExtentsOp? && call.reqOne == f.reqOne
        case _ => false)
    && (Stores(call) ==>
          call.fua == (f.fua && (Power(b, Fua) != EMULATE || call.offset + call.count == req.offset + req.count)))
  }

  /** What an accepted request does.  The calls that reach the plugin, through all filters and
      emulation, are of the kind that the command asks for, and store something only if it
      does.  They adjoin from the offset on; if they succeed they cover exactly the range, and
      otherwise they stop at the one that fails.  FUA is on all of them, or the last one,
      exactly if it was asked for, and then all that was stored is durable in the end. */
  lemma RequestIsServed(b: Backends, conn: Connection, req: Request, parallel: bool, script: seq<Answer>)
    requires b.Primed() && Normalised(b.plugin) && req.Valid()
    requires conn.size == b.plugin.size && conn.eflags == b.Advertised(conn.structuredReplies, parallel)
    requires Validate(conn, req) == Accept && (req.flags.fastZero ==> conn.eflags.fastZero)
    ensures |b.layers| > 0
    ensures var x := CallAt(b.layers, |b.layers| - 1, OpOf(req), script);
            && (forall k :: 0 <= k < |x.calls| ==>
                  Serves(b, req, x.calls[k]) && (Stores(x.calls[k]) ==> req.cmd.Modifies()))
            && (if req.cmd == CmdFlush then x.calls == [FlushOp]
                else Tile(x.calls, req.offset) && Reach(x.calls, req.offset) <= req.offset + req.count)
            && (x.ended.err.None? && req.cmd != CmdFlush && !(req.cmd == CmdBlockStatus && Power(b, Extents) == 0) ==>
                  Reach(x.calls, req.offset) == req.offset + req.count)
            && (x.ended.err.None? && req.flags.fua && req.cmd.Modifies() ==> Durable(x.ended.made, Power(b, Fua)))
  {
    hide Power, Backends.Primed, Normalised, Backends.Advertised, CallAt, FlagsMatch, Reach, Tile, Durable, PluginOp, Serves;
    OpenedByHandshake(b, conn, parallel);
    PowersInRange(b);
    ValidatedIsAble(b, conn, req);
    var op := OpOf(req);
    CallIsServed(b, |b.layers| - 1, op, script);
    PluginMade(op, Power(b, Fua), script);
    var x := CallAt(b.layers, |b.layers| - 1, op, script);
    if Unasked(b, op) {
      NothingServed(req);
    } else if EmulatedBy(b, op) {
      forall k | 0 <= k < |x.calls| ensures Serves(b, req, x.calls[k]) && (Stores(x.calls[k]) ==> req.cmd.Modifies()) {
        ChunkServes(b, req, x.calls[k]);
      }
    } else {
      OpIsServed(b, conn, req);
      if !op.FlushOp? {
        TileOne(op);
      }
    }
  }

  lemma NothingServed(req: Request)
    ensures Tile([], req.offset) && Reach([], req.offset) == req.offset
  {
  }

  // The whole call, if it is not emulated.
  lemma OpIsServed(b: Backends, conn: Connection, req: Request)
    requires req.Valid() && Opened(b, conn) && Validate(conn, req) == Accept && !EmulatedBy(b, OpOf(req))
    ensures Serves(b, req, OpOf(req)) && (Stores(OpOf(req)) ==> req.cmd.Modifies())
    ensures !OpOf(req).FlushOp? ==> OpOf(req).offset == req.offset && OpOf(req).count == req.count > 0
  {
    hide Power;
    RangeNeverWraps(conn.size, req.offset, req.count);
  }

  lemma ChunkServes(b: Backends, req: Request, call: Op)
    requires !req.cmd.CmdDisc? && !req.cmd.CmdUnknown? && EmulatedBy(b, OpOf(req)) && IsChunk(b, OpOf(req), call)
    ensures Serves(b, req, call) && (Stores(call) ==> req.cmd.Modifies())
  {
    hide Power;
  }
}
