/** The error of a failing plugin callback on its way up a chain of pass-through filters,
    and the assertions that the backend functions make about it. */
module Errors {
  import opened Common
  import opened Capabilities
  import opened Requests

  const EIO: nat := 5
  const ENOTSUP: nat := 95
  const EOPNOTSUPP: nat := 95

  predicate Unsupported(err: Option<nat>) { err == Some(ENOTSUP) || err == Some(EOPNOTSUPP) }

  // ---------- The plugin ----------

  // What a callback does: succeed, or fail and leave this error number behind.
  datatype Answer = Passes | Fails(code: nat)

  // get_errno
  function GetErrno(code: nat): nat { if code == 0 then EIO else code }

  // How a call ended, the answers of the callbacks still to come, and the callbacks that
  // were made.  When there are no more answers, callbacks succeed.
  datatype Ended = Ended(err: Option<nat>, rest: seq<Answer>, made: seq<Op>)

  function Callback(op: Op, script: seq<Answer>): Ended {
    if script == [] then Ended(None, [], [op])
    else Ended(if script[0].Fails? then Some(GetErrno(script[0].code)) else None, script[1..], [op])
  }

  function Followed(first: Ended, second: Ended): Ended { second.(made := first.made + second.made) }

  // FUA is emulated by a flush.
  function ThenFlush(e: Ended, needFlush: bool): Ended {
    if e.err.Some? || !needFlush then e else Followed(e, Callback(FlushOp, e.rest))
  }

  // The write fallback of plugin_zero, which writes at one offset only.
  function Writes(count: nat, offset: nat, fua: bool, script: seq<Answer>): Ended
    decreases count
  {
    if count == 0 then Ended(None, script, [])
    else
      var limit := Min(count, MAX_REQUEST_SIZE);
      var w := Callback(Pwrite(limit, offset, fua), script);
      if w.err.Some? then w else Followed(w, Writes(count - limit, offset, fua, w.rest))
  }

  predicate Asks(op: Op) { (op.Pwrite? || op.TrimOp? || op.ZeroOp?) && op.fua }

  // The call as the plugin sees it: FUA is only for those that have it natively.
  function Native(op: Op, canFua: int): Op {
    if Asks(op) && canFua != NATIVE then op.(fua := false) else op
  }

  function PluginZero(op: Op, canFua: int, script: seq<Answer>): Ended
    requires op.ZeroOp?
  {
    var needFlush := op.fua && canFua != NATIVE;
    var zero := Callback(Native(op, canFua), script);
    if !Unsupported(zero.err) then ThenFlush(zero, needFlush)
    else if op.fast then zero.(err := Some(EOPNOTSUPP))
    else ThenFlush(Followed(zero, Writes(op.count, op.offset, op.fua && !needFlush, zero.rest)), needFlush)
  }

  // plugin_pread, plugin_pwrite and so on.
  function PluginOp(op: Op, canFua: int, script: seq<Answer>): Ended {
    match op
    case Pwrite(_, _, fua) => ThenFlush(Callback(Native(op, canFua), script), fua && canFua != NATIVE)
    case TrimOp(_, _, fua) => ThenFlush(Callback(Native(op, canFua), script), fua && canFua != NATIVE)
    case ZeroOp(_, _, _, _, _) => PluginZero(op, canFua, script)
    case _ => Callback(op, script)
  }

  // ---------- The chain ----------

  // How a call of a backend function ended, whether all assertions that it and the calls
  // below it make about the error held, and the calls that reached the plugin.
  datatype Exit = Exit(ended: Ended, holds: bool, calls: seq<Op>)

  // The assertions of one backend function: a failure has an error, and "not supported" is
  // for fast zeroes only.
  predicate ExitHolds(op: Op, err: Option<nat>) {
    err.Some? ==> err.value != 0 && (op.ZeroOp? && !op.fast ==> !Unsupported(err))
  }

  function Below(layers: seq<Layer>, i: nat, op: Op, script: seq<Answer>): Exit
    requires i < |layers|
    decreases i, 0, 0
  {
    if i == 0 then Exit(PluginOp(op, Cached(layers[0], Fua), script), true, [op]) else CallAt(layers, i - 1, op, script)
  }

  function CallAt(layers: seq<Layer>, i: nat, op: Op, script: seq<Answer>): Exit
    requires i < |layers|
    decreases i, 2, 0
  {
    if MadeUp(layers[i], op) then Exit(Ended(None, script, []), true, [])
    else if Emulated(layers[i], op) then
      if op.ZeroOp? && op.fast then Exit(Ended(Some(ENOTSUP), script, []), true, [])
      else ChunksAt(layers, i, op, op.count, op.offset, script)
    else
      var below := Below(layers, i, op, script);
      below.(holds := below.holds && ExitHolds(op, below.ended.err))
  }

  // The emulation returns at the first chunk that fails, past the assertions at its end.
  function ChunksAt(layers: seq<Layer>, i: nat, op: Op, count: nat, offset: nat, script: seq<Answer>): Exit
    requires i < |layers| && Emulated(layers[i], op)
    decreases i, 1, count
  {
    if count == 0 then Exit(Ended(None, script, []), true, [])
    else
      var chunk := Chunk(layers[i], op, count, offset);
      var below := Below(layers, i, chunk, script);
      var holds := below.holds && ExitHolds(chunk, below.ended.err);
      if below.ended.err.Some? then below.(holds := holds)
      else
        var more := ChunksAt(layers, i, op, count - chunk.count, offset + chunk.count, below.ended.rest);
        Exit(Followed(below.ended, more.ended), holds && more.holds, below.calls + more.calls)
  }

  // ---------- When they hold ----------

  // The error of the first of m callbacks that fails.
  function FirstFailure(script: seq<Answer>, m: nat): Option<nat> {
    if m == 0 || script == [] then None
    else if script[0].Fails? then Some(GetErrno(script[0].code))
    else FirstFailure(script[1..], m - 1)
  }

  function ChunkCount(count: nat): nat {
    if count == 0 then 0 else 1 + ChunkCount(count - Min(count, MAX_REQUEST_SIZE))
  }

  function Drop(script: seq<Answer>, m: nat): seq<Answer> { if m <= |script| then script[m..] else [] }

  lemma {:induction false} WritesFail(count: nat, offset: nat, fua: bool, script: seq<Answer>)
    ensures Writes(count, offset, fua, script).err == FirstFailure(script, ChunkCount(count))
    ensures Writes(count, offset, fua, script).err.None? ==> Writes(count, offset, fua, script).rest == Drop(script, ChunkCount(count))
    decreases count
  {
    if count > 0 {
      var limit := Min(count, MAX_REQUEST_SIZE);
      WritesFail(count - limit, offset, fua, Callback(Pwrite(limit, offset, fua), script).rest);
    }
  }

  lemma {:induction false} OneMoreFailure(script: seq<Answer>, m: nat)
    ensures FirstFailure(script, m + 1) ==
              if FirstFailure(script, m).Some? then FirstFailure(script, m) else FirstFailure(Drop(script, m), 1)
  {
    if m > 0 && script != [] && !script[0].Fails? {
      OneMoreFailure(script[1..], m - 1);
    }
  }

  /** The error of a zero that is not a fast one is "not supported" exactly if the callback
      that fails last says so: .zero itself saying so only leads to writes.  After .zero
      passes that can be the flush, and otherwise one of the writes or the flush. */
  predicate ZeroTrips(op: Op, canFua: int, script: seq<Answer>)
    requires op.ZeroOp?
  {
    var flush := if op.fua && canFua != NATIVE then 1 else 0;
    var zero := FirstFailure(script, 1);
    && (zero.None? || Unsupported(zero))
    && Unsupported(FirstFailure(Drop(script, 1), if zero.None? then flush else ChunkCount(op.count) + flush))
  }

  lemma ZeroTripsIff(op: Op, canFua: int, script: seq<Answer>)
    requires op.ZeroOp? && !op.fast
    ensures Unsupported(PluginZero(op, canFua, script).err) <==> ZeroTrips(op, canFua, script)
  {
    var rest := Drop(script, 1);
    WritesFail(op.count, op.offset, op.fua && canFua == NATIVE, rest);
    OneMoreFailure(rest, ChunkCount(op.count));
    var zero := Native(op, canFua);
    assert FirstFailure(script, 1) == Callback(zero, script).err && Callback(zero, script).rest == rest;
    assert FirstFailure(rest, 0).None?;
    assert forall s :: FirstFailure(s, 1) == Callback(FlushOp, s).err;
  }

  lemma {:induction false} FailuresHaveErrors(script: seq<Answer>, m: nat)
    ensures FirstFailure(script, m) != Some(0)
  {
    if m > 0 && script != [] {
      FailuresHaveErrors(script[1..], m - 1);
    }
  }

  lemma PluginErrors(op: Op, canFua: int, script: seq<Answer>)
    ensures PluginOp(op, canFua, script).err != Some(0)
  {
    if op.ZeroOp? {
      var rest := Callback(op, script).rest;
      WritesFail(op.count, op.offset, op.fua && canFua == NATIVE, rest);
      FailuresHaveErrors(rest, ChunkCount(op.count));
    }
  }

  // What the chain says of an error that comes from the plugin.
  predicate Tripped(b: Backends, op: Op, script: seq<Answer>) {
    op.ZeroOp? && !op.fast && Power(b, Zero) == NATIVE && ZeroTrips(op, Power(b, Fua), script)
  }

  // A call that is not emulated comes back as the plugin ended it.
  lemma {:induction false} PassedUp(b: Backends, i: nat, op: Op, script: seq<Answer>)
    requires b.Primed() && Normalised(b.plugin) && i < |b.layers|
    requires Able(b, op) && !EmulatedBy(b, op) && !(op.ExtentsOp? && Power(b, Extents) == 0)
    ensures var e := PluginOp(op, Power(b, Fua), script);
            CallAt(b.layers, i, op, script) == Exit(e, ExitHolds(op, e.err), [op])
    decreases i
  {
    hide Power, Backends.Primed, Normalised, PluginOp, ExitHolds;
    AssertsIffAble(b, i, op);
    LayerFacts(b, i);
    LayerFacts(b, 0);
    if i > 0 {
      PassedUp(b, i - 1, op, script);
    } else {
      FuaMatters(b, op, script);
    }
  }

  lemma FuaMatters(b: Backends, op: Op, script: seq<Answer>)
    requires |b.layers| > 0 && Able(b, op) && (Power(b, Write) == 1 ==> Cached(b.layers[0], Fua) == Power(b, Fua))
    ensures PluginOp(op, Cached(b.layers[0], Fua), script) == PluginOp(op, Power(b, Fua), script)
  {
    hide Power;
  }

  lemma {:induction false} ChunksHoldOnExit(b: Backends, i: nat, op: Op, count: nat, offset: nat, script: seq<Answer>)
    requires b.Primed() && Normalised(b.plugin) && i < |b.layers|
    requires Able(b, op) && Emulated(b.layers[i], op)
    requires op.offset <= offset && offset + count == op.offset + op.count
    ensures ChunksAt(b.layers, i, op, count, offset, script).holds
    decreases count
  {
    hide Power, Backends.Primed, Normalised, PluginOp, CallAt;
    if count > 0 {
      var chunk := Chunk(b.layers[i], op, count, offset);
      assert Able(b, chunk) && !EmulatedBy(b, chunk);
      PluginErrors(chunk, Power(b, Fua), script);
      LayerFacts(b, 0);
      FuaMatters(b, chunk, script);
      if i > 0 {
        PassedUp(b, i - 1, chunk, script);
      }
      var below := Below(b.layers, i, chunk, script);
      ChunksHoldOnExit(b, i, op, count - chunk.count, offset + chunk.count, below.ended.rest);
    }
  }

  /** The assertions about the error of a call hold in every layer exactly if it is not a
      zero, done natively and not fast, that the last failing callback calls not supported. */
  lemma ExitsHoldIff(b: Backends, i: nat, op: Op, script: seq<Answer>)
    requires b.Primed() && Normalised(b.plugin) && i < |b.layers| && Able(b, op)
    ensures CallAt(b.layers, i, op, script).holds <==> !Tripped(b, op, script)
  {
    hide Power, Backends.Primed, Normalised, PluginOp, ZeroTrips, ChunksAt;
    AssertsIffAble(b, i, op);
    LayerFacts(b, i);
    if EmulatedBy(b, op) {
      if !(op.ZeroOp? && op.fast) {
        ChunksHoldOnExit(b, i, op, op.count, op.offset, script);
      }
    } else if !(op.ExtentsOp? && Power(b, Extents) == 0) {
      PassedUp(b, i, op, script);
      PluginErrors(op, Power(b, Fua), script);
      if op.ZeroOp? && !op.fast {
        ZeroTripsIff(op, Power(b, Fua), script);
        assert PluginOp(op, Power(b, Fua), script) == PluginZero(op, Power(b, Fua), script) by { ZeroAtPlugin(op, Power(b, Fua), script); }
      }
    }
  }

  lemma ZeroAtPlugin(op: Op, canFua: int, script: seq<Answer>)
    requires op.ZeroOp?
    ensures PluginOp(op, canFua, script) == PluginZero(op, canFua, script)
  {
  }

  /** An accepted request meets all assertions of the calls it gives rise to, on entry and
      about their errors, exactly if it asks for a fast zero only where that was advertised
      and the plugin does not end an ordinary zero with "not supported". */
  lemma AcceptedMeetsAllAsserts(b: Backends, conn: Connection, req: Request, parallel: bool, script: seq<Answer>)
    requires b.Primed() && Normalised(b.plugin) && req.Valid()
    requires conn.size == b.plugin.size && conn.eflags == b.Advertised(conn.structuredReplies, parallel)
    requires Validate(conn, req) == Accept
    ensures |b.layers| > 0
    ensures AllHold(b.layers, |b.layers| - 1, OpOf(req)) && CallAt(b.layers, |b.layers| - 1, OpOf(req), script).holds <==>
              (req.flags.fastZero ==> conn.eflags.fastZero) && !Tripped(b, OpOf(req), script)
  {
    hide AllHold, CallAt, Tripped, Able, Power, Backends.Primed, Backends.Advertised, Normalised;
    var op := OpOf(req);
    hide *;
    AcceptedMeetsAsserts(b, conn, req, parallel);
    AbleInEveryLayer(b, |b.layers| - 1, op);
    if Able(b, op) {
      ExitsHoldIff(b, |b.layers| - 1, op, script);
    }
  }

  // A plugin whose .zero is not supported, and whose .pwrite then says the same.
  lemma UnsupportedWriteTrips(b: Backends, op: Op)
    requires op.ZeroOp? && !op.fast && op.count > 0 && Power(b, Zero) == NATIVE
    ensures Tripped(b, op, [Fails(EOPNOTSUPP), Fails(EOPNOTSUPP)])
  {
    hide Power;
    var script := [Fails(EOPNOTSUPP), Fails(EOPNOTSUPP)];
    assert Drop(script, 1) == [Fails(EOPNOTSUPP)];
  }

  method UnsupportedZeroTrips() returns (b: Backends, conn: Connection, script: seq<Answer>)
    ensures fresh(b) && b.Primed() && conn.eflags == b.Advertised(false, false) && |b.layers| == 2
    ensures Validate(conn, ZeroRequest(false)) == Accept && AllHold(b.layers, 1, OpOf(ZeroRequest(false)))
    ensures !CallAt(b.layers, 1, OpOf(ZeroRequest(false)), script).holds
  {
    b, conn := OpenSlowZero();
    script := [Fails(EOPNOTSUPP), Fails(EOPNOTSUPP)];
    SlowZeroIsKnown(b);
    ZeroAccepted(conn, false);
    UnsupportedWriteTrips(b, OpOf(ZeroRequest(false)));
    assert !ZeroRequest(false).flags.fastZero;
    hide *;
    AcceptedMeetsAsserts(b, conn, ZeroRequest(false), false);
    AcceptedMeetsAllAsserts(b, conn, ZeroRequest(false), false, script);
  }
}
