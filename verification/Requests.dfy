/** Request validation, and why an accepted request never trips an assertion of the
    backend functions it reaches, in any layer of the chain. */
module Requests {
  import opened Common
  import opened Capabilities

  datatype Command = CmdRead | CmdWrite | CmdDisc | CmdFlush | CmdTrim | CmdCache | CmdWriteZeroes | CmdBlockStatus | CmdUnknown
  {
    predicate Modifies() { CmdWrite? || CmdTrim? || CmdWriteZeroes? }
    predicate HasRange() { !CmdDisc? && !CmdFlush? && !CmdUnknown? }
  }

  // NBD_CMD_FLAG_*; unknown stands for any other bit.
  datatype CmdFlags = CmdFlags(fua: bool, noHole: bool, df: bool, reqOne: bool, fastZero: bool, unknown: bool)

  // offset is a uint64_t and count a uint32_t.
  datatype Request = Request(cmd: Command, flags: CmdFlags, offset: nat, count: nat)
  {
    ghost predicate Valid() { offset < UINT64_RANGE && count <= UINT32_MAX }
  }

  datatype Errno = EROFS | ENOSPC | EINVAL | ENOMEM
  datatype Verdict = Accept | Reject(error: Errno)

  // What validation looks at in the connection.
  datatype Connection = Connection(eflags: ExportFlags, structuredReplies: bool, baseAllocation: bool, size: nat)

  // backend_valid_range, with the addition of uint64_t values.
  predicate ValidRange(size: int, offset: nat, count: nat)
    requires offset < UINT64_RANGE && count < UINT64_RANGE
  {
    0 <= size <= INT64_MAX && count > 0 && offset <= size && AddU64(offset, count) <= size
  }

  /** The addition never wraps: the range check is the one on whole numbers. */
  lemma RangeNeverWraps(size: int, offset: nat, count: nat)
    requires 0 <= size <= INT64_MAX && offset < UINT64_RANGE && count <= UINT32_MAX
    ensures ValidRange(size, offset, count) <==> count > 0 && offset + count <= size
  {
  }

  // validate_request
  function Validate(conn: Connection, req: Request): Verdict
    requires req.Valid()
  {
    var f := req.flags;
    if conn.eflags.readOnly && req.cmd.Modifies() then Reject(EROFS)
    else if req.cmd.HasRange() && !ValidRange(conn.size, req.offset, req.count) then
      Reject(if req.cmd == CmdWrite || req.cmd == CmdWriteZeroes then ENOSPC else EINVAL)
    else if req.cmd == CmdFlush && (req.offset != 0 || req.count != 0) then Reject(EINVAL)
    else if req.cmd == CmdDisc || req.cmd == CmdUnknown then Reject(EINVAL)
    else if f.unknown then Reject(EINVAL)
    else if f.noHole && req.cmd != CmdWriteZeroes then Reject(EINVAL)
    else if f.fastZero && req.cmd != CmdWriteZeroes then Reject(EINVAL)
    else if f.df && (req.cmd != CmdRead || !conn.structuredReplies) then Reject(EINVAL)
    else if f.reqOne && req.cmd != CmdBlockStatus then Reject(EINVAL)
    else if f.fua && !conn.eflags.fua then Reject(EINVAL)
    else if (req.cmd == CmdWrite || req.cmd == CmdRead) && req.count > MAX_REQUEST_SIZE then Reject(ENOMEM)
    else if req.cmd == CmdFlush && !conn.eflags.flush then Reject(EINVAL)
    else if req.cmd == CmdTrim && !conn.eflags.trim then Reject(EINVAL)
    else if req.cmd == CmdWriteZeroes && !conn.eflags.writeZeroes then Reject(EINVAL)
    else if req.cmd == CmdCache && !conn.eflags.cache then Reject(EINVAL)
    else if req.cmd == CmdBlockStatus && (!conn.structuredReplies || !conn.baseAllocation) then Reject(EINVAL)
    else Accept
  }

  // ---------- The backend calls and their assertions ----------

  datatype Op =
    | Pread(count: nat, offset: nat)
    | Pwrite(count: nat, offset: nat, fua: bool)
    | FlushOp
    | TrimOp(count: nat, offset: nat, fua: bool)
    | ZeroOp(count: nat, offset: nat, mayTrim: bool, fua: bool, fast: bool)
    | CacheOp(count: nat, offset: nat)
    | ExtentsOp(count: nat, offset: nat, reqOne: bool)

  // handle_request
  function OpOf(req: Request): Op
    requires !req.cmd.CmdDisc? && !req.cmd.CmdUnknown?
  {
    var f := req.flags;
    match req.cmd
    case CmdRead => Pread(req.count, req.offset)
    case CmdWrite => Pwrite(req.count, req.offset, f.fua)
    case CmdFlush => FlushOp
    case CmdTrim => TrimOp(req.count, req.offset, f.fua)
    case CmdCache => CacheOp(req.count, req.offset)
    case CmdWriteZeroes => ZeroOp(req.count, req.offset, !f.noHole, f.fua, f.fastZero)
    case CmdBlockStatus => ExtentsOp(req.count, req.offset, f.reqOne)
  }

  function Cached(l: Layer, c: Cap): int {
    if c in l.cache then l.cache[c] else -1
  }

  // Whether a layer can take this much at this place.
  ghost predicate InLayer(l: Layer, offset: nat, count: nat) {
    offset < UINT64_RANGE && count <= UINT32_MAX && ValidRange(l.size, offset, count)
  }

  // The assertions at the head of the backend function for op.
  ghost predicate Asserts(l: Layer, op: Op) {
    && l.connected
    && match op
       case Pread(count, offset) => InLayer(l, offset, count)
       case Pwrite(count, offset, fua) =>
         Cached(l, Write) == 1 && InLayer(l, offset, count) && (fua ==> Cached(l, Fua) > NONE)
       case FlushOp => Cached(l, Flush) == 1
       case TrimOp(count, offset, fua) =>
         && Cached(l, Write) == 1 && Cached(l, Trim) == 1
         && InLayer(l, offset, count) && (fua ==> Cached(l, Fua) > NONE)
       case ZeroOp(count, offset, mayTrim, fua, fast) =>
         && Cached(l, Write) == 1 && Cached(l, Zero) > NONE && InLayer(l, offset, count)
         && (fua ==> Cached(l, Fua) > NONE) && (fast ==> Cached(l, FastZero) == 1)
       case CacheOp(count, offset) => Cached(l, Cache) > NONE && InLayer(l, offset, count)
       case ExtentsOp(count, offset, reqOne) => Cached(l, Extents) >= 0 && InLayer(l, offset, count)
  }

  // Whether the call takes place as writes or reads of this same layer.
  predicate Emulated(l: Layer, op: Op) {
    || (op.ZeroOp? && Cached(l, Zero) != NATIVE)
    || (op.CacheOp? && Cached(l, Cache) == EMULATE)
  }

  // The chunk of an emulated call that starts at offset with count bytes to go.  With
  // emulated FUA only the last write carries the flag.
  function Chunk(l: Layer, op: Op, count: nat, offset: nat): Op
    requires Emulated(l, op)
  {
    var limit := Min(count, MAX_REQUEST_SIZE);
    if op.CacheOp? then Pread(limit, offset)
    else Pwrite(limit, offset, op.fua && (Cached(l, Fua) != EMULATE || limit == count))
  }

  // Whether the call ends here: extents of a plugin that has none are made up.
  predicate MadeUp(l: Layer, op: Op) { op.ExtentsOp? && Cached(l, Extents) == 0 }

  // The assertions on entry of every backend call that op gives rise to, from layer i down.
  ghost predicate AllHold(layers: seq<Layer>, i: nat, op: Op)
    requires i < |layers|
    decreases i, 2, 0
  {
    && Asserts(layers[i], op)
    && if Emulated(layers[i], op) then
         (op.ZeroOp? && op.fast) || ChunksHold(layers, i, op, op.count, op.offset)
       else
         i == 0 || MadeUp(layers[i], op) || AllHold(layers, i - 1, op)
  }

  ghost predicate ChunksHold(layers: seq<Layer>, i: nat, op: Op, count: nat, offset: nat)
    requires i < |layers| && Emulated(layers[i], op)
    decreases i, 1, count
  {
    count == 0 ||
    var chunk := Chunk(layers[i], op, count, offset);
    && Asserts(layers[i], chunk)
    && (i == 0 || AllHold(layers, i - 1, chunk))
    && ChunksHold(layers, i, op, count - chunk.count, offset + chunk.count)
  }

  // ---------- The theorem ----------

  function Power(b: Backends, c: Cap): int { Effective(b.plugin, b.readonly, c) }

  predicate Inside(b: Backends, offset: nat, count: nat) {
    0 < count <= UINT32_MAX && offset + count <= b.plugin.size
  }

  predicate Writable(b: Backends, offset: nat, count: nat, fua: bool) {
    Power(b, Write) == 1 && Inside(b, offset, count) && (fua ==> Power(b, Fua) > NONE)
  }

  // The same demands, made of the effective capabilities instead of cached ones.
  predicate Able(b: Backends, op: Op) {
    match op
    case Pread(count, offset) => Inside(b, offset, count)
    case Pwrite(count, offset, fua) => Writable(b, offset, count, fua)
    case FlushOp => Power(b, Flush) == 1
    case TrimOp(count, offset, fua) => Power(b, Trim) == 1 && Writable(b, offset, count, fua)
    case ZeroOp(count, offset, _, fua, fast) =>
      Power(b, Zero) > NONE && Writable(b, offset, count, fua) && (fast ==> Power(b, FastZero) == 1)
    case CacheOp(count, offset) => Power(b, Cache) > NONE && Inside(b, offset, count)
    case ExtentsOp(count, offset, _) => Power(b, Extents) >= 0 && Inside(b, offset, count)
  }

  // In a primed chain every layer knows what the plugin was asked.
  lemma LayerKnows(b: Backends, j: nat, c: Cap)
    requires b.Primed() && j < |b.layers| && Reaches(b.plugin, b.readonly, c)
    ensures c in b.layers[j].cache && b.layers[j].cache[c] == Effective(b.plugin, b.readonly, c)
    ensures b.layers[j].connected && b.layers[j].size == b.plugin.size
  {
    hide Effective, Reaches;
    var top := |b.layers| - 1;
    assert Turn(c) < 10;
    assert b.SoundLayer(b.layers[j]);
    if j < top {
      assert b.Passed(b.layers[top], b.layers[j]);
    }
  }

  // What a layer of a primed chain has cached.
  lemma LayerFacts(b: Backends, j: nat)
    requires b.Primed() && Normalised(b.plugin) && j < |b.layers|
    ensures var l := b.layers[j];
            && l.connected && l.size == b.plugin.size && 0 <= l.size <= INT64_MAX && Power(b, Extents) >= 0
            && Cached(l, Write) == Power(b, Write) && Cached(l, Flush) == Power(b, Flush)
            && Cached(l, Cache) == Power(b, Cache) && Cached(l, Extents) == Power(b, Extents)
            && (Power(b, Write) == 1 ==>
                  Cached(l, Trim) == Power(b, Trim) && Cached(l, Fua) == Power(b, Fua) && Cached(l, Zero) == Power(b, Zero))
            && (Power(b, Write) == 1 && Power(b, Zero) > NONE ==> Cached(l, FastZero) == Power(b, FastZero))
  {
    hide Backends.Primed, Power, Cached;
    PowersInRange(b);
    KnownPower(b, j, Write);
    KnownPower(b, j, Flush);
    KnownPower(b, j, Cache);
    KnownPower(b, j, Extents);
    if Power(b, Write) == 1 {
      WritableFacts(b, j);
    }
  }

  lemma KnownPower(b: Backends, j: nat, c: Cap)
    requires b.Primed() && Normalised(b.plugin) && j < |b.layers| && Reaches(b.plugin, b.readonly, c)
    ensures Cached(b.layers[j], c) == Power(b, c)
    ensures b.layers[j].connected && b.layers[j].size == b.plugin.size
  {
    hide Effective, Reaches, Backends.Primed;
    LayerKnows(b, j, c);
  }

  lemma WritableFacts(b: Backends, j: nat)
    requires b.Primed() && Normalised(b.plugin) && j < |b.layers| && Power(b, Write) == 1
    ensures var l := b.layers[j];
            && Cached(l, Trim) == Power(b, Trim) && Cached(l, Fua) == Power(b, Fua) && Cached(l, Zero) == Power(b, Zero)
            && (Power(b, Zero) > NONE ==> Cached(l, FastZero) == Power(b, FastZero))
  {
    hide Backends.Primed, Cached, Effective;
    PowersInRange(b);
    KnownPower(b, j, Trim);
    KnownPower(b, j, Fua);
    KnownPower(b, j, Zero);
    if Power(b, Zero) > NONE {
      KnownPower(b, j, FastZero);
    }
  }

  // A layer meets the assertions of a call exactly when the chain is able to do it.
  lemma AssertsIffAble(b: Backends, j: nat, op: Op)
    requires b.Primed() && Normalised(b.plugin) && j < |b.layers|
    ensures Asserts(b.layers[j], op) <==> Able(b, op)
    ensures Able(b, op) ==> Emulated(b.layers[j], op) == EmulatedBy(b, op)
    ensures Able(b, op) && op.ZeroOp? ==> Cached(b.layers[j], Fua) == Power(b, Fua)
  {
    hide Power, Backends.Primed, Normalised;
    LayerFacts(b, j);
  }

  predicate EmulatedBy(b: Backends, op: Op) {
    (op.ZeroOp? && Power(b, Zero) != NATIVE) || (op.CacheOp? && Power(b, Cache) == EMULATE)
  }

  lemma {:induction false} AbleInEveryLayer(b: Backends, i: nat, op: Op)
    requires b.Primed() && Normalised(b.plugin) && i < |b.layers|
    ensures AllHold(b.layers, i, op) <==> Able(b, op)
    decreases i, 2, 0
  {
    hide Power, Backends.Primed, Normalised;
    AssertsIffAble(b, i, op);
    if Able(b, op) {
      if !EmulatedBy(b, op) {
        if i > 0 {
          AbleInEveryLayer(b, i - 1, op);
        }
      } else if !(op.ZeroOp? && op.fast) {
        AbleInChunks(b, i, op, op.count, op.offset);
      }
    }
  }

  lemma {:induction false} AbleInChunks(b: Backends, i: nat, op: Op, count: nat, offset: nat)
    requires b.Primed() && Normalised(b.plugin) && i < |b.layers|
    requires Able(b, op) && Emulated(b.layers[i], op)
    requires op.offset <= offset && offset + count == op.offset + op.count
    ensures ChunksHold(b.layers, i, op, count, offset)
    decreases i, 1, count
  {
    hide Power, Backends.Primed, Normalised, Able, Emulated, AllHold, Asserts, Chunk;
    if count > 0 {
      var chunk := Chunk(b.layers[i], op, count, offset);
      ChunkIsAble(b, i, op, count, offset);
      AssertsIffAble(b, i, chunk);
      if i > 0 {
        AbleInEveryLayer(b, i - 1, chunk);
      }
      AbleInChunks(b, i, op, count - chunk.count, offset + chunk.count);
    }
  }

  lemma ChunkIsAble(b: Backends, i: nat, op: Op, count: nat, offset: nat)
    requires i < |b.layers| && Able(b, op) && Emulated(b.layers[i], op)
    requires 0 < count && op.offset <= offset && offset + count == op.offset + op.count
    ensures var chunk := Chunk(b.layers[i], op, count, offset);
            Able(b, chunk) && (chunk.Pread? || chunk.Pwrite?) && chunk.offset == offset && chunk.count == Min(count, MAX_REQUEST_SIZE)
  {
    hide Power;
  }

  predicate FlagsMatch(b: Backends, eflags: ExportFlags) {
    && eflags.readOnly == (Power(b, Write) == 0) && eflags.writeZeroes == (Power(b, Zero) > 0)
    && eflags.fastZero == (Power(b, FastZero) > 0) && eflags.trim == (Power(b, Trim) > 0)
    && eflags.fua == (Power(b, Fua) > 0) && eflags.flush == (Power(b, Flush) > 0)
    && eflags.cache == (Power(b, Cache) > 0)
  }

  // The flags that a command may carry.  FUA may come with any of them if it is advertised.
  predicate FlagsBelong(b: Backends, req: Request) {
    var f := req.flags;
    && !f.unknown && (f.noHole || f.fastZero ==> req.cmd == CmdWriteZeroes)
    && (f.df ==> req.cmd == CmdRead) && (f.reqOne ==> req.cmd == CmdBlockStatus)
    && (f.fua ==> Power(b, Fua) > NONE)
  }

  // What the client must have negotiated.
  predicate Negotiated(conn: Connection, req: Request) {
    (req.flags.df ==> conn.structuredReplies) && (req.cmd == CmdBlockStatus ==> conn.structuredReplies && conn.baseAllocation)
  }

  predicate TooLarge(req: Request) {
    (req.cmd == CmdRead || req.cmd == CmdWrite) && req.count > MAX_REQUEST_SIZE
  }

  // The same call without the demand to be fast.
  function Unhurried(op: Op): Op { if op.ZeroOp? then op.(fast := false) else op }

  ghost predicate Opened(b: Backends, conn: Connection) {
    && conn.size == b.plugin.size && FlagsMatch(b, conn.eflags)
    && 0 <= b.plugin.size <= INT64_MAX
    && forall c: Cap :: 0 <= Power(b, c) <= if c.Zero? || c.Fua? || c.Cache? then 2 else 1
  }

  lemma OpenedByHandshake(b: Backends, conn: Connection, parallel: bool)
    requires b.Primed() && Normalised(b.plugin)
    requires conn.size == b.plugin.size && conn.eflags == b.Advertised(conn.structuredReplies, parallel)
    ensures Opened(b, conn)
  {
    hide Power, Backends.Primed, FlagsMatch, Backends.Advertised;
    PowersInRange(b);
    FlagsMean(b, conn, parallel);
    LayerFacts(b, 0);
  }

  /** Which requests are accepted: those for a call that the chain is able to do, leaving aside
      whether it is fast, with flags that belong to the command, of a limited size and, where
      it takes that, negotiated. */
  lemma AcceptedIffAble(b: Backends, conn: Connection, req: Request)
    requires req.Valid() && Opened(b, conn)
    ensures Validate(conn, req) == Accept <==>
              && !req.cmd.CmdDisc? && !req.cmd.CmdUnknown? && Able(b, Unhurried(OpOf(req)))
              && FlagsBelong(b, req) && Negotiated(conn, req) && !TooLarge(req)
              && (req.cmd == CmdFlush ==> req.offset == req.count == 0)
  {
    hide Power;
    RangeNeverWraps(conn.size, req.offset, req.count);
  }

  /** Which error a refusal gets.  Any other one is for an invalid request. */
  lemma RefusedBecause(b: Backends, conn: Connection, req: Request)
    requires req.Valid() && Opened(b, conn)
    ensures Validate(conn, req) == Reject(EROFS) <==> req.cmd.Modifies() && Power(b, Write) == 0
    ensures Validate(conn, req) == Reject(ENOSPC) <==>
              (req.cmd == CmdWrite || req.cmd == CmdWriteZeroes) && Power(b, Write) == 1 && !Inside(b, req.offset, req.count)
    ensures Validate(conn, req) == Reject(ENOMEM) <==>
              && TooLarge(req) && Inside(b, req.offset, req.count) && FlagsBelong(b, req) && Negotiated(conn, req)
              && (req.cmd == CmdWrite ==> Power(b, Write) == 1)
  {
    hide Power;
    RangeNeverWraps(conn.size, req.offset, req.count);
  }

  // What validation leaves open is only the fast zero.
  lemma ValidatedIsAble(b: Backends, conn: Connection, req: Request)
    requires Normalised(b.plugin) && req.Valid() && conn.size == b.plugin.size
    requires forall c: Cap :: 0 <= Power(b, c) <= if c.Zero? || c.Fua? || c.Cache? then 2 else 1
    requires FlagsMatch(b, conn.eflags)
    requires Validate(conn, req) == Accept
    ensures Able(b, OpOf(req)) <==> (req.flags.fastZero ==> conn.eflags.fastZero)
  {
    hide Power;
    RangeNeverWraps(conn.size, req.offset, req.count);
  }

  /** A request that validation accepts meets, on entry, every assertion of every backend
      call it gives rise to, in every layer, if and only if it does not ask for a fast
      zero that was not advertised. */
  lemma AcceptedMeetsAsserts(b: Backends, conn: Connection, req: Request, parallel: bool)
    requires b.Primed() && Normalised(b.plugin) && req.Valid()
    requires conn.size == b.plugin.size && conn.eflags == b.Advertised(conn.structuredReplies, parallel)
    requires Validate(conn, req) == Accept
    ensures |b.layers| > 0
    ensures AllHold(b.layers, |b.layers| - 1, OpOf(req)) <==> (req.flags.fastZero ==> conn.eflags.fastZero)
  {
    var op := OpOf(req);
    hide *;
    PowersInRange(b);
    FlagsMean(b, conn, parallel);
    AbleInEveryLayer(b, |b.layers| - 1, op);
    ValidatedIsAble(b, conn, req);
  }

  /** Validation never looks at whether fast zeroes were advertised, so the condition
      is the client's to keep. */
  lemma FastZeroUnchecked(conn: Connection, req: Request)
    requires req.Valid() && req.cmd == CmdWriteZeroes
    ensures Validate(conn, req.(flags := req.flags.(fastZero := true))) == Validate(conn, req.(flags := req.flags.(fastZero := false)))
  {
  }

  // A plugin that can write and zero, but not quickly.
  function SlowZero(c: Cap): int { if c == Write then 1 else if c == Zero then NATIVE else 0 }

  // The connection to such a plugin through one filter.
  method OpenSlowZero() returns (b: Backends, conn: Connection)
    ensures fresh(b) && b.Primed() && Normalised(b.plugin) && |b.layers| == 2
    ensures b.plugin == Plugin(4096, SlowZero) && !b.readonly
    ensures conn == Connection(b.Advertised(false, false), false, false, 4096)
  {
    b := new Backends(Plugin(4096, SlowZero), false, 1);
    assert Normalised(b.plugin);
    SlowZeroIsKnown(b);
    hide *;
    var ok, size, flags := b.CommonOpen(false, false);
    conn := Connection(flags, false, false, 4096);
  }

  function ZeroRequest(fast: bool): Request {
    Request(CmdWriteZeroes, CmdFlags(false, false, false, false, fast, false), 0, 512)
  }

  // With the flags advertised for it, a fast zero is accepted and trips an assertion.
  method FastZeroTrips() returns (b: Backends, conn: Connection)
    ensures fresh(b) && b.Primed() && conn.eflags == b.Advertised(false, false) && |b.layers| == 2
    ensures Validate(conn, ZeroRequest(true)) == Accept && !AllHold(b.layers, 1, OpOf(ZeroRequest(true)))
  {
    b, conn := OpenSlowZero();
    SlowZeroIsKnown(b);
    ZeroAccepted(conn, true);
    assert ZeroRequest(true).flags.fastZero;
    hide *;
    AcceptedMeetsAsserts(b, conn, ZeroRequest(true), false);
  }

  lemma ZeroAccepted(conn: Connection, fast: bool)
    requires !conn.eflags.readOnly && conn.eflags.writeZeroes && conn.size == 4096
    ensures ZeroRequest(fast).Valid() && Validate(conn, ZeroRequest(fast)) == Accept
  {
  }

  lemma SlowZeroIsKnown(b: Backends)
    requires b.plugin == Plugin(4096, SlowZero) && !b.readonly
    ensures (forall c: Cap :: b.Known(c)) && !b.Advertised(false, false).fastZero
    ensures b.Advertised(false, false).writeZeroes && !b.Advertised(false, false).readOnly
  {
  }

  lemma FlagsMean(b: Backends, conn: Connection, parallel: bool)
    requires conn.eflags == b.Advertised(conn.structuredReplies, parallel)
    ensures FlagsMatch(b, conn.eflags)
  {
  }

  lemma PowersInRange(b: Backends)
    requires b.Primed() && Normalised(b.plugin)
    ensures |b.layers| > 0 && b.plugin.size >= 0
    ensures forall c: Cap :: 0 <= Power(b, c) <= if c.Zero? || c.Fua? || c.Cache? then 2 else 1
  {
    hide Effective;
    forall c: Cap ensures 0 <= Power(b, c) <= if c.Zero? || c.Fua? || c.Cache? then 2 else 1 {
      assert Turn(c) < 10;
      EffectiveRange(b.plugin, b.readonly, c);
    }
  }
}
