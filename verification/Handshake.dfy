/** Newstyle option negotiation. */
module Handshake {
  import opened Common
  import opened Wire
  import opened Options

  const MAX_NR_OPTIONS: nat := 32
  const MAX_EXPORTS: nat := 10000
  const NEW_VERSION: nat := 0x49484156454F5054
  const OPTION_HEADER: nat := 16

  const OPT_EXPORT_NAME := 1
  const OPT_ABORT := 2
  const OPT_LIST := 3
  const OPT_STARTTLS := 5
  const OPT_INFO := 6
  const OPT_GO := 7
  const OPT_STRUCTURED_REPLY := 8
  const OPT_LIST_META_CONTEXT := 9
  const OPT_SET_META_CONTEXT := 10

  const ERR_UNSUP := 0x8000_0001
  const ERR_POLICY := 0x8000_0002
  const ERR_INVALID := 0x8000_0003
  const ERR_PLATFORM := 0x8000_0004
  const ERR_TLS_REQD := 0x8000_0005
  const ERR_UNKNOWN := 0x8000_0006
  const ERR_TOO_BIG := 0x8000_0009

  const INFO_NAME := 1
  const INFO_DESCRIPTION := 2
  const INFO_BLOCK_SIZE := 3

  const BASE: seq<byte> := [98, 97, 115, 101, 58] // "base:"
  const ALLOCATION: seq<byte> := [97, 108, 108, 111, 99, 97, 116, 105, 111, 110] // "allocation"
  const BASE_ALLOCATION_ID := 1

  function BaseAllocation(): seq<byte> { BASE + ALLOCATION }

  type Name = seq<byte>
  type ExportCount = n: nat | n <= MAX_EXPORTS

  // ---------- State ----------

  // tls is 0 for off, 1 for on and 2 for require.
  datatype Config = Config(tls: nat, gnutls: bool, noStructured: bool, noMeta: bool, fixedNewstyle: bool)

  datatype Conn = Conn(
    usingTls: bool, structured: bool, metaName: Option<Name>, base: bool,
    defaults: seq<Option<Name>>, eflags: nat, context: bool)

  // What the backend is asked to do, and whether TLS is in use then.
  datatype Call =
    | ListExports(tls: bool)
    | OpenContext(tls: bool, name: Name)
    | FailedOpen(tls: bool, name: Name)
    | CloseContext(tls: bool)

  // lastError is the message of the last nbdkit_error of the thread, which goes out as the
  // text of every error reply.
  datatype Neg = Neg(conn: Conn, budget: nat, listSeen: bool, calls: seq<Call>, lastError: Option<string>)

  // What the backend and the TLS library answer during one option.  said is the last
  // message that the backend logged meanwhile.
  datatype Listing = NoMemory(message: string) | ListFailed | Listed(count: ExportCount)
  datatype Opening = NotOpened | HalfOpened | Opened(size: nat, eflags: nat)
  datatype BlockSize = NoBlockSize | BlockSizeFailed | BlockSizes(minimum: nat, preferred: nat, maximum: nat)
  datatype Env = Env(tlsOk: bool, listing: Listing, opening: Opening, names: seq<Option<Name>>,
    finalizeOk: bool, description: Option<seq<byte>>, blockSize: BlockSize, said: Option<string>)

  datatype Reply =
    | Ack(option: nat)
    | Error(option: nat, code: nat, text: string)
    | ServerName(option: nat, i: nat)
    | InfoExport(option: nat, size: nat, eflags: nat)
    | InfoName(option: nat, name: Name)
    | InfoDescription(option: nat, description: seq<byte>)
    | InfoBlockSize(option: nat, minimum: nat, preferred: nat, maximum: nat)
    | MetaContext(option: nat, id: nat)
    | ExportNameReply(size: nat, eflags: nat)

  // More options are awaited, an export has been chosen, or the connection is given up.
  datatype Kind = More | Ready | Gone

  // read: the payload has been taken off the wire
  datatype Result = Result(kind: Kind, neg: Neg, replies: seq<Reply>, read: bool)

  function Heard(n: Neg, message: Option<string>): Neg { if message.Some? then n.(lastError := message) else n }

  // The text that goes with an error: a message that is too long is not sent.
  function Text(lastError: Option<string>): string {
    if lastError.Some? && |lastError.value| <= MAX_STRING then lastError.value else ""
  }

  // send_newstyle_option_reply with an error
  function ErrorReply(n: Neg, opt: nat, code: nat): Reply { Error(opt, code, Text(n.lastError)) }

  function Refused(n: Neg, opt: nat, code: nat): Result { Result(More, n, [ErrorReply(n, opt, code)], true) }

  // A reply goes out before the payload is read.
  function RefusedEarly(n: Neg, opt: nat, code: nat, payload: Option<seq<byte>>): Result {
    Result(if payload.None? then Gone else More, n, [ErrorReply(n, opt, code)], payload.Some?)
  }

  // name_of_nbd_opt, for the options that carry strings
  function OptName(opt: nat): string {
    if opt == OPT_INFO then "NBD_OPT_INFO"
    else if opt == OPT_GO then "NBD_OPT_GO"
    else if opt == OPT_LIST_META_CONTEXT then "NBD_OPT_LIST_META_CONTEXT"
    else if opt == OPT_SET_META_CONTEXT then "NBD_OPT_SET_META_CONTEXT"
    else "NBD_OPT_EXPORT_NAME"
  }

  // The names cached by backend_default_export: an entry is filled once.
  function Fill(defaults: seq<Option<Name>>, names: seq<Option<Name>>): seq<Option<Name>> {
    seq(|defaults|, i requires 0 <= i < |defaults| =>
      if defaults[i].Some? || i >= |names| then defaults[i] else names[i])
  }

  // ---------- Opening an export ----------

  // finish_newstyle_options
  function Finish(n: Neg, name: Name, e: Env): Neg {
    var c := n.conn;
    var kept := c.metaName.None? || c.metaName.value == name;
    Heard(n, e.said).(conn := c.(base := c.base && kept,
                  defaults := Fill(c.defaults, e.names),
                  eflags := if e.opening.Opened? then e.opening.eflags else c.eflags,
                  context := !e.opening.NotOpened?),
       calls := n.calls + [if e.opening.NotOpened? then FailedOpen(c.usingTls, name) else OpenContext(c.usingTls, name)])
  }

  function Close(n: Neg): Neg {
    if n.conn.context then n.(conn := n.conn.(context := false), calls := n.calls + [CloseContext(n.conn.usingTls)]) else n
  }

  function ExportName(n: Neg, payload: Option<seq<byte>>, e: Env): Result {
    if payload.None? || !CheckString(payload.value, 0, |payload.value|, |payload.value|) then Result(Gone, n, [], false)
    else
      var m := Finish(n, payload.value, e);
      if !e.opening.Opened? then Result(Gone, m, [], true)
      else Result(Ready, m, [ExportNameReply(e.opening.size, e.opening.eflags)], true)
  }

  // The replies to the information requests, up to one for a block size that cannot be had.
  datatype InfoAnswers = InfoAnswers(replies: seq<Reply>, complete: bool)

  function Infos(opt: nat, g: Go, infos: seq<nat>, defaults: seq<Option<Name>>, e: Env): InfoAnswers {
    if infos == [] then InfoAnswers([], true)
    else
      var before := Infos(opt, g, infos[..|infos| - 1], defaults, e);
      var last := infos[|infos| - 1];
      if !before.complete || (last == INFO_BLOCK_SIZE && e.blockSize.BlockSizeFailed?) then before.(complete := false)
      else InfoAnswers(before.replies + InfoReply(opt, g, last, defaults, e), true)
  }

  function InfoReply(opt: nat, g: Go, info: nat, defaults: seq<Option<Name>>, e: Env): seq<Reply> {
    if info == INFO_NAME then
      if g.name != [] then [InfoName(opt, g.name)]
      else if |defaults| > 0 && defaults[|defaults| - 1].Some? then [InfoName(opt, defaults[|defaults| - 1].value)]
      else []
    else if info == INFO_DESCRIPTION then
      if e.description.Some? then [InfoDescription(opt, e.description.value)] else []
    else if info == INFO_BLOCK_SIZE then
      match e.blockSize
      case BlockSizes(minimum, preferred, maximum) =>
        if minimum == 0 then [] else [InfoBlockSize(opt, minimum, preferred, maximum)]
      case _ => []
    else []
  }

  function InfoOrGo(n: Neg, opt: nat, payload: Option<seq<byte>>, e: Env): Result {
    if payload.None? then Result(Gone, n, [], false)
    else match ParseGo(payload.value)
      case None => Refused(Heard(n, GoError(OptName(opt), payload.value)), opt, ERR_INVALID)
      case Some(g) =>
        var m := Finish(n, g.name, e);
        if !e.opening.Opened? then
          if m.conn.context && !e.finalizeOk then Result(Gone, m, [], true)
          else Refused(Close(m), opt, ERR_UNKNOWN)
        else
          var infos := Infos(opt, g, g.infos, m.conn.defaults, e);
          var interim := [InfoExport(opt, e.opening.size, e.opening.eflags)] + infos.replies;
          if !infos.complete then Result(Gone, m, interim, true)
          else if opt == OPT_GO then Result(Ready, m, interim + [Ack(opt)], true)
          else if !e.finalizeOk then Result(Gone, m, interim + [Ack(opt)], true)
          else Result(More, Close(m), interim + [Ack(opt)], true)
  }

  // ---------- The other options ----------

  function ServerNames(count: nat): seq<Reply> {
    seq(count, i requires 0 <= i < count => ServerName(OPT_LIST, i))
  }

  function Asked(n: Neg, e: Env): Neg {
    Heard(n, e.said).(calls := n.calls + [ListExports(n.conn.usingTls)],
                      conn := n.conn.(defaults := Fill(n.conn.defaults, e.names)))
  }

  function List(n: Neg, optlen: nat, payload: Option<seq<byte>>, e: Env): Result {
    if optlen != 0 then RefusedEarly(n, OPT_LIST, ERR_INVALID, payload)
    else if n.listSeen then Refused(n, OPT_LIST, ERR_INVALID)
    else
      var m := n.(listSeen := true);
      if e.listing.NoMemory? then Refused(Heard(m, Some(e.listing.message)), OPT_LIST, ERR_TOO_BIG)
      else
        var asked := Asked(m, e);
        if e.listing.ListFailed? then Refused(asked, OPT_LIST, ERR_PLATFORM)
        else
          var count := e.listing.count;
          Result(More, asked.(budget := asked.budget + MAX_NR_OPTIONS * count),
            ServerNames(count) + [Ack(OPT_LIST)], true)
  }

  // What is left of a connection that has just switched to TLS.
  function Wiped(c: Conn): Conn {
    c.(usingTls := true, structured := false, metaName := None, base := false, defaults := seq(|c.defaults|, _ => None))
  }

  function StartTls(cfg: Config, n: Neg, optlen: nat, payload: Option<seq<byte>>, e: Env): Result {
    if optlen != 0 then RefusedEarly(n, OPT_STARTTLS, ERR_INVALID, payload)
    else if cfg.tls == 0 then Refused(n, OPT_STARTTLS, if cfg.gnutls then ERR_POLICY else ERR_UNSUP)
    else if n.conn.usingTls then Refused(n, OPT_STARTTLS, ERR_INVALID)
    else if !e.tlsOk then Result(Gone, n, [Ack(OPT_STARTTLS)], true)
    else Result(More, n.(conn := Wiped(n.conn)), [Ack(OPT_STARTTLS)], true)
  }

  function StructuredReply(cfg: Config, n: Neg, optlen: nat, payload: Option<seq<byte>>): Result {
    if optlen != 0 then RefusedEarly(n, OPT_STRUCTURED_REPLY, ERR_INVALID, payload)
    else if cfg.noStructured then Refused(n, OPT_STRUCTURED_REPLY, ERR_UNSUP)
    else if n.conn.structured then Refused(n, OPT_STRUCTURED_REPLY, ERR_INVALID)
    else Result(More, n.(conn := n.conn.(structured := true)), [Ack(OPT_STRUCTURED_REPLY)], true)
  }

  // The export name of a meta context option.
  function MetaName(data: seq<byte>): Option<Name> {
    if |data| < 8 then None
    else
      var len := FromBe(data[..4]);
      if CheckString(data, 4, len, |data| - 8) then Some(data[4..4 + len]) else None
  }

  function MetaNameError(optName: string, data: seq<byte>): Option<string> {
    if |data| < 8 then None
    else
      var len := FromBe(data[..4]);
      if CheckString(data, 4, len, |data| - 8) then None
      else Some(StringError(optName, "export name", len, |data| - 8))
  }

  function MetaReply(opt: nat, query: seq<byte>): seq<Reply> {
    if opt == OPT_LIST_META_CONTEXT && query == BASE then [MetaContext(opt, 0)]
    else if query == BaseAllocation() then
      [MetaContext(opt, if opt == OPT_SET_META_CONTEXT then BASE_ALLOCATION_ID else 0)]
    else []
  }

  function MetaReplies(opt: nat, queries: seq<seq<byte>>): seq<Reply> {
    if queries == [] then []
    else MetaReplies(opt, queries[..|queries| - 1]) + MetaReply(opt, queries[|queries| - 1])
  }

  function Meta(cfg: Config, n: Neg, opt: nat, payload: Option<seq<byte>>): Result {
    if payload.None? then Result(Gone, n, [], false)
    else if cfg.noMeta then Refused(n, opt, ERR_UNSUP)
    else if opt == OPT_SET_META_CONTEXT && !n.conn.structured then Refused(n, opt, ERR_INVALID)
    else match MetaName(payload.value)
      case None => Refused(Heard(n, MetaNameError(OptName(opt), payload.value)), opt, ERR_INVALID)
      case Some(name) =>
        var nr := FromBe(payload.value[4 + |name|..8 + |name|]);
        var q := ParseQueries(payload.value, 8 + |name|, nr);
        var heard := Heard(n, QueryError(OptName(opt), payload.value, 8 + |name|, nr));
        var m := if opt == OPT_SET_META_CONTEXT
          then heard.(conn := n.conn.(metaName := Some(name), base := BaseAllocation() in q.list)) else heard;
        var interim := if nr == 0 && opt == OPT_LIST_META_CONTEXT then [MetaContext(opt, 0)] else MetaReplies(opt, q.list);
        Result(More, m, interim + [if q.complete then Ack(opt) else ErrorReply(m, opt, ERR_INVALID)], true)
  }

  // The loop over the queries, with the flag that it sets.
  method AnswerQueries(opt: nat, data: seq<byte>, start: nat, nr: nat)
    returns (replies: seq<Reply>, selected: bool, complete: bool, message: Option<string>)
    ensures message == QueryError(OptName(opt), data, start, nr)
    ensures var q := ParseQueries(data, start, nr);
            && replies == MetaReplies(opt, q.list) && complete == q.complete
            && (selected <==> opt == OPT_SET_META_CONTEXT && BaseAllocation() in q.list)
  {
    hide FromBe, CheckString, BaseAllocation, MetaReply, ParseQueries, QueryError, OptName, StringError;
    var i: nat, left: nat := start, nr;
    ghost var seen: seq<seq<byte>> := [];
    replies, selected, message := [], false, None;
    assert seen + ParseQueries(data, i, left).list == ParseQueries(data, i, left).list;
    while left > 0
      invariant ParseQueries(data, start, nr).list == seen + ParseQueries(data, i, left).list
      invariant ParseQueries(data, start, nr).complete == ParseQueries(data, i, left).complete
      invariant QueryError(OptName(opt), data, start, nr) == QueryError(OptName(opt), data, i, left)
      invariant replies == MetaReplies(opt, seen)
      invariant selected <==> opt == OPT_SET_META_CONTEXT && BaseAllocation() in seen
    {
      NextQuery(OptName(opt), data, i, left);
      assert seen + [] == seen;
      if i + 4 > |data| {
        return replies, selected, false, None;
      }
      var len := FromBe(data[i..i + 4]);
      if !CheckString(data, i + 4, len, |data| - (i + 4)) {
        message := Some(StringError(OptName(opt), "meta context query", len, |data| - (i + 4)));
        return replies, selected, false, message;
      }
      var query := data[i + 4..i + 4 + len];
      ghost var rest := ParseQueries(data, i + 4 + len, left - 1).list;
      Regroup(seen, query, rest);
      seen := seen + [query];
      replies := replies + MetaReply(opt, query);
      if opt == OPT_SET_META_CONTEXT && query == BaseAllocation() {
        selected := true;
      }
      i, left := i + 4 + len, left - 1;
    }
    NextQuery(OptName(opt), data, i, left);
    assert seen + [] == seen;
    complete := true;
  }

  lemma NextQuery(optName: string, data: seq<byte>, i: nat, left: nat)
    ensures left == 0 ==> ParseQueries(data, i, left) == Queries([], true) && QueryError(optName, data, i, left).None?
    ensures left > 0 && i + 4 > |data| ==>
              ParseQueries(data, i, left) == Queries([], false) && QueryError(optName, data, i, left).None?
    ensures left > 0 && i + 4 <= |data| ==>
              var len := FromBe(data[i..i + 4]);
              if CheckString(data, i + 4, len, |data| - (i + 4)) then
                && len <= |data| - (i + 4)
                && ParseQueries(data, i, left).list == [data[i + 4..i + 4 + len]] + ParseQueries(data, i + 4 + len, left - 1).list
                && ParseQueries(data, i, left).complete == ParseQueries(data, i + 4 + len, left - 1).complete
                && QueryError(optName, data, i, left) == QueryError(optName, data, i + 4 + len, left - 1)
              else
                && ParseQueries(data, i, left) == Queries([], false)
                && QueryError(optName, data, i, left) == Some(StringError(optName, "meta context query", len, |data| - (i + 4)))
  {
    hide FromBe, StringError;
  }

  // One option, after its header.
  function Handle(cfg: Config, n: Neg, opt: nat, optlen: nat, payload: Option<seq<byte>>, e: Env): Result {
    if !cfg.fixedNewstyle && opt != OPT_EXPORT_NAME then Result(More, n, [ErrorReply(n, opt, ERR_INVALID)], false)
    else if cfg.tls == 2 && !n.conn.usingTls && opt != OPT_ABORT && opt != OPT_STARTTLS then
      if opt == OPT_EXPORT_NAME then Result(Gone, n, [], false)
      else RefusedEarly(n, opt, ERR_TLS_REQD, payload)
    else if opt == OPT_EXPORT_NAME then ExportName(n, payload, e)
    else if opt == OPT_ABORT then Result(Gone, n, [Ack(opt)], false)
    else if opt == OPT_LIST then List(n, optlen, payload, e)
    else if opt == OPT_STARTTLS then StartTls(cfg, n, optlen, payload, e)
    else if opt == OPT_INFO || opt == OPT_GO then InfoOrGo(n, opt, payload, e)
    else if opt == OPT_STRUCTURED_REPLY then StructuredReply(cfg, n, optlen, payload)
    else if opt == OPT_LIST_META_CONTEXT || opt == OPT_SET_META_CONTEXT then Meta(cfg, n, opt, payload)
    else RefusedEarly(n, opt, ERR_UNSUP, payload)
  }

  // ---------- Rounds of the option loop ----------

  predicate GoodHeader(input: seq<byte>) {
    |input| >= OPTION_HEADER && FromBe(input[..8]) == NEW_VERSION && FromBe(input[12..16]) <= MAX_REQUEST_SIZE
  }

  function Opt(input: seq<byte>): nat
    requires GoodHeader(input)
  {
    FromBe(input[8..12])
  }

  function OptLen(input: seq<byte>): nat
    requires GoodHeader(input)
  {
    FromBe(input[12..16])
  }

  function Payload(input: seq<byte>): Option<seq<byte>>
    requires GoodHeader(input)
  {
    var end := OPTION_HEADER + OptLen(input);
    if end <= |input| then Some(input[OPTION_HEADER..end]) else None
  }

  function Round(cfg: Config, n: Neg, input: seq<byte>, e: Env): Result {
    if !GoodHeader(input) then Result(Gone, n, [], false)
    else Handle(cfg, n, Opt(input), OptLen(input), Payload(input), e)
  }

  function Consumed(input: seq<byte>, read: bool): nat
    requires GoodHeader(input)
  {
    OPTION_HEADER + if read then OptLen(input) else 0
  }

  // ---------- What holds at the head of the loop ----------

  // Contexts are opened and closed in turn, and exports are listed while none is open.
  predicate Bracketed(calls: seq<Call>, open: bool) {
    if calls == [] then !open
    else
      var before, last := calls[..|calls| - 1], calls[|calls| - 1];
      match last
      case OpenContext(_, _) => open && Bracketed(before, false)
      case CloseContext(_) => !open && Bracketed(before, true)
      case _ => !open && Bracketed(before, false)
  }

  // With tls=require the backend is not called before TLS.
  predicate OnlyUnderTls(cfg: Config, calls: seq<Call>) {
    cfg.tls == 2 ==> forall i :: 0 <= i < |calls| ==> calls[i].tls
  }

  predicate Sound(cfg: Config, n: Neg) {
    && (n.conn.base ==> n.conn.structured && n.conn.metaName.Some?)
    && Bracketed(n.calls, n.conn.context) && OnlyUnderTls(cfg, n.calls)
  }

  predicate AtHead(cfg: Config, n: Neg) { Sound(cfg, n) && !n.conn.context }

  // An export has been chosen, under the name of the last call.
  predicate Chosen(cfg: Config, n: Neg) {
    && n.calls != []
    && var last := n.calls[|n.calls| - 1];
    && last.OpenContext? && n.conn.context
    && (n.conn.base ==> n.conn.structured && n.conn.metaName == Some(last.name))
    && (cfg.tls == 2 ==> n.conn.usingTls)
  }

  lemma FinishIsSound(cfg: Config, n: Neg, name: Name, e: Env)
    requires AtHead(cfg, n) && (cfg.tls == 2 ==> n.conn.usingTls)
    ensures Sound(cfg, Finish(n, name, e))
    ensures e.opening.Opened? ==> Chosen(cfg, Finish(n, name, e))
  {
    var m := Finish(n, name, e);
    assert m.calls[..|m.calls| - 1] == n.calls;
  }

  lemma CloseIsSound(cfg: Config, n: Neg)
    requires Sound(cfg, n) && (cfg.tls == 2 ==> n.conn.usingTls)
    ensures AtHead(cfg, Close(n))
  {
    var m := Close(n);
    assert n.conn.context ==> m.calls[..|m.calls| - 1] == n.calls;
  }

  lemma AskedIsSound(cfg: Config, n: Neg, e: Env)
    requires AtHead(cfg, n) && (cfg.tls == 2 ==> n.conn.usingTls)
    ensures AtHead(cfg, Asked(n, e))
  {
    hide Fill;
    var calls := n.calls + [ListExports(n.conn.usingTls)];
    assert calls[..|calls| - 1] == n.calls;
  }

  lemma ListIsSound(cfg: Config, n: Neg, optlen: nat, payload: Option<seq<byte>>, e: Env)
    requires AtHead(cfg, n) && (cfg.tls == 2 ==> n.conn.usingTls)
    ensures AtHead(cfg, List(n, optlen, payload, e).neg)
  {
    hide Asked, Bracketed, OnlyUnderTls, Text, ServerNames;
    AskedIsSound(cfg, n.(listSeen := true), e);
  }

  lemma InfoOrGoIsSound(cfg: Config, n: Neg, opt: nat, payload: Option<seq<byte>>, e: Env)
    requires AtHead(cfg, n) && (cfg.tls == 2 ==> n.conn.usingTls) && (opt == OPT_INFO || opt == OPT_GO)
    ensures var r := InfoOrGo(n, opt, payload, e);
            && Sound(cfg, r.neg) && (r.kind.More? ==> AtHead(cfg, r.neg)) && (r.kind.Ready? ==> Chosen(cfg, r.neg))
  {
    hide ParseGo, Infos, Bracketed, OnlyUnderTls, Fill;
    if payload.Some? && ParseGo(payload.value).Some? {
      var name := ParseGo(payload.value).value.name;
      FinishIsSound(cfg, n, name, e);
      CloseIsSound(cfg, Finish(n, name, e));
    }
  }

  lemma MetaIsSound(cfg: Config, n: Neg, opt: nat, payload: Option<seq<byte>>)
    requires AtHead(cfg, n)
    ensures AtHead(cfg, Meta(cfg, n, opt, payload).neg) && !Meta(cfg, n, opt, payload).kind.Ready?
  {
    hide Bracketed, OnlyUnderTls, CheckString, ParseQueries, MetaReplies, FromBe, BaseAllocation, GoError, MetaNameError, QueryError, OptName, Text;
  }

  /** At the head of the option loop no context is open, base:allocation implies structured
      replies, and with tls=require nothing was listed or opened before TLS; an option that
      ends the negotiation leaves a context open, base:allocation only if it was set for
      that export, and with tls=require a connection that uses TLS. */
  lemma OptionIsSound(cfg: Config, n: Neg, opt: nat, optlen: nat, payload: Option<seq<byte>>, e: Env)
    requires AtHead(cfg, n)
    ensures var r := Handle(cfg, n, opt, optlen, payload, e);
            && Sound(cfg, r.neg) && (r.kind.More? ==> AtHead(cfg, r.neg)) && (r.kind.Ready? ==> Chosen(cfg, r.neg))
  {
    hide InfoOrGo, Bracketed, OnlyUnderTls, CheckString, Meta, Finish, List, Text;
    MetaIsSound(cfg, n, opt, payload);
    if !(cfg.tls == 2 && !n.conn.usingTls) {
      if opt == OPT_LIST {
        ListIsSound(cfg, n, optlen, payload, e);
        assert List(n, optlen, payload, e).kind != Ready by { ListGoesOn(n, optlen, payload, e); }
      } else if opt == OPT_INFO || opt == OPT_GO {
        InfoOrGoIsSound(cfg, n, opt, payload, e);
      } else if opt == OPT_EXPORT_NAME && payload.Some? {
        FinishIsSound(cfg, n, payload.value, e);
      }
    }
  }

  lemma ListGoesOn(n: Neg, optlen: nat, payload: Option<seq<byte>>, e: Env)
    ensures !List(n, optlen, payload, e).kind.Ready?
  {
  }

  // ---------- Framing ----------

  predicate Interim(r: Reply) {
    r.ServerName? || r.InfoExport? || r.InfoName? || r.InfoDescription? || r.InfoBlockSize? || r.MetaContext?
  }

  predicate AllInterim(replies: seq<Reply>, opt: nat) {
    forall i :: 0 <= i < |replies| ==> Interim(replies[i]) && replies[i].option == opt
  }

  // All the replies to one option: any number of partial ones, then one ACK or error.
  predicate Answers(replies: seq<Reply>, opt: nat) {
    && replies != []
    && AllInterim(replies[..|replies| - 1], opt)
    && var last := replies[|replies| - 1];
    && (last.Ack? || last.Error?) && last.option == opt
  }

  lemma {:induction false} InfosAreInterim(opt: nat, g: Go, infos: seq<nat>, defaults: seq<Option<Name>>, e: Env)
    ensures AllInterim(Infos(opt, g, infos, defaults, e).replies, opt)
  {
    if infos != [] {
      var last := infos[|infos| - 1];
      InfosAreInterim(opt, g, infos[..|infos| - 1], defaults, e);
      assert AllInterim(InfoReply(opt, g, last, defaults, e), opt);
    }
  }

  lemma {:induction false} MetaRepliesAreInterim(opt: nat, queries: seq<seq<byte>>)
    ensures AllInterim(MetaReplies(opt, queries), opt)
  {
    if queries != [] {
      MetaRepliesAreInterim(opt, queries[..|queries| - 1]);
      assert AllInterim(MetaReply(opt, queries[|queries| - 1]), opt);
    }
  }

  lemma OneFinal(interim: seq<Reply>, last: Reply, opt: nat)
    requires AllInterim(interim, opt) && (last.Ack? || last.Error?) && last.option == opt
    ensures Answers(interim + [last], opt)
  {
    assert (interim + [last])[..|interim|] == interim;
  }

  /** For a fixed newstyle client, an option that does not end the negotiation is consumed
      with its whole payload and gets exactly one final reply, after all the partial ones. */
  lemma OptionIsAnswered(cfg: Config, n: Neg, opt: nat, optlen: nat, payload: Option<seq<byte>>, e: Env)
    requires cfg.fixedNewstyle && Handle(cfg, n, opt, optlen, payload, e).kind.More?
    ensures Handle(cfg, n, opt, optlen, payload, e).read && Answers(Handle(cfg, n, opt, optlen, payload, e).replies, opt)
  {
    hide ParseGo, Infos, Fill, CheckString, MetaName, ParseQueries, MetaReplies, FromBe, Answers, AllInterim,
      GoError, MetaNameError, QueryError, OptName, Text;
    var r := Handle(cfg, n, opt, optlen, payload, e);
    if |r.replies| == 1 {
      assert AllInterim([], opt) by { NoneInterim(opt); }
      OneFinal([], r.replies[0], opt);
      assert [] + [r.replies[0]] == r.replies;
    } else if opt == OPT_LIST {
      ListIsAnswered(n, optlen, payload, e);
    } else if opt == OPT_INFO {
      InfoIsAnswered(n, payload, e);
    } else {
      MetaIsAnswered(cfg, n, opt, payload);
    }
  }

  lemma NoneInterim(opt: nat)
    ensures AllInterim([], opt)
  {
  }

  lemma ListIsAnswered(n: Neg, optlen: nat, payload: Option<seq<byte>>, e: Env)
    requires List(n, optlen, payload, e).kind.More?
    ensures List(n, optlen, payload, e).read && Answers(List(n, optlen, payload, e).replies, OPT_LIST)
  {
    hide Fill, Text;
    var r := List(n, optlen, payload, e);
    OneFinal(r.replies[..|r.replies| - 1], r.replies[|r.replies| - 1], OPT_LIST);
  }

  lemma InfoIsAnswered(n: Neg, payload: Option<seq<byte>>, e: Env)
    requires InfoOrGo(n, OPT_INFO, payload, e).kind.More?
    ensures InfoOrGo(n, OPT_INFO, payload, e).read && Answers(InfoOrGo(n, OPT_INFO, payload, e).replies, OPT_INFO)
  {
    hide ParseGo, Infos, Fill;
    var r := InfoOrGo(n, OPT_INFO, payload, e);
    if ParseGo(payload.value).Some? {
      var g := ParseGo(payload.value).value;
      InfosAreInterim(OPT_INFO, g, g.infos, Finish(n, g.name, e).conn.defaults, e);
    }
    OneFinal(r.replies[..|r.replies| - 1], r.replies[|r.replies| - 1], OPT_INFO);
    assert r.replies == r.replies[..|r.replies| - 1] + [r.replies[|r.replies| - 1]];
  }

  lemma MetaIsAnswered(cfg: Config, n: Neg, opt: nat, payload: Option<seq<byte>>)
    requires Meta(cfg, n, opt, payload).kind.More?
    ensures Meta(cfg, n, opt, payload).read && Answers(Meta(cfg, n, opt, payload).replies, opt)
  {
    hide FromBe, ParseQueries, MetaReplies, CheckString;
    var r := Meta(cfg, n, opt, payload);
    if MetaName(payload.value).Some? {
      var name := MetaName(payload.value).value;
      MetaNameFits(payload.value);
      MetaRepliesAreInterim(opt, ParseQueries(payload.value, 8 + |name|, FromBe(payload.value[4 + |name|..8 + |name|])).list);
    }
    OneFinal(r.replies[..|r.replies| - 1], r.replies[|r.replies| - 1], opt);
    assert r.replies == r.replies[..|r.replies| - 1] + [r.replies[|r.replies| - 1]];
  }

  lemma MetaNameFits(data: seq<byte>)
    requires MetaName(data).Some?
    ensures |MetaName(data).value| + 8 <= |data|
  {
  }

  // ---------- Whole negotiations ----------

  // ok: the handshake is complete.  replies holds those of each round.
  datatype Final = Final(ok: bool, neg: Neg, replies: seq<seq<Reply>>, rest: seq<byte>)

  // The negotiation over the input of the client; the answers of the backend and of the
  // TLS library during the k-th option are script[k], and when they run out the
  // connection is dropped.
  function Run(cfg: Config, n: Neg, input: seq<byte>, script: seq<Env>): Final
    decreases |script|
  {
    if n.budget == 0 || script == [] then Final(false, n, [], input)
    else
      var r := Round(cfg, n, input, script[0]);
      if r.kind.Gone? || !GoodHeader(input) || Consumed(input, r.read) > |input| then Final(false, r.neg, [r.replies], input)
      else
        var rest := input[Consumed(input, r.read)..];
        if r.kind.Ready? then Final(cfg.tls != 2 || r.neg.conn.usingTls, r.neg, [r.replies], rest)
        else
          var f := Run(cfg, NextRound(r.neg), rest, script[1..]);
          f.(replies := [r.replies] + f.replies)
  }

  function NextRound(n: Neg): Neg { n.(budget := if n.budget > 0 then n.budget - 1 else 0) }

  /** Every negotiation, whatever the client sends and the backend answers: contexts are opened
      and closed in turn, nothing is called before TLS if TLS is required, base:allocation
      implies structured replies, and a completed negotiation has chosen an export. */
  lemma {:induction false} NegotiationIsSound(cfg: Config, n: Neg, input: seq<byte>, script: seq<Env>)
    requires AtHead(cfg, n)
    ensures var f := Run(cfg, n, input, script);
            Sound(cfg, f.neg) && (f.ok ==> Chosen(cfg, f.neg))
    decreases |script|
  {
    hide Handle, Sound, Chosen, Consumed, GoodHeader;
    if n.budget > 0 && script != [] && GoodHeader(input) {
      OptionIsSound(cfg, n, Opt(input), OptLen(input), Payload(input), script[0]);
      var r := Round(cfg, n, input, script[0]);
      if r.kind.More? && Consumed(input, r.read) <= |input| {
        assert AtHead(cfg, NextRound(r.neg)) by { BudgetIsApart(cfg, r.neg); }
        NegotiationIsSound(cfg, NextRound(r.neg), input[Consumed(input, r.read)..], script[1..]);
      }
    }
    assert Sound(cfg, n);
  }

  lemma BudgetIsApart(cfg: Config, n: Neg)
    requires AtHead(cfg, n)
    ensures AtHead(cfg, NextRound(n))
  {
  }

  // ---------- The number of rounds ----------

  // The rounds still possible: listing the exports, once, allows 32 more for each.
  function Allowance(n: Neg): nat {
    n.budget + if n.listSeen then 0 else MAX_NR_OPTIONS * MAX_EXPORTS
  }

  lemma AllowanceFalls(cfg: Config, n: Neg, opt: nat, optlen: nat, payload: Option<seq<byte>>, e: Env)
    ensures Allowance(Handle(cfg, n, opt, optlen, payload, e).neg) <= Allowance(n)
    ensures Handle(cfg, n, opt, optlen, payload, e).neg.budget >= n.budget
  {
    hide InfoOrGo, Meta, Fill, CheckString, Text, ServerNames;
    SameBudget(cfg, n, opt, payload, e);
  }

  lemma SameBudget(cfg: Config, n: Neg, opt: nat, payload: Option<seq<byte>>, e: Env)
    ensures var m := InfoOrGo(n, opt, payload, e).neg; m.budget == n.budget && m.listSeen == n.listSeen
    ensures var m := Meta(cfg, n, opt, payload).neg; m.budget == n.budget && m.listSeen == n.listSeen
  {
    hide ParseGo, Infos, Fill, MetaName, ParseQueries, MetaReplies, FromBe, BaseAllocation,
      GoError, MetaNameError, QueryError, OptName, Text;
    if payload.Some? && MetaName(payload.value).Some? {
      MetaNameFits(payload.value);
    }
  }

  /** The loop runs at most 32 + 32 * 10000 times, however long the client goes on. */
  lemma {:induction false} RoundsAreBounded(cfg: Config, n: Neg, input: seq<byte>, script: seq<Env>)
    ensures |Run(cfg, n, input, script).replies| <= Allowance(n)
    decreases |script|
  {
    hide Handle, Consumed, GoodHeader;
    if n.budget > 0 && script != [] && GoodHeader(input) {
      AllowanceFalls(cfg, n, Opt(input), OptLen(input), Payload(input), script[0]);
      var r := Round(cfg, n, input, script[0]);
      if r.kind.More? && Consumed(input, r.read) <= |input| {
        RoundsAreBounded(cfg, NextRound(r.neg), input[Consumed(input, r.read)..], script[1..]);
      }
    }
  }

  // ---------- Framing of the whole input ----------

  // The options on the wire, each with a header and its payload.
  function OptionsOf(input: seq<byte>): seq<nat>
    decreases |input|
  {
    if GoodHeader(input) && Payload(input).Some? then [Opt(input)] + OptionsOf(input[Consumed(input, true)..]) else []
  }

  // All rounds but the last give one complete answer to their option.
  predicate AnsweredInTurn(replies: seq<seq<Reply>>, opts: seq<nat>) {
    |replies| <= |opts| + 1 && forall k :: 0 <= k < |replies| - 1 ==> Answers(replies[k], opts[k])
  }

  lemma AnsweredFirst(first: seq<Reply>, opt: nat, replies: seq<seq<Reply>>, opts: seq<nat>)
    requires Answers(first, opt) && AnsweredInTurn(replies, opts)
    ensures AnsweredInTurn([first] + replies, [opt] + opts)
  {
    hide Answers;
    var all, both := [first] + replies, [opt] + opts;
    forall k | 0 <= k < |all| - 1
      ensures Answers(all[k], both[k])
    {
      if k > 0 {
        assert all[k] == replies[k - 1] && both[k] == opts[k - 1];
      }
    }
    assert AnsweredInTurn(all, both);
  }

  /** For a fixed newstyle client, the k-th round deals with the k-th option on the wire, and
      all rounds but the last give it one complete answer. */
  lemma {:induction false} NegotiationIsFramed(cfg: Config, n: Neg, input: seq<byte>, script: seq<Env>)
    requires cfg.fixedNewstyle
    ensures AnsweredInTurn(Run(cfg, n, input, script).replies, OptionsOf(input))
    decreases |script|
  {
    hide Handle, GoodHeader, Answers, AnsweredInTurn;
    if n.budget > 0 && script != [] {
      var r := Round(cfg, n, input, script[0]);
      if GoodHeader(input) && r.kind.More? && Consumed(input, r.read) <= |input| {
        OptionIsAnswered(cfg, n, Opt(input), OptLen(input), Payload(input), script[0]);
        var rest := input[Consumed(input, true)..];
        NegotiationIsFramed(cfg, NextRound(r.neg), rest, script[1..]);
        AnsweredFirst(r.replies, Opt(input), Run(cfg, NextRound(r.neg), rest, script[1..]).replies, OptionsOf(rest));
      } else {
        OneRound(r.replies, OptionsOf(input));
      }
    } else {
      OneRound([], OptionsOf(input));
    }
  }

  lemma OneRound(replies: seq<Reply>, opts: seq<nat>)
    ensures AnsweredInTurn([], opts) && AnsweredInTurn([replies], opts)
  {
  }

  // ---------- The export that is chosen ----------

  // An option that asks to go on with the export of this name.
  ghost predicate Selects(opt: nat, payload: seq<byte>, name: Name) {
    || (opt == OPT_EXPORT_NAME && payload == name && ValidString(name))
    || (opt == OPT_GO && exists infos :: ValidGo(Go(name, infos)) && payload == EncodeGo(Go(name, infos)))
  }

  // What the client is told about it.
  predicate Announces(opt: nat, e: Env, said: seq<Reply>) {
    && e.opening.Opened?
    && if opt == OPT_EXPORT_NAME then said == [ExportNameReply(e.opening.size, e.opening.eflags)]
       else
         && |said| >= 2 && said[0] == InfoExport(opt, e.opening.size, e.opening.eflags)
         && said[|said| - 1] == Ack(opt)
  }

  /** Whatever the client asks about an export, the backend is asked to open the one of that
      name. */
  lemma OpensAsNamed(n: Neg, opt: nat, g: Go, e: Env)
    requires ValidGo(g)
    ensures var calls := InfoOrGo(n, opt, Some(EncodeGo(g)), e).neg.calls;
            && |n.calls| < |calls| && n.calls == calls[..|n.calls|]
            && calls[|n.calls|] ==
                 if e.opening.NotOpened? then FailedOpen(n.conn.usingTls, g.name) else OpenContext(n.conn.usingTls, g.name)
  {
    hide ParseGo, EncodeGo, ValidGo, Infos, Fill, Text;
    GoRoundTrip(EncodeGo(g), g);
  }

  lemma GoSelects(n: Neg, payload: seq<byte>, e: Env)
    requires InfoOrGo(n, OPT_GO, Some(payload), e).kind.Ready?
    ensures var r := InfoOrGo(n, OPT_GO, Some(payload), e);
            && r.neg.calls != [] && r.neg.calls[|r.neg.calls| - 1].OpenContext?
            && Selects(OPT_GO, payload, r.neg.calls[|r.neg.calls| - 1].name)
            && Announces(OPT_GO, e, r.replies) && r.neg.conn.eflags == e.opening.eflags && r.read
  {
    hide ParseGo, EncodeGo, ValidGo, Infos, Fill, Text, GoError;
    var g := ParseGo(payload).value;
    GoRoundTrip(payload, g);
    assert g == Go(g.name, g.infos);
  }

  lemma ExportNameSelects(n: Neg, payload: seq<byte>, e: Env)
    requires ExportName(n, Some(payload), e).kind.Ready?
    ensures var r := ExportName(n, Some(payload), e);
            && r.neg.calls != [] && r.neg.calls[|r.neg.calls| - 1].OpenContext?
            && Selects(OPT_EXPORT_NAME, payload, r.neg.calls[|r.neg.calls| - 1].name)
            && Announces(OPT_EXPORT_NAME, e, r.replies) && r.neg.conn.eflags == e.opening.eflags && r.read
  {
    hide Fill, CheckString;
    CheckedIsValid(payload, 0, |payload|, |payload|);
    assert payload[0..0 + |payload|] == payload;
  }

  // The option that ends the negotiation.
  lemma OptionSelects(cfg: Config, n: Neg, opt: nat, optlen: nat, payload: Option<seq<byte>>, e: Env)
    requires Handle(cfg, n, opt, optlen, payload, e).kind.Ready?
    ensures var r := Handle(cfg, n, opt, optlen, payload, e);
            && payload.Some? && r.neg.calls != [] && r.neg.calls[|r.neg.calls| - 1].OpenContext?
            && Selects(opt, payload.value, r.neg.calls[|r.neg.calls| - 1].name)
            && Announces(opt, e, r.replies) && r.neg.conn.eflags == e.opening.eflags && r.read
  {
    hide Selects, Announces, ParseGo, Infos, Fill, Text, GoError, CheckString, Meta, Finish;
    if opt == OPT_EXPORT_NAME {
      ExportNameSelects(n, payload.value, e);
    } else {
      OnlyGoIsReady(cfg, n, opt, optlen, payload, e);
      GoSelects(n, payload.value, e);
    }
  }

  lemma OnlyGoIsReady(cfg: Config, n: Neg, opt: nat, optlen: nat, payload: Option<seq<byte>>, e: Env)
    requires Handle(cfg, n, opt, optlen, payload, e).kind.Ready? && opt != OPT_EXPORT_NAME
    ensures opt == OPT_GO && payload.Some? && Handle(cfg, n, opt, optlen, payload, e) == InfoOrGo(n, OPT_GO, payload, e)
  {
    hide ParseGo, Infos, Fill, Text, GoError, CheckString, MetaName, ParseQueries, MetaReplies, FromBe, QueryError,
      MetaNameError, OptName, Finish;
    if payload.Some? && MetaName(payload.value).Some? {
      MetaNameFits(payload.value);
    }
  }

  // An option and its payload at the head of the input.
  lemma OptionStands(input: seq<byte>)
    requires GoodHeader(input) && Payload(input).Some?
    ensures Consumed(input, true) <= |input|
    ensures input == EncodeOption(Opt(input), Payload(input).value) + input[Consumed(input, true)..]
  {
    hide Be, FromBe, Fits;
    VersionFits();
    FieldIs(input[..8], NEW_VERSION, 8);
    FieldIs(input[8..12], Opt(input), 4);
    FieldIs(input[12..16], OptLen(input), 4);
    var end := 16 + OptLen(input);
    assert input == input[..8] + input[8..12] + input[12..16] + input[16..end] + input[end..];
  }

  // The input up to where it was read ends with an option that selects the export of the
  // last call, and the last replies say what the backend said about that one.
  ghost predicate AsNamed(input: seq<byte>, f: Final, script: seq<Env>, before: seq<byte>, opt: nat, payload: seq<byte>) {
    && input == before + EncodeOption(opt, payload) + f.rest
    && 0 < |f.replies| <= |script| && f.neg.calls != []
    && var e, last := script[|f.replies| - 1], f.neg.calls[|f.neg.calls| - 1];
    && last.OpenContext? && Selects(opt, payload, last.name)
    && Announces(opt, e, f.replies[|f.replies| - 1]) && f.neg.conn.eflags == e.opening.eflags
  }

  ghost predicate ExportAsNamed(input: seq<byte>, f: Final, script: seq<Env>) {
    exists before, opt, payload :: AsNamed(input, f, script, before, opt, payload)
  }

  /** A negotiation completes with the export that the last option on the wire names, and the
      client is told the size and the flags of that one. */
  lemma {:induction false} ExportIsAsNamed(cfg: Config, n: Neg, input: seq<byte>, script: seq<Env>)
    requires Run(cfg, n, input, script).ok
    ensures ExportAsNamed(input, Run(cfg, n, input, script), script)
    decreases |script|
  {
    hide Handle, GoodHeader, Consumed, Opt, OptLen, Payload, EncodeOption, Selects, Announces;
    var r := Round(cfg, n, input, script[0]);
    var f := Run(cfg, n, input, script);
    var rest := input[Consumed(input, r.read)..];
    if r.kind.Ready? {
      OptionSelects(cfg, n, Opt(input), OptLen(input), Payload(input), script[0]);
      OptionStands(input);
      assert [] + EncodeOption(Opt(input), Payload(input).value) + f.rest == input;
      assert AsNamed(input, f, script, [], Opt(input), Payload(input).value);
    } else {
      ExportIsAsNamed(cfg, NextRound(r.neg), rest, script[1..]);
      var later := Run(cfg, NextRound(r.neg), rest, script[1..]);
      NamedLater(input, Consumed(input, r.read), r.replies, later, script);
    }
  }

  lemma NamedLater(input: seq<byte>, k: nat, first: seq<Reply>, later: Final, script: seq<Env>)
    requires k <= |input| && script != [] && ExportAsNamed(input[k..], later, script[1..])
    ensures ExportAsNamed(input, later.(replies := [first] + later.replies), script)
  {
    hide EncodeOption, Selects, Announces;
    var before, opt, payload :| AsNamed(input[k..], later, script[1..], before, opt, payload);
    var f := later.(replies := [first] + later.replies);
    assert input == input[..k] + input[k..];
    assert input == (input[..k] + before) + EncodeOption(opt, payload) + f.rest;
    assert f.replies[|f.replies| - 1] == later.replies[|later.replies| - 1];
    assert AsNamed(input, f, script, input[..k] + before, opt, payload);
  }

  // ---------- What TLS forgets ----------

  // Equal but for the export flags and the record of calls.
  predicate Alike(a: Neg, b: Neg) {
    && a.budget == b.budget && a.listSeen == b.listSeen && a.lastError == b.lastError
    && var c, d := a.conn, b.conn;
    && c.usingTls == d.usingTls && c.structured == d.structured && c.metaName == d.metaName && c.base == d.base
    && c.defaults == d.defaults && c.context == d.context
  }

  // Two results that cannot be told apart from outside.
  predicate AlikeResults(r: Result, q: Result) {
    && r.kind == q.kind && r.replies == q.replies && r.read == q.read && Alike(r.neg, q.neg)
    && (r.kind.Ready? ==> r.neg.conn == q.neg.conn)
  }

  lemma AlikeFinish(a: Neg, b: Neg, name: Name, e: Env)
    requires Alike(a, b)
    ensures Alike(Finish(a, name, e), Finish(b, name, e))
    ensures e.opening.Opened? ==> Finish(a, name, e).conn == Finish(b, name, e).conn
    ensures Alike(Close(Finish(a, name, e)), Close(Finish(b, name, e)))
  {
    hide Fill;
  }

  lemma AlikeInfoOrGo(a: Neg, b: Neg, opt: nat, payload: Option<seq<byte>>, e: Env)
    requires Alike(a, b)
    ensures AlikeResults(InfoOrGo(a, opt, payload, e), InfoOrGo(b, opt, payload, e))
  {
    hide ParseGo, Infos, Finish, Close;
    if payload.Some? && ParseGo(payload.value).Some? {
      AlikeFinish(a, b, ParseGo(payload.value).value.name, e);
    }
  }

  lemma AlikeMeta(cfg: Config, a: Neg, b: Neg, opt: nat, payload: Option<seq<byte>>)
    requires Alike(a, b)
    ensures AlikeResults(Meta(cfg, a, opt, payload), Meta(cfg, b, opt, payload))
  {
    hide FromBe, ParseQueries, MetaReplies, MetaName, BaseAllocation, GoError, MetaNameError, QueryError, OptName, Text;
    if payload.Some? && MetaName(payload.value).Some? {
      MetaNameFits(payload.value);
    }
  }

  lemma AlikeExportName(a: Neg, b: Neg, payload: Option<seq<byte>>, e: Env)
    requires Alike(a, b)
    ensures AlikeResults(ExportName(a, payload, e), ExportName(b, payload, e))
  {
    hide CheckString, Finish;
    if payload.Some? {
      AlikeFinish(a, b, payload.value, e);
    }
  }

  lemma AlikeAsked(a: Neg, b: Neg, e: Env)
    requires Alike(a, b)
    ensures Alike(Asked(a, e), Asked(b, e))
  {
    hide Fill;
  }

  lemma AlikeRefused(a: Neg, b: Neg, opt: nat, code: nat, payload: Option<seq<byte>>)
    requires Alike(a, b)
    ensures AlikeResults(Refused(a, opt, code), Refused(b, opt, code))
    ensures AlikeResults(RefusedEarly(a, opt, code, payload), RefusedEarly(b, opt, code, payload))
  {
    hide Text;
  }

  lemma AlikeList(a: Neg, b: Neg, optlen: nat, payload: Option<seq<byte>>, e: Env)
    requires Alike(a, b)
    ensures AlikeResults(List(a, optlen, payload, e), List(b, optlen, payload, e))
  {
    hide Refused, RefusedEarly, Asked, Text, ServerNames;
    var c, d := a.(listSeen := true), b.(listSeen := true);
    AlikeAsked(c, d, e);
    AlikeRefused(a, b, OPT_LIST, ERR_INVALID, payload);
    AlikeRefused(Asked(c, e), Asked(d, e), OPT_LIST, ERR_PLATFORM, payload);
    if e.listing.NoMemory? {
      AlikeRefused(Heard(c, Some(e.listing.message)), Heard(d, Some(e.listing.message)), OPT_LIST, ERR_TOO_BIG, payload);
    }
  }

  lemma AlikeSwitch(cfg: Config, a: Neg, b: Neg, optlen: nat, payload: Option<seq<byte>>, e: Env)
    requires Alike(a, b)
    ensures AlikeResults(StartTls(cfg, a, optlen, payload, e), StartTls(cfg, b, optlen, payload, e))
    ensures AlikeResults(StructuredReply(cfg, a, optlen, payload), StructuredReply(cfg, b, optlen, payload))
  {
    hide Text;
  }

  lemma AlikeRefusals(a: Neg, b: Neg, opt: nat, payload: Option<seq<byte>>)
    requires Alike(a, b)
    ensures AlikeResults(RefusedEarly(a, opt, ERR_TLS_REQD, payload), RefusedEarly(b, opt, ERR_TLS_REQD, payload))
    ensures AlikeResults(RefusedEarly(a, opt, ERR_UNSUP, payload), RefusedEarly(b, opt, ERR_UNSUP, payload))
    ensures AlikeResults(Result(More, a, [ErrorReply(a, opt, ERR_INVALID)], false),
                         Result(More, b, [ErrorReply(b, opt, ERR_INVALID)], false))
    ensures AlikeResults(Result(Gone, a, [], false), Result(Gone, b, [], false))
    ensures AlikeResults(Result(Gone, a, [Ack(opt)], false), Result(Gone, b, [Ack(opt)], false))
  {
  }

  lemma AlikeOption(cfg: Config, a: Neg, b: Neg, opt: nat, optlen: nat, payload: Option<seq<byte>>, e: Env)
    requires Alike(a, b)
    ensures AlikeResults(Handle(cfg, a, opt, optlen, payload, e), Handle(cfg, b, opt, optlen, payload, e))
  {
    assert a.conn.usingTls == b.conn.usingTls;
    hide Alike, AlikeResults, InfoOrGo, Meta, List, StartTls, StructuredReply, ExportName;
    AlikeRefusals(a, b, opt, payload);
    AlikeExportName(a, b, payload, e);
    AlikeList(a, b, optlen, payload, e);
    AlikeSwitch(cfg, a, b, optlen, payload, e);
    AlikeInfoOrGo(a, b, opt, payload, e);
    AlikeMeta(cfg, a, b, opt, payload);
  }

  // ---------- The text of error replies ----------

  function Clean(n: Neg): Neg { n.(lastError := None) }

  // The replies with another text in the errors.
  function Voiced(replies: seq<Reply>, text: string): (rs: seq<Reply>)
    ensures |rs| == |replies|
  {
    seq(|replies|, i requires 0 <= i < |replies| => if replies[i].Error? then replies[i].(text := text) else replies[i])
  }

  predicate AnyError(replies: seq<Reply>) { exists i :: 0 <= i < |replies| && replies[i].Error? }

  // r is what q would be after the error last: unless the option logs one itself, its
  // error replies have the text of that one.
  predicate VoicedBy(r: Result, q: Result, last: Option<string>) {
    && r.kind == q.kind && r.read == q.read && r.neg == Heard(q.neg.(lastError := last), q.neg.lastError)
    && r.replies == if q.neg.lastError.Some? then q.replies else Voiced(q.replies, Text(last))
  }

  lemma VoicedInterim(replies: seq<Reply>, opt: nat, text: string)
    requires AllInterim(replies, opt)
    ensures Voiced(replies, text) == replies
  {
  }

  lemma VoicedLast(interim: seq<Reply>, last: Reply, opt: nat, text: string)
    requires AllInterim(interim, opt)
    ensures Voiced(interim + [last], text) == interim + [if last.Error? then last.(text := text) else last]
  {
  }

  lemma VoiceInfoOrGo(n: Neg, opt: nat, payload: Option<seq<byte>>, e: Env)
    ensures VoicedBy(InfoOrGo(n, opt, payload, e), InfoOrGo(Clean(n), opt, payload, e), n.lastError)
  {
    hide ParseGo, Infos, Fill, GoError, OptName, Text, AllInterim, Interim, Voiced;
    var text := Text(n.lastError);
    Unvoiced(opt, text);
    if payload.Some? && ParseGo(payload.value).Some? && e.opening.Opened? {
      var g := ParseGo(payload.value).value;
      var defaults := Finish(n, g.name, e).conn.defaults;
      var infos := Infos(opt, g, g.infos, defaults, e).replies;
      var first := InfoExport(opt, e.opening.size, e.opening.eflags);
      InfosAreInterim(opt, g, g.infos, defaults, e);
      MoreInterim(opt, first, infos);
      VoicedLast([first] + infos, Ack(opt), opt, text);
      VoicedInterim([first] + infos, opt, text);
    }
  }

  lemma VoiceMeta(cfg: Config, n: Neg, opt: nat, payload: Option<seq<byte>>)
    ensures VoicedBy(Meta(cfg, n, opt, payload), Meta(cfg, Clean(n), opt, payload), n.lastError)
  {
    hide FromBe, ParseQueries, MetaReplies, MetaName, BaseAllocation, GoError, MetaNameError, QueryError, OptName, Text,
      AllInterim, Voiced;
    var text := Text(n.lastError);
    Unvoiced(opt, text);
    if payload.Some? && MetaName(payload.value).Some? {
      var name := MetaName(payload.value).value;
      MetaNameFits(payload.value);
      var nr := FromBe(payload.value[4 + |name|..8 + |name|]);
      var list := ParseQueries(payload.value, 8 + |name|, nr).list;
      MetaRepliesAreInterim(opt, list);
      OneInterim(opt);
      var interim := if nr == 0 && opt == OPT_LIST_META_CONTEXT then [MetaContext(opt, 0)] else MetaReplies(opt, list);
      VoicedLast(interim, Ack(opt), opt, text);
      VoicedLast(interim, ErrorReply(Clean(n), opt, ERR_INVALID), opt, text);
    }
  }

  lemma OneInterim(opt: nat)
    ensures AllInterim([MetaContext(opt, 0)], opt)
  {
  }

  lemma VoiceList(n: Neg, optlen: nat, payload: Option<seq<byte>>, e: Env)
    ensures VoicedBy(List(n, optlen, payload, e), List(Clean(n), optlen, payload, e), n.lastError)
  {
    hide Fill, Text, Voiced, AllInterim, ServerNames;
    var text := Text(n.lastError);
    Unvoiced(OPT_LIST, text);
    if e.listing.Listed? {
      var count := e.listing.count;
      NamesAreInterim(count);
      VoicedLast(ServerNames(count), Ack(OPT_LIST), OPT_LIST, text);
    }
  }

  lemma NamesAreInterim(count: nat)
    ensures AllInterim(ServerNames(count), OPT_LIST)
  {
  }

  lemma VoiceStartTls(cfg: Config, n: Neg, optlen: nat, payload: Option<seq<byte>>, e: Env)
    ensures VoicedBy(StartTls(cfg, n, optlen, payload, e), StartTls(cfg, Clean(n), optlen, payload, e), n.lastError)
  {
    hide Text, Voiced;
    Unvoiced(OPT_STARTTLS, Text(n.lastError));
  }

  lemma VoiceStructured(cfg: Config, n: Neg, optlen: nat, payload: Option<seq<byte>>)
    ensures VoicedBy(StructuredReply(cfg, n, optlen, payload), StructuredReply(cfg, Clean(n), optlen, payload), n.lastError)
  {
    hide Text, Voiced;
    Unvoiced(OPT_STRUCTURED_REPLY, Text(n.lastError));
  }

  lemma VoiceExportName(n: Neg, payload: Option<seq<byte>>, e: Env)
    ensures VoicedBy(ExportName(n, payload, e), ExportName(Clean(n), payload, e), n.lastError)
  {
    hide Fill, Text, CheckString;
  }

  lemma VoiceRefusals(n: Neg, opt: nat, payload: Option<seq<byte>>)
    ensures VoicedBy(RefusedEarly(n, opt, ERR_TLS_REQD, payload), RefusedEarly(Clean(n), opt, ERR_TLS_REQD, payload), n.lastError)
    ensures VoicedBy(RefusedEarly(n, opt, ERR_UNSUP, payload), RefusedEarly(Clean(n), opt, ERR_UNSUP, payload), n.lastError)
    ensures VoicedBy(Result(More, n, [ErrorReply(n, opt, ERR_INVALID)], false),
                     Result(More, Clean(n), [ErrorReply(Clean(n), opt, ERR_INVALID)], false), n.lastError)
    ensures VoicedBy(Result(Gone, n, [], false), Result(Gone, Clean(n), [], false), n.lastError)
    ensures VoicedBy(Result(Gone, n, [Ack(opt)], false), Result(Gone, Clean(n), [Ack(opt)], false), n.lastError)
  {
    hide Text, Voiced;
    Unvoiced(opt, Text(n.lastError));
  }

  // What came before an option shows only in its last error, and only if it logs none.
  lemma OptionIsVoiced(cfg: Config, n: Neg, opt: nat, optlen: nat, payload: Option<seq<byte>>, e: Env)
    ensures VoicedBy(Handle(cfg, n, opt, optlen, payload, e), Handle(cfg, Clean(n), opt, optlen, payload, e), n.lastError)
  {
    hide VoicedBy, InfoOrGo, Meta, List, StartTls, StructuredReply, ExportName, RefusedEarly, ErrorReply;
    VoiceRefusals(n, opt, payload);
    VoiceInfoOrGo(n, opt, payload, e);
    VoiceMeta(cfg, n, opt, payload);
    VoiceList(n, optlen, payload, e);
    VoiceStartTls(cfg, n, optlen, payload, e);
    VoiceStructured(cfg, n, optlen, payload);
    VoiceExportName(n, payload, e);
  }

  lemma MoreInterim(opt: nat, first: Reply, rest: seq<Reply>)
    requires Interim(first) && first.option == opt && AllInterim(rest, opt)
    ensures AllInterim([first] + rest, opt)
  {
  }

  lemma Unvoiced(opt: nat, text: string)
    ensures Voiced([], text) == [] && Voiced([Ack(opt)], text) == [Ack(opt)]
    ensures forall code: nat, old_: string :: Voiced([Error(opt, code, old_)], text) == [Error(opt, code, text)]
  {
  }

  // ---------- Two runs ----------

  // Equal but for the export flags, the record of calls and the last error.
  predicate Akin(a: Neg, b: Neg) { Alike(Clean(a), Clean(b)) }

  // An error reply is sent before the connection has logged an error: its text is older.
  predicate Echoes(cfg: Config, n: Neg, input: seq<byte>, script: seq<Env>)
    decreases |script|
  {
    if n.budget == 0 || script == [] then false
    else
      var r := Round(cfg, Clean(n), input, script[0]);
      && r.neg.lastError.None?
      && (AnyError(r.replies)
          || (r.kind.More? && GoodHeader(input) && Consumed(input, r.read) <= |input|
              && Echoes(cfg, NextRound(r.neg), input[Consumed(input, r.read)..], script[1..])))
  }

  // All replies, without the text of errors.
  function Coded(replies: seq<seq<Reply>>): (rs: seq<seq<Reply>>)
    ensures |rs| == |replies|
  {
    seq(|replies|, i requires 0 <= i < |replies| => Voiced(replies[i], ""))
  }

  lemma RoundIsVoiced(cfg: Config, n: Neg, input: seq<byte>, e: Env)
    ensures VoicedBy(Round(cfg, n, input, e), Round(cfg, Clean(n), input, e), n.lastError)
  {
    hide Handle, GoodHeader;
    if GoodHeader(input) {
      OptionIsVoiced(cfg, n, Opt(input), OptLen(input), Payload(input), e);
    }
  }

  lemma AlikeRounds(cfg: Config, a: Neg, b: Neg, input: seq<byte>, e: Env)
    requires Alike(a, b)
    ensures AlikeResults(Round(cfg, a, input, e), Round(cfg, b, input, e))
  {
    hide Handle, GoodHeader;
    if GoodHeader(input) {
      AlikeOption(cfg, a, b, Opt(input), OptLen(input), Payload(input), e);
    }
  }

  lemma VoicedDiffer(replies: seq<Reply>, t: string, u: string)
    ensures Voiced(Voiced(replies, t), u) == Voiced(replies, u)
    ensures Voiced(replies, t) == Voiced(replies, u) <==> t == u || !AnyError(replies)
  {
    if AnyError(replies) {
      var i :| 0 <= i < |replies| && replies[i].Error?;
      assert Voiced(replies, t)[i].text == t && Voiced(replies, u)[i].text == u;
    }
  }

  // One round of two connections with different pasts.
  lemma AkinRounds(cfg: Config, a: Neg, b: Neg, input: seq<byte>, e: Env)
    requires Akin(a, b)
    ensures var r, q, c := Round(cfg, a, input, e), Round(cfg, b, input, e), Round(cfg, Clean(a), input, e);
            && r.kind == q.kind == c.kind && r.read == q.read == c.read
            && Akin(r.neg, q.neg) && (r.kind.Ready? ==> r.neg.conn == q.neg.conn)
            && Voiced(r.replies, "") == Voiced(q.replies, "")
            && (if c.neg.lastError.Some? then
                  r.replies == q.replies && r.neg.lastError == q.neg.lastError
                else
                  && (r.replies == q.replies <==> Text(a.lastError) == Text(b.lastError) || !AnyError(c.replies))
                  && r.neg == c.neg.(lastError := a.lastError) && q.neg.lastError == b.lastError)
  {
    hide Round, Voiced, AnyError, Text;
    RoundIsVoiced(cfg, a, input, e);
    RoundIsVoiced(cfg, b, input, e);
    AlikeRounds(cfg, Clean(a), Clean(b), input, e);
    var c := Round(cfg, Clean(a), input, e);
    VoicedDiffer(c.replies, Text(a.lastError), "");
    VoicedDiffer(c.replies, Text(b.lastError), "");
    VoicedDiffer(c.replies, Text(a.lastError), Text(b.lastError));
  }

  // Two runs that go the same way.
  predicate SameOutcome(f: Final, g: Final) {
    && f.ok == g.ok && f.rest == g.rest && (f.ok ==> f.neg.conn == g.neg.conn)
    && Coded(f.replies) == Coded(g.replies)
  }

  lemma CodedFirst(r: seq<Reply>, rs: seq<seq<Reply>>)
    ensures Coded([r] + rs) == [Voiced(r, "")] + Coded(rs)
  {
  }

  lemma Cons<T>(x: T, xs: seq<T>, y: T, ys: seq<T>)
    ensures [x] + xs == [y] + ys <==> x == y && xs == ys
  {
    assert ([x] + xs)[0] == x && ([x] + xs)[1..] == xs;
    assert ([y] + ys)[0] == y && ([y] + ys)[1..] == ys;
  }

  // One more round in front of two runs.
  lemma SameLater(r: seq<Reply>, q: seq<Reply>, f: Final, g: Final)
    requires Voiced(r, "") == Voiced(q, "") && SameOutcome(f, g)
    ensures SameOutcome(f.(replies := [r] + f.replies), g.(replies := [q] + g.replies))
    ensures [r] + f.replies == [q] + g.replies <==> r == q && f.replies == g.replies
  {
    hide Voiced, Coded;
    CodedFirst(r, f.replies);
    CodedFirst(q, g.replies);
    Cons(r, f.replies, q, g.replies);
  }

  lemma SameLast(r: seq<Reply>, q: seq<Reply>)
    requires Voiced(r, "") == Voiced(q, "")
    ensures Coded([r]) == Coded([q]) && ([r] == [q] <==> r == q)
  {
    assert [r][0] == r && [q][0] == q;
  }

  lemma {:induction false} AkinRuns(cfg: Config, a: Neg, b: Neg, input: seq<byte>, script: seq<Env>)
    requires Akin(a, b)
    ensures var f, g := Run(cfg, a, input, script), Run(cfg, b, input, script);
            && SameOutcome(f, g)
            && (f.replies == g.replies <==> Text(a.lastError) == Text(b.lastError) || !Echoes(cfg, a, input, script))
    decreases |script|
  {
    hide Round, GoodHeader, Consumed, Voiced, Text, AnyError, Coded;
    if a.budget > 0 && script != [] {
      var r, q := Round(cfg, a, input, script[0]), Round(cfg, b, input, script[0]);
      if r.kind.More? && GoodHeader(input) && Consumed(input, r.read) <= |input| {
        AkinRounds(cfg, a, b, input, script[0]);
        var rest := input[Consumed(input, r.read)..];
        AkinRuns(cfg, NextRound(r.neg), NextRound(q.neg), rest, script[1..]);
        SameLater(r.replies, q.replies, Run(cfg, NextRound(r.neg), rest, script[1..]), Run(cfg, NextRound(q.neg), rest, script[1..]));
        EchoesOfClean(cfg, NextRound(r.neg), rest, script[1..]);
      } else {
        AkinLastRounds(cfg, a, b, input, script);
      }
    }
  }

  lemma AkinLastRounds(cfg: Config, a: Neg, b: Neg, input: seq<byte>, script: seq<Env>)
    requires Akin(a, b) && a.budget > 0 && script != []
    requires var r := Round(cfg, a, input, script[0]);
             !(r.kind.More? && GoodHeader(input) && Consumed(input, r.read) <= |input|)
    ensures var f, g := Run(cfg, a, input, script), Run(cfg, b, input, script);
            && SameOutcome(f, g)
            && (f.replies == g.replies <==> Text(a.lastError) == Text(b.lastError) || !Echoes(cfg, a, input, script))
  {
    hide Round, GoodHeader, Consumed, Voiced, Text, AnyError, Coded;
    AkinRounds(cfg, a, b, input, script[0]);
    SameLast(Round(cfg, a, input, script[0]).replies, Round(cfg, b, input, script[0]).replies);
  }

  lemma EchoesOfClean(cfg: Config, n: Neg, input: seq<byte>, script: seq<Env>)
    ensures Echoes(cfg, n, input, script) == Echoes(cfg, Clean(n), input, script)
  {
  }

  /** Two connections that have gone through any different options, and then switch to TLS:
      apart from the remaining budget and whether exports were listed, nothing of what came
      before shows in the outcome, in the codes, or in the replies other than errors.  It
      shows in the text of errors exactly if the last errors differ and an error is sent
      before the connection logs another. */
  lemma TlsForgetsThePast(cfg: Config, a: Neg, b: Neg, input: seq<byte>, script: seq<Env>)
    requires !a.conn.usingTls && !b.conn.usingTls && a.conn.context == b.conn.context
    requires a.budget == b.budget > 0 && a.listSeen == b.listSeen && |a.conn.defaults| == |b.conn.defaults|
    requires cfg.fixedNewstyle && cfg.tls != 0 && script != [] && script[0].tlsOk
    requires GoodHeader(input) && Opt(input) == OPT_STARTTLS && OptLen(input) == 0
    ensures var f, g := Run(cfg, a, input, script), Run(cfg, b, input, script);
            && SameOutcome(f, g)
            && (f.replies == g.replies <==> Text(a.lastError) == Text(b.lastError) || !Echoes(cfg, a, input, script))
  {
    SwitchRound(cfg, a, input, script[0]);
    SwitchRound(cfg, Clean(a), input, script[0]);
    SwitchRound(cfg, b, input, script[0]);
    hide Round, GoodHeader, OptLen, Opt, Text, Coded, Voiced, AnyError, Echoes;
    var n, m := NextRound(Switched(a)), NextRound(Switched(b));
    var rest := input[OPTION_HEADER..];
    AkinRuns(cfg, n, m, rest, script[1..]);
    SameLater([Ack(OPT_STARTTLS)], [Ack(OPT_STARTTLS)], Run(cfg, n, rest, script[1..]), Run(cfg, m, rest, script[1..]));
    EchoesAfterTls(cfg, a, input, script);
  }

  function Switched(n: Neg): Neg { n.(conn := Wiped(n.conn)) }

  lemma SwitchRound(cfg: Config, n: Neg, input: seq<byte>, e: Env)
    requires !n.conn.usingTls && cfg.fixedNewstyle && cfg.tls != 0 && e.tlsOk
    requires GoodHeader(input) && Opt(input) == OPT_STARTTLS && OptLen(input) == 0
    ensures Round(cfg, n, input, e) == Result(More, Switched(n), [Ack(OPT_STARTTLS)], true)
    ensures Consumed(input, true) == OPTION_HEADER <= |input|
  {
    hide FromBe;
  }

  lemma EchoesAfterTls(cfg: Config, n: Neg, input: seq<byte>, script: seq<Env>)
    requires !n.conn.usingTls && cfg.fixedNewstyle && cfg.tls != 0 && n.budget > 0 && script != [] && script[0].tlsOk
    requires GoodHeader(input) && Opt(input) == OPT_STARTTLS && OptLen(input) == 0
    ensures Echoes(cfg, n, input, script) == Echoes(cfg, NextRound(Switched(n)), input[OPTION_HEADER..], script[1..])
  {
    SwitchRound(cfg, Clean(n), input, script[0]);
    hide Round, GoodHeader, OptLen, Opt, Consumed;
    EchoesOfClean(cfg, NextRound(Switched(n)), input[OPTION_HEADER..], script[1..]);
  }

  // ---------- An old error under TLS ----------

  function EncodeOption(opt: nat, data: seq<byte>): seq<byte> {
    Be(NEW_VERSION, 8) + Be(opt, 4) + Be(|data|, 4) + data
  }

  lemma VersionFits()
    ensures Fits(NEW_VERSION, 8)
  {
    FitsInFour(NEW_VERSION / 256 / 256 / 256 / 256);
    var a := NEW_VERSION / 256;
    var b := a / 256;
    var c := b / 256;
    assert Fits(c / 256, 4);
    assert Fits(c, 5);
    assert Fits(b, 6);
    assert Fits(a, 7);
  }

  /** An option with its header is taken off the wire as it was put there. */
  lemma OptionRoundTrip(opt: nat, data: seq<byte>, rest: seq<byte>)
    requires opt <= UINT32_MAX && |data| <= MAX_REQUEST_SIZE
    ensures var input := EncodeOption(opt, data) + rest;
            && GoodHeader(input) && Opt(input) == opt && OptLen(input) == |data| && Payload(input) == Some(data)
            && Consumed(input, true) <= |input| && input[Consumed(input, true)..] == rest
  {
    hide Be, FromBe, Fits;
    var input := EncodeOption(opt, data) + rest;
    VersionFits();
    FitsInFour(opt);
    FitsInFour(|data|);
    FieldIs(input[..8], NEW_VERSION, 8);
    FieldIs(input[8..12], opt, 4);
    FieldIs(input[12..16], |data|, 4);
    assert input[16..16 + |data|] == data;
    assert input[16 + |data|..] == rest;
  }

  // A GO for an export whose name is a NUL byte, then STARTTLS, then a LIST with a payload.
  function NulName(): seq<byte> { Be(1, 4) + [0] + Be(0, 2) }
  function UnderTls(): seq<byte> { EncodeOption(OPT_STARTTLS, []) + EncodeOption(OPT_LIST, [0]) }
  function BeforeTls(): seq<byte> { EncodeOption(OPT_GO, NulName()) + UnderTls() }

  function NulError(): string { "NBD_OPT_GO" + ": " + "export name" + " may not include NUL bytes" }

  lemma ZeroFits()
    ensures Fits(0, 2)
  {
    assert Fits(0, 0) && Fits(0, 1);
  }

  lemma NulNameIsBad()
    ensures ParseGo(NulName()).None? && GoError(OptName(OPT_GO), NulName()) == Some(NulError())
  {
    hide Be, FromBe, Fits, DecodeInfos, StringError;
    var data := NulName();
    FitsInFour(1);
    FieldIs(data[..4], 1, 4);
    ZeroFits();
    FieldIs(data[5..7], 0, 2);
    assert data[4] == 0;
    NulMessage();
  }

  lemma NulMessage()
    ensures StringError(OptName(OPT_GO), "export name", 1, 1) == NulError()
  {
  }

  lemma RunGoesOn(cfg: Config, n: Neg, input: seq<byte>, script: seq<Env>, r: Result)
    requires n.budget > 0 && script != [] && GoodHeader(input) && r == Round(cfg, n, input, script[0])
    requires r.kind.More? && r.read && Consumed(input, true) <= |input|
    ensures var after := Run(cfg, NextRound(r.neg), input[Consumed(input, true)..], script[1..]).replies;
            Run(cfg, n, input, script).replies == [r.replies] + after
  {
    hide Round, GoodHeader, Consumed;
  }

  lemma RunStarts(cfg: Config, n: Neg, input: seq<byte>, script: seq<Env>)
    requires n.budget > 0 && script != []
    ensures var replies := Run(cfg, n, input, script).replies;
            replies != [] && replies[0] == Round(cfg, n, input, script[0]).replies
  {
    hide Round, GoodHeader, Consumed;
  }

  // What the LIST gets: the text of whatever error was the last.
  lemma ListUnderTls(cfg: Config, n: Neg, script: seq<Env>)
    requires cfg.fixedNewstyle && cfg.tls != 0 && !n.conn.usingTls && n.budget >= 2
    requires |script| >= 2 && script[0].tlsOk
    ensures var replies := Run(cfg, n, UnderTls(), script).replies;
            |replies| >= 2 && replies[1] == [Error(OPT_LIST, ERR_INVALID, Text(n.lastError))]
  {
    hide EncodeOption, GoodHeader, Opt, OptLen, Payload, Consumed, Text, Handle, Run;
    var rest := EncodeOption(OPT_LIST, [0]);
    OptionRoundTrip(OPT_STARTTLS, [], rest);
    OptionRoundTrip(OPT_LIST, [0], []);
    assert rest + [] == rest;
    SwitchRound(cfg, n, UnderTls(), script[0]);
    RunGoesOn(cfg, n, UnderTls(), script, Result(More, Switched(n), [Ack(OPT_STARTTLS)], true));
    var m := NextRound(Switched(n));
    RunStarts(cfg, m, rest, script[1..]);
    ListWithPayload(cfg, m, script[1]);
  }

  lemma ListWithPayload(cfg: Config, n: Neg, e: Env)
    requires cfg.fixedNewstyle && n.conn.usingTls
    ensures Handle(cfg, n, OPT_LIST, 1, Some([0]), e) == RefusedEarly(n, OPT_LIST, ERR_INVALID, Some([0]))
  {
  }

  /** With tls=on, a message about what was sent in the clear goes out again under TLS; the
      same options without the first one get the text of an earlier error or none. */
  lemma OldErrorShows(cfg: Config, n: Neg, script: seq<Env>)
    requires cfg.fixedNewstyle && cfg.tls == 1 && !n.conn.usingTls && n.budget >= 3
    requires |script| >= 3 && script[1].tlsOk
    ensures var f := Run(cfg, n, BeforeTls(), script).replies;
            |f| >= 3 && f[2] == [Error(OPT_LIST, ERR_INVALID, NulError())]
    ensures var g := Run(cfg, NextRound(n), UnderTls(), script[1..]).replies;
            |g| >= 2 && g[1] == [Error(OPT_LIST, ERR_INVALID, Text(n.lastError))]
  {
    hide EncodeOption, GoodHeader, Consumed, Round, BeforeTls, UnderTls, Text, NulError, Run;
    NulNameRound(cfg, n, script[0]);
    var refused := n.(lastError := Some(NulError()));
    RunGoesOn(cfg, n, BeforeTls(), script, Refused(refused, OPT_GO, ERR_INVALID));
    ListUnderTls(cfg, NextRound(refused), script[1..]);
    ListUnderTls(cfg, NextRound(n), script[1..]);
    ShortText();
  }

  // The first of those options alone.
  lemma NulNameRound(cfg: Config, n: Neg, e: Env)
    requires cfg.fixedNewstyle && cfg.tls == 1
    ensures var input := BeforeTls();
            && GoodHeader(input) && Consumed(input, true) <= |input| && input[Consumed(input, true)..] == UnderTls()
            && Round(cfg, n, input, e) == Refused(n.(lastError := Some(NulError())), OPT_GO, ERR_INVALID)
  {
    assert |NulName()| == 7;
    hide EncodeOption, GoodHeader, Opt, OptLen, Payload, Consumed, Handle, UnderTls, NulName, NulError;
    OptionRoundTrip(OPT_GO, NulName(), UnderTls());
    NulNameGoes(cfg, n, e);
  }

  lemma ShortText()
    ensures Text(Some(NulError())) == NulError()
  {
  }

  lemma NulNameGoes(cfg: Config, n: Neg, e: Env)
    requires cfg.fixedNewstyle && cfg.tls == 1
    ensures Handle(cfg, n, OPT_GO, |NulName()|, Some(NulName()), e) == Refused(n.(lastError := Some(NulError())), OPT_GO, ERR_INVALID)
  {
    hide ParseGo, GoError, Infos, Finish, Text;
    NulNameIsBad();
  }

  // ---------- TLS required ----------

  // An option as it arrives, with the answers of the backend.
  datatype Arrival = Arrival(opt: nat, optlen: nat, payload: Option<seq<byte>>, e: Env)

  // The state after some options.
  function Past(cfg: Config, n: Neg, arrivals: seq<Arrival>): Neg
    decreases arrivals
  {
    if arrivals == [] then n
    else
      var x := arrivals[0];
      Past(cfg, NextRound(Handle(cfg, n, x.opt, x.optlen, x.payload, x.e).neg), arrivals[1..])
  }

  // None of them ends the negotiation or switches to TLS.
  predicate StillClear(cfg: Config, n: Neg, arrivals: seq<Arrival>)
    decreases arrivals
  {
    arrivals == []
    || (var x := arrivals[0];
        var r := Handle(cfg, n, x.opt, x.optlen, x.payload, x.e);
        r.kind.More? && !r.neg.conn.usingTls && StillClear(cfg, NextRound(r.neg), arrivals[1..]))
  }

  /** With tls=require the options before STARTTLS leave no trace but the budget, not even an
      error message. */
  lemma {:induction false} RequiredTlsForgetsAll(cfg: Config, n: Neg, arrivals: seq<Arrival>)
    requires cfg.tls == 2 && !n.conn.usingTls && |arrivals| <= n.budget && StillClear(cfg, n, arrivals)
    ensures Past(cfg, n, arrivals) == n.(budget := n.budget - |arrivals|)
    decreases arrivals
  {
    hide InfoOrGo, Meta, List, ExportName, StructuredReply;
    if arrivals != [] {
      RequiredTlsForgetsAll(cfg, NextRound(n), arrivals[1..]);
    }
  }

  // ---------- A refused meta context request ----------

  /** A SET_META_CONTEXT that ends in an error should select no context.  It leaves
      base:allocation selected exactly if one of the queries before the bad one was for it. */
  lemma RefusedSetMeta(cfg: Config, n: Neg, data: seq<byte>, name: Name)
    requires !cfg.noMeta && n.conn.structured && MetaName(data) == Some(name)
    ensures |name| + 8 <= |data|
    ensures var nr := FromBe(data[4 + |name|..8 + |name|]);
            var q := ParseQueries(data, 8 + |name|, nr);
            var r := Meta(cfg, n, OPT_SET_META_CONTEXT, Some(data));
            && (r.replies[|r.replies| - 1].Error? <==> |q.list| < nr)
            && (r.neg.conn.base <==> exists k :: 0 <= k < |q.list| && q.list[k] == BaseAllocation())
            && r.neg.conn.metaName == Some(name)
  {
    hide FromBe, ParseQueries, MetaReplies, CheckString;
    MetaNameFits(data);
    ParsedQueriesEncode(data, 8 + |name|, FromBe(data[4 + |name|..8 + |name|]));
  }

  // Such a request: of two queries the second is missing.
  function CutOff(): seq<byte> { Be(0, 4) + Be(2, 4) + Be(15, 4) + BASE + ALLOCATION }

  lemma CutOffParses()
    ensures MetaName(CutOff()) == Some([]) && FromBe(CutOff()[4..8]) == 2
    ensures ParseQueries(CutOff(), 8, 2) == Queries([BaseAllocation()], false)
  {
    hide Be, FromBe, Fits, CheckString;
    var data := CutOff();
    FitsInFour(0);
    FitsInFour(2);
    FitsInFour(15);
    FieldIs(data[..4], 0, 4);
    CheckedIsValid(data, 4, 0, |data| - 8);
    FieldIs(data[4..8], 2, 4);
    FieldIs(data[8..12], 15, 4);
    assert data[12..27] == BASE + ALLOCATION;
    CheckedIsValid(data, 12, 15, |data| - 12);
    assert ParseQueries(data, 27, 1) == Queries([], false);
    assert data[4..4] == [];
  }

  lemma RefusedSetMetaSelects(cfg: Config, n: Neg)
    requires !cfg.noMeta && n.conn.structured
    ensures var r := Meta(cfg, n, OPT_SET_META_CONTEXT, Some(CutOff()));
            r.replies[|r.replies| - 1].Error? && r.neg.conn.base
  {
    hide CutOff, FromBe, ParseQueries, MetaReplies, MetaName;
    CutOffParses();
    RefusedSetMeta(cfg, n, CutOff(), []);
    assert CutOff()[4 + 0..8 + 0] == CutOff()[4..8];
  }

  // ---------- The server ----------

  class Negotiation {
    const cfg: Config
    var conn: Conn
    var budget: nat
    var listSeen: bool
    var calls: seq<Call>
    var lastError: Option<string>
    var input: seq<byte>
    var replies: seq<seq<Reply>>

    // The thread may have logged an error before.
    constructor (cfg: Config, layers: nat, input: seq<byte>, lastError: Option<string>)
      ensures this.cfg == cfg && this.input == input && this.lastError == lastError && fresh(this)
      ensures conn == Conn(false, false, None, false, seq(layers, _ => None), 0, false) && calls == [] && replies == []
    {
      this.cfg, this.input, this.lastError := cfg, input, lastError;
      conn := Conn(false, false, None, false, seq(layers, _ => None), 0, false);
      budget, listSeen, calls, replies := 0, false, [], [];
    }

    function View(): Neg
      reads this
    {
      Neg(conn, budget, listSeen, calls, lastError)
    }

    method SetView(n: Neg)
      modifies this
      ensures View() == n && input == old(input) && replies == old(replies)
    {
      conn, budget, listSeen, calls, lastError := n.conn, n.budget, n.listSeen, n.calls, n.lastError;
    }

    // negotiate_handshake_newstyle_options
    method Negotiate(script: seq<Env>) returns (ok: bool)
      requires AtHead(cfg, View()) && replies == []
      modifies this
      ensures Final(ok, View(), replies, input) == Run(cfg, Neg(old(conn), MAX_NR_OPTIONS, false, old(calls), old(lastError)), old(input), script)
      ensures Sound(cfg, View()) && (ok ==> Chosen(cfg, View()))
      ensures ok ==> ExportAsNamed(old(input), Final(ok, View(), replies, input), script)
      ensures |replies| <= MAX_NR_OPTIONS + MAX_NR_OPTIONS * MAX_EXPORTS
    {
      hide Sound, Chosen, Round, GoodHeader, Consumed, ExportAsNamed;
      budget, listSeen := MAX_NR_OPTIONS, false;
      ghost var start := View();
      ghost var all := Run(cfg, start, input, script);
      assert AtHead(cfg, start) by { SameHead(cfg, old(View()), start); }
      NegotiationIsSound(cfg, start, input, script);
      RoundsAreBounded(cfg, start, input, script);
      if all.ok {
        ExportIsAsNamed(cfg, start, input, script);
      }
      var k := 0;
      while budget > 0 && k < |script|
        invariant k <= |script|
        invariant all == After(replies, Run(cfg, View(), input, script[k..]))
        decreases |script| - k
      {
        var r := Round(cfg, View(), input, script[k]);
        assert script[k..][1..] == script[k + 1..];
        if r.kind.Gone? || !GoodHeader(input) || Consumed(input, r.read) > |input| {
          SetView(r.neg);
          replies := replies + [r.replies];
          return false;
        }
        var rest := input[Consumed(input, r.read)..];
        if r.kind.Ready? {
          SetView(r.neg);
          replies, input := replies + [r.replies], rest;
          return cfg.tls != 2 || conn.usingTls;
        }
        ghost var f := Run(cfg, NextRound(r.neg), rest, script[k + 1..]);
        Regroup(replies, r.replies, f.replies);
        SetView(NextRound(r.neg));
        replies, input := replies + [r.replies], rest;
        k := k + 1;
      }
      assert replies + [] == replies;
      return false;
    }
  }

  // The rest of a run after the rounds that gave these replies.
  ghost function After(replies: seq<seq<Reply>>, f: Final): Final { f.(replies := replies + f.replies) }

  lemma SameHead(cfg: Config, a: Neg, b: Neg)
    requires AtHead(cfg, a) && b.conn == a.conn && b.calls == a.calls
    ensures AtHead(cfg, b)
  {
  }
}
