/** What a client can tell from the replies to its options, compared with what the server
    has recorded. */
module Client {
  import opened Common
  import opened Wire
  import opened Options
  import opened Handshake

  // ---------- What was negotiated ----------

  // The export for which base:allocation is selected, if the client can tell.
  datatype Base = Unknown | Known(name: Option<Name>)

  datatype View = View(tls: bool, structured: bool, base: Base)

  function Selected(c: Conn): Option<Name> { if c.base then c.metaName else None }

  predicate Agrees(v: View, c: Conn) {
    v.tls == c.usingTls && v.structured == c.structured && (v.base.Known? ==> v.base.name == Selected(c))
  }

  predicate Acked(opt: nat, replies: seq<Reply>) {
    replies != [] && replies[|replies| - 1] == Ack(opt)
  }

  // The server has looked at an export, or tried to.
  predicate Visited(opt: nat, replies: seq<Reply>) {
    replies != [] && var last := replies[|replies| - 1]; last == Ack(opt) || (last.Error? && last.code == ERR_UNKNOWN)
  }

  // A context that was selected for another export is gone.
  function At(v: View, name: Name): View {
    if v.base.Known? && v.base.name.Some? && v.base.name.value != name then v.(base := Known(None)) else v
  }

  /** What a client concludes from the replies to an option that it sent with this payload. */
  function Learn(v: View, opt: nat, payload: seq<byte>, replies: seq<Reply>): View {
    if opt == OPT_STARTTLS then
      if Acked(opt, replies) then View(true, false, Known(None)) else v
    else if opt == OPT_STRUCTURED_REPLY then
      if Acked(opt, replies) then v.(structured := true) else v
    else if opt == OPT_SET_META_CONTEXT then
      if !Acked(opt, replies) then v.(base := Unknown)
      else v.(base := Known(if MetaContext(opt, BASE_ALLOCATION_ID) in replies then MetaName(payload) else None))
    else if opt == OPT_INFO || opt == OPT_GO then
      if ParseGo(payload).Some? && Visited(opt, replies) then At(v, ParseGo(payload).value.name) else v
    else if opt == OPT_EXPORT_NAME then At(v, payload)
    else v
  }

  lemma {:induction false} SetMetaReplies(queries: seq<seq<byte>>)
    ensures MetaContext(OPT_SET_META_CONTEXT, BASE_ALLOCATION_ID) in MetaReplies(OPT_SET_META_CONTEXT, queries) <==>
              BaseAllocation() in queries
  {
    hide BaseAllocation;
    if queries != [] {
      var before, last := queries[..|queries| - 1], queries[|queries| - 1];
      SetMetaReplies(before);
      assert queries == before + [last];
    }
  }

  lemma MetaIsLearned(cfg: Config, n: Neg, opt: nat, payload: seq<byte>, v: View)
    requires Agrees(v, n.conn) && opt in {OPT_LIST_META_CONTEXT, OPT_SET_META_CONTEXT}
    ensures var r := Meta(cfg, n, opt, Some(payload)); Agrees(Learn(v, opt, payload, r.replies), r.neg.conn)
  {
    hide FromBe, ParseQueries, MetaReplies, BaseAllocation, CheckString, QueryError, MetaNameError, OptName, Text, MetaName;
    if MetaName(payload).Some? {
      MetaNameFits(payload);
      var name := MetaName(payload).value;
      var q := ParseQueries(payload, 8 + |name|, FromBe(payload[4 + |name|..8 + |name|]));
      SetMetaReplies(q.list);
    }
  }

  lemma InfoOrGoIsLearned(n: Neg, opt: nat, payload: seq<byte>, e: Env, v: View)
    requires Agrees(v, n.conn) && opt in {OPT_INFO, OPT_GO} && !InfoOrGo(n, opt, Some(payload), e).kind.Gone?
    ensures var r := InfoOrGo(n, opt, Some(payload), e); Agrees(Learn(v, opt, payload, r.replies), r.neg.conn)
  {
    hide ParseGo, Infos, Fill, Text, GoError, OptName;
  }

  lemma ExportNameIsLearned(n: Neg, payload: seq<byte>, e: Env, v: View)
    requires Agrees(v, n.conn) && !ExportName(n, Some(payload), e).kind.Gone?
    ensures var r := ExportName(n, Some(payload), e); Agrees(Learn(v, OPT_EXPORT_NAME, payload, r.replies), r.neg.conn)
  {
    hide Fill, CheckString;
  }

  lemma OtherIsLearned(cfg: Config, n: Neg, opt: nat, optlen: nat, payload: seq<byte>, e: Env, v: View)
    requires cfg.fixedNewstyle && Agrees(v, n.conn) && !Handle(cfg, n, opt, optlen, Some(payload), e).kind.Gone?
    requires opt !in {OPT_EXPORT_NAME, OPT_INFO, OPT_GO, OPT_SET_META_CONTEXT, OPT_LIST_META_CONTEXT}
             || (cfg.tls == 2 && !n.conn.usingTls)
    ensures var r := Handle(cfg, n, opt, optlen, Some(payload), e); Agrees(Learn(v, opt, payload, r.replies), r.neg.conn)
  {
    hide InfoOrGo, ExportName, Meta, ParseGo, MetaName, Fill, Text, ServerNames;
  }

  lemma OptionIsLearned(cfg: Config, n: Neg, opt: nat, optlen: nat, payload: seq<byte>, e: Env, v: View)
    requires cfg.fixedNewstyle && Agrees(v, n.conn) && !Handle(cfg, n, opt, optlen, Some(payload), e).kind.Gone?
    ensures var r := Handle(cfg, n, opt, optlen, Some(payload), e); Agrees(Learn(v, opt, payload, r.replies), r.neg.conn)
  {
    hide InfoOrGo, ExportName, Meta, Learn, Agrees, List, StartTls, StructuredReply;
    if opt !in {OPT_EXPORT_NAME, OPT_INFO, OPT_GO, OPT_SET_META_CONTEXT, OPT_LIST_META_CONTEXT} || (cfg.tls == 2 && !n.conn.usingTls) {
      OtherIsLearned(cfg, n, opt, optlen, payload, e, v);
    } else if opt == OPT_EXPORT_NAME {
      ExportNameIsLearned(n, payload, e, v);
    } else if opt == OPT_INFO || opt == OPT_GO {
      InfoOrGoIsLearned(n, opt, payload, e, v);
    } else {
      MetaIsLearned(cfg, n, opt, payload, v);
    }
  }

  // What the client concludes from all replies to the options on the wire.
  function Learned(v: View, input: seq<byte>, replies: seq<seq<Reply>>): View
    decreases |replies|
  {
    if replies == [] || !GoodHeader(input) || Payload(input).None? then v
    else Learned(Learn(v, Opt(input), Payload(input).value, replies[0]), input[Consumed(input, true)..], replies[1..])
  }

  /** When a negotiation completes, the client knows from the replies alone whether TLS and
      structured replies are in use, and for which export base:allocation is selected unless
      its last attempt to select it was refused. */
  lemma {:induction false} ClientKnows(cfg: Config, n: Neg, input: seq<byte>, script: seq<Env>, v: View)
    requires cfg.fixedNewstyle && Agrees(v, n.conn) && Run(cfg, n, input, script).ok
    ensures var f := Run(cfg, n, input, script); Agrees(Learned(v, input, f.replies), f.neg.conn)
    decreases |script|
  {
    hide Handle, GoodHeader, Opt, OptLen, Learn, Agrees, Answers;
    var r := Round(cfg, n, input, script[0]);
    var opt, optlen, payload := Opt(input), OptLen(input), Payload(input);
    if r.kind.Ready? {
      OptionSelects(cfg, n, opt, optlen, payload, script[0]);
    } else {
      OptionIsAnswered(cfg, n, opt, optlen, payload, script[0]);
    }
    OptionIsLearned(cfg, n, opt, optlen, payload.value, script[0], v);
    var w := Learn(v, opt, payload.value, r.replies);
    var rest := input[Consumed(input, true)..];
    if r.kind.Ready? {
      LearnedLast(v, input, r.replies);
    } else {
      assert Agrees(w, NextRound(r.neg).conn);
      ClientKnows(cfg, NextRound(r.neg), rest, script[1..], w);
      LearnedFirst(v, input, r.replies, Run(cfg, NextRound(r.neg), rest, script[1..]).replies);
    }
  }

  lemma LearnedFirst(v: View, input: seq<byte>, first: seq<Reply>, more: seq<seq<Reply>>)
    requires GoodHeader(input) && Payload(input).Some?
    ensures Learned(v, input, [first] + more) ==
              Learned(Learn(v, Opt(input), Payload(input).value, first), input[Consumed(input, true)..], more)
  {
    hide Learn, GoodHeader, Opt;
    assert ([first] + more)[1..] == more;
  }

  lemma LearnedLast(v: View, input: seq<byte>, last: seq<Reply>)
    requires GoodHeader(input) && Payload(input).Some?
    ensures Learned(v, input, [last]) == Learn(v, Opt(input), Payload(input).value, last)
  {
    hide Learn, GoodHeader, Opt;
    assert [last] == [last] + [];
    LearnedFirst(v, input, last, []);
  }

  // ---------- What it is told ----------

  // A reply about an export that the client asked for and the backend gave.
  predicate Told(opt: nat, g: Go, defaults: seq<Option<Name>>, e: Env, r: Reply) {
    || (r == InfoName(opt, g.name) && g.name != [] && INFO_NAME in g.infos)
    || (g.name == [] && INFO_NAME in g.infos && |defaults| > 0 && defaults[|defaults| - 1].Some?
        && r == InfoName(opt, defaults[|defaults| - 1].value))
    || (INFO_DESCRIPTION in g.infos && e.description.Some? && r == InfoDescription(opt, e.description.value))
    || (INFO_BLOCK_SIZE in g.infos && e.blockSize.BlockSizes? && e.blockSize.minimum != 0
        && r == InfoBlockSize(opt, e.blockSize.minimum, e.blockSize.preferred, e.blockSize.maximum))
  }

  lemma {:induction false} InfosTell(opt: nat, g: Go, infos: seq<nat>, defaults: seq<Option<Name>>, e: Env, r: Reply)
    requires Infos(opt, g, infos, defaults, e).complete
    ensures r in Infos(opt, g, infos, defaults, e).replies <==> Told(opt, g.(infos := infos), defaults, e, r)
  {
    hide InfoReply, Told;
    if infos == [] {
      NothingTold(opt, g, defaults, e, r);
    } else {
      var before, last := infos[..|infos| - 1], infos[|infos| - 1];
      InfosTell(opt, g, before, defaults, e, r);
      assert infos == before + [last];
      InfoTold(opt, g, last, defaults, e, r);
      ToldMore(opt, g, before, last, defaults, e, r);
    }
  }

  lemma NothingTold(opt: nat, g: Go, defaults: seq<Option<Name>>, e: Env, r: Reply)
    ensures !Told(opt, g.(infos := []), defaults, e, r)
  {
  }

  lemma InfoTold(opt: nat, g: Go, info: nat, defaults: seq<Option<Name>>, e: Env, r: Reply)
    requires !(info == INFO_BLOCK_SIZE && e.blockSize.BlockSizeFailed?)
    ensures r in InfoReply(opt, g, info, defaults, e) <==> Told(opt, g.(infos := [info]), defaults, e, r)
  {
  }

  lemma ToldMore(opt: nat, g: Go, infos: seq<nat>, info: nat, defaults: seq<Option<Name>>, e: Env, r: Reply)
    ensures Told(opt, g.(infos := infos + [info]), defaults, e, r) <==>
              Told(opt, g.(infos := infos), defaults, e, r) || Told(opt, g.(infos := [info]), defaults, e, r)
  {
  }

  /** The answer to a request for information tells exactly what was asked for and what the
      backend has to say about it, next to the size and the flags. */
  lemma InfoTells(n: Neg, opt: nat, g: Go, e: Env, r: Reply)
    requires opt in {OPT_INFO, OPT_GO} && ValidGo(g) && Acked(opt, InfoOrGo(n, opt, Some(EncodeGo(g)), e).replies)
    ensures e.opening.Opened?
    ensures r in InfoOrGo(n, opt, Some(EncodeGo(g)), e).replies <==>
              || r == InfoExport(opt, e.opening.size, e.opening.eflags) || r == Ack(opt)
              || Told(opt, g, Fill(n.conn.defaults, e.names), e, r)
  {
    hide ParseGo, EncodeGo, ValidGo, Infos, Fill, Text, Told, GoError;
    GoRoundTrip(EncodeGo(g), g);
    var defaults := Fill(n.conn.defaults, e.names);
    var infos := Infos(opt, g, g.infos, defaults, e);
    InfosHaveNoAck(opt, g, g.infos, defaults, e);
    if infos.complete {
      InfosTell(opt, g, g.infos, defaults, e, r);
      assert g.(infos := g.infos) == g;
    }
  }

  lemma {:induction false} InfosHaveNoAck(opt: nat, g: Go, infos: seq<nat>, defaults: seq<Option<Name>>, e: Env)
    ensures Ack(opt) !in Infos(opt, g, infos, defaults, e).replies
  {
    if infos != [] {
      InfosHaveNoAck(opt, g, infos[..|infos| - 1], defaults, e);
    }
  }

  /** A list that is acknowledged names every export once, in order. */
  lemma ListTells(n: Neg, e: Env)
    requires Acked(OPT_LIST, List(n, 0, Some([]), e).replies)
    ensures var r := List(n, 0, Some([]), e);
            && e.listing.Listed? && !n.listSeen && |r.replies| == e.listing.count + 1
            && (forall i :: 0 <= i < e.listing.count ==> r.replies[i] == ServerName(OPT_LIST, i))
            && r.neg.budget == n.budget + MAX_NR_OPTIONS * e.listing.count
  {
    hide Fill, Text;
  }
}
