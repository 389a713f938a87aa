/** The transmission phase: any number of workers receive requests from one plaintext
    connection, execute them and send the replies.  Every step touches the shared state
    once, and sends succeed. */
module Transmission {
  import opened Common
  import opened Wire
  import opened Replies
  import opened Status

  const NBD_ESHUTDOWN: nat := 108

  // What the receive call for a header made of the wire.
  datatype Received = Got(p: nat) | Eof | Failed

  // Where a worker is in protocol_recv_request_send_reply.
  datatype Phase =
    | Idle                                             // at the head of the worker loop
    | Entering                                         // about to take the read lock
    | Locked                                           // holds the read lock
    | Checking(r: Received)                            // has a header, will look at the status
    | Ending(value: nat)                               // will lower the status and leave
    | Validating(p: nat, cs: nat)                      // has a good header
    | Ready(id: nat, cs: nat)                          // has dropped the read lock
    | Done(id: nat, a: Answer)                         // has an answer
    | Replying(id: nat, pieces: seq<seq<byte>>)        // about to take the write lock
    | Sending(id: nat, pieces: seq<seq<byte>>, k: nat) // has sent k pieces

  // How a request ended: not validated, refused as the server or the connection shuts down,
  // or executed with this answer of the backend.
  datatype Outcome = Pending | Rejected(error: nat) | Refused | Executed(a: Answer)

  function Bare(error: nat): Answer { Answer(error, [], []) }

  // What there is to say about it.
  function AnswerOf(o: Outcome): Answer {
    match o
    case Executed(a) => a
    case Rejected(error) => Bare(error)
    case _ => Bare(NBD_ESHUTDOWN)
  }

  // A request taken off the wire, and what became of it.
  datatype Entry = Entry(p: nat, accepted: bool, owner: nat, outcome: Outcome, reply: Option<nat>)

  datatype Reply = Reply(id: nat, frame: seq<byte>)

  datatype State = State(
    wire: seq<byte>, structured: bool,       // fixed: all that the client sends
    pos: nat, status: nat, quit: bool, workers: seq<Phase>,
    reader: Option<nat>, writer: Option<nat>, output: seq<byte>,
    log: seq<Entry>, executions: seq<nat>, sent: seq<Reply>)

  predicate InRead(f: Phase) { f.Locked? || f.Checking? || f.Ending? || f.Validating? }
  predicate InWrite(f: Phase) { f.Sending? }
  predicate HasId(f: Phase) { f.Ready? || f.Done? || f.Replying? || f.Sending? }

  // ---------- Steps ----------

  // What validation, allocation and the payload came to.
  datatype Verdict = Accept | Reject(error: nat) | Lost

  datatype Move =
    | Loop | LockRead | Receive(r: Received) | Check | End | Frame(verdict: Verdict)
    | Execute(a: Answer) | Refuse | Answering | LockWrite | GiveUp | Send | Finish

  predicate CanReceive(s: State, r: Received) {
    match r
    case Got(p) => p == s.pos && Complete(s.wire, p)
    case Eof => s.pos == |s.wire|
    case Failed => true
  }

  // The payload of an accepted write is read, that of a rejected one is skipped.
  predicate CanFrame(s: State, p: nat, verdict: Verdict)
    requires Complete(s.wire, p)
  {
    match verdict
    case Accept =>
      && Replies.End(s.wire, p) <= |s.wire|
      && (Type(s.wire, p) in {CMD_READ, CMD_WRITE} ==> Count(s.wire, p) <= MAX_REQUEST_SIZE)
    case Reject(error) =>
      && 0 < error <= UINT32_MAX
      && Replies.End(s.wire, p) <= |s.wire| && Payload(s.wire, p) <= 2 * MAX_REQUEST_SIZE
    case Lost => Type(s.wire, p) == CMD_WRITE
  }

  predicate Can(s: State, w: nat, m: Move)
    requires w < |s.workers|
  {
    var f := s.workers[w];
    match m
    case Loop => f.Idle? && !s.quit && s.status > CLIENT_DONE
    case LockRead => f.Entering? && s.reader.None?
    case Receive(r) => f.Locked? && CanReceive(s, r)
    case Check => f.Checking?
    case End => f.Ending?
    case Frame(verdict) => f.Validating? && Complete(s.wire, f.p) && CanFrame(s, f.p, verdict)
    case Execute(a) =>
      && f.Ready? && f.id < |s.log| && !s.quit && f.cs >= ACTIVE
      && Complete(s.wire, s.log[f.id].p) && AnswerOk(s.wire, s.log[f.id].p, a)
    case Refuse => f.Ready? && f.id < |s.log| && (s.quit || f.cs < ACTIVE)
    case Answering => f.Done? && f.id < |s.log| && Complete(s.wire, s.log[f.id].p)
    case LockWrite => f.Replying? && s.writer.None?
    case GiveUp =>
      && f.Sending? && f.k == 0 && f.id < |s.log| && s.structured
      && Complete(s.wire, s.log[f.id].p) && Type(s.wire, s.log[f.id].p) == CMD_BLOCK_STATUS
    case Send => f.Sending? && f.k < |f.pieces|
    case Finish => f.Sending? && f.k == |f.pieces| && f.id < |s.log|
  }

  // The phase after looking at the status with a header in hand.
  function Checked(s: State, r: Received): Phase {
    if s.status <= CLIENT_DONE then Idle
    else match r
      case Failed => Ending(DEAD)
      case Eof => Ending(CLIENT_DONE)
      case Got(p) =>
        if !Complete(s.wire, p) || Magic(s.wire, p) != REQUEST_MAGIC then Ending(DEAD)
        else if Type(s.wire, p) == CMD_DISC then Ending(CLIENT_DONE)
        else Validating(p, s.status)
  }

  function Goto(s: State, w: nat, f: Phase): State
    requires w < |s.workers|
  {
    s.(workers := s.workers[w := f])
  }

  function After(s: State, w: nat, m: Move): State
    requires w < |s.workers| && Can(s, w, m)
  {
    var f := s.workers[w];
    match m
    case Loop => Goto(s, w, Entering)
    case LockRead => Goto(s, w, Locked).(reader := Some(w))
    case Receive(r) => Goto(s, w, Checking(r)).(pos := if r.Got? then s.pos + HEADER else s.pos)
    case Check =>
      var g := Checked(s, f.r);
      Goto(s, w, g).(reader := if g.Idle? then None else s.reader)
    case End => Goto(s, w, Idle).(status := Lowered(s.status, f.value), reader := None)
    case Frame(verdict) =>
      if verdict.Lost? then Goto(s, w, Ending(DEAD))
      else
        var id := |s.log|;
        Goto(s, w, if verdict.Accept? then Ready(id, f.cs) else Done(id, Bare(verdict.error))).(
          pos := Replies.End(s.wire, f.p), reader := None,
          log := s.log + [Entry(f.p, verdict.Accept?, w, if verdict.Accept? then Pending else Rejected(verdict.error), None)])
    case Execute(a) =>
      Goto(s, w, Done(f.id, a)).(
        log := s.log[f.id := s.log[f.id].(outcome := Executed(a))], executions := s.executions + [f.id])
    case Refuse =>
      Goto(s, w, Done(f.id, Bare(NBD_ESHUTDOWN))).(log := s.log[f.id := s.log[f.id].(outcome := Refused)])
    case Answering =>
      if s.status < CLIENT_DONE then Goto(s, w, Idle)
      else Goto(s, w, Replying(f.id, Pieces(s.structured, s.wire, s.log[f.id].p, f.a)))
    case LockWrite => Goto(s, w, Sending(f.id, f.pieces, 0)).(writer := Some(w))
    case GiveUp => Goto(s, w, Idle).(status := Lowered(s.status, DEAD), writer := None)
    case Send => Goto(s, w, f.(k := f.k + 1)).(output := s.output + f.pieces[f.k])
    case Finish =>
      Goto(s, w, Idle).(
        writer := None, sent := s.sent + [Reply(f.id, Concat(f.pieces))],
        log := s.log[f.id := s.log[f.id].(reply := Some(|s.sent|))])
  }

  // The plugin may ask to disconnect, and the server to quit, at any time.
  ghost predicate Outside(s: State, s': State) {
    || (exists value :: value in {DEAD, SHUTDOWN} && s' == s.(status := Lowered(s.status, value)))
    || s' == s.(quit := true)
  }

  ghost predicate WorkerStep(s: State, s': State, w: nat, m: Move) {
    w < |s.workers| && Can(s, w, m) && s' == After(s, w, m)
  }

  ghost predicate Step(s: State, s': State) {
    Outside(s, s') || exists w, m :: WorkerStep(s, s', w, m)
  }

  ghost predicate Init(s: State) {
    && (forall w :: 0 <= w < |s.workers| ==> s.workers[w].Idle?)
    && s.pos == 0 && s.status == ACTIVE && !s.quit && s.reader.None? && s.writer.None?
    && s.output == [] && s.log == [] && s.executions == [] && s.sent == []
  }

  ghost predicate Run(r: seq<State>) {
    && r != [] && Init(r[0])
    && forall i, j :: 0 <= i < j < |r| && j == i + 1 ==> Step(r[i], r[j])
  }

  // ---------- Invariant ----------

  function Starts(log: seq<Entry>): (ps: seq<nat>)
    ensures |ps| == |log| && forall i :: 0 <= i < |log| ==> ps[i] == log[i].p
  {
    seq(|log|, i requires 0 <= i < |log| => log[i].p)
  }

  // The requests logged and those from p on are all the requests there are.
  ghost predicate LeftFrom(s: State, p: nat) {
    Starts(s.log) + RequestsFrom(s.wire, p) == RequestsFrom(s.wire, 0)
  }

  ghost predicate AllLogged(s: State) {
    Starts(s.log) == RequestsFrom(s.wire, 0)
  }

  // What a worker knows while it holds the read lock.
  ghost predicate ReadOk(s: State, f: Phase) {
    match f
    case Locked => s.status > CLIENT_DONE ==> LeftFrom(s, s.pos)
    case Checking(Got(p)) => Complete(s.wire, p) && s.pos == p + HEADER && (s.status > CLIENT_DONE ==> LeftFrom(s, p))
    case Checking(Eof) => s.status > CLIENT_DONE ==> AllLogged(s)
    case Ending(value) => value == DEAD || (value == CLIENT_DONE && AllLogged(s))
    case Validating(p, cs) => GoodHeader(s.wire, p) && s.pos == p + HEADER && LeftFrom(s, p)
    case _ => true
  }

  // Only reads of a limited size are executed.
  predicate SmallRead(wire: seq<byte>, p: nat)
    requires Complete(wire, p)
  {
    Type(wire, p) == CMD_READ ==> Count(wire, p) <= MAX_REQUEST_SIZE
  }

  // The frame is one whole reply to the request, and tells the client how it ended.
  ghost predicate Conveys(structured: bool, wire: seq<byte>, p: nat, o: Outcome, frame: seq<byte>) {
    && IsReply(wire, p, frame) && !o.Pending?
    && Decode(wire, p, frame) == Some(Meaning(structured, wire, p, AnswerOf(o)))
  }

  // What a worker knows about the request that it serves.
  ghost predicate ServeOk(s: State, w: nat, f: Phase)
    requires HasId(f)
  {
    && f.id < |s.log|
    && var e := s.log[f.id];
    && e.owner == w && e.reply.None? && Complete(s.wire, e.p)
    && (f.Ready? ==> e.accepted && e.outcome.Pending? && SmallRead(s.wire, e.p))
    && (!f.Ready? ==> !e.outcome.Pending?)
    && (f.Done? ==> f.a == AnswerOf(e.outcome) && AnswerOk(s.wire, e.p, f.a))
    && (f.Replying? || f.Sending? ==> Conveys(s.structured, s.wire, e.p, e.outcome, Concat(f.pieces)))
    && (f.Sending? ==> f.k <= |f.pieces|)
  }

  ghost predicate WorkerOk(s: State, w: nat)
    requires w < |s.workers|
  {
    var f := s.workers[w];
    && (InRead(f) <==> s.reader == Some(w))
    && (InWrite(f) <==> s.writer == Some(w))
    && (InRead(f) ==> ReadOk(s, f))
    && (HasId(f) ==> ServeOk(s, w, f))
  }

  ghost predicate FramingOk(s: State) {
    && s.pos <= |s.wire| && Starts(s.log) <= RequestsFrom(s.wire, 0)
    && (s.reader.None? && s.status > CLIENT_DONE ==> LeftFrom(s, s.pos))
    && (s.status == CLIENT_DONE ==> AllLogged(s))
  }

  // Unless the connection is dead, a request is answered or still being served.
  ghost predicate ServedOk(s: State) {
    forall id :: 0 <= id < |s.log| && s.log[id].reply.None? && s.status > DEAD ==>
      && s.log[id].owner < |s.workers|
      && HasId(s.workers[s.log[id].owner]) && s.workers[s.log[id].owner].id == id
  }

  ghost predicate RepliesOk(structured: bool, wire: seq<byte>, log: seq<Entry>, sent: seq<Reply>) {
    && (forall i :: 0 <= i < |sent| ==>
          && sent[i].id < |log| && log[sent[i].id].reply == Some(i)
          && Conveys(structured, wire, log[sent[i].id].p, log[sent[i].id].outcome, sent[i].frame))
    && (forall id :: 0 <= id < |log| && log[id].reply.Some? ==>
          log[id].reply.value < |sent| && sent[log[id].reply.value].id == id)
  }

  ghost predicate ExecutionsOk(log: seq<Entry>, executions: seq<nat>) {
    && (forall i :: 0 <= i < |executions| ==>
          && executions[i] < |log| && log[executions[i]].outcome.Executed? && log[executions[i]].accepted)
    && (forall i, j :: 0 <= i < j < |executions| ==> executions[i] != executions[j])
    && (forall id :: 0 <= id < |log| ==> Faithful(log[id], id, executions))
  }

  // An entry says "executed" only if it was, and a rejected request has an error.
  predicate Faithful(e: Entry, id: nat, executions: seq<nat>) {
    (e.outcome.Executed? ==> id in executions) && (e.outcome.Rejected? ==> !e.accepted && e.outcome.error != 0)
  }

  function Frames(sent: seq<Reply>): (fs: seq<seq<byte>>)
    ensures |fs| == |sent|
  {
    seq(|sent|, i requires 0 <= i < |sent| => sent[i].frame)
  }

  // The part that has been sent of the reply being sent.
  function Partial(f: Phase): seq<byte> {
    if f.Sending? && f.k <= |f.pieces| then Concat(f.pieces[..f.k]) else []
  }

  ghost predicate OutputOk(s: State) {
    if s.writer.Some? then
      && s.writer.value < |s.workers| && s.workers[s.writer.value].Sending?
      && s.output == Concat(Frames(s.sent)) + Partial(s.workers[s.writer.value])
    else s.output == Concat(Frames(s.sent))
  }

  ghost predicate Inv(s: State) {
    && (forall w :: 0 <= w < |s.workers| ==> WorkerOk(s, w))
    && (s.reader.Some? ==> s.reader.value < |s.workers|)
    && FramingOk(s) && ServedOk(s) && OutputOk(s)
    && RepliesOk(s.structured, s.wire, s.log, s.sent) && ExecutionsOk(s.log, s.executions)
  }

  lemma InitOk(s: State)
    requires Init(s)
    ensures Inv(s)
  {
    assert Starts(s.log) + RequestsFrom(s.wire, 0) == RequestsFrom(s.wire, 0);
    assert Concat(Frames(s.sent)) == [];
  }

  // ---------- What a step of worker w leaves to the others ----------

  predicate Reading(m: Move) { m.LockRead? || m.Receive? || m.Check? || m.End? || m.Frame? }

  // The entry of a log after a step of w.
  ghost predicate Extends(log: seq<Entry>, log': seq<Entry>, w: nat) {
    && |log| <= |log'|
    && forall id :: 0 <= id < |log| ==>
         && log'[id].p == log[id].p && log'[id].owner == log[id].owner && log'[id].accepted == log[id].accepted
         && (log[id].owner != w ==> log'[id] == log[id])
  }

  ghost predicate Rely(s: State, s': State, w: nat) {
    && s'.wire == s.wire && s'.structured == s.structured && s'.status <= s.status
    && |s'.workers| == |s.workers| && (forall v :: 0 <= v < |s.workers| && v != w ==> s'.workers[v] == s.workers[v])
    && (forall v: nat :: v != w ==> (s'.reader == Some(v) <==> s.reader == Some(v)) && (s'.writer == Some(v) <==> s.writer == Some(v)))
    && Extends(s.log, s'.log, w)
    && (s.reader.Some? && s.reader.value != w ==> s'.pos == s.pos && |s'.log| == |s.log|)
  }

  lemma SameStarts(log: seq<Entry>, log': seq<Entry>, w: nat)
    requires Extends(log, log', w) && |log'| == |log|
    ensures Starts(log') == Starts(log)
  {
  }

  lemma OthersKeep(s: State, s': State, w: nat, v: nat)
    requires Rely(s, s', w) && v != w && v < |s.workers| && WorkerOk(s, v)
    ensures WorkerOk(s', v)
  {
    hide RequestsFrom, IsReply, Conveys, Concat, Magic, Type, Complete;
    if s.reader == Some(v) {
      SameStarts(s.log, s'.log, w);
    }
  }

  lemma ReadingRelies(s: State, w: nat, m: Move)
    requires w < |s.workers| && WorkerOk(s, w) && Can(s, w, m) && Reading(m)
    ensures Rely(s, After(s, w, m), w)
  {
    hide RequestsFrom, IsReply, Conveys, Concat, Magic, Type, Complete, Pieces, LeftFrom, AllLogged, Checked, CanFrame, CanReceive,
      AnswerOk, SmallRead, ReadOk, Replies.End;
  }

  lemma ServingRelies(s: State, w: nat, m: Move)
    requires w < |s.workers| && WorkerOk(s, w) && Can(s, w, m) && !Reading(m)
    ensures Rely(s, After(s, w, m), w)
  {
    hide RequestsFrom, IsReply, Conveys, Concat, Magic, Type, Complete, Pieces, LeftFrom, AllLogged, Checked, CanFrame, CanReceive,
      AnswerOk, SmallRead, ReadOk, Replies.End;
  }

  lemma StepRelies(s: State, w: nat, m: Move)
    requires w < |s.workers| && WorkerOk(s, w) && Can(s, w, m)
    ensures Rely(s, After(s, w, m), w)
  {
    hide *;
    if Reading(m) {
      ReadingRelies(s, w, m);
    } else {
      ServingRelies(s, w, m);
    }
  }

  // ---------- What a step keeps ----------

  lemma NothingLeft(s: State, p: nat)
    requires LeftFrom(s, p) && !IsRequest(s.wire, p)
    ensures AllLogged(s)
  {
  }

  lemma OneFramed(s: State, p: nat, verdict: Verdict, e: Entry)
    requires GoodHeader(s.wire, p) && LeftFrom(s, p) && CanFrame(s, p, verdict) && !verdict.Lost? && e.p == p
    ensures Starts(s.log + [e]) + RequestsFrom(s.wire, Replies.End(s.wire, p)) == RequestsFrom(s.wire, 0)
  {
    hide Magic, Type, Count, Complete;
    assert IsRequest(s.wire, p);
    assert Starts(s.log + [e]) == Starts(s.log) + [p];
  }

  lemma FrameKeeps(s: State, w: nat, verdict: Verdict)
    requires w < |s.workers| && WorkerOk(s, w) && Can(s, w, Frame(verdict))
    ensures WorkerOk(After(s, w, Frame(verdict)), w)
  {
    hide RequestsFrom, IsReply, Conveys, Concat, Magic, Complete, Pieces, AnswerOk, Replies.End, Payload, LeftFrom, AllLogged, Bare;
    if verdict.Reject? {
      BareIsOk(s.wire, s.workers[w].p, verdict.error);
    }
  }

  lemma ReaderKeeps(s: State, w: nat, m: Move)
    requires Inv(s) && w < |s.workers| && Can(s, w, m) && Reading(m)
    ensures WorkerOk(After(s, w, m), w)
  {
    hide Inv, After, WorkerOk;
    InvWorker(s, w);
    if m.Frame? {
      FrameKeeps(s, w, m.verdict);
    } else {
      HeaderKeeps(s, w, m);
    }
  }

  lemma HeaderKeeps(s: State, w: nat, m: Move)
    requires Inv(s) && w < |s.workers| && Can(s, w, m) && Reading(m) && !m.Frame?
    ensures WorkerOk(After(s, w, m), w)
  {
    hide RequestsFrom, IsReply, Conveys, Concat, Magic, Type, Count, Complete, Pieces, ServedOk, RepliesOk, ExecutionsOk, OutputOk,
      AnswerOk, Replies.End, Payload;
    assert WorkerOk(s, w);
    if m.Check? && s.workers[w].r.Got? && s.status > CLIENT_DONE && !GoodHeader(s.wire, s.workers[w].r.p) {
      NothingLeft(s, s.workers[w].r.p);
    }
    if m == Receive(Eof) && s.status > CLIENT_DONE {
      assert !Complete(s.wire, s.pos) by { EofIsIncomplete(s.wire); }
      NothingLeft(s, s.pos);
    }
  }

  lemma EofIsIncomplete(wire: seq<byte>)
    ensures !Complete(wire, |wire|)
  {
  }

  lemma AnswerKeeps(s: State, w: nat)
    requires w < |s.workers| && WorkerOk(s, w) && Can(s, w, Answering)
    ensures WorkerOk(After(s, w, Answering), w)
  {
    hide IsReply, Concat, Magic, Type, Complete, Pieces, AnswerOk, SmallRead, ReadOk, Decode, Meaning, AnswerOf;
    var f := s.workers[w];
    PiecesAreReply(s.structured, s.wire, s.log[f.id].p, f.a);
    PiecesDecode(s.structured, s.wire, s.log[f.id].p, f.a);
  }

  // A bare error is an answer to any request.
  lemma BareIsOk(wire: seq<byte>, p: nat, error: nat)
    requires Complete(wire, p) && 0 < error <= UINT32_MAX
    ensures AnswerOk(wire, p, Bare(error))
  {
  }

  lemma ServerKeeps(s: State, w: nat, m: Move)
    requires Inv(s) && w < |s.workers| && Can(s, w, m) && !Reading(m)
    ensures WorkerOk(After(s, w, m), w)
  {
    hide IsReply, Conveys, Concat, Complete, Pieces, AnswerOk, SmallRead, ReadOk, ServedOk, RepliesOk, ExecutionsOk, OutputOk, FramingOk,
      CanReceive, CanFrame, Checked;
    assert WorkerOk(s, w);
    if m.Answering? {
      AnswerKeeps(s, w);
    } else if m.Refuse? {
      BareIsOk(s.wire, s.log[s.workers[w].id].p, NBD_ESHUTDOWN);
    }
  }

  lemma FramingKept(s: State, w: nat, m: Move)
    requires Inv(s) && w < |s.workers| && Can(s, w, m)
    ensures FramingOk(After(s, w, m))
  {
    hide RequestsFrom, IsReply, Conveys, Concat, Magic, Type, Pieces, ServedOk, RepliesOk, ExecutionsOk, OutputOk;
    assert WorkerOk(s, w);
    StepRelies(s, w, m);
    if m.Frame? && !m.verdict.Lost? {
      OneFramed(s, s.workers[w].p, m.verdict, After(s, w, m).log[|s.log|]);
    } else {
      SameStarts(s.log, After(s, w, m).log, w);
    }
  }

  // A step of w from s to s': the requests of others stay theirs, and its own is served on,
  // answered, or dropped with the connection.
  ghost predicate Onward(s: State, s': State, w: nat)
    requires w < |s.workers|
  {
    && s'.status <= s.status && |s'.workers| == |s.workers| && |s.log| <= |s'.log|
    && (forall v :: 0 <= v < |s.workers| && v != w ==> s'.workers[v] == s.workers[v])
    && (forall id :: 0 <= id < |s.log| ==> s'.log[id].owner == s.log[id].owner)
    && (forall id :: 0 <= id < |s.log| && s'.log[id].reply.None? ==> s.log[id].reply.None?)
    && (forall id :: |s.log| <= id < |s'.log| ==> s'.log[id].owner == w && Serves(s'.workers[w], id))
    && (HasId(s.workers[w]) && s'.status > DEAD ==>
          var id := s.workers[w].id;
          Serves(s'.workers[w], id) || (id < |s'.log| && s'.log[id].reply.Some?))
  }

  predicate Serves(f: Phase, id: nat) { HasId(f) && f.id == id }

  // What becomes of the request that a worker serves.
  lemma ServesOn(s: State, w: nat, m: Move)
    requires w < |s.workers| && Can(s, w, m) && WorkerOk(s, w)
    ensures Onward(s, After(s, w, m), w)
  {
    hide RequestsFrom, IsReply, Conveys, Concat, Magic, Type, Complete, Pieces, ReadOk, Checked, CanFrame, AnswerOk, CanReceive,
      SmallRead, Replies.End, Count;
  }

  lemma OnwardIsServed(s: State, s': State, w: nat)
    requires w < |s.workers| && ServedOk(s) && Onward(s, s', w)
    ensures ServedOk(s')
  {
  }

  lemma ServedKept(s: State, w: nat, m: Move)
    requires Inv(s) && w < |s.workers| && Can(s, w, m)
    ensures ServedOk(After(s, w, m))
  {
    hide Can, After, WorkerOk, ServedOk, Onward, RepliesOk, ExecutionsOk, OutputOk, FramingOk;
    ServesOn(s, w, m);
    OnwardIsServed(s, After(s, w, m), w);
  }

  // Only finishing a reply records it.
  lemma NotFinishing(s: State, w: nat, m: Move)
    requires w < |s.workers| && Can(s, w, m) && !m.Finish? && WorkerOk(s, w)
    ensures var s' := After(s, w, m);
            && s'.sent == s.sent && s'.wire == s.wire && s'.structured == s.structured && |s.log| <= |s'.log|
            && (forall id :: 0 <= id < |s.log| ==>
                  s'.log[id].reply == s.log[id].reply && (s.log[id].reply.Some? ==> s'.log[id] == s.log[id]))
            && (forall id :: |s.log| <= id < |s'.log| ==> s'.log[id].reply.None?)
  {
    hide RequestsFrom, IsReply, Conveys, Concat, Magic, Type, Complete, Pieces, Checked, CanFrame, AnswerOk, CanReceive;
  }

  lemma RepliesKept(s: State, w: nat, m: Move)
    requires Inv(s) && w < |s.workers| && Can(s, w, m)
    ensures RepliesOk(s.structured, After(s, w, m).wire, After(s, w, m).log, After(s, w, m).sent)
  {
    if m.Finish? {
      FinishKeeps(s, w);
    } else {
      hide *;
      InvWorker(s, w);
      NotFinishing(s, w, m);
      assert RepliesOk(s.structured, s.wire, s.log, s.sent) by { InvReplies(s); }
      LogGrows(s.structured, s.wire, s.log, After(s, w, m).log, s.sent);
    }
  }

  lemma InvReplies(s: State)
    requires Inv(s)
    ensures RepliesOk(s.structured, s.wire, s.log, s.sent)
  {
  }

  lemma FinishKeeps(s: State, w: nat)
    requires Inv(s) && w < |s.workers| && Can(s, w, Finish)
    ensures RepliesOk(s.structured, After(s, w, Finish).wire, After(s, w, Finish).log, After(s, w, Finish).sent)
  {
    hide RequestsFrom, IsReply, Conveys, Concat, Magic, Type, Complete, Pieces, ServedOk, ExecutionsOk, OutputOk, FramingOk, ReadOk, Starts;
    assert WorkerOk(s, w);
  }

  lemma LogGrows(structured: bool, wire: seq<byte>, log: seq<Entry>, log': seq<Entry>, sent: seq<Reply>)
    requires RepliesOk(structured, wire, log, sent) && |log| <= |log'|
    requires forall id :: 0 <= id < |log| ==> log'[id].reply == log[id].reply && (log[id].reply.Some? ==> log'[id] == log[id])
    requires forall id :: |log| <= id < |log'| ==> log'[id].reply.None?
    ensures RepliesOk(structured, wire, log', sent)
  {
    hide Conveys;
  }

  // What only a step other than an execution does to the log.
  ghost predicate Unexecuted(log: seq<Entry>, log': seq<Entry>) {
    && |log| <= |log'|
    && (forall id :: 0 <= id < |log| ==>
          && log'[id].accepted == log[id].accepted
          && (log'[id].outcome == log[id].outcome || (log[id].outcome.Pending? && log'[id].outcome.Refused?)))
    && (forall id :: |log| <= id < |log'| ==> Faithful(log'[id], id, []))
  }

  lemma NotExecuting(s: State, w: nat, m: Move)
    requires w < |s.workers| && Can(s, w, m) && WorkerOk(s, w) && !m.Execute?
    ensures After(s, w, m).executions == s.executions && Unexecuted(s.log, After(s, w, m).log)
  {
    hide RequestsFrom, IsReply, Conveys, Concat, Magic, Type, Complete, Pieces, ReadOk, Starts, Checked, AnswerOk, AnswerOf,
      Replies.End, Payload, Count, SmallRead;
  }

  lemma ExecutedKeeps(s: State, w: nat, a: Answer)
    requires w < |s.workers| && Can(s, w, Execute(a)) && WorkerOk(s, w) && ExecutionsOk(s.log, s.executions)
    ensures ExecutionsOk(After(s, w, Execute(a)).log, After(s, w, Execute(a)).executions)
  {
    hide RequestsFrom, IsReply, Conveys, Concat, Magic, Type, Complete, Pieces, ReadOk, Starts, Checked, AnswerOk, AnswerOf,
      Replies.End, Payload, Count, SmallRead;
    RanOnce(s.log, s.executions, s.workers[w].id, a);
  }

  lemma RanOnce(log: seq<Entry>, executions: seq<nat>, id: nat, a: Answer)
    requires ExecutionsOk(log, executions) && id < |log| && log[id].accepted && log[id].outcome.Pending?
    ensures ExecutionsOk(log[id := log[id].(outcome := Executed(a))], executions + [id])
  {
    var log', executions' := log[id := log[id].(outcome := Executed(a))], executions + [id];
    assert executions'[|executions|] == id;
    forall k | 0 <= k < |log'| ensures Faithful(log'[k], k, executions') {
      assert Faithful(log[k], k, executions);
    }
  }

  lemma LogFollows(log: seq<Entry>, log': seq<Entry>, executions: seq<nat>)
    requires ExecutionsOk(log, executions) && Unexecuted(log, log')
    ensures ExecutionsOk(log', executions)
  {
    forall k | 0 <= k < |log'| ensures Faithful(log'[k], k, executions) {
      assert k < |log| ==> Faithful(log[k], k, executions);
    }
  }

  lemma ExecutionsKept(s: State, w: nat, m: Move)
    requires Inv(s) && w < |s.workers| && Can(s, w, m)
    ensures ExecutionsOk(After(s, w, m).log, After(s, w, m).executions)
  {
    hide Can, After, WorkerOk, ServedOk, RepliesOk, ExecutionsOk, OutputOk, FramingOk, Unexecuted;
    InvWorker(s, w);
    if m.Execute? {
      ExecutedKeeps(s, w, m.a);
    } else {
      NotExecuting(s, w, m);
      LogFollows(s.log, After(s, w, m).log, s.executions);
    }
  }

  predicate Writing(m: Move) { m.LockWrite? || m.GiveUp? || m.Send? || m.Finish? }

  lemma NotWriting(s: State, w: nat, m: Move)
    requires w < |s.workers| && Can(s, w, m) && !Writing(m)
    ensures var s' := After(s, w, m);
            && s'.sent == s.sent && s'.output == s.output && s'.writer == s.writer
            && |s'.workers| == |s.workers| && forall v :: 0 <= v < |s.workers| && v != w ==> s'.workers[v] == s.workers[v]
    ensures !s.workers[w].Sending?
  {
    hide RequestsFrom, IsReply, Conveys, Concat, Magic, Type, Complete, Pieces, Checked, CanFrame, AnswerOk, CanReceive;
  }

  lemma WritingKeeps(s: State, w: nat, m: Move)
    requires Inv(s) && w < |s.workers| && Can(s, w, m) && Writing(m)
    ensures OutputOk(After(s, w, m))
  {
    hide RequestsFrom, IsReply, Conveys, Concat, Frames, Magic, Type, Complete, Pieces, ServedOk, RepliesOk, ExecutionsOk, FramingOk, ReadOk, Starts;
    assert WorkerOk(s, w);
    var f := s.workers[w];
    if m.Send? {
      ConcatNext(f.pieces, f.k);
    } else if m.Finish? {
      assert f.pieces[..f.k] == f.pieces;
      FramesMore(s.sent, Reply(f.id, Concat(f.pieces)));
    } else {
      NothingSent();
    }
  }

  lemma OutputKept(s: State, w: nat, m: Move)
    requires Inv(s) && w < |s.workers| && Can(s, w, m)
    ensures OutputOk(After(s, w, m))
  {
    hide After, Can, Frames, Concat;
    if Writing(m) {
      WritingKeeps(s, w, m);
    } else {
      NotWriting(s, w, m);
    }
  }

  lemma NothingSent()
    ensures Concat([]) == []
  {
  }

  lemma FramesMore(sent: seq<Reply>, r: Reply)
    ensures Concat(Frames(sent + [r])) == Concat(Frames(sent)) + r.frame
  {
    assert Frames(sent + [r]) == Frames(sent) + [r.frame];
    ConcatMore(Frames(sent), r.frame);
  }

  lemma ReaderExists(s: State, w: nat, m: Move)
    requires Inv(s) && w < |s.workers| && Can(s, w, m)
    ensures After(s, w, m).reader.Some? ==> After(s, w, m).reader.value < |After(s, w, m).workers|
  {
    hide RequestsFrom, IsReply, Conveys, Concat, Magic, Type, Complete, Pieces, Checked, CanFrame, AnswerOk, CanReceive,
      WorkerOk, FramingOk, ServedOk, OutputOk, RepliesOk, ExecutionsOk;
  }

  lemma WorkerKeepsInv(s: State, w: nat, m: Move)
    requires Inv(s) && w < |s.workers| && Can(s, w, m)
    ensures Inv(After(s, w, m))
  {
    hide After, Can, WorkerOk, FramingOk, ServedOk, OutputOk, RepliesOk, ExecutionsOk, Rely;
    var s' := After(s, w, m);
    StepRelies(s, w, m);
    assert |s'.workers| == |s.workers| && s'.structured == s.structured by { SameWorkers(s, s', w); }
    forall v | 0 <= v < |s'.workers|
      ensures WorkerOk(s', v)
    {
      if v != w {
        OthersKeep(s, s', w, v);
      } else if Reading(m) {
        ReaderKeeps(s, w, m);
      } else {
        ServerKeeps(s, w, m);
      }
    }
    ReaderExists(s, w, m);
    FramingKept(s, w, m);
    ServedKept(s, w, m);
    RepliesKept(s, w, m);
    ExecutionsKept(s, w, m);
    OutputKept(s, w, m);
  }

  lemma SameWorkers(s: State, s': State, w: nat)
    requires Rely(s, s', w)
    ensures |s'.workers| == |s.workers| && s'.structured == s.structured
  {
  }

  lemma OutsideKeepsInv(s: State, s': State)
    requires Inv(s) && Outside(s, s')
    ensures Inv(s')
  {
    hide RequestsFrom, IsReply, Conveys, Concat, Frames, Magic, Type, Complete, Starts, RepliesOk, ExecutionsOk;
    assert Rely(s, s', |s.workers|);
    forall v | 0 <= v < |s.workers|
      ensures WorkerOk(s', v)
    {
      OthersKeep(s, s', |s.workers|, v);
    }
  }

  /** Every reachable state satisfies the invariant. */
  lemma {:induction false} RunKeepsInv(r: seq<State>)
    requires Run(r)
    ensures Inv(r[|r| - 1])
    ensures r[|r| - 1].wire == r[0].wire
  {
    hide Inv, Init, Outside, After, Can;
    if |r| == 1 {
      InitOk(r[0]);
    } else {
      var before := r[..|r| - 1];
      var s, s' := before[|before| - 1], r[|r| - 1];
      RunKeepsInv(before);
      assert Step(s, s');
      if Outside(s, s') {
        OutsideKeepsInv(s, s');
        assert s'.wire == s.wire by { OutsideWire(s, s'); }
      } else {
        var w, m :| WorkerStep(s, s', w, m);
        WorkerKeepsInv(s, w, m);
        assert s'.wire == s.wire by { InvWorker(s, w); StepRelies(s, w, m); RelyWire(s, s', w); }
      }
    }
  }

  lemma OutsideWire(s: State, s': State)
    requires Outside(s, s')
    ensures s'.wire == s.wire
  {
  }

  lemma InvWorker(s: State, w: nat)
    requires Inv(s) && w < |s.workers|
    ensures WorkerOk(s, w)
  {
  }

  lemma RelyWire(s: State, s': State, w: nat)
    requires Rely(s, s', w)
    ensures s'.wire == s.wire
  {
  }

  // ---------- Why a connection ends ----------

  // A receive that failed, or a header that is garbage.
  predicate Broken(wire: seq<byte>, r: Received) {
    r.Failed? || (r.Got? && (!Complete(wire, r.p) || Magic(wire, r.p) != REQUEST_MAGIC))
  }

  // The end of the wire, or a disconnect.
  predicate Closing(wire: seq<byte>, r: Received) {
    r.Eof? || (r.Got? && Complete(wire, r.p) && Magic(wire, r.p) == REQUEST_MAGIC && Type(wire, r.p) == CMD_DISC)
  }

  /** A worker kills the connection exactly if it could not receive a request or its payload,
      or gives up on a reply, and it notes that the client is done exactly at the end of the
      wire or at a disconnect. */
  lemma EndsBecause(s: State, w: nat, m: Move)
    requires w < |s.workers| && Can(s, w, m) && DEAD < s.status
    ensures var s' := After(s, w, m);
            && (s'.status == DEAD <==> m.GiveUp? || (m.End? && s.workers[w] == Ending(DEAD)))
            && (s'.workers[w] == Ending(DEAD) <==>
                  m == Frame(Lost) || (m.Check? && s.status > CLIENT_DONE && Broken(s.wire, s.workers[w].r)))
            && (s'.workers[w] == Ending(CLIENT_DONE) <==>
                  m.Check? && s.status > CLIENT_DONE && Closing(s.wire, s.workers[w].r))
  {
    hide FromBe, AnswerOk, Pieces, Concat, Replies.End, Payload;
  }

  // ---------- Progress ----------

  // The wire ends inside a header, or the payload is cut off or too large to skip.
  ghost predicate Truncated(s: State, f: Phase) {
    || (f.Locked? && s.pos < |s.wire| < s.pos + HEADER)
    || (f.Validating? && Complete(s.wire, f.p)
        && (Replies.End(s.wire, f.p) > |s.wire| || Payload(s.wire, f.p) > 2 * MAX_REQUEST_SIZE))
  }

  predicate LosesWire(m: Move) { m == Receive(Failed) || m == Frame(Lost) }

  // What becomes of a good header.
  function Framing(wire: seq<byte>, p: nat): Verdict
    requires Complete(wire, p)
  {
    if Replies.End(wire, p) > |wire| || Payload(wire, p) > 2 * MAX_REQUEST_SIZE then Lost
    else if Type(wire, p) in {CMD_READ, CMD_WRITE} && Count(wire, p) > MAX_REQUEST_SIZE then Reject(1)
    else Accept
  }

  lemma FramingIsPossible(s: State, p: nat)
    requires GoodHeader(s.wire, p)
    ensures CanFrame(s, p, Framing(s.wire, p))
  {
    hide FromBe;
  }

  // Something that a worker that does not wait for a lock can do next: it loses the wire
  // only where that is truncated.
  lemma OwnMove(s: State, w: nat) returns (m: Move)
    requires Inv(s) && w < |s.workers| && !s.workers[w].Idle? && !s.workers[w].Entering? && !s.workers[w].Replying?
    ensures Can(s, w, m) && (LosesWire(m) ==> Truncated(s, s.workers[w]))
  {
    hide RequestsFrom, IsReply, Conveys, Concat, Magic, ServedOk, OutputOk, RepliesOk, ExecutionsOk, LeftFrom, AllLogged,
      Type, Count, CanFrame;
    assert WorkerOk(s, w);
    match s.workers[w]
    case Locked => m := Receive(if Complete(s.wire, s.pos) then Got(s.pos) else if s.pos == |s.wire| then Eof else Failed);
    case Checking(r) => m := Check;
    case Ending(value) => m := End;
    case Validating(p, cs) =>
      FramingIsPossible(s, p);
      m := Frame(Framing(s.wire, p));
    case Ready(id, cs) =>
      var p := s.log[id].p;
      var data := if Type(s.wire, p) == CMD_READ then seq(Count(s.wire, p), _ => 0) else [];
      m := if s.quit || cs < ACTIVE then Refuse else Execute(Answer(0, data, [Be(0, 8)]));
    case Done(id, a) => m := Answering;
    case Sending(id, pieces, k) => m := if k < |pieces| then Send else Finish;
  }

  /** As long as some worker is not idle, some worker can go on: a worker waits only for a
      lock, and the worker that holds it never does.  It fails to read only where the wire is
      truncated. */
  lemma SomeWorkerCanGoOn(s: State, w: nat) returns (v: nat, m: Move)
    requires Inv(s) && w < |s.workers| && !s.workers[w].Idle?
    ensures v < |s.workers| && Can(s, v, m) && (LosesWire(m) ==> Truncated(s, s.workers[v]))
  {
    hide FramingOk, ServedOk, RepliesOk, ExecutionsOk, ReadOk, ServeOk, AnswerOk, CanFrame, Complete, Truncated;
    v := w;
    if s.workers[w].Entering? {
      if s.reader.None? {
        return w, LockRead;
      }
      v := s.reader.value;
      assert WorkerOk(s, v);
    } else if s.workers[w].Replying? {
      if s.writer.None? {
        return w, LockWrite;
      }
      v := s.writer.value;
      assert WorkerOk(s, v);
    }
    m := OwnMove(s, v);
  }

  // ---------- The theorem ----------

  // The requests of a log in the order in which they were taken off the wire.
  ghost predicate InWireOrder(s: State) {
    && (forall id :: 0 <= id < |s.log| ==> IsRequest(s.wire, s.log[id].p))
    && (s.log != [] ==> s.log[0].p == 0)
    && forall i, j :: 0 <= i < j < |s.log| && j == i + 1 ==> s.log[j].p == Replies.End(s.wire, s.log[i].p)
  }

  ghost predicate AllIdle(s: State) {
    forall w :: 0 <= w < |s.workers| ==> s.workers[w].Idle?
  }

  ghost predicate Answered(s: State, id: nat) {
    exists i :: 0 <= i < |s.sent| && s.sent[i].id == id
  }

  // Requests from p on follow each other without gaps.
  lemma {:induction false} RequestsAdjoin(wire: seq<byte>, p: nat)
    ensures var ps := RequestsFrom(wire, p);
            && (forall i :: 0 <= i < |ps| ==> IsRequest(wire, ps[i]))
            && (ps != [] ==> ps[0] == p)
            && forall i, j :: 0 <= i < j < |ps| && j == i + 1 ==> ps[j] == Replies.End(wire, ps[i])
    decreases |wire| - p
  {
    hide Magic, Type, Count;
    if IsRequest(wire, p) {
      RequestsAdjoin(wire, Replies.End(wire, p));
    }
  }

  /** In every interleaving: requests are taken off the wire in order, each with exactly its
      payload, and none that follows a disconnect; each is executed at most once and
      answered at most once, by a whole reply with its own cookie, which the client reads as the
      error that the request was refused with or as what the backend answered, and as a success
      only if it was executed; whenever no worker holds
      the write lock the output is a sequence of such replies; once the workers are idle,
      every request taken is answered unless the connection is dead, and if the client has
      disconnected, those are all the requests that it sent before. */
  lemma TransmissionIsSafe(r: seq<State>)
    requires Run(r)
    ensures var s := r[|r| - 1];
            && Starts(s.log) <= RequestsFrom(s.wire, 0) && InWireOrder(s)
            && (forall i :: 0 <= i < |s.executions| ==> s.executions[i] < |s.log| && s.log[s.executions[i]].accepted)
            && (forall i, j :: 0 <= i < j < |s.executions| ==> s.executions[i] != s.executions[j])
            && (forall id :: 0 <= id < |s.log| && s.log[id].outcome.Executed? ==> id in s.executions)
            && (forall i :: 0 <= i < |s.sent| ==>
                  && s.sent[i].id < |s.log|
                  && var e := s.log[s.sent[i].id];
                  && Conveys(s.structured, s.wire, e.p, e.outcome, s.sent[i].frame)
                  && (AnswerOf(e.outcome).error == 0 ==> e.outcome.Executed?))
            && (forall i, j :: 0 <= i < j < |s.sent| ==> s.sent[i].id != s.sent[j].id)
            && (s.writer.None? ==> s.output == Concat(Frames(s.sent)))
            && (AllIdle(s) && s.status > DEAD ==>
                  && (forall id :: 0 <= id < |s.log| ==> Answered(s, id))
                  && (s.status == CLIENT_DONE ==> Starts(s.log) == RequestsFrom(s.wire, 0)))
  {
    hide RequestsFrom, IsReply, Conveys, Concat, Frames, IsRequest, Replies.End, WorkerOk;
    var s := r[|r| - 1];
    RunKeepsInv(r);
    RequestsAdjoin(s.wire, 0);
    LoggedInOrder(s);
    if AllIdle(s) && s.status > DEAD {
      forall id | 0 <= id < |s.log|
        ensures Answered(s, id)
      {
        assert s.log[id].reply.Some?;
        assert s.sent[s.log[id].reply.value].id == id;
      }
    }
  }

  lemma LoggedInOrder(s: State)
    requires Starts(s.log) <= RequestsFrom(s.wire, 0)
    ensures InWireOrder(s)
  {
    hide IsRequest, Replies.End, RequestsFrom;
    RequestsAdjoin(s.wire, 0);
    var ps := RequestsFrom(s.wire, 0);
    assert forall i :: 0 <= i < |s.log| ==> s.log[i].p == ps[i];
  }
}
