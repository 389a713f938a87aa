/** Requests as they stand on the wire, and the replies to them. */
module Replies {
  import opened Common
  import opened Wire

  const REQUEST_MAGIC := 0x25609513
  const SIMPLE_REPLY_MAGIC := 0x67446698
  const STRUCTURED_REPLY_MAGIC := 0x668e33ef

  const CMD_READ := 0
  const CMD_WRITE := 1
  const CMD_DISC := 2
  const CMD_BLOCK_STATUS := 7

  const FLAG_DONE := 1
  const TYPE_OFFSET_DATA := 1
  const TYPE_BLOCK_STATUS := 5
  const TYPE_ERROR := 0x8001

  const HEADER: nat := 28

  // ---------- Requests ----------

  // A request is known by where its header starts.
  predicate Complete(wire: seq<byte>, p: nat) { p + HEADER <= |wire| }

  function Field(wire: seq<byte>, p: nat, from: nat, to: nat): seq<byte>
    requires Complete(wire, p) && from <= to <= HEADER
  {
    wire[p + from..p + to]
  }

  function Magic(wire: seq<byte>, p: nat): nat
    requires Complete(wire, p)
  {
    FromBe(Field(wire, p, 0, 4))
  }

  function Type(wire: seq<byte>, p: nat): nat
    requires Complete(wire, p)
  {
    FromBe(Field(wire, p, 6, 8))
  }

  function Cookie(wire: seq<byte>, p: nat): seq<byte>
    requires Complete(wire, p)
  {
    Field(wire, p, 8, 16)
  }

  function Offset(wire: seq<byte>, p: nat): seq<byte>
    requires Complete(wire, p)
  {
    Field(wire, p, 16, 24)
  }

  function Count(wire: seq<byte>, p: nat): nat
    requires Complete(wire, p)
  {
    FromBe(Field(wire, p, 24, 28))
  }

  function Payload(wire: seq<byte>, p: nat): nat
    requires Complete(wire, p)
  {
    if Type(wire, p) == CMD_WRITE then Count(wire, p) else 0
  }

  function End(wire: seq<byte>, p: nat): nat
    requires Complete(wire, p)
  {
    p + HEADER + Payload(wire, p)
  }

  // A header that neither ends the connection nor is garbage.
  predicate GoodHeader(wire: seq<byte>, p: nat) {
    Complete(wire, p) && Magic(wire, p) == REQUEST_MAGIC && Type(wire, p) != CMD_DISC
  }

  // A request that the server can take off the wire: the payload is all there, and not
  // too large to skip.
  predicate IsRequest(wire: seq<byte>, p: nat) {
    GoodHeader(wire, p) && End(wire, p) <= |wire| && Payload(wire, p) <= 2 * MAX_REQUEST_SIZE
  }

  /** The requests on the wire from p on, up to a disconnect, a bad header, or a payload
      that is cut off or too large: what a server with one thread would see. */
  function RequestsFrom(wire: seq<byte>, p: nat): seq<nat>
    decreases |wire| - p
  {
    if IsRequest(wire, p) then [p] + RequestsFrom(wire, End(wire, p)) else []
  }

  // ---------- Replies ----------

  // What the server has to say: an error code, or the data read, or the block descriptors.
  datatype Answer = Answer(error: nat, data: seq<byte>, blocks: seq<seq<byte>>)

  predicate AnswerOk(wire: seq<byte>, p: nat, a: Answer)
    requires Complete(wire, p)
  {
    && a.error <= UINT32_MAX
    && (a.error == 0 && Type(wire, p) == CMD_READ ==> |a.data| == Count(wire, p) <= MAX_REQUEST_SIZE)
    && (a.error == 0 && Type(wire, p) == CMD_BLOCK_STATUS ==>
          0 < |a.blocks| <= MAX_EXTENTS && forall i :: 0 <= i < |a.blocks| ==> |a.blocks[i]| == 8)
  }

  function SimpleHeader(error: nat, cookie: seq<byte>): seq<byte> {
    Be(SIMPLE_REPLY_MAGIC, 4) + Be(error, 4) + cookie
  }

  function StructuredHeader(kind: nat, cookie: seq<byte>, length: nat): seq<byte> {
    Be(STRUCTURED_REPLY_MAGIC, 4) + Be(FLAG_DONE, 2) + Be(kind, 2) + cookie + Be(length, 4)
  }

  /** The send calls that make up a reply, in order. */
  function Pieces(structured: bool, wire: seq<byte>, p: nat, a: Answer): seq<seq<byte>>
    requires Complete(wire, p)
  {
    var kind := Type(wire, p);
    var cookie := Cookie(wire, p);
    if !structured || (kind != CMD_READ && kind != CMD_BLOCK_STATUS) then
      [SimpleHeader(a.error, cookie)] + if kind == CMD_READ && a.error == 0 then [a.data] else []
    else if a.error != 0 then
      [StructuredHeader(TYPE_ERROR, cookie, 6), Be(a.error, 4) + Be(0, 2)]
    else if kind == CMD_READ then
      [StructuredHeader(TYPE_OFFSET_DATA, cookie, Count(wire, p) + 8), Offset(wire, p), a.data]
    else
      [StructuredHeader(TYPE_BLOCK_STATUS, cookie, 4 + |a.blocks| * 8), Be(1, 4)] + a.blocks
  }

  /** One whole reply to request p, as its reader delimits it: the cookie is that of the
      request, and the length is what the reply itself announces. */
  predicate IsReply(wire: seq<byte>, p: nat, frame: seq<byte>) {
    && Complete(wire, p)
    && |frame| >= 16 && frame[8..16] == Cookie(wire, p)
    && if FromBe(frame[..4]) == STRUCTURED_REPLY_MAGIC then
         |frame| >= 20 && |frame| == 20 + FromBe(frame[16..20])
       else
         && FromBe(frame[..4]) == SIMPLE_REPLY_MAGIC
         && |frame| == 16 + if Type(wire, p) == CMD_READ && FromBe(frame[4..8]) == 0 then Count(wire, p) else 0
  }

  lemma MagicReads(m: nat, rest: seq<byte>)
    requires m <= UINT32_MAX
    ensures FromBe((Be(m, 4) + rest)[..4]) == m
  {
    FitsInFour(m);
    FieldRoundTrip(m, 4);
    assert (Be(m, 4) + rest)[..4] == Be(m, 4);
  }

  lemma SimpleIsReply(wire: seq<byte>, p: nat, error: nat, data: seq<byte>)
    requires Complete(wire, p) && error <= UINT32_MAX
    requires |data| == if Type(wire, p) == CMD_READ && error == 0 then Count(wire, p) else 0
    ensures IsReply(wire, p, SimpleHeader(error, Cookie(wire, p)) + data)
  {
    hide Be, FromBe, Fits;
    var cookie := Cookie(wire, p);
    var frame := SimpleHeader(error, cookie) + data;
    assert frame == Be(SIMPLE_REPLY_MAGIC, 4) + (Be(error, 4) + cookie + data);
    MagicReads(SIMPLE_REPLY_MAGIC, Be(error, 4) + cookie + data);
    assert frame[4..8] == Be(error, 4);
    FitsInFour(error);
    FieldRoundTrip(error, 4);
    assert frame[8..16] == cookie;
  }

  lemma StructuredIsReply(wire: seq<byte>, p: nat, kind: nat, body: seq<byte>)
    requires Complete(wire, p) && |body| <= UINT32_MAX
    ensures IsReply(wire, p, StructuredHeader(kind, Cookie(wire, p), |body|) + body)
  {
    hide Be, FromBe, Fits;
    var cookie := Cookie(wire, p);
    var rest := Be(FLAG_DONE, 2) + Be(kind, 2) + cookie + Be(|body|, 4) + body;
    var frame := StructuredHeader(kind, cookie, |body|) + body;
    assert frame == Be(STRUCTURED_REPLY_MAGIC, 4) + rest;
    MagicReads(STRUCTURED_REPLY_MAGIC, rest);
    assert frame[8..16] == cookie;
    assert frame[16..20] == Be(|body|, 4);
    FitsInFour(|body|);
    FieldRoundTrip(|body|, 4);
  }

  lemma {:induction false} BlocksLength(blocks: seq<seq<byte>>)
    requires forall i :: 0 <= i < |blocks| ==> |blocks[i]| == 8
    ensures |Concat(blocks)| == |blocks| * 8
  {
    if blocks != [] {
      BlocksLength(blocks[..|blocks| - 1]);
    }
  }

  /** What the server sends is one whole reply to the request. */
  lemma PiecesAreReply(structured: bool, wire: seq<byte>, p: nat, a: Answer)
    requires Complete(wire, p) && AnswerOk(wire, p, a)
    ensures IsReply(wire, p, Concat(Pieces(structured, wire, p, a)))
  {
    hide IsReply, SimpleHeader, StructuredHeader, Be;
    var ps := Pieces(structured, wire, p, a);
    var kind := Type(wire, p);
    ConcatFirst(ps);
    if !structured || (kind != CMD_READ && kind != CMD_BLOCK_STATUS) {
      var data := if kind == CMD_READ && a.error == 0 then a.data else [];
      assert Concat(ps[1..]) == data by {
        if kind == CMD_READ && a.error == 0 { ConcatOne(a.data); }
      }
      SimpleIsReply(wire, p, a.error, data);
    } else if a.error != 0 {
      var body := Be(a.error, 4) + Be(0, 2);
      assert ps[1..] == [body];
      ConcatOne(body);
      StructuredIsReply(wire, p, TYPE_ERROR, body);
    } else if kind == CMD_READ {
      assert ps[1..] == [Offset(wire, p)] + [a.data];
      ConcatMore([Offset(wire, p)], a.data);
      ConcatOne(Offset(wire, p));
      StructuredIsReply(wire, p, TYPE_OFFSET_DATA, Offset(wire, p) + a.data);
    } else {
      assert ps[1..] == [Be(1, 4)] + a.blocks;
      ConcatFirst(ps[1..]);
      assert ps[1..][1..] == a.blocks;
      BlocksLength(a.blocks);
      StructuredIsReply(wire, p, TYPE_BLOCK_STATUS, Be(1, 4) + Concat(a.blocks));
    }
  }

  // ---------- What the client reads ----------

  // What a reply means to the client that sent the request.
  datatype Decoded =
    | Failure(error: nat)
    | Success
    | Data(offset: nat, data: seq<byte>)
    | Status(context: nat, blocks: seq<seq<byte>>)

  function Descriptors(body: seq<byte>): seq<seq<byte>> {
    if |body| < 8 then [] else [body[..8]] + Descriptors(body[8..])
  }

  function DecodeSimple(wire: seq<byte>, p: nat, frame: seq<byte>): Option<Decoded>
    requires Complete(wire, p) && |frame| >= 16
  {
    var error := FromBe(frame[4..8]);
    if error != 0 then if |frame| == 16 then Some(Failure(error)) else None
    else if Type(wire, p) == CMD_READ then
      if |frame| == 16 + Count(wire, p) then Some(Data(FromBe(Offset(wire, p)), frame[16..])) else None
    else if |frame| == 16 then Some(Success) else None
  }

  // The payload of a structured reply with only one chunk.
  function DecodeChunk(kind: nat, body: seq<byte>): Option<Decoded> {
    if kind == TYPE_ERROR then
      if |body| < 6 || |body| != 6 + FromBe(body[4..6]) || FromBe(body[..4]) == 0 then None
      else Some(Failure(FromBe(body[..4])))
    else if kind == TYPE_OFFSET_DATA then
      if |body| < 8 then None else Some(Data(FromBe(body[..8]), body[8..]))
    else if kind == TYPE_BLOCK_STATUS then
      if |body| < 12 || |body| % 8 != 4 then None else Some(Status(FromBe(body[..4]), Descriptors(body[4..])))
    else None
  }

  /** A reply to request p as the protocol document tells a client to read it. */
  function Decode(wire: seq<byte>, p: nat, frame: seq<byte>): Option<Decoded>
    requires Complete(wire, p)
  {
    if |frame| < 16 || frame[8..16] != Cookie(wire, p) then None
    else if FromBe(frame[..4]) == SIMPLE_REPLY_MAGIC then DecodeSimple(wire, p, frame)
    else if FromBe(frame[..4]) != STRUCTURED_REPLY_MAGIC || |frame| < 20 then None
    else if |frame| != 20 + FromBe(frame[16..20]) || FromBe(frame[4..6]) != FLAG_DONE then None
    else DecodeChunk(FromBe(frame[6..8]), frame[20..])
  }

  // What the server has to say, in the same terms.
  function Meaning(structured: bool, wire: seq<byte>, p: nat, a: Answer): Decoded
    requires Complete(wire, p)
  {
    if a.error != 0 then Failure(a.error)
    else if Type(wire, p) == CMD_READ then Data(FromBe(Offset(wire, p)), a.data)
    else if Type(wire, p) == CMD_BLOCK_STATUS && structured then Status(1, a.blocks)
    else Success
  }

  lemma DecodesSimple(wire: seq<byte>, p: nat, error: nat, data: seq<byte>)
    requires Complete(wire, p) && error <= UINT32_MAX
    requires |data| == if Type(wire, p) == CMD_READ && error == 0 then Count(wire, p) else 0
    ensures Decode(wire, p, SimpleHeader(error, Cookie(wire, p)) + data) ==
              Some(if error != 0 then Failure(error)
                   else if Type(wire, p) == CMD_READ then Data(FromBe(Offset(wire, p)), data) else Success)
  {
    hide Be, FromBe, Fits;
    var cookie := Cookie(wire, p);
    var frame := SimpleHeader(error, cookie) + data;
    assert frame == Be(SIMPLE_REPLY_MAGIC, 4) + (Be(error, 4) + cookie + data);
    MagicReads(SIMPLE_REPLY_MAGIC, Be(error, 4) + cookie + data);
    assert frame[4..8] == Be(error, 4);
    FitsInFour(error);
    FieldRoundTrip(error, 4);
    assert frame[8..16] == cookie && frame[16..] == data;
  }

  lemma FitsInTwo(n: nat)
    requires n < 0x1_0000
    ensures Fits(n, 2)
  {
    assert Fits(n / 256 / 256, 0);
    assert Fits(n / 256, 1);
  }

  lemma DecodesStructured(wire: seq<byte>, p: nat, kind: nat, body: seq<byte>)
    requires Complete(wire, p) && |body| <= UINT32_MAX && kind < 0x1_0000
    ensures Decode(wire, p, StructuredHeader(kind, Cookie(wire, p), |body|) + body) == DecodeChunk(kind, body)
  {
    hide Be, FromBe, Fits, DecodeChunk;
    var cookie := Cookie(wire, p);
    var rest := Be(FLAG_DONE, 2) + Be(kind, 2) + cookie + Be(|body|, 4) + body;
    var frame := StructuredHeader(kind, cookie, |body|) + body;
    assert frame == Be(STRUCTURED_REPLY_MAGIC, 4) + rest;
    MagicReads(STRUCTURED_REPLY_MAGIC, rest);
    assert frame[4..6] == Be(FLAG_DONE, 2) && frame[6..8] == Be(kind, 2);
    assert frame[8..16] == cookie;
    assert frame[16..20] == Be(|body|, 4) && frame[20..] == body;
    FitsInTwo(FLAG_DONE);
    FieldRoundTrip(FLAG_DONE, 2);
    FitsInTwo(kind);
    FieldRoundTrip(kind, 2);
    FitsInFour(|body|);
    FieldRoundTrip(|body|, 4);
  }

  lemma {:induction false} DescriptorsOf(blocks: seq<seq<byte>>)
    requires forall i :: 0 <= i < |blocks| ==> |blocks[i]| == 8
    ensures Descriptors(Concat(blocks)) == blocks
  {
    if blocks != [] {
      ConcatFirst(blocks);
      DescriptorsOf(blocks[1..]);
      assert Concat(blocks)[..8] == blocks[0] && Concat(blocks)[8..] == Concat(blocks[1..]);
    }
  }

  lemma ErrorDecodes(error: nat)
    requires 0 < error <= UINT32_MAX
    ensures DecodeChunk(TYPE_ERROR, Be(error, 4) + Be(0, 2)) == Some(Failure(error))
  {
    hide Be, FromBe, Fits;
    var body := Be(error, 4) + Be(0, 2);
    assert body[..4] == Be(error, 4) && body[4..6] == Be(0, 2);
    FitsInFour(error);
    FieldRoundTrip(error, 4);
    FitsInTwo(0);
    FieldRoundTrip(0, 2);
  }

  lemma BlocksDecode(blocks: seq<seq<byte>>)
    requires 0 < |blocks| && forall i :: 0 <= i < |blocks| ==> |blocks[i]| == 8
    ensures DecodeChunk(TYPE_BLOCK_STATUS, Be(1, 4) + Concat(blocks)) == Some(Status(1, blocks))
  {
    hide Be, FromBe, Fits;
    var body := Be(1, 4) + Concat(blocks);
    BlocksLength(blocks);
    DescriptorsOf(blocks);
    assert body[..4] == Be(1, 4) && body[4..] == Concat(blocks);
    FitsInFour(1);
    FieldRoundTrip(1, 4);
  }

  lemma DataDecodes(offset: seq<byte>, data: seq<byte>)
    requires |offset| == 8
    ensures DecodeChunk(TYPE_OFFSET_DATA, offset + data) == Some(Data(FromBe(offset), data))
  {
    assert (offset + data)[..8] == offset && (offset + data)[8..] == data;
  }

  /** The client reads exactly what the server has to say, for every command and both styles
      of replies. */
  lemma PiecesDecode(structured: bool, wire: seq<byte>, p: nat, a: Answer)
    requires Complete(wire, p) && AnswerOk(wire, p, a)
    ensures Decode(wire, p, Concat(Pieces(structured, wire, p, a))) == Some(Meaning(structured, wire, p, a))
  {
    hide Decode, DecodeChunk, SimpleHeader, StructuredHeader, Be, FromBe;
    var ps := Pieces(structured, wire, p, a);
    var kind := Type(wire, p);
    ConcatFirst(ps);
    if !structured || (kind != CMD_READ && kind != CMD_BLOCK_STATUS) {
      var data := if kind == CMD_READ && a.error == 0 then a.data else [];
      assert Concat(ps[1..]) == data by {
        if kind == CMD_READ && a.error == 0 { ConcatOne(a.data); }
      }
      DecodesSimple(wire, p, a.error, data);
    } else if a.error != 0 {
      var body := Be(a.error, 4) + Be(0, 2);
      assert ps[1..] == [body];
      ConcatOne(body);
      DecodesStructured(wire, p, TYPE_ERROR, body);
      ErrorDecodes(a.error);
    } else if kind == CMD_READ {
      assert ps[1..] == [Offset(wire, p)] + [a.data];
      ConcatMore([Offset(wire, p)], a.data);
      ConcatOne(Offset(wire, p));
      DecodesStructured(wire, p, TYPE_OFFSET_DATA, Offset(wire, p) + a.data);
      DataDecodes(Offset(wire, p), a.data);
    } else {
      assert ps[1..] == [Be(1, 4)] + a.blocks;
      ConcatFirst(ps[1..]);
      assert ps[1..][1..] == a.blocks;
      BlocksLength(a.blocks);
      DecodesStructured(wire, p, TYPE_BLOCK_STATUS, Be(1, 4) + Concat(a.blocks));
      BlocksDecode(a.blocks);
    }
  }
}
