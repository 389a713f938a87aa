/** The payloads of the newstyle options: how the server takes them apart, and the
    encoding that a client has to use. */
module Options {
  import opened Common
  import opened Wire

  const MAX_STRING: nat := 4096

  predicate ValidString(s: seq<byte>) {
    |s| <= MAX_STRING && forall k :: 0 <= k < |s| ==> s[k] != 0
  }

  // check_string: the string of length len at index i of the payload.
  predicate CheckString(data: seq<byte>, i: nat, len: nat, maxlen: nat)
    requires i + maxlen <= |data|
  {
    len <= MAX_STRING && len <= maxlen && forall k :: i <= k < i + len ==> data[k] != 0
  }

  lemma CheckedIsValid(data: seq<byte>, i: nat, len: nat, maxlen: nat)
    requires i + maxlen <= |data|
    ensures CheckString(data, i, len, maxlen) <==> len <= maxlen && ValidString(data[i..i + len])
  {
    if len <= maxlen {
      var s := data[i..i + len];
      assert forall k :: 0 <= k < len ==> s[k] == data[i + k];
      assert forall k :: i <= k < i + len ==> data[k] == s[k - i];
    }
  }

  // The message that check_string logs for a string that it rejects.
  function StringError(optName: string, what: string, len: nat, maxlen: nat): string {
    optName + ": " + what + if len > MAX_STRING || len > maxlen then " too long" else " may not include NUL bytes"
  }

  // ---------- Fields ----------

  lemma {:induction false} BytesRoundTrip(s: seq<byte>)
    ensures Be(FromBe(s), |s|) == s && Fits(FromBe(s), |s|)
  {
    if s != [] {
      BytesRoundTrip(s[..|s| - 1]);
      var high, low := FromBe(s[..|s| - 1]), s[|s| - 1] as nat;
      assert (high * 256 + low) / 256 == high && (high * 256 + low) % 256 == low;
    }
  }

  lemma FieldIs(s: seq<byte>, n: nat, w: nat)
    requires |s| == w
    ensures s == Be(n, w) && Fits(n, w) <==> FromBe(s) == n
  {
    BytesRoundTrip(s);
    FieldRoundTrip(n, w);
  }

  // ---------- NBD_OPT_INFO and NBD_OPT_GO ----------

  datatype Go = Go(name: seq<byte>, infos: seq<nat>)

  function EncodeInfos(infos: seq<nat>): seq<byte> {
    if infos == [] then [] else Be(infos[0], 2) + EncodeInfos(infos[1..])
  }

  function DecodeInfos(s: seq<byte>): seq<nat> {
    if |s| < 2 then [] else [FromBe(s[..2])] + DecodeInfos(s[2..])
  }

  function EncodeGo(g: Go): seq<byte> {
    Be(|g.name|, 4) + g.name + Be(|g.infos|, 2) + EncodeInfos(g.infos)
  }

  ghost predicate ValidGo(g: Go) {
    && ValidString(g.name) && Fits(|g.infos|, 2)
    && forall i :: 0 <= i < |g.infos| ==> Fits(g.infos[i], 2)
  }

  function ParseGo(data: seq<byte>): Option<Go> {
    if |data| < 6 then None
    else
      var len := FromBe(data[..4]);
      if len > |data| - 6 then None
      else
        var nr := FromBe(data[len + 4..len + 6]);
        if |data| != 4 + len + 2 + 2 * nr then None
        else if !CheckString(data, 4, len, |data| - 6) then None
        else Some(Go(data[4..4 + len], DecodeInfos(data[len + 6..])))
  }

  // What is logged about a payload that is not accepted: only a bad export name is.
  function GoError(optName: string, data: seq<byte>): Option<string> {
    if |data| < 6 then None
    else
      var len := FromBe(data[..4]);
      if len > |data| - 6 then None
      else if |data| != 4 + len + 2 + 2 * FromBe(data[len + 4..len + 6]) then None
      else if CheckString(data, 4, len, |data| - 6) then None
      else Some(StringError(optName, "export name", len, |data| - 6))
  }

  lemma {:induction false} InfosRoundTrip(s: seq<byte>, infos: seq<nat>)
    requires |s| == 2 * |infos|
    ensures s == EncodeInfos(infos) && (forall i :: 0 <= i < |infos| ==> Fits(infos[i], 2)) <==> DecodeInfos(s) == infos
  {
    hide Be, FromBe, Fits;
    if infos == [] {
      assert s == [] && DecodeInfos(s) == [];
    } else {
      InfosRoundTrip(s[2..], infos[1..]);
      FieldIs(s[..2], infos[0], 2);
      assert s == s[..2] + s[2..];
      assert infos == [infos[0]] + infos[1..];
      assert (Be(infos[0], 2) + EncodeInfos(infos[1..]))[..2] == Be(infos[0], 2);
      assert (Be(infos[0], 2) + EncodeInfos(infos[1..]))[2..] == EncodeInfos(infos[1..]);
      assert (forall i :: 0 <= i < |infos| ==> Fits(infos[i], 2)) <==>
        Fits(infos[0], 2) && forall i :: 0 <= i < |infos[1..]| ==> Fits(infos[1..][i], 2);
    }
  }

  lemma {:induction false} InfosLength(infos: seq<nat>)
    ensures |EncodeInfos(infos)| == 2 * |infos|
  {
    if infos != [] {
      InfosLength(infos[1..]);
    }
  }

  lemma {:induction false} DecodedLength(s: seq<byte>)
    ensures |DecodeInfos(s)| == |s| / 2
  {
    if |s| >= 2 {
      DecodedLength(s[2..]);
    }
  }

  lemma EncodedGoParses(g: Go)
    requires ValidGo(g)
    ensures ParseGo(EncodeGo(g)) == Some(g)
  {
    hide Be, FromBe, Fits, EncodeInfos, DecodeInfos, CheckString;
    var data := EncodeGo(g);
    var len := |g.name|;
    InfosLength(g.infos);
    FitsInFour(len);
    FieldIs(data[..4], len, 4);
    FieldIs(data[len + 4..len + 6], |g.infos|, 2);
    assert data[4..4 + len] == g.name;
    CheckedIsValid(data, 4, len, |data| - 6);
    assert data[len + 6..] == EncodeInfos(g.infos);
    InfosRoundTrip(data[len + 6..], g.infos);
  }

  lemma ParsedGoEncodes(data: seq<byte>, g: Go)
    requires ParseGo(data) == Some(g)
    ensures ValidGo(g) && data == EncodeGo(g)
  {
    hide Be, FromBe, Fits, EncodeInfos, DecodeInfos, CheckString;
    var len := FromBe(data[..4]);
    var nr := FromBe(data[len + 4..len + 6]);
    CheckedIsValid(data, 4, len, |data| - 6);
    DecodedLength(data[len + 6..]);
    InfosRoundTrip(data[len + 6..], g.infos);
    FieldIs(data[..4], len, 4);
    FieldIs(data[len + 4..len + 6], nr, 2);
    assert data == data[..4] + data[4..4 + len] + data[len + 4..len + 6] + data[len + 6..];
  }

  /** The server accepts exactly the payloads that encode a request for a valid export name. */
  lemma GoRoundTrip(data: seq<byte>, g: Go)
    ensures ParseGo(data) == Some(g) <==> ValidGo(g) && data == EncodeGo(g)
  {
    if ParseGo(data) == Some(g) {
      ParsedGoEncodes(data, g);
    }
    if ValidGo(g) && data == EncodeGo(g) {
      EncodedGoParses(g);
    }
  }

  // ---------- NBD_OPT_LIST_META_CONTEXT and NBD_OPT_SET_META_CONTEXT ----------

  // The queries that are well formed, and whether they are all of them.
  datatype Queries = Queries(list: seq<seq<byte>>, complete: bool)

  // The n queries of the payload at index i.
  function ParseQueries(data: seq<byte>, i: nat, n: nat): Queries
    decreases n
  {
    if n == 0 then Queries([], true)
    else if i + 4 > |data| then Queries([], false)
    else
      var len := FromBe(data[i..i + 4]);
      if !CheckString(data, i + 4, len, |data| - (i + 4)) then Queries([], false)
      else
        var rest := ParseQueries(data, i + 4 + len, n - 1);
        Queries([data[i + 4..i + 4 + len]] + rest.list, rest.complete)
  }

  // What is logged about the first bad query: nothing if its length is missing.
  function QueryError(optName: string, data: seq<byte>, i: nat, n: nat): Option<string>
    decreases n
  {
    if n == 0 || i + 4 > |data| then None
    else
      var len := FromBe(data[i..i + 4]);
      if CheckString(data, i + 4, len, |data| - (i + 4)) then QueryError(optName, data, i + 4 + len, n - 1)
      else Some(StringError(optName, "meta context query", len, |data| - (i + 4)))
  }

  function EncodeQueries(qs: seq<seq<byte>>): seq<byte> {
    if qs == [] then [] else Be(|qs[0]|, 4) + qs[0] + EncodeQueries(qs[1..])
  }

  ghost predicate ValidQueries(qs: seq<seq<byte>>) {
    forall k :: 0 <= k < |qs| ==> ValidString(qs[k])
  }

  // What is parsed stands at i, encoded; and there are n queries exactly if none is bad.
  lemma {:induction false} ParsedQueriesEncode(data: seq<byte>, i: nat, n: nat)
    requires i <= |data|
    ensures var q := ParseQueries(data, i, n);
            && ValidQueries(q.list) && EncodeQueries(q.list) <= data[i..]
            && |q.list| <= n && (q.complete <==> |q.list| == n)
    decreases n
  {
    hide Be, FromBe, Fits, CheckString;
    if n > 0 && i + 4 <= |data| {
      var len := FromBe(data[i..i + 4]);
      CheckedIsValid(data, i + 4, len, |data| - (i + 4));
      if CheckString(data, i + 4, len, |data| - (i + 4)) {
        var rest := ParseQueries(data, i + 4 + len, n - 1);
        ParsedQueriesEncode(data, i + 4 + len, n - 1);
        var q := data[i + 4..i + 4 + len];
        FieldIs(data[i..i + 4], len, 4);
        assert ([q] + rest.list)[1..] == rest.list;
        assert data[i..] == data[i..i + 4] + q + data[i + 4 + len..];
      }
    }
  }

  lemma StandsAt(data: seq<byte>, i: nat, a: seq<byte>, b: seq<byte>, c: seq<byte>)
    requires i <= |data| && a + b + c <= data[i..]
    ensures i + |a| + |b| <= |data| && data[i..i + |a|] == a && data[i + |a|..i + |a| + |b|] == b
    ensures c <= data[i + |a| + |b|..]
  {
    var code := a + b + c;
    assert data[i..][..|code|] == code;
    assert code[..|a|] == a && code[|a|..|a| + |b|] == b;
    assert data[i + |a| + |b|..][..|c|] == code[|a| + |b|..] == c;
  }

  // Encoded queries are all parsed, whatever follows them.
  lemma {:induction false} EncodedQueriesParse(data: seq<byte>, i: nat, qs: seq<seq<byte>>)
    requires i <= |data| && ValidQueries(qs) && EncodeQueries(qs) <= data[i..]
    ensures ParseQueries(data, i, |qs|) == Queries(qs, true)
    decreases |qs|
  {
    hide Be, FromBe, Fits, CheckString;
    if qs != [] {
      var len := |qs[0]|;
      assert EncodeQueries(qs) == Be(len, 4) + qs[0] + EncodeQueries(qs[1..]);
      StandsAt(data, i, Be(len, 4), qs[0], EncodeQueries(qs[1..]));
      FitsInFour(len);
      FieldIs(data[i..i + 4], len, 4);
      CheckedIsValid(data, i + 4, len, |data| - (i + 4));
      EncodedQueriesParse(data, i + 4 + len, qs[1..]);
      assert qs == [qs[0]] + qs[1..];
    }
  }

  /** n queries are accepted exactly if the payload at i starts with their encoding. */
  lemma QueriesRoundTrip(data: seq<byte>, i: nat, qs: seq<seq<byte>>)
    requires i <= |data|
    ensures ParseQueries(data, i, |qs|) == Queries(qs, true) <==> ValidQueries(qs) && EncodeQueries(qs) <= data[i..]
  {
    ParsedQueriesEncode(data, i, |qs|);
    if ValidQueries(qs) && EncodeQueries(qs) <= data[i..] {
      EncodedQueriesParse(data, i, qs);
    }
  }
}
