/** Big-endian fields and byte streams. */
module Wire {
  import opened Common

  // The w bytes of an integer field, most significant first.
  function Be(n: nat, w: nat): (s: seq<byte>)
    ensures |s| == w
  {
    if w == 0 then [] else Be(n / 256, w - 1) + [(n % 256) as byte]
  }

  function FromBe(s: seq<byte>): nat {
    if s == [] then 0 else FromBe(s[..|s| - 1]) * 256 + s[|s| - 1] as nat
  }

  predicate Fits(n: nat, w: nat) {
    if w == 0 then n == 0 else Fits(n / 256, w - 1)
  }

  /** A field reads back as the number that was put in, exactly if that number fits. */
  lemma {:induction false} FieldRoundTrip(n: nat, w: nat)
    ensures FromBe(Be(n, w)) == n <==> Fits(n, w)
  {
    if w > 0 {
      FieldRoundTrip(n / 256, w - 1);
      assert Be(n, w)[..w - 1] == Be(n / 256, w - 1);
      assert n == n / 256 * 256 + n % 256;
    }
  }

  lemma FitsInFour(n: nat)
    requires n <= UINT32_MAX
    ensures Fits(n, 4)
  {
    var a := n / 256;
    var b := a / 256;
    var c := b / 256;
    assert Fits(c / 256, 0);
    assert Fits(c, 1);
    assert Fits(b, 2);
    assert Fits(a, 3);
  }

  function Concat(pieces: seq<seq<byte>>): seq<byte> {
    if pieces == [] then [] else Concat(pieces[..|pieces| - 1]) + pieces[|pieces| - 1]
  }

  lemma ConcatMore(pieces: seq<seq<byte>>, piece: seq<byte>)
    ensures Concat(pieces + [piece]) == Concat(pieces) + piece
  {
    assert (pieces + [piece])[..|pieces|] == pieces;
  }

  lemma ConcatOne(piece: seq<byte>)
    ensures Concat([piece]) == piece
  {
    assert [piece][..0] == [];
  }

  lemma ConcatNext(pieces: seq<seq<byte>>, k: nat)
    requires k < |pieces|
    ensures Concat(pieces[..k + 1]) == Concat(pieces[..k]) + pieces[k]
  {
    assert pieces[..k + 1] == pieces[..k] + [pieces[k]];
    ConcatMore(pieces[..k], pieces[k]);
  }

  lemma {:induction false} ConcatFirst(pieces: seq<seq<byte>>)
    requires pieces != []
    ensures Concat(pieces) == pieces[0] + Concat(pieces[1..])
  {
    if |pieces| > 1 {
      var front := pieces[..|pieces| - 1];
      ConcatFirst(front);
      assert pieces[1..][..|pieces| - 2] == front[1..];
      calc {
        Concat(pieces);
        Concat(front) + pieces[|pieces| - 1];
        pieces[0] + Concat(front[1..]) + pieces[|pieces| - 1];
        pieces[0] + (Concat(front[1..]) + pieces[|pieces| - 1]);
        pieces[0] + Concat(pieces[1..]);
      }
    } else {
      assert Concat(pieces[..0]) == [];
    }
  }

  lemma Regroup<T>(a: seq<T>, x: T, rest: seq<T>)
    ensures a + ([x] + rest) == (a + [x]) + rest
    ensures (a + [x])[..|a|] == a && (a + [x])[|a|] == x
  {
  }
}
