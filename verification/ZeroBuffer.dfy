/** is_zero: decide whether a buffer is all zero bytes by checking the first 16
    bytes one at a time and then comparing the buffer with itself shifted by 16. */
module ZeroBuffer {
  import opened Common

  ghost predicate AllZero(s: seq<byte>) {
    forall i :: 0 <= i < |s| ==> s[i] == 0
  }

  // If the first 16 bytes are zero and every later byte equals the one 16
  // places before it, zero propagates to every position.
  lemma {:induction false} ZeroPropagates(s: seq<byte>, i: nat)
    requires 16 <= |s| && i < |s|
    requires AllZero(s[..16])
    requires s[..|s| - 16] == s[16..]
    ensures s[i] == 0
    decreases i
  {
    if i < 16 {
      assert s[..16][i] == s[i];
    } else {
      ZeroPropagates(s, i - 16);
      assert s[..|s| - 16][i - 16] == s[16..][i - 16];
    }
  }

  lemma ShiftedCopyIsZero(s: seq<byte>)
    requires 16 <= |s|
    ensures AllZero(s) <==> AllZero(s[..16]) && s[..|s| - 16] == s[16..]
  {
    if AllZero(s[..16]) && s[..|s| - 16] == s[16..] {
      forall i | 0 <= i < |s|
        ensures s[i] == 0
      {
        ZeroPropagates(s, i);
      }
    }
  }

  /** The buffer is `page[pos..pos + size]`. */
  method IsZero(page: array<byte>, pos: nat, size: nat) returns (zero: bool)
    requires pos + size <= page.Length
    ensures zero <==> AllZero(page[pos..pos + size])
  {
    ghost var s := page[pos..pos + size];
    var limit := if size < 16 then size else 16;
    for i := 0 to limit
      invariant forall j :: 0 <= j < i ==> s[j] == 0
    {
      if page[pos + i] != 0 {
        assert s[i] != 0;
        return false;
      }
      assert s[i] == 0;
    }
    if size != limit {
      zero := page[pos..pos + size - 16] == page[pos + 16..pos + size];
      assert page[pos..pos + size - 16] == s[..size - 16];
      assert page[pos + 16..pos + size] == s[16..];
      ShiftedCopyIsZero(s);
      return;
    }
    return true;
  }
}
