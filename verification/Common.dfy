/** Types and machine limits shared by the whole model. */
module Common {
  newtype byte = x: int | 0 <= x < 256

  datatype Option<T> = None | Some(value: T)

  const INT64_MAX: nat := 0x7fff_ffff_ffff_ffff
  const UINT64_RANGE: nat := 0x1_0000_0000_0000_0000
  const UINT32_MAX: nat := 0xffff_ffff

  /** MAX_REQUEST_SIZE: the largest single data request, 64 MiB. */
  const MAX_REQUEST_SIZE: nat := 64 * 1024 * 1024

  /** MAX_EXTENTS: the most extents that a list may hold. */
  const MAX_EXTENTS: nat := 1024 * 1024

  // The sum of two uint64_t values.
  function AddU64(a: nat, b: nat): (r: nat)
    requires a < UINT64_RANGE && b < UINT64_RANGE
    ensures r < UINT64_RANGE
  {
    if a + b < UINT64_RANGE then a + b else a + b - UINT64_RANGE
  }

  // Any number as a uint64_t.
  function WrapU64(x: nat): (r: nat)
    ensures x < UINT64_RANGE ==> r == x
    ensures UINT64_RANGE <= x < 2 * UINT64_RANGE ==> r == x - UINT64_RANGE
  {
    x % UINT64_RANGE
  }

  function Min(a: nat, b: nat): (m: nat)
    ensures m <= a && m <= b && (m == a || m == b)
  {
    if a < b then a else b
  }

  function Max(a: nat, b: nat): (m: nat)
    ensures a <= m && b <= m && (m == a || m == b)
  {
    if a < b then b else a
  }
}
