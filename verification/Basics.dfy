/** Machine integers, byte strings and the fixed-width integer encodings shared by every component. */
module Basics {
  datatype Option<+T> = None | Some(value: T)

  datatype Result<+T, +E> = Ok(value: T) | Err(error: E)

  const U16_MAX: int := 0xFFFF
  const U32_MAX: int := 0xFFFF_FFFF
  const U64_MAX: int := 0xFFFF_FFFF_FFFF_FFFF
  const U128_MAX: int := 0xFFFF_FFFF_FFFF_FFFF_FFFF_FFFF_FFFF_FFFF

  /** Raw units to one coin. */
  const PWM_RAW_SCALE: int := 1_000_000

  type byte = x: int | 0 <= x <= 0xFF
  type u16 = x: int | 0 <= x <= U16_MAX
  type u32 = x: int | 0 <= x <= U32_MAX
  type u64 = x: int | 0 <= x <= U64_MAX
  type u128 = x: int | 0 <= x <= U128_MAX

  function Min(a: int, b: int): int { if a <= b then a else b }

  // The saturating operations of the standard library, for the two widths that are used.

  function SatAdd64(a: u64, b: u64): u64 { Min(a + b, U64_MAX) }

  function SatMul64(a: u64, b: u64): u64 {
    assert 0 <= a * b;
    Min(a * b, U64_MAX)
  }

  function SatAdd128(a: u128, b: u128): u128 { Min(a + b, U128_MAX) }

  function SatMul128(a: u128, b: u128): u128 {
    assert 0 <= a * b;
    Min(a * b, U128_MAX)
  }

  const ZEROS32: seq<byte> := [
    0, 0, 0, 0, 0, 0, 0, 0, 0, 0, 0, 0, 0, 0, 0, 0,
    0, 0, 0, 0, 0, 0, 0, 0, 0, 0, 0, 0, 0, 0, 0, 0]

  /** Digests, public keys and account ids: exactly 32 bytes. */
  type Bytes32 = s: seq<byte> | |s| == 32 witness ZEROS32

  /** Signatures: exactly 64 bytes. */
  type Bytes64 = s: seq<byte> | |s| == 64 witness ZEROS32 + ZEROS32

  /** BLAKE3, left uninterpreted: any function from byte strings to digests. */
  type Hasher = seq<byte> -> Bytes32

  /** No two distinct members of `inputs` have the same digest. */
  ghost predicate CollisionFree(hash: Hasher, inputs: set<seq<byte>>) {
    forall x, y :: x in inputs && y in inputs && hash(x) == hash(y) ==> x == y
  }

  lemma FewerCollide(hash: Hasher, few: set<seq<byte>>, many: set<seq<byte>>)
    requires few <= many && CollisionFree(hash, many)
    ensures CollisionFree(hash, few)
  {
  }

  ghost predicate Distinct<T>(xs: seq<T>) { forall i, j :: 0 <= i < j < |xs| ==> xs[i] != xs[j] }

  function Pow256(k: nat): nat { if k == 0 then 1 else 256 * Pow256(k - 1) }

  /** The `k` low bytes of `n`, least significant first. */
  function LE(n: nat, k: nat): (bs: seq<byte>)
    ensures |bs| == k
  {
    if k == 0 then [] else [n % 256] + LE(n / 256, k - 1)
  }

  function FromLE(bs: seq<byte>): nat {
    if bs == [] then 0 else bs[0] + 256 * FromLE(bs[1..])
  }

  lemma {:induction false} FromLEOfLE(n: nat, k: nat)
    requires n < Pow256(k)
    ensures FromLE(LE(n, k)) == n
  {
    if k > 0 {
      FromLEOfLE(n / 256, k - 1);
      assert LE(n, k)[1..] == LE(n / 256, k - 1);
    }
  }

  lemma WidthBounds()
    ensures Pow256(1) == 0xFF + 1
    ensures Pow256(2) == U16_MAX + 1
    ensures Pow256(4) == U32_MAX + 1
    ensures Pow256(8) == U64_MAX + 1
    ensures Pow256(16) == U128_MAX + 1
  {
  }

  /** The `k` low bytes of `n`, most significant first. */
  function BE(n: nat, k: nat): (bs: seq<byte>)
    ensures |bs| == k
  {
    if k == 0 then [] else BE(n / 256, k - 1) + [n % 256]
  }

  function FromBE(bs: seq<byte>): nat {
    if bs == [] then 0 else 256 * FromBE(bs[..|bs| - 1]) + bs[|bs| - 1]
  }

  lemma {:induction false} FromBEOfBE(n: nat, k: nat)
    requires n < Pow256(k)
    ensures FromBE(BE(n, k)) == n
  {
    if k > 0 {
      FromBEOfBE(n / 256, k - 1);
      assert BE(n, k)[..k - 1] == BE(n / 256, k - 1);
    }
  }

  lemma {:induction false} BEOfFromBE(bs: seq<byte>)
    ensures FromBE(bs) < Pow256(|bs|)
    ensures BE(FromBE(bs), |bs|) == bs
  {
    if bs != [] {
      BEOfFromBE(bs[..|bs| - 1]);
    }
  }
}
