/** Machine widths, options and the values that several components share. */
module Prelude {

  datatype Option<+T> = None | Some(value: T)

  const U64: nat := 0x1_0000_0000_0000_0000
  const U128: nat := 0x1_0000_0000_0000_0000_0000_0000_0000_0000
  const I64_LIMIT: nat := 0x8000_0000_0000_0000

  newtype byte = b: int | 0 <= b < 256

  type Bytes = seq<byte>
  type Pubkey = Bytes
  type Challenge = Bytes

  /** Arithmetic in a release build: `u64` results are taken modulo 2^64. */
  function WrapU64(x: int): (r: nat)
    ensures r < U64
    ensures 0 <= x < U64 ==> r == x
  {
    x % U64
  }

  predicate IsI64(x: int) {
    -0x8000_0000_0000_0000 <= x < 0x8000_0000_0000_0000
  }

  /** The cast `as i64` of a `u64`. */
  function AsI64(x: nat): (r: int)
    requires x < U64
    ensures IsI64(r)
    ensures WrapU64(r) == x
  {
    if x < I64_LIMIT then x else x - U64
  }

  /** A solution as a client submits it: a digest and the nonce that was hashed. */
  datatype Solution = Solution(digest: Bytes, nonce: nat)

  /** What the pool remembers of one miner's best submission of the epoch. */
  datatype Contribution = Contribution(minerId: int, diff: nat, nonce: nat, hashpower: nat)

  type Contributions = map<Pubkey, Contribution>

  /** A half-open range of nonces. */
  datatype Range = Range(start: nat, end: nat) {
    predicate Contains(nonce: nat) {
      start <= nonce < end
    }
  }

  /** The success message of a round: the interval of proof versions it rewards, the reward, and
      the contributions that share it. */
  datatype Message = Message(
    round: nat, base: nat, latest: nat, rewards: int, challengeId: int, challenge: Challenge,
    bestNonce: nat, totalHashpower: int, contributions: Contributions)
}
