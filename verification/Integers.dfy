/** The machine integers of the contracts and of the signer. */
module Integers {
  const U64_LIMIT: nat := 0x1_0000_0000_0000_0000
  const U128_LIMIT: nat := U64_LIMIT * U64_LIMIT

  type u64 = n: nat | n < U64_LIMIT
  type u128 = n: nat | n < U128_LIMIT
}
