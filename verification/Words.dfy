/** The machine integers of the node, with their saturation written out, addresses, and the stock Option type. */
module Words {
  const U64_MAX: nat := 0xFFFF_FFFF_FFFF_FFFF
  const TWO_64: nat := 0x1_0000_0000_0000_0000
  const U256_MAX: nat := 0xFFFF_FFFF_FFFF_FFFF_FFFF_FFFF_FFFF_FFFF_FFFF_FFFF_FFFF_FFFF_FFFF_FFFF_FFFF_FFFF
  const I128_MAX: int := 0x7FFF_FFFF_FFFF_FFFF_FFFF_FFFF_FFFF_FFFF
  const I128_MIN: int := -0x8000_0000_0000_0000_0000_0000_0000_0000

  type u64 = x: nat | x <= U64_MAX
  type u256 = x: nat | x <= U256_MAX
  type i128 = x: int | I128_MIN <= x <= I128_MAX

  type Address = nat

  datatype Option<+T> = None | Some(value: T) {
    function UnwrapOr(default: T): T {
      match this
      case Some(v) => v
      case None => default
    }
  }

  function Min(a: int, b: int): int { if a <= b then a else b }

  function Max(a: int, b: int): int { if a <= b then b else a }

  function SatU64(x: nat): u64 { Min(x, U64_MAX) }

  function SatU256(x: nat): u256 { Min(x, U256_MAX) }

  function SatI128(x: int): i128 { Max(I128_MIN, Min(x, I128_MAX)) }
}
