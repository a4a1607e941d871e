// Fixed-width unsigned integers and the result types shared by every module.
module Words {

  const TWO_32: nat := 0x1_0000_0000
  const TWO_64: nat := 0x1_0000_0000_0000_0000
  const TWO_128: nat := TWO_64 * TWO_64
  const TWO_256: nat := TWO_128 * TWO_128

  type uint8 = x: nat | x < 256
  type uint32 = x: nat | x < 0x1_0000_0000
  type uint64 = x: nat | x < 0x1_0000_0000_0000_0000

  type Bytes = seq<uint8>
  type Error = string

  // `x + 1` and `x - 1` on a uint64, which wrap around.
  function Inc64(x: uint64): uint64 {
    (x + 1) % TWO_64
  }

  function Dec64(x: uint64): uint64 {
    (x + TWO_64 - 1) % TWO_64
  }

  // The conversion uint32(n).
  function Trunc32(n: nat): uint32 {
    n % TWO_32
  }

  datatype Option<+T> = None | Some(value: T)

  // A Go call that returns (value, error).
  datatype Result<+T> = Ok(value: T) | Err(error: Error)
}
