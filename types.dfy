/** Machine integer widths and the Option wrapper shared by every module.
    The C sources store values in `uint8_t`, `uint16_t` and `uint32_t`; these
    subset types keep that storage width explicit. A C mask `v & (2^k - 1)` is
    written `v % 2^k`, a shift `v >> k` is `v / 2^k`, and `a | (b << k)` with
    `a < 2^k` (disjoint bits) is `a + b * 2^k`. */
module Types {

  type u8 = x: int | 0 <= x < 0x100
  type u16 = x: int | 0 <= x < 0x1_0000
  type u32 = x: int | 0 <= x < 0x1_0000_0000

  datatype Option<+T> = None | Some(value: T)

  datatype Result<+R, +E> = Success(value: R) | Failure(error: E)
}
