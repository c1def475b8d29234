/**
 * Go byte slices. A Go `string` is an immutable byte sequence and the
 * conversions `[]byte(s)` and `string(bz)` copy bytes unchanged, so domains,
 * values, denominations and addresses are all modelled as `Bytes`.
 */
module ByteStrings {
  newtype byte = x: int | 0 <= x < 256

  type Bytes = seq<byte>
}
