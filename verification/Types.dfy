/** Identifiers and instants shared by every component. */
module Types {

  /** A UUID is its 128-bit value; the database compares UUIDs byte by byte, which is the order of these numbers. */
  type Uuid = u: int | 0 <= u < 0x1_0000_0000_0000_0000_0000_0000_0000_0000

  const MIN_NANOS := -377705116800_000000000
  const MAX_NANOS := 253402300799_999999999

  /** An instant in nanoseconds since the Unix epoch, within the years -9999 to 9999. */
  type Timestamp = t: int | MIN_NANOS <= t <= MAX_NANOS
}
