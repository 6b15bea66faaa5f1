/**
 * Scalar types and bound values exchanged with the wide-column store:
 * fixed-width integers, UUIDs, instants, and the driver's `QueryValues`.
 */
module Values {

  /** Rust's `i32`. */
  type I32 = x: int | -0x8000_0000 <= x < 0x8000_0000

  /** Rust's `i64`. */
  type I64 = x: int | -0x8000_0000_0000_0000 <= x < 0x8000_0000_0000_0000

  /** A UUID as its sixteen bytes. */
  type Uuid = s: seq<bv8> | |s| == 16 witness NilUuidBytes()

  function NilUuidBytes(): seq<bv8> {
    seq(16, _ => 0 as bv8)
  }

  /** The all-zero UUID `00000000-0000-0000-0000-000000000000`. */
  const NIL_UUID: Uuid := NilUuidBytes()

  /** A point on the UTC time line, in nanoseconds since the Unix epoch. */
  type Instant = int

  /** A signed span of time in nanoseconds, as chrono's `Duration`. */
  type Duration = int

  /** A value bound to a statement placeholder. */
  datatype Value =
    | UuidValue(uuid: Uuid)
    | TextValue(text: string)
    | BigIntValue(bigint: I64)
    | TimestampValue(instant: Instant)
    | BooleanValue(boolean: bool)

  /**
   * The driver's bound-value collection: positional values, or values keyed
   * by column name (a hash map, so without an order).
   */
  datatype QueryValues =
    | SimpleValues(values: seq<Value>)
    | NamedValues(named: map<string, Value>)
}
