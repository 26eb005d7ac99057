/**
 * Value types shared by every module of the model: Go's byte strings,
 * the int64 range, optional values and the clock.
 */
module GoTypes {

  /** One byte of a Go string. A `char` below 256 stands for the byte with that value. */
  type Byte = c: char | c as int < 256

  /** A Go `string` (or `[]byte`): a sequence of bytes. */
  type GoString = seq<Byte>

  const MinInt64: int := -0x8000_0000_0000_0000
  const MaxInt64: int := 0x7fff_ffff_ffff_ffff

  /** Go's `int64`. */
  type Int64 = x: int | -0x8000_0000_0000_0000 <= x <= 0x7fff_ffff_ffff_ffff

  /** A value that may be absent: a nil pointer, a missing map key, an unset option. */
  datatype Option<+T> = None | Some(value: T)

  /** A value or the text of the `error` that replaced it. */
  datatype Result<+T> = Ok(value: T) | Err(msg: string)

  /** An instant, in nanoseconds since the Unix epoch. */
  type Time = int

  const Second: int := 1_000_000_000
  const Hour: int := 3600 * Second

  /** Go's zero `time.Time{}`: January 1 of year 1, UTC. */
  const ZeroTime: Time := -62_135_596_800 * Second

  /** The clock: `timeNow(k)` is what the k-th reading of the clock within one request returns. */
  type Clock = nat -> Time
}
