/** Java platform values the gateway relies on: nullable references, `long`, clock readings. */
module JavaLang {

  /** A Java reference that may be `null`. */
  datatype Option<+T> = None | Some(value: T)

  const LONG_MIN: int := -0x8000_0000_0000_0000
  const LONG_MAX: int := 0x7FFF_FFFF_FFFF_FFFF

  /** `java.lang.Long` values (the boxed value; `null` is `None` where it can occur). */
  type Long = x: int | LONG_MIN <= x <= LONG_MAX

  const INT_MIN: int := -0x8000_0000
  const INT_MAX: int := 0x7FFF_FFFF

  /** A reading of `LocalDateTime.now()`; the clock itself is a parameter of every caller. */
  datatype LocalDateTime = LocalDateTime(ticks: int)
}
