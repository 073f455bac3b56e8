/** Fixed-width machine integers and the two failure-carrying wrappers the
    rest of the model uses. Rust's u8/u16/u32/u64 are newtypes over int, so
    every arithmetic result stored into one of them is checked to fit. */
module Base {

  newtype u8 = x: int | 0 <= x < 0x100
  newtype u16 = x: int | 0 <= x < 0x1_0000
  newtype u32 = x: int | 0 <= x < 0x1_0000_0000
  newtype u64 = x: int | 0 <= x < 0x1_0000_0000_0000_0000

  const U64_MAX: u64 := 0xFFFF_FFFF_FFFF_FFFF

  datatype Option<+T> = None | Some(value: T)

  datatype Result<+T, +E> = Ok(value: T) | Err(error: E) {
    /** Rust's `unwrap_or`: the value, or `default` on any error. */
    function UnwrapOr(default: T): (r: T)
      ensures Ok? ==> r == value
      ensures Err? ==> r == default
    {
      match this
      case Ok(v) => v
      case Err(_) => default
    }
  }
}
