/** Shared vocabulary: Rust's Option/Result and the fixed-width unsigned
    integers the dashboard uses. */
module Base {

  datatype Option<T> = None | Some(value: T)

  datatype Result<T, E> = Ok(value: T) | Err(error: E)

  /** Rust `u8`, `u16`, `u32`: the values, with no arithmetic of their own. */
  type U8 = x: int | 0 <= x < 0x100
  type U16 = x: int | 0 <= x < 0x1_0000
  type U32 = x: int | 0 <= x < 0x1_0000_0000

  /** Unsigned subtraction as a debug build performs it: `None` stands for
      the "attempt to subtract with overflow" panic. */
  function CheckedSub(a: nat, b: nat): (r: Option<nat>)
    ensures r.Some? <==> b <= a
    ensures r.Some? ==> r.value + b == a
  {
    if b <= a then Some(a - b) else None
  }
}
