/** Small shared datatypes. */
module Common {
  datatype Option<+T> = None | Some(value: T)

  /** A panicking contract call, or a thrown SDK error, returns nothing and changes nothing. */
  datatype Result<+T> = Ok(value: T) | Panic(reason: string)

  function Max(a: int, b: int): int {
    if a < b then b else a
  }

  function Min(a: int, b: int): int {
    if a < b then a else b
  }
}
