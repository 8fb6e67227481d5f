/** Small types shared by the modules. */
module Common {
  datatype Option<+T> = None | Some(value: T)

  /** A number as it arrives in JSON: absent or null, something `int` rejects, or something `int` accepts. */
  datatype RawInt = Missing | Unparsable | Number(n: int)

  function Max(a: int, b: int): int {
    if a < b then b else a
  }

  function Min(a: int, b: int): int {
    if a < b then a else b
  }

  /** `parse_non_negative_int` */
  function ParseNonNegativeInt(value: RawInt, default: nat): nat {
    if value.Number? then Max(value.n, 0) else default
  }
}
