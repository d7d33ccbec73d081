/** Vocabulary shared by the models of the separate server components. */
module Common {

  datatype Option<+T> = None | Some(value: T)

  /** A handler either answers, or fails with one of the source's error replies. */
  datatype Outcome = Ok | Err

  const U32_MAX: nat := 0xFFFF_FFFF
  const U64_MAX: nat := 0xFFFF_FFFF_FFFF_FFFF
  const I64_MAX: int := 0x7FFF_FFFF_FFFF_FFFF
  const I64_MIN: int := -0x8000_0000_0000_0000
}
