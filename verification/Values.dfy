/** Small types and constants shared by the models. */
module Values {

  datatype Option<T> = None | Some(value: T)

  /** One more than the largest 64-bit integer. */
  const TWO_63: int := 0x8000_0000_0000_0000
}
