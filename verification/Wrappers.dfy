/** What every part of the model uses. */
module Wrappers {
  datatype Option<T> = None | Some(value: T)

  const TWO64: nat := 0x1_0000_0000_0000_0000
}
