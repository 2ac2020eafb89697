/** The optional value and the machine word shared by every module. */
module Wrappers {

  datatype Option<+T> = None | Some(value: T)

  const U64_MAX: nat := 0xffff_ffff_ffff_ffff

  type U64 = x: nat | x <= U64_MAX
}
