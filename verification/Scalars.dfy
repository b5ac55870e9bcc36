/** Types shared by every module of the model. */
module Scalars {

  datatype Option<+T> = None | Some(value: T)

  /** A C `uint32_t`: mutant ids, table slots, line numbers. */
  type u32 = n: int | 0 <= n < 0x1_0000_0000

  /** The value of `g_active` when no mutant is selected: `(unsigned)-1`. */
  const NO_MUTANT: u32 := 0xFFFF_FFFF
}
