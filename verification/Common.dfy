/** Value types shared by every component. */
module Common {

  datatype Option<+T> = None | Some(value: T)

  datatype Result<+T, +E> = Ok(value: T) | Err(error: E)

  type byte = x: int | 0 <= x < 0x100
  type u16 = x: int | 0 <= x < 0x1_0000
  type u32 = x: int | 0 <= x < 0x1_0000_0000
  type u64 = x: int | 0 <= x < 0x1_0000_0000_0000_0000

  /** For an index already below twice the modulus, `%` is one conditional subtraction. */
  lemma ModOnce(x: nat, m: nat)
    requires 0 < m && x < 2 * m
    ensures x % m == if x < m then x else x - m
  {
    if m <= x {
      assert x == m * 1 + (x - m);
    }
  }
}
