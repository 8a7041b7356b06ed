/** Machine words and the two-valued results used throughout the model. */
module Words {
  const TWO31: int := 0x8000_0000
  const TWO32: int := 0x1_0000_0000
  const TWO64: int := 0x1_0000_0000_0000_0000

  // Seconds.
  const DAY := 86400

  type u32 = x: int | 0 <= x < TWO32
  type u64 = x: int | 0 <= x < TWO64

  /** The words an engine will produce, by position. */
  datatype Words64 = Words64(word: nat -> u64) {
    function At(p: nat): u64 {
      word(p)
    }
  }

  datatype Option<+T> = None | Some(value: T)

  function Min(a: int, b: int): (m: int) {
    if a <= b then a else b
  }

  function Max(a: int, b: int): (m: int) {
    if a >= b then a else b
  }
}
