/** Options, results, the 64-bit bound and the wrap-around that every component shares. */
module Wrappers {

  datatype Option<+T> = None | Some(value: T)

  datatype Result<+T, +E> = Ok(value: T) | Err(error: E)

  /** The largest value of a 64-bit signed column or variable. */
  const MAX_I64: int := 0x7FFF_FFFF_FFFF_FFFF

  function Min(a: int, b: int): int { if a <= b then a else b }

  /** 64-bit and 16-bit signed wrap-around. */
  function WrapI64(x: int): int { (x + 0x8000_0000_0000_0000) % 0x1_0000_0000_0000_0000 - 0x8000_0000_0000_0000 }

  function WrapI16(x: int): int { (x + 0x8000) % 0x1_0000 - 0x8000 }

  /** Whole turns of the 64-bit range drop out. */
  lemma WrapsAround(x: int, turns: int)
    requires -0x8000_0000_0000_0000 <= x - turns * 0x1_0000_0000_0000_0000 < 0x8000_0000_0000_0000
    ensures WrapI64(x) == x - turns * 0x1_0000_0000_0000_0000
  {
    var y := x - turns * 0x1_0000_0000_0000_0000 + 0x8000_0000_0000_0000;
    assert x + 0x8000_0000_0000_0000 == turns * 0x1_0000_0000_0000_0000 + y;
  }
}
