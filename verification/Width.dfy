/** The fixed-width integers of the C++ source, written out on unbounded integers. */
module Width {
  type Byte = x: int | 0 <= x < 0x100
  type Half = x: int | 0 <= x < 0x1_0000
  type Word = x: int | 0 <= x < 0x1_0000_0000
  type Sample = x: int | -0x8000 <= x < 0x8000

  /** Conversion to `unsigned int`. */
  function Wrap(x: int): Word {
    x % 0x1_0000_0000
  }

  /** `(int)(a - b)` for two `unsigned int` values. */
  function Diff(a: Word, b: Word): int {
    var d := Wrap(a - b);
    if d < 0x8000_0000 then d else d - 0x1_0000_0000
  }

  function Abs(x: int): nat {
    if x < 0 then -x else x
  }

  lemma WrapCongruent(x: int, y: int, k: int)
    requires x == y + k * 0x1_0000_0000
    ensures Wrap(x) == Wrap(y)
  {
  }

  lemma WrapPlus(x: int, y: int)
    ensures Wrap(Wrap(x) + y) == Wrap(x + y)
  {
    WrapCongruent(Wrap(x) + y, x + y, -(x / 0x1_0000_0000));
  }

  /** The modular difference of two nearby numbers is their true difference. */
  lemma DiffOfNear(x: int, y: int)
    requires -0x8000_0000 <= x - y < 0x8000_0000
    ensures Diff(Wrap(x), Wrap(y)) == x - y
  {
    WrapCongruent(Wrap(x) - Wrap(y), x - y, y / 0x1_0000_0000 - x / 0x1_0000_0000);
  }
}
