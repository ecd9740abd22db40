/** Go's `int` on a 64-bit platform: two's-complement, wrapping on overflow. */
module GoInt {

  const Modulus: int := 0x1_0000_0000_0000_0000
  const MinInt: int := -0x8000_0000_0000_0000
  const MaxInt: int := 0x7fff_ffff_ffff_ffff

  /** The values a Go `int` can hold. */
  type Int = x: int | MinInt <= x <= MaxInt

  /** The Go `int` that an exact integer result wraps around to. */
  function Wrap(x: int): (r: Int)
    ensures MinInt <= x <= MaxInt ==> r == x
    ensures (x - r) % Modulus == 0
  {
    (x - MinInt) % Modulus + MinInt
  }

  /** Wrapping an intermediate result early does not change a later wrapped sum:
      a loop that wraps after every addition ends where the exact sum wraps to. */
  lemma WrapAddLeft(x: int, y: int)
    ensures Wrap(Wrap(x) + y) == Wrap(x + y)
  {
    var q := (x - MinInt) / Modulus;
    assert Wrap(x) == x - q * Modulus;
    assert (x + y - MinInt - q * Modulus) % Modulus == (x + y - MinInt) % Modulus;
  }
}
