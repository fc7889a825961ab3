/** Arithmetic on 32-bit words. */
module Word32 {
  const TWO32 := 0x1_0000_0000

  type Word = x: int | 0 <= x < 0x1_0000_0000

  /** The 32-bit word of a number. */
  function Low(x: int): (r: int)
    ensures 0 <= r < TWO32
  {
    x % TWO32
  }

  lemma LowIsRemainder(x: int)
    ensures Low(x) == x % TWO32
  {
  }

  /** The word as a signed number. */
  function ToInt32(x: int): int {
    var w := Low(x);
    if w >= 0x8000_0000 then w - TWO32 else w
  }

  lemma WrapMultiple(x: int, k: int)
    ensures Low(x + k * TWO32) == Low(x)
  {
    LowIsRemainder(x);
    LowIsRemainder(x + k * TWO32);
    assert x == (x / TWO32) * TWO32 + x % TWO32;
    Quotient(x + k * TWO32, x / TWO32 + k, x % TWO32);
  }

  lemma Quotient(y: int, q: int, r: int)
    requires y == q * TWO32 + r && 0 <= r < TWO32
    ensures y % TWO32 == r
  {
    var q' := y / TWO32;
    assert (q - q') * TWO32 == y % TWO32 - r;
  }

  lemma LowAdds(x: int, y: int)
    ensures Low(Low(x) + y) == Low(x + y)
    ensures Low(Low(x) + Low(y)) == Low(x + y)
  {
    LowIsRemainder(x); LowIsRemainder(y);
    assert x == (x / TWO32) * TWO32 + Low(x) && y == (y / TWO32) * TWO32 + Low(y);
    WrapMultiple(Low(x) + y, x / TWO32);
    WrapMultiple(Low(x) + Low(y), x / TWO32 + y / TWO32);
  }
}
