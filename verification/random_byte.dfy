/** `getRand`: reduce a non-negative random `int` to a `uint8`. */
module RandomByte {
  import opened Pixels

  /**
   * `getRand`, given the value `n` that `rand.Int()` drew (never negative). The result is
   * `n` itself when it fits in a byte and otherwise stays below 255; either way it agrees
   * with `n` modulo 255.
   */
  function GetRand(n: nat): (r: Uint8)
    ensures n <= 255 ==> r == n
    ensures n > 255 ==> r < 255
    ensures r % 255 == n % 255
  {
    if n > 255 then ToUint8(n % 255) else ToUint8(n)
  }

  /** 255 comes out only for the single draw 255: every larger draw is folded below it. */
  lemma {:induction false} GetRandMaxOnlyFrom255(n: nat)
    ensures GetRand(n) == 255 <==> n == 255
  {
    if n > 255 {
      assert GetRand(n) < 255;
    }
  }
}
