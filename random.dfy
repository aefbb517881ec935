/**
 * The pipeline's pseudo-random byte source. Its generator is not part of this
 * model: the bytes it yields are an arbitrary given stream, one per draw.
 */
module Random {

  type Byte = b: int | 0 <= b < 256

  class RollingRandom {
    /** The byte yielded by the n-th draw. */
    const bytes: nat -> Byte
    /** How many bytes have been drawn so far. */
    var drawn: nat

    constructor (bytes: nat -> Byte)
      ensures this.bytes == bytes && drawn == 0
    {
      this.bytes := bytes;
      drawn := 0;
    }

    /** Draws the next byte of the stream. */
    method RandomU8() returns (b: Byte)
      modifies this
      ensures b == bytes(old(drawn))
      ensures drawn == old(drawn) + 1
    {
      b := bytes(drawn);
      drawn := drawn + 1;
    }
  }
}
