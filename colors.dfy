/**
 * The filter colours a colour filter array can report, and their mapping to
 * the channels of an interleaved RGB pixel.
 */
module Colors {

  /** A photosite's filter colour. Emerald belongs to four-colour sensors and has no RGB channel. */
  datatype CfaColor = Red | Green | Blue | Emerald

  /**
   * The colour with ordinal `value` (0 Red, 1 Green, 2 Blue, 3 Emerald).
   * Ordinals above 3 are unreachable in the pipeline, so they are excluded.
   */
  function FromOrdinal(value: nat): (c: CfaColor)
    requires value < 4
    ensures c == Emerald <==> value == 3
    ensures c != Emerald ==> RgbIndex(c) == value
  {
    match value
    case 0 => Red
    case 1 => Green
    case 2 => Blue
    case 3 => Emerald
  }

  /** The channel of an interleaved RGB pixel that holds colour `c`. */
  function RgbIndex(c: CfaColor): (i: nat)
    requires c != Emerald
    ensures i < 3
  {
    match c
    case Red => 0
    case Green => 1
    case Blue => 2
  }

  /** Channel index and colour ordinal agree in both directions on the three RGB colours. */
  lemma OrdinalRoundTrip(value: nat, c: CfaColor)
    ensures value < 3 ==> FromOrdinal(value) != Emerald && RgbIndex(FromOrdinal(value)) == value
    ensures c != Emerald ==> FromOrdinal(RgbIndex(c)) == c
  {
  }
}
