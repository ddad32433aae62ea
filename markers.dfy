/**
 * JPEG marker codes and the marker records the parser produces.
 *
 * Codes are the marker-type byte that follows the 0xFF prefix, with the values of
 * Annex B, Table B.1 of ITU-T T.81 (ISO/IEC 10918-1).
 */
module Markers {

  newtype Byte = x: int | 0 <= x < 256

  const SOI: Byte := 0xD8   // start of image
  const EOI: Byte := 0xD9   // end of image
  const SOS: Byte := 0xDA   // start of scan
  const APP0: Byte := 0xE0  // application segment 0 (JFIF)
  const SOF0: Byte := 0xC0  // baseline start of frame

  /** The start-of-frame family SOF0..SOF15, which leaves out DHT (0xC4), JPG (0xC8) and DAC (0xCC). */
  predicate IsSofCode(code: Byte) {
    0xC0 <= code <= 0xCF && code != 0xC4 && code != 0xC8 && code != 0xCC
  }

  /** The code of the JFIF application segment. */
  predicate IsApp0Code(code: Byte) {
    code == APP0
  }

  /**
   * One parsed marker segment. `offset` is where the finder reported the segment and
   * `segmentLength` is how far past that offset the next search starts.
   */
  datatype Marker =
    | Generic(code: Byte, offset: nat, segmentLength: nat)
    | App0Marker(code: Byte, offset: nat, segmentLength: nat, horzDpi: nat, vertDpi: nat)
    | SofMarker(code: Byte, offset: nat, segmentLength: nat, pxWidth: nat, pxHeight: nat)

  /** The variant agrees with the code: what a marker factory promises its callers. */
  predicate Dispatched(m: Marker) {
    (IsSofCode(m.code) ==> m.SofMarker?) && (m.code == APP0 ==> m.App0Marker?)
  }

  /** Errors raised while reading the marker set. */
  datatype Error =
    | NoMarkerFound(start: nat)   // the finder ran out of stream searching from `start`
    | MissingSof                  // the marker set holds no start-of-frame marker
    | MissingApp0                 // the marker set holds no APP0 marker
}
