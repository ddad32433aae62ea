# JFIF header reader of python-docx, modelled in Dafny

python-docx reads the pixel size and the print resolution of a JPEG/JFIF image from the
marker segments at the head of the file. Three pieces do this:

- the **marker parser** (`_MarkerParser.iter_markers`) walks the stream forward: it starts
  at offset 0, asks the marker finder for the next marker, has the marker factory build the
  marker at the offset the finder reported, yields it, and searches next from that offset
  plus the marker's segment length. It ends once it has yielded the end-of-image (EOI)
  marker;
- the **marker set** (`_JfifMarkers.from_stream`) takes the parser's markers one at a time
  and keeps them up to and including the first start-of-scan (SOS) marker;
- the **image header** (`Jfif.from_stream`) builds the marker set once, from the stream it
  was given, and copies the width and height of the set's start-of-frame (SOF) marker and
  the horizontal and vertical DPI of its APP0 marker.

The model has five modules:

- `Wrappers` (wrappers.dfy): `Option` and `Result`.
- `Markers` (markers.dfy): marker codes (the values of Annex B, Table B.1 of ITU-T T.81),
  the SOF family, the `Marker` record with its generic, APP0 and SOF variants, and errors.
- `Parser` (parser.dfy): the finder and the factory as function values; the reference
  description of a whole iteration (`IsTrace`), the iteration computed by recursion
  (`IterMarkers`), and the generator itself as the class `MarkerParser`, whose only state
  is the next search offset and whether it has finished. Each `Next()` call is one
  resumption of the generator.
- `JfifMarkerSet` (jfif_markers.dfy): the method that consumes a parser up to the first
  SOS, the pure "through the first SOS" function it is proved against, and the `Sof()` and
  `App0()` lookups.
- `Jpeg` (jfif.dfy): the header and its construction from a stream.

The stream is a type parameter that is only passed through. The finder is a total function
from a search offset to an optional answer, where no answer means the finder raised. The
finder is assumed to scan forward: a reported offset lies after the search start and within
the stream (`Finder.ScansForward`). That is what makes every iteration finite. The factory
is a function of code, stream and offset. `Jpeg.FromStream` also assumes the factory gives
SOF-family codes the SOF variant and APP0 the APP0 variant (`Jpeg.Dispatches`).

## Model

| member | source | states |
|---|---|---|
| `Parser.IterMarkers` | tests/image/test_jpeg.py:165-180 | A complete iteration makes exactly one more search than it yields markers when it ends by raising, and as many searches as markers when it ends at EOI. The first search is at the start offset. |
| `Parser.IterMarkersIsTrace` | tests/image/test_jpeg.py:172-180 | The iteration is a trace. The first search is at the start. Each marker is the factory's marker for the finder's (code, offset) answer to its search, in discovery order. A search is the last one exactly when its answer is EOI or missing. Each later search starts at the previous answer's offset plus the previous marker's segment length, with no extra 2. |
| `Parser.TraceIsIterMarkers` | tests/image/test_jpeg.py:172-180 | Conversely, any run that meets that description is the computed iteration. The searches, the factory calls and the yielded markers are therefore fully determined by the finder and the factory. |
| `Parser.TraceTail` | tests/image/test_jpeg.py:172-174 | After a search answered with a code other than EOI, the rest of a trace is a trace from that answer's offset plus the first marker's segment length. |
| `Parser.TraceCons` | tests/image/test_jpeg.py:172-174 | Conversely, such a search followed by a trace from the resumed offset is a trace. |
| `Parser.TraceStep` | tests/image/test_jpeg.py:172-180 | For search number k of a trace: the finder has no answer exactly at the final search of a raising run. Otherwise marker k is the factory's marker for the answer, the answer is EOI exactly at the last search, and the next search starts at answer offset plus segment length. |
| `Parser.SearchesAdvance` | tests/image/test_jpeg.py:172-174 | Searches move strictly forward through the stream: a later search always starts at a larger offset than an earlier one. |
| `Parser.EoiOnlyAtEnd` | tests/image/test_jpeg.py:172-180 | With a factory that keeps the finder's code, a marker is EOI exactly when it is the last marker of an iteration that does not raise. |
| `Parser.ThreeMarkerIteration` | tests/image/test_jpeg.py:198-216 | Markers SOI, APP0 and EOI at offsets 2, 4 and 22, with segment lengths 0, 16 and 0, give searches at 0, 2 and 20. The three factory markers are yielded in order, and nothing is searched after EOI. |
| `Parser.MarkerParser.constructor` | tests/image/test_jpeg.py:202 | A new parser keeps its stream, finder and factory. Its first search will be at offset 0, and it has searched and yielded nothing yet. |
| `Parser.MarkerParser.Next` | tests/image/test_jpeg.py:165-180 | One resumption searches at the current offset. It then yields the factory's marker for the answer, moves the offset to answer offset plus segment length, and finishes exactly when the answer's code is EOI. When the finder has no answer, it raises the finder's error and finishes. A finished parser searches nothing more. The state stays a prefix of the complete iteration. |
| `Parser.MarkerParser.ListMarkers` | tests/image/test_jpeg.py:170-180 | Listing a fresh parser makes every search of the complete iteration. It returns all its markers in order, or the finder's error when the iteration raises. |
| `JfifMarkerSet.ThroughFirstSos` | tests/image/test_jpeg.py:85-87 | The kept markers are a prefix of the parser's markers, in their original order. There is no SOS before the last kept marker. The last kept marker is SOS exactly when the markers hold an SOS. Without an SOS everything is kept. |
| `JfifMarkerSet.ThroughFirstSosAt` | tests/image/test_jpeg.py:105-109 | When the first SOS is at position k, exactly the markers at positions 0 to k are kept. |
| `JfifMarkerSet.ConsumeStopsAtSos` | tests/image/test_jpeg.py:127-129 | When a run's first SOS is its marker k, the marker set is its markers 0 to k. This holds whatever follows, even a finder error. |
| `JfifMarkerSet.ConsumeWithoutSos` | tests/image/test_jpeg.py:81-88 | A run without SOS gives all of its markers when it ends at EOI, and the finder's error when it raises. |
| `JfifMarkerSet.FirstIndex` | tests/image/test_jpeg.py:55-58 | The position found is the first whose code is wanted. No position is found only when no code is wanted. |
| `JfifMarkerSet.JfifMarkers.Sof` | tests/image/test_jpeg.py:55-56 | The SOF of a marker set is its first marker with a start-of-frame code. It is absent only when the set has no such marker. |
| `JfifMarkerSet.JfifMarkers.App0` | tests/image/test_jpeg.py:57-58 | The APP0 of a marker set is its first marker with the APP0 code. It is absent only when the set has no such marker. |
| `JfifMarkerSet.ReadThroughSos` | tests/image/test_jpeg.py:81-88 | Consuming a fresh parser gives the marker set of its complete iteration. When it gives a set of n markers, the parser's search log is exactly the first n searches of the iteration, so nothing after the first SOS is searched. When it gives the finder's error, the parser has made every search of the iteration. |
| `JfifMarkerSet.FromStream` | tests/image/test_jpeg.py:81-88 | Reading the marker set of a stream builds one fresh parser over that stream and consumes it through the first SOS. The result is the iteration's markers through the first SOS, or the finder's error when the iteration raises before any SOS. |
| `JfifMarkerSet.ConsumeStopsAtEoi` | tests/image/test_jpeg.py:81-88 | With a factory that keeps the finder's code, an EOI before any SOS is the iteration's last marker, and the set ends with it. Stopping at the first SOS then gives the same set as stopping at the first SOS or EOI. |
| `JfifMarkerSet.FiveMarkerSet` | tests/image/test_jpeg.py:105-129 | From a parser that yields SOI, APP0, SOF0, SOS and EOI, the set keeps SOI, APP0, SOF0 and SOS. The trailing EOI is dropped. |
| `Jpeg.FromMarkers` | tests/image/test_jpeg.py:31-38 | The header's px_width and px_height are exactly the set's SOF values, and horz_dpi and vert_dpi are exactly its APP0 values. Blob and filename pass through unchanged. A set without SOF or without APP0 gives no header. |
| `Jpeg.RunIsDispatched` | tests/image/test_jpeg.py:218-223 | Every marker of an iteration comes from the factory. A factory that builds the variant each code calls for therefore leaves every marker with that variant. |
| `Jpeg.FromStream` | tests/image/test_jpeg.py:26-38 | The header of a stream is built from the one marker set read from that stream. Errors from reading the set propagate unchanged. |
| `Jpeg.DimensionsFromFirstSof` | tests/image/test_jpeg.py:35-36 | A header's width and height are those of the first start-of-frame marker the parser yields. That marker comes before any SOS. |
| `Jpeg.HeaderCopiesMarkerValues` | tests/image/test_jpeg.py:50-62 | A set whose SOF says 111 by 222 pixels and whose APP0 says 333 by 444 DPI gives a header with exactly those four values. |

Two choices follow the tests and the code they exercise:

- The next search starts at the reported offset plus the segment length, with no extra 2
  (the searches at 0, 2 and 20 of tests/image/test_jpeg.py:172-174). The finder reports the
  offset just past the two-byte marker code.
- The marker set stops after the first SOS only, judged on the code of the marker the
  factory built. The parser stops on the EOI code the finder reported. When the factory
  keeps the finder's code (`Parser.KeepsCode`), an EOI can only be the last marker, so this
  is the same as stopping at the first SOS or EOI (`JfifMarkerSet.ConsumeStopsAtEoi`). For a
  factory that changes codes the two differ, and the model keeps the SOS-only rule.

## Left out

- `StreamReader` and big-endian reading: the stream is an opaque pass-through value. So is `_MarkerParser.from_stream`, which only wraps the stream in a reader.
- Finder internals (0xFF prefix scanning, fill bytes, 0xFF00 stuffing): the finder is a function parameter with the forward-scan contract above.
- The factory cannot fail: an error raised while building a marker (a length, SOF or APP0 field read past the end of the stream), and its propagation unchanged out of the iteration, the marker set and the header, is not modelled. Only the finder raises.
- Factory dispatch and the field decoding of the APP0 and SOF markers, including centimetre-to-inch DPI conversion: the factory is a function parameter.
- The default of 72 DPI when APP0 is missing or unitless is not modelled. The tests read the APP0 values directly.
- `Jpeg.FromMarkers`: a set lacking SOF or APP0 gives `MissingSof` or `MissingApp0`. Which exception the implementation raises there is not pinned by the tests.
- The implementation file `docx/image/jpeg.py` and `docx/image/constants.py` are not part of this model. The behaviour follows their test suite.
