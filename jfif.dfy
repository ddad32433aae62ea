/**
 * The JFIF image header: pixel dimensions from the marker set's start-of-frame marker
 * and resolution from its APP0 marker, with the image's blob and file name carried along.
 */
module Jpeg {
  import opened Wrappers
  import opened Markers
  import opened Parser
  import opened JfifMarkerSet

  /** The header of a JFIF image; `blob` is the image's bytes, passed through untouched. */
  datatype Jfif<B> = Jfif(blob: B, filename: string, pxWidth: nat, pxHeight: nat, horzDpi: nat, vertDpi: nat)

  /** Over `stream` the factory always builds the variant a code calls for. */
  ghost predicate Dispatches<S>(factory: Factory<S>, stream: S) {
    forall code, offset :: Dispatched(factory(code, stream, offset))
  }

  /**
   * The header of an image whose marker set is `markers`: width and height are those of
   * its first start-of-frame marker, resolution that of its first APP0 marker. A set
   * without the one or the other gives no header.
   */
  function FromMarkers<B>(markers: JfifMarkers, blob: B, filename: string): (r: Result<Jfif<B>, Error>)
    requires AllDispatched(markers.markers)
    ensures r.Ok? <==> markers.Sof().Some? && markers.App0().Some?
    ensures markers.Sof().None? ==> r == Err(MissingSof)
    ensures r.Ok? ==> && r.value.pxWidth == markers.Sof().value.pxWidth
                      && r.value.pxHeight == markers.Sof().value.pxHeight
                      && r.value.horzDpi == markers.App0().value.horzDpi
                      && r.value.vertDpi == markers.App0().value.vertDpi
                      && r.value.blob == blob && r.value.filename == filename
  {
    match markers.Sof()
    case None => Err(MissingSof)
    case Some(sof) =>
      match markers.App0()
      case None => Err(MissingApp0)
      case Some(app0) => Ok(Jfif(blob, filename, sof.pxWidth, sof.pxHeight, app0.horzDpi, app0.vertDpi))
  }

  /** Every marker of a run comes from the factory, so a dispatching factory makes them all dispatched. */
  lemma {:induction false} RunIsDispatched<S>(stream: S, finder: Finder, factory: Factory<S>)
    requires finder.ScansForward() && Dispatches(factory, stream)
    ensures AllDispatched(IterMarkers(stream, finder, factory, 0).markers)
  {
    var run := IterMarkers(stream, finder, factory, 0);
    IterMarkersIsTrace(stream, finder, factory, 0);
    forall i | 0 <= i < |run.markers|
      ensures Dispatched(run.markers[i])
    {
      assert Yields(stream, finder, factory, run.searches[i], run.markers[i]);
    }
  }

  /** The header a complete run of the parser leads to. */
  function HeaderOfRun<B>(run: Run, blob: B, filename: string): Result<Jfif<B>, Error>
    requires |run.searches| > 0 && AllDispatched(run.markers)
  {
    match Consume(run)
    case Err(e) => Err(e)
    case Ok(markers) =>
      assert AllDispatched(markers.markers) by {
        forall i | 0 <= i < |markers.markers| ensures Dispatched(markers.markers[i]) {
          assert markers.markers[i] == run.markers[i];
        }
      }
      FromMarkers(markers, blob, filename)
  }

  /**
   * Reads the header of a JFIF stream: builds the marker set once, from `stream`, and
   * takes the four values from it. Errors from reading the marker set propagate unchanged.
   */
  method FromStream<S, B>(stream: S, finder: Finder, factory: Factory<S>, blob: B, filename: string)
    returns (result: Result<Jfif<B>, Error>)
    requires finder.ScansForward() && Dispatches(factory, stream)
    ensures AllDispatched(IterMarkers(stream, finder, factory, 0).markers)
    ensures result == HeaderOfRun(IterMarkers(stream, finder, factory, 0), blob, filename)
  {
    ghost var searched;
    var markers;
    markers, searched := JfifMarkerSet.FromStream(stream, finder, factory);
    RunIsDispatched(stream, finder, factory);
    match markers
    case Err(e) =>
      return Err(e);
    case Ok(markerSet) =>
      return FromMarkers(markerSet, blob, filename);
  }

  /**
   * The reported width and height are those of the first start-of-frame marker the parser
   * yields, and that marker comes before any start-of-scan marker.
   */
  lemma {:induction false} DimensionsFromFirstSof<B>(run: Run, blob: B, filename: string) returns (i: nat)
    requires |run.searches| > 0 && AllDispatched(run.markers)
    requires HeaderOfRun(run, blob, filename).Ok?
    ensures i < |run.markers| && IsSofCode(run.markers[i].code)
    ensures forall j :: 0 <= j < i ==> !IsSofCode(run.markers[j].code) && run.markers[j].code != SOS
    ensures HeaderOfRun(run, blob, filename).value.pxWidth == run.markers[i].pxWidth
    ensures HeaderOfRun(run, blob, filename).value.pxHeight == run.markers[i].pxHeight
  {
    var kept := ThroughFirstSos(run.markers);
    var markerSet := JfifMarkers(kept);
    assert Consume(run) == Ok(markerSet);
    assert HeaderOfRun(run, blob, filename) == FromMarkers(markerSet, blob, filename);
    var sof := markerSet.Sof().value;
    i :| 0 <= i < |kept| && kept[i] == sof && IsSofCode(sof.code)
         && forall j :: 0 <= j < i ==> !IsSofCode(kept[j].code);
    assert kept[i] == run.markers[i];
    forall j | 0 <= j < i
      ensures !IsSofCode(run.markers[j].code) && run.markers[j].code != SOS
    {
      assert kept[j] == run.markers[j];
    }
  }

  /**
   * A marker set whose SOF marker reports 111 by 222 pixels and whose APP0 marker reports
   * 333 by 444 dots per inch gives a header with exactly those values.
   */
  lemma HeaderCopiesMarkerValues(blob: seq<bv8>, filename: string)
    ensures var sof := SofMarker(SOF0, 20, 17, 111, 222);
            var app0 := App0Marker(APP0, 2, 18, 333, 444);
            FromMarkers(JfifMarkers([Generic(SOI, 0, 0), app0, sof, Generic(SOS, 40, 12)]), blob, filename)
            == Ok(Jfif(blob, filename, 111, 222, 333, 444))
  {
    var ms := [Generic(SOI, 0, 0), App0Marker(APP0, 2, 18, 333, 444), SofMarker(SOF0, 20, 17, 111, 222), Generic(SOS, 40, 12)];
    assert ms[2..][1..] == [ms[3]];
    assert FirstIndex(ms[2..], IsSofCode) == Some(0);
    assert ms[1..][1..] == ms[2..];
    assert FirstIndex(ms[1..], IsSofCode) == Some(1);
    assert FirstIndex(ms, IsSofCode) == Some(2);
    assert FirstIndex(ms[1..], IsApp0Code) == Some(0);
    assert FirstIndex(ms, IsApp0Code) == Some(1);
  }
}
