/**
 * The JFIF marker set: the markers of an image read one at a time from the marker
 * parser, keeping every marker up to and including the first start-of-scan marker.
 */
module JfifMarkerSet {
  import opened Wrappers
  import opened Markers
  import opened Parser

  /** Some marker of `ms` is a start-of-scan marker. */
  predicate HasSos(ms: seq<Marker>) {
    exists i :: 0 <= i < |ms| && ms[i].code == SOS
  }

  /** The markers of `ms` in order, through the first SOS; all of `ms` when it has none. */
  function ThroughFirstSos(ms: seq<Marker>): (r: seq<Marker>)
    ensures r <= ms
    ensures forall i :: 0 <= i < |r| - 1 ==> r[i].code != SOS
    ensures HasSos(ms) <==> |r| > 0 && r[|r| - 1].code == SOS
    ensures !HasSos(ms) ==> r == ms
  {
    if ms == [] then []
    else if ms[0].code == SOS then [ms[0]]
    else
      var rest := ThroughFirstSos(ms[1..]);
      assert HasSos(ms) <==> HasSos(ms[1..]) by {
        if HasSos(ms) {
          var i :| 0 <= i < |ms| && ms[i].code == SOS;
          assert ms[1..][i - 1] == ms[i];
        }
        if HasSos(ms[1..]) {
          var i :| 0 <= i < |ms[1..]| && ms[1..][i].code == SOS;
          assert ms[i + 1] == ms[1..][i];
        }
      }
      assert ms == [ms[0]] + ms[1..];
      [ms[0]] + rest
  }

  /** When the first SOS of `ms` is at `k`, exactly the markers at 0..k are kept. */
  lemma {:induction false} ThroughFirstSosAt(ms: seq<Marker>, k: nat)
    requires k < |ms| && ms[k].code == SOS
    requires !HasSos(ms[..k])
    ensures ThroughFirstSos(ms) == ms[..k + 1]
  {
    var r := ThroughFirstSos(ms);
    assert HasSos(ms);
    assert r[..] == ms[..|r|];
    var last := |r| - 1;
    assert r[last] == ms[last] && ms[last].code == SOS;
    assert forall j :: 0 <= j < k ==> ms[..k][j] == ms[j];
    assert k < |r| ==> r[k] == ms[k];
  }

  /** The first position of `ms` whose code is `wanted`, if any. */
  function FirstIndex(ms: seq<Marker>, wanted: Byte -> bool): (r: Option<nat>)
    ensures r.Some? ==> r.value < |ms| && wanted(ms[r.value].code)
    ensures r.Some? ==> forall j :: 0 <= j < r.value ==> !wanted(ms[j].code)
    ensures r.None? ==> forall j :: 0 <= j < |ms| ==> !wanted(ms[j].code)
  {
    if ms == [] then None
    else if wanted(ms[0].code) then Some(0)
    else
      match FirstIndex(ms[1..], wanted)
      case None => None
      case Some(i) => Some(i + 1)
  }

  /** Every marker of `ms` has the variant its code calls for. */
  predicate AllDispatched(ms: seq<Marker>) {
    forall i :: 0 <= i < |ms| ==> Dispatched(ms[i])
  }

  /** The markers an image keeps, in stream order. */
  datatype JfifMarkers = JfifMarkers(markers: seq<Marker>) {

    /** The first start-of-frame marker of the set, if there is one. */
    function Sof(): (r: Option<Marker>)
      ensures r.None? <==> forall j :: 0 <= j < |markers| ==> !IsSofCode(markers[j].code)
      ensures r.Some? ==> exists i :: 0 <= i < |markers| && markers[i] == r.value && IsSofCode(r.value.code)
                                      && forall j :: 0 <= j < i ==> !IsSofCode(markers[j].code)
    {
      match FirstIndex(markers, IsSofCode)
      case Some(i) => Some(markers[i])
      case None => None
    }

    /** The first APP0 marker of the set, if there is one. */
    function App0(): (r: Option<Marker>)
      ensures r.None? <==> forall j :: 0 <= j < |markers| ==> markers[j].code != APP0
      ensures r.Some? ==> exists i :: 0 <= i < |markers| && markers[i] == r.value && r.value.code == APP0
                                      && forall j :: 0 <= j < i ==> markers[j].code != APP0
    {
      match FirstIndex(markers, IsApp0Code)
      case Some(i) => Some(markers[i])
      case None => None
    }
  }

  /**
   * What reading the marker set out of a complete run gives. Markers are taken one at a
   * time and reading stops at the first SOS, so a run that raises only after an SOS
   * never reaches its error.
   */
  function Consume(run: Run): Result<JfifMarkers, Error>
    requires |run.searches| > 0
  {
    if !HasSos(run.markers) && run.raised then Err(NoMarkerFound(run.searches[|run.searches| - 1]))
    else Ok(JfifMarkers(ThroughFirstSos(run.markers)))
  }

  /** A run whose first SOS is its marker `k` leaves the markers at 0..k, whatever follows. */
  lemma ConsumeStopsAtSos(run: Run, k: nat)
    requires |run.searches| > 0 && k < |run.markers|
    requires run.markers[k].code == SOS && !HasSos(run.markers[..k])
    ensures Consume(run) == Ok(JfifMarkers(run.markers[..k + 1]))
  {
    ThroughFirstSosAt(run.markers, k);
  }

  /** A run without SOS leaves all its markers, or its error when it raises. */
  lemma ConsumeWithoutSos(run: Run)
    requires |run.searches| > 0 && !HasSos(run.markers)
    ensures Consume(run) == if run.raised then Err(NoMarkerFound(run.searches[|run.searches| - 1]))
                            else Ok(JfifMarkers(run.markers))
  {
  }

  /**
   * With a factory that keeps the finder's code, an EOI before any SOS is the last marker
   * of the iteration, so the set ends at that EOI. Stopping at the first SOS thus gives the
   * same set as stopping at the first SOS or EOI.
   */
  lemma ConsumeStopsAtEoi<S>(stream: S, finder: Finder, factory: Factory<S>, k: nat)
    requires finder.ScansForward() && KeepsCode(factory, stream)
    requires var run := IterMarkers(stream, finder, factory, 0);
             k < |run.markers| && run.markers[k].code == EOI && !HasSos(run.markers[..k])
    ensures var run := IterMarkers(stream, finder, factory, 0);
            k == |run.markers| - 1 && Consume(run) == Ok(JfifMarkers(run.markers[..k + 1]))
  {
    var run := IterMarkers(stream, finder, factory, 0);
    EoiOnlyAtEnd(stream, finder, factory, 0);
    assert run.markers[..k + 1] == run.markers;
    assert !HasSos(run.markers) by {
      assert forall j :: 0 <= j < k ==> run.markers[..k][j] == run.markers[j];
    }
    ConsumeWithoutSos(run);
  }

  /**
   * Consumes a fresh parser one marker at a time, appending each marker, and stops right
   * after the first SOS. The parser's search log then holds one search per kept marker:
   * nothing after the SOS is searched. Only when the iteration ends without an SOS does
   * the parser make all of its searches.
   */
  method ReadThroughSos<S>(parser: MarkerParser<S>) returns (result: Result<JfifMarkers, Error>)
    requires parser.Valid() && !parser.finished && parser.yielded == []
    modifies parser
    ensures parser.Valid() && result == Consume(parser.run)
    ensures result.Ok? ==> parser.searches == parser.run.searches[..|result.value.markers|]
    ensures result.Err? ==> parser.searches == parser.run.searches
  {
    ghost var run := parser.run;
    var markers: seq<Marker> := [];
    while true
      invariant parser.Valid()
      invariant markers == parser.yielded && !HasSos(markers)
      invariant parser.finished ==> !run.raised
      decreases |run.searches| - |parser.searches|
    {
      var step := parser.Next();
      match step
      case Exhausted =>
        assert markers == run.markers by {
          assert run.markers[..|run.markers|] == run.markers;
        }
        assert run.searches[..|run.searches|] == run.searches;
        ConsumeWithoutSos(run);
        return Ok(JfifMarkers(markers));
      case Raised(error) =>
        assert markers == run.markers by {
          assert run.markers[..|run.markers|] == run.markers;
        }
        assert run.searches[..|run.searches|] == run.searches;
        ConsumeWithoutSos(run);
        return Err(error);
      case Yielded(marker) =>
        ghost var before := markers;
        markers := markers + [marker];
        if marker.code == SOS {
          ConsumeStopsAtSos(run, |before|);
          return Ok(JfifMarkers(markers));
        }
    }
  }

  /**
   * Reads the marker set of a stream: builds a fresh marker parser over it and reads it
   * through the first SOS. `searched` is the parser's search log: a prefix of the complete
   * iteration's searches, with one search per kept marker.
   */
  method FromStream<S>(stream: S, finder: Finder, factory: Factory<S>)
    returns (result: Result<JfifMarkers, Error>, ghost searched: seq<nat>)
    requires finder.ScansForward()
    ensures result == Consume(IterMarkers(stream, finder, factory, 0))
    ensures searched <= IterMarkers(stream, finder, factory, 0).searches
    ensures result.Ok? ==> |searched| == |result.value.markers|
  {
    var parser := new MarkerParser(stream, finder, factory);
    result := ReadThroughSos(parser);
    searched := parser.searches;
  }

  /**
   * A parser yielding SOI, APP0, SOF0, SOS and EOI leaves a marker set of SOI, APP0, SOF0
   * and SOS: the EOI after the SOS is not kept.
   */
  lemma FiveMarkerSet(soi: Marker, app0: Marker, sof: Marker, sos: Marker, eoi: Marker, searches: seq<nat>)
    requires soi.code == SOI && app0.code == APP0 && sof.code == SOF0 && sos.code == SOS && eoi.code == EOI
    requires |searches| == 5
    ensures Consume(Run(searches, [soi, app0, sof, sos, eoi], false)) == Ok(JfifMarkers([soi, app0, sof, sos]))
  {
    var ms := [soi, app0, sof, sos, eoi];
    assert ms[..3] == [soi, app0, sof];
    ThroughFirstSosAt(ms, 3);
    assert ms[..4] == [soi, app0, sof, sos];
  }
}
