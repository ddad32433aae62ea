/**
 * The marker parser: a forward-only scan that alternates between the marker finder and
 * the marker factory, starting at offset 0 and ending once the end-of-image marker has
 * been produced.
 *
 * The finder and the factory are collaborators whose internals are not modelled; they
 * enter as function values. The stream is an opaque value of type S that is only passed
 * through to the factory.
 */
module Parser {
  import opened Wrappers
  import opened Markers

  /**
   * A marker finder over one stream. `next(start)` is the code and offset of the first
   * marker found scanning forward from `start`, or None when the finder raises because
   * the stream ends first.
   */
  datatype Finder = Finder(next: nat -> Option<Found>, streamLength: nat) {

    /** A found marker lies strictly after the search start and within the stream. */
    ghost predicate ScansForward() {
      forall start: nat :: next(start).Some? ==> start < next(start).value.offset <= streamLength
    }
  }

  /** One answer of the finder: a marker code and the offset it reports for the segment. */
  datatype Found = Found(code: Byte, offset: nat)

  /** A marker factory: builds the marker for a code found at an offset of a stream. */
  type Factory<-S> = (Byte, S, nat) -> Marker

  /** The factory gives every marker it builds from `stream` the code it was asked for. */
  ghost predicate KeepsCode<S>(factory: Factory<S>, stream: S) {
    forall code, offset :: factory(code, stream, offset).code == code
  }

  /**
   * Everything a complete iteration does: the offsets it hands to the finder, in order,
   * the markers it yields, in order, and whether it ends by raising the finder's error
   * (otherwise it ends right after yielding the end-of-image marker).
   */
  datatype Run = Run(searches: seq<nat>, markers: seq<Marker>, raised: bool)

  /** The finder reports a marker at `search` and the factory builds `m` from that answer. */
  ghost predicate Yields<S>(stream: S, finder: Finder, factory: Factory<S>, search: nat, m: Marker) {
    finder.next(search).Some? &&
    m == factory(finder.next(search).value.code, stream, finder.next(search).value.offset)
  }

  /** The finder reports the end-of-image marker at `search`. */
  ghost predicate FoundEoi(finder: Finder, search: nat) {
    finder.next(search).Some? && finder.next(search).value.code == EOI
  }

  /** Where the search after a marker `m` found at `search` starts: no extra skip past the code. */
  function Resume(finder: Finder, search: nat, m: Marker): nat
    requires finder.next(search).Some?
  {
    finder.next(search).value.offset + m.segmentLength
  }

  /**
   * The reference description of an iteration started at `start`: the first search is at
   * `start`; each yielded marker is the factory's marker for the finder's answer to the
   * corresponding search; a search is the last one exactly when its answer is EOI or
   * missing; each later search starts at the previous answer's offset plus the previous
   * marker's segment length.
   */
  ghost predicate IsTrace<S>(stream: S, finder: Finder, factory: Factory<S>, start: nat, run: Run) {
    && |run.searches| == |run.markers| + (if run.raised then 1 else 0)
    && |run.searches| > 0
    && run.searches[0] == start
    && (forall k :: 0 <= k < |run.markers| ==>
          && Yields(stream, finder, factory, run.searches[k], run.markers[k])
          && (FoundEoi(finder, run.searches[k]) <==> k + 1 == |run.searches|))
    && (forall k :: 0 <= k < |run.markers| && k + 1 < |run.searches| ==>
          run.searches[k + 1] == Resume(finder, run.searches[k], run.markers[k]))
    && (run.raised ==> finder.next(run.searches[|run.searches| - 1]).None?)
    && (!run.raised ==> FoundEoi(finder, run.searches[|run.searches| - 1]))
  }

  /** The whole iteration from `start`, computed by recursion on the remaining stream. */
  function IterMarkers<S>(stream: S, finder: Finder, factory: Factory<S>, start: nat): (run: Run)
    requires finder.ScansForward()
    ensures |run.searches| == |run.markers| + (if run.raised then 1 else 0)
    ensures |run.searches| > 0 && run.searches[0] == start
    decreases finder.streamLength - start
  {
    match finder.next(start)
    case None => Run([start], [], true)
    case Some(Found(code, offset)) =>
      var marker := factory(code, stream, offset);
      if code == EOI then Run([start], [marker], false)
      else
        var rest := IterMarkers(stream, finder, factory, offset + marker.segmentLength);
        Run([start] + rest.searches, [marker] + rest.markers, rest.raised)
  }

  /** A search answered by a code other than EOI, followed by a trace from the resumed offset, is a trace. */
  lemma TraceCons<S>(stream: S, finder: Finder, factory: Factory<S>, start: nat, rest: Run)
    requires finder.next(start).Some? && finder.next(start).value.code != EOI
    requires var marker := factory(finder.next(start).value.code, stream, finder.next(start).value.offset);
             IsTrace(stream, finder, factory, Resume(finder, start, marker), rest)
    ensures var marker := factory(finder.next(start).value.code, stream, finder.next(start).value.offset);
            IsTrace(stream, finder, factory, start, Run([start] + rest.searches, [marker] + rest.markers, rest.raised))
  {
    var marker := factory(finder.next(start).value.code, stream, finder.next(start).value.offset);
    var run := Run([start] + rest.searches, [marker] + rest.markers, rest.raised);
    forall k | 0 <= k < |run.markers|
      ensures && Yields(stream, finder, factory, run.searches[k], run.markers[k])
              && (FoundEoi(finder, run.searches[k]) <==> k + 1 == |run.searches|)
              && (k + 1 < |run.searches| ==> run.searches[k + 1] == Resume(finder, run.searches[k], run.markers[k]))
    {
      if k > 0 {
        assert run.searches[k] == rest.searches[k - 1] && run.markers[k] == rest.markers[k - 1];
        assert k + 1 < |run.searches| ==> run.searches[k + 1] == rest.searches[k];
      }
    }
    assert run.searches[|run.searches| - 1] == rest.searches[|rest.searches| - 1];
  }

  /** The computed iteration meets the reference description. */
  lemma {:induction false} IterMarkersIsTrace<S>(stream: S, finder: Finder, factory: Factory<S>, start: nat)
    requires finder.ScansForward()
    ensures IsTrace(stream, finder, factory, start, IterMarkers(stream, finder, factory, start))
    decreases finder.streamLength - start
  {
    match finder.next(start)
    case None =>
    case Some(Found(code, offset)) =>
      var marker := factory(code, stream, offset);
      if code != EOI {
        var resume := offset + marker.segmentLength;
        IterMarkersIsTrace(stream, finder, factory, resume);
        TraceCons(stream, finder, factory, start, IterMarkers(stream, finder, factory, resume));
      }
  }

  /** Dropping the first search and marker of a trace that continues past it leaves a trace from the resumed offset. */
  lemma TraceTail<S>(stream: S, finder: Finder, factory: Factory<S>, start: nat, run: Run)
    requires IsTrace(stream, finder, factory, start, run)
    requires finder.next(start).Some? && finder.next(start).value.code != EOI
    ensures |run.markers| > 0 && |run.searches| > 1
    ensures run.markers[0] == factory(finder.next(start).value.code, stream, finder.next(start).value.offset)
    ensures IsTrace(stream, finder, factory, Resume(finder, start, run.markers[0]),
                    Run(run.searches[1..], run.markers[1..], run.raised))
  {
    assert Yields(stream, finder, factory, run.searches[0], run.markers[0]);
    var rest := Run(run.searches[1..], run.markers[1..], run.raised);
    forall k | 0 <= k < |rest.markers|
      ensures && Yields(stream, finder, factory, rest.searches[k], rest.markers[k])
              && (FoundEoi(finder, rest.searches[k]) <==> k + 1 == |rest.searches|)
              && (k + 1 < |rest.searches| ==> rest.searches[k + 1] == Resume(finder, rest.searches[k], rest.markers[k]))
    {
      assert rest.markers[k] == run.markers[k + 1];
      assert rest.searches[k] == run.searches[k + 1];
      if k + 1 < |rest.searches| {
        assert rest.searches[k + 1] == run.searches[k + 2];
      }
    }
    assert rest.searches[|rest.searches| - 1] == run.searches[|run.searches| - 1];
  }

  /** Conversely, the reference description admits exactly one run: the computed one. */
  lemma {:induction false} TraceIsIterMarkers<S>(stream: S, finder: Finder, factory: Factory<S>, start: nat, run: Run)
    requires finder.ScansForward()
    requires IsTrace(stream, finder, factory, start, run)
    ensures run == IterMarkers(stream, finder, factory, start)
    decreases |run.searches|
  {
    match finder.next(start)
    case None =>
      assert run.searches == [start] && run.markers == [] && run.raised by {
        TraceStep(stream, finder, factory, start, run, 0);
      }
    case Some(Found(code, offset)) =>
      var marker := factory(code, stream, offset);
      if code == EOI {
        assert run.searches == [start] && run.markers == [marker] && !run.raised by {
          TraceStep(stream, finder, factory, start, run, 0);
        }
      } else {
        var resume := offset + marker.segmentLength;
        var rest := Run(run.searches[1..], run.markers[1..], run.raised);
        assert run.markers[0] == marker && |run.searches| > 1 && |run.markers| > 0 by {
          TraceTail(stream, finder, factory, start, run);
        }
        assert rest == IterMarkers(stream, finder, factory, resume) by {
          TraceTail(stream, finder, factory, start, run);
          TraceIsIterMarkers(stream, finder, factory, resume, rest);
        }
        assert run.searches == [start] + rest.searches;
        assert run.markers == [marker] + rest.markers;
      }
  }

  /** What a trace says about its search number `k`. */
  lemma TraceStep<S>(stream: S, finder: Finder, factory: Factory<S>, start: nat, run: Run, k: nat)
    requires IsTrace(stream, finder, factory, start, run)
    requires k < |run.searches|
    ensures finder.next(run.searches[k]).None? <==> run.raised && k + 1 == |run.searches|
    ensures finder.next(run.searches[k]).Some? ==>
              var Found(code, offset) := finder.next(run.searches[k]).value;
              && k < |run.markers|
              && run.markers[k] == factory(code, stream, offset)
              && (code == EOI <==> k + 1 == |run.searches|)
              && (code != EOI ==> run.searches[k + 1] == offset + run.markers[k].segmentLength)
  {
    if k < |run.markers| {
      assert Yields(stream, finder, factory, run.searches[k], run.markers[k]);
      if k + 1 < |run.searches| {
        assert run.searches[k + 1] == Resume(finder, run.searches[k], run.markers[k]);
      }
    }
  }

  /**
   * With a factory that keeps the finder's code, an EOI marker is only ever the last
   * marker of an iteration, and only of one that does not raise.
   */
  lemma EoiOnlyAtEnd<S>(stream: S, finder: Finder, factory: Factory<S>, start: nat)
    requires finder.ScansForward() && KeepsCode(factory, stream)
    ensures var run := IterMarkers(stream, finder, factory, start);
            forall k :: 0 <= k < |run.markers| ==> (run.markers[k].code == EOI <==> !run.raised && k == |run.markers| - 1)
  {
    var run := IterMarkers(stream, finder, factory, start);
    IterMarkersIsTrace(stream, finder, factory, start);
    forall k | 0 <= k < |run.markers|
      ensures run.markers[k].code == EOI <==> !run.raised && k == |run.markers| - 1
    {
      assert Yields(stream, finder, factory, run.searches[k], run.markers[k]);
      assert run.markers[k].code == finder.next(run.searches[k]).value.code;
    }
  }

  /** Searches move strictly forward through the stream. */
  lemma {:induction false} SearchesAdvance<S>(stream: S, finder: Finder, factory: Factory<S>, start: nat, run: Run, i: nat, j: nat)
    requires finder.ScansForward()
    requires IsTrace(stream, finder, factory, start, run)
    requires i < j < |run.searches|
    ensures run.searches[i] < run.searches[j]
    decreases j - i
  {
    assert Yields(stream, finder, factory, run.searches[j - 1], run.markers[j - 1]);
    if i < j - 1 {
      SearchesAdvance(stream, finder, factory, start, run, i, j - 1);
    }
  }

  /**
   * The finder of a stream holding SOI, APP0 and EOI, reporting segment offsets 2, 4 and
   * 22 when searched from 0, 2 and 20; from any other start it finds nothing.
   */
  function ThreeMarkerFinder(): Finder {
    Finder(start =>
      if start == 0 then Some(Found(SOI, 2))
      else if start == 2 then Some(Found(APP0, 4))
      else if start == 20 then Some(Found(EOI, 22))
      else None, 22)
  }

  /** A factory giving SOI and EOI a segment length of 0 and APP0 a segment length of 16. */
  function ThreeMarkerFactory(): Factory<()> {
    (code: Byte, stream: (), offset: nat) => if code == APP0 then App0Marker(code, offset, 16, 0, 0) else Generic(code, offset, 0)
  }

  /**
   * Over that stream the iteration searches at 0, 2 and 20 (offset plus segment length,
   * with no skip past the code), yields the factory's three markers in order and stops
   * after EOI without raising.
   */
  lemma ThreeMarkerIteration()
    ensures ThreeMarkerFinder().ScansForward()
    ensures IterMarkers((), ThreeMarkerFinder(), ThreeMarkerFactory(), 0)
         == Run([0, 2, 20], [Generic(SOI, 2, 0), App0Marker(APP0, 4, 16, 0, 0), Generic(EOI, 22, 0)], false)
  {
    var finder := ThreeMarkerFinder();
    var factory := ThreeMarkerFactory();
    assert finder.next(0) == Some(Found(SOI, 2));
    assert finder.next(2) == Some(Found(APP0, 4));
    assert finder.next(20) == Some(Found(EOI, 22));
    assert factory(APP0, (), 4) == App0Marker(APP0, 4, 16, 0, 0);
  }

  /** What one resumption of the iteration produces. */
  datatype Step = Yielded(marker: Marker) | Exhausted | Raised(error: Error)

  /**
   * A marker iteration in progress over one stream. Its only state is the offset of the
   * next search and whether the iteration has finished; `searches` and `yielded` record
   * what it has done so far.
   */
  class MarkerParser<S> {
    const stream: S
    const finder: Finder
    const factory: Factory<S>
    var start: nat
    var finished: bool
    ghost const run: Run
    ghost var searches: seq<nat>
    ghost var yielded: seq<Marker>

    /** The state is a point along `run`, the complete iteration from offset 0. */
    ghost predicate Valid()
      reads this
    {
      && IsTrace(stream, finder, factory, 0, run)
      && |searches| <= |run.searches|
      && |yielded| <= |run.markers|
      && searches == run.searches[..|searches|]
      && yielded == run.markers[..|yielded|]
      && (finished ==> |searches| == |run.searches| && |yielded| == |run.markers|)
      && (!finished ==> |searches| == |yielded| < |run.searches| && start == run.searches[|yielded|])
    }

    /** A parser about to make its first search, at offset 0. */
    constructor (stream: S, finder: Finder, factory: Factory<S>)
      requires finder.ScansForward()
      ensures this.stream == stream && this.finder == finder && this.factory == factory
      ensures run == IterMarkers(stream, finder, factory, 0)
      ensures Valid() && start == 0 && !finished && searches == [] && yielded == []
    {
      this.stream := stream;
      this.finder := finder;
      this.factory := factory;
      run := IterMarkers(stream, finder, factory, 0);
      IterMarkersIsTrace(stream, finder, factory, 0);
      start := 0;
      finished := false;
      searches := [];
      yielded := [];
    }

    /**
     * Resumes the iteration once: asks the finder for the next marker from `start`, has
     * the factory build it, yields it and moves `start` past its segment. Once the EOI
     * marker has been yielded, or the finder has raised, nothing more is searched.
     */
    method Next() returns (step: Step)
      requires Valid()
      modifies this
      ensures Valid()
      ensures old(finished) ==> step == Exhausted && finished && searches == old(searches) && yielded == old(yielded)
      ensures !old(finished) ==> searches == old(searches) + [old(start)]
      ensures !old(finished) && finder.next(old(start)).None? ==>
                step == Raised(NoMarkerFound(old(start))) && finished && yielded == old(yielded)
      ensures !old(finished) && finder.next(old(start)).Some? ==>
                var Found(code, offset) := finder.next(old(start)).value;
                && step == Yielded(factory(code, stream, offset))
                && yielded == old(yielded) + [step.marker]
                && finished == (code == EOI)
                && (code != EOI ==> start == offset + step.marker.segmentLength)
    {
      if finished {
        return Exhausted;
      }
      ghost var k := |yielded|;
      TraceStep(stream, finder, factory, 0, run, k);
      match finder.next(start)
      case None =>
        searches := searches + [start];
        finished := true;
        step := Raised(NoMarkerFound(start));
      case Some(Found(code, offset)) =>
        var marker := factory(code, stream, offset);
        assert searches + [start] == run.searches[..k + 1];
        assert yielded + [marker] == run.markers[..k + 1];
        searches := searches + [start];
        yielded := yielded + [marker];
        if code == EOI {
          finished := true;
        } else {
          start := offset + marker.segmentLength;
        }
        step := Yielded(marker);
    }

    /**
     * Drains the iteration into a list, as a comprehension over the parser does: every
     * marker of the run in order, or the finder's error when the run ends by raising.
     */
    method ListMarkers() returns (result: Result<seq<Marker>, Error>)
      requires Valid() && !finished && yielded == []
      modifies this
      ensures Valid() && finished && searches == run.searches
      ensures result == if run.raised then Err(NoMarkerFound(run.searches[|run.searches| - 1])) else Ok(run.markers)
    {
      var markers: seq<Marker> := [];
      while true
        invariant Valid() && markers == yielded
        invariant finished ==> !run.raised
        decreases |run.searches| - |searches|
      {
        var step := Next();
        match step
        case Exhausted =>
          assert run.markers[..|run.markers|] == run.markers;
          return Ok(markers);
        case Raised(error) =>
          assert run.searches[..|run.searches|] == run.searches;
          return Err(error);
        case Yielded(marker) =>
          markers := markers + [marker];
      }
    }
  }
}
