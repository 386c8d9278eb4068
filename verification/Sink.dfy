/**
 The Ogg path of the unified sink as a fold of one step per page, and what that fold means:
 the header buffer is the leading header run of the current bitstream, and the timeline has
 a closed form over the bitstreams seen since the sink was started.
 */
module SinkFold {
  import opened Base
  import opened OggPages
  import opened Pacing

  /** The fields of the sink that the page loop touches. Serial 0 and offset -1 are the code's sentinels. */
  datatype Sink = Sink(
    serial: nat,
    offset: int,
    base: nat,
    timeline: nat,
    collecting: bool,
    headers: seq<Page>,
    complete: bool,
    published: nat)

  const STARTED: Sink := Sink(0, -1, 0, 0, true, [], false, 0)

  /** Serial tracking: the first page adopts a serial, a different serial opens a new bitstream. */
  function Boundary(s: Sink, p: Page): Sink {
    if s.serial == 0 then s.(serial := p.serial, published := p.serial)
    else if p.serial != s.serial then
      s.(serial := p.serial, published := p.serial, complete := false, base := s.timeline, offset := 0,
         collecting := true, headers := [])
    else s
  }

  /** Header buffering: pages up to the first positive granule are kept. */
  function Collect(s: Sink, p: Page): Sink {
    if !s.collecting then s
    else if p.granule <= 0 then s.(headers := s.headers + [p])
    else s.(collecting := false, complete := true)
  }

  /** Granule tracking on one timeline across bitstreams. */
  function Track(s: Sink, p: Page): Sink {
    if p.granule <= 0 then s
    else
      var offset := if s.offset < 0 then p.granule else s.offset;
      s.(offset := offset, timeline := SatAdd128(s.base, Max(p.granule - offset, 0)))
  }

  function Step(s: Sink, p: Page): Sink {
    Track(Collect(Boundary(s, p), p), p)
  }

  function Fold(s: Sink, ps: seq<Page>): Sink {
    if ps == [] then s else Step(Fold(s, Front(ps)), Last(ps))
  }

  lemma FoldSnoc(s: Sink, ps: seq<Page>, p: Page)
    ensures Fold(s, []) == s
    ensures Fold(s, ps + [p]) == Step(Fold(s, ps), p)
  {
    SnocParts(ps, p);
  }

  lemma {:induction false} FoldConcat(s: Sink, ps: seq<Page>, qs: seq<Page>)
    ensures Fold(s, ps + qs) == Fold(Fold(s, ps), qs)
  {
    if qs == [] {
      assert ps + qs == ps;
    } else {
      FoldConcat(s, ps, Front(qs));
      assert Front(ps + qs) == ps + Front(qs);
    }
  }

  // ---------------------------------------------------------------------------------------
  // Bitstreams: maximal runs of pages with one serial
  // ---------------------------------------------------------------------------------------

  datatype Streams = NoStream | Streams(earlier: Streams, current: seq<Page>)

  function Extend(bs: Streams, p: Page): Streams {
    match bs
    case NoStream => Streams(NoStream, [p])
    case Streams(earlier, current) =>
      if current != [] && Last(current).serial == p.serial then Streams(earlier, current + [p])
      else Streams(bs, [p])
  }

  function Bitstreams(ps: seq<Page>): Streams {
    if ps == [] then NoStream else Extend(Bitstreams(Front(ps)), Last(ps))
  }

  /** The bitstream the last page belongs to; empty before the first page. */
  function Current(ps: seq<Page>): seq<Page> {
    match Bitstreams(ps)
    case NoStream => []
    case Streams(_, current) => current
  }

  lemma BitstreamsSnoc(ps: seq<Page>, p: Page)
    ensures Bitstreams([]) == NoStream
    ensures Bitstreams(ps + [p]) == Extend(Bitstreams(ps), p)
  {
    SnocParts(ps, p);
  }

  predicate OneSerial(ps: seq<Page>, serial: nat) {
    forall i :: 0 <= i < |ps| ==> ps[i].serial == serial
  }

  function Flatten(bs: Streams): seq<Page> {
    match bs
    case NoStream => []
    case Streams(earlier, current) => Flatten(earlier) + current
  }

  /** One serial per group, no empty group, neighbouring groups differ. */
  predicate Maximal(bs: Streams) {
    match bs
    case NoStream => true
    case Streams(earlier, current) =>
      && Maximal(earlier)
      && current != [] && OneSerial(current, Last(current).serial)
      && (earlier.Streams? && earlier.current != [] ==> Last(earlier.current).serial != Last(current).serial)
  }

  /** The grouping is the intended one: it loses and reorders nothing and its groups are maximal runs. */
  lemma {:induction false} BitstreamsAreMaximalRuns(ps: seq<Page>)
    ensures Flatten(Bitstreams(ps)) == ps
    ensures Maximal(Bitstreams(ps))
  {
    if ps != [] {
      BitstreamsAreMaximalRuns(Front(ps));
      assert ps == Front(ps) + [Last(ps)];
      hide Bitstreams;
      BitstreamsSnoc(Front(ps), Last(ps));
      ExtendKeeps(Bitstreams(Front(ps)), Last(ps));
    }
  }

  lemma ExtendKeeps(bs: Streams, p: Page)
    requires Maximal(bs)
    ensures Maximal(Extend(bs, p))
    ensures Flatten(Extend(bs, p)) == Flatten(bs) + [p]
  {
  }

  // ---------------------------------------------------------------------------------------
  // The header buffer
  // ---------------------------------------------------------------------------------------

  predicate HasAudio(ps: seq<Page>) {
    exists i :: 0 <= i < |ps| && ps[i].granule > 0
  }

  /** The maximal leading run of pages without a positive granule. */
  function HeaderRun(ps: seq<Page>): (r: seq<Page>)
    ensures r <= ps
    ensures forall i :: 0 <= i < |r| ==> r[i].granule <= 0
    ensures |r| < |ps| ==> ps[|r|].granule > 0
  {
    if ps == [] || ps[0].granule > 0 then [] else [ps[0]] + HeaderRun(ps[1..])
  }

  lemma {:induction false} HeaderRunIsUnique(ps: seq<Page>, r: seq<Page>)
    requires r <= ps
    requires forall i :: 0 <= i < |r| ==> r[i].granule <= 0
    requires |r| < |ps| ==> ps[|r|].granule > 0
    ensures r == HeaderRun(ps)
  {
    if r != [] {
      HeaderRunIsUnique(ps[1..], r[1..]);
      assert r == [ps[0]] + r[1..];
    }
  }

  lemma HeaderRunSnoc(ps: seq<Page>, p: Page)
    ensures HasAudio(ps) ==> HeaderRun(ps + [p]) == HeaderRun(ps)
    ensures !HasAudio(ps) ==> HeaderRun(ps) == ps
    ensures !HasAudio(ps) ==> HeaderRun(ps + [p]) == if p.granule > 0 then ps else ps + [p]
    ensures HasAudio(ps + [p]) <==> HasAudio(ps) || p.granule > 0
  {
    var q := ps + [p];
    if HasAudio(ps) {
      var i :| 0 <= i < |ps| && ps[i].granule > 0;
      assert q[i].granule > 0;
      HeaderRunIsUnique(q, HeaderRun(ps));
    } else {
      HeaderRunIsUnique(ps, ps);
      HeaderRunIsUnique(q, if p.granule > 0 then ps else q);
      assert q[|ps|] == p;
    }
    if HasAudio(q) {
      var i :| 0 <= i < |q| && q[i].granule > 0;
      assert i < |ps| ==> ps[i].granule > 0;
    }
  }

  predicate RealSerials(ps: seq<Page>) {
    forall i :: 0 <= i < |ps| ==> ps[i].serial != 0
  }

  /** The header state the sink should have while `current` is the bitstream now playing. */
  predicate Buffered(s: Sink, current: seq<Page>) {
    && s.headers == HeaderRun(current)
    && (s.complete <==> HasAudio(current))
    && s.collecting == !s.complete
    && s.serial == s.published == SerialOf(current)
  }

  /** The boundary before `p` that the sink does not notice, because it takes serial 0 for no serial. */
  predicate Hidden(current: seq<Page>, p: Page) {
    current != [] && Last(current).serial == 0 && p.serial != 0
  }

  /** There is nothing to clear and nothing to collect at such a boundary: both bitstreams begin with audio. */
  predicate BothBeginWithAudio(current: seq<Page>, p: Page) {
    current != [] && current[0].granule > 0 && p.granule > 0
  }

  /** The bitstream page `p` belongs to, as far as it has come. */
  function Continued(current: seq<Page>, p: Page): seq<Page> {
    if current != [] && Last(current).serial == p.serial then current + [p] else [p]
  }

  /** One page keeps the header state right if and only if it hides no boundary, or a harmless one. */
  lemma StepStaysBuffered(s: Sink, current: seq<Page>, p: Page)
    requires Buffered(s, current)
    ensures Buffered(Step(s, p), Continued(current, p))
            <==> (Hidden(current, p) ==> BothBeginWithAudio(current, p))
  {
    hide Buffered, Step, Continued, BothBeginWithAudio;
    if Hidden(current, p) {
      HiddenStep(s, current, p);
    } else {
      NoticedStep(s, current, p);
    }
  }

  lemma NoticedStep(s: Sink, current: seq<Page>, p: Page)
    requires Buffered(s, current) && !Hidden(current, p)
    ensures Buffered(Step(s, p), Continued(current, p))
  {
    hide HeaderRun, HasAudio, Track;
    HeaderRunSnoc(current, p);
    HeaderRunSnoc([], p);
    NoAudio();
    assert [] + [p] == [p];
    TrackKeepsHeaders(Collect(Boundary(s, p), p), p);
  }

  lemma HiddenStep(s: Sink, current: seq<Page>, p: Page)
    requires Buffered(s, current) && Hidden(current, p)
    ensures Buffered(Step(s, p), Continued(current, p)) <==> BothBeginWithAudio(current, p)
  {
    hide HeaderRun, HasAudio, Track;
    HeaderRunSnoc(current, p);
    HeaderRunSnoc([], p);
    NoAudio();
    assert [] + [p] == [p];
    TrackKeepsHeaders(Collect(Boundary(s, p), p), p);
    FirstPageDecides(current);
  }

  lemma FirstPageDecides(ps: seq<Page>)
    requires ps != []
    ensures ps[0].granule > 0 <==> HeaderRun(ps) == []
    ensures ps[0].granule > 0 ==> HasAudio(ps)
  {
  }

  lemma TrackKeepsHeaders(s: Sink, p: Page)
    ensures var t := Track(s, p);
            && t.headers == s.headers && t.complete == s.complete && t.collecting == s.collecting
            && t.serial == s.serial && t.published == s.published
  {
  }

  lemma NoAudio()
    ensures HeaderRun([]) == [] && !HasAudio([])
  {
  }

  /** Every boundary is noticed or harmless. */
  predicate BoundariesSeen(ps: seq<Page>) {
    ps != [] ==>
      && BoundariesSeen(Front(ps))
      && (Hidden(Current(Front(ps)), Last(ps)) ==> BothBeginWithAudio(Current(Front(ps)), Last(ps)))
  }

  lemma {:induction false} RealBoundariesAreSeen(ps: seq<Page>)
    requires RealSerials(ps)
    ensures BoundariesSeen(ps)
  {
    if ps != [] {
      var qs := Front(ps);
      RealBoundariesAreSeen(qs);
      CurrentEndsAtLast(qs);
      hide Bitstreams, Current;
    }
  }

  lemma CurrentEndsAtLast(ps: seq<Page>)
    ensures ps == [] <==> Current(ps) == []
    ensures ps != [] ==> Last(Current(ps)) == Last(ps)
  {
  }

  lemma NextCurrent(ps: seq<Page>, p: Page)
    ensures Current([]) == []
    ensures Current(ps + [p]) == Continued(Current(ps), p)
  {
    BitstreamsSnoc(ps, p);
    hide Bitstreams;
  }

  /** Whatever pages follow a start, the replay buffer is the header run of the bitstream now playing. */
  lemma {:induction false} HeaderBufferIsHeaderRun(ps: seq<Page>)
    requires BoundariesSeen(ps)
    ensures Buffered(Fold(STARTED, ps), Current(ps))
  {
    if ps == [] {
      NoAudio();
    } else {
      var qs, p := Front(ps), Last(ps);
      assert ps == qs + [p];
      HeaderBufferIsHeaderRun(qs);
      NextCurrent(qs, p);
      FoldSnoc(STARTED, qs, p);
      hide Fold, Bitstreams, Buffered, Step, Current, Hidden, BothBeginWithAudio;
      StepStaysBuffered(Fold(STARTED, qs), Current(qs), p);
    }
  }

  /** The header state is that of the current bitstream now, and was after every earlier page. */
  predicate AlwaysBuffered(ps: seq<Page>) {
    Buffered(Fold(STARTED, ps), Current(ps)) && (ps != [] ==> AlwaysBuffered(Front(ps)))
  }

  /** The header state is right throughout a run if and only if every boundary of it is noticed or harmless. */
  lemma {:induction false} HeaderBufferIsRightExactly(ps: seq<Page>)
    ensures AlwaysBuffered(ps) <==> BoundariesSeen(ps)
  {
    hide Fold, Bitstreams, Buffered, Step, Current, Hidden, BothBeginWithAudio;
    if ps == [] {
      HeaderBufferIsHeaderRun([]);
    } else {
      var qs, p := Front(ps), Last(ps);
      assert ps == qs + [p];
      HeaderBufferIsRightExactly(qs);
      NextCurrent(qs, p);
      FoldSnoc(STARTED, qs, p);
      if AlwaysBuffered(qs) {
        StepStaysBuffered(Fold(STARTED, qs), Current(qs), p);
      }
    }
  }

  function SerialOf(ps: seq<Page>): nat {
    if ps == [] then 0 else Last(ps).serial
  }

  /** Serial 0 is the sentinel: a stream that really uses it hides the boundary that follows. */
  lemma ZeroSerialHidesBoundary(a: Page, b: Page)
    requires a.serial == 0 && b.serial != 0 && a.granule <= 0 && b.granule <= 0
    ensures Fold(STARTED, [a, b]).headers == [a, b] != HeaderRun(Current([a, b]))
  {
    assert [] + [a] == [a] && [a] + [b] == [a, b] && [] + [b] == [b];
    FoldSnoc(STARTED, [], a);
    FoldSnoc(STARTED, [a], b);
    BitstreamsSnoc([], a);
    BitstreamsSnoc([a], b);
    hide Fold, Bitstreams, HeaderRun;
    assert |HeaderRun([b])| <= 1;
  }

  // ---------------------------------------------------------------------------------------
  // The timeline
  // ---------------------------------------------------------------------------------------

  /** The last positive granule, 0 if there is none. */
  function LastGranule(ps: seq<Page>): nat {
    if ps == [] then 0 else if Last(ps).granule > 0 then Last(ps).granule else LastGranule(Front(ps))
  }

  /** The first positive granule, 0 if there is none. */
  function FirstGranule(ps: seq<Page>): nat {
    if ps == [] then 0
    else if FirstGranule(Front(ps)) > 0 then FirstGranule(Front(ps))
    else Max(Last(ps).granule, 0)
  }

  /**
   The frames a run of bitstreams is worth: the first one counts from its first granule (the sink may have been
   started in the middle of a track), every later one counts from zero.
   */
  function Frames(bs: Streams): nat {
    match bs
    case NoStream => 0
    case Streams(NoStream, first) => Max(LastGranule(first) - FirstGranule(first), 0)
    case Streams(earlier, current) => Frames(earlier) + LastGranule(current)
  }

  lemma {:induction false} GranulesSnoc(b: seq<Page>, p: Page)
    ensures LastGranule(b + [p]) == if p.granule > 0 then p.granule else LastGranule(b)
    ensures FirstGranule(b + [p]) == if FirstGranule(b) > 0 then FirstGranule(b) else Max(p.granule, 0)
    ensures FirstGranule(b) == 0 <==> LastGranule(b) == 0
  {
    SnocParts(b, p);
    if b != [] {
      GranulesSnoc(Front(b), Last(b));
      assert b == Front(b) + [Last(b)];
    }
  }

  /** How the sink's three counters relate to the bitstreams it has seen. */
  predicate OnTimeline(s: Sink, bs: Streams) {
    && s.timeline == Min(Frames(bs), U128_LIMIT - 1)
    && match bs {
         case NoStream => s.serial == 0 && s.base == 0 && s.offset == -1
         case Streams(NoStream, first) =>
           && first != [] && s.serial == Last(first).serial
           && s.base == 0
           && s.offset == if FirstGranule(first) == 0 then -1 else FirstGranule(first)
         case Streams(earlier, current) =>
           && current != [] && s.serial == Last(current).serial
           && s.base == Min(Frames(earlier), U128_LIMIT - 1)
           && s.offset == 0
       }
  }

  lemma StepStaysOnTimeline(s: Sink, bs: Streams, p: Page)
    requires OnTimeline(s, bs) && p.serial != 0
    requires bs.Streams? ==> s.serial != 0
    ensures OnTimeline(Step(s, p), Extend(bs, p))
  {
    hide LastGranule, FirstGranule, Collect;
    CollectKeepsCounters(Boundary(s, p), p);
    var current := if bs.Streams? then bs.current else [];
    GranulesSnoc(current, p);
    GranulesSnoc([], p);
    assert [] + [p] == [p];
    NoGranules();
  }

  lemma CollectKeepsCounters(s: Sink, p: Page)
    ensures var t := Collect(s, p);
            t.serial == s.serial && t.offset == s.offset && t.base == s.base && t.timeline == s.timeline
  {
  }

  lemma NoGranules()
    ensures LastGranule([]) == FirstGranule([]) == 0
  {
  }

  lemma {:induction false} TimelineState(ps: seq<Page>)
    requires RealSerials(ps)
    ensures OnTimeline(Fold(STARTED, ps), Bitstreams(ps))
  {
    if ps != [] {
      var qs, p := Front(ps), Last(ps);
      assert ps == qs + [p];
      TimelineState(qs);
      RealBoundariesAreSeen(qs);
      HeaderBufferIsHeaderRun(qs);
      CurrentEndsAtLast(qs);
      BitstreamsSnoc(qs, p);
      FoldSnoc(STARTED, qs, p);
      assert Bitstreams(qs).Streams? ==> Current(qs) != [];
      hide Fold, Bitstreams, HeaderRun, OnTimeline, Step;
      StepStaysOnTimeline(Fold(STARTED, qs), Bitstreams(qs), p);
    }
  }

  /** The closed form for every page sequence; the sink saturates at the 128-bit maximum. */
  lemma TimelineClosedForm(ps: seq<Page>)
    requires RealSerials(ps)
    ensures Fold(STARTED, ps).timeline == Min(Frames(Bitstreams(ps)), U128_LIMIT - 1)
  {
    TimelineState(ps);
  }

  /** Page `p` goes on with the current bitstream and takes its granule back, not counting what lies before frame 0. */
  predicate Falls(ps: seq<Page>, p: Page) {
    match Bitstreams(ps)
    case NoStream => false
    case Streams(earlier, current) =>
      && current != [] && Last(current).serial == p.serial
      && 0 < p.granule < LastGranule(current)
      && (earlier.NoStream? ==> FirstGranule(current) < LastGranule(current))
  }

  lemma FramesFall(ps: seq<Page>, p: Page)
    ensures Frames(Bitstreams(ps + [p])) < Frames(Bitstreams(ps)) <==> Falls(ps, p)
  {
    BitstreamsSnoc(ps, p);
    BitstreamsAreMaximalRuns(ps);
    NoGranules();
    hide Bitstreams, LastGranule, FirstGranule;
    match Bitstreams(ps)
    case NoStream =>
    case Streams(earlier, current) =>
      GranulesSnoc(current, p);
      GranulesSnoc([], p);
      assert [] + [p] == [p];
  }

  /** A page moves the timeline backwards if and only if it takes the granule of its bitstream back. */
  lemma TimelineFalls(ps: seq<Page>, p: Page)
    requires RealSerials(ps + [p])
    ensures Fold(STARTED, ps + [p]).timeline < Fold(STARTED, ps).timeline
            <==> Falls(ps, p) && Frames(Bitstreams(ps + [p])) < U128_LIMIT - 1
  {
    hide Fold, Bitstreams, Frames, Falls;
    assert RealSerials(ps) by {
      assert forall i :: 0 <= i < |ps| ==> ps[i] == (ps + [p])[i];
    }
    TimelineClosedForm(ps);
    TimelineClosedForm(ps + [p]);
    FramesFall(ps, p);
  }

  /** No page of `more` takes the granule of its bitstream back. */
  predicate Steady(ps: seq<Page>, more: seq<Page>) {
    more != [] ==> Steady(ps, Front(more)) && !Falls(ps + Front(more), Last(more))
  }

  /** Between two starts the timeline never moves backwards. */
  lemma {:induction false} TimelineNeverDecreases(ps: seq<Page>, more: seq<Page>)
    requires RealSerials(ps + more) && Steady(ps, more)
    ensures Fold(STARTED, ps).timeline <= Fold(STARTED, ps + more).timeline
    decreases |more|
  {
    if more == [] {
      assert ps + more == ps;
    } else {
      var qs := ps + Front(more);
      assert ps + more == qs + [Last(more)];
      hide Fold, Bitstreams, Frames, Falls;
      assert RealSerials(qs) by {
        assert forall i :: 0 <= i < |qs| ==> qs[i] == (ps + more)[i];
      }
      TimelineNeverDecreases(ps, Front(more));
      TimelineFalls(qs, Last(more));
    }
  }

  /** Positive granules do not fall. */
  predicate Rises(ps: seq<Page>) {
    forall i, j :: 0 <= i < j < |ps| && ps[i].granule > 0 && ps[j].granule > 0 ==> ps[i].granule <= ps[j].granule
  }

  lemma {:induction false} LastGranuleIsThere(ps: seq<Page>) returns (i: nat)
    requires LastGranule(ps) > 0
    ensures i < |ps| && ps[i].granule == LastGranule(ps)
  {
    if Last(ps).granule > 0 {
      i := |ps| - 1;
    } else {
      i := LastGranuleIsThere(Front(ps));
    }
  }

  lemma RisingDoesNotFall(ps: seq<Page>, p: Page)
    requires Rises(Current(ps + [p]))
    ensures !Falls(ps, p)
  {
    NextCurrent(ps, p);
    var current := Current(ps);
    hide Bitstreams, FirstGranule;
    if current != [] && Last(current).serial == p.serial && LastGranule(current) > 0 {
      var i := LastGranuleIsThere(current);
      assert (current + [p])[i] == current[i] && (current + [p])[|current|] == p;
    }
  }

  /** Each bitstream that plays during `more` rises. */
  predicate BitstreamsRise(ps: seq<Page>, more: seq<Page>) {
    more != [] ==> BitstreamsRise(ps, Front(more)) && Rises(Current(ps + more))
  }

  /** It is enough that granules do not fall within each bitstream, however often a serial comes back. */
  lemma {:induction false} RisingBitstreamsAreSteady(ps: seq<Page>, more: seq<Page>)
    requires BitstreamsRise(ps, more)
    ensures Steady(ps, more)
  {
    hide Bitstreams, Current, Rises, Falls;
    if more != [] {
      RisingBitstreamsAreSteady(ps, Front(more));
      assert ps + more == ps + Front(more) + [Last(more)];
      RisingDoesNotFall(ps + Front(more), Last(more));
    }
  }
}
