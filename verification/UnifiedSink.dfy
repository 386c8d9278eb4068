/**
 The sink of the unified daemon with its fields updated in place, proved against the page fold
 of SinkFold and the pacer of Pacing. The header buffer, its serial and its completeness flag are
 the three cells the sink shares with the stream handler; `sent` is the channel to the relay.
 */
module UnifiedSink {
  import opened Base
  import opened OggPages
  import opened Pacing
  import opened SinkFold

  /** The bounds checks of the page loop, at a position inside the chunk. */
  lemma ParseAt(chunk: seq<Byte>, pos: nat)
    requires pos <= |chunk|
    ensures pos + 27 > |chunk| || chunk[pos..pos + 4] != CAPTURE_PATTERN ==> ParsePage(chunk[pos..]) == None
    ensures pos + 27 <= |chunk| && chunk[pos..pos + 4] == CAPTURE_PATTERN ==>
              var segments := chunk[pos + 26];
              if pos + 27 + segments > |chunk| then ParsePage(chunk[pos..]) == None
              else
                var size := 27 + segments + Sum(chunk[pos + 27..pos + 27 + segments]);
                ParsePage(chunk[pos..]) ==
                  if pos + size > |chunk| then None
                  else Some(Page(I64(chunk[pos + 6..pos + 14]), U32(chunk[pos + 14..pos + 18]), chunk[pos..pos + size]))
  {
    hide I64, U32, Sum;
    var rest := chunk[pos..];
    if pos + 27 <= |chunk| {
      assert rest[..4] == chunk[pos..pos + 4];
      assert rest[6..14] == chunk[pos + 6..pos + 14];
      assert rest[14..18] == chunk[pos + 14..pos + 18];
      var segments := rest[26];
      if pos + 27 + segments <= |chunk| {
        assert rest[27..27 + segments] == chunk[pos + 27..pos + 27 + segments];
        var size := 27 + segments + Sum(rest[27..27 + segments]);
        assert pos + size <= |chunk| ==> rest[..size] == chunk[pos..pos + size];
      }
    }
  }

  /** From `s` on, the pages of `rest` lead to `end`; `audio` says whether a positive granule was or will be seen. */
  ghost predicate LeadsTo(s: Sink, seen: bool, rest: seq<Byte>, end: Sink, audio: bool) {
    && Fold(s, Pages(rest)) == end
    && (seen || HasAudio(Pages(rest)) <==> audio)
  }

  lemma StartOfChunk(s: Sink, chunk: seq<Byte>)
    ensures LeadsTo(s, false, chunk[0..], Fold(s, Pages(chunk)), HasAudio(Pages(chunk)))
  {
    hide ParsePage, Pages, Fold, HasAudio;
    assert chunk[0..] == chunk;
  }

  lemma TooShort(chunk: seq<Byte>, pos: nat)
    requires pos <= |chunk|
    ensures pos + 27 > |chunk| ==> ParsePage(chunk[pos..]) == None
  {
  }

  /** What one page, or the lack of one, does to that. */
  lemma NextPage(chunk: seq<Byte>, pos: nat, s: Sink, seen: bool, end: Sink, audio: bool)
    requires pos <= |chunk| && LeadsTo(s, seen, chunk[pos..], end, audio)
    ensures match ParsePage(chunk[pos..]) {
              case None => s == end && seen == audio
              case Some(p) =>
                && 27 <= |p.bytes| && pos + |p.bytes| <= |chunk|
                && LeadsTo(Step(s, p), seen || p.granule > 0, chunk[pos + |p.bytes|..], end, audio)
            }
  {
    Unfold(chunk[pos..]);
    match ParsePage(chunk[pos..])
    case None =>
    case Some(p) =>
      var rest := Pages(chunk[pos + |p.bytes|..]);
      assert chunk[pos..][|p.bytes|..] == chunk[pos + |p.bytes|..];
      hide ParsePage, Pages, Fold, Step, HasAudio;
      FoldConcat(s, [p], rest);
      FoldSnoc(s, [], p);
      assert [] + [p] == [p];
      AudioCons(p, rest);
  }

  lemma AudioCons(p: Page, ps: seq<Page>)
    ensures HasAudio([p] + ps) <==> p.granule > 0 || HasAudio(ps)
  {
    var q := [p] + ps;
    assert q[0] == p;
    assert forall i :: 0 <= i < |ps| ==> ps[i] == q[i + 1];
    if HasAudio(q) {
      var i :| 0 <= i < |q| && q[i].granule > 0;
      assert i > 0 ==> ps[i - 1].granule > 0;
    }
    if HasAudio(ps) {
      var i :| 0 <= i < |ps| && ps[i].granule > 0;
      assert q[i + 1].granule > 0;
    }
  }

  /** A write of an Ogg chunk: how long after the previous send it is ready, and the overshoot of its sleep. */
  datatype OggWrite = OggWrite(chunk: seq<Byte>, gap: nat, overshoot: nat)

  /** The sink after some writes, and when the last one was sent. */
  datatype OggPaced = OggPaced(sink: Sink, sentAt: nat)

  function SendOgg(p: OggPaced, w: OggWrite, latency: nat): OggPaced {
    var s := Fold(p.sink, Pages(w.chunk));
    var ready := p.sentAt + w.gap;
    var due := WrappingDeadline(s.timeline, latency);
    OggPaced(s, if HasAudio(Pages(w.chunk)) then Release(due, ready, w.overshoot) else ready)
  }

  function SendsOgg(ws: seq<OggWrite>, latency: nat): OggPaced {
    if ws == [] then OggPaced(STARTED, 0) else SendOgg(SendsOgg(Front(ws), latency), Last(ws), latency)
  }

  function PagesOfRun(ws: seq<OggWrite>): seq<Page> {
    if ws == [] then [] else PagesOfRun(Front(ws)) + Pages(Last(ws).chunk)
  }

  lemma {:induction false} RunIsFold(ws: seq<OggWrite>, latency: nat)
    ensures SendsOgg(ws, latency).sink == Fold(STARTED, PagesOfRun(ws))
  {
    if ws != [] {
      RunIsFold(Front(ws), latency);
      FoldConcat(STARTED, PagesOfRun(Front(ws)), Pages(Last(ws).chunk));
      hide Fold, Pages;
    }
  }

  /** When the last write of a run is ready. */
  function OggReadyAt(ws: seq<OggWrite>, latency: nat): nat
    requires ws != []
  {
    SendsOgg(Front(ws), latency).sentAt + Last(ws).gap
  }

  /**
   Ogg delivery does not lead the wall clock either. Over any number of gapless bitstreams, a chunk with audio is sent
   no earlier than the frames of all of them are due, as long as their number of nanoseconds fits 128 bits and the
   wait fits 64.
   */
  lemma OggDeliveryStaysBehindClock(ws: seq<OggWrite>, latency: nat)
    requires ws != [] && HasAudio(Pages(Last(ws).chunk)) && RealSerials(PagesOfRun(ws))
    requires latency < U64_LIMIT * 1_000_000
    requires Frames(Bitstreams(PagesOfRun(ws))) * NS_PER_S < U128_LIMIT
    requires Deadline(Frames(Bitstreams(PagesOfRun(ws))), latency) < OggReadyAt(ws, latency) + U64_LIMIT
    ensures var F := Frames(Bitstreams(PagesOfRun(ws)));
            var t := SendsOgg(ws, latency).sentAt;
            t >= Deadline(F, latency) && F * NS_PER_S < (t - latency + 1) * SAMPLE_RATE
  {
    hide Fold, Pages, HasAudio, Frames, Bitstreams, PagesOfRun, WrappingDeadline;
    var F := Frames(Bitstreams(PagesOfRun(ws)));
    RunIsFold(ws, latency);
    TimelineClosedForm(PagesOfRun(ws));
    DeadlineIsRightUnlessItWraps(F, latency);
    ReleaseMeetsDeadline(Deadline(F, latency), OggReadyAt(ws, latency));
    FloorBound(F);
  }

  class UnifiedHttpStreamSink {
    const bufferLatencyNs: nat
    const passthrough: bool
    var beganAt: nat
    var framesConsumed: nat
    var oggSerial: nat
    var granuleOffset: int
    var oggTrackBaseFrames: nat
    var oggTimelineFrames: nat
    var collectingHeaders: bool
    var oggHeaderBuf: seq<Page>
    var oggHeaderSerial: nat
    var oggHeadersComplete: bool
    var sent: seq<seq<Byte>>

    ghost function State(): Sink
      reads this
    {
      Sink(oggSerial, granuleOffset, oggTrackBaseFrames, oggTimelineFrames, collectingHeaders,
           oggHeaderBuf, oggHeadersComplete, oggHeaderSerial)
    }

    constructor (now: nat, bufferLatencyMs: nat, passthrough: bool)
      ensures this.passthrough == passthrough && bufferLatencyNs == bufferLatencyMs * 1_000_000
      ensures State() == STARTED.(collecting := passthrough)
      ensures beganAt == now && framesConsumed == 0 && sent == []
    {
      this.passthrough := passthrough;
      bufferLatencyNs := bufferLatencyMs * 1_000_000;
      beganAt, framesConsumed, sent := now, 0, [];
      oggSerial, granuleOffset, oggTrackBaseFrames, oggTimelineFrames := 0, -1, 0, 0;
      collectingHeaders := passthrough;
      oggHeaderBuf, oggHeaderSerial, oggHeadersComplete := [], 0, false;
    }

    method Start(now: nat)
      modifies this
      ensures beganAt == now && framesConsumed == 0 && sent == old(sent)
      ensures passthrough ==> State() == STARTED
      ensures !passthrough ==> State() == old(State()).(serial := 0, offset := -1, base := 0, timeline := 0)
    {
      beganAt := now;
      framesConsumed := 0;
      granuleOffset := -1;
      oggSerial := 0;
      oggTrackBaseFrames := 0;
      oggTimelineFrames := 0;
      if passthrough {
        oggHeadersComplete := false;
        oggHeaderBuf := [];
        oggHeaderSerial := 0;
        collectingHeaders := true;
      }
    }

    /** Stopping leaves the shared header cells alone: a reconnecting client can still be given the old headers. */
    method Stop(now: nat)
      modifies this
      ensures beganAt == now && framesConsumed == 0 && sent == old(sent)
      ensures State() == old(State()).(serial := 0, offset := -1, base := 0, timeline := 0)
    {
      framesConsumed := 0;
      beganAt := now;
      granuleOffset := -1;
      oggSerial := 0;
      oggTrackBaseFrames := 0;
      oggTimelineFrames := 0;
    }

    /** The PCM branch: `now` is when the clock is read, `overshoot` how much too long the sleep lasts. */
    method WriteSamples(samples: nat, bytes: seq<Byte>, now: nat, overshoot: nat, open: bool)
      returns (ok: bool, sentAt: nat)
      requires beganAt <= now
      modifies this
      ensures State() == old(State()) && beganAt == old(beganAt)
      ensures framesConsumed == SatAdd64(old(framesConsumed), samples / 2)
      ensures sentAt - beganAt == Release(Deadline(framesConsumed, bufferLatencyNs), now - beganAt, overshoot)
      ensures ok == open && sent == old(sent) + (if open then [bytes] else [])
    {
      framesConsumed := SatAdd64(framesConsumed, samples / 2);
      sentAt := Park(Deadline(framesConsumed, bufferLatencyNs), now, overshoot);
      if open {
        sent := sent + [bytes];
      }
      ok := open;
    }

    /**
     The Ogg branch: one pass over the pages of the chunk, then the pacer, then the whole chunk is enqueued.
     The state afterwards is the fold over the pages of the chunk, however many there are.
     */
    method WriteRaw(chunk: seq<Byte>, now: nat, overshoot: nat, open: bool)
      returns (ok: bool, sentAt: nat)
      requires beganAt <= now
      modifies this
      ensures State() == Fold(old(State()), Pages(chunk))
      ensures ok == open && sent == old(sent) + (if open then [chunk] else [])
      ensures beganAt == old(beganAt) && framesConsumed == old(framesConsumed)
      ensures sentAt - beganAt ==
                if HasAudio(Pages(chunk))
                then Release(WrappingDeadline(oggTimelineFrames, bufferLatencyNs), now - beganAt, overshoot)
                else now - beganAt
      ensures OggPaced(State(), sentAt - beganAt) ==
                SendOgg(OggPaced(old(State()), 0), OggWrite(chunk, now - beganAt, overshoot), bufferLatencyNs)
    {
      hide Fold, Pages, HasAudio, WrappingDeadline, Release;
      var lastTimelineFrames := WalkPages(chunk);
      sentAt := now;
      if lastTimelineFrames.Some? {
        oggTimelineFrames := lastTimelineFrames.value;
        sentAt := Park(WrappingDeadline(oggTimelineFrames, bufferLatencyNs), now, overshoot);
      }
      if open {
        sent := sent + [chunk];
      }
      ok := open;
    }

    /** The page loop. The timeline reached so far is its result and becomes a field only after the loop. */
    method WalkPages(chunk: seq<Byte>) returns (lastTimelineFrames: Option<nat>)
      modifies this`oggSerial, this`oggHeaderSerial, this`oggHeadersComplete, this`oggTrackBaseFrames,
               this`granuleOffset, this`collectingHeaders, this`oggHeaderBuf
      ensures Running(lastTimelineFrames) == Fold(old(State()), Pages(chunk))
      ensures lastTimelineFrames.Some? <==> HasAudio(Pages(chunk))
    {
      hide *;
      lastTimelineFrames := None;
      var pos := 0;
      ghost var end, audio := Fold(State(), Pages(chunk)), HasAudio(Pages(chunk));
      StartOfChunk(State(), chunk);
      NothingRunning();
      while pos + 27 <= |chunk|
        invariant pos <= |chunk|
        invariant LeadsTo(Running(lastTimelineFrames), lastTimelineFrames.Some?, chunk[pos..], end, audio)
      {
        NextPage(chunk, pos, Running(lastTimelineFrames), lastTimelineFrames.Some?, end, audio);
        var next := ReadPage(chunk, pos);
        if next.None? {
          break;
        }
        lastTimelineFrames := TakePage(lastTimelineFrames, next.value);
        pos := pos + |next.value.bytes|;
      }
      TooShort(chunk, pos);
      NextPage(chunk, pos, Running(lastTimelineFrames), lastTimelineFrames.Some?, end, audio);
    }

    /** The bounds checks of one turn; every early exit of the source's loop is a None. */
    static method ReadPage(chunk: seq<Byte>, pos: nat) returns (r: Option<Page>)
      requires pos + 27 <= |chunk|
      ensures r == ParsePage(chunk[pos..])
      ensures r.Some? ==> pos + |r.value.bytes| <= |chunk|
    {
      ParseAt(chunk, pos);
      hide ParsePage;
      if chunk[pos..pos + 4] != CAPTURE_PATTERN {
        return None;
      }
      var granule := I64(chunk[pos + 6..pos + 14]);
      var serial := U32(chunk[pos + 14..pos + 18]);
      var segments: int := chunk[pos + 26];
      if pos + 27 + segments > |chunk| {
        return None;
      }
      var bodySize := Sum(chunk[pos + 27..pos + 27 + segments]);
      var pageSize := 27 + segments + bodySize;
      if pos + pageSize > |chunk| {
        return None;
      }
      return Some(Page(granule, serial, chunk[pos..pos + pageSize]));
    }

    /** The fold state in the middle of a chunk, when the new timeline is still a local of the loop. */
    ghost function Running(lastTimelineFrames: Option<nat>): Sink
      reads this
    {
      if lastTimelineFrames.Some? then State().(timeline := lastTimelineFrames.value) else State()
    }

    lemma NothingRunning()
      ensures Running(None) == State()
    {
    }

    /** One turn of the page loop. */
    method TakePage(lastTimelineFrames: Option<nat>, page: Page) returns (updated: Option<nat>)
      modifies this`oggSerial, this`oggHeaderSerial, this`oggHeadersComplete, this`oggTrackBaseFrames,
               this`granuleOffset, this`collectingHeaders, this`oggHeaderBuf
      ensures Running(updated) == Step(old(Running(lastTimelineFrames)), page)
      ensures updated.Some? <==> lastTimelineFrames.Some? || page.granule > 0
    {
      if oggSerial == 0 {
        oggSerial := page.serial;
        oggHeaderSerial := page.serial;
      } else if page.serial != oggSerial {
        oggSerial := page.serial;
        oggHeaderSerial := page.serial;
        oggHeadersComplete := false;
        oggTrackBaseFrames := if lastTimelineFrames.Some? then lastTimelineFrames.value else oggTimelineFrames;
        granuleOffset := 0;
        collectingHeaders := true;
        oggHeaderBuf := [];
      }
      if collectingHeaders {
        if page.granule <= 0 {
          oggHeaderBuf := oggHeaderBuf + [page];
        } else {
          collectingHeaders := false;
          oggHeadersComplete := true;
        }
      }
      updated := lastTimelineFrames;
      if page.granule > 0 {
        if granuleOffset < 0 {
          granuleOffset := page.granule;
        }
        var relativeGranule := Max(page.granule - granuleOffset, 0);
        updated := Some(SatAdd128(oggTrackBaseFrames, relativeGranule));
      }
    }

    /** Sleep until the deadline if it is still ahead. */
    method Park(expectedNs: nat, now: nat, overshoot: nat) returns (wokenAt: nat)
      requires beganAt <= now
      ensures wokenAt - beganAt == Release(expectedNs, now - beganAt, overshoot)
    {
      wokenAt := now;
      var elapsedNs := now - beganAt;
      if expectedNs > elapsedNs {
        var parkNs := (expectedNs - elapsedNs) % U64_LIMIT;
        wokenAt := now + parkNs + overshoot;
      }
    }
  }

  /** Chunk borders do not matter as long as no page straddles them. */
  lemma SplitInvariance(s: Sink, a: seq<Byte>, b: seq<Byte>)
    requires Leftover(a) == []
    ensures Fold(s, Pages(a + b)) == Fold(Fold(s, Pages(a)), Pages(b))
  {
    PagesOfConcat(a, b);
    FoldConcat(s, Pages(a), Pages(b));
  }

  /** Writing two chunks and writing their concatenation leave two sinks in the same state. */
  method WriteTwiceOrOnce(one: UnifiedHttpStreamSink, two: UnifiedHttpStreamSink, a: seq<Byte>, b: seq<Byte>,
                          now: nat, later: nat)
    requires one != two && one.State() == two.State()
    requires one.beganAt <= now <= later && two.beganAt <= now
    requires Leftover(a) == []
    modifies one, two
    ensures one.State() == two.State()
  {
    ghost var start := one.State();
    var _, _ := one.WriteRaw(a + b, now, 0, true);
    var _, _ := two.WriteRaw(a, now, 0, true);
    var _, _ := two.WriteRaw(b, later, 0, true);
    SplitInvariance(start, a, b);
  }
}
