/**
 The dispatcher that turns the player's event stream into notifications for the music server and keeps the last
 known position. Instants are nanoseconds, positions milliseconds. The cause of a stop and of a seek is not on the
 wire; it is recorded so that the guarantees can tell the cases apart.
 */
module PlayerEvents {
  import opened Base

  type Id = string

  datatype Event =
    | Playing(id: Id, positionMs: nat)
    | Paused(positionMs: nat)
    | Stopped
    | VolumeChanged(volume: nat)
    | Seeked(positionMs: nat)
    | SessionConnected
    | TrackChanged(id: Id)
    | PositionCorrection(positionMs: nat)
    | SessionDisconnected
    | Other

  datatype Timed = Timed(event: Event, at: nat)

  datatype StopCause = ByPause | ByStop | Inactive
  datatype SeekCause = Sync | ByUser

  datatype Note =
    | Start(id: Id)
    | Change(id: Id, previous: Id)
    | Stop(cause: StopCause)
    | Resume(id: Id, positionMs: nat)
    | Seek(positionMs: nat, why: SeekCause)
    | Volume(percent: nat)

  datatype Anchor = Anchor(positionMs: nat, at: nat, playing: bool)

  const GRACE_NS: nat := 2_000_000_000
  const NS_PER_MS: nat := 1_000_000

  datatype Lms = Lms(
    cursor: Option<Id>,
    wasPaused: bool,
    needsPositionSync: bool,
    suppressNextVolume: bool,
    lastSessionStart: Option<nat>,
    anchor: Option<Anchor>)

  const INITIAL: Lms := Lms(None, false, false, false, None, None)

  /** 0..65535 to 0..100, rounded. */
  function VolumePercent(volume: nat): (percent: nat)
    ensures volume <= 65535 ==> percent <= 100
    ensures -32768 <= percent * 65535 - volume * 100 <= 32767
  {
    (volume * 100 + 32767) / 65535
  }

  function SyncSeek(s: Lms, positionMs: nat): seq<Note> {
    if s.needsPositionSync && positionMs > 1000 then [Seek(positionMs, Sync)] else []
  }

  function KeepPlaying(s: Lms): bool {
    s.anchor.Some? && s.anchor.value.playing
  }

  /** The grace timer: a pause within two seconds of a session start is spurious. */
  predicate InGrace(s: Lms, now: nat) {
    s.lastSessionStart.Some? && now - s.lastSessionStart.value < GRACE_NS
  }

  /** One event: the new state and the notifications it causes. */
  function Handle(s: Lms, e: Event, now: nat): (Lms, seq<Note>) {
    match e
    case Playing(id, pos) =>
      var t := s.(anchor := Some(Anchor(pos, now, true)), wasPaused := false, cursor := Some(id));
      if s.cursor == None then (t, [])
      else if s.cursor == Some(id) then
        (t.(needsPositionSync := false), (if s.wasPaused then [Resume(id, pos)] else []) + SyncSeek(s, pos))
      else (t.(needsPositionSync := false), [Change(id, s.cursor.value)] + SyncSeek(s, pos))
    case Paused(pos) =>
      var t := s.(anchor := Some(Anchor(pos, now, false)));
      if InGrace(s, now) || s.cursor == None then (t, []) else (t.(wasPaused := true), [Stop(ByPause)])
    case Stopped =>
      (s.(anchor := None, cursor := None), if s.cursor == None then [] else [Stop(ByStop)])
    case VolumeChanged(v) =>
      (s.(suppressNextVolume := false), if s.suppressNextVolume then [] else [Volume(VolumePercent(v))])
    case Seeked(pos) =>
      (s.(anchor := Some(Anchor(pos, now, KeepPlaying(s)))), if s.cursor == None then [] else [Seek(pos, ByUser)])
    case SessionConnected => (s.(suppressNextVolume := true), [])
    case TrackChanged(id) =>
      var t := s.(anchor := None, cursor := Some(id));
      if s.cursor == None then (t.(lastSessionStart := Some(now), needsPositionSync := true), [Start(id)])
      else (t.(wasPaused := false), if s.cursor == Some(id) then [] else [Change(id, s.cursor.value)])
    case PositionCorrection(pos) => (s.(anchor := Some(Anchor(pos, now, KeepPlaying(s)))), [])
    case SessionDisconnected => (s, if s.cursor == None then [] else [Stop(Inactive)])
    case Other => (s, [])
  }

  type History = seq<Timed>

  function After(h: History): Lms {
    if h == [] then INITIAL else Handle(After(Front(h)), Last(h).event, Last(h).at).0
  }

  function Notes(h: History): seq<Note> {
    if h == [] then [] else Notes(Front(h)) + Handle(After(Front(h)), Last(h).event, Last(h).at).1
  }

  /** The dispatcher itself: its flags, the cursor of the dispatch loop, and what it has sent. */
  class Notifier {
    const configured: bool
    var cursor: Option<Id>
    var wasPaused: bool
    var needsPositionSync: bool
    var suppressNextVolume: bool
    var lastSessionStart: Option<nat>
    var anchor: Option<Anchor>
    var sent: seq<Note>

    ghost function State(): Lms
      reads this
    {
      Lms(cursor, wasPaused, needsPositionSync, suppressNextVolume, lastSessionStart, anchor)
    }

    constructor (configured: bool)
      ensures this.configured == configured && State() == INITIAL && sent == []
    {
      this.configured := configured;
      cursor, wasPaused, needsPositionSync, suppressNextVolume := None, false, false, false;
      lastSessionStart, anchor, sent := None, None, [];
    }

    /** Without a server address and a player nothing is handled at all. */
    method HandlePlayerEvent(e: Event, now: nat)
      modifies this
      ensures !configured ==> State() == old(State()) && sent == old(sent)
      ensures configured ==> State() == Handle(old(State()), e, now).0
      ensures configured ==> sent == old(sent) + Handle(old(State()), e, now).1
    {
      if !configured {
        return;
      }
      match e {
        case Playing(id, pos) => OnPlaying(id, pos, now);
        case Paused(pos) =>
          SetAnchor(pos, now, false);
          if lastSessionStart.Some? && now - lastSessionStart.value < GRACE_NS {
            return;
          }
          if cursor.Some? {
            wasPaused := true;
            sent := sent + [Stop(ByPause)];
          }
        case Stopped =>
          anchor := None;
          if cursor.Some? {
            sent := sent + [Stop(ByStop)];
            cursor := None;
          }
        case VolumeChanged(v) =>
          var suppress := suppressNextVolume;
          suppressNextVolume := false;
          if !suppress {
            sent := sent + [Volume(VolumePercent(v))];
          }
        case Seeked(pos) =>
          UpdateAnchorPosition(pos, now);
          if cursor.Some? {
            sent := sent + [Seek(pos, ByUser)];
          }
        case SessionConnected => suppressNextVolume := true;
        case TrackChanged(id) => OnTrackChanged(id, now);
        case PositionCorrection(pos) => UpdateAnchorPosition(pos, now);
        case SessionDisconnected =>
          if cursor.Some? {
            sent := sent + [Stop(Inactive)];
          }
        case Other =>
      }
    }

    method OnPlaying(id: Id, pos: nat, now: nat)
      modifies this
      ensures State() == Handle(old(State()), Playing(id, pos), now).0
      ensures sent == old(sent) + Handle(old(State()), Playing(id, pos), now).1
    {
      SetAnchor(pos, now, true);
      var resuming := wasPaused;
      wasPaused := false;
      match cursor {
        case None => cursor := Some(id);
        case Some(previous) =>
          if previous == id {
            if resuming {
              sent := sent + [Resume(id, pos)];
            }
          } else {
            cursor := Some(id);
            sent := sent + [Change(id, previous)];
          }
          var sync := needsPositionSync;
          needsPositionSync := false;
          if sync && pos > 1000 {
            sent := sent + [Seek(pos, Sync)];
          }
      }
    }

    method OnTrackChanged(id: Id, now: nat)
      modifies this
      ensures State() == Handle(old(State()), TrackChanged(id), now).0
      ensures sent == old(sent) + Handle(old(State()), TrackChanged(id), now).1
    {
      anchor := None;
      match cursor {
        case None =>
          lastSessionStart := Some(now);
          needsPositionSync := true;
          cursor := Some(id);
          sent := sent + [Start(id)];
        case Some(previous) =>
          wasPaused := false;
          if previous != id {
            cursor := Some(id);
            sent := sent + [Change(id, previous)];
          }
      }
    }

    method SetAnchor(pos: nat, now: nat, playing: bool)
      modifies this`anchor
      ensures anchor == Some(Anchor(pos, now, playing))
    {
      anchor := Some(Anchor(pos, now, playing));
    }

    /** A seek or a correction moves the position but keeps the play state; without an anchor the state is paused. */
    method UpdateAnchorPosition(pos: nat, now: nat)
      modifies this`anchor
      ensures anchor == Some(Anchor(pos, now, old(anchor.Some? && anchor.value.playing)))
    {
      var playing := if anchor.Some? then anchor.value.playing else false;
      anchor := Some(Anchor(pos, now, playing));
    }
  }

  // ---------------------------------------------------------------------------------------
  // The anchor and the history
  // ---------------------------------------------------------------------------------------

  /** The events since the last TrackChanged or Stopped. */
  function SinceReset(h: History): History {
    if h == [] || Last(h).event.TrackChanged? || Last(h).event.Stopped? then []
    else SinceReset(Front(h)) + [Last(h)]
  }

  predicate CarriesPosition(e: Event) {
    e.Playing? || e.Paused? || e.Seeked? || e.PositionCorrection?
  }

  /** The latest event that carries a position. */
  function LastPosition(h: History): (r: Option<Timed>)
    ensures r.Some? ==> CarriesPosition(r.value.event)
  {
    if h == [] then None
    else if CarriesPosition(Last(h).event) then Some(Last(h)) else LastPosition(Front(h))
  }

  /** Whether the latest of Playing and Paused is Playing. */
  predicate LastIsPlaying(h: History) {
    h != [] && (Last(h).event.Playing? || (!Last(h).event.Paused? && LastIsPlaying(Front(h))))
  }

  function ExpectedAnchor(recent: History): Option<Anchor> {
    match LastPosition(recent)
    case None => None
    case Some(t) => Some(Anchor(t.event.positionMs, t.at, LastIsPlaying(recent)))
  }

  lemma {:induction false} PlayStateNeedsPosition(h: History)
    ensures LastIsPlaying(h) ==> LastPosition(h).Some?
  {
    if h != [] {
      PlayStateNeedsPosition(Front(h));
    }
  }

  lemma HandleKeepsAnchor(s: Lms, recent: History, x: Timed)
    requires s.anchor == ExpectedAnchor(recent)
    ensures Handle(s, x.event, x.at).0.anchor
         == ExpectedAnchor(if x.event.TrackChanged? || x.event.Stopped? then [] else recent + [x])
  {
    hide VolumePercent;
    SnocParts(recent, x);
    PlayStateNeedsPosition(recent);
  }

  /** The anchor is a function of what happened since the last track change or stop. */
  lemma {:induction false} AnchorFollowsHistory(h: History)
    ensures After(h).anchor == ExpectedAnchor(SinceReset(h))
  {
    EmptyHistory();
    if h != [] {
      hide SinceReset, After, ExpectedAnchor, Handle;
      AnchorFollowsHistory(Front(h));
      HandleKeepsAnchor(After(Front(h)), SinceReset(Front(h)), Last(h));
      SinceResetUnfold(h);
      AfterUnfold(h);
    }
  }

  lemma EmptyHistory()
    ensures ExpectedAnchor([]) == None && SinceReset([]) == [] && After([]) == INITIAL
  {
  }

  lemma SinceResetUnfold(h: History)
    requires h != []
    ensures SinceReset(h) == if Last(h).event.TrackChanged? || Last(h).event.Stopped? then []
                             else SinceReset(Front(h)) + [Last(h)]
  {
  }

  lemma AfterUnfold(h: History)
    requires h != []
    ensures After(h) == Handle(After(Front(h)), Last(h).event, Last(h).at).0
    ensures Notes(h) == Notes(Front(h)) + Handle(After(Front(h)), Last(h).event, Last(h).at).1
  {
  }

  /** The position a starting relay pushes, if any; the elapsed milliseconds and the sum are 64-bit. */
  function RelayResyncPositionMs(anchor: Option<Anchor>, now: nat): Option<nat> {
    match anchor
    case None => None
    case Some(a) =>
      if !a.playing then None
      else
        var extrapolated := (a.positionMs + Max(now - a.at, 0) / NS_PER_MS % U64_LIMIT) % U64_LIMIT;
        if extrapolated <= 1000 then None else Some(extrapolated)
  }

  /**
   A starting relay pushes a position exactly when, since the last track change or stop, the latest of Playing and
   Paused was Playing; it is then the latest position of that track plus the time since it was reported, in 64 bits.
   */
  lemma ResyncIsLatestPosition(h: History, now: nat)
    ensures var r := RelayResyncPositionMs(After(h).anchor, now);
            var recent := SinceReset(h);
            && (LastIsPlaying(recent) ==> LastPosition(recent).Some?)
            && (r.Some? ==> LastIsPlaying(recent))
            && (LastIsPlaying(recent) ==>
                  var t := LastPosition(recent).value;
                  var due := t.event.positionMs + Max(now - t.at, 0) / 1_000_000;
                  var sent := due % 0x1_0000_0000_0000_0000;
                  r == if sent <= 1000 then None else Some(sent))
  {
    hide After, SinceReset, LastPosition, LastIsPlaying;
    AnchorFollowsHistory(h);
    PlayStateNeedsPosition(SinceReset(h));
    if LastPosition(SinceReset(h)).Some? {
      var t := LastPosition(SinceReset(h)).value;
      WrapTwice(t.event.positionMs, Max(now - t.at, 0) / NS_PER_MS);
    }
  }

  lemma WrapTwice(a: nat, b: nat)
    ensures (a + b % U64_LIMIT) % U64_LIMIT == (a + b) % U64_LIMIT
  {
  }

  // ---------------------------------------------------------------------------------------
  // The cursor, the pause flag and the volume flag as functions of the history
  // ---------------------------------------------------------------------------------------

  /** The id named by the latest Playing or TrackChanged since the last Stopped. */
  function LatestTrack(h: History): Option<Id> {
    if h == [] then None
    else match Last(h).event
      case Playing(id, _) => Some(id)
      case TrackChanged(id) => Some(id)
      case Stopped => None
      case _ => LatestTrack(Front(h))
  }

  lemma {:induction false} CursorFollowsHistory(h: History)
    ensures After(h).cursor == LatestTrack(h)
  {
    if h != [] {
      CursorFollowsHistory(Front(h));
      hide After;
      AfterUnfold(h);
    }
  }

  /** No VolumeChanged has come since the latest SessionConnected. */
  predicate EchoExpected(h: History) {
    h != [] && (Last(h).event.SessionConnected? || (!Last(h).event.VolumeChanged? && EchoExpected(Front(h))))
  }

  /** A volume change is forwarded unless it is the first one after a session connect. */
  lemma {:induction false} VolumeIsForwardedUnlessEcho(h: History, volume: nat, now: nat)
    ensures After(h).suppressNextVolume == EchoExpected(h)
    ensures Handle(After(h), VolumeChanged(volume), now).1
         == if EchoExpected(h) then [] else [Volume(VolumePercent(volume))]
  {
    if h != [] {
      VolumeIsForwardedUnlessEcho(Front(h), volume, now);
      hide After;
      AfterUnfold(h);
    }
  }

  /** Exactly when each track notification is sent, in terms of the history alone. */
  lemma TrackNotifications(h: History, e: Event, now: nat)
    ensures var notes := Handle(After(h), e, now).1;
            var cursor := LatestTrack(h);
            && (forall id :: Start(id) in notes <==> e == TrackChanged(id) && cursor == None)
            && (forall id, previous :: Change(id, previous) in notes <==>
                  (e == TrackChanged(id) || (e.Playing? && e.id == id)) && cursor == Some(previous) && previous != id)
            && (Stop(ByStop) in notes <==> e == Stopped && cursor.Some?)
            && (Stop(Inactive) in notes <==> e == SessionDisconnected && cursor.Some?)
            && (Stop(ByPause) in notes <==> e.Paused? && cursor.Some? && !InGrace(After(h), now))
  {
    CursorFollowsHistory(h);
    hide After, LatestTrack, VolumePercent;
  }

  /** When the latest session started: a TrackChanged that found no current track. */
  function SessionStart(h: History): Option<nat> {
    if h == [] then None
    else if Last(h).event.TrackChanged? && LatestTrack(Front(h)) == None then Some(Last(h).at)
    else SessionStart(Front(h))
  }

  /** A pause of the current track that the grace timer does not swallow. */
  predicate ReportedPause(h: History, e: Event, at: nat) {
    && e.Paused? && LatestTrack(h).Some?
    && !(SessionStart(h).Some? && at - SessionStart(h).value < GRACE_NS)
  }

  /** A pause was reported, and neither a Playing nor a track change inside a session has come since. */
  predicate PausePending(h: History) {
    h != [] &&
    var before, x := Front(h), Last(h);
    ReportedPause(before, x.event, x.at)
    || (!x.event.Playing? && !(x.event.TrackChanged? && LatestTrack(before).Some?) && PausePending(before))
  }

  /** A session started, and no Playing has found its track current since. */
  predicate SyncPending(h: History) {
    h != [] &&
    var before, x := Front(h), Last(h);
    (x.event.TrackChanged? && LatestTrack(before) == None)
    || (!(x.event.Playing? && LatestTrack(before).Some?) && SyncPending(before))
  }

  predicate FlagsMatch(s: Lms, h: History) {
    s.lastSessionStart == SessionStart(h) && s.wasPaused == PausePending(h) && s.needsPositionSync == SyncPending(h)
  }

  lemma FlagsUnfold(h: History, x: Timed)
    ensures SessionStart(h + [x]) ==
              if x.event.TrackChanged? && LatestTrack(h) == None then Some(x.at) else SessionStart(h)
    ensures PausePending(h + [x]) <==>
              || ReportedPause(h, x.event, x.at)
              || (!x.event.Playing? && !(x.event.TrackChanged? && LatestTrack(h).Some?) && PausePending(h))
    ensures SyncPending(h + [x]) <==>
              || (x.event.TrackChanged? && LatestTrack(h) == None)
              || (!(x.event.Playing? && LatestTrack(h).Some?) && SyncPending(h))
  {
    hide LatestTrack, ReportedPause;
    SnocParts(h, x);
  }

  lemma HandleKeepsFlags(s: Lms, h: History, x: Timed)
    requires FlagsMatch(s, h) && s.cursor == LatestTrack(h)
    ensures FlagsMatch(Handle(s, x.event, x.at).0, h + [x])
  {
    hide LatestTrack, SessionStart, PausePending, SyncPending, VolumePercent, SyncSeek, KeepPlaying;
    FlagsUnfold(h, x);
  }

  lemma {:induction false} FlagsFollowHistory(h: History)
    ensures FlagsMatch(After(h), h)
  {
    if h != [] {
      FlagsFollowHistory(Front(h));
      CursorFollowsHistory(Front(h));
      hide After, LatestTrack, FlagsMatch, Handle;
      AfterUnfold(h);
      HandleKeepsFlags(After(Front(h)), Front(h), Last(h));
      assert h == Front(h) + [Last(h)];
    } else {
      NoFlags();
    }
  }

  lemma NoFlags()
    ensures FlagsMatch(After([]), [])
  {
  }

  /** Exactly when a resume and a position sync are sent, in terms of the history alone. */
  lemma ResumeAndSyncNotifications(h: History, e: Event, now: nat)
    ensures var notes := Handle(After(h), e, now).1;
            && (forall id, pos :: Resume(id, pos) in notes <==>
                  e == Playing(id, pos) && LatestTrack(h) == Some(id) && PausePending(h))
            && (forall pos :: Seek(pos, Sync) in notes <==>
                  e.Playing? && e.positionMs == pos > 1000 && LatestTrack(h).Some? && SyncPending(h))
            && (Stop(ByPause) in notes <==> ReportedPause(h, e, now))
  {
    CursorFollowsHistory(h);
    FlagsFollowHistory(h);
    hide After, LatestTrack, PausePending, SyncPending, SessionStart, VolumePercent;
  }

  /** Exactly when a user's seek and a volume are sent. */
  lemma SeekAndVolumeNotifications(h: History, e: Event, now: nat)
    ensures var notes := Handle(After(h), e, now).1;
            && (forall pos :: Seek(pos, ByUser) in notes <==> e == Seeked(pos) && LatestTrack(h).Some?)
            && (forall percent :: Volume(percent) in notes <==>
                  e.VolumeChanged? && percent == (e.volume * 100 + 32767) / 65535 && !EchoExpected(h))
  {
    CursorFollowsHistory(h);
    if e.VolumeChanged? {
      VolumeIsForwardedUnlessEcho(h, e.volume, now);
    }
    hide After, LatestTrack, EchoExpected;
  }

  /** A seek of the user is passed on as long as a track is current. */
  lemma UserSeekIsForwarded(h: History, pos: nat, now: nat)
    ensures Handle(After(h), Seeked(pos), now).1 == if LatestTrack(h) == None then [] else [Seek(pos, ByUser)]
  {
    CursorFollowsHistory(h);
    hide After, LatestTrack;
  }

  /** The grace period is two seconds, the end of it excluded. */
  lemma GraceIsTwoSeconds(h: History, start: nat, pos: nat, now: nat)
    requires LatestTrack(h).Some? && SessionStart(h) == Some(start)
    ensures Stop(ByPause) in Handle(After(h), Paused(pos), now).1 <==> now - start >= 2_000_000_000
  {
    hide After, LatestTrack, SessionStart;
    ResumeAndSyncNotifications(h, Paused(pos), now);
  }

  /** A Playing that sends a position sync on top of a change or a resume. */
  predicate SendsTwo(h: History, e: Event) {
    && e.Playing? && e.positionMs > 1000 && LatestTrack(h).Some? && SyncPending(h)
    && (LatestTrack(h) != Some(e.id) || PausePending(h))
  }

  /** An event sends at most one notification, except such a Playing, which sends two. */
  lemma AtMostOneNotification(h: History, e: Event, now: nat)
    ensures |Handle(After(h), e, now).1| <= 1 <==> !SendsTwo(h, e)
    ensures |Handle(After(h), e, now).1| <= 2
    ensures SendsTwo(h, e) ==> Handle(After(h), e, now).1[1] == Seek(e.positionMs, Sync)
  {
    CursorFollowsHistory(h);
    FlagsFollowHistory(h);
    hide After, LatestTrack, PausePending, SyncPending, SessionStart, VolumePercent;
  }

  /** It happens when another track than the announced one starts playing beyond its first second. */
  lemma ChangeAndSync(first: Id, second: Id)
    requires first != second
    ensures var h := [Timed(TrackChanged(first), 0)];
            Handle(After(h), Playing(second, 2000), 1).1 == [Change(second, first), Seek(2000, Sync)]
  {
    var h := [Timed(TrackChanged(first), 0)];
    assert Front(h) == [];
    AfterUnfold(h);
    EmptyHistory();
  }

  // ---------------------------------------------------------------------------------------
  // The language of notifications over whole runs
  // ---------------------------------------------------------------------------------------

  /** A `b` has been sent and no `a` since. */
  predicate Fresh(notes: seq<Note>, a: Note -> bool, b: Note -> bool) {
    notes != [] && !a(Last(notes)) && (b(Last(notes)) || Fresh(Front(notes), a, b))
  }

  /** Every `a` answers an earlier `b` that no other `a` has answered. */
  predicate Answers(notes: seq<Note>, a: Note -> bool, b: Note -> bool) {
    notes == [] || (Answers(Front(notes), a, b) && (a(Last(notes)) ==> Fresh(Front(notes), a, b)))
  }

  lemma {:induction false} FreshMeans(notes: seq<Note>, a: Note -> bool, b: Note -> bool) returns (k: nat)
    requires Fresh(notes, a, b)
    ensures k < |notes| && b(notes[k]) && forall i :: k <= i < |notes| ==> !a(notes[i])
  {
    var front := Front(notes);
    if b(Last(notes)) {
      k := |front|;
    } else {
      k := FreshMeans(front, a, b);
    }
    forall i | k <= i < |notes|
      ensures !a(notes[i])
    {
      assert i < |front| ==> notes[i] == front[i];
    }
  }

  /** What Answers says about positions in the sequence. */
  lemma {:induction false} AnswersMeans(notes: seq<Note>, a: Note -> bool, b: Note -> bool, j: nat)
    requires Answers(notes, a, b) && j < |notes| && a(notes[j])
    ensures exists k :: 0 <= k < j && b(notes[k]) && forall i :: k <= i < j ==> !a(notes[i])
  {
    hide Fresh;
    var front := Front(notes);
    if j == |front| {
      var k := FreshMeans(front, a, b);
      assert b(notes[k]) && forall i :: k <= i < j ==> notes[i] == front[i];
    } else {
      AnswersMeans(front, a, b, j);
      var k :| 0 <= k < j && b(front[k]) && forall i :: k <= i < j ==> !a(front[i]);
      assert b(notes[k]) && forall i :: k <= i < j ==> notes[i] == front[i];
    }
  }

  predicate IsResume(n: Note) { n.Resume? }
  predicate IsPauseStop(n: Note) { n == Stop(ByPause) }
  predicate IsSync(n: Note) { n.Seek? && n.why == Sync }
  predicate IsStart(n: Note) { n.Start? }
  predicate IsEnd(n: Note) { n == Stop(ByStop) }

  /** No start has been sent since the latest stop caused by Stopped. */
  predicate Ended(notes: seq<Note>) {
    notes == [] || IsEnd(Last(notes)) || (!IsStart(Last(notes)) && Ended(Front(notes)))
  }

  /** Any two starts have a stop caused by Stopped between them. */
  predicate StartsSeparated(notes: seq<Note>) {
    notes == [] || (StartsSeparated(Front(notes)) && (IsStart(Last(notes)) ==> Ended(Front(notes))))
  }

  predicate Language(s: Lms, notes: seq<Note>) {
    && Answers(notes, IsResume, IsPauseStop) && (s.wasPaused ==> Fresh(notes, IsResume, IsPauseStop))
    && Answers(notes, IsSync, IsStart) && (s.needsPositionSync ==> Fresh(notes, IsSync, IsStart))
    && StartsSeparated(notes) && (s.cursor == None ==> Ended(notes))
  }

  lemma LanguageSnoc(notes: seq<Note>, n: Note)
    ensures Fresh(notes + [n], IsResume, IsPauseStop) <==>
              !IsResume(n) && (IsPauseStop(n) || Fresh(notes, IsResume, IsPauseStop))
    ensures Fresh(notes + [n], IsSync, IsStart) <==> !IsSync(n) && (IsStart(n) || Fresh(notes, IsSync, IsStart))
    ensures Answers(notes + [n], IsResume, IsPauseStop) <==>
              Answers(notes, IsResume, IsPauseStop) && (IsResume(n) ==> Fresh(notes, IsResume, IsPauseStop))
    ensures Answers(notes + [n], IsSync, IsStart) <==>
              Answers(notes, IsSync, IsStart) && (IsSync(n) ==> Fresh(notes, IsSync, IsStart))
    ensures Ended(notes + [n]) <==> IsEnd(n) || (!IsStart(n) && Ended(notes))
    ensures StartsSeparated(notes + [n]) <==> StartsSeparated(notes) && (IsStart(n) ==> Ended(notes))
  {
    SnocParts(notes, n);
  }

  lemma HandleKeepsLanguage(s: Lms, notes: seq<Note>, e: Event, now: nat)
    requires Language(s, notes)
    ensures Language(Handle(s, e, now).0, notes + Handle(s, e, now).1)
  {
    hide Fresh, Answers, Ended, StartsSeparated, VolumePercent;
    var more := Handle(s, e, now).1;
    assert notes + [] == notes;
    if |more| >= 1 {
      LanguageSnoc(notes, more[0]);
      assert |more| == 1 ==> more == [more[0]];
    }
    if |more| == 2 {
      LanguageSnoc(notes + [more[0]], more[1]);
      assert notes + more == notes + [more[0]] + [more[1]];
    }
  }

  /**
   Over every run: a resume answers a pause that was really reported and that no resume has answered; a
   position-sync seek answers a start that no such seek has answered; two starts have a Stopped between them.
   */
  lemma {:induction false} NotificationLanguage(h: History)
    ensures Answers(Notes(h), IsResume, IsPauseStop)
    ensures Answers(Notes(h), IsSync, IsStart)
    ensures StartsSeparated(Notes(h))
    ensures Language(After(h), Notes(h))
  {
    if h != [] {
      NotificationLanguage(Front(h));
      HandleKeepsLanguage(After(Front(h)), Notes(Front(h)), Last(h).event, Last(h).at);
      hide Language, Handle;
      AfterUnfold(h);
      LanguageParts(After(h), Notes(h));
    }
  }

  lemma LanguageParts(s: Lms, notes: seq<Note>)
    requires Language(s, notes)
    ensures Answers(notes, IsResume, IsPauseStop) && Answers(notes, IsSync, IsStart) && StartsSeparated(notes)
  {
  }

  lemma {:induction false} SeparatedMeans(notes: seq<Note>, i: nat, j: nat)
    requires StartsSeparated(notes) && i < j < |notes| && IsStart(notes[i]) && IsStart(notes[j])
    ensures exists k :: i < k < j && IsEnd(notes[k])
  {
    if j == |notes| - 1 {
      EndedMeans(Front(notes), i);
      var k :| i < k < j && IsEnd(Front(notes)[k]);
      assert IsEnd(notes[k]);
    } else {
      SeparatedMeans(Front(notes), i, j);
      var k :| i < k < j && IsEnd(Front(notes)[k]);
      assert IsEnd(notes[k]);
    }
  }

  lemma {:induction false} EndedMeans(notes: seq<Note>, i: nat)
    requires Ended(notes) && i < |notes| && IsStart(notes[i])
    ensures exists k :: i < k < |notes| && IsEnd(notes[k])
  {
    if IsEnd(Last(notes)) {
      assert IsEnd(notes[|notes| - 1]);
    } else {
      EndedMeans(Front(notes), i);
      var k :| i < k < |notes| - 1 && IsEnd(Front(notes)[k]);
      assert IsEnd(notes[k]);
    }
  }

  /** A pause has been reported since the last track change of `es`, which follow `h`. */
  predicate PausedWithin(h: History, es: History) {
    es != [] &&
    (ReportedPause(h + Front(es), Last(es).event, Last(es).at)
     || (!Last(es).event.TrackChanged? && PausedWithin(h, Front(es))))
  }

  predicate KeepsTrack(es: History) {
    forall x | x in es :: !x.event.TrackChanged?
  }

  /** Nothing has played yet and the session has not ended. */
  predicate BeforeFirstPlaying(es: History) {
    forall x | x in es :: !x.event.Playing? && !x.event.Stopped?
  }

  lemma {:induction false} PauseCarriesOver(h: History, es: History)
    requires LatestTrack(h).Some? && BeforeFirstPlaying(es)
    ensures LatestTrack(h + es).Some?
    ensures PausePending(h + es) <==> PausedWithin(h, es) || (KeepsTrack(es) && PausePending(h))
  {
    hide LatestTrack, PausePending, ReportedPause;
    if es == [] {
      assert h + es == h;
    } else {
      var front, x := Front(es), Last(es);
      assert es == front + [x] && h + es == (h + front) + [x];
      PauseCarriesOver(h, front);
      FlagsUnfold(h + front, x);
      TrackUnfold(h + front, x);
    }
  }

  lemma TrackUnfold(h: History, x: Timed)
    ensures LatestTrack(h + [x]) == match x.event
                                    case Playing(id, _) => Some(id)
                                    case TrackChanged(id) => Some(id)
                                    case Stopped => None
                                    case _ => LatestTrack(h)
  {
    SnocParts(h, x);
  }

  /**
   The pause flag is cleared by a track change inside a session but not by the one that starts a session. So the
   first Playing of a session is announced as a resume exactly when its track is current and either a pause was
   reported in this session since its last track change, or the track has not changed and a pause was pending before
   the session.
   */
  lemma SessionStartResumesStalePause(h: History, first: Id, t: nat, es: History, id: Id, pos: nat, now: nat)
    requires LatestTrack(h) == None && BeforeFirstPlaying(es)
    ensures var started := h + [Timed(TrackChanged(first), t)];
            Resume(id, pos) in Handle(After(started + es), Playing(id, pos), now).1 <==>
              LatestTrack(started + es) == Some(id) &&
              (PausedWithin(started, es) || (KeepsTrack(es) && PausePending(h)))
  {
    hide After, Handle, LatestTrack, PausePending, SyncPending, ReportedPause, PausedWithin;
    var x := Timed(TrackChanged(first), t);
    var started := h + [x];
    TrackUnfold(h, x);
    FlagsUnfold(h, x);
    PauseNeedsPause(h, x);
    PauseCarriesOver(started, es);
    ResumeAndSyncNotifications(started + es, Playing(id, pos), now);
  }

  lemma PauseNeedsPause(h: History, x: Timed)
    ensures ReportedPause(h, x.event, x.at) ==> x.event.Paused?
  {
  }

  /** It does happen: pause, stop, and a pause is pending although no track is current. */
  lemma PauseSurvivesStop(id: Id)
    ensures var h := [Timed(TrackChanged(id), 0), Timed(Paused(0), GRACE_NS), Timed(Stopped, GRACE_NS)];
            LatestTrack(h) == None && PausePending(h)
  {
    var h1 := [Timed(TrackChanged(id), 0)];
    var h2 := [Timed(TrackChanged(id), 0), Timed(Paused(0), GRACE_NS)];
    var h3 := [Timed(TrackChanged(id), 0), Timed(Paused(0), GRACE_NS), Timed(Stopped, GRACE_NS)];
    assert Front(h1) == [] && Front(h2) == h1 && Front(h3) == h2;
    AfterUnfold(h1);
    AfterUnfold(h2);
    AfterUnfold(h3);
    assert After([]) == INITIAL;
  }
}
