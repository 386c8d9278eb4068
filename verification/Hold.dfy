/**
 The hold on a natural title end. Instead of playing the next title at once, it is inserted as the next playlist
 entry and the server is left to advance by itself; a safety timer falls back to an immediate play. Instants and
 durations are real seconds; the constants of the player engine are parameters.
 */
module Hold {
  import opened Base

  type Url = string

  datatype Mode = Playing | PausedMode | StoppedMode

  /** What the handlers see of the server: the playlist, the playing index, and two kinds of pause. */
  datatype Player = Player(playlist: seq<Url>, index: nat, mode: Mode, sessionPaused: bool)

  datatype Caps = Caps(cap: real, recheck: real, max: real)

  predicate Positive(caps: Caps) {
    caps.cap > 0.0 && caps.recheck > 0.0 && caps.max > 0.0
  }

  /** `id` and `playingChecks` are history: which hold this is, and how many checks found the old title playing. */
  datatype OpenHold = OpenHold(uri: Url, oldUrl: Url, playingIdx: nat, since: real, heldS: real, lastCheck: real,
                               id: nat, playingChecks: nat)

  datatype How = ByNewSong | ByCancel | ByCap | ByReplacement

  datatype Record =
    | Opened(id: nat, uri: Url)
    | Ended(id: nat, how: How)
    | Played(id: nat, uri: Url)

  datatype State = State(hold: Option<OpenHold>, timers: seq<real>, player: Player, count: nat, log: seq<Record>)

  // ---------------------------------------------------------------------------------------
  // The server's playlist commands
  // ---------------------------------------------------------------------------------------

  /** The url at an index, or the empty string. */
  function UrlAt(p: Player, idx: nat): Url {
    if idx < |p.playlist| then p.playlist[idx] else ""
  }

  function PlayingUrl(p: Player): Url {
    UrlAt(p, p.index)
  }

  /** `playlist insert`: the new entry comes right after the playing one. */
  function Insert(p: Player, uri: Url): Player {
    var at := Min(p.index + 1, |p.playlist|);
    p.(playlist := p.playlist[..at] + [uri] + p.playlist[at..])
  }

  /** `playlist delete`: entries before the playing one shift it. */
  function Delete(p: Player, at: nat): Player {
    if at >= |p.playlist| then p
    else p.(playlist := p.playlist[..at] + p.playlist[at + 1..], index := if at < p.index then p.index - 1 else p.index)
  }

  /** `playlist play`: the playlist becomes the one item. */
  function PlayOnly(p: Player, uri: Url): Player {
    Player([uri], 0, Playing, false)
  }

  // ---------------------------------------------------------------------------------------
  // The hold
  // ---------------------------------------------------------------------------------------

  function RemoveDeferred(p: Player, h: OpenHold): Player {
    if UrlAt(p, h.playingIdx + 1) == h.uri then Delete(p, h.playingIdx + 1) else p
  }

  function Close(s: State, how: How): State {
    match s.hold
    case None => s
    case Some(h) => s.(hold := None, timers := [], log := s.log + [Ended(h.id, how)])
  }

  function Cancel(s: State): State {
    match s.hold
    case None => s
    case Some(h) => Close(s.(player := RemoveDeferred(s.player, h)), ByCancel)
  }

  function Fallback(s: State): State {
    match s.hold
    case None => s
    case Some(h) =>
      var closed := Close(s, ByCap);
      closed.(player := PlayOnly(s.player, h.uri), log := closed.log + [Played(h.id, h.uri)])
  }

  function NewHold(s: State, uri: Url, now: real): OpenHold {
    OpenHold(uri, PlayingUrl(s.player), s.player.index, now, 0.0, now, s.count, 0)
  }

  /** Open a hold; one that is already open is replaced together with its deferred entry. */
  function Open(s: State, caps: Caps, uri: Url, now: real): State {
    var r := if s.hold.None? then s else Close(s.(player := RemoveDeferred(s.player, s.hold.value)), ByReplacement);
    State(Some(NewHold(r, uri, now)), r.timers + [now + caps.cap], Insert(r.player, uri), s.count + 1,
          r.log + [Opened(s.count, uri)])
  }

  /** A change that is not held: an open hold is cancelled, and usually the new title is played at once. */
  function ChangeNow(s: State, plays: bool, uri: Url): State {
    var c := Cancel(s);
    if plays then c.(player := PlayOnly(c.player, uri)) else c
  }

  function AtNewSong(s: State): State {
    match s.hold
    case None => s
    case Some(h) =>
      if PlayingUrl(s.player) != h.uri then Cancel(s)
      else
        var c := Close(s, ByNewSong);
        var p := if UrlAt(s.player, h.playingIdx) == h.oldUrl then Delete(s.player, h.playingIdx) else s.player;
        c.(player := p.(sessionPaused := false))
  }

  predicate PausedNow(p: Player) {
    p.mode == PausedMode || p.sessionPaused
  }

  /** The safety check; the timer that fired is already off the list. */
  function Check(s: State, caps: Caps, now: real): State {
    match s.hold
    case None => s
    case Some(h) =>
      var url := PlayingUrl(s.player);
      if url == h.uri then Close(s, ByNewSong)
      else if s.player.mode == StoppedMode then Fallback(s)
      else if PausedNow(s.player) then s.(hold := Some(h.(lastCheck := now)), timers := s.timers + [now + caps.recheck])
      else
        var g := Charged(h, url, now);
        var t := s.(hold := Some(g));
        if g.heldS >= caps.max then Fallback(t) else t.(timers := t.timers + [now + caps.recheck])
  }

  /** Only time on the old title counts against the ceiling; a clock that ran backwards counts nothing. */
  function Charged(h: OpenHold, url: Url, now: real): OpenHold {
    var delta := if now < h.lastCheck then 0.0 else now - h.lastCheck;
    if url == h.oldUrl then h.(heldS := h.heldS + delta, lastCheck := now, playingChecks := h.playingChecks + 1)
    else h.(lastCheck := now)
  }

  datatype Event =
    | Live(uri: Url, now: real)
    | NotLive(plays: bool, uri: Url)
    | NewSong
    | UserOrSession // a new start, a session end, or a stop, clear, seek or jump on the server
    | TimerFires(now: real)
    | ServerBecomes(player: Player)

  /** A timer that is due fires at its instant or later; everything else may happen at any time. */
  function Step(s: State, caps: Caps, e: Event): State {
    match e
    case Live(uri, now) => Open(s, caps, uri, now)
    case NotLive(plays, uri) => ChangeNow(s, plays, uri)
    case NewSong => AtNewSong(s)
    case UserOrSession => Cancel(s)
    case TimerFires(now) =>
      if s.timers == [] || now < s.timers[0] then s else Check(s.(timers := s.timers[1..]), caps, now)
    case ServerBecomes(p) => s.(player := p)
  }

  function Run(s: State, caps: Caps, es: seq<Event>): State {
    if es == [] then s else Step(Run(s, caps, Front(es)), caps, Last(es))
  }

  function Initial(p: Player): State {
    State(None, [], p, 0, [])
  }

  // ---------------------------------------------------------------------------------------
  // Ledger: one timer per open hold, one ending per hold, one play exactly for a cap
  // ---------------------------------------------------------------------------------------

  function Endings(log: seq<Record>, id: nat): nat {
    if log == [] then 0
    else Endings(Front(log), id) + if Last(log).Ended? && Last(log).id == id then 1 else 0
  }

  function CapEndings(log: seq<Record>, id: nat): nat {
    if log == [] then 0
    else CapEndings(Front(log), id) + if Last(log) == Ended(id, ByCap) then 1 else 0
  }

  function Openings(log: seq<Record>, id: nat): nat {
    if log == [] then 0
    else Openings(Front(log), id) + if Last(log).Opened? && Last(log).id == id then 1 else 0
  }

  function Plays(log: seq<Record>, id: nat): nat {
    if log == [] then 0
    else Plays(Front(log), id) + if Last(log).Played? && Last(log).id == id then 1 else 0
  }

  lemma LedgerSnoc(log: seq<Record>, r: Record, id: nat)
    ensures Endings(log + [r], id) == Endings(log, id) + if r.Ended? && r.id == id then 1 else 0
    ensures CapEndings(log + [r], id) == CapEndings(log, id) + if r == Ended(id, ByCap) then 1 else 0
    ensures Plays(log + [r], id) == Plays(log, id) + if r.Played? && r.id == id then 1 else 0
    ensures Openings(log + [r], id) == Openings(log, id) + if r.Opened? && r.id == id then 1 else 0
  {
    SnocParts(log, r);
  }

  predicate IsOpen(s: State, id: nat) {
    s.hold.Some? && s.hold.value.id == id
  }

  /** What the log says about hold `id`. */
  predicate Ledger(s: State, id: nat) {
    && Endings(s.log, id) == (if id < s.count && !IsOpen(s, id) then 1 else 0)
    && Plays(s.log, id) == CapEndings(s.log, id)
    && Openings(s.log, id) == (if id < s.count then 1 else 0)
    && (s.hold.Some? ==> s.hold.value.id < s.count && Opened(s.hold.value.id, s.hold.value.uri) in s.log)
    && (forall r :: r in s.log && r.Played? ==> Opened(r.id, r.uri) in s.log)
  }

  lemma CloseKeepsLedger(s: State, how: How, id: nat)
    requires Ledger(s, id)
    ensures how != ByCap ==> Ledger(Close(s, how), id)
  {
    hide Endings, CapEndings, Openings, Plays;
    if s.hold.Some? {
      LedgerSnoc(s.log, Ended(s.hold.value.id, how), id);
    }
  }

  lemma CancelKeepsLedger(s: State, id: nat)
    requires Ledger(s, id)
    ensures Ledger(Cancel(s), id)
  {
    if s.hold.Some? {
      CloseKeepsLedger(s.(player := RemoveDeferred(s.player, s.hold.value)), ByCancel, id);
    }
  }

  lemma FallbackKeepsLedger(s: State, id: nat)
    requires Ledger(s, id)
    ensures Ledger(Fallback(s), id)
  {
    hide Endings, CapEndings, Openings, Plays;
    if s.hold.Some? {
      var h := s.hold.value;
      LedgerSnoc(s.log, Ended(h.id, ByCap), id);
      LedgerSnoc(s.log + [Ended(h.id, ByCap)], Played(h.id, h.uri), id);
    }
  }

  lemma OpenKeepsLedger(s: State, caps: Caps, uri: Url, now: real, id: nat)
    requires Ledger(s, id)
    ensures Ledger(Open(s, caps, uri, now), id)
  {
    hide Endings, CapEndings, Openings, Plays;
    var r := if s.hold.None? then s else Close(s.(player := RemoveDeferred(s.player, s.hold.value)), ByReplacement);
    if s.hold.Some? {
      CloseKeepsLedger(s.(player := RemoveDeferred(s.player, s.hold.value)), ByReplacement, id);
    }
    LedgerSnoc(r.log, Opened(s.count, uri), id);
  }

  lemma CheckKeepsLedger(s: State, caps: Caps, now: real, id: nat)
    requires Ledger(s, id)
    ensures Ledger(Check(s, caps, now), id)
  {
    hide Endings, CapEndings, Openings, Plays, Close, Fallback;
    CloseKeepsLedger(s, ByNewSong, id);
    FallbackKeepsLedger(s, id);
    if s.hold.Some? {
      FallbackKeepsLedger(s.(hold := Some(Charged(s.hold.value, PlayingUrl(s.player), now))), id);
    }
  }

  lemma StepKeepsLedger(s: State, caps: Caps, e: Event, id: nat)
    requires Ledger(s, id)
    ensures Ledger(Step(s, caps, e), id)
  {
    hide Endings, CapEndings, Openings, Plays, Check, Open, Cancel, Close;
    CancelKeepsLedger(s, id);
    CloseKeepsLedger(s, ByNewSong, id);
    match e {
      case Live(uri, now) => OpenKeepsLedger(s, caps, uri, now, id);
      case TimerFires(now) =>
        if s.timers != [] {
          CheckKeepsLedger(s.(timers := s.timers[1..]), caps, now, id);
        }
      case _ =>
    }
  }

  lemma {:induction false} RunKeepsLedger(p: Player, caps: Caps, es: seq<Event>, id: nat)
    ensures Ledger(Run(Initial(p), caps, es), id)
  {
    if es != [] {
      RunKeepsLedger(p, caps, Front(es), id);
      StepKeepsLedger(Run(Initial(p), caps, Front(es)), caps, Last(es), id);
      hide Ledger, Step;
    }
  }

  /**
   Over every run each hold is either open or has ended in exactly one way. Its fallback play was issued once if the
   cap ended it and never otherwise, and what was played is the item it was opened for.
   */
  lemma EveryHoldEndsOnce(p: Player, caps: Caps, es: seq<Event>, id: nat)
    ensures var s := Run(Initial(p), caps, es);
            && (id < s.count ==> Endings(s.log, id) == if IsOpen(s, id) then 0 else 1)
            && Plays(s.log, id) == CapEndings(s.log, id) <= Endings(s.log, id)
            && (forall r :: r in s.log && r.Played? ==> Opened(r.id, r.uri) in s.log)
            && (forall u, v :: Opened(id, u) in s.log && Opened(id, v) in s.log ==> u == v)
  {
    hide Run, Endings, Plays, CapEndings, Openings;
    var s := Run(Initial(p), caps, es);
    RunKeepsLedger(p, caps, es, id);
    CapsAreEndings(s.log, id);
    forall u, v | Opened(id, u) in s.log && Opened(id, v) in s.log
      ensures u == v
    {
      OpenedOnce(s.log, id, u, v);
    }
  }

  lemma {:induction false} Opens(log: seq<Record>, id: nat, u: Url)
    requires Opened(id, u) in log
    ensures Openings(log, id) >= 1
  {
    if Last(log) != Opened(id, u) {
      Opens(Front(log), id, u);
    }
  }

  lemma {:induction false} OpenedOnce(log: seq<Record>, id: nat, u: Url, v: Url)
    requires Openings(log, id) <= 1 && Opened(id, u) in log && Opened(id, v) in log
    ensures u == v
  {
    if Last(log) == Opened(id, u) || Last(log) == Opened(id, v) {
      if u != v {
        Opens(Front(log), id, if Last(log) == Opened(id, u) then v else u);
      }
    } else {
      OpenedOnce(Front(log), id, u, v);
    }
  }

  lemma {:induction false} CapsAreEndings(log: seq<Record>, id: nat)
    ensures CapEndings(log, id) <= Endings(log, id)
  {
    if log != [] {
      CapsAreEndings(Front(log), id);
    }
  }

  // ---------------------------------------------------------------------------------------
  // The timer and the ceiling
  // ---------------------------------------------------------------------------------------

  /** The shortest time between two checks. */
  function Tick(caps: Caps): real {
    if caps.cap < caps.recheck then caps.cap else caps.recheck
  }

  /** One timer per open hold, due a tick after the last check; every check of the old title has cost a tick. */
  predicate Timed(s: State, caps: Caps) {
    match s.hold
    case None => s.timers == []
    case Some(h) =>
      && |s.timers| == 1 && s.timers[0] >= h.lastCheck + Tick(caps)
      && h.playingChecks as real * Tick(caps) <= h.heldS < caps.max
      && h.heldS <= h.lastCheck - h.since
  }

  lemma StepStaysTimed(s: State, caps: Caps, e: Event)
    requires Timed(s, caps) && Positive(caps)
    ensures Timed(Step(s, caps, e), caps)
  {
    if e.TimerFires? && s.hold.Some? {
      var h := s.hold.value;
      assert (h.playingChecks + 1) as real * Tick(caps) == h.playingChecks as real * Tick(caps) + Tick(caps);
    }
  }

  lemma {:induction false} RunStaysTimed(p: Player, caps: Caps, es: seq<Event>)
    requires Positive(caps)
    ensures Timed(Run(Initial(p), caps, es), caps)
  {
    if es != [] {
      RunStaysTimed(p, caps, Front(es));
      StepStaysTimed(Run(Initial(p), caps, Front(es)), caps, Last(es));
      hide Timed, Step;
    }
  }

  /**
   Over every run an open hold has exactly one pending timer and a closed one none, and a hold that is still open has
   been checked while the old title was playing fewer than max / tick times, however often it was found paused.
   */
  lemma ChecksAreBounded(p: Player, caps: Caps, es: seq<Event>)
    requires Positive(caps)
    ensures var s := Run(Initial(p), caps, es);
            && |s.timers| == (if s.hold.Some? then 1 else 0)
            && (s.hold.Some? ==> s.hold.value.playingChecks as real * Tick(caps) < caps.max)
  {
    hide Run, Tick;
    RunStaysTimed(p, caps, es);
  }

  /**
   A check that plays while the server is not stopped does so out of running playback of the old title, and no sooner
   than the ceiling after the hold was opened.
   */
  lemma CeilingTakesItsTime(p: Player, caps: Caps, es: seq<Event>, now: real)
    requires Positive(caps) && Run(Initial(p), caps, es).hold.Some?
    requires Run(Initial(p), caps, es).player.mode != StoppedMode
    ensures var s := Run(Initial(p), caps, es);
            var h := s.hold.value;
            Step(s, caps, TimerFires(now)).log == s.log + [Ended(h.id, ByCap), Played(h.id, h.uri)] ==>
              now - h.since >= caps.max && PlayingUrl(s.player) == h.oldUrl && !PausedNow(s.player)
  {
    RunStaysTimed(p, caps, es);
    hide Run;
    var s := Run(Initial(p), caps, es);
    var t := Step(s, caps, TimerFires(now));
    if t.log == s.log + [Ended(s.hold.value.id, ByCap), Played(s.hold.value.id, s.hold.value.uri)] {
      assert t.log != s.log && Last(t.log).Played?;
    }
  }

  /** The server stays paused on some other title than the deferred one. */
  predicate StillPaused(e: Event, uri: Url) {
    || e.TimerFires?
    || (e.ServerBecomes? && PausedNow(e.player) && e.player.mode != StoppedMode && PlayingUrl(e.player) != uri)
  }

  /** However long and however often it is checked, a pause neither uses up the ceiling nor ends the hold. */
  lemma {:induction false} PauseIsFree(s: State, caps: Caps, es: seq<Event>)
    requires s.hold.Some? && StillPaused(ServerBecomes(s.player), s.hold.value.uri)
    requires forall i :: 0 <= i < |es| ==> StillPaused(es[i], s.hold.value.uri)
    ensures var t := Run(s, caps, es);
            && t.hold.Some? && t.hold.value == s.hold.value.(lastCheck := t.hold.value.lastCheck) && t.log == s.log
            && StillPaused(ServerBecomes(t.player), s.hold.value.uri)
  {
    if es != [] {
      PauseIsFree(s, caps, Front(es));
      assert StillPaused(Last(es), s.hold.value.uri);
      hide UrlAt;
    }
  }

  // ---------------------------------------------------------------------------------------
  // The playlist
  // ---------------------------------------------------------------------------------------

  /** Nothing happens but timer checks and changes of the play state. */
  predicate Quiet(e: Event, p: Player) {
    || e.TimerFires?
    || (e.ServerBecomes? && e.player.playlist == p.playlist && e.player.index == p.index)
  }

  predicate SameHold(g: OpenHold, h: OpenHold) {
    g.uri == h.uri && g.oldUrl == h.oldUrl && g.playingIdx == h.playingIdx && g.id == h.id
  }

  lemma QuietStep(s: State, caps: Caps, e: Event, p: Player)
    requires s.hold.Some? && s.player.playlist == p.playlist && s.player.index == p.index && Quiet(e, p)
    requires Step(s, caps, e).hold.Some?
    ensures var t := Step(s, caps, e);
            t.player.playlist == p.playlist && t.player.index == p.index && SameHold(t.hold.value, s.hold.value)
  {
  }

  lemma OnceClosedStaysClosed(s: State, caps: Caps, e: Event)
    requires s.hold.None? && !e.Live?
    ensures Step(s, caps, e).hold.None?
  {
  }

  /** Quiet events that leave a hold open leave the playlist and the hold's identity alone. */
  lemma {:induction false} QuietRun(s: State, caps: Caps, es: seq<Event>)
    requires s.hold.Some? && (forall i :: 0 <= i < |es| ==> Quiet(es[i], s.player))
    requires Run(s, caps, es).hold.Some?
    ensures var t := Run(s, caps, es);
            && t.player.playlist == s.player.playlist && t.player.index == s.player.index
            && SameHold(t.hold.value, s.hold.value)
  {
    if es != [] {
      var m := Run(s, caps, Front(es));
      if m.hold.None? {
        OnceClosedStaysClosed(m, caps, Last(es));
        assert false;
      }
      QuietRun(s, caps, Front(es));
      QuietStep(m, caps, Last(es), s.player);
      hide Step, Run;
    }
  }

  lemma InsertDelete(p: Player, uri: Url)
    requires p.index < |p.playlist|
    ensures Delete(Insert(p, uri), p.index + 1) == p
    ensures UrlAt(Insert(p, uri), p.index + 1) == uri && UrlAt(Insert(p, uri), p.index) == PlayingUrl(p)
  {
    assert Delete(Insert(p, uri), p.index + 1).playlist == p.playlist;
  }

  /** A hold for `uri` is open and the playlist is that of `p` with the deferred entry in it. */
  predicate Deferred(s: State, p: Player, uri: Url) {
    && p.index < |p.playlist|
    && s.player.playlist == Insert(p, uri).playlist && s.player.index == p.index
    && s.hold.Some? && s.hold.value.uri == uri && s.hold.value.oldUrl == PlayingUrl(p)
    && s.hold.value.playingIdx == p.index
  }

  /** Whatever quiet events follow the opening, a hold that is still open is in that state. */
  lemma StaysDeferred(s: State, caps: Caps, uri: Url, now: real, es: seq<Event>)
    requires s.hold.None? && s.player.index < |s.player.playlist|
    requires forall i :: 0 <= i < |es| ==> Quiet(es[i], Open(s, caps, uri, now).player)
    requires Run(Open(s, caps, uri, now), caps, es).hold.Some?
    ensures Deferred(Run(Open(s, caps, uri, now), caps, es), s.player, uri)
  {
    QuietRun(Open(s, caps, uri, now), caps, es);
    hide Run, Insert;
  }

  /** Cancelling restores the playlist. */
  lemma CancelRestoresPlaylist(s: State, p: Player, uri: Url)
    requires Deferred(s, p, uri)
    ensures var t := Cancel(s);
            t.hold.None? && t.timers == [] && t.player.playlist == p.playlist && t.player.index == p.index
  {
    hide Insert, Delete, RemoveDeferred;
    RemoveUndoesInsert(s.player, s.hold.value, p, uri);
  }

  lemma RemoveUndoesInsert(q: Player, h: OpenHold, p: Player, uri: Url)
    requires p.index < |p.playlist| && q.playlist == Insert(p, uri).playlist && q.index == p.index
    requires h.uri == uri && h.playingIdx == p.index
    ensures RemoveDeferred(q, h).playlist == p.playlist && RemoveDeferred(q, h).index == p.index
  {
    InsertDelete(p, uri);
    assert q == Insert(p, uri).(mode := q.mode, sessionPaused := q.sessionPaused);
  }

  /** The server advances to the next entry by itself. */
  function Advanced(p: Player): Player {
    p.(index := p.index + 1)
  }

  /** When the server advances to the deferred item, the new title takes the old one's place in the playlist. */
  lemma NewSongReplacesInPlace(s: State, p: Player, uri: Url)
    requires Deferred(s, p, uri)
    ensures var t := AtNewSong(s.(player := Advanced(s.player)));
            && t.hold.None? && t.timers == []
            && t.player.playlist == p.playlist[p.index := uri]
            && t.player.index == p.index && PlayingUrl(t.player) == uri
  {
    hide Insert, Delete;
    AdvancePastOld(p, s.player, uri);
  }

  lemma AdvancePastOld(p: Player, q: Player, uri: Url)
    requires p.index < |p.playlist| && q.playlist == Insert(p, uri).playlist && q.index == p.index
    ensures PlayingUrl(Advanced(q)) == uri && UrlAt(Advanced(q), p.index) == PlayingUrl(p)
    ensures var t := Delete(Advanced(q), p.index);
            t.playlist == p.playlist[p.index := uri] && t.index == p.index
  {
    assert Delete(Advanced(q), p.index).playlist == p.playlist[p.index := uri];
  }

  /** A second natural end leaves one deferred entry: that of the newer title. */
  lemma SecondLiveLeavesOneEntry(s: State, caps: Caps, p: Player, first: Url, second: Url, now: real)
    requires Deferred(s, p, first)
    ensures Deferred(Open(s, caps, second, now), p, second)
  {
    hide Insert, Delete, RemoveDeferred;
    RemoveUndoesInsert(s.player, s.hold.value, p, first);
    InsertIsAboutThePlaylist(RemoveDeferred(s.player, s.hold.value), p, second);
  }

  lemma InsertIsAboutThePlaylist(q: Player, p: Player, uri: Url)
    requires q.playlist == p.playlist && q.index == p.index
    ensures Insert(q, uri).playlist == Insert(p, uri).playlist && Insert(q, uri).index == q.index
  {
  }

  /** A hold is opened, and whatever timer checks and changes of the play state follow leave it open. */
  predicate HeldThrough(s: State, caps: Caps, uri: Url, now: real, es: seq<Event>) {
    var o := Open(s, caps, uri, now);
    && s.hold.None? && s.player.index < |s.player.playlist|
    && (forall i :: 0 <= i < |es| ==> Quiet(es[i], o.player))
    && Run(o, caps, es).hold.Some?
  }

  /** Opened, checked any number of times and cancelled: the playlist is what it was. */
  lemma OpenThenCancelRestores(s: State, caps: Caps, uri: Url, now: real, es: seq<Event>)
    requires HeldThrough(s, caps, uri, now, es)
    ensures var t := Cancel(Run(Open(s, caps, uri, now), caps, es));
            t.hold.None? && t.timers == [] && t.player.playlist == s.player.playlist && t.player.index == s.player.index
  {
    hide Run, Open, Cancel, Deferred;
    StaysDeferred(s, caps, uri, now, es);
    CancelRestoresPlaylist(Run(Open(s, caps, uri, now), caps, es), s.player, uri);
  }

  /** Opened, checked any number of times, and the server advances: the new title stands where the old one was. */
  lemma OpenThenNewSongReplaces(s: State, caps: Caps, uri: Url, now: real, es: seq<Event>)
    requires HeldThrough(s, caps, uri, now, es)
    ensures var r := Run(Open(s, caps, uri, now), caps, es);
            var t := AtNewSong(r.(player := Advanced(r.player)));
            && t.hold.None? && t.timers == []
            && t.player.playlist == s.player.playlist[s.player.index := uri] && t.player.index == s.player.index
  {
    hide Run, Open, AtNewSong, Deferred;
    StaysDeferred(s, caps, uri, now, es);
    NewSongReplacesInPlace(Run(Open(s, caps, uri, now), caps, es), s.player, uri);
  }

  /** Opened twice, with anything quiet in between and after: there is one deferred entry, that of the second title. */
  lemma OpenTwiceLeavesNewest(s: State, caps: Caps, first: Url, now: real, es: seq<Event>,
                              second: Url, later: real, more: seq<Event>)
    requires HeldThrough(s, caps, first, now, es)
    requires var o := Open(Run(Open(s, caps, first, now), caps, es), caps, second, later);
             && (forall i :: 0 <= i < |more| ==> Quiet(more[i], o.player)) && Run(o, caps, more).hold.Some?
    ensures var t := Run(Open(Run(Open(s, caps, first, now), caps, es), caps, second, later), caps, more);
            Deferred(t, s.player, second)
  {
    var r := Run(Open(s, caps, first, now), caps, es);
    StaysDeferred(s, caps, first, now, es);
    SecondLiveLeavesOneEntry(r, caps, s.player, first, second, later);
    hide Open;
    QuietRun(Open(r, caps, second, later), caps, more);
    hide Run, Insert;
  }

  /** `url` stands at index `d` of the playlist and nowhere else. */
  predicate OnlyAt(p: Player, url: Url, d: nat) {
    d < |p.playlist| && p.playlist[d] == url && forall i | 0 <= i < |p.playlist| :: i != d ==> p.playlist[i] != url
  }

  lemma DeleteOnlyCopy(p: Player, url: Url, d: nat, at: nat)
    requires OnlyAt(p, url, d)
    ensures url in Delete(p, at).playlist <==> d != at
  {
    var q := Delete(p, at).playlist;
    if at < |p.playlist| && d != at {
      assert q[if d < at then d else d - 1] == url;
    }
  }

  /**
   The deferred entry is found by its place. Wherever it stands when the hold is cancelled, it is removed if and only
   if that is the place after the index the hold recorded.
   */
  lemma CancelRemovesOnlyInPlace(s: State, d: nat)
    requires s.hold.Some? && OnlyAt(s.player, s.hold.value.uri, d)
    ensures s.hold.value.uri in Cancel(s).player.playlist <==> d != s.hold.value.playingIdx + 1
  {
    DeleteOnlyCopy(s.player, s.hold.value.uri, d, s.hold.value.playingIdx + 1);
    hide Delete;
  }

  /** The same of the old title's entry when the deferred title starts: it goes if and only if it is where it was. */
  lemma NewSongPrunesOnlyInPlace(s: State, d: nat)
    requires s.hold.Some? && PlayingUrl(s.player) == s.hold.value.uri && OnlyAt(s.player, s.hold.value.oldUrl, d)
    ensures s.hold.value.oldUrl in AtNewSong(s).player.playlist <==> d != s.hold.value.playingIdx
  {
    DeleteOnlyCopy(s.player, s.hold.value.oldUrl, d, s.hold.value.playingIdx);
    hide Delete;
  }

  lemma DeleteTakesOne(p: Player, at: nat, url: Url)
    requires at < |p.playlist| ==> p.playlist[at] != url
    ensures multiset(Delete(p, at).playlist)[url] == multiset(p.playlist)[url]
  {
    if at < |p.playlist| {
      assert p.playlist == p.playlist[..at] + [p.playlist[at]] + p.playlist[at + 1..];
    }
  }

  /** However the playlist has been edited, a cancel takes no other title out of it than the deferred one. */
  lemma CancelSparesOthers(s: State, url: Url)
    requires s.hold.Some? && url != s.hold.value.uri
    ensures multiset(Cancel(s).player.playlist)[url] == multiset(s.player.playlist)[url]
  {
    hide Delete;
    var h := s.hold.value;
    if UrlAt(s.player, h.playingIdx + 1) == h.uri {
      DeleteTakesOne(s.player, h.playingIdx + 1, url);
    }
  }

  /** And a new song takes out no other title than the old one, or the deferred one if it is another song. */
  lemma NewSongSparesOthers(s: State, url: Url)
    requires s.hold.Some?
    requires url != if PlayingUrl(s.player) == s.hold.value.uri then s.hold.value.oldUrl else s.hold.value.uri
    ensures multiset(AtNewSong(s).player.playlist)[url] == multiset(s.player.playlist)[url]
  {
    hide Delete, Cancel;
    var h := s.hold.value;
    if PlayingUrl(s.player) != h.uri {
      CancelSparesOthers(s, url);
    } else if UrlAt(s.player, h.playingIdx) == h.oldUrl {
      DeleteTakesOne(s.player, h.playingIdx, url);
    }
  }

  /** Another title comes to stand at index `j`. */
  function InsertAt(p: Player, title: Url, j: nat): Player
    requires j <= |p.playlist|
  {
    p.(playlist := p.playlist[..j] + [title] + p.playlist[j..], index := if j <= p.index then p.index + 1 else p.index)
  }

  lemma DeferredIsOnlyCopy(s: State, caps: Caps, uri: Url, now: real)
    requires s.hold.None? && s.player.index < |s.player.playlist| && uri !in s.player.playlist
    ensures OnlyAt(Open(s, caps, uri, now).player, uri, s.player.index + 1)
  {
  }

  /** A title that comes in while the hold is open strands the deferred entry if and only if it comes in before it. */
  lemma InsertionStrandsDeferred(s: State, caps: Caps, uri: Url, now: real, title: Url, j: nat)
    requires s.hold.None? && s.player.index < |s.player.playlist| && uri !in s.player.playlist && title != uri
    requires j <= |s.player.playlist| + 1
    ensures var o := Open(s, caps, uri, now);
            uri in Cancel(o.(player := InsertAt(o.player, title, j))).player.playlist <==> j <= s.player.index + 1
  {
    var o := Open(s, caps, uri, now);
    DeferredIsOnlyCopy(s, caps, uri, now);
    hide OnlyAt, Cancel, InsertAt;
    var d := s.player.index + 1;
    InsertMovesCopy(o.player, uri, d, title, j);
    CancelRemovesOnlyInPlace(o.(player := InsertAt(o.player, title, j)), if j <= d then d + 1 else d);
  }

  lemma InsertMovesCopy(p: Player, uri: Url, d: nat, title: Url, j: nat)
    requires OnlyAt(p, uri, d) && title != uri && j <= |p.playlist|
    ensures OnlyAt(InsertAt(p, title, j), uri, if j <= d then d + 1 else d)
  {
    var q := InsertAt(p, title, j);
    assert forall i | 0 <= i < |q.playlist| ::
      q.playlist[i] == if i < j then p.playlist[i] else if i == j then title else p.playlist[i - 1];
  }

  /** Deleting another entry strands it if and only if that entry stood before it. */
  lemma DeletionStrandsDeferred(s: State, caps: Caps, uri: Url, now: real, j: nat)
    requires s.hold.None? && s.player.index < |s.player.playlist| && uri !in s.player.playlist
    requires j <= |s.player.playlist| && j != s.player.index + 1
    ensures var o := Open(s, caps, uri, now);
            uri in Cancel(o.(player := Delete(o.player, j))).player.playlist <==> j <= s.player.index
  {
    var o := Open(s, caps, uri, now);
    DeferredIsOnlyCopy(s, caps, uri, now);
    var d := s.player.index + 1;
    var p := Delete(o.player, j);
    assert forall i | 0 <= i < |p.playlist| :: p.playlist[i] == o.player.playlist[if i < j then i else i + 1];
    assert OnlyAt(p, uri, if j < d then d - 1 else d);
    hide OnlyAt, Cancel, Delete;
    CancelRemovesOnlyInPlace(o.(player := p), if j < d then d - 1 else d);
  }

  // ---------------------------------------------------------------------------------------
  // What each event does to the server
  // ---------------------------------------------------------------------------------------

  /** Hold `h` has ended: the item plays as the only entry, once, and the log says so. */
  predicate PlayedInstead(s: State, h: OpenHold, t: State) {
    && t.hold.None? && t.timers == []
    && t.player.playlist == [h.uri] && t.player.index == 0 && t.player.mode == Playing && !t.player.sessionPaused
    && t.log == s.log + [Ended(h.id, ByCap), Played(h.id, h.uri)]
  }

  /** Hold `h` has ended without a play. */
  predicate EndedQuietly(s: State, h: OpenHold, t: State, how: How) {
    t.hold.None? && t.timers == [] && t.player.mode == s.player.mode && t.log == s.log + [Ended(h.id, how)]
  }

  /** The time that a check adds to what counts against the ceiling. */
  function ChargedBy(s: State, h: OpenHold, now: real): real {
    if PlayingUrl(s.player) == h.oldUrl && now > h.lastCheck then now - h.lastCheck else 0.0
  }

  /**
   A due check closes the hold if the deferred item already plays. Otherwise it plays the item if the server has
   stopped, whatever else it says, or, unless it is paused, if the old title has used up the ceiling. In every other
   case it leaves hold, player and log alone and comes back a recheck later.
   */
  lemma DueCheckOutcome(s: State, caps: Caps, now: real)
    requires s.hold.Some? && |s.timers| == 1 && now >= s.timers[0]
    ensures var h, t := s.hold.value, Step(s, caps, TimerFires(now));
            var paused := s.player.mode == PausedMode || s.player.sessionPaused;
            if PlayingUrl(s.player) == h.uri then EndedQuietly(s, h, t, ByNewSong) && t.player == s.player
            else if s.player.mode == StoppedMode || (!paused && h.heldS + ChargedBy(s, h, now) >= caps.max)
            then PlayedInstead(s, h, t)
            else
              && t.hold.Some? && t.timers == [now + caps.recheck] && t.player == s.player && t.log == s.log
              && SameHold(t.hold.value, h) && t.hold.value.lastCheck == now
              && t.hold.value.heldS == h.heldS + if paused then 0.0 else ChargedBy(s, h, now)
  {
    hide UrlAt;
    var h := s.hold.value;
    assert s.log + [Ended(h.id, ByCap)] + [Played(h.id, h.uri)] == s.log + [Ended(h.id, ByCap), Played(h.id, h.uri)];
    assert [] + [now + caps.recheck] == [now + caps.recheck];
  }

  /** The case the timer is for: over every run, a hold that finds the server stopped ends with its item playing. */
  lemma StoppedServerGetsTheItem(p: Player, caps: Caps, es: seq<Event>, now: real)
    requires Positive(caps)
    requires var s := Run(Initial(p), caps, es);
             && s.hold.Some? && s.player.mode == StoppedMode && PlayingUrl(s.player) != s.hold.value.uri
             && s.timers != [] && now >= s.timers[0]
    ensures var s := Run(Initial(p), caps, es);
            PlayedInstead(s, s.hold.value, Step(s, caps, TimerFires(now)))
  {
    RunStaysTimed(p, caps, es);
    hide Run, Step, PlayedInstead, EndedQuietly;
    DueCheckOutcome(Run(Initial(p), caps, es), caps, now);
  }

  /** A timer that is not due does nothing. */
  lemma EarlyTimerIsIgnored(s: State, caps: Caps, now: real)
    requires s.timers == [] || now < s.timers[0]
    ensures Step(s, caps, TimerFires(now)) == s
  {
  }

  /** The first check of a hold is due the cap after its opening, in every run. */
  lemma FirstCheckIsAtTheCap(p: Player, caps: Caps, es: seq<Event>, uri: Url, now: real)
    requires Positive(caps)
    ensures var s := Run(Initial(p), caps, es);
            var t := Step(s, caps, Live(uri, now));
            && t.timers == [now + caps.cap] && t.hold.Some? && t.hold.value.uri == uri && t.hold.value.since == now
            && t.log == s.log + (if s.hold.Some? then [Ended(s.hold.value.id, ByReplacement)] else [])
                        + [Opened(s.count, uri)]
  {
    RunStaysTimed(p, caps, es);
    hide Run, Insert, RemoveDeferred;
    assert [] + [now + caps.cap] == [now + caps.cap];
    var s := Run(Initial(p), caps, es);
    assert s.log + [] == s.log;
  }

  /** Everything that cancels a hold removes its entry if it is in place, plays nothing, and leaves no timer. */
  lemma CancelsQuietly(s: State, caps: Caps, e: Event, uri: Url)
    requires s.hold.Some?
    requires e == NewSong ==> PlayingUrl(s.player) != s.hold.value.uri
    requires e in {UserOrSession, NotLive(false, uri), NewSong}
    ensures var h, t := s.hold.value, Step(s, caps, e);
            EndedQuietly(s, h, t, ByCancel) && t.player == RemoveDeferred(s.player, h)
  {
    hide UrlAt;
  }

  /** A change that is not held ends any hold and plays the new title at once. */
  lemma ChangePlaysAtOnce(s: State, caps: Caps, uri: Url)
    ensures var t := Step(s, caps, NotLive(true, uri));
            && t.hold.None? && (s.hold.Some? ==> t.timers == [])
            && t.player.playlist == [uri] && t.player.index == 0 && t.player.mode == Playing
            && t.log == s.log + if s.hold.Some? then [Ended(s.hold.value.id, ByCancel)] else []
  {
    hide UrlAt;
  }

  /** The song of the deferred item ends the hold without a play and forgets a remembered pause. */
  lemma DeferredSongEndsHold(s: State, caps: Caps)
    requires s.hold.Some? && PlayingUrl(s.player) == s.hold.value.uri
    ensures var t := Step(s, caps, NewSong);
            EndedQuietly(s, s.hold.value, t, ByNewSong) && !t.player.sessionPaused
  {
    hide UrlAt;
  }

  /** Without a hold nothing happens to the playlist. */
  lemma NoHoldNoEffect(s: State, caps: Caps, e: Event)
    requires s.hold.None? && (e.NewSong? || e.UserOrSession? || e.TimerFires?)
    ensures var t := Step(s, caps, e);
            t.player == s.player && t.log == s.log && t.hold.None?
  {
  }
}
