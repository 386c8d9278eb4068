/**
 The delayed power-off after a Connect session: the power state saved at the session's first entry, the wait that
 is armed at the session's end, and everything that cancels it. What the handlers read of the player and of the
 settings comes with each event, so it may change arbitrarily from one event to the next.
 */
module PowerOff {
  import opened Base

  /** The cleared state is a defined value, because the server ignores an undefined write. */
  const PREV_POWER_NONE := -1

  datatype UrlKind = Blank | ConnectStream | SpotifyItem | ForeignItem

  /** What a handler reads: player power, the opt-in setting, whether the role is in connect mode, what is playing. */
  datatype Env = Env(power: bool, optIn: bool, connectMode: bool, playing: bool, url: UrlKind)

  datatype Command = Start | Change | Resume

  datatype What =
    | Connect(cmd: Command, accepted: bool, proceeds: bool) // `proceeds`: not suppressed as restored or spurious
    | SessionEnd
    | Release(inactive: bool)
    | Discard
    | NewSong(entrySong: bool, claimed: bool)
    | PowerNotice(own: bool)
    | TimerFires

  datatype Event = Event(what: What, env: Env)

  datatype Wait = Wait(prevPower: int, armed: bool, timers: nat)

  const IDLE: Wait := Wait(PREV_POWER_NONE, false, 0)

  /** The player plays something that is not the Connect session. */
  predicate PlaysForeign(env: Env) {
    env.playing && env.url != ConnectStream && !env.connectMode
  }

  /** A new song that means other playback: what the song is decides, not the state of the wait. */
  predicate OtherPlayback(w: What, env: Env) {
    w.NewSong? &&
    if env.connectMode then env.url == ForeignItem && !w.entrySong
    else env.url == SpotifyItem || env.url == ForeignItem
  }

  /** An accepted start or resume saves the power state, unless it is dropped first; a change never does. */
  predicate Saves(w: What) {
    w.Connect? && w.accepted && w.proceeds && w.cmd != Change
  }

  predicate SavedState(v: int) {
    v == 0 || v == 1
  }

  /** Dropping a wait and its state without switching anything off. */
  function Discarded(s: Wait): Wait {
    if s.armed || SavedState(s.prevPower) then IDLE else s
  }

  function AtNewSong(s: Wait, entrySong: bool, claimed: bool, env: Env): Wait {
    if env.connectMode then (if env.url == ForeignItem && !entrySong then Discarded(s) else s)
    else if env.url == ConnectStream then s
    else
      var t := if s.armed && env.url != Blank then IDLE else s;
      if claimed && SavedState(t.prevPower) then IDLE else t
  }

  function AtSessionEnd(s: Wait, env: Env): Wait {
    if !SavedState(s.prevPower) then s
    else if s.prevPower == 1 || !env.optIn || PlaysForeign(env) then s.(prevPower := PREV_POWER_NONE)
    else s.(armed := true, timers := 1)
  }

  /** The timer callback, and whether it switches the player off. */
  function AtTimer(s: Wait, env: Env): (Wait, bool) {
    if s.timers == 0 then (s, false)
    else
      var fired := s.(armed := false, timers := s.timers - 1);
      if !SavedState(s.prevPower) then (fired, false)
      else if s.prevPower == 1 || !env.optIn then (fired.(prevPower := PREV_POWER_NONE), false)
      else if env.connectMode then (fired, false)
      else (fired.(prevPower := PREV_POWER_NONE), !PlaysForeign(env) && env.power)
  }

  function AtConnect(s: Wait, w: What, env: Env): Wait
    requires w.Connect?
  {
    if !w.accepted then s
    else
      var disarmed := s.(armed := false, timers := 0);
      if Saves(w) && !SavedState(s.prevPower) then disarmed.(prevPower := if env.power then 1 else 0) else disarmed
  }

  /** The effect of one event, and whether it switches the player off. */
  function Step(s: Wait, e: Event): (Wait, bool) {
    match e.what
    case Connect(_, _, _) => (AtConnect(s, e.what, e.env), false)
    case SessionEnd => (AtSessionEnd(s, e.env), false)
    case Release(inactive) => (if inactive && s.armed then s else Discarded(s), false)
    case Discard => (Discarded(s), false)
    case NewSong(entrySong, claimed) => (AtNewSong(s, entrySong, claimed, e.env), false)
    case PowerNotice(own) => (if !own && s.armed && e.env.power then IDLE else s, false)
    case TimerFires => AtTimer(s, e.env)
  }

  /** The handlers, as they update the saved state, the armed mark and the timers in place. */
  class PowerOffWait {
    var prevPower: int
    var armed: bool
    var timers: nat
    var powerOffs: nat

    ghost function State(): Wait
      reads this
    {
      Wait(prevPower, armed, timers)
    }

    constructor ()
      ensures State() == IDLE && powerOffs == 0
    {
      prevPower, armed, timers, powerOffs := PREV_POWER_NONE, false, 0, 0;
    }

    function PrevPowerGet(): Option<int>
      reads this
    {
      if SavedState(prevPower) then Some(prevPower) else None
    }

    method PowerOffCancel()
      modifies this`armed, this`timers
      ensures State() == old(State()).(armed := false, timers := 0)
    {
      armed := false;
      timers := 0;
    }

    method ConnectEvent(cmd: Command, accepted: bool, proceeds: bool, env: Env)
      modifies this
      ensures State() == AtConnect(old(State()), Connect(cmd, accepted, proceeds), env) && powerOffs == old(powerOffs)
    {
      if !accepted {
        return;
      }
      PowerOffCancel();
      if proceeds && cmd != Change && PrevPowerGet().None? {
        prevPower := if env.power then 1 else 0;
      }
    }

    method RestorePowerAfterConnect(env: Env)
      modifies this
      ensures State() == AtSessionEnd(old(State()), env) && powerOffs == old(powerOffs)
    {
      var prev := PrevPowerGet();
      if prev.None? {
        return;
      }
      if prev.value != 0 {
        prevPower := PREV_POWER_NONE;
        return;
      }
      if !env.optIn {
        prevPower := PREV_POWER_NONE;
        return;
      }
      if PlaysForeign(env) {
        prevPower := PREV_POWER_NONE;
        return;
      }
      PowerOffCancel();
      armed := true;
      timers := timers + 1;
    }

    /** The server has taken the timer off its list before it calls this. */
    method PowerOffDue(env: Env)
      requires timers > 0
      modifies this
      ensures State() == AtTimer(old(State()), env).0
      ensures powerOffs == old(powerOffs) + if AtTimer(old(State()), env).1 then 1 else 0
    {
      timers := timers - 1;
      armed := false;
      var prev := PrevPowerGet();
      if prev.None? {
        return;
      }
      if !(prev.value == 0 && env.optIn) {
        prevPower := PREV_POWER_NONE;
        return;
      }
      if env.connectMode {
        return;
      }
      if PlaysForeign(env) {
        prevPower := PREV_POWER_NONE;
        return;
      }
      prevPower := PREV_POWER_NONE;
      if !env.power {
        return;
      }
      powerOffs := powerOffs + 1;
    }

    method OnPower(own: bool, env: Env)
      modifies this
      ensures State() == Step(old(State()), Event(PowerNotice(own), env)).0 && powerOffs == old(powerOffs)
    {
      if own || !armed || !env.power {
        return;
      }
      PowerOffCancel();
      prevPower := PREV_POWER_NONE;
    }

    method DiscardPowerState()
      modifies this
      ensures State() == Discarded(old(State())) && powerOffs == old(powerOffs)
    {
      if !armed && PrevPowerGet().None? {
        return;
      }
      PowerOffCancel();
      prevPower := PREV_POWER_NONE;
    }

    method ReleaseConnectClaim(inactive: bool)
      modifies this
      ensures State() == (if inactive && old(armed) then old(State()) else Discarded(old(State())))
      ensures powerOffs == old(powerOffs)
    {
      if !(inactive && armed) {
        DiscardPowerState();
      }
    }

    /** The three places in the new-song handler that touch the wait; leaving connect mode releases the claim. */
    method OnNewSong(entrySong: bool, claimed: bool, env: Env)
      modifies this
      ensures State() == AtNewSong(old(State()), entrySong, claimed, env) && powerOffs == old(powerOffs)
    {
      if armed && env.url != Blank && env.url != ConnectStream && !env.connectMode {
        PowerOffCancel();
        prevPower := PREV_POWER_NONE;
      }
      if env.connectMode {
        if env.url == ForeignItem && !entrySong {
          ReleaseConnectClaim(false);
          if PrevPowerGet().Some? {
            PowerOffCancel();
            prevPower := PREV_POWER_NONE;
          }
        }
        return;
      }
      if claimed && env.url != ConnectStream && PrevPowerGet().Some? {
        PowerOffCancel();
        prevPower := PREV_POWER_NONE;
      }
    }

    /** Every event of a run by the handler that serves it. */
    method OnEvent(e: Event)
      modifies this
      ensures State() == Step(old(State()), e).0
      ensures powerOffs == old(powerOffs) + if Step(old(State()), e).1 then 1 else 0
    {
      match e.what {
        case Connect(cmd, accepted, proceeds) => ConnectEvent(cmd, accepted, proceeds, e.env);
        case SessionEnd => RestorePowerAfterConnect(e.env);
        case Release(inactive) => ReleaseConnectClaim(inactive);
        case Discard => DiscardPowerState();
        case NewSong(entrySong, claimed) => OnNewSong(entrySong, claimed, e.env);
        case PowerNotice(own) => OnPower(own, e.env);
        case TimerFires =>
          if timers > 0 {
            PowerOffDue(e.env);
          }
      }
    }
  }

  // ---------------------------------------------------------------------------------------
  // Whole runs
  // ---------------------------------------------------------------------------------------

  function After(es: seq<Event>): Wait {
    if es == [] then IDLE else Step(After(Front(es)), Last(es)).0
  }

  /** Event `n` of the run switches the player off. */
  predicate SwitchesOff(es: seq<Event>, n: nat)
    requires n < |es|
  {
    Step(After(es[..n]), es[n]).1
  }

  /** The latest event that found no saved state and saved one; -1 if there is none. */
  function LastSave(es: seq<Event>): int {
    if es == [] then -1
    else if Saves(Last(es).what) && !SavedState(After(Front(es)).prevPower) then |es| - 1
    else LastSave(Front(es))
  }

  predicate Arms(s: Wait, e: Event) {
    e.what == SessionEnd && s.prevPower == 0 && e.env.optIn && !PlaysForeign(e.env)
  }

  function LastArming(es: seq<Event>): int {
    if es == [] then -1
    else if Arms(After(Front(es)), Last(es)) then |es| - 1
    else LastArming(Front(es))
  }

  /** Something that must stop a pending power-off. */
  predicate Interrupts(e: Event) {
    || (e.what.Connect? && e.what.accepted)
    || OtherPlayback(e.what, e.env)
    || (e.what.PowerNotice? && !e.what.own && e.env.power)
  }

  /** Event `a` armed the wait, with the setting on, and nothing after it should have stopped it. */
  predicate PendingSince(es: seq<Event>, a: int) {
    && 0 <= a < |es| && es[a].what == SessionEnd && es[a].env.optIn
    && forall k :: a < k < |es| ==> !Interrupts(es[k])
  }

  /** Event `b` saved `v`, nothing was saved before it, and the state has been `v` ever since. */
  predicate SavedSince(es: seq<Event>, b: int, v: int) {
    && 0 <= b < |es| && Saves(es[b].what) && es[b].env.power == (v == 1)
    && !SavedState(After(es[..b]).prevPower)
    && forall k :: b < k <= |es| ==> After(es[..k]).prevPower == v
  }

  predicate Explained(es: seq<Event>, s: Wait) {
    && (s.armed <==> s.timers == 1) && s.timers <= 1
    && (SavedState(s.prevPower) ==> SavedSince(es, LastSave(es), s.prevPower))
    && (s.armed ==> PendingSince(es, LastArming(es)))
    && (s.armed && SavedState(s.prevPower) ==> LastSave(es) < LastArming(es))
  }

  lemma PrefixesAgree(es: seq<Event>, k: nat)
    requires es != [] && k < |es|
    ensures Front(es)[..k] == es[..k] && es[..|es|] == es
  {
  }

  lemma SavedExtends(es: seq<Event>, b: int, v: int)
    requires es != [] && After(es).prevPower == v
    requires SavedSince(Front(es), b, v)
    ensures SavedSince(es, b, v)
  {
    hide After;
    forall k | b < k <= |es|
      ensures After(es[..k]).prevPower == v
    {
      if k < |es| {
        PrefixesAgree(es, k);
      } else {
        assert es[..k] == es;
      }
    }
    PrefixesAgree(es, b);
  }

  lemma FreshSave(es: seq<Event>)
    requires es != [] && Saves(Last(es).what) && !SavedState(After(Front(es)).prevPower)
    ensures SavedSince(es, |es| - 1, After(es).prevPower)
  {
    assert es[..|es| - 1] == Front(es);
    assert es[..|es|] == es;
  }

  lemma {:induction false} RunIsExplained(es: seq<Event>)
    ensures Explained(es, After(es))
  {
    if es != [] {
      hide SavedSince, After;
      RunIsExplained(Front(es));
      AfterUnfold(es);
      var s, e := After(Front(es)), Last(es);
      var n := Step(s, e).0;
      if Saves(e.what) && !SavedState(s.prevPower) {
        FreshSave(es);
      } else if SavedState(n.prevPower) {
        SavedExtends(es, LastSave(Front(es)), s.prevPower);
      }
    } else {
      NothingHasHappened();
    }
  }

  lemma AfterUnfold(es: seq<Event>)
    requires es != []
    ensures After(es) == Step(After(Front(es)), Last(es)).0
  {
  }

  lemma NothingHasHappened()
    ensures After([]) == IDLE
  {
  }

  /**
   The player is switched off only by a timer that was armed, at event `a`, at a session end with the opt-in on; the
   opt-in is on again when it fires; the state saved first in that session, at an earlier event `b`, was off; it has
   not been replaced or cleared since; and nothing that should stop the wait came between `a` and the timer.
   */
  lemma PowerOffIsJustified(es: seq<Event>, n: nat)
    requires n < |es| && SwitchesOff(es, n)
    ensures es[n].what == TimerFires
    ensures es[n].env.optIn && es[n].env.power && !es[n].env.connectMode && !PlaysForeign(es[n].env)
    ensures exists b, a ::
              && b < a
              && SavedSince(es[..n], b, 0)
              && PendingSince(es[..n], a)
  {
    RunIsExplained(es[..n]);
    hide SavedSince, PendingSince, After;
    assert SavedSince(es[..n], LastSave(es[..n]), 0);
    assert PendingSince(es[..n], LastArming(es[..n]));
  }

  /** A wait is pending exactly when one timer is, and never more than one. */
  lemma {:induction false} OneTimerPerWait(es: seq<Event>)
    ensures var s := After(es);
            s.timers == if s.armed then 1 else 0
  {
    RunIsExplained(es);
  }

  /** Events that leave an armed wait as it is. */
  predicate LeavesWait(e: Event) {
    match e.what
    case Connect(_, accepted, _) => !accepted
    case SessionEnd => e.env.optIn && !PlaysForeign(e.env)
    case Release(inactive) => inactive
    case Discard => false
    case NewSong(_, claimed) =>
      !OtherPlayback(e.what, e.env) && !(claimed && e.env.url == Blank && !e.env.connectMode)
    case PowerNotice(own) => own || !e.env.power
    case TimerFires => false
  }

  lemma {:induction false} WaitLasts(pre: seq<Event>, end: Event, quiet: seq<Event>)
    requires After(pre).prevPower == 0 && Arms(After(pre), end)
    requires forall i :: 0 <= i < |quiet| ==> LeavesWait(quiet[i])
    ensures After(pre + [end] + quiet) == Wait(0, true, 1)
  {
    if quiet == [] {
      SnocParts(pre, end);
      assert pre + [end] + quiet == pre + [end];
    } else {
      WaitLasts(pre, end, Front(quiet));
      assert pre + [end] + quiet == pre + [end] + Front(quiet) + [Last(quiet)];
      SnocParts(pre + [end] + Front(quiet), Last(quiet));
    }
  }

  /**
   The other direction: a session that started with the player off, ended with the opt-in on and was followed by nothing
   that concerns the wait does switch the player off, unless by then the opt-in is off, the player is off already,
   Connect is active again or something else is playing.
   */
  lemma PendingWaitSwitchesOff(pre: seq<Event>, end: Event, quiet: seq<Event>, due: Event)
    requires After(pre).prevPower == 0 && Arms(After(pre), end)
    requires forall i :: 0 <= i < |quiet| ==> LeavesWait(quiet[i])
    requires due.what == TimerFires
    ensures var es := pre + [end] + quiet + [due];
            && (SwitchesOff(es, |es| - 1) <==>
                  due.env.optIn && due.env.power && !due.env.connectMode && !PlaysForeign(due.env))
            && After(es).timers == 0 && !After(es).armed
  {
    WaitLasts(pre, end, quiet);
    var before := pre + [end] + quiet;
    SnocParts(before, due);
    assert (before + [due])[..|before|] == before;
  }

  // ---------------------------------------------------------------------------------------
  // What each event does to the saved state and to the wait
  // ---------------------------------------------------------------------------------------

  /** Something else than the session plays. */
  predicate Elsewhere(env: Env) {
    env.playing && env.url in {Blank, SpotifyItem, ForeignItem} && !env.connectMode
  }

  /** The entry of a session that finds nothing saved. */
  predicate Enters(s: Wait, w: What) {
    s.prevPower != 0 && s.prevPower != 1 && w.Connect? && w.accepted && w.proceeds && w.cmd in {Start, Resume}
  }

  /** What a new song means for a state that is saved: the session's own role ends, or other playback is seen. */
  predicate SongDrops(s: Wait, entrySong: bool, claimed: bool, env: Env) {
    if env.connectMode then env.url == ForeignItem && !entrySong
    else (s.armed && env.url in {SpotifyItem, ForeignItem}) || (claimed && env.url != ConnectStream)
  }

  /** The events that drop a saved state. */
  predicate DropsSaved(s: Wait, e: Event) {
    match e.what
    case Connect(_, _, _) => false
    case SessionEnd => s.prevPower == 1 || !e.env.optIn || Elsewhere(e.env)
    case Release(inactive) => !(inactive && s.armed)
    case Discard => true
    case NewSong(entrySong, claimed) => SongDrops(s, entrySong, claimed, e.env)
    case PowerNotice(own) => !own && s.armed && e.env.power
    case TimerFires => s.timers > 0 && !(s.prevPower == 0 && e.env.optIn && e.env.connectMode)
  }

  /** The saved state is set by an entry, to the power the player then has, and stays until it is dropped. */
  lemma SavedStateExactly(s: Wait, e: Event)
    ensures var v, after := s.prevPower, Step(s, e).0.prevPower;
            && (Enters(s, e.what) ==> after == if e.env.power then 1 else 0)
            && (!Enters(s, e.what) && (v == 0 || v == 1) ==> after == if DropsSaved(s, e) then PREV_POWER_NONE else v)
            && (!Enters(s, e.what) && v != 0 && v != 1 ==> after != 0 && after != 1)
  {
  }

  /** The events that end an armed wait. */
  predicate EndsWait(s: Wait, e: Event) {
    match e.what
    case Connect(_, accepted, _) => accepted
    case SessionEnd => false
    case Release(inactive) => !inactive
    case Discard => true
    case NewSong(entrySong, claimed) =>
      if e.env.connectMode then e.env.url == ForeignItem && !entrySong
      else e.env.url in {SpotifyItem, ForeignItem} || (claimed && e.env.url == Blank && s.prevPower in {0, 1})
    case PowerNotice(own) => !own && e.env.power
    case TimerFires => true
  }

  /** A wait is armed exactly by a session end that finds the state saved as off, and lasts until something ends it. */
  lemma WaitExactly(s: Wait, e: Event)
    requires s.timers == if s.armed then 1 else 0
    ensures var t := Step(s, e).0;
            && t.timers == (if t.armed then 1 else 0)
            && (t.armed <==>
                || (e.what == SessionEnd && s.prevPower == 0 && e.env.optIn && !Elsewhere(e.env))
                || (s.armed && !EndsWait(s, e)))
  {
  }

  /** The entry of a session saves the power state, whichever it is. */
  lemma EntrySaves(pre: seq<Event>, e: Event)
    requires Enters(After(pre), e.what)
    ensures After(pre + [e]).prevPower == (if e.env.power then 1 else 0) && !After(pre + [e]).armed
  {
    SnocParts(pre, e);
  }

  /** What may happen during a session without dropping its saved state. */
  predicate DuringSession(e: Event) {
    match e.what
    case Connect(_, _, _) => true
    case PowerNotice(_) => true
    case TimerFires => true
    case NewSong(entrySong, claimed) =>
      if e.env.connectMode then e.env.url != ForeignItem || entrySong else e.env.url == ConnectStream || !claimed
    case _ => false
  }

  lemma {:induction false} SessionLasts(pre: seq<Event>, during: seq<Event>)
    requires After(pre).prevPower == 0 && !After(pre).armed && After(pre).timers == 0
    requires forall i :: 0 <= i < |during| ==> DuringSession(during[i])
    ensures var s := After(pre + during);
            s.prevPower == 0 && !s.armed && s.timers == 0
  {
    hide After, Step;
    if during == [] {
      assert pre + during == pre;
    } else {
      var mid, e := pre + Front(during), Last(during);
      SessionLasts(pre, Front(during));
      assert pre + during == mid + [e];
      AfterSnoc(mid, e);
      SavedStateExactly(After(mid), e);
      WaitExactly(After(mid), e);
    }
  }

  lemma AfterSnoc(es: seq<Event>, e: Event)
    ensures After(es + [e]) == Step(After(es), e).0
  {
    SnocParts(es, e);
  }

  /**
   The whole feature: a session entered with the player off and nothing saved, lasting through anything that belongs to
   it, ended with the opt-in on and nothing else playing, and followed by nothing that concerns the wait, switches the
   player off when the timer fires, if and only if the opt-in is still on, the player is on, Connect is not active and
   nothing else plays.
   */
  lemma SessionSwitchesOff(pre: seq<Event>, entry: Event, during: seq<Event>, end: Event, quiet: seq<Event>, due: Event)
    requires Enters(After(pre), entry.what) && !entry.env.power
    requires forall i :: 0 <= i < |during| ==> DuringSession(during[i])
    requires end.what == SessionEnd && end.env.optIn && !Elsewhere(end.env)
    requires forall i :: 0 <= i < |quiet| ==> LeavesWait(quiet[i])
    requires due.what == TimerFires
    ensures var es := pre + [entry] + during + [end] + quiet + [due];
            && (SwitchesOff(es, |es| - 1) <==>
                  due.env.optIn && due.env.power && !due.env.connectMode && !Elsewhere(due.env))
            && !After(es).armed && After(es).timers == 0
  {
    hide After, SwitchesOff, LeavesWait;
    EntrySaves(pre, entry);
    OneTimerPerWait(pre + [entry]);
    SessionLasts(pre + [entry], during);
    PendingWaitSwitchesOff(pre + [entry] + during, end, quiet, due);
  }
}
