/** The hold handlers as they update the record of the open hold, the timers and the server's playlist in place. */
module HoldKeeping {
  import opened Base
  import opened Hold

  class HoldKeeper {
    const caps: Caps
    var hold: Option<OpenHold>
    var timers: seq<real>
    var player: Player
    var count: nat
    var log: seq<Record>

    ghost function Abstract(): State
      reads this
    {
      State(hold, timers, player, count, log)
    }

    constructor (caps: Caps, player: Player)
      ensures this.caps == caps && Abstract() == Initial(player)
    {
      this.caps, this.player := caps, player;
      hold, timers, count, log := None, [], 0, [];
    }

    /** Deletes the deferred entry if it is still the one after the title that was playing when the hold opened. */
    method HoldRemoveDeferred(h: OpenHold)
      modifies this`player
      ensures player == RemoveDeferred(old(player), h)
    {
      var at := h.playingIdx + 1;
      if UrlAt(player, at) == h.uri {
        player := Delete(player, at);
      }
    }

    /** The one close path: forgets the hold and kills its timers. */
    method HoldClose(how: How) returns (closed: Option<OpenHold>)
      modifies this`hold, this`timers, this`log
      ensures Abstract() == Close(old(Abstract()), how)
      ensures closed == old(hold)
    {
      closed := hold;
      if closed.Some? {
        hold := None;
        timers := [];
        log := log + [Ended(closed.value.id, how)];
      }
    }

    method HoldCancel()
      modifies this
      ensures Abstract() == Cancel(old(Abstract()))
    {
      if hold.Some? {
        HoldRemoveDeferred(hold.value);
        var _ := HoldClose(ByCancel);
      }
    }

    method HoldFallback()
      modifies this
      ensures Abstract() == Fallback(old(Abstract()))
    {
      var closed := HoldClose(ByCap);
      if closed.Some? {
        player := PlayOnly(player, closed.value.uri);
        log := log + [Played(closed.value.id, closed.value.uri)];
      }
    }

    method HoldOpen(uri: Url, now: real)
      modifies this
      ensures Abstract() == Open(old(Abstract()), caps, uri, now)
    {
      if hold.Some? {
        HoldRemoveDeferred(hold.value);
        var _ := HoldClose(ByReplacement);
      }
      hold := Some(OpenHold(uri, PlayingUrl(player), player.index, now, 0.0, now, count, 0));
      log := log + [Opened(count, uri)];
      count := count + 1;
      player := Insert(player, uri);
      timers := timers + [now + caps.cap];
    }

    /** The safety timer, called after the server has taken it off its list. */
    method HoldCheck(now: real)
      modifies this
      ensures Abstract() == Check(old(Abstract()), caps, now)
    {
      if hold.None? {
        return;
      }
      var h := hold.value;
      var delta := now - h.lastCheck;
      if delta < 0.0 {
        delta := 0.0;
      }
      var url := PlayingUrl(player);
      if url == h.uri {
        var _ := HoldClose(ByNewSong);
        return;
      }
      if player.mode == StoppedMode {
        HoldFallback();
        return;
      }
      if PausedNow(player) {
        hold := Some(h.(lastCheck := now));
        timers := timers + [now + caps.recheck];
        return;
      }
      if url == h.oldUrl {
        h := h.(heldS := h.heldS + delta, playingChecks := h.playingChecks + 1);
      }
      h := h.(lastCheck := now);
      hold := Some(h);
      if h.heldS >= caps.max {
        HoldFallback();
        return;
      }
      timers := timers + [now + caps.recheck];
    }

    /** The part of the new-song handler that concerns an open hold. */
    method OnNewSong()
      modifies this
      ensures Abstract() == AtNewSong(old(Abstract()))
    {
      if hold.None? {
        return;
      }
      var h := hold.value;
      if PlayingUrl(player) == h.uri {
        var _ := HoldClose(ByNewSong);
        if UrlAt(player, h.playingIdx) == h.oldUrl {
          player := Delete(player, h.playingIdx);
        }
        player := player.(sessionPaused := false);
      } else {
        HoldCancel();
      }
    }

    /** The decision of the change handler: hold a natural end, otherwise drop an open hold and play at once. */
    method OnChange(wantHold: bool, plays: bool, uri: Url, now: real)
      modifies this
      ensures Abstract() == if wantHold then Open(old(Abstract()), caps, uri, now)
                            else ChangeNow(old(Abstract()), plays, uri)
    {
      if !wantHold {
        HoldCancel();
      }
      if wantHold {
        HoldOpen(uri, now);
      } else if plays {
        player := PlayOnly(player, uri);
      }
    }

    /** Every event of the machine by the handler that serves it; the server takes a due timer off before the call. */
    method OnEvent(e: Event)
      modifies this
      ensures Abstract() == Step(old(Abstract()), caps, e)
    {
      match e {
        case Live(uri, now) => OnChange(true, false, uri, now);
        case NotLive(plays, uri) => OnChange(false, plays, uri, 0.0);
        case NewSong => OnNewSong();
        case UserOrSession => HoldCancel();
        case TimerFires(now) =>
          if timers != [] && timers[0] <= now {
            timers := timers[1..];
            HoldCheck(now);
          }
        case ServerBecomes(p) => player := p;
      }
    }
  }
}
