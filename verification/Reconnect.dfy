/**
 The sliding window that limits reconnects after the death of the Spirc task. `reconnectTimes` is pruned to the
 window on every death; a death that finds five entries left, or no credentials, ends the daemon instead. The clock
 is read again for every entry and for the new one.
 */
module Reconnect {
  import opened Base

  const RATE_LIMIT: nat := 5
  const WINDOW_NS: nat := 60_000_000_000

  /** The instants of `times` that are less than a window old at `now`, in order. */
  function Retain(times: seq<nat>, now: nat): seq<nat> {
    if times == [] then []
    else Retain(Front(times), now) + if now - Last(times) < WINDOW_NS then [Last(times)] else []
  }

  lemma RetainSnoc(times: seq<nat>, t: nat, now: nat)
    ensures Retain(times + [t], now) == Retain(times, now) + if now - t < WINDOW_NS then [t] else []
  {
    SnocParts(times, t);
  }

  /** The same with the clock read anew for every entry. */
  function RetainAt(times: seq<nat>, clock: seq<nat>): seq<nat>
    requires |times| == |clock|
  {
    if times == [] then []
    else RetainAt(Front(times), Front(clock)) + if Last(clock) - Last(times) < WINDOW_NS then [Last(times)] else []
  }

  predicate ReadBetween(clock: seq<nat>, start: nat, end: nat) {
    forall i | 0 <= i < |clock| :: start <= clock[i] <= end
  }

  /** Pruning what an earlier pruning left gives the same as pruning everything. */
  lemma {:induction false} RetainTwice(times: seq<nat>, clock: seq<nat>, start: nat, end: nat, now: nat)
    requires |times| == |clock| && ReadBetween(clock, start, end) && end <= now
    ensures Retain(RetainAt(times, clock), now) == Retain(times, now)
    ensures |RetainAt(times, clock)| <= |Retain(times, start)|
  {
    if times != [] {
      var front, t := Front(times), Last(times);
      var kept := RetainAt(front, Front(clock));
      RetainTwice(front, Front(clock), start, end, now);
      RetainSnoc(kept, t, now);
      assert kept + [] == kept && times == front + [t];
      RetainSnoc(front, t, now);
      RetainSnoc(front, t, start);
      hide Retain;
    }
  }

  lemma {:induction false} RetainAtMost(times: seq<nat>, now: nat)
    ensures |Retain(times, now)| <= |times|
  {
    if times != [] {
      RetainAtMost(Front(times), now);
    }
  }

  /** Each reconnect, at the moment it was accepted, was one of at most five in the window that ended there. */
  predicate Limited(accepted: seq<nat>) {
    accepted != [] ==> Limited(Front(accepted)) && |Retain(accepted, Last(accepted))| <= RATE_LIMIT
  }

  /** What a death at `t` makes of the accepted reconnects if it is handled in no time and there are credentials. */
  function AcceptNext(accepted: seq<nat>, t: nat): seq<nat> {
    if |Retain(accepted, t)| < RATE_LIMIT then accepted + [t] else accepted
  }

  /** What a run of such deaths has accepted. */
  function AcceptedOf(deaths: seq<nat>): seq<nat> {
    if deaths == [] then [] else AcceptNext(AcceptedOf(Front(deaths)), Last(deaths))
  }

  class ReconnectWindow {
    var reconnectTimes: seq<nat>
    /** Every reconnect ever accepted, and the latest instant a death was handled. */
    ghost var accepted: seq<nat>
    ghost var lastRead: nat

    /** Nothing that can still matter has been forgotten. */
    ghost predicate Valid()
      reads this
    {
      && (forall now: nat | lastRead <= now :: Retain(reconnectTimes, now) == Retain(accepted, now))
      && Limited(accepted)
    }

    constructor ()
      ensures Valid() && accepted == [] && lastRead == 0 && reconnectTimes == []
    {
      reconnectTimes, accepted, lastRead := [], [], 0;
    }

    /**
     The death of the Spirc task, handled from `start` to `end`. A reconnect is accepted if fewer than five of all
     accepted ones lie in the window that ends at `start`, and only if fewer than five lie in the one that ends at
     `end`; with no time passing in between the two are the same.
     */
    method OnSpircDeath(start: nat, clock: seq<nat>, end: nat, hasCredentials: bool)
      returns (reconnect: bool)
      requires Valid() && lastRead <= start <= end
      requires |clock| == |reconnectTimes| && ReadBetween(clock, start, end)
      modifies this
      ensures Valid() && lastRead == end
      ensures reconnect ==> hasCredentials && |Retain(old(accepted), end)| < RATE_LIMIT
      ensures hasCredentials && |Retain(old(accepted), start)| < RATE_LIMIT ==> reconnect
      ensures accepted == old(accepted) + if reconnect then [end] else []
      ensures start == end && hasCredentials ==> accepted == AcceptNext(old(accepted), end)
    {
      var times := reconnectTimes;
      reconnectTimes := RetainAt(times, clock);
      forall now: nat | end <= now
        ensures Retain(reconnectTimes, now) == Retain(accepted, now)
      {
        RetainTwice(times, clock, start, end, now);
      }
      RetainTwice(times, clock, start, end, end);
      RetainAtMost(reconnectTimes, end);
      lastRead := end;
      reconnect := hasCredentials && |reconnectTimes| < RATE_LIMIT;
      if reconnect {
        var kept := reconnectTimes;
        reconnectTimes := kept + [end];
        forall now: nat | end <= now
          ensures Retain(reconnectTimes, now) == Retain(accepted + [end], now)
        {
          RetainSnoc(kept, end, now);
          RetainSnoc(accepted, end, now);
        }
        RetainSnoc(accepted, end, end);
        SnocParts(accepted, end);
        accepted := accepted + [end];
      }
    }
  }

  /** How many instants lie in the window that starts at `from`. */
  function InWindow(times: seq<nat>, from: int): nat {
    if times == [] then 0
    else InWindow(Front(times), from) + if from <= Last(times) < from + WINDOW_NS then 1 else 0
  }

  lemma {:induction false} WindowIsRetained(times: seq<nat>, from: int, now: nat)
    requires now < from + WINDOW_NS
    ensures InWindow(times, from) <= |Retain(times, now)|
  {
    if times != [] {
      WindowIsRetained(Front(times), from, now);
    }
  }

  /** Any sixty-second window, wherever it starts, contains at most five accepted reconnects. */
  lemma {:induction false} AtMostFivePerWindow(accepted: seq<nat>, from: int)
    requires Limited(accepted)
    ensures InWindow(accepted, from) <= RATE_LIMIT
  {
    if accepted != [] {
      if from <= Last(accepted) < from + WINDOW_NS {
        WindowIsRetained(accepted, from, Last(accepted));
      } else {
        AtMostFivePerWindow(Front(accepted), from);
      }
    }
  }

  /** The same with both ends counted. */
  function InClosedWindow(times: seq<nat>, from: int): nat {
    if times == [] then 0
    else InClosedWindow(Front(times), from) + if from <= Last(times) <= from + WINDOW_NS then 1 else 0
  }

  lemma {:induction false} ClosedWindowBounds(times: seq<nat>, from: int)
    ensures InClosedWindow(times, from) <= InWindow(times, from) + InWindow(times, from + 1)
    ensures from !in times ==> InClosedWindow(times, from) == InWindow(times, from + 1)
    ensures from + WINDOW_NS !in times ==> InClosedWindow(times, from) == InWindow(times, from)
  {
    if times != [] {
      ClosedWindowBounds(Front(times), from);
      assert times == Front(times) + [Last(times)];
    }
  }

  /** A window with both ends holds at most ten, and more than five only with a reconnect at either end. */
  lemma AtMostTenPerClosedWindow(accepted: seq<nat>, from: int)
    requires Limited(accepted)
    ensures InClosedWindow(accepted, from) <= 2 * RATE_LIMIT
    ensures from !in accepted || from + WINDOW_NS !in accepted ==> InClosedWindow(accepted, from) <= RATE_LIMIT
  {
    AtMostFivePerWindow(accepted, from);
    AtMostFivePerWindow(accepted, from + 1);
    ClosedWindowBounds(accepted, from);
  }

  /** `n` reconnects at one instant and `m` a window later. */
  function Bursts(n: nat, m: nat): seq<nat> {
    if m > 0 then Bursts(n, m - 1) + [WINDOW_NS] else if n > 0 then Bursts(n - 1, 0) + [0] else []
  }

  lemma {:induction false} BurstsAreLimited(n: nat, m: nat)
    requires n <= RATE_LIMIT && m <= RATE_LIMIT
    ensures Limited(Bursts(n, m)) && InClosedWindow(Bursts(n, m), 0) == n + m
    ensures |Retain(Bursts(n, m), WINDOW_NS)| == m && (m == 0 ==> |Retain(Bursts(n, m), 0)| == n)
    ensures AcceptedOf(Bursts(n, m)) == Bursts(n, m)
  {
    hide Limited, InClosedWindow, Retain, AcceptedOf;
    if m > 0 {
      BurstsAreLimited(n, m - 1);
      OneMore(Bursts(n, m - 1), WINDOW_NS);
    } else if n > 0 {
      BurstsAreLimited(n - 1, 0);
      OneMore(Bursts(n - 1, 0), 0);
    } else {
      NoReconnects();
    }
  }

  lemma OneMore(times: seq<nat>, t: nat)
    ensures Limited(times + [t]) <==> Limited(times) && |Retain(times + [t], t)| <= RATE_LIMIT
    ensures Retain(times + [t], t) == Retain(times, t) + [t]
    ensures t == 0 ==> Retain(times + [t], WINDOW_NS) == Retain(times, WINDOW_NS)
    ensures t <= WINDOW_NS ==> InClosedWindow(times + [t], 0) == InClosedWindow(times, 0) + 1
    ensures AcceptedOf(times + [t]) == AcceptNext(AcceptedOf(times), t)
  {
    hide Retain;
    SnocParts(times, t);
    RetainSnoc(times, t, t);
    RetainSnoc(times, t, WINDOW_NS);
  }

  lemma NoReconnects()
    ensures Limited([]) && InClosedWindow([], 0) == 0 && AcceptedOf([]) == []
    ensures Retain([], 0) == [] && Retain([], WINDOW_NS) == []
  {
  }

  /** Ten do fit: of five deaths at once and five exactly sixty seconds later, all are answered by a reconnect. */
  lemma TenInAClosedWindow()
    ensures var deaths := Bursts(5, 5);
            AcceptedOf(deaths) == deaths && InClosedWindow(AcceptedOf(deaths), 0) == 2 * RATE_LIMIT
  {
    BurstsAreLimited(5, 5);
  }

  lemma RetainNothing(now: nat)
    ensures Retain([], now) == RetainAt([], []) == []
  {
  }

  /** A reconnect is forgotten when it is sixty seconds old, not before. */
  lemma WindowIsSixtySeconds(t: nat, age: nat)
    ensures Retain([t], t + age) == if age < 60_000_000_000 then [t] else []
    ensures RetainAt([t], [t + age]) == Retain([t], t + age)
  {
    RetainSnoc([], t, t + age);
    NoReconnects();
    assert [] + [t] == [t];
    assert RetainAt([t], [t + age]) == RetainAt([], []) + if age < WINDOW_NS then [t] else [] by {
      SnocParts([], t);
      SnocParts([], t + age);
      assert [] + [t + age] == [t + age];
    }
    hide RetainAt, Retain;
    RetainNothing(t + age);
  }

  /** A sixth death inside a minute ends the daemon. */
  lemma SixthIsRefused(accepted: seq<nat>, t: nat)
    requires |Retain(accepted, t)| == 5
    ensures AcceptNext(accepted, t) == accepted
  {
  }
}
