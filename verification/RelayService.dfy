/**
 How a connection comes into the relay's service and how it leaves it: what a newcomer delivers, that it does get to
 deliver, when a preemption by Browse makes the relay stop, and what a finished relay leaves behind.
 */
module RelayService {
  import opened Base
  import opened Relay
  import opened SeekFlush

  // ---------------------------------------------------------------------------------------
  // A newcomer drains before it delivers
  // ---------------------------------------------------------------------------------------

  /** The relay has delivered nothing of the first `n` chunks, and will not. */
  predicate OnlyNew(k: Connection, queue: seq<nat>, n: nat) {
    && (forall i | 0 <= i < |k.delivered| :: k.delivered[i] >= n)
    && (k.pc.Sending? ==> k.pc.chunk >= n)
    && (NoOld(queue, n) || k.pc.Arriving? || k.pc.Swapping? || k.pc.Bumping? || k.pc.ResetPreempt? || k.pc.Draining?)
  }

  lemma OwnStepOnlyNew(c: Channel, f: Flags, k: Connection, odd: bool, n: nat)
    requires OnlyNew(k, c.queue, n)
    ensures var after := Step(c, f, k, odd); OnlyNew(after.2, after.0.queue, n)
  {
    hide NoOld;
    PopStaysNew(c.queue, n);
  }

  lemma NextOnlyNew(w: World, m: Move, r: nat, n: nat)
    requires r < |w.relays| && n <= w.channel.sent && OnlyNew(w.relays[r], w.channel.queue, n)
    ensures var after := Next(w, m);
            r < |after.relays| && n <= after.channel.sent && OnlyNew(after.relays[r], after.channel.queue, n)
  {
    hide Step;
    if m.Act? && m.r < |w.relays| {
      var k := w.relays[m.r];
      SentStays(w.channel, w.flags, k, m.odd);
      if m.r == r {
        hide OnlyNew;
        OwnStepOnlyNew(w.channel, w.flags, k, m.odd, n);
      } else {
        OtherStep(w.channel, w.flags, k, m.odd);
        PopStaysNew(w.channel.queue, n);
        hide NoOld;
      }
    } else if m.Enqueue? {
      assert NoOld(w.channel.queue, n) ==> NoOld(w.channel.queue + [w.channel.sent], n);
      hide NoOld;
    }
  }

  /** Whatever the others do, a connection delivers no chunk that was enqueued before it came. */
  lemma {:induction false} NewcomerDeliversOnlyNew(w: World, more: seq<Move>)
    ensures var r, after := |w.relays|, Exec(Next(w, Connect), more);
            && r < |after.relays| && w.channel.sent <= after.channel.sent
            && OnlyNew(after.relays[r], after.channel.queue, w.channel.sent)
            && forall i | 0 <= i < |after.relays[r].delivered| :: after.relays[r].delivered[i] >= w.channel.sent
  {
    if more != [] {
      NewcomerDeliversOnlyNew(w, Front(more));
      hide Next, OnlyNew;
      NextOnlyNew(Exec(Next(w, Connect), Front(more)), Last(more), |w.relays|, w.channel.sent);
      NewDelivered(Exec(Next(w, Connect), more), |w.relays|, w.channel.sent);
    }
  }

  lemma NewDelivered(w: World, r: nat, n: nat)
    requires r < |w.relays| && OnlyNew(w.relays[r], w.channel.queue, n)
    ensures forall i | 0 <= i < |w.relays[r].delivered| :: w.relays[r].delivered[i] >= n
  {
  }

  // ---------------------------------------------------------------------------------------
  // A current relay serves
  // ---------------------------------------------------------------------------------------

  /** The relay is on its way to taking chunks. */
  predicate InLoop(pc: RelayPc) {
    pc.Draining? || pc.ReadFlush? || pc.CheckPreempt? || pc.CheckGen? || pc.CheckFlush? || pc.TakeFlush?
    || pc.FlushDrain? || pc.Receive? || pc.Sending?
  }

  predicate Free(w: World, r: nat) {
    Current(w, r) && !w.flags.preempting && InLoop(w.relays[r].pc)
  }

  /** The relay takes the next chunk. */
  predicate Waiting(w: World, r: nat) {
    Free(w, r) && w.relays[r].pc.Receive? && !w.flags.changed
  }

  /** How far an undisturbed relay is from waiting, apart from the chunks it drains. */
  function Distance(pc: RelayPc, changed: bool): nat {
    match pc
    case FlushDrain(_) => if changed then 10 else 1
    case Receive => if changed then 9 else 0
    case Sending(_) => 8
    case Draining => 7
    case ReadFlush => 6
    case CheckPreempt => 5
    case CheckGen => 4
    case CheckFlush => 3
    case TakeFlush => 2
    case _ => 0
  }

  lemma CloserByOne(w: World, r: nat)
    requires Free(w, r) && !Waiting(w, r)
    ensures var n, k := Next(w, Act(r, false)), w.relays[r];
            && Free(n, r) && n.flags.active == w.flags.active && n.channel.sent == w.channel.sent
            && Distance(n.relays[r].pc, n.flags.changed) + |n.channel.queue|
               < Distance(k.pc, w.flags.changed) + |w.channel.queue|
            && k.delivered <= n.relays[r].delivered
            && (Untouched(w, r) ==> Untouched(n, r) && n.relays[r].delivered == k.delivered)
  {
    hide Count;
  }

  /** There is nothing to deliver until a chunk comes. */
  predicate Untouched(w: World, r: nat)
    requires r < |w.relays|
  {
    (w.relays[r].pc.Draining? || w.channel.queue == []) && !w.relays[r].pc.Sending?
  }

  /** Left alone, a current relay that is not preempted comes to wait for the next chunk. */
  lemma {:induction false} ComesToWait(w: World, r: nat) returns (n: nat)
    requires Free(w, r)
    ensures var after := Exec(w, Turns(Act(r, false), n));
            && Waiting(after, r) && after.flags.active == w.flags.active && after.channel.sent == w.channel.sent
            && w.relays[r].delivered <= after.relays[r].delivered
            && (Untouched(w, r) ==> after.channel.queue == [] && after.relays[r].delivered == w.relays[r].delivered)
    decreases Distance(w.relays[r].pc, w.flags.changed) + |w.channel.queue|
  {
    hide Exec, Next, Turns;
    FirstTurn(w, r, 0);
    if Waiting(w, r) {
      n := 0;
    } else {
      CloserByOne(w, r);
      n := ComesToWait(Next(w, Act(r, false)), r);
      FirstTurn(w, r, n);
      n := n + 1;
    }
  }

  /** From its first step to its drain: flag, generation and preemption. */
  lemma Claims(w: World)
    ensures var r, a := |w.relays|, Act(|w.relays|, false);
            var n := Next(Next(Next(Next(Next(w, Connect), a), a), a), a);
            && Free(n, r) && n.relays[r].pc == Draining && n.relays[r].delivered == []
            && n.flags.active && n.channel == w.channel
  {
    var r, a := |w.relays|, Act(|w.relays|, false);
    var n1 := Next(Next(w, Connect), a);
    assert n1.relays == w.relays + [Connection(Swapping, 0, 0, [])];
    var n3 := Next(Next(n1, a), a);
    assert n3.relays == w.relays + [Connection(ResetPreempt, w.flags.gen + 1, 0, [])];
    assert n3.flags.active && n3.flags.gen == w.flags.gen + 1;
  }

  /** What a waiting relay does with the next chunk. */
  lemma DeliversNext(w: World, r: nat)
    requires Waiting(w, r) && w.channel.queue == []
    ensures var a := Act(r, false);
            var n := Next(Next(Next(w, Enqueue), a), a);
            && Free(n, r) && n.relays[r].pc == CheckPreempt
            && n.relays[r].delivered == w.relays[r].delivered + [w.channel.sent]
  {
    var a := Act(r, false);
    var n1 := Next(w, Enqueue);
    assert n1.channel.queue == [w.channel.sent];
    var n2 := Next(n1, a);
    assert n2.relays[r].pc == Sending(w.channel.sent) && n2.relays[r].delivered == w.relays[r].delivered;
  }

  /**
   Whatever the state in which a connection arrives, preempted or marked, with any queue and any relay in service: left
   alone it comes into service with the flag set, and delivers the next chunk.
   */
  lemma NewcomerIsServed(w: World)
    ensures exists n: nat ::
              var r, a := |w.relays|, Act(|w.relays|, false);
              var u := Exec(Next(w, Connect), Turns(a, n));
              && Waiting(u, r) && u.flags.active && u.channel.queue == [] && u.channel.sent == w.channel.sent
              && u.relays[r].delivered == []
              && Next(Next(Next(u, Enqueue), a), a).relays[r].delivered == [w.channel.sent]
  {
    hide Exec, Next, Turns, Waiting, Free;
    var r, a := |w.relays|, Act(|w.relays|, false);
    var w0 := Next(w, Connect);
    var w4 := Next(Next(Next(Next(w0, a), a), a), a);
    Claims(w);
    var n := ComesToWait(w4, r);
    FirstTurn(w0, r, n + 3);
    FirstTurn(Next(w0, a), r, n + 2);
    FirstTurn(Next(Next(w0, a), a), r, n + 1);
    FirstTurn(Next(Next(Next(w0, a), a), a), r, n);
    var u := Exec(w0, Turns(a, n + 4));
    DeliversNext(u, r);
    assert [] + [w.channel.sent] == [w.channel.sent];
  }

  /** A waiting relay that finds no chunk comes round to waiting again. */
  lemma PollsAgain(w: World, r: nat)
    requires Waiting(w, r) && w.channel.queue == []
    ensures var a := Act(r, false);
            Next(Next(Next(Next(w, a), a), a), a) == w
  {
    var a := Act(r, false);
    var n2 := Next(Next(w, a), a);
    assert n2 == w.(relays := w.relays[r := w.relays[r].(pc := CheckGen)]);
    var n4 := Next(Next(n2, a), a);
    assert n4.relays == w.relays[r := w.relays[r].(pc := Receive)] == w.relays;
  }

  // ---------------------------------------------------------------------------------------
  // Leaving
  // ---------------------------------------------------------------------------------------

  /** A finished relay frees the flag if and only if it is still the current one. */
  lemma FinishedRelayLeaves(w: World, r: nat)
    requires r < |w.relays| && w.relays[r].pc.GuardLoad?
    ensures var a := Act(r, false);
            var n := Next(Next(w, a), a);
            && n.relays[r].pc.Gone? && n.relays[r].delivered == w.relays[r].delivered && n.channel == w.channel
            && n.flags == w.flags.(active := w.flags.active && w.relays[r].gen != w.flags.gen)
  {
  }

  /** A chunk sent to a client that is gone is lost, and the relay finishes. */
  lemma GoneClientEndsRelay(w: World, r: nat)
    requires r < |w.relays| && w.relays[r].pc.Sending?
    ensures var n := Next(w, Act(r, true));
            && n.relays[r].pc.GuardLoad? && n.relays[r].delivered == w.relays[r].delivered
            && n.channel.lost == w.channel.lost + [w.relays[r].pc.chunk] && n.channel.queue == w.channel.queue
  {
  }

  /** The relay is past the check for a preemption in this turn. */
  predicate PastCheck(pc: RelayPc) {
    pc.CheckGen? || pc.CheckFlush? || pc.TakeFlush? || pc.FlushDrain? || pc.Receive? || pc.Sending?
  }

  function MayStillSend(pc: RelayPc): nat {
    if PastCheck(pc) then 1 else 0
  }

  /** Another connection is about to reset the preemption. */
  predicate Resets(w: World, r: nat, q: nat) {
    q < |w.relays| && q != r && w.relays[q].pc.ResetPreempt?
  }

  /** The relay is preempted for good, and delivers at most `bound` chunks in all. */
  ghost predicate Preempted(w: World, r: nat, bound: nat) {
    && Current(w, r) && !w.relays[r].pc.ResetPreempt?
    && (InLoop(w.relays[r].pc) ==> w.flags.preempting && forall q :: !Resets(w, r, q))
    && |w.relays[r].delivered| + MayStillSend(w.relays[r].pc) <= bound
  }

  lemma PreemptionOfStep(c: Channel, f: Flags, k: Connection, odd: bool)
    ensures var after := Step(c, f, k, odd);
            && (after.1.preempting == f.preempting || k.pc.ResetPreempt?)
            && (after.2.pc.ResetPreempt? ==> k.pc.Bumping?)
            && (Claimed(k) && !k.pc.ResetPreempt? ==>
                  && !after.2.pc.ResetPreempt? && (InLoop(after.2.pc) ==> InLoop(k.pc))
                  && (f.preempting || !InLoop(k.pc) ==>
                        |after.2.delivered| + MayStillSend(after.2.pc) <= |k.delivered| + MayStillSend(k.pc)))
  {
  }

  lemma StaysPreempted(w: World, m: Move, r: nat, bound: nat)
    requires GensIssued(w) && Preempted(w, r, bound) && Undisputed(w, m, r)
    ensures Preempted(Next(w, m), r, bound)
  {
    var n := Next(w, m);
    StaysCurrent(w, m, r);
    if m.Act? && m.r < |w.relays| {
      PreemptionOfStep(w.channel, w.flags, w.relays[m.r], m.odd);
      hide Step, MayStillSend;
      if InLoop(n.relays[r].pc) {
        assert !Resets(w, r, m.r);
        NobodyResets(w, m, r);
      }
    } else if InLoop(n.relays[r].pc) {
      NobodyResets(w, m, r);
    }
  }

  lemma NobodyResets(w: World, m: Move, r: nat)
    requires r < |w.relays| && Undisputed(w, m, r) && forall q :: !Resets(w, r, q)
    ensures forall q :: !Resets(Next(w, m), r, q)
  {
    if m.Act? && m.r < |w.relays| {
      PreemptionOfStep(w.channel, w.flags, w.relays[m.r], m.odd);
      hide Step;
    }
    forall q
      ensures !Resets(Next(w, m), r, q)
    {
      assert !Resets(w, r, q);
    }
  }

  lemma {:induction false} RunStaysPreempted(schedule: seq<Move>, more: seq<Move>, r: nat, bound: nat)
    requires Preempted(Exec(INITIAL, schedule), r, bound)
    requires UndisputedRun(Exec(INITIAL, schedule), more, r)
    ensures Preempted(Exec(Exec(INITIAL, schedule), more), r, bound)
  {
    if more != [] {
      hide Preempted, Undisputed, Next, GensIssued;
      RunStaysPreempted(schedule, Front(more), r, bound);
      ExecConcat(INITIAL, schedule, Front(more));
      ReachableGens(schedule + Front(more));
      StaysPreempted(Exec(Exec(INITIAL, schedule), Front(more)), Last(more), r, bound);
    }
  }

  /** However an undisputed run goes on, the relay forwards nothing more, but one chunk if it is past the check. */
  ghost predicate Stops(w: World, r: nat)
    requires r < |w.relays|
  {
    forall more | UndisputedRun(w, more, r) ::
      && r < |Exec(w, more).relays|
      && |Exec(w, more).relays[r].delivered| <= |w.relays[r].delivered| + MayStillSend(w.relays[r].pc)
  }

  lemma EnqueueFollows(w: World, ms: seq<Move>, r: nat)
    requires UndisputedRun(w, ms, r)
    ensures UndisputedRun(w, ms + [Enqueue], r) && Exec(w, ms + [Enqueue]) == Next(Exec(w, ms), Enqueue)
  {
    hide Exec, UndisputedRun;
    ExecSnoc(w, ms, Enqueue);
    UndisputedSnoc(w, ms, Enqueue, r);
  }

  /** A free relay delivers two chunks more, given two. */
  lemma DeliversTwoMore(w: World, ms: seq<Move>, r: nat) returns (more: seq<Move>)
    requires UndisputedRun(w, ms, r) && Free(Exec(w, ms), r)
    ensures UndisputedRun(w, more, r)
    ensures var before, after := Exec(w, ms), Exec(w, more);
            r < |after.relays| && |after.relays[r].delivered| >= |before.relays[r].delivered| + 2
  {
    hide Exec, UndisputedRun, Turns;
    var a := Act(r, false);
    var n := ComesToWait(Exec(w, ms), r);
    OwnTurnsFollow(w, ms, r, n);
    more := ms + Turns(a, n);
    EnqueueFollows(w, more, r);
    more := more + [Enqueue];
    ComesRound(Exec(w, more), r);
    OwnTurnsFollow(w, more, r, 2);
    more := more + Turns(a, 2);
    EnqueueFollows(w, more, r);
    more := more + [Enqueue];
    ComesRound(Exec(w, more), r);
    OwnTurnsFollow(w, more, r, 5);
    more := more + Turns(a, 5);
  }

  /** The slower newcomer clears the flag that was meant for the relay in service. */
  lemma SlowNewcomerFrees(w: World, r: nat, q: nat) returns (ms: seq<Move>)
    requires Current(w, r) && InLoop(w.relays[r].pc) && Resets(w, r, q)
    ensures UndisputedRun(w, ms, r)
    ensures Free(Exec(w, ms), r) && Exec(w, ms).relays[r] == w.relays[r]
  {
    hide Exec, UndisputedRun;
    var a := Act(q, false);
    ExecSnoc(w, [], a);
    UndisputedSnoc(w, [], a, r);
    ms := [] + [a];
  }

  /**
   A preemption by Browse stops the relay in service, but for one chunk it may be past the check for, if and only if no
   other connection has claimed an earlier generation and not yet reset the preemption.
   */
  lemma PreemptionIsHeededUnlessReset(schedule: seq<Move>, r: nat)
    requires Current(Exec(INITIAL, schedule), r) && !Exec(INITIAL, schedule).relays[r].pc.ResetPreempt?
    ensures var w := Exec(INITIAL, schedule);
            Stops(Next(w, BrowsePreempts), r) <==> (InLoop(w.relays[r].pc) ==> forall q :: !Resets(w, r, q))
  {
    hide Exec, UndisputedRun, Claimed;
    var w := Exec(INITIAL, schedule);
    var n := Next(w, BrowsePreempts);
    ExecSnoc(INITIAL, schedule, BrowsePreempts);
    if InLoop(w.relays[r].pc) && exists q :: Resets(w, r, q) {
      var q :| Resets(w, r, q);
      assert Resets(n, r, q);
      var ms := SlowNewcomerFrees(n, r, q);
      var more := DeliversTwoMore(n, ms, r);
      assert UndisputedRun(n, more, r);
    } else {
      forall q
        ensures InLoop(w.relays[r].pc) ==> !Resets(n, r, q)
      {
        assert InLoop(w.relays[r].pc) ==> !Resets(w, r, q);
      }
      var bound := |n.relays[r].delivered| + MayStillSend(n.relays[r].pc);
      forall more | UndisputedRun(n, more, r)
        ensures r < |Exec(n, more).relays| && |Exec(n, more).relays[r].delivered| <= bound
      {
        RunStaysPreempted(schedule + [BrowsePreempts], more, r, bound);
      }
    }
  }

  /** A preemption can be missed: of two newcomers the first to claim is the last to reset the preemption. */
  lemma PreemptionCanBeMissed()
    ensures exists schedule ::
              var w := Exec(INITIAL, schedule);
              Current(w, 1) && w.relays[1].pc.Draining? && !Stops(Next(w, BrowsePreempts), 1)
  {
    var a, b := Act(0, false), Act(1, false);
    var s1 := [] + [Connect] + [a];
    var s2 := s1 + [a] + [a];
    var s3 := s2 + [Connect] + [b];
    var s4 := s3 + [b] + [b];
    var s5 := s4 + [b];
    ExecSnoc(INITIAL, [], Connect);
    ExecTwo(INITIAL, [], Connect, a);
    ExecTwo(INITIAL, s1, a, a);
    ExecTwo(INITIAL, s2, Connect, b);
    ExecTwo(INITIAL, s3, b, b);
    ExecSnoc(INITIAL, s4, b);
    hide Exec, Stops;
    var first := Connection(ResetPreempt, 1, 0, []);
    assert Exec(INITIAL, s1).relays == [Connection(Swapping, 0, 0, [])];
    assert Exec(INITIAL, s2).relays == [first];
    assert Exec(INITIAL, s3).relays == [first, Connection(Swapping, 0, 0, [])];
    assert Exec(INITIAL, s4).relays == [first, Connection(ResetPreempt, 2, 0, [])];
    assert Exec(INITIAL, s5).relays == [first, Connection(Draining, 2, 0, [])];
    assert Resets(Exec(INITIAL, s5), 1, 0);
    PreemptionIsHeededUnlessReset(s5, 1);
  }

  // ---------------------------------------------------------------------------------------
  // Two details of the flags
  // ---------------------------------------------------------------------------------------

  /** An arriving connection clears the flag of a relay it finds stuck, and only then. */
  lemma StuckRelayIsCleared(w: World, r: nat, stuck: bool)
    requires r < |w.relays| && w.relays[r].pc.Arriving?
    ensures var n := Next(w, Act(r, stuck));
            && n.flags == w.flags.(active := w.flags.active && !stuck)
            && n.relays[r].pc.Swapping? && n.channel == w.channel
  {
  }

  /** A finished flush has taken the number of the seek for seen: a mark with that number does not flush again. */
  lemma FlushedSeekIsSeen(w: World, r: nat)
    requires r < |w.relays| && w.relays[r].pc.FlushDrain? && w.channel.queue == []
    ensures var n := Next(w, Act(r, false));
            n.relays[r].lastSeen == w.relays[r].pc.upTo && n.relays[r].pc.Receive? && n.flags == w.flags
  {
  }
}
