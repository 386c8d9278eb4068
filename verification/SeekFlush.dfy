/**
 What a seek does to the relay in service. The seek marks the shared flush channel; a relay that finds the mark empties
 the queue. The question is which chunks from before the seek are still delivered after it.
 */
module SeekFlush {
  import opened Base
  import opened Relay

  /** How many of the delivered chunks were among the first `n` enqueued. */
  function Old(delivered: seq<nat>, n: nat): nat {
    if delivered == [] then 0 else Old(Front(delivered), n) + if Last(delivered) < n then 1 else 0
  }

  predicate NoOld(queue: seq<nat>, n: nat) {
    forall i | 0 <= i < |queue| :: queue[i] >= n
  }

  /** The chunk a relay holds or is about to take, if it is an old one. */
  function InHand(k: Connection, queue: seq<nat>, n: nat): nat {
    match k.pc
    case Sending(x) => if x < n then 1 else 0
    case Receive => if NoOld(queue, n) then 0 else 1
    case _ => 0
  }

  /** Whatever others do, the relay takes no further old chunk: none is left, or it empties the queue first or exits. */
  predicate Settled(k: Connection, f: Flags, queue: seq<nat>, n: nat) {
    NoOld(queue, n) ||
    match k.pc
    case ResetPreempt => true
    case Draining => true
    case TakeFlush => f.flushValue > k.lastSeen
    case FlushDrain(_) => true
    case Receive => NoOld(queue[1..], n)
    case GuardLoad => true
    case GuardStore => true
    case Gone => true
    case _ => false
  }

  /** The relay will find the mark of a seek it has not seen, unless another one takes the mark first. */
  predicate Marked(k: Connection, f: Flags) {
    && (k.pc.CheckPreempt? || k.pc.CheckGen? || k.pc.CheckFlush? || k.pc.Receive? || k.pc.Sending?)
    && f.changed && f.flushValue > k.lastSeen
  }

  predicate Current(w: World, r: nat) {
    r < |w.relays| && Claimed(w.relays[r]) && w.relays[r].gen == w.flags.gen
  }

  /** Another relay is past its generation check and may take the mark. */
  predicate MayTakeMark(w: World, r: nat, q: nat) {
    q < |w.relays| && q != r && (w.relays[q].pc.CheckFlush? || w.relays[q].pc.TakeFlush?)
  }

  ghost predicate MarkIsSafe(w: World, r: nat) {
    forall q :: !MayTakeMark(w, r, q)
  }

  /** `r` is current, will take no further old chunk, and delivers at most `bound` of the first `n`. */
  ghost predicate Bounded(w: World, r: nat, n: nat, bound: nat) {
    && Current(w, r) && n <= w.channel.sent
    && var k, queue := w.relays[r], w.channel.queue;
       && (Settled(k, w.flags, queue, n) || (Marked(k, w.flags) && MarkIsSafe(w, r)))
       && Old(k.delivered, n) + InHand(k, queue, n) <= bound
  }

  lemma OldSnoc(delivered: seq<nat>, x: nat, n: nat)
    ensures Old(delivered + [x], n) == Old(delivered, n) + if x < n then 1 else 0
  {
    SnocParts(delivered, x);
  }

  lemma PopStaysNew(queue: seq<nat>, n: nat)
    ensures NoOld([], n)
    ensures queue != [] && NoOld(queue, n) ==> NoOld(queue[1..], n) && queue[0] >= n
  {
  }

  /** A step of the relay itself. */
  lemma OwnStep(c: Channel, f: Flags, k: Connection, odd: bool, n: nat)
    requires Claimed(k) && (Settled(k, f, c.queue, n) || Marked(k, f))
    ensures var after := Step(c, f, k, odd);
            && (Settled(k, f, c.queue, n) ==> Settled(after.2, after.1, after.0.queue, n))
            && (Settled(after.2, after.1, after.0.queue, n) || Marked(after.2, after.1))
            && Old(after.2.delivered, n) + InHand(after.2, after.0.queue, n)
               <= Old(k.delivered, n) + InHand(k, c.queue, n)
  {
    hide NoOld, Old;
    PopStaysNew(c.queue, n);
    if k.pc.Sending? {
      OldSnoc(k.delivered, k.pc.chunk, n);
    }
  }

  /** What a step of another relay leaves of the shared state. */
  lemma OtherStep(c: Channel, f: Flags, k: Connection, odd: bool)
    ensures var after := Step(c, f, k, odd);
            && (!k.pc.TakeFlush? ==> after.1.changed == f.changed) && after.1.flushValue == f.flushValue
            && (after.0.queue == c.queue || (c.queue != [] && after.0.queue == c.queue[1..]))
            && (after.2.pc.TakeFlush? ==> k.pc.CheckFlush?)
            && (after.2.pc.CheckFlush? ==> k.pc.CheckGen? && k.gen == f.gen)
  {
  }

  lemma SettledIsItsOwn(k: Connection, f: Flags, g: Flags, queue: seq<nat>, n: nat)
    requires Settled(k, f, queue, n) && g.flushValue >= f.flushValue
    ensures Settled(k, g, queue, n)
  {
  }

  lemma LessQueued(k: Connection, f: Flags, queue: seq<nat>, n: nat)
    requires queue != []
    ensures Settled(k, f, queue, n) ==> Settled(k, f, queue[1..], n)
    ensures InHand(k, queue[1..], n) <= InHand(k, queue, n)
  {
    PopStaysNew(queue, n);
  }

  lemma MoreQueued(k: Connection, f: Flags, queue: seq<nat>, n: nat, x: nat)
    requires x >= n
    ensures Settled(k, f, queue, n) ==> Settled(k, f, queue + [x], n)
    ensures InHand(k, queue + [x], n) <= InHand(k, queue, n)
  {
    assert NoOld(queue, n) ==> NoOld(queue + [x], n);
    if queue != [] {
      assert (queue + [x])[1..] == queue[1..] + [x];
    }
  }

  lemma StaysCurrent(w: World, m: Move, r: nat)
    requires GensIssued(w) && Current(w, r) && Undisputed(w, m, r)
    ensures Current(Next(w, m), r) && (MarkIsSafe(w, r) ==> MarkIsSafe(Next(w, m), r))
  {
    var n := Next(w, m);
    if m.Act? && m.r < |w.relays| {
      var k := w.relays[m.r];
      GenOfStep(w.channel, w.flags, k, m.odd);
      GuardOfStep(w.channel, w.flags, k, m.odd);
      OtherStep(w.channel, w.flags, k, m.odd);
      hide Step;
      if MarkIsSafe(w, r) {
        assert !MayTakeMark(w, r, m.r);
      }
    }
    if MarkIsSafe(w, r) {
      forall q
        ensures !MayTakeMark(n, r, q)
      {
        assert !MayTakeMark(w, r, q);
      }
    }
  }

  lemma StaysBounded(w: World, m: Move, r: nat, n: nat, bound: nat)
    requires GensIssued(w) && Bounded(w, r, n, bound) && Undisputed(w, m, r)
    ensures Bounded(Next(w, m), r, n, bound)
  {
    hide GensIssued, Undisputed, Old, NoOld, InHand, Claimed, Step, MarkIsSafe, Settled;
    StaysCurrent(w, m, r);
    var k, queue := w.relays[r], w.channel.queue;
    var after := Next(w, m);
    match m {
      case Enqueue => MoreQueued(k, w.flags, queue, n, w.channel.sent);
      case Seek =>
        if Settled(k, w.flags, queue, n) {
          SettledIsItsOwn(k, w.flags, after.flags, queue, n);
        }
      case BrowsePreempts =>
        if Settled(k, w.flags, queue, n) {
          SettledIsItsOwn(k, w.flags, after.flags, queue, n);
        }
      case Act(q, odd) =>
        if q == r {
          hide Marked;
          OwnStep(w.channel, w.flags, k, odd, n);
          SentStays(w.channel, w.flags, k, odd);
        } else if q < |w.relays| {
          OtherStep(w.channel, w.flags, w.relays[q], odd);
          SentStays(w.channel, w.flags, w.relays[q], odd);
          SafeMarkStays(w, r, q);
          if queue != [] {
            LessQueued(k, w.flags, queue, n);
          }
          if Settled(k, w.flags, after.channel.queue, n) {
            SettledIsItsOwn(k, w.flags, after.flags, after.channel.queue, n);
          }
        }
      case _ =>
    }
  }

  lemma SafeMarkStays(w: World, r: nat, q: nat)
    requires q < |w.relays| && q != r
    ensures MarkIsSafe(w, r) ==> !w.relays[q].pc.TakeFlush?
  {
    if MarkIsSafe(w, r) {
      assert !MayTakeMark(w, r, q);
    }
  }

  lemma SentStays(c: Channel, f: Flags, k: Connection, odd: bool)
    ensures Step(c, f, k, odd).0.sent == c.sent
  {
  }

  lemma {:induction false} RunStaysBounded(schedule: seq<Move>, more: seq<Move>, r: nat, n: nat, bound: nat)
    requires Bounded(Exec(INITIAL, schedule), r, n, bound)
    requires UndisputedRun(Exec(INITIAL, schedule), more, r)
    ensures Bounded(Exec(Exec(INITIAL, schedule), more), r, n, bound)
  {
    if more != [] {
      hide Bounded, Undisputed, Next, GensIssued;
      RunStaysBounded(schedule, Front(more), r, n, bound);
      ExecConcat(INITIAL, schedule, Front(more));
      ReachableGens(schedule + Front(more));
      StaysBounded(Exec(Exec(INITIAL, schedule), Front(more)), Last(more), r, n, bound);
    }
  }

  /** No relay has seen a seek that has not happened. */
  predicate SeenIsIssued(w: World) {
    forall r | 0 <= r < |w.relays| ::
      && w.relays[r].lastSeen <= w.flags.flushValue
      && (w.relays[r].pc.FlushDrain? ==> w.relays[r].pc.upTo <= w.flags.flushValue)
  }

  lemma SeenOfStep(c: Channel, f: Flags, k: Connection, odd: bool)
    requires k.lastSeen <= f.flushValue && (k.pc.FlushDrain? ==> k.pc.upTo <= f.flushValue)
    ensures var after := Step(c, f, k, odd);
            && after.1.flushValue == f.flushValue && after.2.lastSeen <= f.flushValue
            && (after.2.pc.FlushDrain? ==> after.2.pc.upTo <= f.flushValue)
  {
  }

  lemma {:induction false} ReachableSeen(schedule: seq<Move>)
    ensures SeenIsIssued(Exec(INITIAL, schedule))
  {
    if schedule != [] {
      ReachableSeen(Front(schedule));
      var w, m := Exec(INITIAL, Front(schedule)), Last(schedule);
      if m.Act? && m.r < |w.relays| {
        SeenOfStep(w.channel, w.flags, w.relays[m.r], m.odd);
      }
      hide Exec, Step;
    }
  }

  /**
   However an undisputed run goes on from `w`, the relay delivers none of the chunks enqueued so far, apart from the
   one it holds or is about to take.
   */
  ghost predicate Heeded(w: World, r: nat)
    requires r < |w.relays|
  {
    var n := w.channel.sent;
    forall more | UndisputedRun(w, more, r) ::
      && r < |Exec(w, more).relays|
      && Old(Exec(w, more).relays[r].delivered, n)
         <= Old(w.relays[r].delivered, n) + InHand(w.relays[r], w.channel.queue, n)
  }

  /** Another relay can take the mark before `r` finds it. */
  ghost predicate Thief(w: World, r: nat) {
    exists q :: MayTakeMark(w, r, q)
  }

  /**
   The relay has chunks queued beyond the one in its hand, and has either emptied the queue and not yet looked at the
   flush channel, or has to find a mark that another relay can take first.
   */
  ghost predicate Missable(w: World, r: nat)
    requires r < |w.relays|
  {
    match w.relays[r].pc
    case ReadFlush => w.channel.queue != []
    case CheckPreempt => w.channel.queue != [] && Thief(w, r)
    case CheckGen => w.channel.queue != [] && Thief(w, r)
    case CheckFlush => w.channel.queue != [] && Thief(w, r)
    case Sending(_) => w.channel.queue != [] && Thief(w, r)
    case Receive => |w.channel.queue| >= 2 && Thief(w, r)
    case _ => false
  }

  lemma SeekMarks(w: World, r: nat)
    requires SeenIsIssued(w) && Current(w, r) && !Missable(w, r)
    ensures var n := Next(w, Seek);
            var sent := n.channel.sent;
            Bounded(n, r, sent, Old(n.relays[r].delivered, sent) + InHand(n.relays[r], n.channel.queue, sent))
  {
    var n := Next(w, Seek);
    assert w.channel.queue == [] ==> NoOld(n.channel.queue, n.channel.sent);
    assert |w.channel.queue| == 1 ==> NoOld(n.channel.queue[1..], n.channel.sent);
    if !Thief(w, r) {
      forall q
        ensures !MayTakeMark(n, r, q)
      {
        assert !MayTakeMark(w, r, q);
      }
    }
  }

  function Turns(a: Move, n: nat): seq<Move> {
    if n == 0 then [] else Turns(a, n - 1) + [a]
  }

  lemma {:induction false} OwnTurnsAreUndisputed(w: World, r: nat, n: nat)
    ensures UndisputedRun(w, Turns(Act(r, false), n), r)
  {
    if n > 0 {
      OwnTurnsAreUndisputed(w, r, n - 1);
      SnocParts(Turns(Act(r, false), n - 1), Act(r, false));
      hide Exec;
    }
  }

  lemma TurnOf(w: World, r: nat, n: nat)
    ensures Exec(w, Turns(Act(r, false), 0)) == w
    ensures Exec(w, Turns(Act(r, false), n + 1)) == Next(Exec(w, Turns(Act(r, false), n)), Act(r, false))
  {
    ExecSnoc(w, Turns(Act(r, false), n), Act(r, false));
  }

  /** The relay takes the number of the seek for seen, and then finds the mark. */
  lemma LooksAtFlush(w: World, r: nat)
    requires r < |w.relays| && w.relays[r].pc.ReadFlush?
    requires w.flags.changed && !w.flags.preempting && w.relays[r].gen == w.flags.gen
    ensures var a := Act(r, false);
            Next(Next(Next(Next(w, a), a), a), a)
            == w.(relays := w.relays[r := w.relays[r].(pc := TakeFlush, lastSeen := w.flags.flushValue)])
  {
    var a, k := Act(r, false), w.relays[r].(lastSeen := w.flags.flushValue);
    var w2 := Next(Next(w, a), a);
    assert w2 == w.(relays := w.relays[r := k.(pc := CheckGen)]);
    var w3 := Next(w2, a);
    assert w3 == w.(relays := w.relays[r := k.(pc := CheckFlush)]);
  }

  /** A mark whose number it has seen is dropped, and the oldest chunk delivered. */
  lemma DropsMark(w: World, r: nat)
    requires r < |w.relays| && w.relays[r].pc.TakeFlush? && w.flags.flushValue == w.relays[r].lastSeen
    requires w.channel.queue != []
    ensures var a := Act(r, false);
            var n := Next(Next(Next(w, a), a), a);
            r < |n.relays| && n.relays[r].delivered == w.relays[r].delivered + [w.channel.queue[0]]
  {
    var a, k := Act(r, false), w.relays[r];
    var w1 := Next(w, a);
    assert w1.relays == w.relays[r := k.(pc := Receive)] && w1.channel == w.channel;
    var w2 := Next(w1, a);
    assert w2.relays == w.relays[r := k.(pc := Sending(w.channel.queue[0]))];
  }

  lemma MarkIsDropped(w: World, r: nat)
    requires r < |w.relays| && w.relays[r].pc.ReadFlush? && w.channel.queue != []
    requires w.flags.changed && !w.flags.preempting && w.relays[r].gen == w.flags.gen
    ensures var n := Exec(w, Turns(Act(r, false), 7));
            r < |n.relays| && n.relays[r].delivered == w.relays[r].delivered + [w.channel.queue[0]]
  {
    hide Exec, Next, Turns;
    TurnOf(w, r, 0);
    TurnOf(w, r, 1);
    TurnOf(w, r, 2);
    TurnOf(w, r, 3);
    TurnOf(w, r, 4);
    TurnOf(w, r, 5);
    TurnOf(w, r, 6);
    LooksAtFlush(w, r);
    DropsMark(Exec(w, Turns(Act(r, false), 4)), r);
  }

  /** The other relay takes the mark. */
  lemma TakesMark(w: World, r: nat, q: nat) returns (ms: seq<Move>)
    requires r < |w.relays| && MayTakeMark(w, r, q) && w.flags.changed
    ensures UndisputedRun(w, ms, r)
    ensures var n := Exec(w, ms);
            && !n.flags.changed && n.flags.preempting == w.flags.preempting && n.flags.gen == w.flags.gen
            && n.channel == w.channel && |n.relays| == |w.relays| && n.relays[r] == w.relays[r]
  {
    hide Exec, UndisputedRun;
    var a := Act(q, false);
    ExecSnoc(w, [], a);
    UndisputedSnoc(w, [], a, r);
    ms := [] + [a];
    if w.relays[q].pc.CheckFlush? {
      ExecSnoc(w, ms, a);
      UndisputedSnoc(w, ms, a, r);
      ms := ms + [a];
    }
  }

  lemma UndisputedSnoc(w: World, ms: seq<Move>, m: Move, r: nat)
    requires (ms == [] || UndisputedRun(w, ms, r)) && Undisputed(Exec(w, ms), m, r)
    ensures UndisputedRun(w, ms + [m], r)
  {
    SnocParts(ms, m);
  }

  lemma OwnTurnsFollow(w: World, ms: seq<Move>, r: nat, n: nat)
    requires UndisputedRun(w, ms, r)
    ensures UndisputedRun(w, ms + Turns(Act(r, false), n), r)
    ensures Exec(w, ms + Turns(Act(r, false), n)) == Exec(Exec(w, ms), Turns(Act(r, false), n))
  {
    var a := Act(r, false);
    if n == 0 {
      assert ms + [] == ms;
    } else {
      OwnTurnsFollow(w, ms, r, n - 1);
      assert ms + Turns(a, n) == ms + Turns(a, n - 1) + [a];
      SnocParts(ms + Turns(a, n - 1), a);
      SnocParts(Turns(a, n - 1), a);
    }
  }

  lemma {:induction false} TurnsAdd(a: Move, m: nat, n: nat)
    ensures Turns(a, m) + Turns(a, n) == Turns(a, m + n)
  {
    if n == 0 {
      assert Turns(a, m) + [] == Turns(a, m);
    } else {
      TurnsAdd(a, m, n - 1);
      assert Turns(a, m) + Turns(a, n) == Turns(a, m) + Turns(a, n - 1) + [a];
    }
  }

  lemma FirstTurn(w: World, r: nat, n: nat)
    ensures Exec(w, Turns(Act(r, false), 0)) == w
    ensures Exec(w, Turns(Act(r, false), n + 1)) == Exec(Next(w, Act(r, false)), Turns(Act(r, false), n))
  {
    var a := Act(r, false);
    TurnsAdd(a, 1, n);
    assert Turns(a, 1) == [] + [a];
    ExecSnoc(w, [], a);
    ExecConcat(w, [] + [a], Turns(a, n));
  }

  /** How many turns an unmarked current relay needs until it comes round with one more chunk delivered. */
  function Way(pc: RelayPc): nat {
    match pc
    case CheckPreempt => 5
    case CheckGen => 4
    case CheckFlush => 3
    case Receive => 2
    case Sending(_) => 1
    case _ => 0
  }

  predicate Unmarked(w: World, r: nat) {
    r < |w.relays| && w.relays[r].gen == w.flags.gen && !w.flags.preempting && !w.flags.changed
  }

  lemma OneTurn(w: World, r: nat)
    requires Unmarked(w, r) && Way(w.relays[r].pc) > 1 && w.channel.queue != []
    ensures var n, k := Next(w, Act(r, false)), w.relays[r];
            && Unmarked(n, r) && Way(n.relays[r].pc) == Way(k.pc) - 1 && n.relays[r].delivered == k.delivered
            && (if k.pc.Receive? then n.relays[r].pc == Sending(w.channel.queue[0]) && n.channel == Pop(w.channel)
                else n.channel == w.channel)
  {
  }

  lemma {:induction false} ComesRound(w: World, r: nat)
    requires Unmarked(w, r) && Way(w.relays[r].pc) > 0 && (w.relays[r].pc.Sending? || w.channel.queue != [])
    ensures var k := w.relays[r];
            var n := Exec(w, Turns(Act(r, false), Way(k.pc)));
            && Unmarked(n, r) && n.relays[r].pc == CheckPreempt
            && (if k.pc.Sending? then n.relays[r].delivered == k.delivered + [k.pc.chunk] && n.channel == w.channel
                else n.relays[r].delivered == k.delivered + [w.channel.queue[0]] && n.channel == Pop(w.channel))
    decreases Way(w.relays[r].pc)
  {
    hide Exec, Next, Turns;
    var way := Way(w.relays[r].pc);
    FirstTurn(w, r, way - 1);
    FirstTurn(Next(w, Act(r, false)), r, 0);
    if way == 1 {
      LastTurn(w, r);
    } else {
      OneTurn(w, r);
      ComesRound(Next(w, Act(r, false)), r);
    }
  }

  lemma LastTurn(w: World, r: nat)
    requires Unmarked(w, r) && w.relays[r].pc.Sending?
    ensures var n, k := Next(w, Act(r, false)), w.relays[r];
            && Unmarked(n, r) && n.relays[r].pc == CheckPreempt && n.channel == w.channel
            && n.relays[r].delivered == k.delivered + [k.pc.chunk]
  {
  }

  /** What is queued and what the relay holds has been enqueued. */
  predicate Enqueued(c: Channel, k: Connection) {
    && (forall i | 0 <= i < |c.queue| :: c.queue[i] < c.sent)
    && (k.pc.Sending? ==> k.pc.chunk < c.sent)
  }

  lemma OrderMeansEnqueued(w: World, r: nat)
    requires InOrder(w) && r < |w.relays|
    ensures Enqueued(w.channel, w.relays[r])
  {
  }

  /** With the mark gone, the relay delivers a queued chunk besides the one in its hand. */
  lemma DeliversOneMore(w: World, r: nat) returns (n: nat)
    requires Unmarked(w, r) && Enqueued(w.channel, w.relays[r]) && Way(w.relays[r].pc) > 0
    requires |w.channel.queue| >= if w.relays[r].pc.Receive? then 2 else 1
    ensures var after, sent := Exec(w, Turns(Act(r, false), n)), w.channel.sent;
            && r < |after.relays|
            && Old(after.relays[r].delivered, sent)
               > Old(w.relays[r].delivered, sent) + InHand(w.relays[r], w.channel.queue, sent)
  {
    hide Exec, Turns, Old;
    var a, k, queue, sent := Act(r, false), w.relays[r], w.channel.queue, w.channel.sent;
    ComesRound(w, r);
    n := Way(k.pc);
    var w1 := Exec(w, Turns(a, n));
    OldSnoc(k.delivered, if k.pc.Sending? then k.pc.chunk else queue[0], sent);
    if k.pc.Sending? || k.pc.Receive? {
      ComesRound(w1, r);
      TurnsAdd(a, n, 5);
      ExecConcat(w, Turns(a, n), Turns(a, 5));
      OldSnoc(w1.relays[r].delivered, w1.channel.queue[0], sent);
      n := n + 5;
    }
  }

  /** A stolen mark, or one dropped as seen, lets an old chunk through. */
  lemma MissableIsMissed(w: World, r: nat) returns (more: seq<Move>)
    requires r < |w.relays| && Enqueued(w.channel, w.relays[r]) && Missable(w, r) && w.relays[r].gen == w.flags.gen
    requires w.flags.changed && !w.flags.preempting
    ensures UndisputedRun(w, more, r)
    ensures var after, sent := Exec(w, more), w.channel.sent;
            && r < |after.relays|
            && Old(after.relays[r].delivered, sent)
               > Old(w.relays[r].delivered, sent) + InHand(w.relays[r], w.channel.queue, sent)
  {
    hide Exec, Turns, Old, UndisputedRun, MayTakeMark;
    var a := Act(r, false);
    if w.relays[r].pc.ReadFlush? {
      more := Turns(a, 7);
      OwnTurnsAreUndisputed(w, r, 7);
      MarkIsDropped(w, r);
      OldSnoc(w.relays[r].delivered, w.channel.queue[0], w.channel.sent);
    } else {
      var q :| MayTakeMark(w, r, q);
      var ms := TakesMark(w, r, q);
      var u := Exec(w, ms);
      var n := DeliversOneMore(u, r);
      OwnTurnsFollow(w, ms, r, n);
      more := ms + Turns(a, n);
    }
  }

  /**
   Whatever state a run has reached, a seek is heeded by the relay in service if and only if it is not missable: chunks
   are queued beyond the one in hand, and the relay has not yet had its first look at the flush channel, or another
   relay can take the mark first.
   */
  lemma SeekIsHeededUnlessMissable(schedule: seq<Move>, r: nat)
    requires Current(Exec(INITIAL, schedule), r) && !Exec(INITIAL, schedule).flags.preempting
    ensures var w := Exec(INITIAL, schedule);
            Heeded(Next(w, Seek), r) <==> !Missable(w, r)
  {
    hide Exec, GensIssued, Claimed, Old, InHand, Step, Settled, Marked, UndisputedRun;
    var w := Exec(INITIAL, schedule);
    var n := Next(w, Seek);
    var sent := n.channel.sent;
    ExecSnoc(INITIAL, schedule, Seek);
    if Missable(w, r) {
      ReachableInOrder(schedule);
      OrderMeansEnqueued(w, r);
      MissableAfterSeek(w, r);
      var more := MissableIsMissed(n, r);
      assert UndisputedRun(n, more, r);
    } else {
      ReachableSeen(schedule);
      SeekMarks(w, r);
      var bound := Old(n.relays[r].delivered, sent) + InHand(n.relays[r], n.channel.queue, sent);
      forall more | UndisputedRun(n, more, r)
        ensures r < |Exec(n, more).relays| && Old(Exec(n, more).relays[r].delivered, sent) <= bound
      {
        RunStaysBounded(schedule + [Seek], more, r, sent, bound);
      }
    }
  }

  lemma MissableAfterSeek(w: World, r: nat)
    requires r < |w.relays| && Missable(w, r)
    ensures Missable(Next(w, Seek), r)
  {
    if Thief(w, r) {
      var q :| MayTakeMark(w, r, q);
      assert MayTakeMark(Next(w, Seek), r, q);
    }
  }

  /** A relay that has just emptied the queue, and the first chunk after that. */
  const JUST_DRAINED: World :=
    World(Channel([0], 1, [], [], []), Flags(true, 1, false, 0, false), [Connection(ReadFlush, 1, 0, [])])

  /** A seek can fall there. */
  lemma SeekCanBeMissed()
    ensures exists schedule ::
              var w := Exec(INITIAL, schedule);
              Current(w, 0) && w.relays[0].pc.ReadFlush? && !Heeded(Next(w, Seek), 0)
  {
    var a := Act(0, false);
    var s1 := [] + [Connect] + [a];
    var s2 := s1 + [a] + [a];
    var s3 := s2 + [a] + [a];
    var s4 := s3 + [Enqueue];
    ExecSnoc(INITIAL, [], Connect);
    ExecTwo(INITIAL, [], Connect, a);
    ExecTwo(INITIAL, s1, a, a);
    ExecTwo(INITIAL, s2, a, a);
    ExecSnoc(INITIAL, s3, Enqueue);
    hide Exec, Heeded;
    assert Exec(INITIAL, s1).relays == [Connection(Swapping, 0, 0, [])];
    assert Exec(INITIAL, s2).relays == [Connection(ResetPreempt, 1, 0, [])];
    assert Exec(INITIAL, s3).relays == [Connection(ReadFlush, 1, 0, [])];
    assert Exec(INITIAL, s4) == JUST_DRAINED;
    SeekIsHeededUnlessMissable(s4, 0);
  }
}
