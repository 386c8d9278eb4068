/**
 The takeover protocol of the stream handler: any number of connections share one receiver, one generation
 counter and one seek-flush channel. Chunks are named by their place in the order the sink enqueued them.
 Every atomic operation and every receive is one step; a drain is a receive at a time, so other threads may
 run in between.
 */
module Relay {
  import opened Base

  datatype RelayPc =
    | Arriving
    | Swapping
    | Bumping
    | ResetPreempt
    | Draining
    | ReadFlush
    | CheckPreempt
    | CheckGen
    | CheckFlush
    | TakeFlush
    | FlushDrain(upTo: nat)
    | Receive
    | Sending(chunk: nat)
    | GuardLoad
    | GuardStore
    | Gone

  datatype Connection = Connection(pc: RelayPc, gen: nat, lastSeen: nat, delivered: seq<nat>)

  datatype Channel = Channel(queue: seq<nat>, sent: nat, drained: seq<nat>, flushed: seq<nat>, lost: seq<nat>)

  datatype Flags = Flags(active: bool, gen: nat, preempting: bool, flushValue: nat, changed: bool)

  datatype World = World(channel: Channel, flags: Flags, relays: seq<Connection>)

  const INITIAL: World := World(Channel([], 0, [], [], []), Flags(false, 0, false, 0, false), [])

  datatype Move =
    | Enqueue
    | Seek
    | BrowsePreempts
    | Connect
    | Act(r: nat, odd: bool) // `odd`: the relay looks stuck to a newcomer, or the client of a send is gone

  /** Take the oldest chunk off the queue. */
  function Pop(c: Channel): Channel
    requires c.queue != []
  {
    c.(queue := c.queue[1..])
  }

  /** What one connection does next: its own state, the channel and the flags. */
  function Step(c: Channel, f: Flags, k: Connection, odd: bool): (Channel, Flags, Connection) {
    match k.pc
    case Arriving => // the load and the forced clear are one step: clearing a cleared flag changes nothing
      if f.active && odd then (c, f.(active := false), k.(pc := Swapping))
      else (c, f, k.(pc := Swapping))
    case Swapping => (c, f.(active := true), k.(pc := Bumping))
    case Bumping => (c, f.(gen := f.gen + 1), k.(pc := ResetPreempt, gen := f.gen + 1))
    case ResetPreempt => (c, f.(preempting := false), k.(pc := Draining))
    case Draining =>
      if c.queue == [] then (c, f, k.(pc := ReadFlush))
      else (Pop(c).(drained := c.drained + [c.queue[0]]), f, k)
    case ReadFlush => (c, f, k.(pc := CheckPreempt, lastSeen := f.flushValue))
    case CheckPreempt => (c, f, k.(pc := if f.preempting then GuardLoad else CheckGen))
    case CheckGen => (c, f, k.(pc := if f.gen != k.gen then GuardLoad else CheckFlush))
    case CheckFlush => (c, f, k.(pc := if f.changed then TakeFlush else Receive))
    case TakeFlush =>
      (c, f.(changed := false), k.(pc := if f.flushValue > k.lastSeen then FlushDrain(f.flushValue) else Receive))
    case FlushDrain(upTo) =>
      if c.queue == [] then (c, f, k.(pc := Receive, lastSeen := upTo))
      else (Pop(c).(flushed := c.flushed + [c.queue[0]]), f, k)
    case Receive =>
      if c.queue == [] then (c, f, k.(pc := CheckPreempt))
      else (Pop(c), f, k.(pc := Sending(c.queue[0])))
    case Sending(x) =>
      if odd then (c.(lost := c.lost + [x]), f, k.(pc := GuardLoad))
      else (c, f, k.(pc := CheckPreempt, delivered := k.delivered + [x]))
    case GuardLoad => (c, f, k.(pc := if f.gen == k.gen then GuardStore else Gone))
    case GuardStore => (c, f.(active := false), k.(pc := Gone))
    case Gone => (c, f, k)
  }

  function Next(w: World, m: Move): World {
    match m
    case Enqueue => w.(channel := w.channel.(queue := w.channel.queue + [w.channel.sent], sent := w.channel.sent + 1))
    case Seek => w.(flags := w.flags.(flushValue := w.flags.flushValue + 1, changed := true))
    case BrowsePreempts => w.(flags := w.flags.(preempting := true))
    case Connect => w.(relays := w.relays + [Connection(Arriving, 0, 0, [])])
    case Act(r, odd) =>
      if r >= |w.relays| then w
      else
        var (c, f, k) := Step(w.channel, w.flags, w.relays[r], odd);
        World(c, f, w.relays[r := k])
  }

  function Exec(w: World, ms: seq<Move>): World {
    if ms == [] then w else Next(Exec(w, Front(ms)), Last(ms))
  }

  // ---------------------------------------------------------------------------------------
  // Conservation: every enqueued chunk is in exactly one place
  // ---------------------------------------------------------------------------------------

  function Count(x: nat, s: seq<nat>): nat {
    multiset(s)[x]
  }

  function Held(x: nat, k: Connection): nat {
    if k.pc == Sending(x) then 1 else 0
  }

  /** How often chunk `x` is held by, or was delivered on, some connection. */
  function OnConnections(x: nat, ks: seq<Connection>): nat {
    if ks == [] then 0 else OnConnections(x, Front(ks)) + Held(x, Last(ks)) + Count(x, Last(ks).delivered)
  }

  /** How often it is queued, or was drained by a newcomer, flushed by a seek or lost with its client. */
  function InChannel(x: nat, c: Channel): nat {
    Count(x, c.queue) + Count(x, c.drained) + Count(x, c.flushed) + Count(x, c.lost)
  }

  function Places(x: nat, w: World): nat {
    InChannel(x, w.channel) + OnConnections(x, w.relays)
  }

  lemma {:induction false} UpdateOne(x: nat, ks: seq<Connection>, r: nat, k: Connection)
    requires r < |ks|
    ensures OnConnections(x, ks[r := k])
         == OnConnections(x, ks) - Held(x, ks[r]) - Count(x, ks[r].delivered) + Held(x, k) + Count(x, k.delivered)
  {
    var us := ks[r := k];
    if r == |ks| - 1 {
      assert Front(us) == Front(ks);
    } else {
      assert Front(us) == Front(ks)[r := k];
      UpdateOne(x, Front(ks), r, k);
    }
  }

  lemma CountSnoc(x: nat, s: seq<nat>, y: nat)
    ensures Count(x, s + [y]) == Count(x, s) + (if x == y then 1 else 0)
  {
  }

  lemma CountPop(x: nat, s: seq<nat>)
    requires s != []
    ensures Count(x, s) == Count(x, s[1..]) + (if x == s[0] then 1 else 0)
  {
    assert s == [s[0]] + s[1..];
  }

  lemma StepMovesChunks(x: nat, c: Channel, f: Flags, k: Connection, odd: bool)
    ensures var after := Step(c, f, k, odd);
            InChannel(x, after.0) + Held(x, after.2) + Count(x, after.2.delivered)
            == InChannel(x, c) + Held(x, k) + Count(x, k.delivered)
    ensures Step(c, f, k, odd).0.sent == c.sent
  {
    hide Count;
    if c.queue != [] {
      CountPop(x, c.queue);
      CountSnoc(x, c.drained, c.queue[0]);
      CountSnoc(x, c.flushed, c.queue[0]);
    }
    if k.pc.Sending? {
      CountSnoc(x, c.lost, k.pc.chunk);
      CountSnoc(x, k.delivered, k.pc.chunk);
    }
  }

  lemma NextConserves(x: nat, w: World, m: Move)
    ensures Places(x, Next(w, m)) == Places(x, w) + if m.Enqueue? && x == w.channel.sent then 1 else 0
    ensures Next(w, m).channel.sent == w.channel.sent + if m.Enqueue? then 1 else 0
  {
    hide Step, Count;
    match m {
      case Enqueue => CountSnoc(x, w.channel.queue, w.channel.sent);
      case Connect =>
        SnocParts(w.relays, Connection(Arriving, 0, 0, []));
        CountNothing(x);
      case Act(r, odd) =>
        if r < |w.relays| {
          StepMovesChunks(x, w.channel, w.flags, w.relays[r], odd);
          UpdateOne(x, w.relays, r, Step(w.channel, w.flags, w.relays[r], odd).2);
          hide OnConnections, InChannel, Held;
        }
      case _ =>
    }
  }

  lemma CountNothing(x: nat)
    ensures Count(x, []) == 0
  {
  }

  /** In every reachable state each chunk the sink has enqueued is in exactly one place, and no other chunk exists. */
  lemma {:induction false} ChunksAreConserved(x: nat, schedule: seq<Move>)
    ensures var w := Exec(INITIAL, schedule);
            Places(x, w) == if x < w.channel.sent then 1 else 0
  {
    if schedule != [] {
      hide Places, Next;
      ChunksAreConserved(x, Front(schedule));
      NextConserves(x, Exec(INITIAL, Front(schedule)), Last(schedule));
    } else {
      CountNothing(x);
    }
  }

  // ---------------------------------------------------------------------------------------
  // Order: a connection sees a subsequence of the sink's order
  // ---------------------------------------------------------------------------------------

  predicate Increasing(s: seq<nat>) {
    forall i, j :: 0 <= i < j < |s| ==> s[i] < s[j]
  }

  predicate AllBelow(s: seq<nat>, n: int) {
    forall i :: 0 <= i < |s| ==> s[i] < n
  }

  function Head(c: Channel): int {
    c.sent - |c.queue|
  }

  /** The queue is the tail of the numbers enqueued so far. */
  predicate QueueInOrder(c: Channel) {
    && |c.queue| <= c.sent
    && forall i :: 0 <= i < |c.queue| ==> c.queue[i] == Head(c) + i
  }

  /** Everything a connection delivered or holds is increasing and older than the queue. */
  predicate ConnectionInOrder(k: Connection, head: int) {
    && Increasing(k.delivered) && AllBelow(k.delivered, head)
    && (k.pc.Sending? ==> k.pc.chunk < head && AllBelow(k.delivered, k.pc.chunk))
  }

  predicate InOrder(w: World) {
    && QueueInOrder(w.channel)
    && forall r :: 0 <= r < |w.relays| ==> ConnectionInOrder(w.relays[r], Head(w.channel))
  }

  lemma PopKeepsOrder(c: Channel)
    requires QueueInOrder(c) && c.queue != []
    ensures c.queue[0] == Head(c) && QueueInOrder(Pop(c)) && Head(Pop(c)) == Head(c) + 1
  {
  }

  lemma OrderFacts(s: seq<nat>, n: int, x: nat)
    requires Increasing(s) && AllBelow(s, n)
    ensures AllBelow(s, n + 1)
    ensures AllBelow(s, x) ==> Increasing(s + [x])
    ensures AllBelow(s, x) && x < n ==> AllBelow(s + [x], n)
  {
  }

  lemma StepKeepsOrder(c: Channel, f: Flags, k: Connection, odd: bool)
    requires QueueInOrder(c) && ConnectionInOrder(k, Head(c))
    ensures var after := Step(c, f, k, odd);
            QueueInOrder(after.0) && Head(after.0) >= Head(c) && ConnectionInOrder(after.2, Head(after.0))
  {
    hide QueueInOrder, Increasing, AllBelow;
    if c.queue != [] {
      PopKeepsOrder(c);
    }
    OrderFacts(k.delivered, Head(c), if k.pc.Sending? then k.pc.chunk else 0);
    ChannelOrderIsAboutTheQueue(c);
  }

  lemma ChannelOrderIsAboutTheQueue(c: Channel)
    ensures forall d: Channel :: d.queue == c.queue && d.sent == c.sent ==>
              (QueueInOrder(d) <==> QueueInOrder(c)) && Head(d) == Head(c)
    ensures forall d: Channel :: c.queue != [] && d.queue == c.queue[1..] && d.sent == c.sent ==>
              (QueueInOrder(d) <==> QueueInOrder(Pop(c))) && Head(d) == Head(Pop(c))
  {
  }

  lemma HeadRises(k: Connection, head: int, higher: int)
    requires ConnectionInOrder(k, head) && head <= higher
    ensures ConnectionInOrder(k, higher)
  {
  }

  lemma {:induction false} ReachableInOrder(schedule: seq<Move>)
    ensures InOrder(Exec(INITIAL, schedule))
  {
    if schedule != [] {
      ReachableInOrder(Front(schedule));
      NextKeepsOrder(Exec(INITIAL, Front(schedule)), Last(schedule));
      hide InOrder, Next;
    }
  }

  lemma NextKeepsOrder(w: World, m: Move)
    requires InOrder(w)
    ensures InOrder(Next(w, m))
  {
    match m {
      case Enqueue => assert Head(Next(w, m).channel) == Head(w.channel);
      case Connect =>
      case Act(r, odd) =>
        if r < |w.relays| {
          StepKeepsOrder(w.channel, w.flags, w.relays[r], odd);
          var n := Next(w, m);
          forall q | 0 <= q < |w.relays| && q != r
            ensures ConnectionInOrder(n.relays[q], Head(n.channel))
          {
            HeadRises(w.relays[q], Head(w.channel), Head(n.channel));
          }
          hide Step, ConnectionInOrder, QueueInOrder;
        }
      case _ =>
    }
  }

  /** Each connection receives, in the sink's order and without repetition, some of the chunks enqueued so far. */
  lemma DeliveryFollowsSinkOrder(schedule: seq<Move>, r: nat)
    requires r < |Exec(INITIAL, schedule).relays|
    ensures var w := Exec(INITIAL, schedule);
            Increasing(w.relays[r].delivered) && AllBelow(w.relays[r].delivered, w.channel.sent)
  {
    ReachableInOrder(schedule);
  }

  // ---------------------------------------------------------------------------------------
  // Takeover
  // ---------------------------------------------------------------------------------------

  predicate Claimed(k: Connection) {
    !(k.pc.Arriving? || k.pc.Swapping? || k.pc.Bumping?)
  }

  predicate Superseded(w: World, r: nat) {
    r < |w.relays| && Claimed(w.relays[r]) && w.relays[r].gen != w.flags.gen
  }

  /** How many more chunks a superseded connection can forward from here. */
  function Budget(k: Connection): nat {
    if k.pc.CheckFlush? || k.pc.TakeFlush? || k.pc.FlushDrain? || k.pc.Receive? || k.pc.Sending? then 1
    else 0
  }

  predicate GensIssued(w: World) {
    && (forall r :: 0 <= r < |w.relays| && Claimed(w.relays[r]) ==> 1 <= w.relays[r].gen <= w.flags.gen)
    && (forall r, q :: 0 <= r < q < |w.relays| && Claimed(w.relays[r]) && Claimed(w.relays[q]) ==>
          w.relays[r].gen != w.relays[q].gen)
  }

  lemma GenOfStep(c: Channel, f: Flags, k: Connection, odd: bool)
    ensures var after := Step(c, f, k, odd);
            && after.1.gen >= f.gen
            && (Claimed(k) ==> after.1.gen == f.gen && Claimed(after.2) && after.2.gen == k.gen)
            && (!Claimed(k) && Claimed(after.2) ==> after.2.gen == after.1.gen == f.gen + 1)
  {
  }

  lemma NextKeepsGens(w: World, m: Move)
    requires GensIssued(w)
    ensures GensIssued(Next(w, m))
  {
    if m.Act? && m.r < |w.relays| {
      GenOfStep(w.channel, w.flags, w.relays[m.r], m.odd);
      hide Step, Claimed;
    }
  }

  lemma {:induction false} ReachableGens(schedule: seq<Move>)
    ensures GensIssued(Exec(INITIAL, schedule))
  {
    if schedule != [] {
      ReachableGens(Front(schedule));
      NextKeepsGens(Exec(INITIAL, Front(schedule)), Last(schedule));
      hide GensIssued, Next;
    }
  }

  /** No two connections ever hold the current generation: at most one relay goes on reading the channel. */
  lemma AtMostOneCurrent(schedule: seq<Move>, r: nat, q: nat)
    requires r < |Exec(INITIAL, schedule).relays| && q < |Exec(INITIAL, schedule).relays| && r != q
    requires Claimed(Exec(INITIAL, schedule).relays[r]) && Claimed(Exec(INITIAL, schedule).relays[q])
    ensures Superseded(Exec(INITIAL, schedule), r) || Superseded(Exec(INITIAL, schedule), q)
  {
    ReachableGens(schedule);
  }

  lemma BudgetOfStep(c: Channel, f: Flags, k: Connection, odd: bool)
    requires Claimed(k) && k.gen != f.gen
    ensures var after := Step(c, f, k, odd);
            |after.2.delivered| + Budget(after.2) <= |k.delivered| + Budget(k)
  {
  }

  lemma SupersededStep(w: World, m: Move, r: nat)
    requires GensIssued(w) && Superseded(w, r)
    ensures Superseded(Next(w, m), r)
    ensures |Next(w, m).relays[r].delivered| + Budget(Next(w, m).relays[r])
            <= |w.relays[r].delivered| + Budget(w.relays[r])
  {
    if m.Act? && m.r < |w.relays| {
      GenOfStep(w.channel, w.flags, w.relays[m.r], m.odd);
      if m.r == r {
        BudgetOfStep(w.channel, w.flags, w.relays[r], m.odd);
      }
      hide Step, Claimed, Budget;
    }
  }

  /** A connection whose generation has been passed forwards at most one more chunk, whatever happens afterwards. */
  lemma {:induction false} SupersededForwardsAtMostOne(schedule: seq<Move>, more: seq<Move>, r: nat)
    requires Superseded(Exec(INITIAL, schedule), r)
    ensures var before, after := Exec(INITIAL, schedule), Exec(INITIAL, schedule + more);
            && Superseded(after, r)
            && |after.relays[r].delivered| <= |before.relays[r].delivered| + 1
  {
    BudgetNeverGrows(schedule, more, r);
  }

  lemma {:induction false} BudgetNeverGrows(schedule: seq<Move>, more: seq<Move>, r: nat)
    requires Superseded(Exec(INITIAL, schedule), r)
    ensures var before, after := Exec(INITIAL, schedule), Exec(INITIAL, schedule + more);
            && Superseded(after, r)
            && |after.relays[r].delivered| + Budget(after.relays[r])
               <= |before.relays[r].delivered| + Budget(before.relays[r])
    decreases |more|
  {
    if more == [] {
      assert schedule + more == schedule;
    } else {
      hide Superseded, Next, Budget;
      var ms := schedule + Front(more);
      assert schedule + more == ms + [Last(more)];
      SnocParts(ms, Last(more));
      BudgetNeverGrows(schedule, Front(more), r);
      ReachableGens(ms);
      SupersededStep(Exec(INITIAL, ms), Last(more), r);
    }
  }

  /** How many steps of its own a superseded connection still needs, apart from those that empty the queue. */
  function Rank(pc: RelayPc): nat {
    match pc
    case CheckFlush => 8
    case TakeFlush => 7
    case FlushDrain(_) => 6
    case Receive => 5
    case ResetPreempt => 6
    case Draining => 5
    case ReadFlush => 4
    case Sending(_) => 4
    case CheckPreempt => 3
    case CheckGen => 2
    case GuardLoad => 1
    case GuardStore => 1
    case _ => 0
  }

  function OwnSteps(ms: seq<Move>, r: nat): nat {
    if ms == [] then 0 else OwnSteps(Front(ms), r) + if Last(ms).Act? && Last(ms).r == r then 1 else 0
  }

  lemma RankOfStep(c: Channel, f: Flags, k: Connection, odd: bool)
    ensures var after := Step(c, f, k, odd);
            && |after.0.queue| <= |c.queue|
            && (Claimed(k) && k.gen != f.gen && !k.pc.Gone? ==>
                  Rank(after.2.pc) + |after.0.queue| < Rank(k.pc) + |c.queue|)
            && (k.pc.Gone? ==> after.2.pc.Gone?)
  {
  }

  /** What is left to do of a superseded connection only falls, and each of its own steps takes something off. */
  lemma {:induction false} SupersededRunsDown(schedule: seq<Move>, more: seq<Move>, r: nat)
    requires Superseded(Exec(INITIAL, schedule), r) && forall i :: 0 <= i < |more| ==> !more[i].Enqueue?
    ensures var before, after := Exec(INITIAL, schedule), Exec(INITIAL, schedule + more);
            && Superseded(after, r)
            && (after.relays[r].pc.Gone? ||
                OwnSteps(more, r) + Rank(after.relays[r].pc) + |after.channel.queue|
                <= Rank(before.relays[r].pc) + |before.channel.queue|)
    decreases |more|
  {
    if more == [] {
      assert schedule + more == schedule;
    } else {
      hide Superseded, Next, Rank;
      var ms := schedule + Front(more);
      assert schedule + more == ms + [Last(more)];
      SnocParts(ms, Last(more));
      SupersededRunsDown(schedule, Front(more), r);
      ReachableGens(ms);
      SupersededStep(Exec(INITIAL, ms), Last(more), r);
      SupersededTurn(Exec(INITIAL, ms), Last(more), r);
    }
  }

  lemma SupersededTurn(w: World, m: Move, r: nat)
    requires Superseded(w, r) && !m.Enqueue?
    ensures var n := Next(w, m);
            && r < |n.relays| && (w.relays[r].pc.Gone? ==> n.relays[r].pc.Gone?)
            && (!w.relays[r].pc.Gone? ==>
                  Rank(n.relays[r].pc) + |n.channel.queue| + (if m.Act? && m.r == r then 1 else 0)
                  <= Rank(w.relays[r].pc) + |w.channel.queue|)
  {
    if m.Act? && m.r < |w.relays| {
      RankOfStep(w.channel, w.flags, w.relays[m.r], m.odd);
      hide Step, Claimed, Rank;
    }
  }

  /** Once the sink enqueues nothing more, a superseded connection is gone after a bounded number of its own steps. */
  lemma SupersededExits(schedule: seq<Move>, more: seq<Move>, r: nat)
    requires Superseded(Exec(INITIAL, schedule), r) && forall i :: 0 <= i < |more| ==> !more[i].Enqueue?
    requires OwnSteps(more, r) >= 8 + |Exec(INITIAL, schedule).channel.queue|
    ensures var after := Exec(INITIAL, schedule + more);
            r < |after.relays| && after.relays[r].pc.Gone?
  {
    SupersededRunsDown(schedule, more, r);
    hide Exec;
    var after := Exec(INITIAL, schedule + more).relays[r];
    assert Rank(after.pc) == 0 ==> after.pc.Gone?;
  }

  /** A current relay that nothing disturbs delivers the oldest chunk and comes round to its next turn. */
  lemma CurrentRelayForwards(w: World, r: nat)
    requires r < |w.relays| && w.relays[r].pc == CheckPreempt && w.relays[r].gen == w.flags.gen
    requires !w.flags.preempting && !w.flags.changed && w.channel.queue != []
    ensures var a := Act(r, false);
            var n := Next(Next(Next(Next(Next(w, a), a), a), a), a);
            && n.flags == w.flags && n.channel == Pop(w.channel)
            && n.relays == w.relays[r := w.relays[r].(delivered := w.relays[r].delivered + [w.channel.queue[0]])]
  {
    var k, x := w.relays[r], w.channel.queue[0];
    var a := Act(r, false);
    var w3 := Next(Next(Next(w, a), a), a);
    assert w3 == w.(relays := w.relays[r := k.(pc := Receive)]);
    var w4 := Next(w3, a);
    assert w4 == w.(channel := Pop(w.channel), relays := w.relays[r := k.(pc := Sending(x))]);
  }

  // ---------------------------------------------------------------------------------------
  // The active flag
  // ---------------------------------------------------------------------------------------

  lemma ExecSnoc(w: World, ms: seq<Move>, m: Move)
    ensures Exec(w, []) == w
    ensures Exec(w, ms + [m]) == Next(Exec(w, ms), m)
  {
    SnocParts(ms, m);
  }

  lemma ExecTwo(w: World, ms: seq<Move>, m1: Move, m2: Move)
    ensures Exec(w, ms + [m1] + [m2]) == Next(Next(Exec(w, ms), m1), m2)
  {
    hide Next;
    ExecSnoc(w, ms, m1);
    ExecSnoc(w, ms + [m1], m2);
  }

  /** Connection `r` is the current one and in service, and the flag says so. */
  predicate Serves(w: World, r: nat) {
    r < |w.relays| && Claimed(w.relays[r]) && !w.relays[r].pc.Gone? && w.relays[r].gen == w.flags.gen && w.flags.active
  }

  /** The guard of another connection has passed its compare and not yet cleared the flag. */
  predicate StaleGuard(w: World, r: nat, q: nat) {
    q < |w.relays| && q != r && w.relays[q].pc.GuardStore?
  }

  /** No other connection claims a generation or takes the relay for stuck. */
  predicate Undisputed(w: World, m: Move, r: nat) {
    m.Act? && m.r != r && m.r < |w.relays| ==>
      !w.relays[m.r].pc.Bumping? && !(w.relays[m.r].pc.Arriving? && m.odd)
  }

  predicate UndisputedRun(w: World, ms: seq<Move>, r: nat) {
    ms == [] || (UndisputedRun(w, Front(ms), r) && Undisputed(Exec(w, Front(ms)), Last(ms), r))
  }

  /** From here on, whatever else happens, the flag stays set while `r` is in service. */
  ghost predicate FlagIsSafe(w: World, r: nat)
    requires r < |w.relays|
  {
    forall more | UndisputedRun(w, more, r) ::
      r < |Exec(w, more).relays| && (!Exec(w, more).relays[r].pc.Gone? ==> Exec(w, more).flags.active)
  }

  /** `r` is current, nobody else is about to clear the flag, and the flag is set while `r` is in service. */
  ghost predicate Guarded(w: World, r: nat) {
    && r < |w.relays| && Claimed(w.relays[r]) && w.relays[r].gen == w.flags.gen
    && (!w.relays[r].pc.Gone? ==> w.flags.active)
    && forall q :: !StaleGuard(w, r, q)
  }

  lemma GuardOfStep(c: Channel, f: Flags, k: Connection, odd: bool)
    ensures var after := Step(c, f, k, odd);
            && (after.2.pc.GuardStore? ==> k.pc.GuardLoad? && k.gen == f.gen)
            && (!after.1.active && f.active ==> k.pc.GuardStore? || (k.pc.Arriving? && odd))
            && (k.pc.GuardStore? ==> after.2.pc.Gone? && !after.1.active)
            && (after.1.gen == f.gen || k.pc.Bumping?)
            && (k.pc.Gone? ==> after == (c, f, k))
  {
  }

  lemma NextStaysGuarded(w: World, m: Move, r: nat)
    requires GensIssued(w) && Guarded(w, r) && Undisputed(w, m, r)
    ensures Guarded(Next(w, m), r)
  {
    if m.Act? && m.r < |w.relays| {
      var k := w.relays[m.r];
      GenOfStep(w.channel, w.flags, k, m.odd);
      GuardOfStep(w.channel, w.flags, k, m.odd);
      assert m.r != r ==> !StaleGuard(w, r, m.r);
      hide Step;
      var n := Next(w, m);
      forall q
        ensures !StaleGuard(n, r, q)
      {
        assert !StaleGuard(w, r, q);
      }
    } else {
      forall q
        ensures !StaleGuard(Next(w, m), r, q)
      {
        assert !StaleGuard(w, r, q);
      }
    }
  }

  lemma {:induction false} StaysGuarded(schedule: seq<Move>, more: seq<Move>, r: nat)
    requires Guarded(Exec(INITIAL, schedule), r) && UndisputedRun(Exec(INITIAL, schedule), more, r)
    ensures Guarded(Exec(Exec(INITIAL, schedule), more), r)
  {
    if more != [] {
      hide Guarded, Undisputed, Next, GensIssued;
      StaysGuarded(schedule, Front(more), r);
      ExecConcat(INITIAL, schedule, Front(more));
      ReachableGens(schedule + Front(more));
      NextStaysGuarded(Exec(Exec(INITIAL, schedule), Front(more)), Last(more), r);
    }
  }

  lemma {:induction false} ExecConcat(w: World, ms: seq<Move>, more: seq<Move>)
    ensures Exec(w, ms + more) == Exec(Exec(w, ms), more)
  {
    if more == [] {
      assert ms + more == ms;
    } else {
      ExecConcat(w, ms, Front(more));
      assert ms + more == ms + Front(more) + [Last(more)];
      SnocParts(ms + Front(more), Last(more));
    }
  }

  /**
   The flag of the connection in service is safe from the guards of all others if and only if none of them stands
   between its compare and its store: a guard that compares later finds another generation.
   */
  lemma FlagIsSafeUnlessGuardPassed(schedule: seq<Move>, r: nat)
    requires Serves(Exec(INITIAL, schedule), r)
    ensures FlagIsSafe(Exec(INITIAL, schedule), r) <==> forall q :: !StaleGuard(Exec(INITIAL, schedule), r, q)
  {
    hide Exec, Next, Claimed;
    var w := Exec(INITIAL, schedule);
    if q :| StaleGuard(w, r, q) {
      var m := Act(q, false);
      ExecSnoc(w, [], m);
      assert [] + [m] == [m];
      SnocParts([], m);
      StaleGuardClears(w, r, q);
      assert UndisputedRun(w, [m], r);
    } else {
      forall more | UndisputedRun(w, more, r)
        ensures r < |Exec(w, more).relays| && (!Exec(w, more).relays[r].pc.Gone? ==> Exec(w, more).flags.active)
      {
        StaysGuarded(schedule, more, r);
      }
    }
  }

  lemma StaleGuardClears(w: World, r: nat, q: nat)
    requires Serves(w, r) && StaleGuard(w, r, q)
    ensures var n := Next(w, Act(q, false));
            !n.flags.active && |n.relays| == |w.relays| && n.relays[r] == w.relays[r]
  {
  }

  /**
   The guard of a finished relay compares the generation and clears the flag in two steps. A newcomer that claims the
   connection in between is served with the flag cleared.
   */
  lemma GuardClearsUnderNewcomer(w: World, r: nat, q: nat)
    requires r < |w.relays| && q < |w.relays| && r != q
    requires w.relays[r].pc.GuardLoad? && w.relays[r].gen == w.flags.gen && w.relays[q].pc.Arriving?
    ensures var a, b := Act(r, false), Act(q, false);
            var n := Next(Next(Next(Next(Next(w, a), b), b), b), a);
            && !n.flags.active && !n.relays[q].pc.Gone? && Claimed(n.relays[q]) && n.relays[q].gen == n.flags.gen
  {
    var w1 := Next(w, Act(r, false));
    assert w1 == w.(relays := w.relays[r := w.relays[r].(pc := GuardStore)]);
    var w2 := Next(Next(w1, Act(q, false)), Act(q, false));
    assert w2.relays[r] == w1.relays[r] && w2.relays[q] == w.relays[q].(pc := Bumping) && w2.flags.active;
    var w3 := Next(w2, Act(q, false));
    assert w3.relays[r].pc == GuardStore && w3.relays[q].pc == ResetPreempt;
    assert w3.relays[q].gen == w3.flags.gen;
  }

  /** Such a state is reached: a served connection is preempted while the next one arrives. */
  lemma GuardRaceIsReachable()
    ensures exists schedule ::
              var w := Exec(INITIAL, schedule);
              |w.relays| == 2 && w.relays[0].pc.GuardLoad? && w.relays[0].gen == w.flags.gen && w.relays[1].pc.Arriving?
  {
    var a := Act(0, false);
    var s1 := [] + [Connect] + [a];
    var s2 := s1 + [a] + [a];
    var s3 := s2 + [a] + [a];
    var s4 := s3 + [a] + [BrowsePreempts];
    var s5 := s4 + [a] + [Connect];
    ExecSnoc(INITIAL, [], Connect);
    ExecTwo(INITIAL, [], Connect, a);
    ExecTwo(INITIAL, s1, a, a);
    ExecTwo(INITIAL, s2, a, a);
    ExecTwo(INITIAL, s3, a, BrowsePreempts);
    ExecTwo(INITIAL, s4, a, Connect);
    hide Exec;
    assert Exec(INITIAL, s1).relays == [Connection(Swapping, 0, 0, [])];
    assert Exec(INITIAL, s2).relays == [Connection(ResetPreempt, 1, 0, [])];
    assert Exec(INITIAL, s3).relays == [Connection(ReadFlush, 1, 0, [])];
    assert Exec(INITIAL, s4).relays == [Connection(CheckPreempt, 1, 0, [])];
  }

  /** So a run exists at whose end the newest connection is served although the flag says that none is. */
  lemma ServedWithFlagCleared()
    ensures exists schedule ::
              var w := Exec(INITIAL, schedule);
              |w.relays| == 2 && !w.flags.active && Claimed(w.relays[1]) && w.relays[1].gen == w.flags.gen
  {
    GuardRaceIsReachable();
    var s :| var w := Exec(INITIAL, s);
             |w.relays| == 2 && w.relays[0].pc.GuardLoad? && w.relays[0].gen == w.flags.gen && w.relays[1].pc.Arriving?;
    var a, b := Act(0, false), Act(1, false);
    hide Exec;
    ExecTwo(INITIAL, s, a, b);
    ExecTwo(INITIAL, s + [a] + [b], b, b);
    ExecSnoc(INITIAL, s + [a] + [b] + [b] + [b], a);
    GuardClearsUnderNewcomer(Exec(INITIAL, s), 0, 1);
    TwoRelaysStay(Exec(INITIAL, s), a, b);
  }

  lemma TwoRelaysStay(w: World, a: Move, b: Move)
    requires a.Act? && b.Act?
    ensures |Next(Next(Next(Next(Next(w, a), b), b), b), a).relays| == |w.relays|
  {
    hide Step;
  }
}
