/**
 The sink and the stream handler as two threads over three shared cells: the header buffer behind
 its mutex, the published serial and the completeness flag. Every atomic load, atomic store and
 mutex section is one step, and a schedule interleaves them freely.
 */
module HeaderReplay {
  import opened Base
  import opened OggPages
  import opened SinkFold

  /** Where the sink thread stands inside a start or inside the turn for one page. */
  datatype SinkPc =
    | Ready
    | StartClear          // flag stored, buffer not yet cleared
    | StartSerial         // buffer cleared, serial not yet reset
    | ChangeFlag(p: Page) // new serial published, flag not yet stored
    | ChangeClear(p: Page)
    | Buffering(p: Page)

  /** The sink's serial and collecting flag are its own; the other three cells are shared with the handler. */
  datatype Cells = Cells(serial: nat, collecting: bool, buffer: seq<Page>, flag: bool, published: nat)

  /**
   The sink thread, with history the code does not keep: `taken`, the pages buffered since the last start; `epoch`,
   those since the buffer was last cleared; and `clears`, how often it was cleared.
   */
  datatype SinkSide = SinkSide(pc: SinkPc, stopped: bool, cells: Cells, taken: seq<Page>, epoch: seq<Page>, clears: nat)

  /** Where the handler stands inside one turn of its poll loop. */
  datatype HandlerPc =
    | LoadFlag
    | LoadSerial(done: bool)
    | LockBuffer(done: bool, expected: nat)
    | Decide(done: bool, expected: nat, copy: seq<Page>)
    | Replaying(expected: nat, snapshot: seq<Page>)

  /** The handler, with the clear counts at its load of the flag and at its copy, and `taken` at its copy. */
  datatype Poll = Poll(pc: HandlerPc, timedOut: bool, clearsAtFlag: nat, clearsAtLock: nat, takenAtLock: seq<Page>)

  datatype World = World(sink: SinkSide, poll: Poll)

  const INITIAL: World :=
    World(SinkSide(Ready, false, Cells(0, true, [], false, 0), [], [], 0), Poll(LoadFlag, false, 0, 0, []))

  datatype Move =
    | SinkStarts
    | SinkStops
    | SinkTakes(p: Page)
    | SinkStep
    | HandlerStep(late: bool) // `late`: the poll deadline has passed

  function First(ps: seq<Page>): nat {
    if ps == [] then 0 else ps[0].serial
  }

  predicate SerialOk(expected: nat, copy: seq<Page>) {
    expected == 0 || First(copy) == expected
  }

  /** An idle sink begins a start, a stop or the turn for a page; pages come only between a start and a stop. */
  function SinkBegins(k: SinkSide, m: Move): SinkSide {
    var c := k.cells;
    if k.pc != Ready then k
    else match m
      case SinkStarts => k.(pc := StartClear, stopped := false, cells := c.(serial := 0, flag := false))
      case SinkStops => k.(stopped := true, cells := c.(serial := 0))
      case SinkTakes(p) =>
        if k.stopped then k
        else if c.serial == 0 then k.(pc := Buffering(p), cells := c.(serial := p.serial, published := p.serial))
        else if c.serial != p.serial then
          k.(pc := ChangeFlag(p), cells := c.(serial := p.serial, published := p.serial))
        else k.(pc := Buffering(p))
      case _ => k
  }

  function SinkContinues(k: SinkSide): SinkSide {
    var c := k.cells;
    match k.pc
    case Ready => k
    case StartClear =>
      k.(pc := StartSerial, cells := c.(buffer := []), taken := [], epoch := [], clears := k.clears + 1)
    case StartSerial => k.(pc := Ready, cells := c.(published := 0, collecting := true))
    case ChangeFlag(p) => k.(pc := ChangeClear(p), cells := c.(flag := false))
    case ChangeClear(p) =>
      k.(pc := Buffering(p), cells := c.(collecting := true, buffer := []), epoch := [], clears := k.clears + 1)
    case Buffering(p) => k.(pc := Ready, cells := Buffer(c, p), taken := k.taken + [p], epoch := k.epoch + [p])
  }

  function Buffer(c: Cells, p: Page): Cells {
    if !c.collecting then c
    else if p.granule <= 0 then c.(buffer := c.buffer + [p])
    else c.(collecting := false, flag := true)
  }

  function HandlerMoves(h: Poll, k: SinkSide, late: bool): Poll {
    match h.pc
    case LoadFlag => h.(pc := LoadSerial(k.cells.flag), clearsAtFlag := k.clears)
    case LoadSerial(done) => h.(pc := LockBuffer(done, k.cells.published))
    case LockBuffer(done, expected) =>
      h.(pc := Decide(done, expected, k.cells.buffer), clearsAtLock := k.clears, takenAtLock := k.taken)
    case Decide(done, expected, copy) =>
      var usable := |copy| >= 2 && SerialOk(expected, copy);
      if done && usable then h.(pc := Replaying(expected, copy), timedOut := false)
      else if late then h.(pc := Replaying(expected, if usable then copy else []), timedOut := true)
      else h.(pc := LoadFlag)
    case Replaying(_, _) => h
  }

  function Next(w: World, m: Move): World {
    match m
    case SinkStep => w.(sink := SinkContinues(w.sink))
    case HandlerStep(late) => w.(poll := HandlerMoves(w.poll, w.sink, late))
    case _ => w.(sink := SinkBegins(w.sink, m))
  }

  function Run(schedule: seq<Move>): World {
    if schedule == [] then INITIAL else Next(Run(Front(schedule)), Last(schedule))
  }

  /** Ogg serials are non-zero: 0 is the sink's sentinel. */
  predicate RealMove(m: Move) {
    m.SinkTakes? ==> m.p.serial != 0
  }

  predicate RealSchedule(schedule: seq<Move>) {
    forall i :: 0 <= i < |schedule| ==> RealMove(schedule[i])
  }

  // ---------------------------------------------------------------------------------------
  // The sink thread refines the page fold
  // ---------------------------------------------------------------------------------------

  function CellsOf(s: Sink): Cells {
    Cells(s.serial, s.collecting, s.headers, s.complete, s.published)
  }

  /** What the cells are at each point of the sink's program, given those of the fold over the pages taken so far. */
  predicate Refines(k: SinkSide, f: Cells) {
    match k.pc
    case Ready => k.cells == if k.stopped then f.(serial := 0) else f
    case StartClear => !k.stopped && k.cells == Cells(0, k.cells.collecting, f.buffer, false, k.cells.published)
    case StartSerial =>
      !k.stopped && k.cells == Cells(0, k.cells.collecting, [], false, k.cells.published) && k.taken == []
    case ChangeFlag(p) => Changing(k, f, p) && k.cells.flag == f.flag
    case ChangeClear(p) => Changing(k, f, p) && !k.cells.flag
    case Buffering(p) => !k.stopped && k.cells == AfterBoundary(f, p)
  }

  predicate Changing(k: SinkSide, f: Cells, p: Page) {
    && !k.stopped && f.serial != 0 && f.serial != p.serial
    && k.cells == f.(serial := p.serial, published := p.serial, flag := k.cells.flag)
  }

  function AfterBoundary(c: Cells, p: Page): Cells {
    if c.serial == 0 then c.(serial := p.serial, published := p.serial)
    else if c.serial != p.serial then Cells(p.serial, true, [], false, p.serial)
    else c
  }

  lemma StepOnCells(s: Sink, p: Page)
    ensures CellsOf(Step(s, p)) == Buffer(AfterBoundary(CellsOf(s), p), p)
  {
  }

  /** The epoch is the current bitstream, except that a boundary page which cleared the buffer is still to come. */
  function EpochOf(pc: SinkPc, current: seq<Page>): seq<Page> {
    match pc
    case Buffering(p) => if current != [] && Last(current).serial == p.serial then current else []
    case _ => current
  }

  predicate PageAtHandIsReal(pc: SinkPc) {
    match pc
    case ChangeFlag(p) => p.serial != 0
    case ChangeClear(p) => p.serial != 0
    case Buffering(p) => p.serial != 0
    case _ => true
  }

  predicate SinkInvariant(k: SinkSide) {
    && RealSerials(k.taken) && PageAtHandIsReal(k.pc)
    && Refines(k, CellsOf(Fold(STARTED, k.taken)))
    && k.epoch == EpochOf(k.pc, Current(k.taken))
  }

  /** The facts about the fold that the two lemmas below use, at the pages taken so far. */
  lemma FoldFacts(ps: seq<Page>)
    requires RealSerials(ps)
    ensures Fold(STARTED, []) == STARTED && Current([]) == [] && HeaderRun([]) == [] && !HasAudio([])
    ensures var f := CellsOf(Fold(STARTED, ps));
            && f.buffer == HeaderRun(Current(ps))
            && (f.flag <==> HasAudio(Current(ps)))
            && f.serial == f.published == SerialOf(Current(ps)) && f.collecting == !f.flag
            && (Current(ps) != [] ==> f.serial != 0 && OneSerial(Current(ps), f.serial))
            && (Current(ps) == [] ==> f == Cells(0, true, [], false, 0))
  {
    RealBoundariesAreSeen(ps);
    HeaderBufferIsHeaderRun(ps);
    BitstreamsAreMaximalRuns(ps);
    CurrentEndsAtLast(ps);
    hide Fold, HeaderRun;
    StartOfFold();
  }

  lemma StartOfFold()
    ensures Fold(STARTED, []) == STARTED
  {
  }

  lemma SinkBeginsKeeps(k: SinkSide, m: Move)
    requires SinkInvariant(k) && RealMove(m)
    ensures SinkInvariant(SinkBegins(k, m))
  {
    hide Fold, Current, HeaderRun, HasAudio, Buffer;
    FoldFacts(k.taken);
  }

  lemma SinkContinuesKeeps(k: SinkSide)
    requires SinkInvariant(k)
    ensures SinkInvariant(SinkContinues(k))
  {
    hide Fold, Current, HeaderRun, HasAudio, Buffer, CellsOf;
    if k.pc.Buffering? {
      PageTurnKeeps(k);
    } else {
      FoldFacts(k.taken);
      FoldFacts([]);
    }
  }

  lemma PageTurnKeeps(k: SinkSide)
    requires SinkInvariant(k) && k.pc.Buffering?
    ensures SinkInvariant(SinkContinues(k))
  {
    hide Fold, Current, HeaderRun, HasAudio, Buffer, CellsOf, Step, AfterBoundary;
    FoldSnoc(STARTED, k.taken, k.pc.p);
    StepOnCells(Fold(STARTED, k.taken), k.pc.p);
    NextCurrent(k.taken, k.pc.p);
  }

  /** What the buffer and the flag say about the epoch, at every single step. */
  lemma CellsDescribeEpoch(k: SinkSide)
    requires SinkInvariant(k)
    ensures k.cells.buffer == HeaderRun(k.epoch)
    ensures k.cells.flag ==> HasAudio(k.epoch)
    ensures k.epoch != [] ==> OneSerial(k.epoch, Last(k.epoch).serial) && Last(k.epoch).serial != 0
    ensures k.epoch == Current(k.taken) || k.epoch == []
  {
    FoldFacts(k.taken);
    hide Fold, Current, HeaderRun, HasAudio;
  }

  // ---------------------------------------------------------------------------------------
  // The handler
  // ---------------------------------------------------------------------------------------

  /** `copy` is what the buffer held when it was copied: nothing, or the header run of the bitstream then current. */
  predicate CopyIsHeaderRun(h: Poll, copy: seq<Page>) {
    RealSerials(h.takenAtLock) && (copy == [] || copy == HeaderRun(Current(h.takenAtLock)))
  }

  /** A flag seen set keeps its meaning until the buffer is cleared. */
  predicate HandlerInvariant(h: Poll, k: SinkSide) {
    && h.clearsAtFlag <= k.clears
    && match h.pc {
         case LoadFlag => true
         case LoadSerial(done) => done && k.clears == h.clearsAtFlag ==> HasAudio(k.epoch)
         case LockBuffer(done, _) => done && k.clears == h.clearsAtFlag ==> HasAudio(k.epoch)
         case Decide(done, _, copy) =>
           && CopyIsHeaderRun(h, copy)
           && (done && h.clearsAtLock == h.clearsAtFlag ==> HasAudio(Current(h.takenAtLock)))
         case Replaying(expected, snapshot) =>
           && (snapshot == [] || (CopyIsHeaderRun(h, snapshot) && SerialOk(expected, snapshot)))
           && (!h.timedOut ==> |snapshot| >= 2)
           && (!h.timedOut && h.clearsAtLock == h.clearsAtFlag ==> HasAudio(Current(h.takenAtLock)))
       }
  }

  lemma HandlerMovesKeeps(h: Poll, k: SinkSide, late: bool)
    requires SinkInvariant(k) && HandlerInvariant(h, k)
    ensures HandlerInvariant(HandlerMoves(h, k, late), k)
  {
    hide Refines, EpochOf, HeaderRun, HasAudio, Current, Fold, OneSerial;
    CellsDescribeEpoch(k);
    FoldFacts([]);
  }

  /** A step of the sink either clears the buffer or only lengthens the epoch. */
  lemma EpochOnlyGrows(k: SinkSide, m: Move)
    ensures var n := if m.SinkStep? then SinkContinues(k) else SinkBegins(k, m);
            n.clears > k.clears || (n.clears == k.clears && (HasAudio(k.epoch) ==> HasAudio(n.epoch)))
  {
    if k.pc.Buffering? {
      HeaderRunSnoc(k.epoch, k.pc.p);
    }
    hide HasAudio, Buffer;
  }

  lemma {:induction false} Reachable(schedule: seq<Move>)
    requires RealSchedule(schedule)
    ensures SinkInvariant(Run(schedule).sink) && HandlerInvariant(Run(schedule).poll, Run(schedule).sink)
  {
    if schedule == [] {
      FoldFacts([]);
    } else {
      Reachable(Front(schedule));
      var w, m := Run(Front(schedule)), Last(schedule);
      hide SinkInvariant, HasAudio, HeaderRun, SinkBegins, SinkContinues, HandlerMoves;
      EpochOnlyGrows(w.sink, m);
      match m {
        case SinkStep => SinkContinuesKeeps(w.sink);
        case HandlerStep(late) => HandlerMovesKeeps(w.poll, w.sink, late);
        case _ => SinkBeginsKeeps(w.sink, m);
      }
    }
  }

  /** Whenever the sink is between two calls, its cells are those of the fold over the pages since the last start. */
  lemma IdleSinkIsTheFold(schedule: seq<Move>)
    requires RealSchedule(schedule)
    ensures var k := Run(schedule).sink;
            k.pc == Ready && !k.stopped ==> k.cells == CellsOf(Fold(STARTED, k.taken))
  {
    Reachable(schedule);
  }

  // ---------------------------------------------------------------------------------------
  // The guarantees
  // ---------------------------------------------------------------------------------------

  /** Every page the sink has been through, in order: the input the guarantees below refer to. */
  function Fed(schedule: seq<Move>): seq<Page> {
    if schedule == [] then []
    else Fed(Front(schedule)) + PagesOf(Run(Front(schedule)), Last(schedule))
  }

  predicate BlockAt(ps: seq<Page>, all: seq<Page>, i: int) {
    0 <= i <= |all| - |ps| && all[i..i + |ps|] == ps
  }

  ghost predicate Block(ps: seq<Page>, all: seq<Page>) {
    exists i :: BlockAt(ps, all, i)
  }

  lemma BlockGrows(ps: seq<Page>, all: seq<Page>, i: int, p: Page)
    requires BlockAt(ps, all, i)
    ensures BlockAt(ps, all + [p], i)
    ensures i == |all| - |ps| ==> BlockAt(ps + [p], all + [p], i)
  {
  }

  function PagesOf(w: World, m: Move): seq<Page> {
    if m.SinkStep? && w.sink.pc.Buffering? then [w.sink.pc.p] else []
  }

  predicate TakenAtEnd(w: World, all: seq<Page>) {
    BlockAt(w.sink.taken, all, |all| - |w.sink.taken|)
  }

  lemma StepKeepsBlocks(w: World, m: Move, all: seq<Page>)
    requires TakenAtEnd(w, all) && Block(w.poll.takenAtLock, all)
    ensures TakenAtEnd(Next(w, m), all + PagesOf(w, m)) && Block(Next(w, m).poll.takenAtLock, all + PagesOf(w, m))
  {
    var i :| BlockAt(w.poll.takenAtLock, all, i);
    var n := Next(w, m);
    NothingIsABlock(all);
    if m.SinkStep? && w.sink.pc.Buffering? {
      hide Buffer;
      BlockGrows(w.poll.takenAtLock, all, i, w.sink.pc.p);
      BlockGrows(w.sink.taken, all, |all| - |w.sink.taken|, w.sink.pc.p);
    } else {
      assert n.poll.takenAtLock == w.poll.takenAtLock || n.poll.takenAtLock == w.sink.taken;
      assert n.sink.taken == [] || n.sink.taken == w.sink.taken;
      assert all + [] == all;
      hide Next, BlockAt;
    }
  }

  /** The pages since the last start, now and at the copy, are consecutive pages of the input. */
  lemma {:induction false} TakenPagesAreBlocks(schedule: seq<Move>)
    ensures TakenAtEnd(Run(schedule), Fed(schedule)) && Block(Run(schedule).poll.takenAtLock, Fed(schedule))
  {
    if schedule == [] {
      NothingIsABlock([]);
    } else {
      TakenPagesAreBlocks(Front(schedule));
      StepKeepsBlocks(Run(Front(schedule)), Last(schedule), Fed(Front(schedule)));
      hide Next, TakenAtEnd, Block;
    }
  }

  lemma NothingIsABlock(all: seq<Page>)
    ensures BlockAt([], all, |all|)
  {
  }

  /**
   Whatever the interleaving and whether or not the poll timed out, a replayed snapshot is empty or all the header
   pages, from the first one on and in order, that the sink had been given by then of its current bitstream; and it
   carries the serial the handler had loaded.
   */
  lemma SnapshotIsHeaderRunOfCurrent(schedule: seq<Move>)
    requires RealSchedule(schedule)
    ensures var h := Run(schedule).poll;
            h.pc.Replaying? && h.pc.snapshot != [] ==>
              && h.pc.snapshot == HeaderRun(Current(h.takenAtLock)) && Block(h.takenAtLock, Fed(schedule))
              && OneSerial(Current(h.takenAtLock), h.pc.snapshot[0].serial) && h.pc.snapshot[0].serial != 0
              && (h.pc.expected == 0 || h.pc.snapshot[0].serial == h.pc.expected)
  {
    hide Fed, Block, Run, HeaderRun, Current, Fold;
    Reachable(schedule);
    TakenPagesAreBlocks(schedule);
    var taken := Run(schedule).poll.takenAtLock;
    if RealSerials(taken) {
      FoldFacts(taken);
      FirstOfHeaderRun(Current(taken));
    }
  }

  /** Whatever pages of the bitstream `current` still come, its header run will be `snapshot`. */
  ghost predicate Complete(snapshot: seq<Page>, current: seq<Page>) {
    forall more: seq<Page> | OneSerial(more, SerialOf(current)) :: HeaderRun(current + more) == snapshot
  }

  lemma CompleteMeansAudio(current: seq<Page>)
    ensures Complete(HeaderRun(current), current) <==> HasAudio(current)
  {
    if HasAudio(current) {
      var i :| 0 <= i < |current| && current[i].granule > 0;
      forall more: seq<Page> | OneSerial(more, SerialOf(current))
        ensures HeaderRun(current + more) == HeaderRun(current)
      {
        HeaderRunIsUnique(current + more, HeaderRun(current));
      }
    } else {
      var p := Page(0, SerialOf(current), []);
      HeaderRunSnoc(current, p);
      assert OneSerial([p], SerialOf(current));
      hide HeaderRun, HasAudio;
    }
  }

  /** The step stores the completeness flag. */
  predicate StoresFlag(w: World, m: Move) {
    m.SinkStep? && w.sink.pc.Buffering? && w.sink.cells.collecting && w.sink.pc.p.granule > 0
  }

  /** The step clears the buffer. */
  predicate Clears(w: World, m: Move) {
    m.SinkStep? && (w.sink.pc.StartClear? || w.sink.pc.ChangeClear?)
  }

  /** The flag has been stored since the buffer was last cleared. */
  predicate StoredSinceClear(schedule: seq<Move>) {
    schedule != [] &&
    var w, m := Run(Front(schedule)), Last(schedule);
    StoresFlag(w, m) || (!Clears(w, m) && StoredSinceClear(Front(schedule)))
  }

  /** It had been when the handler last copied the buffer. */
  predicate StoredAtCopy(schedule: seq<Move>) {
    schedule != [] &&
    if Last(schedule).HandlerStep? && Run(Front(schedule)).poll.pc.LockBuffer? then StoredSinceClear(Front(schedule))
    else StoredAtCopy(Front(schedule))
  }

  lemma StoringMeansAudio(w: World, m: Move)
    requires SinkInvariant(w.sink)
    ensures HasAudio(Next(w, m).sink.epoch) <==> StoresFlag(w, m) || (!Clears(w, m) && HasAudio(w.sink.epoch))
  {
    hide HasAudio, HeaderRun, Current, Fold;
    FoldFacts(w.sink.taken);
    FoldFacts([]);
    if m.SinkStep? && w.sink.pc.Buffering? {
      HeaderRunSnoc(w.sink.epoch, w.sink.pc.p);
    }
  }

  lemma {:induction false} StoredSinceClearMeansAudio(schedule: seq<Move>)
    requires RealSchedule(schedule)
    ensures StoredSinceClear(schedule) <==> HasAudio(Run(schedule).sink.epoch)
  {
    if schedule == [] {
      FoldFacts([]);
    } else {
      StoredSinceClearMeansAudio(Front(schedule));
      Reachable(Front(schedule));
      hide SinkInvariant, HandlerInvariant, Next, HasAudio;
      StoringMeansAudio(Run(Front(schedule)), Last(schedule));
    }
  }

  function CopyOf(h: Poll): seq<Page> {
    match h.pc
    case Decide(_, _, copy) => copy
    case Replaying(_, snapshot) => snapshot
    case _ => []
  }

  lemma HandlerKeepsCopy(w: World, m: Move)
    ensures var h, n := w.poll, Next(w, m).poll;
            if m.HandlerStep? && h.pc.LockBuffer? then CopyOf(n) == w.sink.cells.buffer && n.takenAtLock == w.sink.taken
            else CopyOf(n) == [] || (CopyOf(n) == CopyOf(h) && n.takenAtLock == h.takenAtLock)
  {
  }

  lemma {:induction false} StoredAtCopyMeansAudio(schedule: seq<Move>)
    requires RealSchedule(schedule)
    ensures var h := Run(schedule).poll;
            CopyOf(h) != [] ==> (StoredAtCopy(schedule) <==> HasAudio(Current(h.takenAtLock)))
  {
    if schedule != [] {
      var w, m := Run(Front(schedule)), Last(schedule);
      StoredAtCopyMeansAudio(Front(schedule));
      StoredSinceClearMeansAudio(Front(schedule));
      Reachable(Front(schedule));
      HandlerKeepsCopy(w, m);
      CellsDescribeEpoch(w.sink);
      FoldFacts([]);
      hide SinkInvariant, HandlerInvariant, Next, HasAudio, HeaderRun, Current, Fold, StoredSinceClear, CopyOf;
    }
  }

  /**
   A snapshot taken without a timeout is complete if and only if, when the buffer was copied, the flag had been stored
   since the buffer was last cleared.
   */
  lemma OnTimeSnapshotIsComplete(schedule: seq<Move>)
    requires RealSchedule(schedule)
    ensures var h := Run(schedule).poll;
            h.pc.Replaying? && !h.timedOut ==>
              && (Complete(h.pc.snapshot, Current(h.takenAtLock)) <==> StoredAtCopy(schedule))
              && (h.clearsAtFlag == h.clearsAtLock ==> StoredAtCopy(schedule))
  {
    hide Run, HeaderRun, HasAudio, Current, Fold, StoredAtCopy, Complete;
    Reachable(schedule);
    StoredAtCopyMeansAudio(schedule);
    CompleteMeansAudio(Current(Run(schedule).poll.takenAtLock));
  }

  /**
   The other direction: a turn of the poll that no step of the sink interrupts replays the whole buffer as soon as the
   flag is set and two pages are there; past the deadline two pages are enough; otherwise the handler polls again.
   */
  lemma UndisturbedTurn(schedule: seq<Move>, late: bool)
    requires RealSchedule(schedule) && Run(schedule).poll.pc == LoadFlag && Run(schedule).sink.pc == Ready
    ensures var w := Run(schedule);
            var m := HandlerStep(late);
            var n := Next(Next(Next(Next(w, m), m), m), m);
            var c := w.sink.cells;
            && n.sink == w.sink && c.buffer == HeaderRun(Current(w.sink.taken))
            && n.poll.pc == (if (c.flag || late) && |c.buffer| >= 2 then Replaying(c.published, c.buffer)
                             else if late then Replaying(c.published, [])
                             else LoadFlag)
  {
    hide Run, Next, HeaderRun, HasAudio, Fold, Current, HandlerInvariant, SerialOk;
    Reachable(schedule);
    var k := Run(schedule).sink;
    FoldFacts(k.taken);
    FirstOfHeaderRun(Current(k.taken));
    SerialMatches(k.cells);
    FourSteps(Run(schedule), late);
  }

  lemma SerialMatches(c: Cells)
    requires c.buffer != [] ==> First(c.buffer) == c.published
    ensures |c.buffer| >= 2 ==> SerialOk(c.published, c.buffer)
  {
  }

  lemma FourSteps(w: World, late: bool)
    requires w.poll.pc == LoadFlag
    requires var c := w.sink.cells; |c.buffer| >= 2 ==> SerialOk(c.published, c.buffer)
    ensures var m := HandlerStep(late);
            var n := Next(Next(Next(Next(w, m), m), m), m);
            var c := w.sink.cells;
            && n.sink == w.sink
            && n.poll.pc == (if (c.flag || late) && |c.buffer| >= 2 then Replaying(c.published, c.buffer)
                             else if late then Replaying(c.published, [])
                             else LoadFlag)
  {
    hide SerialOk, SinkBegins, SinkContinues;
  }

  lemma FirstOfHeaderRun(ps: seq<Page>)
    requires ps == [] || OneSerial(ps, SerialOf(ps))
    ensures HeaderRun(ps) != [] ==> First(HeaderRun(ps)) == SerialOf(ps)
  {
  }

  lemma RunSnoc(schedule: seq<Move>, m: Move)
    ensures Run(schedule + [m]) == Next(Run(schedule), m)
  {
    SnocParts(schedule, m);
  }

  lemma RunFour(schedule: seq<Move>, m1: Move, m2: Move, m3: Move, m4: Move)
    requires RealSchedule(schedule) && RealMove(m1) && RealMove(m2) && RealMove(m3) && RealMove(m4)
    ensures Run(schedule + [m1] + [m2] + [m3] + [m4]) == Next(Next(Next(Next(Run(schedule), m1), m2), m3), m4)
    ensures RealSchedule(schedule + [m1] + [m2] + [m3] + [m4])
  {
    hide Run, Next;
    RunSnoc(schedule, m1);
    RunSnoc(schedule + [m1], m2);
    RunSnoc(schedule + [m1] + [m2], m3);
    RunSnoc(schedule + [m1] + [m2] + [m3], m4);
  }

  /** A header page and an audio page of one bitstream, and three header pages of the next. */
  predicate TwoBitstreams(a0: Page, a1: Page, h: Page, g: Page, i: Page) {
    && a0.serial == a1.serial != 0 && a0.granule <= 0 < a1.granule
    && h.serial == g.serial == i.serial != 0 && h.serial != a0.serial
    && h.granule <= 0 && g.granule <= 0 && i.granule <= 0
  }

  /** The old bitstream has been through and its flag is set; nothing has been polled yet. */
  function AfterOld(a0: Page, a1: Page): World {
    World(SinkSide(Ready, false, Cells(a0.serial, false, [a0], true, a0.serial), [a0, a1], [a0, a1], 0),
          Poll(LoadFlag, false, 0, 0, []))
  }

  /** The handler holds the stale flag and the new serial; the sink is about to clear the buffer. */
  function Stale(a0: Page, a1: Page, h: Page): World {
    World(SinkSide(ChangeClear(h), false, Cells(h.serial, false, [a0], false, h.serial), [a0, a1], [a0, a1], 0),
          Poll(LockBuffer(true, h.serial), false, 0, 0, []))
  }

  function TwoBuffered(a0: Page, a1: Page, h: Page, g: Page): World {
    World(SinkSide(Ready, false, Cells(h.serial, true, [h, g], false, h.serial), [a0, a1, h, g], [h, g], 1),
          Poll(LockBuffer(true, h.serial), false, 0, 0, []))
  }

  lemma Act1(a0: Page, a1: Page, h: Page, g: Page, i: Page)
    requires TwoBitstreams(a0, a1, h, g, i)
    ensures Next(Next(Next(Next(INITIAL, SinkTakes(a0)), SinkStep), SinkTakes(a1)), SinkStep) == AfterOld(a0, a1)
  {
    assert [] + [a0] == [a0] && [a0] + [a1] == [a0, a1];
  }

  lemma Act2(a0: Page, a1: Page, h: Page, g: Page, i: Page)
    requires TwoBitstreams(a0, a1, h, g, i)
    ensures Next(Next(Next(Next(AfterOld(a0, a1), HandlerStep(false)), SinkTakes(h)), HandlerStep(false)), SinkStep)
         == Stale(a0, a1, h)
  {
  }

  lemma Act3(a0: Page, a1: Page, h: Page, g: Page, i: Page)
    requires TwoBitstreams(a0, a1, h, g, i)
    ensures Next(Next(Next(Next(Stale(a0, a1, h), SinkStep), SinkStep), SinkTakes(g)), SinkStep)
         == TwoBuffered(a0, a1, h, g)
  {
    assert [] + [h] + [g] == [h, g] && [a0, a1] + [h] + [g] == [a0, a1, h, g];
  }

  lemma Act4(a0: Page, a1: Page, h: Page, g: Page, i: Page)
    requires TwoBitstreams(a0, a1, h, g, i)
    ensures var step := HandlerStep(false);
            var w := Next(Next(Next(Next(TwoBuffered(a0, a1, h, g), step), step), SinkTakes(i)), SinkStep);
            PartialSnapshot(w, h, g, i)
  {
    assert [h, g] + [i] == [h, g, i];
  }

  /** The handler is about to replay, without a timeout, two pages of the three that the sink has buffered. */
  predicate PartialSnapshot(w: World, h: Page, g: Page, i: Page) {
    && w.poll.pc == Replaying(h.serial, [h, g]) && !w.poll.timedOut
    && w.sink.pc == Ready && !w.sink.stopped && w.sink.cells.buffer == [h, g, i]
  }

  /**
   The exception is real, whatever the pages. The handler loads a flag that is still set for the old bitstream, the
   sink then opens the next one, the handler loads the new serial, and two of three header pages pass the check.
   */
  lemma StaleFlagAcceptsPartialHeaders(a0: Page, a1: Page, h: Page, g: Page, i: Page)
    requires TwoBitstreams(a0, a1, h, g, i)
    ensures exists schedule :: RealSchedule(schedule) && PartialSnapshot(Run(schedule), h, g, i)
  {
    var step := HandlerStep(false);
    var s1 := [] + [SinkTakes(a0)] + [SinkStep] + [SinkTakes(a1)] + [SinkStep];
    var s2 := s1 + [step] + [SinkTakes(h)] + [step] + [SinkStep];
    var s3 := s2 + [SinkStep] + [SinkStep] + [SinkTakes(g)] + [SinkStep];
    var s4 := s3 + [step] + [step] + [SinkTakes(i)] + [SinkStep];
    hide Run, Next, RealSchedule, PartialSnapshot;
    RunNothing();
    RunFour([], SinkTakes(a0), SinkStep, SinkTakes(a1), SinkStep);
    RunFour(s1, step, SinkTakes(h), step, SinkStep);
    RunFour(s2, SinkStep, SinkStep, SinkTakes(g), SinkStep);
    RunFour(s3, step, step, SinkTakes(i), SinkStep);
    Act1(a0, a1, h, g, i);
    Act2(a0, a1, h, g, i);
    Act3(a0, a1, h, g, i);
    Act4(a0, a1, h, g, i);
    assert PartialSnapshot(Run(s4), h, g, i);
  }

  /**
   A copy is used if and only if it has two pages, its serial is the loaded one or none was loaded, and the flag was
   loaded set or the deadline has passed; past the deadline the handler goes on in any case.
   */
  lemma CopyIsUsedExactly(w: World, late: bool)
    requires w.poll.pc.Decide?
    ensures var h, n := w.poll.pc, Next(w, HandlerStep(late));
            var usable := |h.copy| >= 2 && (h.expected == 0 || h.copy[0].serial == h.expected);
            && n.sink == w.sink
            && n.poll.pc == (if usable && (h.done || late) then Replaying(h.expected, h.copy)
                             else if late then Replaying(h.expected, [])
                             else LoadFlag)
  {
  }

  /** The bytes of a page without a body. */
  function PlainBytes(granule: Byte, serial: Byte, sequence: Byte): seq<Byte> {
    Layout([0, 0], [granule, 0, 0, 0, 0, 0, 0, 0], [serial, 0, 0, 0], [sequence, 0, 0, 0, 0, 0, 0, 0], [], [])
  }

  function Plain(granule: Byte, serial: Byte, sequence: Byte): Page {
    Page(granule, serial, PlainBytes(granule, serial, sequence))
  }

  lemma PlainIsParsed(granule: Byte, serial: Byte, sequence: Byte)
    ensures ParsePage(PlainBytes(granule, serial, sequence)) == Some(Plain(granule, serial, sequence))
  {
    var g: seq<Byte>, s: seq<Byte> := [granule, 0, 0, 0, 0, 0, 0, 0], [serial, 0, 0, 0];
    assert g[..4] == [granule, 0, 0, 0] && g[4..] == [0, 0, 0, 0];
    assert I64(g) == granule && U32(s) == serial;
    StandardPageIsRead([0, 0], g, s, [sequence, 0, 0, 0, 0, 0, 0, 0], [], [], []);
    hide I64, U32, ParsePage, Layout;
    assert PlainBytes(granule, serial, sequence) + [] == PlainBytes(granule, serial, sequence);
  }

  /** Five whole pages of 27 bytes, as the sink reads them, on which it happens. */
  lemma PartialHeadersOfRealPages()
    ensures var a0, a1, h, g, i := Plain(0, 1, 0), Plain(9, 1, 1), Plain(0, 2, 0), Plain(0, 2, 1), Plain(0, 2, 2);
            && (forall p | p in {a0, a1, h, g, i} :: ParsePage(p.bytes) == Some(p))
            && exists schedule :: RealSchedule(schedule) && PartialSnapshot(Run(schedule), h, g, i)
  {
    hide Run, RealSchedule, PartialSnapshot, ParsePage, PlainBytes;
    PlainIsParsed(0, 1, 0);
    PlainIsParsed(9, 1, 1);
    PlainIsParsed(0, 2, 0);
    PlainIsParsed(0, 2, 1);
    PlainIsParsed(0, 2, 2);
    StaleFlagAcceptsPartialHeaders(Plain(0, 1, 0), Plain(9, 1, 1), Plain(0, 2, 0), Plain(0, 2, 1), Plain(0, 2, 2));
  }

  /** The serial of a page as the handler reads it from the page's bytes is the one the sink tracked. */
  lemma SerialIsInThePage(b: seq<Byte>)
    requires ParsePage(b).Some?
    ensures var p := ParsePage(b).value;
            |p.bytes| >= 18 && U32(p.bytes[14..18]) == p.serial
  {
    hide U32, I64;
    var p := ParsePage(b).value;
    assert p.bytes[14..18] == b[14..18];
  }

  lemma RunNothing()
    ensures Run([]) == INITIAL && RealSchedule([])
  {
  }
}
