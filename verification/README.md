# SpotOn: a verified model of its streaming, session and patching logic

SpotOn lets a Lyrion Music Server player act as a Spotify Connect target. Five parts of it are modelled here, each in
the form the program gives it: objects whose methods update fields are classes, loops are loops, and each is proved
against a small functional definition, about which the guarantees are then stated for all inputs, runs or schedules.

- **The unified daemon** (`librespot-spoton/src/unified.rs`). `OggPages` splits chunks into Ogg pages (section 6 of
  RFC 3533). `SinkFold` is the sink as a fold of one step per page; `UnifiedSink` is the sink itself, with its page loop
  and its pacer (`Pacing`). `HeaderReplay` interleaves the sink's separate atomic stores and mutex sections with the
  stream handler's separate loads. `Relay` is the takeover protocol of any number of connections that share one
  channel, `SeekFlush` what a seek does to it, `RelayService` how a
  connection comes into service and leaves it. `Reconnect` is the limit on reconnects.
- **The Connect state machines** (`Plugins/SpotOn/Connect.pm`). `Hold` and `HoldKeeping` are the hold on a natural title
  end; `PowerOff` is the delayed power-off after a session.
- **The event dispatcher** (`librespot-spoton/src/connect.rs`). `PlayerEvents` turns player events into notifications and
  keeps the position anchor.
- **The patch helper** (`spoton-helper/src/patch/mod.rs`). `Rewrite` counts and replaces byte patterns, `VersionScan` finds
  the embedded version, `PatchRun` is the staged transaction on a map of files where every operation may fail.
- **A protobuf decoder** (`tools/spclient-smoke.pl`). `ContainsDecoder` is the hand-written varint parser,
  `ContainsGrammar` the messages it accepts.

Interleavings are sequences of moves, one move for one atomic load, store, receive or mutex section. State that only
serves a statement (the pages since the last start, how often a buffer was cleared, which hold a record belongs to) is
called history where it is declared.

## What turned out not to hold

Each of these is shown by a lemma with a concrete input or run, and the lemma named with it says exactly when the
property does hold.

- A header snapshot accepted without a timeout need not be complete: a completeness flag loaded before a new bitstream
  starts is combined with a buffer copied after it (`HeaderReplay.StaleFlagAcceptsPartialHeaders`, for whole pages
  `HeaderReplay.PartialHeadersOfRealPages`). It is complete if and
  only if, when the buffer was copied, the flag had been stored since the buffer was last cleared
  (`HeaderReplay.OnTimeSnapshotIsComplete`).
- The comments at unified.rs:576-579 and 839-841 say a stale guard cannot clear the flag of a newer relay. The guard
  compares and clears in two steps, so it can (`Relay.GuardClearsUnderNewcomer`, `Relay.ServedWithFlagCleared`). The flag is
  safe if and only if no other guard stands between the two (`Relay.FlagIsSafeUnlessGuardPassed`).
- The comment at connect.rs:104 says the pause flag is set on Paused and Stopped. The code sets it on Paused only, and
  the track change that starts a session does not clear it, so a session can open with a resume
  (`PlayerEvents.PauseSurvivesStop`); `PlayerEvents.SessionStartResumesStalePause` says exactly when.
- The comment at connect.rs:214 says an event causes at most one notification. A Playing can cause two
  (`PlayerEvents.ChangeAndSync`); `PlayerEvents.AtMostOneNotification` says exactly when.
- Serial 0 is the sink's sentinel, so the boundary after a bitstream that uses it goes unnoticed
  (`SinkFold.ZeroSerialHidesBoundary`). The header buffer is right throughout a run if and only if there is no such
  boundary, or both bitstreams at it begin with audio (`SinkFold.HeaderBufferIsRightExactly`).
- The park time is cut to 64 bits of nanoseconds, so a packet waits for its deadline exactly when the wait fits
  (`Pacing.ReleaseMeetsDeadline`, and `Pacing.LongLatencyIsCutShort` for one that does not); the Ogg deadline is right exactly when a 128-bit product does not wrap
  (`Pacing.DeadlineIsRightUnlessItWraps`).
- The reconnect window is half open. With both ends counted ten fit (`Reconnect.TenInAClosedWindow`), and more than five
  only with a reconnect at either end (`Reconnect.AtMostTenPerClosedWindow`).
- A deferred playlist entry is found by its place, so a cancel can miss it. It is removed if and only if it still stands
  after the recorded index (`Hold.CancelRemovesOnlyInPlace`): not after an insertion or deletion before it
  (`Hold.InsertionStrandsDeferred`, `Hold.DeletionStrandsDeferred`). The old title's entry likewise
  (`Hold.NewSongPrunesOnlyInPlace`).
- The reverse replacement can fail to undo a replacement (`Rewrite.ReverseMayFail`). It succeeds if and only if the new
  pattern begins only inside what was inserted (`Rewrite.ReverseReplacementUndoes`).
- Counts that hold of the input do not make sequential replacements safe (`PatchRun.CountsAloneAreNotEnough`), which is why
  the run validates the output and writes it if and only if that holds too (`PatchRun.RunCore`). When two sites share a
  gate the last decides (`PatchRun.FlagMeans`), and an earlier one that is still unpatched goes unnoticed
  (`PatchRun.LaterSiteMasksEarlier`, `PatchRun.MaskedGate`).
- The decoder lets the last varint of a packed field run over the field's declared end
  (`ContainsGrammar.OverrunIsAccepted`). That is its only liberty (`ContainsGrammar.AcceptsExactlyTheGrammar`), and a
  message is well formed exactly when it takes none (`ContainsGrammar.WellFormedExactlyWithoutOverrun`).
- A seek can be missed. A relay that has drained the queue takes the number of a seek that falls before its first look
  at the flush channel for seen, and delivers what was queued in between (`SeekFlush.SeekCanBeMissed`); a superseded relay
  that is past its generation check can take the mark. `SeekFlush.SeekIsHeededUnlessMissable` is the exact condition.
- A preemption by Browse can be missed. Of two newcomers the first to claim a generation may be the last to reset the
  preemption, and then clears one meant for the other (`RelayService.PreemptionCanBeMissed`). It is heeded if and only if
  no connection is about to do so (`RelayService.PreemptionIsHeededUnlessReset`).

## Assumptions

Ogg serials are non-zero where a statement says `RealSerials` or `RealSchedule`. A stopped sink is written to only after a
start. The clock is monotone and a sleep lasts at least its duration (`overshoot` is how much longer). The hold constants
are positive; Plugins/SpotOn/Soloist/Control.pm:208-210 sets them to 60, 5 and 180 seconds, so a tick is 5 seconds and a
hold sees fewer than 36 checks of running playback. `playlist insert` puts an entry right after the playing one. A 64-bit
Perl is assumed, where a left shift keeps the low 64 bits. The groups of a varint do not overlap, so adding them is or-ing
them. File names are valid Unicode.

## Model

| member | source | states |
|---|---|---|
| OggPages.PagesTileChunk | librespot-spoton/src/unified.rs:396-474 | the pages the loop sees and what it leaves are together the chunk: no byte is skipped, repeated or reordered |
| OggPages.ParsePagePrefix | librespot-spoton/src/unified.rs:397-422 | a page that fits is read the same whatever follows it |
| OggPages.PagesOfConcat | librespot-spoton/src/unified.rs:396-474 | after whole pages, the pages of a concatenation are the concatenated pages |
| OggPages.StandardPageIsRead | librespot-spoton/src/unified.rs:398-422 | any page laid out as in section 6 of RFC 3533, followed by anything, is read back whole with its granule and serial |
| OggPages.U32IsLittleEndian | librespot-spoton/src/unified.rs:406-410 | a 32-bit number is read back from its bytes, the least significant first |
| OggPages.I64IsLittleEndian | librespot-spoton/src/unified.rs:401-405 | so is a signed 64-bit number, of either sign, from its two's complement |
| OggPages.LacingsSum | librespot-spoton/src/unified.rs:415-419 | the body size read from the segment table is the total size of the packets that were laced into it |
| OggPages.PageOfPacketsIsRead | librespot-spoton/src/unified.rs:398-422 | a page of any packets with any 64-bit granule and 32-bit serial is read back with those numbers, whatever follows |
| OggPages.ParsedPageIsStandard | librespot-spoton/src/unified.rs:398-422 | nothing else is read as a page: what was read is laid out as in section 6 of RFC 3533 |
| OggPages.CapturePatternIsOggS | librespot-spoton/src/unified.rs:398 | the capture pattern is the standard's |
| SinkFold.FoldConcat | librespot-spoton/src/unified.rs:397-474 | processing pages in two goes is processing them in one |
| SinkFold.BitstreamsAreMaximalRuns | librespot-spoton/src/unified.rs:427-445 | the grouping used below keeps every page in order, in non-empty maximal runs of one serial |
| SinkFold.HeaderRunIsUnique | librespot-spoton/src/unified.rs:451-460 | a prefix of granules <= 0 that is followed by a positive granule or the end is the header run: the definition is the maximal one |
| SinkFold.StepStaysBuffered | librespot-spoton/src/unified.rs:427-460 | one page keeps buffer, flags and published serial those of the current bitstream, if and only if it does not end a bitstream of serial 0 or both begin with audio |
| SinkFold.HeaderBufferIsHeaderRun | librespot-spoton/src/unified.rs:305-314 | after any pages since a start whose boundaries are noticed or harmless, the buffer is exactly the maximal header run of the current bitstream, and the flag is set exactly when that bitstream has shown a positive granule |
| SinkFold.HeaderBufferIsRightExactly | librespot-spoton/src/unified.rs:427-460 | it is so throughout a run if and only if every boundary is noticed or harmless; non-zero serials are enough |
| SinkFold.ZeroSerialHidesBoundary | librespot-spoton/src/unified.rs:427-430 | serial 0 is mistaken for no serial: headers of two bitstreams end up in one buffer |
| SinkFold.StepStaysOnTimeline | librespot-spoton/src/unified.rs:427-471 | one page keeps base, offset and timeline those of the bitstreams seen |
| SinkFold.TimelineClosedForm | librespot-spoton/src/unified.rs:424-471 | the timeline is last minus first granule of the first bitstream plus the last granules of all later ones, for every page sequence, saturating at 128 bits |
| SinkFold.TimelineFalls | librespot-spoton/src/unified.rs:463-471 | a page moves the timeline backwards if and only if it continues its bitstream with a positive granule below the last one, apart from saturation and from what lies before the first granule |
| SinkFold.TimelineNeverDecreases | librespot-spoton/src/unified.rs:424-488 | without such a page the timeline never moves backwards between starts |
| SinkFold.RisingBitstreamsAreSteady | librespot-spoton/src/unified.rs:424-488 | there is none if positive granules do not fall within each bitstream, whatever serials come back |
| UnifiedSink.UnifiedHttpStreamSink.constructor | librespot-spoton/src/unified.rs:257-293 | the initial fields; headers are collected only for passthrough |
| UnifiedSink.UnifiedHttpStreamSink.Start | librespot-spoton/src/unified.rs:297-316 | a start resets the pacer and, for passthrough, the whole fold state including the shared cells |
| UnifiedSink.UnifiedHttpStreamSink.Stop | librespot-spoton/src/unified.rs:318-328 | a stop resets serial, offset and timeline and leaves the shared header cells alone |
| UnifiedSink.UnifiedHttpStreamSink.WriteSamples | librespot-spoton/src/unified.rs:346-386 | a PCM packet counts its frames, waits for the deadline of the total, is enqueued once and touches no Ogg state |
| UnifiedSink.UnifiedHttpStreamSink.WriteRaw | librespot-spoton/src/unified.rs:388-503 | after an Ogg chunk the fields are the fold over its pages, the pacer was consulted exactly when one had a positive granule, and the whole chunk is enqueued |
| UnifiedSink.UnifiedHttpStreamSink.WalkPages | librespot-spoton/src/unified.rs:395-474 | the page loop equals the fold although the timeline stays in a local until the loop is over |
| UnifiedSink.UnifiedHttpStreamSink.ReadPage | librespot-spoton/src/unified.rs:397-422 | the bounds checks at a position agree with the parser on the rest of the chunk |
| UnifiedSink.UnifiedHttpStreamSink.TakePage | librespot-spoton/src/unified.rs:424-471 | one turn of the loop is one step of the fold |
| UnifiedSink.UnifiedHttpStreamSink.Park | librespot-spoton/src/unified.rs:483-488 | when a packet leaves, given its deadline and the clock |
| UnifiedSink.OggDeliveryStaysBehindClock | librespot-spoton/src/unified.rs:476-489 | over any run of Ogg writes a chunk with audio is sent no earlier than all frames of all bitstreams so far are due, as long as the 128-bit product does not wrap and the wait fits 64 bits |
| UnifiedSink.SplitInvariance | librespot-spoton/src/unified.rs:388-489 | writing A then B and writing A++B give the same state whenever A parses into whole pages |
| UnifiedSink.WriteTwiceOrOnce | librespot-spoton/src/unified.rs:388-489 | the same of two sink objects |
| Pacing.DeadlineIsRightUnlessItWraps | librespot-spoton/src/unified.rs:479-482 | the deadline of a 128-bit timeline is the true one if and only if the product of frames and nanoseconds per second fits 128 bits |
| Pacing.WrappingDeadlineFits | librespot-spoton/src/unified.rs:479-482 | the Ogg deadline is a 128-bit number whatever wraps |
| Pacing.DeadlineIsFrameTime | librespot-spoton/src/unified.rs:363-365 | the deadline less the latency is the time of the frames at 44100 a second, rounded down to a nanosecond |
| Pacing.OvershootDelays | librespot-spoton/src/unified.rs:368-371 | only a packet that comes early sleeps, and is late by what its sleep overshoots |
| Pacing.Limits | librespot-spoton/src/unified.rs:362 | the frame counters stop at the largest 64-bit and 128-bit numbers |
| Pacing.ReleaseMeetsDeadline | librespot-spoton/src/unified.rs:368-371 | with exact sleeps a packet leaves at its deadline or at once if late, if and only if the wait fits 64 bits of nanoseconds |
| Pacing.LongLatencyIsCutShort | librespot-spoton/src/unified.rs:368-370 | a latency whose nanoseconds do not fit 64 bits lets the first packet leave before its deadline |
| Pacing.FramesOfRun | librespot-spoton/src/unified.rs:361-362 | the frame counter is the sum of the packets' frames, saturating at 64 bits |
| Pacing.DeliveryStaysBehindClock | librespot-spoton/src/connect.rs:579-592 | at every send of any run the elapsed time is at least the floor of the cumulative frame time plus the latency, so what was delivered leads the clock by less than a nanosecond |
| Pacing.LateWriteDoesNotShiftLaterDeadlines | librespot-spoton/src/unified.rs:360-371 | runs with the same frames and different stalls send their next punctual packet at the same instant |
| HeaderReplay.Reachable | librespot-spoton/src/unified.rs:427-460 | at every point of every interleaving the cells are those the fold prescribes for the sink's program counter, and what the handler holds keeps its meaning |
| HeaderReplay.IdleSinkIsTheFold | librespot-spoton/src/unified.rs:305-314 | between two calls the shared cells are those of the fold over the pages since the last start |
| HeaderReplay.CellsDescribeEpoch | librespot-spoton/src/unified.rs:436-460 | at every single step the buffer is the header run of the pages since it was cleared, and a set flag means they include audio |
| HeaderReplay.TakenPagesAreBlocks | librespot-spoton/src/unified.rs:447-456 | the pages since the last start, now and at the copy, are consecutive pages of the sink's input |
| HeaderReplay.SnapshotIsHeaderRunOfCurrent | librespot-spoton/src/unified.rs:739-783 | under every interleaving, timeout or not, a replayed snapshot is empty or all header pages, from the first one on and in order, that the current bitstream had shown when the buffer was copied, and has the serial the handler loaded |
| HeaderReplay.CompleteMeansAudio | librespot-spoton/src/unified.rs:451-460 | a header run is final, whatever pages of the bitstream still come, if and only if audio has been seen |
| HeaderReplay.OnTimeSnapshotIsComplete | librespot-spoton/src/unified.rs:762-767 | without a timeout the snapshot is the complete header run if and only if the flag had been stored between the last clear and the copy; so it is when nothing was cleared between flag load and copy |
| HeaderReplay.UndisturbedTurn | librespot-spoton/src/unified.rs:744-781 | an uninterrupted turn replays the whole buffer exactly when the flag is set or the deadline has passed and two pages are there, gives up past the deadline, and polls again otherwise |
| HeaderReplay.CopyIsUsedExactly | librespot-spoton/src/unified.rs:762-779 | a copy is used if and only if it has two pages, its serial is the loaded one or none was loaded, and the flag was loaded set or the deadline has passed |
| HeaderReplay.StaleFlagAcceptsPartialHeaders | librespot-spoton/src/unified.rs:744-767 | for any header and audio page of one bitstream and any three header pages of the next, a schedule in which a stale flag lets two of the three through |
| HeaderReplay.PartialHeadersOfRealPages | librespot-spoton/src/unified.rs:744-767 | five whole pages, as the sink parses them, on which that happens |
| HeaderReplay.SerialIsInThePage | librespot-spoton/src/unified.rs:753-760 | the serial the handler reads from a page's bytes is the one the sink tracked |
| Relay.NextConserves | librespot-spoton/src/unified.rs:785-923 | no step duplicates or loses a chunk; only an enqueue adds one |
| Relay.ChunksAreConserved | librespot-spoton/src/unified.rs:785-923 | in every reachable state each enqueued chunk is in exactly one place: queued, drained, flushed, held, delivered on one connection, or lost with its client |
| Relay.DeliveryFollowsSinkOrder | librespot-spoton/src/unified.rs:907-919 | each connection receives an increasing subsequence of what was enqueued |
| Relay.AtMostOneCurrent | librespot-spoton/src/unified.rs:726-729 | of two connections that claimed a generation at most one is current |
| Relay.SupersededForwardsAtMostOne | librespot-spoton/src/unified.rs:877-923 | whatever happens after its generation is passed, a relay stays superseded and forwards at most one more chunk |
| Relay.SupersededExits | librespot-spoton/src/unified.rs:867-924 | once the sink enqueues nothing more, it is gone after a bounded number of its own steps |
| Relay.CurrentRelayForwards | librespot-spoton/src/unified.rs:867-919 | an undisturbed current relay delivers the oldest chunk and nothing else changes |
| RelayService.NewcomerDeliversOnlyNew | librespot-spoton/src/unified.rs:785-791 | on every run a connection delivers no chunk that was enqueued before it came |
| RelayService.NewcomerIsServed | librespot-spoton/src/unified.rs:720-923 | from any state, preempted or marked, with any queue and any relay in service, a newcomer left alone comes to wait for chunks with the flag set, and delivers the next one |
| RelayService.ComesToWait | librespot-spoton/src/unified.rs:867-923 | so does every current relay that is not preempted, from wherever it stands in its loop |
| RelayService.PollsAgain | librespot-spoton/src/unified.rs:920-922 | a relay that finds no chunk comes round to waiting again |
| RelayService.PreemptionIsHeededUnlessReset | librespot-spoton/src/unified.rs:872-875 | from every reachable state and on every run without another claim, a preemption stops the relay in service, but for one chunk it may be past the check for, if and only if no other connection is about to reset it |
| RelayService.PreemptionCanBeMissed | librespot-spoton/src/unified.rs:731-732 | a run in which a slower newcomer resets a preemption meant for the relay in service |
| RelayService.FinishedRelayLeaves | librespot-spoton/src/unified.rs:847-853 | a finished relay frees the flag if and only if it is still current |
| RelayService.GoneClientEndsRelay | librespot-spoton/src/unified.rs:913-916 | a chunk sent to a client that is gone is lost and ends the relay |
| RelayService.StuckRelayIsCleared | librespot-spoton/src/unified.rs:709-718 | an arriving connection clears the flag of a relay it finds stuck, and only then |
| RelayService.FlushedSeekIsSeen | librespot-spoton/src/unified.rs:898-904 | a finished flush has taken the number of the seek for seen |
| SeekFlush.SeekIsHeededUnlessMissable | librespot-spoton/src/unified.rs:785-923 | from every reachable state and on every run without another claim, the relay in service delivers after a seek no chunk enqueued before it, apart from the one it holds or is about to take, unless chunks are queued beyond that one and either the relay has drained and not yet looked at the flush channel, or another relay can take the mark first; and in those states some run does deliver one |
| SeekFlush.SeekCanBeMissed | librespot-spoton/src/unified.rs:860-865 | a run in which it does |
| Relay.FlagIsSafeUnlessGuardPassed | librespot-spoton/src/unified.rs:838-858 | from every reachable state in which the current connection is in service with the flag set: however the run goes on, without another claim the flag stays set while it is in service, if and only if no other guard stands between its compare and its store |
| Relay.GuardClearsUnderNewcomer | librespot-spoton/src/unified.rs:847-853 | a guard interrupted between its compare and its store leaves a current newcomer with the flag cleared |
| Relay.GuardRaceIsReachable | librespot-spoton/src/unified.rs:872-875 | such a state is reached by preempting a served connection while the next one arrives |
| Relay.ServedWithFlagCleared | librespot-spoton/src/unified.rs:838-858 | a whole run at whose end the newest connection is served with the flag cleared |
| Reconnect.RetainTwice | librespot-spoton/src/unified.rs:2005 | pruning step by step, with the clock read anew for every entry, retains all that pruning the whole history later would, and no more than pruning it at the start |
| Reconnect.ReconnectWindow.OnSpircDeath | librespot-spoton/src/unified.rs:2003-2019 | with credentials, a reconnect is accepted if fewer than five of all accepted ones lie in the window at the start of the handling, and only if fewer than five lie in the one at its end |
| Reconnect.AtMostFivePerWindow | librespot-spoton/src/unified.rs:2003-2007 | any sixty-second window, wherever it starts, contains at most five accepted reconnects |
| Reconnect.WindowIsSixtySeconds | librespot-spoton/src/unified.rs:2004-2005 | a reconnect is forgotten when it is sixty seconds old, not before |
| Reconnect.AtMostTenPerClosedWindow | librespot-spoton/src/unified.rs:2003-2007 | with both ends counted a window holds at most ten, and at most five unless a reconnect stands at either end |
| Reconnect.TenInAClosedWindow | librespot-spoton/src/unified.rs:2005 | ten do fit: five deaths at once and five sixty seconds later are all answered by a reconnect |
| PlayerEvents.VolumePercent | librespot-spoton/src/connect.rs:323 | the percentage is the nearest one, and at most 100 |
| PlayerEvents.Notifier.constructor | librespot-spoton/src/connect.rs:113-131 | the initial flags |
| PlayerEvents.Notifier.HandlePlayerEvent | librespot-spoton/src/connect.rs:221-408 | one event updates flags, cursor and notifications as the transition function says, and nothing without a configured server |
| PlayerEvents.Notifier.OnPlaying | librespot-spoton/src/connect.rs:236-278 | the same for Playing |
| PlayerEvents.Notifier.OnTrackChanged | librespot-spoton/src/connect.rs:352-383 | the same for TrackChanged |
| PlayerEvents.Notifier.UpdateAnchorPosition | librespot-spoton/src/connect.rs:174-178 | the position moves, the play state stays, and is paused without an anchor |
| PlayerEvents.AnchorFollowsHistory | librespot-spoton/src/connect.rs:282-285 | the anchor exists exactly when a position-carrying event followed the last TrackChanged or Stopped, holds the latest position, and plays exactly when the latest of Playing and Paused since is Playing |
| PlayerEvents.ResyncIsLatestPosition | librespot-spoton/src/connect.rs:64-75 | a resync happens exactly when that track is playing beyond one second, and is its latest position plus the elapsed time |
| PlayerEvents.CursorFollowsHistory | librespot-spoton/src/connect.rs:241-277 | the cursor is the id of the latest Playing or TrackChanged since the last Stopped |
| PlayerEvents.FlagsFollowHistory | librespot-spoton/src/connect.rs:369-381 | session start, pause flag and sync flag are functions of the event history |
| PlayerEvents.VolumeIsForwardedUnlessEcho | librespot-spoton/src/connect.rs:317-325 | a volume change is forwarded if and only if it is not the first after a session connect |
| PlayerEvents.TrackNotifications | librespot-spoton/src/connect.rs:352-383 | exactly when start, change and each kind of stop is sent; a change names the cursor as previous and a different new id |
| PlayerEvents.ResumeAndSyncNotifications | librespot-spoton/src/connect.rs:242-270 | exactly when a resume, a position-sync seek and a pause-caused stop is sent, in terms of the history |
| PlayerEvents.SeekAndVolumeNotifications | librespot-spoton/src/connect.rs:317-341 | exactly when a user's seek and a volume are sent |
| PlayerEvents.UserSeekIsForwarded | librespot-spoton/src/connect.rs:329-336 | a user's seek is passed on, alone, if and only if a track is current |
| PlayerEvents.GraceIsTwoSeconds | librespot-spoton/src/connect.rs:286-294 | a pause is reported from two seconds after the session start on |
| PlayerEvents.AtMostOneNotification | librespot-spoton/src/connect.rs:242-270 | an event sends at most one notification, if and only if it is not a Playing that sends a position sync on top of a change or a resume, and never more than two |
| PlayerEvents.ChangeAndSync | librespot-spoton/src/connect.rs:257-270 | an event that sends a change and a seek |
| PlayerEvents.NotificationLanguage | librespot-spoton/src/connect.rs:236-312 | over every run each resume answers an unanswered reported pause, each sync seek an unanswered start, and two starts are separated by a Stopped |
| PlayerEvents.AnswersMeans | librespot-spoton/src/connect.rs:245-255 | what answering means for positions in the notification sequence: between two resumes there is a reported pause |
| PlayerEvents.SeparatedMeans | librespot-spoton/src/connect.rs:300-311 | between two starts there is a stop caused by Stopped |
| PlayerEvents.SessionStartResumesStalePause | librespot-spoton/src/connect.rs:369-381 | whatever comes in between, the first Playing of a session is announced as a resume if and only if its track is current and a pause was reported in the session since the last track change, or the track has not changed and a pause was pending before the session |
| PlayerEvents.PauseSurvivesStop | librespot-spoton/src/connect.rs:282-312 | a run after which a pause is pending and no track is current |
| HoldKeeping.HoldKeeper.OnEvent | Plugins/SpotOn/Connect.pm:1151-1346 | the handlers that update the hold, its timer and the playlist in place refine the machine that the lemmas below are about, for every event in every state |
| Hold.EveryHoldEndsOnce | Plugins/SpotOn/Connect.pm:1168-1293 | over every run each hold is opened for one item, is open or has ended exactly once; that item was played exactly once if the cap ended it and never otherwise |
| Hold.StepStaysTimed | Plugins/SpotOn/Connect.pm:1306-1346 | one event keeps one timer per open hold, due a tick after the last check, and the charged time between ticks spent and time elapsed |
| Hold.ChecksAreBounded | Plugins/SpotOn/Connect.pm:1330-1345 | over every run an open hold has exactly one pending timer, a closed one none, and fewer than max / tick checks found the old title playing |
| Hold.CeilingTakesItsTime | Plugins/SpotOn/Connect.pm:1337-1343 | a check that plays while the server is not stopped does so on the old title, not paused, and at least the ceiling after the opening |
| Hold.DueCheckOutcome | Plugins/SpotOn/Connect.pm:1306-1346 | what a due check does in every state: close, play the item as the only entry, or come back a recheck later, with the time charged and the log |
| Hold.StoppedServerGetsTheItem | Plugins/SpotOn/Connect.pm:1325-1328 | over every run, a hold that finds the server stopped ends with exactly its item playing, once |
| Hold.FirstCheckIsAtTheCap | Plugins/SpotOn/Connect.pm:1229-1244 | over every run, a newly opened hold has one timer, due the cap after its opening, and a replaced one has ended |
| Hold.CancelsQuietly | Plugins/SpotOn/Connect.pm:1194-1201 | everything that cancels a hold removes its entry if in place, plays nothing and leaves no timer |
| Hold.ChangePlaysAtOnce | Plugins/SpotOn/Connect.pm:2551-2569 | a change that is not held ends any hold and plays the new title |
| Hold.DeferredSongEndsHold | Plugins/SpotOn/Connect.pm:785-791 | the deferred item's song ends the hold without a play and forgets a remembered pause |
| Hold.PauseIsFree | Plugins/SpotOn/Connect.pm:1330-1335 | any number of checks during a pause leave the hold open, its charged time unchanged and nothing played |
| Hold.StaysDeferred | Plugins/SpotOn/Connect.pm:1207-1250 | after any checks and play-state changes an open hold still has its entry right after the recorded index |
| Hold.OpenThenCancelRestores | Plugins/SpotOn/Connect.pm:1194-1250 | open, any checks and play-state changes, then cancel restores playlist and index |
| Hold.OpenThenNewSongReplaces | Plugins/SpotOn/Connect.pm:784-792 | open, any checks, then the deferred song: the new title stands in the old one's place, with equal length |
| Hold.OpenTwiceLeavesNewest | Plugins/SpotOn/Connect.pm:1214-1242 | a second natural end leaves one deferred entry, that of the newest title |
| Hold.CancelRemovesOnlyInPlace | Plugins/SpotOn/Connect.pm:1154-1162 | wherever the deferred entry stands when the hold is cancelled, it is removed if and only if that is after the recorded index |
| Hold.InsertionStrandsDeferred | Plugins/SpotOn/Connect.pm:1154-1162 | a title that comes in while the hold is open leaves the entry behind if and only if it comes in before it |
| Hold.DeletionStrandsDeferred | Plugins/SpotOn/Connect.pm:1154-1162 | a deletion does if and only if the deleted entry stood before it |
| Hold.NewSongPrunesOnlyInPlace | Plugins/SpotOn/Connect.pm:785-789 | when the deferred title starts, the old title's entry is removed if and only if it is where it was |
| Hold.CancelSparesOthers | Plugins/SpotOn/Connect.pm:1154-1162 | a cancel takes no other title out of the playlist than the deferred one |
| Hold.NewSongSparesOthers | Plugins/SpotOn/Connect.pm:784-797 | a new song takes out none but the old title, or the deferred one if it is another song |
| PowerOff.PowerOffWait.OnEvent | Plugins/SpotOn/Connect.pm:2882-3065 | the handlers that update the saved state, the mark and the timer in place refine the machine that the lemmas below are about, for every event in every state |
| PowerOff.PowerOffWait.ConnectEvent | Plugins/SpotOn/Connect.pm:1863-1872 | an accepted start, change or resume cancels the wait; a start or resume saves the power state if none is saved |
| PowerOff.PowerOffWait.RestorePowerAfterConnect | Plugins/SpotOn/Connect.pm:2936-2973 | a session end arms the wait or clears a state that will not be used |
| PowerOff.PowerOffWait.PowerOffDue | Plugins/SpotOn/Connect.pm:2978-3026 | what the timer does, and when it switches off |
| PowerOff.PowerOffWait.OnPower | Plugins/SpotOn/Connect.pm:3037-3050 | a foreign power-on inside the wait cancels it |
| PowerOff.PowerOffWait.DiscardPowerState | Plugins/SpotOn/Connect.pm:317-332 | state and wait are dropped without a power-off |
| PowerOff.PowerOffWait.ReleaseConnectClaim | Plugins/SpotOn/Connect.pm:301-302 | a release discards unless it is an inactive one that finds an armed wait |
| PowerOff.PowerOffWait.OnNewSong | Plugins/SpotOn/Connect.pm:830-880 | other playback cancels the wait and drops the state |
| PowerOff.RunIsExplained | Plugins/SpotOn/Connect.pm:2882-3065 | over every run the saved state dates from the first save, an armed wait from a later session end, and nothing that should stop it came since |
| PowerOff.PowerOffIsJustified | Plugins/SpotOn/Connect.pm:2978-3026 | a power-off comes only from a timer armed at a session end with the opt-in on, on again when it fires, for a first-saved state that was off and saved before the arming, with no start, change, resume, observed foreign playback or power-on in between |
| PowerOff.PendingWaitSwitchesOff | Plugins/SpotOn/Connect.pm:2966-3026 | a wait that nothing touches does switch the player off, if and only if the opt-in is still on, the player is on, Connect is not active and nothing else plays |
| PowerOff.EntrySaves | Plugins/SpotOn/Connect.pm:2411-2412 | an entry that finds nothing saved saves the power the player then has, on or off |
| PowerOff.SessionSwitchesOff | Plugins/SpotOn/Connect.pm:2411-3026 | a whole session entered with the player off, ended with the opt-in on and followed by nothing that concerns the wait switches the player off, if and only if the opt-in is still on, the player on, Connect not active and nothing else playing |
| PowerOff.SavedStateExactly | Plugins/SpotOn/Connect.pm:2882-3065 | for every state and event, when the saved state is set, kept and dropped |
| PowerOff.WaitExactly | Plugins/SpotOn/Connect.pm:2936-3065 | for every state and event, when a wait is armed, kept and ended |
| PowerOff.OneTimerPerWait | Plugins/SpotOn/Connect.pm:2966-2968 | an armed wait has exactly one timer, an unarmed one none |
| Rewrite.CountOccurrences | spoton-helper/src/patch/mod.rs:281-296 | the count is the number of leftmost non-overlapping matches |
| Rewrite.ReplaceAll | spoton-helper/src/patch/mod.rs:301-317 | the rebuilt buffer is the same decomposition joined with the replacement |
| Rewrite.PiecesRebuild | spoton-helper/src/patch/mod.rs:301-317 | joined with the pattern the pieces are the input: every other byte is kept in order |
| Rewrite.PiecesAreLeftmost | spoton-helper/src/patch/mod.rs:281-317 | each piece ends at the first occurrence after the previous match, and a single piece means there is none |
| Rewrite.ReplaceLength | spoton-helper/src/patch/mod.rs:301-317 | the length changes by the difference of the patterns for each match counted |
| Rewrite.CountZeroMeansAbsent | spoton-helper/src/patch/mod.rs:281-296 | the count is zero if and only if the pattern occurs nowhere, overlapping or not |
| Rewrite.PiecesOfJoin | spoton-helper/src/patch/mod.rs:281-317 | decomposing what was joined recovers the pieces if and only if the pattern begins in the separators only |
| Rewrite.SameJoins | spoton-helper/src/patch/mod.rs:301-317 | leftmost decompositions by two patterns that join to the same bytes with either pattern are the same |
| Rewrite.ReverseReplacementUndoes | spoton-helper/src/patch/mod.rs:301-317 | the reverse replacement gives the input back if and only if the new pattern begins only inside what was inserted, or, with an empty pattern, there was nothing to replace |
| Rewrite.ReverseMayFail | spoton-helper/src/patch/mod.rs:301-317 | without that condition it need not |
| VersionScan.RunIsMaximal | spoton-helper/src/patch/mod.rs:356-360 | the run is the longest prefix of digits and dots |
| VersionScan.MarkerCannotOverlapItself | spoton-helper/src/patch/mod.rs:34 | no occurrence of the marker begins inside another one |
| VersionScan.FirstVersionMeans | spoton-helper/src/patch/mod.rs:345-369 | the reference gives the run of the first marker with a dotted one, and nothing exactly when no marker anywhere has one |
| VersionScan.VersionIsReported | spoton-helper/src/patch/mod.rs:345-369 | the same in terms of the bytes: the result stands right behind a marker, is as long as it can be and has a dot, and no earlier marker has such a number |
| VersionScan.MarkerSpellsSoloist | spoton-helper/src/patch/mod.rs:34 | the marker is the word and the blank of the banner |
| VersionScan.DigitsAndDots | spoton-helper/src/patch/mod.rs:356-360 | a version is made of decimal digits and dots |
| VersionScan.FindSoloistVersion | spoton-helper/src/patch/mod.rs:345-369 | the jumping loop finds what trying every position finds |
| PatchRun.FlagMeans | spoton-helper/src/patch/mod.rs:60-80 | a flag is what the last site of its kind says |
| PatchRun.PresentMeans | spoton-helper/src/patch/mod.rs:72-73 | a site is in when its replacement occurs and its search pattern occurs nowhere |
| PatchRun.RequiredGates | spoton-helper/src/patch/mod.rs:74-88 | the gates that must be in are the first six that are not skipped |
| PatchRun.PatchedMeansEveryRequiredSite | spoton-helper/src/patch/mod.rs:82-91 | with one site a kind, patched means a lifetime site exists and every required site is in |
| PatchRun.LaterSiteMasksEarlier | spoton-helper/src/patch/mod.rs:74-78 | with two sites for a gate, patched can be reported while the first is not in |
| PatchRun.MaskedGate | spoton-helper/src/patch/mod.rs:74-78 | bytes and a table on which that happens while a required search pattern is still there |
| PatchRun.ScanStatusForSites | spoton-helper/src/patch/mod.rs:56-96 | the flag array and the verdict the loops compute |
| PatchRun.Prepare | spoton-helper/src/patch/mod.rs:158-213 | bytes are offered for writing only if every count matched, they are the fold of replacements, re-validated and self-verified; each refusal names a site or check that really failed |
| PatchRun.ApplyAllConcat | spoton-helper/src/patch/mod.rs:170-178 | the sites are applied one after the other |
| PatchRun.ApplyOne | spoton-helper/src/patch/mod.rs:173-177 | one site is one replacement, and none if it is skipped |
| PatchRun.CountsAloneAreNotEnough | spoton-helper/src/patch/mod.rs:180-188 | counts can match on the input while the output fails the re-validation |
| PatchRun.FileSystem.Write | spoton-helper/src/patch/mod.rs:218-223 | a write completes, leaves the file alone, or leaves a prefix |
| PatchRun.ThreeDifferentFiles | spoton-helper/src/patch/mod.rs:267-335 | target, staging file and checksum file are never the same |
| PatchRun.Commit | spoton-helper/src/patch/mod.rs:215-246 | what stage, rename and checksum leave on disk under every combination of faults |
| PatchRun.RunCore | spoton-helper/src/patch/mod.rs:112-255 | the outcome of every run, each with its exact condition, and the files it leaves |
| PatchRun.TargetIsOldOrValidated | spoton-helper/src/patch/mod.rs:112-255 | in every outcome the target is the input or the validated output, it changes exactly on success or when only the checksum failed, and a refusal changes no file |
| PatchRun.ChangedTargetIsValid | spoton-helper/src/patch/mod.rs:158-208 | a target that has changed had every expected count before, and has no search pattern and every expected replacement after |
| PatchRun.AcceptedMeans | spoton-helper/src/patch/mod.rs:118-138 | a binary is accepted for the version it reports and an architecture known to the encoder |
| PatchRun.PathsBesideTheTarget | spoton-helper/src/patch/mod.rs:267-335 | where the staging file and the checksum are |
| PatchRun.RunTwice | spoton-helper/src/patch/mod.rs:147-155 | when version and architecture read the same, a rerun on the output reports it as already patched and leaves every file as the first run left it |
| ContainsDecoder.VarintLengthMeans | tools/spclient-smoke.pl:476-486 | a varint has one length: the only prefix of at most ten bytes that ends without the continuation bit |
| ContainsDecoder.NextGroup | tools/spclient-smoke.pl:480 | adding shifted groups in 64 bits gives the sum truncated to 64 bits |
| ContainsDecoder.ReadVarint | tools/spclient-smoke.pl:476-486 | the loop reads that varint and its value, or fails if there is none, and never goes past the end |
| ContainsDecoder.DecodeContains | tools/spclient-smoke.pl:472-512 | the nested loops over the shared position terminate, stay in bounds and compute the parse of the message |
| ContainsGrammar.MessageIsDecoded | tools/spclient-smoke.pl:487-511 | every message of the grammar is decoded to its answers |
| ContainsGrammar.AcceptsExactlyTheGrammar | tools/spclient-smoke.pl:487-511 | bytes decode to a list if and only if they are a message of the grammar with those answers |
| ContainsGrammar.WireFormatRoundTrip | tools/spclient-smoke.pl:470-512 | any concatenation of packed, unpacked and unknown fields, in any varint spelling, decodes to the answers it holds |
| ContainsGrammar.OneReading | tools/spclient-smoke.pl:487-511 | no message can be read as two different lists of fields |
| ContainsGrammar.SpellIsRead | tools/spclient-smoke.pl:476-486 | every 64-bit number has a spelling that is read back |
| ContainsGrammar.EveryListHasAMessage | tools/spclient-smoke.pl:470-512 | every list of answers can be sent and comes back |
| ContainsGrammar.OverrunIsAccepted | tools/spclient-smoke.pl:499-505 | a packed field whose last varint runs over its end is accepted although no well-formed message has those bytes |
| ContainsGrammar.WellFormedExactlyWithoutOverrun | tools/spclient-smoke.pl:499-505 | an accepted message is well formed if and only if each of its packed fields ends where its size says |

## Left out

- UnifiedSink.UnifiedHttpStreamSink.WriteRaw: the 128-bit product of the deadline wraps as in a release build; a debug build would stop there instead.
- Pacing.LateWriteDoesNotShiftLaterDeadlines: stated for exact sleeps of the last packet, since a sleep that overshoots delays its own packet.
- Relay.ChunksAreConserved: the retry loop of the sink's send is one enqueue, and the generation counter does not wrap at 64 bits.
- PlayerEvents.Notifier.HandlePlayerEvent: the flush signal of a seek is part of `Relay`, not of this state.
- HoldKeeping.HoldKeeper.OnEvent: whether a change may be held (repeat mode, duration, play state) is an input.
- PowerOff.PowerOffWait.ConnectEvent: the claim itself and the suppression rules that decide whether an event proceeds are inputs.
- PowerOff.PowerOffWait.OnNewSong: the url is abstracted to the four classes the handler's patterns tell apart.
- HTTP serving, sockets, task scheduling, the librespot player and session, discovery and cryptography.
- The Browse/Connect arbitration, the control status and the volume mixer.
- PCM sample conversion, metadata fetching, logging and display strings.
- The own-play marker and the clear-hold message that accompany a hold, and the settle at the end of a context.
- The pattern tables (empty in this repository), SHA-256 and the ELF lookup: the table, the hash and the architecture are parameters.
- The status, argument and diagnostics parts of the helper, and the other probe modes of the smoke tool.
