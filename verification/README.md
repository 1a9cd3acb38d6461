# Verified models of the link aggregator

nya-link-aggregation carries many byte streams over several links at once. This
project models its most intricate parts in Dafny and proves what they keep over
every run, not only over one call. To verify: `dafny verify dfyconfig.toml`.

Each part that changes state step by step in the source is here twice: as
imperative code in the source's shape (a class whose methods update fields, or a
method with a loop), and as a function on values. The method's contract ties the
two together, and the theorems over whole runs are about the function. Steps that
interleave (network, timers, other tasks) are actions of a transition system, and
the theorems quantify over every sequence of them.

| module | what it models |
|---|---|
| `Transport`, `WanArms`, `WanProtocol`, `WanWindow`, `WanRescue`, `WanVain` | reliable transport over a wire that loses, duplicates, delays and reorders: window, RACK, tail-loss probe, retransmission timeout, reorder buffer |
| `Bottleneck` | departure clock and tail drop of a rate-limited link, and the ordered delivery clock behind it |
| `Overlay`, `OverlayRuns`, `OverlayAcks`, `Sack` | one overlay stream end to end: pieces at absolute offsets, the receive buffer, selective acknowledgements, closes with and without a final offset |
| `FlowControl` | windows on top of that: the receiver's cap, windows read a counter at a time and sent later, and acknowledgements heard in any order |
| `Failback`, `FailbackRuns`, `FailbackMoves` | effective class RTT, the fastest class, the scored pick, and where a stream's home path fails back |
| `MinMax`, `Budget`, `BudgetRuns`, `BudgetRounds` | the three-slot windowed maximum and the round-based send budget that feeds on it |
| `RttClass` | fast, stable and class RTT of a path |
| `AckRegister` | the pending-acknowledgement rows of a path, taken by the writer and restored by its guard |
| `Copier`, `CopierRuns`, `CopierBills` | the bidirectional copier: two poll loops and the stream-gone event |
| `DialRace`, `DialRaceRuns`, `DialRaceStarts` | racing two family lookups and their addresses |
| `SessionJoin` | create-or-join coordination of the link tasks |
| `Codec`, `FrameVectors`, `FrameIo`, `HostPort` | frames, their length-prefixed form, and `host:port` |
| `CivilDate`, `Histogram` | the closed-form date and the bucketed percentiles |

## What the code does not meet

Some statements one would expect, or that the source's comments make, do not hold.
Each has a run or an input on which it fails, and a condition that says exactly when
it holds, except where "Left out" says otherwise.

- The pipe returns at end of input with bytes unwritten (`WanProtocol.EndOfInputCanLoseBytes`).
  At that moment everything read has been written exactly when nothing is in flight
  (`WanProtocol.EndOfInputCompleteIffNothingInFlight`).
- Completion is not reachable from every live state (`WanProtocol.StuckIsReachable`). At
  rest it is reachable exactly when the sender is rescuable (`WanRescue.AtRestCompletionIff`):
  nothing is in flight, the window has room, a timeout comes in time for packets with
  retries only, or the tail probe comes in time and either exposes another packet or
  leaves a sender that is itself rescuable. That the timer may still re-send something is
  not enough (`WanVain.ProbeMayBeInVain`).
- `MinMax3` is not the exact windowed maximum (`MinMax.NotTheExactMaximum`); it is
  exactly when no sample older than slot 0's is both larger and in the window
  (`MinMax.ExactIff`). "Slot 2 always holds the newest sample"
  (crates/nya-core/src/bw.rs:29) is false (`MinMax.SlotTwoMayMissTheNewest`): it does
  exactly when the update refreshes that slot (`MinMax.SlotTwoIsNewestIff`), and `get`
  reads 0 beside a sample in the window exactly when the maximum is 0 or an unrefreshed
  slot 2 has aged out (`MinMax.GetReadsZeroIff`).
- A budget probe that bought nothing may stay (`BudgetRuns.FailedProbeCanStay`); it is
  undone exactly when the round after it was limited too, within that round's lid
  (`BudgetRuns.FailedProbeUndoneIffLimited`).
- A home path that is alive but unusable may keep its streams although an equally fast
  usable path exists: the load in the score picks an idle slower one, which is then
  refused (`FailbackRuns.UnusableHomeMayStay`, exact condition in `FailbackRuns.UnusableHomeMovesIff`).
- A row restored by the writer's guard replaces a newer one of equal offset, so a window
  opened meanwhile disappears from the register (`AckRegister.OpenedWindowCanVanish`); a
  newer row survives exactly when its offset is greater (`AckRegister.NewerSurvivesIff`).
  The session's plain overwrite can lose the furthest acknowledgement
  (`AckRegister.LoweringLosesIt`); it is kept exactly when the new row is as far or the
  writer has or had one as far (`AckRegister.OverwriteKeepsIff`). The session's own dirty
  flag, which makes it acknowledge again later, is not modelled.
- The receiver can come to hold more than its cap ever allowed, for a cap of any size c:
  c + d bytes for any d up to c when acknowledgements cross on different paths
  (`FlowControl.StaleWindowOverruns`), and also when they are heard in the order they were
  sent, if one read the count of unread bytes before another and was sent after it
  (`FlowControl.SendOrderIsNotEnough`). Heard in the order in which they read that count,
  it is by one chunk at most (`FlowControl.ReceiverMemoryBounded`), and by that much it can
  be, because a chunk is handed over before it is counted (`FlowControl.LateCountOverruns`).
  In any state, with nothing further heard, any limit is exceeded exactly when what the
  sender is allowed lies beyond it (`FlowControl.OverrunIff`). The bytes behind a hole are
  bounded in any order (`FlowControl.ReorderBufferBounded`).
- A chunk read before it is counted leaves the count of unread bytes too high, and so takes
  its length off the window (`FlowControl.WindowCanShrinkForGood`): exactly when more is
  read than was counted (`FlowControl.ReadForgottenIff`), for good, but in no run by more
  than one payload of 16368 bytes (`FlowControl.ExcessIsPermanent`). It never closes the
  window of an empty receiver: that would take a cap no larger than the count, and so a
  stream that starts with at most one payload (`FlowControl.EmptyStaysOpen`), where the
  source starts with 131072 (crates/nya-core/src/tuning.rs:120) and never tunes below its
  start (crates/nya-core/src/session/streams.rs:839-862).
- A close without a final offset can end a stream short (`OverlayRuns.LegacyCloseCanTruncate`).
  Finishing at once it leaves everything written handed over exactly when the receiver
  stood at the sender's end (`OverlayRuns.LegacyCloseTruncatesIff`), and later exactly when
  the receiver already held all of it (`OverlayRuns.LegacyCloseHarmlessIff`).
- `host:port` printing does not parse back for a host that starts with a bracket and has
  no colon (`HostPort.ParseDisplayIff`), and a text over 65535 bytes or a ninth selective
  range does not survive the codec (`Codec.DecodeEncodeIff`).
- In the dial race attempts do not alternate while a family is preferred
  (`DialRaceRuns.LateFamilyGoesTwice`): the preference lasts exactly as long as its queue
  (`DialRaceRuns.PreferenceLasts`, `DialRaceRuns.PreferredRunsToItsEnd`).

## Model

| member | source | states |
|---|---|---|
| Transport.WanReceiver.OnPacket | crates/nya-e2e/src/packet_wan.rs:105-144 | one arrival: writes out every packet now in order, acknowledges each, buffers later ones, acknowledges duplicates again |
| Transport.WanSender.SampleRtt | crates/nya-e2e/src/packet_wan.rs:193-204 | smoothed RTT and variance after one sample |
| Transport.WanSender.Grow | crates/nya-e2e/src/packet_wan.rs:205-214 | slow start below the threshold, one packet per window above, within the cap |
| Transport.WanSender.Halve | crates/nya-e2e/src/packet_wan.rs:232-236 | threshold and window halved, not below 2, and the episode's end noted |
| Transport.WanSender.ResendLost | crates/nya-e2e/src/packet_wan.rs:237-248 | re-sends the lost packets not re-sent within a probe time, counting each try |
| Transport.WanSender.Ack | crates/nya-e2e/src/packet_wan.rs:188-250 | the whole acknowledgement arm |
| Transport.WanSender.Timer | crates/nya-e2e/src/packet_wan.rs:251-292 | the timer arm: all due packets, or a tail probe, or giving up at the thirteenth try |
| Transport.WanSender.Read | crates/nya-e2e/src/packet_wan.rs:293-314 | cuts what was read into packets while the window has room |
| WanArms.RoundTripSampled | crates/nya-e2e/src/packet_wan.rs:191-204 | a sample moves the variance a quarter of the way to the deviation from the estimate before, and the estimate an eighth of the way to the sample (section 2 of RFC 6298); the first sets both, and a packet sent twice moves neither |
| WanArms.GrowthIs | crates/nya-e2e/src/packet_wan.rs:205-214 | what an acknowledgement adds to the window and to the count towards it, within the cap |
| WanArms.ReadCutsPackets | crates/nya-e2e/src/packet_wan.rs:293-314 | the bytes read go out in order in fresh packets, each full but the last, while bytes and room in the window last |
| WanArms.LossCutsTheWindow | crates/nya-e2e/src/packet_wan.rs:188-250 | an acknowledgement finds a loss exactly when some packet in flight was overtaken by a quarter round trip; it then cuts the window to half, unless an episode stays open, and re-sends just the overtaken packets that are quiet for a probe time; else the window grows |
| WanArms.LateAckOnlyEndsEpisode | crates/nya-e2e/src/packet_wan.rs:216-218 | of a packet no longer in flight it at most ends the episode |
| WanArms.TimeoutCutsTheWindow | crates/nya-e2e/src/packet_wan.rs:257-281 | a timeout re-sends everything overdue and cuts the window, in an episode or not, unless an overdue packet had its twelve tries |
| WanArms.ProbeOnlyAsks | crates/nya-e2e/src/packet_wan.rs:282-290 | with nothing overdue only the newest packet is probed, once, moving neither its clock nor the window |
| WanArms.TimerReadyIff | crates/nya-e2e/src/packet_wan.rs:172-186 | the timer runs exactly when something is overdue or to be probed |
| WanArms.ArrivalAcknowledged | crates/nya-e2e/src/packet_wan.rs:106-143 | every arrival is acknowledged, the expected packet with all it lets through in order; what each leaves in the buffer |
| WanProtocol.WrittenIsPrefixOfRead | crates/nya-e2e/src/packet_wan.rs:102-145 | in every run the bytes written are a prefix of the bytes read, and while running the packets 0..expected exactly; reorder keys are beyond `expected` |
| WanProtocol.StepKeepsInv | crates/nya-e2e/src/packet_wan.rs:147-318 | every step keeps: no packet is forgotten, tries equal transmissions, the window stays in 2..16384, copies on the wire are genuine |
| WanProtocol.RttMovesOnlyOnSinglySent | crates/nya-e2e/src/packet_wan.rs:191-204 | Karn's rule (section 3 of RFC 6298) over whole runs |
| WanProtocol.OneHalvingPerEpisode | crates/nya-e2e/src/packet_wan.rs:216-236 | over whole runs: until a retransmission timeout or the acknowledgement of a packet sent after the episode began, the threshold and the episode stay as the halving left them |
| WanProtocol.CompleteIffAllExpected | crates/nya-e2e/src/packet_wan.rs:106-133 | everything read is written exactly when the receiver expects the next new packet |
| WanProtocol.EndOfInputCompleteIffNothingInFlight | crates/nya-e2e/src/packet_wan.rs:295-324 | at end of input all is written exactly when nothing is in flight |
| WanProtocol.EndOfInputCanLoseBytes | crates/nya-e2e/src/packet_wan.rs:320-324 | a run that reads a byte and ends without writing it |
| WanProtocol.Settle | crates/nya-e2e/src/packet_wan.rs:102-250 | with no further loss, every live state comes to rest, and what was covered or had retries left still is |
| WanProtocol.CompletionStaysReachable | crates/nya-e2e/src/packet_wan.rs:147-318 | from every live state whose missing packets have a copy under way or a retry left, some continuation writes everything read and empties the in-flight map |
| WanRescue.AtRestCompletionIff | crates/nya-e2e/src/packet_wan.rs:173-313 | at rest some continuation writes everything read exactly when the sender is rescuable; otherwise none ever does |
| WanRescue.CompletionIff | crates/nya-e2e/src/packet_wan.rs:173-313 | from any live state completion is reachable exactly when some rest with a rescuable sender is |
| WanRescue.FreeingSaves | crates/nya-e2e/src/packet_wan.rs:188-313 | a condition on the state itself: a packet in flight still on the wire with no acknowledgement queued, or acknowledged next, and no more in flight than the window takes; then some continuation writes everything read |
| WanRescue.RescuableSaves | crates/nya-e2e/src/packet_wan.rs:222-313 | how: late acknowledgements re-send exhausted packets, probes free the window, a new packet exposes the rest |
| WanRescue.DoomedForGood | crates/nya-e2e/src/packet_wan.rs:216-313 | a state beyond rescue, at rest or with only its probed tail under way, never completes |
| WanRescue.RetriesLeftRescue | crates/nya-e2e/src/packet_wan.rs:257-281 | with a retry left for every packet a sender at rest is rescuable |
| WanRescue.StuckIsNotRescuable | crates/nya-e2e/src/packet_wan.rs:257-292 | a stuck sender is not |
| WanVain.ProbeMayBeInVain | crates/nya-e2e/src/packet_wan.rs:282-290 | a run into a rest with the window full where the tail probe would still fire and no continuation completes |
| WanProtocol.StuckNeverCompletes | crates/nya-e2e/src/packet_wan.rs:273-276 | from a stuck state no continuation writes another byte |
| WanProtocol.StuckIsReachable | crates/nya-e2e/src/packet_wan.rs:257-292 | a run from the start into a stuck state |
| WanWindow.SlowStartAddsOneEach | crates/nya-e2e/src/packet_wan.rs:205-206 | below the threshold every acknowledgement adds a packet |
| WanWindow.OneMorePerWindow | crates/nya-e2e/src/packet_wan.rs:207-213 | above it the window grows by one exactly after a window's worth of acknowledgements, less those already counted |
| WanWindow.EstimateWithinSamples | crates/nya-e2e/src/packet_wan.rs:193-204 | the smoothed round trip stays between the least and greatest sample, its variance within their spread |
| Bottleneck.Queue.Admit | crates/nya-e2e/src/packet_wan.rs:381-405 | departure time or tail drop, and the next free time |
| Bottleneck.AdmittedIff | crates/nya-e2e/src/packet_wan.rs:381-405 | a packet is accepted exactly when what is still to go out and the packet itself fit the queue to the byte, and leaves as soon as the line has sent both |
| Bottleneck.DeparturesAreSpaced | crates/nya-e2e/src/packet_wan.rs:390-404 | two accepted packets leave at least the line time of everything accepted after the first apart |
| Bottleneck.QueueLimitBoundsDelay | crates/nya-e2e/src/packet_wan.rs:394-400 | the byte limit bounds an accepted packet's delay |
| Bottleneck.WireKeepsOrder | crates/nya-e2e/src/packet_wan.rs:39-85 | with arrival times that never go back, packets come out in the order they went in |
| Bottleneck.LimitedTimesNeverDecrease | crates/nya-e2e/src/packet_wan.rs:363-376 | a rate-limited link with a constant delay gives such times |
| Bottleneck.LimitedLinkKeepsOrder | crates/nya-e2e/src/packet_wan.rs:39-42 | so that link never reorders |
| Overlay.StreamReceiver.InsertData | crates/nya-core/src/session/streams.rs:616-688 | ignores data past the close, after the end or already delivered; buffers the rest; true exactly for a first copy |
| Overlay.StreamReceiver.DrainRecv | crates/nya-core/src/session/streams.rs:700-746 | hands over in-order chunks while the channel takes them, and says which |
| Overlay.StreamReceiver.OnClose | crates/nya-core/src/session/streams.rs:1172-1184 | the first close decides; without an offset it is where the receiver stands |
| Overlay.StreamReceiver.Finish | crates/nya-core/src/session/streams.rs:1195-1204 | the receive side finishes when it reaches the close offset |
| Overlay.StreamReceiver.MakeAck | crates/nya-core/src/session/streams.rs:970-976 | cumulative offset and selective ranges of the buffer |
| Overlay.StreamSender.SendPiece | crates/nya-core/src/session/streams.rs:218-374 | a piece takes the next offset and is kept until acknowledged |
| Overlay.StreamSender.AckArrived | crates/nya-core/src/session/streams.rs:1033-1077 | releases pieces wholly below a cumulative offset that moved, and pieces inside a selective range |
| OverlayRuns.StepKeepsInv | crates/nya-core/src/session/streams.rs:616-746 | every step keeps: what an acknowledgement ever said of the receiver stays true, and a piece leaves the sender only when the receiver has it |
| OverlayRuns.InOrderAndNothingLost | crates/nya-core/src/session/streams.rs:692-746 | in every run the application reads a prefix of what was written, in whole pieces, and a piece the receiver does not hold is still queued with its own bytes |
| OverlayRuns.BufferIsDisjoint | crates/nya-core/src/stream.rs:381-394 | in every reachable state buffered chunks are non-empty and do not overlap |
| OverlayRuns.FinishedMeansComplete | crates/nya-core/src/session/streams.rs:512-543 | when closes carry their final offset, a finished receiver has handed over everything written |
| OverlayRuns.LegacyCloseCanTruncate | crates/nya-core/src/session/streams.rs:1177-1183 | a run in which an offset-less close ends the stream before the byte written |
| OverlayRuns.LegacyCloseTruncatesIff | crates/nya-core/src/session/streams.rs:1172-1204 | arriving first and finishing at once it leaves everything handed over exactly when the receiver stood at the sender's end |
| OverlayRuns.LegacyCloseHarmlessIff | crates/nya-core/src/session/streams.rs:616-746 | once it has arrived, everything written can still be handed over exactly when the receiver already held all of it |
| OverlayRuns.InOrderCountIsMaximal | crates/nya-core/src/stream.rs:451-465 | in every reachable state the in-order count reaches exactly to the first gap |
| OverlayRuns.CompletionStaysReachable | crates/nya-core/src/session/streams.rs:616-746 | from every reachable state the rest can still be delivered and acknowledged |
| OverlayAcks.AckReleasesWhatItTells | crates/nya-core/src/session/streams.rs:1033-1077 | in every run the sender keeps after an acknowledgement exactly the pieces that neither end by its cumulative offset nor lie inside one of its ranges |
| OverlayAcks.HeldPiecesAreReleased | crates/nya-core/src/session/streams.rs:1055-1077 | however late it is heard, an acknowledgement made of a buffer of at most eight runs leaves no piece queued that the buffer held |
| OverlayAcks.QueueIsWhatIsMissing | crates/nya-core/src/session/streams.rs:970-976 | heard at once it leaves queued exactly what the receiver does not hold |
| OverlayAcks.DrainFillsTheRoom | crates/nya-core/src/session/streams.rs:700-746 | a drain hands over as many pieces as there is room for, or all up to the gap |
| OverlayAcks.CloseDecidesOnce | crates/nya-core/src/session/streams.rs:1172-1204 | the first close stands, an old one where the receiver is, and the side finishes exactly when it is that far |
| FlowControl.ReorderBufferBounded | crates/nya-core/src/stream.rs:433-449 | in any order of acknowledgements the bytes behind a hole never exceed the largest cap |
| FlowControl.OverrunIff | crates/nya-core/src/stream.rs:433-449 | with nothing further heard or read, the receiver can come to hold more than a limit exactly when what the sender is allowed lies further past what was read |
| FlowControl.ReceiverMemoryBounded | crates/nya-core/src/stream.rs:443-449 | with acknowledgements heard in the order in which they read the count of unread bytes, whatever they then read as the bytes behind a hole and whenever they are sent, what the sender is allowed and what the receiver holds stay within the largest cap and one chunk |
| FlowControl.WindowAndHeldAreTheCap | crates/nya-core/src/stream.rs:443-449 | an acknowledgement made in one go advertises what the cap leaves beside the unread count and the bytes behind a hole; with nothing uncounted, window and held bytes are the cap |
| FlowControl.BufferedBytesCounted | crates/nya-core/src/stream.rs:443-449 | in every reachable state the bytes counted as behind a hole are the positions buffered |
| FlowControl.StaleWindowOverruns | crates/nya-core/src/session/streams.rs:1037-1042 | for every cap c and d up to c, a run in which a late older window lets it hold c + d bytes |
| FlowControl.SendOrderIsNotEnough | crates/nya-core/src/session/streams.rs:970-976 | the same although all are heard in the order they were sent, one of them having read its count early |
| FlowControl.LateCountOverruns | crates/nya-core/src/session/streams.rs:708-730 | for every cap c and chunk of d bytes, a run in the order of the reads in which it can hold c + d, so the bound above is met |
| FlowControl.ReadForgottenIff | crates/nya-core/src/session/streams.rs:584-599 | a read leaves the count of unread bytes too high by what was not counted yet |
| FlowControl.ExcessIsPermanent | crates/nya-core/src/session/streams.rs:584-599 | nothing takes that excess back, and in no run is it more than one payload |
| FlowControl.WindowCanShrinkForGood | crates/nya-core/src/session/streams.rs:584-599 | for every cap c and chunk of d bytes, a run after which nothing is held and c - d is advertised |
| FlowControl.EmptyStaysOpen | crates/nya-core/src/session/streams.rs:839-862 | in every run an empty receiver advertises its cap less one payload at least; it advertises nothing exactly when its cap is within the count, and then the stream started with at most one payload |
| Sack.Coalesce | crates/nya-core/src/stream.rs:386-393 | chunks in order joined into runs |
| Sack.FindNewest | crates/nya-core/src/stream.rs:397-399 | the run that holds the newest arrival |
| Sack.AddHighest | crates/nya-core/src/stream.rs:400-407 | then the highest runs not listed, up to eight |
| Sack.SackRanges | crates/nya-core/src/stream.rs:381-409 | the ranges of a buffer |
| Sack.InOrderHeld | crates/nya-core/src/stream.rs:454-465 | length of the contiguous run from the next offset |
| Sack.RangesAreMaximalRuns | crates/nya-core/src/stream.rs:379-409 | min(8, number) distinct maximal runs, the newest arrival's first, all of them when at most eight |
| Sack.HighestRunsReported | crates/nya-core/src/stream.rs:400-407 | with more than eight runs the highest are reported, besides the newest arrival's |
| Sack.RangesOnlyReportBuffered | crates/nya-core/src/stream.rs:381-409 | a reported byte is buffered, even when chunks overlap |
| Sack.RunsHoldTheChunks | crates/nya-core/src/stream.rs:386-393 | the runs cover exactly the chunks' bytes |
| Sack.RunsAreMaximal | crates/nya-core/src/stream.rs:386-393 | runs of disjoint chunks have gaps between them |
| Sack.InOrderHeldIsMaximal | crates/nya-core/src/stream.rs:451-465 | of a receive buffer: every byte up to the count is buffered and the next one is not |
| Failback.PickFromScored | crates/nya-core/src/scheduler.rs:415-438 | the least candidate by score, known estimate, id |
| Failback.Best | crates/nya-core/src/scheduler.rs:423-437 | a candidate that no other beats |
| FailbackMoves.PickIsPreferred | crates/nya-core/src/scheduler.rs:415-461 | the pick is heard from recently when any candidate is, and no candidate then left is preferred to it |
| FailbackMoves.ScoreIsWeighed | crates/nya-core/src/scheduler.rs:244-256 | below saturation a score is 1024 times the class and once the estimate, 40 ms while unknown, for every stream and 64 KiB in flight and one more |
| FailbackMoves.EffectiveIs | crates/nya-core/src/scheduler.rs:44-53 | the class RTT, unless the live estimate is so much faster |
| FailbackMoves.MinClassRttIs | crates/nya-core/src/scheduler.rs:55-79 | the least effective RTT of the settled paths, else of the measured, else of all |
| FailbackMoves.CandidatesIff | crates/nya-core/src/scheduler.rs:99-125 | the four tiers the fastest class is taken from |
| FailbackMoves.FastestOfIff | crates/nya-core/src/scheduler.rs:130-161 | of those, the ones not slower than their own least |
| FailbackMoves.FastestClassInMicros | crates/nya-core/src/scheduler.rs:95-161 | with the least settled path usable, the usable measured paths not slower than it by half and 8 ms, or by 45 percent and 8 ms; being a backup adds nothing |
| FailbackMoves.FastestClassFallsBack | crates/nya-core/src/scheduler.rs:112-125 | with nothing usable it is made of paths that are up |
| FailbackMoves.LinkOfNumbered | crates/nya-core/src/path.rs:26-28 | the link of a numbered connection |
| FailbackRuns.PickIgnoresOrder | crates/nya-core/src/scheduler.rs:399-447 | the choice depends on the candidates, not on their order |
| FailbackRuns.ClassDominatesScore | crates/nya-core/src/scheduler.rs:244-256 | at equal load one microsecond of class outweighs 1024 of the fast estimate, doubled while unknown |
| FailbackRuns.FastestClassIff | crates/nya-core/src/scheduler.rs:95-161 | when the settled path of least RTT is usable, the fastest class is exactly the usable measured paths neither backup nor failback away from it |
| FailbackRuns.HopLandsElsewhere | crates/nya-core/src/scheduler.rs:621-705 | a hop goes to another path of the snapshot, and is an upgrade exactly when the home is usable |
| FailbackRuns.ClassEmptyRaisesRank | crates/nya-core/src/scheduler.rs:669-704 | an unusable home is left only for a path that is more alive |
| FailbackRuns.AliveNeverDumpedOnSlower | crates/nya-core/src/scheduler.rs:669-689 | an alive home is not traded for a slower class off its link |
| Failback.FastestClassIsTight | crates/nya-core/src/scheduler.rs:95-161 | empty exactly when nothing is alive; only usable members while any path is usable; no member should fail back to another settled member |
| FailbackRuns.UpgradeIsFaster | crates/nya-core/src/scheduler.rs:628-668 | an upgrade lands on a usable, settled, long-enough-up path, strictly faster than a home of known RTT, by a class jump inside the fastest class |
| FailbackRuns.ReturnNeedsAShift | crates/nya-core/src/tuning.rs:148-164 | after such a jump, coming back needs the two estimates to move by 8 ms together |
| FailbackRuns.RestingPath | crates/nya-core/src/scheduler.rs:621-705 | following failbacks on one snapshot comes to rest on a path with no further target |
| FailbackRuns.ChainNeverRevisits | crates/nya-core/src/scheduler.rs:621-705 | no path is seen twice, so there are fewer hops than paths |
| FailbackRuns.DeadHomeMovesIff | crates/nya-core/src/scheduler.rs:686-704 | a dead home is left exactly when something is alive |
| FailbackMoves.UsableHomeMovesIff | crates/nya-core/src/scheduler.rs:621-668 | a usable home is left exactly for the pick of the usable paths it is not too fast for, when that one is settled, up long enough, and either a jump faster than a home in the fastest class or in that class, with another member, beside a home outside that is slower than a member |
| FailbackMoves.UnusableHomeGoesTo | crates/nya-core/src/scheduler.rs:669-705 | where a home that is not usable goes, tier by tier, and that it stays when alive with no usable path on its link |
| FailbackRuns.UnusableHomeMovesIff | crates/nya-core/src/scheduler.rs:669-689 | when an alive but unusable home is left |
| FailbackRuns.UnusableHomeMayStay | crates/nya-core/src/scheduler.rs:244-256 | a snapshot where it stays although an equally fast path is usable |
| MinMax.MinMax3.Record | crates/nya-core/src/bw.rs:43-60 | the three slots and the result after a sample |
| MinMax.MinMax3.Slide | crates/nya-core/src/bw.rs:62-83 | the three slots after the window slides |
| MinMax.SlotsAfterUpdate | crates/nya-core/src/bw.rs:44-83 | which samples the three slots hold after an update, by the values and ages alone |
| MinMax.MinMax3.Read | crates/nya-core/src/bw.rs:32-37 | slot 0, or 0 when slot 2 is stale |
| MinMax.WindowedMin.Record | crates/nya-core/src/bw.rs:103-105 | the complement of the maximum of complements |
| MinMax.UpdateBracketsWindowMax | crates/nya-core/src/bw.rs:44-83 | the result is the maximum of all samples since slot 0's, that one is in the window, so it lies between the newest sample and the true windowed maximum |
| MinMax.MaximumKeptUntilItAgesOut | crates/nya-core/src/bw.rs:44-60 | an adopted maximum is reported until it leaves the window |
| MinMax.ExactUnlessPromoted | crates/nya-core/src/bw.rs:62-74 | exactness is lost only by promotion |
| MinMax.ExactIff | crates/nya-core/src/bw.rs:3-7 | when the report is the true windowed maximum |
| MinMax.NotTheExactMaximum | crates/nya-core/src/bw.rs:15-16 | four samples after which it is not |
| MinMax.SlotTwoMayMissTheNewest | crates/nya-core/src/bw.rs:28-37 | two samples after which slot 2 is not the newest and `get` reads 0 |
| MinMax.SlotTwoIsNewestIff | crates/nya-core/src/bw.rs:44-83 | exactly when slot 2 holds the newest sample after an update; otherwise it is unchanged |
| MinMax.GetReadsZeroIff | crates/nya-core/src/bw.rs:32-37 | exactly when `get` reads 0 with the newest sample in the window |
| MinMax.GetIsZeroWhenAllStale | crates/nya-core/src/bw.rs:28-37 | nothing is reported once every sample has left the window |
| MinMax.MinimumIsBracketed | crates/nya-core/src/bw.rs:86-106 | the dual for the windowed minimum |
| Budget.Controller.Note | crates/nya-core/src/path.rs:420-454 | one delivery sample: idle restart, round still open, or round end |
| Budget.Controller.NoteLimited | crates/nya-core/src/path.rs:456-460 | marks the round |
| Budget.Controller.FinishRound | crates/nya-core/src/path.rs:477-597 | the whole controller state after a round |
| Budget.Controller.Decide | crates/nya-core/src/path.rs:558-596 | the budget after a judged round: growth, probe, hold or settling |
| Budget.Controller.ApplyVerdict | crates/nya-core/src/path.rs:515-557 | step, pending step, sag or neither, and what each resets |
| Budget.Controller.FinishLimited | crates/nya-core/src/path.rs:558-586 | a limited round: judge a probe, grow, wait, or start a probe |
| BudgetRounds.RoundEndsIff | crates/nya-core/src/path.rs:420-454 | a sample ends the round exactly when the filter had a rate and the round lasted a loop: the fresh one, else the floor, else 20 ms |
| BudgetRounds.RestartForgets | crates/nya-core/src/path.rs:424-440 | an idle restart begins anew from the floor, except for the two filters |
| BudgetRounds.OpenRoundOnlyFilters | crates/nya-core/src/path.rs:441-452 | within a round only the filter moves |
| BudgetRounds.RateIsAverage | crates/nya-core/src/path.rs:480-486 | the bytes delivered over the time, rounded down |
| BudgetRounds.ConfirmedByTwoRounds | crates/nya-core/src/path.rs:490-498 | only the lower of two rounds in a row may lift the ceiling |
| BudgetRounds.LidIs | crates/nya-core/src/path.rs:499-507 | three floor loops of the best confirmed rate, within floor and ceiling |
| BudgetRounds.StepRaisesByHalf | crates/nya-core/src/path.rs:515-533 | a confirmed step raises the budget by half, up to the lid, and `bw_full` to the lower rate |
| BudgetRounds.FirstStepWaits | crates/nya-core/src/path.rs:534-537 | the first round over the bar only waits for the next |
| BudgetRounds.ProbeIsJudged | crates/nya-core/src/path.rs:558-571 | a probe is kept when 1.075 of `bw_full` was reached, else undone within the lid |
| BudgetRounds.FlatRoundsProbe | crates/nya-core/src/path.rs:574-586 | the third flat limited round and every fourth after it probes with a quarter more, the others hold |
| BudgetRounds.IdleRoundsSettle | crates/nya-core/src/path.rs:587-594 | rounds that found room hold, and from the eighth on settle at twice what was carried |
| BudgetRounds.ThirdSagRearms | crates/nya-core/src/path.rs:537-556 | the third sag in a row starts again from the level seen |
| BudgetRounds.NextRoundStarts | crates/nya-core/src/path.rs:477-498 | every round starts the next where it ended |
| BudgetRounds.TwoLimitedStepsGrow | crates/nya-core/src/path.rs:511-533 | two limited rounds in a row over the bar raise the budget by half, up to the lid |
| BudgetRuns.RunOk | crates/nya-core/src/path.rs:515-597 | every run keeps: the budget is not below its floor, a pending step rate not below `bw_full`, and a probe falls back to no more than it raised and no less than the floor |
| BudgetRuns.RunOkFromStart | crates/nya-core/src/path.rs:510-533 | so in every run from the start, with a floor up to the initial budget |
| BudgetRuns.FullFallsOnlyAfterThreeSags | crates/nya-core/src/path.rs:521-556 | `bw_full` falls only by idle restart or after three rounds in a row under 0.85 of it |
| BudgetRuns.AtMostHalfMorePerTwoRounds | crates/nya-core/src/path.rs:511-520 | no two consecutive rounds both raise the budget |
| BudgetRuns.FailedProbeUndoneIffLimited | crates/nya-core/src/path.rs:537-596 | what becomes of a probe that bought nothing, in every round: undone exactly when that round was limited, within its lid, unless a third sag re-arms |
| BudgetRuns.FailedProbeCanStay | crates/nya-core/src/path.rs:522-594 | a run into a probe that bought nothing and stays |
| BudgetRuns.HistoryIsTracked | crates/nya-core/src/path.rs:492-498 | the ceiling filter holds the history of confirmed rates |
| BudgetRuns.BudgetWithinConfirmedCeiling | crates/nya-core/src/path.rs:477-508 | budget within floor and ceiling, and within three loops of the windowed maximum of confirmed rates |
| RttClass.PathRtt.RecordRtt | crates/nya-core/src/path.rs:867-907 | the three estimates after a sample |
| RttClass.PathRtt.UpdateClassRtt | crates/nya-core/src/path.rs:909-990 | class, timers and permit after a fast value |
| RttClass.FastTakesAFifth | crates/nya-core/src/path.rs:867-877 | the first sample as it is, then a fifth of each |
| RttClass.StableMoves | crates/nya-core/src/path.rs:878-904 | a quarter of a lower sample at once; an eighth of a fast value far above, only after a hold there |
| RttClass.ZonesAre | crates/nya-core/src/path.rs:935-964 | when a fast value is high, low or neither to a known class |
| RttClass.StoreTakesAnEighth | crates/nya-core/src/path.rs:944-978 | what a store makes of the class and the permit |
| RttClass.EighthSampleFreezes | crates/nya-core/src/path.rs:909-930 | the class is unknown for seven samples and the eighth fast value is it |
| RttClass.EstimatesStayWithinSamples | crates/nya-core/src/path.rs:867-907 | all three stay between the least and the greatest sample ever |
| RttClass.UnwindReachesFastIff | crates/nya-core/src/path.rs:962-984 | for samples at any times, a class above a steady fast value meets it exactly when it has the permit and the samples complete as many holds of low time as it needs stores; the permit is gone exactly then; with the permit there is one store per completed hold until it meets, and each lowers the class |
| RttClass.UnwindNeedsStretches | crates/nya-core/src/path.rs:962-985 | the same told from the sample times alone: so many disjoint stretches of a hold each, wherever they lie, are enough, and with fresh timers (with older ones, all but one) they must be there |
| RttClass.UnwindReachesFast | crates/nya-core/src/path.rs:962-985 | samples never more than a gap apart meet the fast value within a hold and two gaps for every store needed |
| RttClass.StoresAreLogarithmic | crates/nya-core/src/path.rs:966-980 | from up to 8 * 2^k microseconds above, at most 8 + 6k stores are needed |
| RttClass.WithoutPermitItStops | crates/nya-core/src/path.rs:962-964 | without the permit it never meets the fast value, and given holds enough stops where it is no longer 8 ms and a quarter above |
| RttClass.MetStaysMet | crates/nya-core/src/path.rs:962-989 | once met the class stays |
| RttClass.ClassFollowsHistory | crates/nya-core/src/path.rs:932-990 | the class is what its history tells without timers: it falls exactly after a hold of low time since the last store or raise-zone sample, and rises exactly after a hold of unbroken high time |
| RttClass.ClassSeesEveryFast | crates/nya-core/src/path.rs:867-907 | every sample moves the fast value and every fast value reaches the class, so a path's class is the one its samples' history tells |
| RttClass.StableFollowsHistory | crates/nya-core/src/path.rs:878-904 | the stable RTT is what its history tells: it rises only while samples have stayed high for the hold |
| AckRegister.PathAcks.MergeAck | crates/nya-core/src/path.rs:778-790 | a row stays only when its offset is greater |
| AckRegister.PathAcks.RestoreAcks | crates/nya-core/src/path.rs:792-796 | merges each in turn |
| AckRegister.PathAcks.TakeAcks | crates/nya-core/src/path.rs:767-771 | takes up to k different rows out |
| AckRegister.PathAcks.FlushAcks | crates/nya-core/src/path.rs:1417-1462 | a batch of eight at most, sent until the first failure; the rest is restored |
| AckRegister.RestoreNeverLowers | crates/nya-core/src/path.rs:777-796 | a restore loses no row, lowers none, and adds only what it was given |
| AckRegister.NewerSurvivesIff | crates/nya-core/src/path.rs:777-786 | when a newer row survives a restore |
| AckRegister.NoAckLost | crates/nya-core/src/path.rs:1304-1313 | over every interleaving the furthest acknowledgement of a stream was sent, is with the writer or is registered |
| AckRegister.DropPutsBack | crates/nya-core/src/path.rs:1304-1313 | dropping the guard puts every unsent row back and lowers none |
| AckRegister.BatchIsWrittenInTurn | crates/nya-core/src/path.rs:1417-1462 | a batch is written row by row, each once, in the order taken |
| AckRegister.TakeMovesRows | crates/nya-core/src/path.rs:767-771 | a batch takes eight rows, or all there are, and between them batch and register have each row once |
| AckRegister.OverwriteKeepsIff | crates/nya-core/src/session/streams.rs:1010-1020 | a plain overwrite keeps the furthest acknowledgement exactly when it is as far or the writer has or had one as far |
| AckRegister.LoweringLosesIt | crates/nya-core/src/session/streams.rs:1010-1020 | a run in which it loses it |
| AckRegister.OpenedWindowCanVanish | crates/nya-core/src/path.rs:1304-1311 | a run that loses an opened window |
| Copier.DirState.PollOnce | crates/nya-core/src/hop.rs:429-503 | one call of the loop and what its answer does |
| Copier.DirState.Poll | crates/nya-core/src/hop.rs:419-504 | a poll runs until something is not ready, fails or all is done |
| Copier.DirState.Ready | crates/nya-core/src/hop.rs:409-417 | bills the wait to its side, in whole microseconds |
| Copier.DirState.Reaped | crates/nya-core/src/hop.rs:537-543 | a reap drops what is buffered and ends the input |
| CopierRuns.CopyTimed.Poll | crates/nya-core/src/hop.rs:525-556 | both directions and the gone event |
| CopierRuns.CopyIsFaithful | crates/nya-core/src/hop.rs:403-504 | over all polls: an in-order prefix is written, read = written + dropped + buffered, calls come in a legal order, waits fit in the elapsed time, all written bytes are flushed before waiting to read and before a shutdown |
| CopierRuns.FinishedCopyIsComplete | crates/nya-core/src/hop.rs:546-556 | on Ok both writers were shut down; each direction wrote all it read, except bytes dropped by a reap |
| CopierRuns.ReadySidesFinish | crates/nya-core/src/hop.rs:419-504 | with both sides ready one poll copies any pieces to the end, flushes and shuts down |
| CopierRuns.OnlyPendingIsBilled | crates/nya-core/src/hop.rs:403-417 | in either direction a side that never pends is billed nothing |
| CopierBills.EveryWaitIsBilled | crates/nya-core/src/hop.rs:403-556 | over all polls, in each direction and for each side, what is billed is the sum of the finished waits that the answers and their times alone show, each in whole microseconds; the answers also decide how the run ends and whether it was reaped |
| CopierBills.StretchIsOneWait | crates/nya-core/src/hop.rs:403-417 | a stretch of not being ready is one wait, from its first moment to the answer, however often asked |
| DialRace.OriginRace.StartOne | crates/nya-core/src/hop.rs:1207-1262 | starts the next address never started, in turn order |
| DialRace.OriginRace.Pop | crates/nya-core/src/hop.rs:1218-1251 | whose turn it is, and when a preference ends |
| DialRace.OriginRace.Head | crates/nya-core/src/hop.rs:1265-1283 | the head of the loop |
| DialRace.OriginRace.LookupDone | crates/nya-core/src/hop.rs:1294-1344 | a lookup ends |
| DialRace.OriginRace.ConnectDone | crates/nya-core/src/hop.rs:1345-1366 | a connect ends |
| DialRace.OriginRace.Tick | crates/nya-core/src/hop.rs:1367-1373 | the spacing timer fires |
| DialRaceStarts.NextIsFirstNew | crates/nya-core/src/hop.rs:1218-1262 | a start takes the first address never started of the preferred family, else of the one not tried last, else of IPv4, else of IPv6, and fails exactly when there is none |
| DialRaceStarts.RaceBegins | crates/nya-core/src/hop.rs:1190-1283 | a race begins with both lookups out and the first seeded address, IPv4 first |
| DialRaceStarts.RefusedStartsNext | crates/nya-core/src/hop.rs:1356-1363 | a refused connect starts the next attempt at once, whatever else is in flight |
| DialRaceStarts.PanicOnlyEnds | crates/nya-core/src/hop.rs:1364 | one that died starts nothing by itself |
| DialRaceStarts.StreamWins | crates/nya-core/src/hop.rs:1347-1355 | the first stream ends the race and drops the other connects |
| DialRaceStarts.TimerStartsNext | crates/nya-core/src/hop.rs:1367-1373 | the timer starts the next attempt |
| DialRaceStarts.LookupStartsIff | crates/nya-core/src/hop.rs:1294-1344 | a lookup starts an attempt exactly when none was started yet or its family is preferred, as it is when the other was tried last |
| DialRaceStarts.FailedLookupOnlyNoted | crates/nya-core/src/hop.rs:1315-1319 | a lookup that fails only leaves its error |
| DialRaceStarts.HeadStartsOrFails | crates/nya-core/src/hop.rs:1265-1283 | with nothing in flight the head starts an attempt, or with no lookup out fails |
| DialRaceStarts.FailureReportsLastError | crates/nya-core/src/hop.rs:1278-1282 | a failed race reports the last error of its run, and no addresses only when there was none |
| DialRaceRuns.EachAddressOnce | crates/nya-core/src/hop.rs:1252-1260 | no address is connected twice; timer starts are a delay apart |
| DialRaceRuns.RaceNeverStalls | crates/nya-core/src/hop.rs:1264-1293 | while racing a lookup is out or a connect in flight |
| DialRaceRuns.ErrorIffAllTriedAndFailed | crates/nya-core/src/hop.rs:1265-1283 | an error exactly when both lookups are done and every address was tried and failed |
| DialRaceRuns.StepDecreases | crates/nya-core/src/hop.rs:1264-1375 | every event lowers (pending lookups, 2 queued + in flight) |
| DialRaceRuns.RaceIsBounded | crates/nya-core/src/hop.rs:1264-1375 | at most two events per lookup and address |
| DialRaceRuns.PreferredGoesFirst | crates/nya-core/src/hop.rs:1218-1237 | a preferred family's first new address is next |
| DialRaceRuns.PreferenceLasts | crates/nya-core/src/hop.rs:1223-1234 | the preference lasts exactly as long as its queue |
| DialRaceRuns.PreferredRunsToItsEnd | crates/nya-core/src/hop.rs:1218-1251 | so its addresses are tried to the end before the other family's |
| DialRaceRuns.LateFamilyGoesTwice | crates/nya-core/src/hop.rs:1325-1337 | a run in which two late addresses go before one that was waiting |
| DialRaceRuns.ArrivingFamilyStartsAtOnce | crates/nya-core/src/hop.rs:1300-1313 | a family arriving second starts at once with its first new address, seeded or found |
| DialRaceRuns.FamiliesAlternate | crates/nya-core/src/hop.rs:1238-1248 | with no preference attempts alternate |
| SessionJoin.Cells.ClearIf | crates/nya-client/src/lib.rs:48-60 | forgets an id only if it is the stored one |
| SessionJoin.Cells.Claim | crates/nya-client/src/lib.rs:188-191 | the compare-exchange |
| SessionJoin.Cells.TakeRole | crates/nya-client/src/lib.rs:186-211 | what a task becomes: it joins a stored id, creates when it wins the flag, and else waits |
| SessionJoin.Cells.Settle | crates/nya-client/src/lib.rs:230-252 | a create ends: the id is stored, or the flag let go |
| SessionJoin.OneCreator | crates/nya-client/src/lib.rs:186-253 | at most one task settles a claim; a stored id means the flag; the flag without an id means exactly one will settle it |
| SessionJoin.RecheckFindsNothing | crates/nya-client/src/lib.rs:193-197 | the look after a won flag never finds an id |
| SessionJoin.ClearSparesNewer | crates/nya-client/src/lib.rs:281-286 | a late unknown-session answer never undoes a newer create |
| SessionJoin.UnknownIdIsForgotten | crates/nya-client/src/lib.rs:281-286 | after an unknown-session answer the task's only next step forgets the id, so it is not the stored one then |
| SessionJoin.CreateEnds | crates/nya-client/src/lib.rs:230-252 | a created id is the one stored, and a failed create gives the flag back |
| SessionJoin.LookJoinsStored | crates/nya-client/src/lib.rs:186-211 | whoever looks joins the stored id |
| SessionJoin.WaitsWhileClaimed | crates/nya-client/src/lib.rs:200-210 | a waiting task that found no id waits on exactly while the flag is set |
| SessionJoin.JoinAnswers | crates/nya-client/src/lib.rs:254-294 | what each answer to a join leaves |
| SessionJoin.CancelledIff | crates/nya-client/src/lib.rs:186-253 | a task is dropped only where it waits, and only once the session is dead |
| SessionJoin.ClearIsForgetThenFinish | crates/nya-client/src/lib.rs:50-60 | the two steps of a clear together are the locked operation |
| SessionJoin.ClearOfOtherIdKeeps | crates/nya-client/src/lib.rs:50-60 | of an id that is not the stored one a clear changes nothing |
| SessionJoin.ClearShutsOthersOut | crates/nya-client/src/lib.rs:40-60 | while a clear is half-way no task looks at the id, stores one or clears |
| SessionJoin.SessionStaysReachable | crates/nya-client/src/lib.rs:186-253 | from every live state some continuation stores an id |
| Codec.DecodeEncodeIff | crates/nya-proto/src/frame.rs:198-391 | a frame survives exactly when its texts fit 16 bits and it has at most eight ranges |
| Codec.TextBack | crates/nya-proto/src/frame.rs:394-399 | a text comes back cut at 65535 bytes, or not at all when that splits a character |
| Codec.AckBack | crates/nya-proto/src/frame.rs:246-259 | an acknowledgement comes back with its first eight ranges |
| Codec.DecodedCanBeSentOn | crates/nya-proto/src/frame.rs:277-391 | everything decoding accepts encodes back to the same frame |
| Codec.OmittedTails | crates/nya-proto/src/frame.rs:299-303 | bodies without the optional tail decode to the defaults |
| Codec.CutFrameIsRefused | crates/nya-proto/src/frame.rs:407-454 | a frame whose fields are all required is refused as truncated at every shorter length |
| Codec.CutFrameReads | crates/nya-proto/src/frame.rs:277-391 | what every cut of every frame reads as: a create or an acknowledgement without its tail when cut exactly there, a close without its offset, data with its beginning, and else truncated |
| FrameVectors.HighestByteFirst | crates/nya-proto/src/frame.rs:198-275 | numbers are big-endian |
| FrameVectors.ProbeFrames | crates/nya-proto/src/frame.rs:202-211 | a ping and a pong on the wire |
| FrameVectors.CreateFrame | crates/nya-proto/src/frame.rs:212-219 | a create on the wire |
| FrameVectors.JoinFrame | crates/nya-proto/src/frame.rs:224-229 | a join |
| FrameVectors.ShortFrames | crates/nya-proto/src/frame.rs:220-235 | the answers to both, an error text and a session close |
| FrameVectors.OpenFrame | crates/nya-proto/src/frame.rs:236-241 | a stream open, port before host |
| FrameVectors.DataFrame | crates/nya-proto/src/frame.rs:242-247 | stream data |
| FrameVectors.AckFrames | crates/nya-proto/src/frame.rs:248-261 | an acknowledgement without and with a range |
| FrameVectors.CloseFrames | crates/nya-proto/src/frame.rs:262-268 | a close without and with a final offset |
| FrameVectors.ResetFrames | crates/nya-proto/src/frame.rs:269-273 | a reset with each reason |
| FrameVectors.FramesAreCounted | crates/nya-proto/src/codec.rs:20-34 | on a connection a frame follows its length in four bytes |
| FrameIo.EncodeFrame | crates/nya-proto/src/frame.rs:198-275 | builds exactly the specified bytes |
| FrameIo.DecodeFrame | crates/nya-proto/src/frame.rs:277-391 | parses every byte string to the specified frame or error |
| FrameIo.Parser.Str | crates/nya-proto/src/frame.rs:450-454 | a counted UTF-8 text, and where the offset ends |
| FrameIo.Parser.Ranges | crates/nya-proto/src/frame.rs:354-362 | the optional selective ranges |
| FrameIo.Wire.ReadFrame | crates/nya-proto/src/codec.rs:8-18 | one frame or error, and the bytes left |
| FrameIo.Wire.WriteFrame | crates/nya-proto/src/codec.rs:20-34 | the length-prefixed frame, or nothing when too long |
| FrameIo.ReadAllWrittenBack | crates/nya-proto/src/codec.rs:8-34 | frames written one after another come back as that list with no byte left |
| FrameIo.DataFitsIff | crates/nya-proto/src/lib.rs:24 | stream data fits exactly up to 16371 bytes |
| FrameIo.BufferAckReadBack | crates/nya-core/src/session/streams.rs:970-976 | an acknowledgement made from any receive buffer is delivered as made |
| HostPort.ParseDisplayIff | crates/nya-proto/src/frame.rs:28-57 | when a printed target parses back |
| CivilDate.CivilFromDays | crates/nya-obs/src/resource.rs:80-92 | the closed form is the calendar's date counted day by day, and gives the day number back |
| CivilDate.FieldsOf | crates/nya-obs/src/resource.rs:74-92 | date and time of day of every second, which give the second back |
| CivilDate.UtcCompact | crates/nya-obs/src/resource.rs:74-94 | the printed stamp reads back to those fields, in sixteen characters up to the year 9999 |
| CivilDate.PrintedForm | crates/nya-obs/src/resource.rs:74-94 | up to the year 9999: four digits of the year, two of everything else, T before the time and Z at the end |
| CivilDate.LaterDayLaterDate | crates/nya-obs/src/resource.rs:80-92 | no two days share a date |
| CivilDate.YearOfEraFits | crates/nya-obs/src/resource.rs:83-84 | the year of the era is the one that holds the day |
| Histogram.Counter.Observe | crates/nya-core/src/metrics.rs:76-87 | the buckets count the samples observed |
| Histogram.Accumulator.MergeAdd | crates/nya-core/src/metrics.rs:121-146 | bucket sums; nothing on a mismatch |
| Histogram.MergeIsConcatenation | crates/nya-core/src/metrics.rs:121-146 | merging is observing both sample lists; the default is the identity |
| Histogram.FindPercentile | crates/nya-core/src/metrics.rs:149-178 | the interpolated value of the hit bucket |
| Histogram.PercentileNearRank | crates/nya-core/src/metrics.rs:149-178 | it lies in the bucket of the sample of that rank in sorted order |
| Histogram.PercentileOfSamples | crates/nya-core/src/metrics.rs:149-178 | from the samples alone: the sample of the least rank that is at least p hundredths of the count, shared out over its bucket by its rank there, to the nearest whole number |
| Histogram.NoPercentileIff | crates/nya-core/src/metrics.rs:152-154 | nothing is reported exactly of no samples or of none asked for |
| Histogram.TopPercentileIsTopBound | crates/nya-core/src/metrics.rs:149-178 | asking for all gives the upper bound of the largest sample's bucket |
| Histogram.PercentileMonotone | crates/nya-core/src/metrics.rs:149-178 | a higher percentage never gives a lower value |

## Left out

- WanRescue.AtRestCompletionIff: asks for a reordering window shorter than the timeout, which holds of any smoothed round trip up to 3.9 seconds (`PacedUpToSeconds`). Of states not at rest, conditions on the state itself go one way each: `CompletionStaysReachable` and `FreeingSaves` save it, `DoomedForGood` does not; the exact condition names the rest to be reached.
- WanProtocol.CompletionStaysReachable: a sufficient condition; the exact one at rest is `AtRestCompletionIff`.
- Budget.Controller.FinishRound: the source's comment re-arms growth after rounds 25 percent under `bw_full` (crates/nya-core/src/path.rs:475-476), its code after rounds 15 percent under (crates/nya-core/src/path.rs:521), as here; float factors are exact fractions, and 64-bit saturation is unbounded arithmetic.
- Failback.PickFromScored: the other preference (interactive picks) and the bulk picks of the scheduler are not modelled; scores saturate at 64 bits as in the source.
- Failback.FastestClassIsTight: thresholds of 1.5 and 0.45 times an RTT are exact fractions, rounded down as the source's casts do; ids are taken to be unique and a class RTT to imply a measured one, as the session keeps them.
- Histogram.FindPercentile: percentages are exact reals and interpolation an exact fraction, so float rounding is not captured.
- RttClass.UnwindReachesFastIff: stated for one hold and a steady fast value above 0, since 0 stands for "not known"; for fast values that move, `ClassFollowsHistory` tells every store.
- Overlay.StreamSender.SendPiece: taking the offset and queueing the piece are one step; budgets, retry timers and the choice of path only delay a step, and are not modelled; window limits are in `FlowControl`.
- Overlay.StreamSender.AckArrived: one acknowledgement is one step; two readers handling acknowledgements at once are not interleaved inside it.
- Overlay.StreamReceiver.Finish: the close notice goes into a channel that may be full; the model records that the side finished, not that the notice was taken.
- OverlayRuns.FinishedMeansComplete: holds for peers that send a final offset; stream resets are not modelled.
- FlowControl.ReceiverMemoryBounded: the order is that of reading the count of unread bytes, which nothing in the source enforces; it is sufficient for the bound over a run, and `OverrunIff` is the exact condition of a state. What an acknowledgement reads as the cap is any number up to the largest cap so far, as the bytes behind a hole any number; how the cap is tuned is any sequence of caps between the start and 64 times it.
- Overlay.StreamReceiver.InsertData: the checks for a close and an end, made before the buffer's lock is taken, and the insertion are one step.
- AckRegister.NoAckLost: for runs whose plain overwrites never go back; `OverwriteKeepsIff` says exactly what one overwrite keeps.
- Copier.DirState.Poll: wakers and the executor are not modelled; the answers of the reader and the writer are a script.
- DialRace.OriginRace.StartOne: sockets, lookups and the address cache are answers and seeds.
- SessionJoin.SessionStaysReachable: the notify and the polling timer are the step that looks again; fairness is not modelled.
- Clocks are numbers that steps carry; atomics and locked sections are single steps; memory orderings are not modelled.
- TLS, pinning, the handshake's cryptography, sockets, `TCP_INFO`, `/proc`, SOCKS and listeners: foreign calls and input or output.
- Metric names, text rendering, exporters, log filters, scenarios and workloads: plumbing with easy members.
