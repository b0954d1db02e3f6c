# Verified model of a SIP voice gateway

This project models the self-contained algorithms inside the gateway and proves what they keep over every run. Each
component is a module. State that the program changes in place is a class whose methods are proved against functions;
the functions carry the laws. Where tasks interleave, the lock-held blocks and atomic operations are steps of a state
machine and the laws hold for every sequence of steps.

- `WavFormat`, `RecorderRuns`, `Recorder`: the call recorder, two channel buffers drained into a WAV file.
- `CapacityFallback`, `CapacityGuard`, `CapacityInterleaving`, `CapacityRefinement`, `CapacityBlocks`: per-trunk call
  limits, timed blocks, and both as small steps of any number of overlapping checks and releases.
- `Playback`, `PlaybackRuns`: the playback fields of a call under the command loop and the event loop.
- `Gateway`: health hysteresis. `RoundRobin`: trunk selection.
- `SortedSets`, `CdrStore`, `CdrPipeline`, `CdrProcessor`: the indexed record store, and the queue with its processor.
- `SdpText`, `Negotiate`: intersecting an SDP answer with an offer, section 6.1 of RFC 3264.
- `Ambiance`: fixed-point resampling and soft mixing. `Dtmf`: telephone events, sections 2.3 and 2.5.1 of RFC 4733.
- `ProcessorChain`: muting and holding by editing a track's processor list.
- `Primitives`, `Arithmetic`, `Media`: shared vocabulary.

`dafny verify dfyconfig.toml` checks the whole project.

## Where the code differs from its documentation or from what one would expect

- `src/capacity/guard.rs:250-251` describes blocks that escalate on repeated violations. `is_blocked` removes the
  expired entry before the next violation can be recorded, so one-at-a-time checks never get past 60 seconds
  (`NeverEscalates`); then the documented term holds for a violation exactly when it is the first
  (`DocumentedIffFirst`). Overlapping checks do escalate. The count stays within the number of checks in flight unless
  an expired entry is renewed between its lookup and its removal, which lets a check slip through an active block
  (`EscalationBounded`), and by that way every count is reached (`EscalationReached`).
- `src/capacity/fallback.rs:42` and `:50` say a background task resets the CPS counters each second. Nothing outside
  the tests calls either reset, so at most the limit of checks ever passes the local CPS gate (`NeverReset`).
- `release_call` lowers the local counter for calls that Redis admitted too. The counter is then below the live calls it
  was raised for, and these can exceed the limit (`ExactIff`, `UncountedReleaseBreaksLimit`).
- `CdrFilter` (`src/cdr/store.rs:21-38`) documents filters that all apply. Only the first of trunk, number and status
  selects an index (`FieldsHonouredIff`). Dates are compared in whole seconds (`RangeHonouredIff`), and the page offset
  is 32-bit arithmetic that comes back to the front for far-off pages (`RightPageIff`).
- Saving a record again with another trunk, number or status leaves its old index entry behind
  (`SaveKeepsConsistentIff`, `StaleEntry`). `RunMembers` says what every sorted set holds after any run, and
  `RunConsistentIff` after which runs the indexes agree with the records.
- `src/cdr/queue.rs:47` calls enqueueing atomic. It is two commands: a detail is stored but not queued exactly while its
  producer stands between them (`UnlistedIffEntering`), and can expire there (`ExpiresUnlisted`).
- Looping music on hold at a track end (`src/call/active_call.rs:516-527`) reads the call's own path, which is never
  set: the refer keeps it in the state of the referred call (`MohNeverLoops`).
- A speech that takes over the SSRC of the running handle can be hung up too early, because an armed hangup names only
  the SSRC. The old track's end arrives before the text is sent (`HangupBeforeSend`), while a second track is created
  (`HangupBeforeItsTrack`), before that is started (`HangupBeforeStart`), after its creation failed
  (`HangupAfterFailure`), or once it has started and carries the text (`HangupByOlderTrack`). Or the text went to the old
  track after its last text, which it reads no more (`HangupUnread`). `OwnTrackIff` says exactly when the hangup comes no
  earlier than the end of the track that was handed the request and still read; plays, refers and speeches with an SSRC
  of their own always meet it. A second track under one SSRC is only ever started for a speech that took the SSRC over
  (`SecondTrackIff`, `AlwaysCarried`).
- A second intersection of an answer with the same offer can drop formats (`SpellingMatters`); `TwiceIsOnceIff`
  says exactly when it changes something.

## Model

Sources are relative to the repository root.

| member | source | states |
|---|---|---|
| WavFormat.FieldRoundTrip16 | src/media/recorder.rs:165-192 | a little-endian 16-bit header field reads back as the value modulo 2^16 |
| WavFormat.FieldRoundTrip32 | src/media/recorder.rs:165-192 | a little-endian 32-bit header field reads back as the value modulo 2^32 |
| WavFormat.SampleRoundTrip | src/media/recorder.rs:493-494 | every 16-bit sample survives being written as two bytes and read back |
| WavFormat.InterleaveRoundTrip | src/media/recorder.rs:462-478 | de-interleaving a mixed block gives sample i of both channels back |
| WavFormat.ColumnAppend | src/media/recorder.rs:491-494 | appending a mixed block to a file of whole frames extends what a player hears on each channel by exactly that channel's samples |
| WavFormat.ColumnIgnoresHeader | src/media/recorder.rs:194-196 | rewriting 44 header bytes in place leaves both channels as they were |
| WavFormat.HeaderRates | src/media/recorder.rs:145-188 | for every payload type the byte rate is rate times channels times bits over eight, and the block one sample of each channel, whole bytes for G.722 |
| WavFormat.FormatRoundTrip | src/media/recorder.rs:171-188 | the format chunk written for any encoding reads back field by field, each cut to its width |
| WavFormat.SizePartsRoundTrip | src/media/recorder.rs:165-169 | the RIFF and data sizes written read back modulo 2^32 between the right chunk tags |
| WavFormat.HeaderRoundTrip | src/media/recorder.rs:142-199 | a reader of the file finds the four chunk tags, the count plus 36 and the count modulo 2^32, and the format fields the header was built from |
| WavFormat.SizesExact | src/media/recorder.rs:165-192 | the two sizes are exact if and only if the byte count plus 36 fits in 32 bits |
| Recorder.WavFile.WriteAll | src/media/recorder.rs:194-196 | writing at the cursor overwrites in place and grows the file only past its end |
| Recorder.MixBuffers | src/media/recorder.rs:462-478 | the mixing loop yields the interleaving of its two equally long buffers |
| Recorder.ExtractSamples | src/media/recorder.rs:396-403 | what is drained and what stays concatenate to the old buffer, and min(size, length) samples are drained |
| Recorder.PopChannel | src/media/recorder.rs:409-443 | one channel gives up its first min(chunk, 160000) samples, padded with zeros to the chunk except in flush mode |
| Recorder.Recorder.UpdateWavHeader | src/media/recorder.rs:142-199 | the file becomes the header for the bytes counted so far followed by its old data, cursor at the end |
| Recorder.Recorder.GetChannelIndex | src/media/recorder.rs:353-368 | a new track takes the next number, a known one keeps its own; the channel is the number modulo two |
| Recorder.Recorder.AppendFrame | src/media/recorder.rs:370-394 | an audible frame extends its channel's buffer and nothing else; any other frame changes nothing |
| Recorder.Recorder.Pop | src/media/recorder.rs:405-455 | always two buffers of equal length, so the assertion in the mixer cannot fail; each holds its buffer's front and then zeros, and the rest stays |
| Recorder.Recorder.WriteAudioData | src/media/recorder.rs:480-497 | both columns of the file grow by exactly the two buffers, four bytes per frame, header untouched |
| Recorder.Recorder.ProcessBuffers | src/media/recorder.rs:499-514 | a tick's block reaches both columns and the byte count stays the length of the data |
| Recorder.Recorder.FlushOnce | src/media/recorder.rs:518-528 | one round of the flush moves min(160000, longer buffer) samples of both channels like a tick of that size |
| Recorder.Recorder.FlushBuffers | src/media/recorder.rs:516-532 | the flush empties both buffers into the file and takes exactly max of the two lengths over 160000, rounded up, plus one pops |
| Recorder.Recorder.TakeEvent | src/media/recorder.rs:334-343 | one branch of the loop is one step of the reference session and leaves the header current |
| Recorder.Recorder.ProcessRecordingWav | src/media/recorder.rs:310-351 | for every order of frames and ticks the finished file is the session's reference run: 44-byte header with the current count at every loop head, each column exactly its channel's audio with only zeros inserted |
| Recorder.Recorder.ProcessRecordingRtp | src/media/recorder.rs:266-308 | the packet path stores all RTP payloads in order behind a header for the first payload type with the final count |
| RecorderRuns.FlushAfterTick | src/media/recorder.rs:516-532 | draining a first block before a flush changes neither what the flush ends with nor, beyond that one, the number of blocks |
| RecorderRuns.RunNumbers | src/media/recorder.rs:353-368 | over every run distinct tracks have distinct numbers below the number of tracks |
| RecorderRuns.ChannelIsForever | src/media/recorder.rs:353-368 | whatever comes later a track keeps the channel it was first given |
| RecorderRuns.PaddedLength | src/media/recorder.rs:416-428 | a zero-padded column is never shorter than its audio and at equal length is the audio itself |
| RecorderRuns.Lossless | src/media/recorder.rs:334-394 | after every run of frames and ticks, file column plus waiting buffer is that channel's audio in order with only zeros inserted |
| RecorderRuns.FlushLossless | src/media/recorder.rs:344-348 | after the final flush nothing waits, each column is its channel's audio with only zeros inserted, and the columns are equally long |
| RecorderRuns.ColumnsAligned | src/media/recorder.rs:339-343 | every tick adds the same number of samples to both columns, so the channels stay aligned |
| CapacityFallback.Counter.CompareExchange | src/capacity/fallback.rs:74 | the exchange succeeds exactly on the expected value and otherwise changes nothing |
| CapacityFallback.LocalCapacityFallback.GetOrCreateCps | src/capacity/fallback.rs:91-103 | an existing binding is returned unchanged, a missing one is made once with a counter nobody shares, at zero |
| CapacityFallback.LocalCapacityFallback.GetOrCreateConcurrent | src/capacity/fallback.rs:105-117 | the same for the call counters |
| CapacityFallback.LocalCapacityFallback.IncrementCps | src/capacity/fallback.rs:29-32 | the trunk's count rises by one and is returned; no other counter moves |
| CapacityFallback.LocalCapacityFallback.IncrementConcurrent | src/capacity/fallback.rs:59-62 | the trunk's call count rises by one and is returned; no other counter moves |
| CapacityFallback.LocalCapacityFallback.DecrementConcurrent | src/capacity/fallback.rs:65-81 | the exchange loop ends with max(0, count - 1) on that trunk and everything else as it was |
| CapacityFallback.LocalCapacityFallback.ResetCps | src/capacity/fallback.rs:43-48 | only that trunk's CPS count becomes zero, and only if it has one |
| CapacityFallback.LocalCapacityFallback.ResetAllCps | src/capacity/fallback.rs:51-56 | every CPS count becomes zero, call counts stay |
| CapacityGuard.CapacityGuard.DoAutoBlock | src/capacity/guard.rs:252-272 | the entry gets its term from the escalations before it and one more escalation; other trunks keep theirs |
| CapacityGuard.CapacityGuard.IsBlocked | src/capacity/guard.rs:276-297 | the active entry is returned; an expired one is removed, if the clock read under the write lock still finds it expired |
| CapacityGuard.CapacityGuard.CheckCapacityLocal | src/capacity/guard.rs:216-248 | answer and new counters are those of the specification: CPS first, block on excess, then the concurrency gate |
| CapacityGuard.CapacityGuard.CheckConcurrent | src/capacity/guard.rs:231-247 | at or above the limit refused with nothing changed, below it one more call, no limit no change |
| CapacityGuard.CapacityGuard.CheckCapacityRedis | src/capacity/guard.rs:169-214 | decides on the counts Redis answers with and touches no local counter; an excess of calls per second blocks; any failed request leaves the decision open and the state alone |
| CapacityGuard.CapacityGuard.CheckCapacity | src/capacity/guard.rs:110-145 | a blocked trunk is answered first; otherwise Redis decides if configured and answering, and else the local counters, on the state the lookup left |
| CapacityGuard.CapacityGuard.ReleaseCall | src/capacity/guard.rs:151-165 | whoever admitted the call, only that trunk's local call count falls, never below zero |
| CapacityGuard.BlockedIffActive | src/capacity/guard.rs:116-125 | a check answers TrunkBlocked if and only if a block is active, and then no counter and no entry changes |
| CapacityGuard.NeverEscalates | src/capacity/guard.rs:276-297 | over every one-at-a-time run, with or without Redis, each stored entry has escalation count 1 and ends 60 seconds after the last violation |
| CapacityGuard.DocumentedIffFirst | src/capacity/guard.rs:250-272 | in one-at-a-time runs the escalating term the documentation gives holds for a violation if and only if it is the trunk's first |
| CapacityGuard.SecondViolationDoesNotEscalate | src/capacity/guard.rs:250-251 | a concrete run with a second violation that is blocked for 60 seconds, not the documented 180 |
| CapacityGuard.DirectEscalation | src/capacity/guard.rs:252-272 | the n-th direct block of a retained entry lasts min(60 * 3^(n-1), 3600) seconds, for n up to 37 |
| CapacityGuard.NoOverflowIff | src/capacity/guard.rs:260-262 | the 64-bit product does not overflow if and only if the entry has at most 36 escalations, and then the term is the documented one |
| CapacityGuard.TermsNonDecreasing | src/capacity/guard.rs:260-262 | terms never shrink while escalating and reach the hour with the fifth block |
| CapacityBlocks.SoloLookup | src/capacity/guard.rs:276-297 | nothing in between, the lookup and removal steps are the guard's own lookup |
| CapacityBlocks.EscalationBounded | src/capacity/guard.rs:252-297 | under k overlapping checks an entry's escalation count is at most k, plus one for each check that slipped through since the block was first made |
| CapacityBlocks.NeverEscalatesAlone | src/capacity/guard.rs:252-297 | with a single check in flight, and any time between its steps, the count never exceeds 1 |
| CapacityBlocks.EscalationReached | src/capacity/guard.rs:252-297 | with two or more checks every escalation count is reached in some interleaving, because an expired entry can be renewed between its lookup and its removal |
| CapacityBlocks.BlocksLast | src/capacity/guard.rs:260-262 | every term lies between a second and an hour, even after the 64-bit product has overflowed |
| CapacityInterleaving.RunBound | src/capacity/fallback.rs:91-117 | whatever interleaves, a trunk stays bound to the counter object it first got and every task holds the bound one |
| CapacityInterleaving.ReleaseIsAtomic | src/capacity/fallback.rs:65-81 | a release takes effect in one step as max(0, count - 1) and its other steps move no counter |
| CapacityInterleaving.RunInv | src/capacity/guard.rs:216-248 | in every interleaving no increment is lost, the call counter is admissions minus effective decrements and at most the live counted calls, and the gates hold their bounds |
| CapacityInterleaving.ConcurrentBounded | src/capacity/guard.rs:231-245 | with k checks in flight the call counter never exceeds max_calls + k - 1 (max_calls itself for k = 1), nor the live calls it was raised for |
| CapacityInterleaving.CpsGateExact | src/capacity/fallback.rs:29-56 | between resets the checks past the CPS gate are exactly min(increments, limit): never more than the limit, none refused early |
| CapacityInterleaving.NeverReset | src/capacity/fallback.rs:42-56 | in a run without resets of the trunk, the checks past its CPS gate over the whole run are min(increments, limit) |
| CapacityInterleaving.ExactIff | src/capacity/guard.rs:151-165 | the counter equals the live locally counted calls throughout a run if and only if no release of an uncounted call lowers it |
| CapacityInterleaving.CountedOnly | src/capacity/guard.rs:151-165 | when every release is for a locally counted call, no decrement is ever taken from another call |
| CapacityInterleaving.LiveCallsBounded | src/capacity/guard.rs:231-245 | then the live calls themselves stay within max_calls + k - 1 |
| CapacityInterleaving.CeilingAttained | src/capacity/guard.rs:231-245 | for every limit and every number of checkers some interleaving reaches max_calls + k - 1, so the bound is exact |
| CapacityInterleaving.UncountedReleaseBreaksLimit | src/capacity/guard.rs:163-164 | one release of a call admitted elsewhere lets the live counted calls exceed max_calls even with a single checker |
| CapacityRefinement.SoloCheck | src/capacity/guard.rs:216-248 | a check that nothing interleaves with gives the answer and the counters of the guard's own check |
| CapacityRefinement.SoloRelease | src/capacity/fallback.rs:65-81 | a release that nothing interleaves with leaves the counters of the guard's own release |
| Playback.ActiveCall.TtsPick | src/call/active_call.rs:1084-1104 | reuses the running SSRC unless there is none or another play id is asked for, in which case an interrupt is due |
| Playback.ActiveCall.DoInterrupt | src/call/active_call.rs:1222-1228 | handle, music on hold and armed hangup are cleared together, nothing else |
| Playback.ActiveCall.TtsArm | src/call/active_call.rs:1113-1128 | arms the picked SSRC, or keeps the old arm only when the same handle goes on, or clears it |
| Playback.ActiveCall.DoPlay | src/call/active_call.rs:1184-1192 | handle cleared and hangup armed for the file's own SSRC in one block |
| Playback.ActiveCall.ReferArm | src/call/active_call.rs:1407-1417 | arms the referred call's SSRC or clears the arm |
| Playback.ActiveCall.TrackEnd | src/call/active_call.rs:487-537 | a stale play id changes nothing; otherwise the play id is taken and the outcome is looping, hangup for a matching SSRC, or nothing |
| PlaybackRuns.AlwaysAgree | src/call/active_call.rs:1084-1154 | at every lock release of every interleaving, handle and armed hangup, when both set, name one SSRC |
| PlaybackRuns.MohNeverLoops | src/call/active_call.rs:516-527 | the call's own music-on-hold path is never set, so its restart at a track end never runs |
| PlaybackRuns.AlwaysStands | src/call/active_call.rs:1113-1128 | an armed hangup is always the request that stands after the history of speeches, plays, refers and interrupts |
| PlaybackRuns.HangupIsForLastArmed | src/call/active_call.rs:529-537 | whenever a track end hangs up, its SSRC is the one armed last, and since then came no interrupt, play, refer or speech on another SSRC |
| PlaybackRuns.AlwaysFresh | src/call/active_call.rs:1166-1166 | plays, refers and speeches that take over no handle use SSRCs no earlier request used, and every SSRC in sight was drawn |
| PlaybackRuns.SupersededStaysSuperseded | src/call/active_call.rs:1106-1128 | a superseded playback hangs up later only if a synthesis command took over the same SSRC and armed it again in between |
| PlaybackRuns.AlwaysDistinct | src/call/active_call.rs:1130-1154 | unless an SSRC was reused, all tracks ever started have distinct SSRCs |
| PlaybackRuns.HangupByItsOwnTrack | src/call/active_call.rs:529-537 | another track with the SSRC of the one that hangs up exists only where a speech that took that SSRC over had the newer of the two started for it |
| PlaybackRuns.AlwaysTraced | src/call/active_call.rs:1130-1154 | every play, refer or speech is under way, handed over or abandoned, exactly one of these; handed over means its text was taken or its track started |
| PlaybackRuns.AlwaysHidden | src/call/active_call.rs:1084-1154 | a request with an SSRC of its own that was not handed over has no track under that SSRC |
| PlaybackRuns.AlwaysBacked | src/call/active_call.rs:1130-1154 | after every run a handle has a track under its SSRC or its own track is about to start, and a speech that takes over goes on under an SSRC that has a track |
| PlaybackRuns.AlwaysCarried | src/call/active_call.rs:1130-1154 | after every run each handed-over request is carried by a track with its SSRC, one with an SSRC of its own by the first such track, which was started for it; a later track under an SSRC was started for a speech that took the SSRC over |
| PlaybackRuns.SecondTrackIff | src/call/active_call.rs:1084-1154 | the track started for a request has an older one under its SSRC if and only if the request is a speech that took that SSRC over |
| PlaybackRuns.HandedOverIff | src/call/active_call.rs:1084-1154 | a track end hangs up for a request that was handed over to some track if and only if it does not arrive while that request's command still sends, creates, shows or starts, nor after its set-up failed; only a speech that took over a running handle's SSRC can be hung up before |
| PlaybackRuns.AlwaysOnce | src/call/active_call.rs:1130-1154 | no request is handed over to two tracks |
| PlaybackRuns.OwnTrackIff | src/call/active_call.rs:1084-1154 | the hangup comes no earlier than the end of a track that was handed the request while still reading if and only if the command is not under way, its set-up did not fail, and the track handed the request is not newer than the one that ends and had not taken its last text; only a speech that took over an SSRC can fail this |
| PlaybackRuns.HangupBeforeSend | src/call/active_call.rs:1130-1133 | a concrete run without reuse in which the old track's end hangs up before the armed text is sent |
| PlaybackRuns.HangupBeforeItsTrack | src/call/active_call.rs:1140-1154 | a concrete run in which it hangs up while the armed speech's own track is being created |
| PlaybackRuns.HangupBeforeStart | src/call/active_call.rs:1953-1954 | a concrete run in which it hangs up when the play id of the second track is written and the track not started |
| PlaybackRuns.HangupAfterFailure | src/call/active_call.rs:1140-1152 | a concrete run in which it hangs up after that creation failed, the arm still standing |
| PlaybackRuns.HangupByOlderTrack | src/call/active_call.rs:499-537 | a concrete run in which the old track's end arrives after the second track started, and hangs up though the second track carries the armed text |
| PlaybackRuns.HangupUnread | src/media/track/tts.rs:414-437 | a concrete run in which the armed text goes to a track that had taken its last text, whose end then hangs up |
| Gateway.GatewayState.CheckThreshold | src/gateway/manager.rs:36-61 | new counters, new status and reported transition are those of the specification |
| Gateway.GatewayManager.AddGateway | src/gateway/manager.rs:89-115 | an unknown transport or a failing store leaves the gateways alone, though the configuration may be stored by then; otherwise the gateway starts Active with zero counters and Active is published |
| Gateway.GatewayManager.RecordHealthResult | src/gateway/manager.rs:166-180 | only the named gateway changes; only a transition is published; a failed write leaves the gateway changed; an unknown name changes nothing |
| Gateway.TrailingIsWindow | src/gateway/manager.rs:36-61 | a window of n equal results ends now if and only if the trailing run is at least n long |
| Gateway.LastWindowIsLast | src/gateway/manager.rs:36-61 | the position computed for the last full window is a window and none ends later |
| Gateway.RunFollowsWindows | src/gateway/manager.rs:36-61 | after any history the status is that of the full window that ended last, and the counter that matters is the trailing run |
| Gateway.DisabledIffFailuresLast | src/gateway/manager.rs:36-61 | starting Active, Disabled if and only if some run of max(failure_threshold, 1) failures ends later than every run of max(recovery_threshold, 1) successes |
| Gateway.UnknownForever | src/gateway/manager.rs:140-156 | a gateway loaded with unknown health never changes status |
| Gateway.TransitionsAlternate | src/gateway/manager.rs:41-58 | reported transitions alternate starting with Disabled, and their parity is the current status |
| Gateway.TransitionsTakeTime | src/gateway/manager.rs:41-58 | n transitions need a full run of failures or successes each, and the running count on top |
| Gateway.DisablesTakeTime | src/gateway/manager.rs:41-58 | the k-th disable needs at least k F + (k - 1) R results |
| RoundRobin.RoutingState.NextRoundRobinIndex | src/call/mod.rs:123-135 | index and new counters are those of the specification, the index below the trunk count |
| RoundRobin.PicksByIndex | src/call/mod.rs:123-135 | a key's i-th pick depends only on where its own counter started, whatever calls for other keys come in between, with whatever trunk counts |
| RoundRobin.WindowCount | src/call/mod.rs:123-135 | among at most n consecutive picks an index occurs once exactly when the walk has passed it |
| RoundRobin.Permutation | src/call/mod.rs:123-135 | any n consecutive picks for a key with n trunks contain every index exactly once, whatever other groups do |
| RoundRobin.FreshCount | src/call/mod.rs:123-135 | from a fresh key an index was picked once per round plus once if the current round has passed it |
| RoundRobin.Balanced | src/call/mod.rs:123-135 | from a fresh key the loads of two indices differ by at most one, the earlier never less, whatever other groups do |
| SortedSets.Descending | src/cdr/store.rs:188-198 | the members in range, each once, higher score first and greater uuid first on ties |
| CdrStore.CdrStore.Zadd | src/cdr/store.rs:78-99 | one member of one sorted set gets a score |
| CdrStore.CdrStore.Zrem | src/cdr/store.rs:135-142 | one member leaves one sorted set, an emptied set goes with it |
| CdrStore.CdrStore.Save | src/cdr/store.rs:68-101 | five commands amount to the record and its entry in exactly its four indexes |
| CdrStore.CdrStore.Get | src/cdr/store.rs:104-114 | the stored record or none |
| CdrStore.CdrStore.Delete | src/cdr/store.rs:120-144 | true exactly for a stored record, which then leaves with the entries of its own fields |
| CdrStore.CdrStore.List | src/cdr/store.rs:150-225 | page, size, the number of members in range, and the records of the slice of the selected index, missing records passed over |
| CdrStore.SharedKeys | src/cdr/store.rs:15-19 | two records share an index key exactly where the field behind it is equal; no two kinds of key collide |
| CdrStore.SavedMembers | src/cdr/store.rs:78-99 | saving changes a sorted set exactly if it is one of the record's four, and there by that one entry |
| CdrStore.DeletedMembers | src/cdr/store.rs:130-142 | deleting changes a sorted set exactly if it is one of the record's four, and there by that one entry |
| CdrStore.SaveKeepsConsistentIff | src/cdr/store.rs:68-101 | a save keeps indexes and records in step if and only if the uuid is new or keeps its trunk, number and status |
| CdrStore.StaleEntry | src/cdr/store.rs:68-101 | otherwise the record stays listed under a field value it no longer has |
| CdrStore.DeleteKeepsConsistent | src/cdr/store.rs:120-144 | a delete always keeps them in step |
| CdrStore.DeleteUndoesSave | src/cdr/store.rs:68-144 | deleting a first save leaves the records and every sorted set as before |
| CdrStore.RunConsistent | src/cdr/store.rs:68-144 | over every run of saves and deletes that never re-saves a uuid with other fields, indexes and records agree |
| CdrStore.RunRecords | src/cdr/store.rs:68-144 | after any run the stored record of a uuid is the last one saved and not deleted since |
| CdrStore.LastUnderStands | src/cdr/store.rs:68-144 | at most one save stands for a record in a sorted set: no later save under the key, no later delete of a record that had the key |
| CdrStore.RunMembers | src/cdr/store.rs:68-144 | after every run, re-saves with other fields included, a uuid is in a sorted set if and only if it was saved under the key and not removed since by a delete whose last saved record has the key, and its score is that of that save |
| CdrStore.RunConsistentIff | src/cdr/store.rs:68-144 | after every run indexes and records agree if and only if whatever still stands in a sorted set belongs there by the fields last saved |
| CdrStore.KeptFieldsNothingStale | src/cdr/store.rs:68-144 | never re-saving a uuid with other fields is enough for that |
| CdrStore.SelectionIsMatching | src/cdr/store.rs:155-198 | on agreeing indexes the selected sorted set, cut by score, is the set of all records that pass the filter |
| CdrStore.ListingMeaning | src/cdr/store.rs:188-216 | the reference listing holds exactly the selected records, each once, newest second first and greater uuid first on ties |
| CdrStore.ListIsSlice | src/cdr/store.rs:150-225 | on agreeing indexes what is listed is a slice of the reference listing and the total is its length |
| CdrStore.PagesTile | src/cdr/store.rs:188-189 | the first k pages together are the listing's first k page sizes, without gap or repeat |
| CdrStore.AllPages | src/cdr/store.rs:188-189 | the rounded-up number of pages covers the listing exactly |
| CdrStore.RightPageIff | src/cdr/store.rs:189-189 | the page asked for is returned if and only if its 32-bit offset does not wrap, or wraps to beyond the end |
| CdrStore.ListedPage | src/cdr/store.rs:68-225 | after any run that leaves nothing stale in the sorted sets, the total is the number of last saved, undeleted records that pass the filter, and the items are the page asked for of them, newest first, if and only if the 32-bit offset does not wrap into the listing |
| CdrStore.FieldsHonouredIff | src/cdr/store.rs:21-38 | the documented field filters all hold for every record if and only if at most one of trunk, number and status is set |
| CdrStore.RangeWidens | src/cdr/store.rs:165-173 | no record in the documented date range is missed; one listed outside it shares its second with the start or the end |
| CdrStore.RangeHonouredIff | src/cdr/store.rs:29-32 | the documented date range is exact if and only if it starts with a second and ends with one, or is empty |
| CdrPipeline.RunInvariant | src/cdr/processor.rs:82-126 | after every interleaving: first in first out order, only genuine records anywhere, and every popped record in one place |
| CdrPipeline.ExactlyOnePlace | src/cdr/processor.rs:82-126 | every pushed record is waiting, in hand, taken by a webhook, on disk or lost, exactly one of these; others are nowhere |
| CdrPipeline.UnlistedIffEntering | src/cdr/queue.rs:47-56 | after any run a stored detail is neither listed nor popped if and only if its producer stands between the two commands |
| CdrPipeline.ExpiresUnlisted | src/cdr/queue.rs:47-56 | a concrete run in which a detail's hour passes before its record was ever in the queue |
| CdrPipeline.WhyLost | src/cdr/processor.rs:82-126 | a lost record is explained: its hour was over, or a load, a webhook listing or a disk write failed, or the processor was cancelled |
| CdrPipeline.NothingLost | src/cdr/processor.rs:82-126 | without failing steps a record whose detail lives is waiting, in hand, delivered or on disk |
| CdrPipeline.DeliveredInOrder | src/cdr/queue.rs:45-82 | webhooks get the records in push order, all deliveries of one before any of the next |
| CdrProcessor.CdrQueue.Enqueue | src/cdr/queue.rs:45-56 | the detail is stored for 3600 seconds and the uuid pushed on the left |
| CdrProcessor.CdrQueue.Dequeue | src/cdr/queue.rs:64-82 | the rightmost uuid goes, and its record is returned only while its detail lives; a failing load loses the entry, a failing pop does not |
| CdrProcessor.CdrProcessor.ProcessOne | src/cdr/processor.rs:82-126 | delivers to every active webhook in order; the record goes to disk exactly if none took it and the write succeeds; a failing pop, load or listing is an error |
| CdrProcessor.ActiveHooksMeaning | src/cdr/processor.rs:88-90 | a webhook is delivered to exactly if it is registered and active |
| CdrProcessor.DiskIffNoneTakes | src/cdr/processor.rs:92-123 | with the webhooks known, the record goes to disk if and only if no active one takes it and the write succeeds, and a webhook gets it if and only if it is active and takes it |
| CdrProcessor.DeliverAll | src/cdr/processor.rs:101-117 | the delivery loop is the run of single delivery steps that appends the accepted deliveries in order |
| CdrProcessor.ProcessOneIsRun | src/cdr/processor.rs:82-126 | one call is a chain of enabled interleaved steps that leaves the processor free and the world as the specification says |
| CdrProcessor.RunContinues | src/cdr/processor.rs:82-126 | a chain of enabled steps after a possible run is a possible run, and ends where the chain does |
| CdrProcessor.ProcessOneInRun | src/cdr/processor.rs:82-126 | after every possible run that leaves the processor free, one call is a longer possible run, so what holds after every run holds after the call |
| SdpText.NumberIsFirstWord | src/media/negotiate.rs:24-30 | the payload type an rtpmap parses with is the first word the attribute filter compares |
| Negotiate.RtpmapText | src/media/negotiate.rs:24-51 | text laid out as type, name, rate and optional channels parses to its parts; only the channel text 2 means two |
| Negotiate.FindRtpmapIsFirst | src/media/negotiate.rs:184-188 | the first rtpmap of a payload type decides its codec |
| Negotiate.SelectedIff | src/media/negotiate.rs:150-201 | a codec is on the peer's list if and only if some format of some section of the kind stands for it, with the rtpmaps of the sections up to there |
| Negotiate.SelectPeerMedia | src/media/negotiate.rs:137-204 | the loops collect the rtpmaps and codecs of all sections of the kind in order (of the record they fill, these two fields) |
| Negotiate.FirstIndex | src/media/negotiate.rs:97-119 | the first position of an element, which does not occur before it |
| Negotiate.PartialStep | src/media/negotiate.rs:97-119 | one comparison of the nested loops keeps the list at exactly the kept formats reached so far, in offer order |
| Negotiate.IntersectFormats | src/media/negotiate.rs:97-119 | the result holds exactly the answer formats whose codec the offer has, by first position in the offer and then in the answer |
| Negotiate.SessionDescription.IntersectAnswer | src/media/negotiate.rs:71-135 | every audio section of the answer is intersected, every other section stays as it was |
| Negotiate.IntersectionIsUnique | src/media/negotiate.rs:97-123 | there is one list with that content and order, without repeats |
| Negotiate.RetainsExactly | src/media/negotiate.rs:126-132 | an rtpmap, fmtp or rtcp-fb survives, as often as it stood there, if and only if its first word is a kept format |
| Negotiate.RetainKeepsOthers | src/media/negotiate.rs:126-132 | all other attributes survive in their order |
| Negotiate.IntersectingTwice | src/media/negotiate.rs:71-135 | with payload types spelled alike in rtpmaps and formats a second intersection changes nothing |
| Negotiate.KeptAgainIff | src/media/negotiate.rs:71-135 | a kept format is kept again if and only if the offer has the codec of the last rtpmap for its payload type that starts with a kept format, or else its static codec |
| Negotiate.TwiceIsOnceIff | src/media/negotiate.rs:71-135 | for every answer a second intersection changes nothing if and only if each kept format still stands for a codec of the offer and these still stand in its order |
| Negotiate.SpellingMatters | src/media/negotiate.rs:71-135 | a concrete answer, format 096 with rtpmap 96, that loses its only format the second time |
| Ambiance.AmbianceProcessor.GetAmbientSampleWithRate | src/media/ambiance.rs:84-100 | returns the source sample under the distance travelled so far and travels one step; the phase ends below 65536 |
| Ambiance.AmbianceProcessor.AdvanceCursor | src/media/ambiance.rs:93-97 | the inner loop ends with the phase below 65536 and the cursor at the travelled position modulo the source length |
| Ambiance.AmbianceProcessor.ReadAll | src/media/ambiance.rs:84-100 | for any sequence of rates the k-th sample is samples[(sum of earlier steps / 65536) mod n] |
| Ambiance.PhaseFits | src/media/ambiance.rs:89-94 | step and phase addition fit in 32 bits for every rate, and one call advances the cursor at most 16000 times |
| Ambiance.TravelledConstant | src/media/ambiance.rs:89-93 | at a constant rate the k-th read happens k steps in |
| Ambiance.NativeRate | src/media/ambiance.rs:84-100 | at the internal rate the source plays sample by sample, around and around |
| Ambiance.NeverWrapsIff | src/media/ambiance.rs:103-117 | mixing stays within 16 bits for all samples if and only if the gain is from -2047 to 2047 |
| Ambiance.ClipsGentlyIff | src/media/ambiance.rs:103-117 | an unclipped mix is the exact sum and a clipped one keeps its sign with magnitude at least 24576, for all samples, if and only if the gain is from -255 to 256 |
| Ambiance.KeepsSignIff | src/media/ambiance.rs:103-117 | clipped mixes keep their sign for all samples if and only if the gain is from -1023 to 1024 |
| Ambiance.LevelStaysUnit | src/media/ambiance.rs:138-144 | levels moving between targets within 0 and 1 stay there, so the gain stays within 0 and 256 |
| Ambiance.AmbianceProcessor.MixInto | src/media/ambiance.rs:154-166 | every whole frame is mixed with one ambient sample per frame, an incomplete last frame stays, no index leaves the buffer |
| Ambiance.AmbianceProcessor.FillEmpty | src/media/ambiance.rs:167-177 | an empty frame becomes 20 ms of ambiance, each sample repeated for every channel |
| Ambiance.AmbianceProcessor.ProcessFrame | src/media/ambiance.rs:121-188 | both branches give the specified frame for all lengths and channel counts; packets and disabled ambiance pass unchanged |
| Ambiance.MixFramesAt | src/media/ambiance.rs:154-166 | sample c of frame i is mixed with the ambient sample of frame i and nothing else |
| Ambiance.ScaledFitsIff | src/media/ambiance.rs:172-173 | the ambiance put into an empty frame never wraps if and only if the gain is from -255 to 256 |
| Dtmf.ParseEncode | src/media/dtmf.rs:37-73 | every event laid out as RFC 4733 section 2.3 says is read back field by field; only events above 15 are refused |
| Dtmf.DtmfDetector.DetectRtp | src/media/dtmf.rs:85-136 | digit and new memory are those of the specification; refused packets leave the memory alone |
| Dtmf.EmitsIff | src/media/dtmf.rs:97-112 | a digit comes out if and only if the packet is valid and the valid packet before it had another event or a greater duration, or there was none |
| Dtmf.InvalidPacketsIgnored | src/media/dtmf.rs:85-112 | digits and memory of any packet run are those of its valid packets alone |
| Dtmf.PressAddsOne | src/media/dtmf.rs:110-112 | a press of non-decreasing durations adds one digit, or none when it joins the event before it |
| Dtmf.PressDigits | src/media/dtmf.rs:110-112 | the number of digits is the number of presses less the merged ones |
| Dtmf.OneDigitPerPressIff | src/media/dtmf.rs:85-136 | one digit per press in order, whatever invalid packets are mixed in, if and only if neighbours differ in event or start below the last duration |
| ProcessorChain.ProcessorChain.InsertProcessor | src/media/processor.rs:69-71 | the new processor comes first |
| ProcessorChain.ProcessorChain.AppendProcessor | src/media/processor.rs:72-74 | the new processor comes last |
| ProcessorChain.ProcessorChain.HasProcessor | src/media/processor.rs:76-81 | true if and only if one of that type is in the chain |
| ProcessorChain.ProcessorChain.RemoveProcessor | src/media/processor.rs:83-86 | the chain without that type, the others in order |
| ProcessorChain.ProcessorChain.MuteTrack | src/media/stream.rs:463-468 | a mute is put in front unless there is one |
| ProcessorChain.ProcessorChain.HoldTrack | src/media/stream.rs:495-503 | any hold is replaced by one in front that is on |
| ProcessorChain.ProcessorChain.ProcessFrame | src/media/processor.rs:88-135 | the loop applies the processors in order and stops at the first failure; an empty chain skips decoding unless forced |
| ProcessorChain.WithoutExactly | src/media/processor.rs:83-86 | removal takes every processor of the type and leaves each other one as often as it stood there |
| ProcessorChain.RunShape | src/media/stream.rs:463-509 | after any mutes, unmutes, holds, resumes, appends and removals the chain is the other processors in order behind at most one mute and one hold, there exactly while muted and held |
| ProcessorChain.PrefixSilences | src/media/stream.rs:477-487 | such a prefix hands the rest of the chain the silenced frame |
| ProcessorChain.RunSilences | src/media/volume_control.rs:118-136 | after any run a muted or held chain does what its other processors do to the silenced frame, and otherwise what they do to the frame |
| ProcessorChain.SilenceMeaning | src/media/stream.rs:477-487 | silenced audio is all zero at unchanged length, a muted frame carries no dynamic payload, and nothing but the samples changes |

## Left out

- Recorder: file errors, creating the file and its directory, and frames still queued when the recording is cancelled.
  The byte counter is unbounded; the header fields are cut to their widths.
- Integer widths: the 64-bit counters of capacity and round robin and the 32-bit counters of gateway health are
  unbounded; `usize` is 64 bits wide. The escalation count is unbounded, its 64-bit product is not.
- Capacity: the counters inside Redis, whose answers are inputs; `max_cps` is the limit already rounded up; the text of
  a block's reason. In `CapacityInterleaving` the block check before a check is not a step, so more runs are covered
  than can occur; block entries have their own steps in `CapacityBlocks`, where a check that was let through may violate
  or not, and limits do not change during a run.
- Playback: media, events and hangup beyond the playback fields; the input timeout loop; the error arm with its
  fallback music; a graceful interrupt; resuming recognition after a refer. A started track can end at any time;
  whether it has spoken all it read by then, and a cancelled track that stops reading, are its own tasks' matter.
- Gateway: loading and removing gateways, the other fields of a configuration, and the last check's time.
- CdrStore: JSON and uuid text. A uuid is the number its fixed-width lower-case text spells, so text order is number
  order; scores are whole seconds, which a double holds exactly. Redis errors, and other clients between the commands of
  one call. The queue's expiring detail keys share the store's prefix; the store is modelled alone.
- CdrPipeline: one processor, and uuids that are not used twice. Delivery to a webhook is one step with either result;
  its retries are not modelled. A webhook is its number; the list of webhooks may differ for every record.
- Negotiate: addresses, ports, rtcp-mux and direction; `prefer_audio_codec`, candidate filtering and hold detection. The
  codec library's two conversions are finite maps. SDP is structured data.
- Ambiance: levels are real numbers, so single-precision rounding is not modelled; products beyond 32 bits, which need a
  gain above 65535; loading the source.
- Dtmf: two packets of one track detected at the same time.
- ProcessorChain: decoding, resampling and mono conversion are one function given to the chain, and the other processors
  one function from processor and frame to result. A processor put in front later, which the program does only for a
  track that has not started, would come before a mute. The map of tracks is not modelled.
- Ambiance.LevelStaysUnit: only for targets within 0 and 1, and without single-precision rounding; what other levels can
  do is covered by `NeverWrapsIff`, `KeepsSignIff` and `ClipsGentlyIff` for every gain.
- Negotiate.SelectPeerMedia: of the record the source fills, only the rtpmaps and the codecs.
- CapacityGuard.CapacityGuard.ReleaseCall: the decrement sent to Redis, whose result the source ignores.
- CapacityGuard.DirectEscalation: only up to the 37th block in a row, after which the product overflows.
- Routing tables, translation, security, registration, HTTP and WebSocket handlers, realtime audio, voice activity and
  noise reduction.
