# Media ingress and low-latency HLS: a verified model

This project models the four stateful components of the repository that carry its hard
promises, and proves those promises over every input, every run or every interleaving.

* **Publish ingress gate** (`src/ingress_authorization.rs`): a registry of control-installed
  bindings with revisions, a guard that ties a capability to one fingerprint, and a 128-wide
  replay window per capability and binding. Requests are interleaved step by step (resolve,
  guard under the first lock, limits and window under the second lock) with each other and
  with `install` and `invalidate`.
  Files: `SequenceWindow`, `BindingRegistry`, `PublishIngress`, `PublishIngressRuns`.
* **fMP4 segmenter** (`src/fmp4_bridge.rs`): video and audio buffers, H.264 configuration
  changes, part cutting, republication of init segments when publishing fails, and an AAC
  clock rebuilt from rounded milliseconds.
  Files: `NaluSamples`, `MediaClock`, `Segmenter`, `SegmenterRuns`, `SegmenterTheorems`,
  `SegmenterPushes`, `SegmenterParts`, `SegmenterSets`, `SegmenterObject`.
* **AEP1 to LL-HLS worker** (`src/audio_epoch_hls.rs`): a dispatcher and one FIFO task per
  rendition with idle retirement and a draining shutdown, each task a continuity-aware byte
  coalescer.
  Files: `OpaquePackaging`, `OpaquePackagingRuns`, `OpaqueCuts`, `OpaqueObjects`, `RenditionWorkers`,
  `RenditionObject`, `RenditionOutput`.
* **Probe client** (`src/bin/aep1-48k-probe.rs`): the eight-deep pipelined part fetcher, its
  coverage bitset and timeline check, the reorder buffer, and the splitter of aggregated
  SoundKit bodies.
  Files: `PartCoverage`, `MediaTimeline`, `ReorderBuffer`, `SoundKitSplit`, `PipelinedFetch`,
  `PipelinedFetchRuns`, `PipelineObject`.

Each component has state functions on immutable values, lemmas about them, and a class whose
methods change fields in place. A class's `Valid()` is the invariant the run lemmas keep, and its
public methods ensure both that and what one call promises. `Common.dfy`
holds fixed-width arithmetic with every saturation and truncation written out. Integers whose
width does not show are unbounded.

## What foreign code is assumed to do

* The token verifier admits a capability through the guard, with limits and an expiry that are
  a function of the capability id. Envelope parsing and conformance are parameters.
* The fMP4 boxer's output is empty or not, and a non-empty one contains an init segment exactly
  when one was asked for. Every publisher call may succeed or fail.
* Framing detection, SPS, ADTS and audio duration decoding are arbitrary functions.
* A SoundKit header has a positive size, and that size depends on the header's own bytes only
  (`SoundKitSplits.PrefixLocal`).

## Where the code does less than its promise

* **At most once.** A frame can be leased twice when request times fall back: purging at a late
  time forgets a window that an earlier time still needs. `PublishIngressRuns.AtMostOnce` holds
  under the hypothesis that no request reaches the sequence lock before an expiry after another
  reached it at or past that expiry; nondecreasing times imply it. `SecondLeaseIffRewound` gives
  the exact condition, and `RewoundClockLeasesTwice` a concrete run. In the same way the capability
  lock forgets a fingerprint: `SecondFingerprintIffRewound` says exactly when a capability passes
  with a second one, and in `RewoundClockSharesCapability` it is leased for two bindings.
* **Configured video.** A backward timestamp jump on an H.264 unit without parameter sets resets
  the segmenter after the unit was noted as video; the next flush boxes it with no configuration.
  `PushKeepsConfiguredIff` is the exact condition on one push, `UnconfiguredResetIsPublished` the
  consequence, `UnconfiguredResetExists` a concrete run.
* **Continuous parts.** A group whose duration exceeds the 32-bit millisecond range is refused
  after the expected presentation time has moved past it, so a part can hold its two neighbours.
  `PackageTearsIff` is the exact condition for one group, `PartsAreContinuousIff` for a run of them
  and `PublishedPartsAreRunsIff` end to end; `SkipThenNextTears` says that the next group in sequence
  always tears, `SkippedGroupTearsPart` publishes such a part. Sample rates from 1000 Hz on never tear.
* **Complete windows.** A part answered before the session began is neither kept nor requested
  again, unless the connection breaks. `HolesAreExactlyLost` is the exact account, `LostIsForever`
  its consequence, `EarlyAnswerLeavesHole` a concrete run. At sequence 2^64 - 1 the counter stands
  still, so that one object is requested again (`LastSequenceRequestedAgain`); all others are
  requested once.
* **Reorder buffer.** The last 64-bit sequence never passes its turn on, so once every sequence up
  to it has arrived its part is decoded on every arrival (`LastSequenceRepeats`,
  `LastSequenceDecodesTwice`). `DeliversOnceInOrderIff` is the exact condition: parts are delivered
  once and in order if and only if some sequence from the first on has not arrived.
* **Checking a SoundKit part.** The check aborts instead of refusing when a header is said to reach
  past the end of the part; `AbortsIffHeaderPastEnd` is the exact condition.

## Model

| member | source | states |
|---|---|---|
| `SequenceWindows.AdmitRefinesSet` | src/ingress_authorization.rs:553-574 | one call admits exactly the sequences that are new and above the highest or fewer than 128 behind it, and the bits go on standing for the admitted set, jumps of 128 and more included |
| `SequenceWindows.RunRefinesSet` | src/ingress_authorization.rs:545-575 | after any calls `highest` is the maximum admitted and bit d says whether `highest - d` was admitted |
| `SequenceWindows.RunAdmitsOnce` | src/ingress_authorization.rs:545-575 | over any calls no sequence is admitted twice, nor the first one again |
| `SequenceWindows.SequenceWindow.First` | src/ingress_authorization.rs:546-551 | a new window stands for its first sequence alone |
| `SequenceWindows.SequenceWindow.Admit` | src/ingress_authorization.rs:553-574 | the fields are updated as the set of admitted sequences requires, and the verdict is membership in that set plus distance |
| `BindingRegistry.EventsKeepValid` | src/ingress_authorization.rs:329-393 | over every control history a stream id names one identity and every entry sits under its own coordinates |
| `BindingRegistry.InstallIff` | src/ingress_authorization.rs:329-364 | installation fails exactly for a stream id in use for another identity, else for coordinates in use; success adds the binding, active, under the next revision, and nothing else |
| `BindingRegistry.InvalidateIff` | src/ingress_authorization.rs:367-393 | invalidation takes effect exactly on an active entry, which becomes inactive under the next revision; no other entry changes |
| `BindingRegistry.CoordinatesAreImmutable` | src/ingress_authorization.rs:345-353 | installed coordinates keep their binding; once revoked they resolve to an error and cannot be installed again, even when revisions saturate |
| `BindingRegistry.RevocationFence` | src/ingress_authorization.rs:395-421 | a resolved revision revalidates after any control history if and only if that history does not invalidate its coordinates |
| `BindingRegistry.PublishBindingRegistry.Install` | src/ingress_authorization.rs:329-364 | the new table, revision and error of an installation; stream-to-identity stays a function |
| `BindingRegistry.PublishBindingRegistry.Invalidate` | src/ingress_authorization.rs:367-393 | only an active entry is fenced, with a new revision; repeated events change nothing |
| `BindingRegistry.PublishBindingRegistry.ResolveKey` | src/ingress_authorization.rs:395-410 | unknown, revoked or the entry |
| `BindingRegistry.PublishBindingRegistry.RevalidateKey` | src/ingress_authorization.rs:412-421 | a stale revision is revoked |
| `PublishIngress.RateCheckIsExact` | src/ingress_authorization.rs:1062-1074 | the saturating 128-bit comparison is the plain inequality 8 * timebase * bytes <= bitrate * ticks, on all inputs |
| `PublishIngress.LeaseIffDeserved` | src/ingress_authorization.rs:942-1112 | a request served alone gets a lease if and only if every demand is met, and is otherwise refused with the code of the first one not met, in the source's order; talkback must be monitor-only mono Opus at 48 kHz; the lease carries the binding, revision, expiry and limits that belong to it |
| `PublishIngress.FingerprintsAgreeIff` | src/ingress_authorization.rs:1003-1015 | two requests look the same to the guard if and only if session, endpoint, edge, operation, coordinates, source, audience and take agree |
| `PublishIngress.RevalidationAnswers` | src/ingress_authorization.rs:897-919 | a lease is refused again for expiry, length, unknown, revoked or re-issued coordinates, whichever comes first |
| `PublishIngress.RefusalConsumesNothing` | src/ingress_authorization.rs:1076-1104 | a refused request leaves every remaining window as it was |
| `PublishIngress.PublishIngressGate.CheckAndAdmitCapability` | src/ingress_authorization.rs:505-531 | purge, capacity, new admission or fingerprint match, in place on the locked map |
| `PublishIngress.PublishIngressGate.ConsumeSequence` | src/ingress_authorization.rs:1076-1112 | purge, capacity, first or next sequence of the window, in place on the locked map |
| `PublishIngress.PublishIngressGate.AuthorizeStrict` | src/ingress_authorization.rs:942-1112 | on the two mutable maps: a lease if and only if every demand is met, the code of the first one unmet otherwise, and a refusal leaves every remaining window as it was |
| `PublishIngress.PublishIngressGate.RevalidateStrict` | src/ingress_authorization.rs:897-919 | expiry, length, then the registry's current revision |
| `PublishIngressRuns.LeaseFence` | src/ingress_authorization.rs:897-919 | after any interleaving a lease revalidates if and only if it is unexpired, the length matches, and its coordinates were not invalidated since its binding was resolved |
| `PublishIngressRuns.LeasesAreSound` | src/ingress_authorization.rs:985-1050 | over all interleavings every lease was issued for an envelope that conforms to its binding, within its capability's channels, with that capability's expiry and datagram limit, and for talkback only as monitor-only mono Opus at 48 kHz |
| `PublishIngressRuns.AnsweredRequestsAreGone` | src/ingress_authorization.rs:1016-1112 | a request refused by the guard, and one that reached its end, holds no ticket any more |
| `PublishIngressRuns.NondecreasingTimesAreInOrder` | src/ingress_authorization.rs:1080-1080 | request times that never go back under the locks meet the hypotheses of the next rows |
| `PublishIngressRuns.AtMostOnce` | src/ingress_authorization.rs:1035-1104 | over every interleaving, no capability, binding and sequence has two leases, although expired windows are purged |
| `PublishIngressRuns.SecondLeaseIffRewound` | src/ingress_authorization.rs:1050-1104 | a frame already leased is leased again if and only if it passes the limits, there is room, and the sequence lock has already seen a time at or past the expiry |
| `PublishIngressRuns.LeaseIffFresh` | src/ingress_authorization.rs:1050-1104 | in order, a request within its limits whose capability and coordinates already have a lease gets one if and only if its sequence was never leased and no leased sequence is 128 or more ahead of it; without an earlier lease, if and only if there is room |
| `PublishIngressRuns.RewoundClockLeasesTwice` | src/ingress_authorization.rs:1080-1080 | a run in which request times fall back leases one frame twice |
| `PublishIngressRuns.OneCapabilityOneBinding` | src/ingress_authorization.rs:505-531 | all leases ever issued under one capability share coordinates and binding |
| `PublishIngressRuns.SecondFingerprintIffRewound` | src/ingress_authorization.rs:505-531 | a capability that passed the guard with one fingerprint passes before its expiry with another if and only if the capability lock has already seen a time at or past the expiry and holds a live record of that other one, or none and has room |
| `PublishIngressRuns.RewoundClockSharesCapability` | src/ingress_authorization.rs:509-509 | a run in which request times fall back leases two bindings under one capability |
| `PublishIngressRuns.CapabilityRateBound` | src/ingress_authorization.rs:1062-1074 | over any leases of one capability, 8 * timebase * total bytes <= bitrate * total ticks |
| `PublishIngressRuns.CapacityBound` | src/ingress_authorization.rs:36-36 | neither locked map ever exceeds 65,536 entries |
| `NaluSamples.ParseInvertsSerialize` | src/fmp4_bridge.rs:1360-1384 | reading back any list of units from their length-prefixed form returns the list |
| `NaluSamples.SerializeParse` | src/fmp4_bridge.rs:1360-1384 | the units of a readable sample serialize to the sample, byte for byte |
| `NaluSamples.PrefixesKeepOrder` | src/fmp4_bridge.rs:1360-1384 | length prefixes sort bytewise as the lengths do, so with the round trip they are big-endian |
| `NaluSamples.FailsIffTruncated` | src/fmp4_bridge.rs:1360-1384 | reading fails with a given error if and only if the sample is whole units followed by that truncated prefix or unit |
| `NaluSamples.StripKeepsMedia` | src/fmp4_bridge.rs:1459-1482 | the stripped sample reads as the original's non-empty units that are not of type 7 or 8, in order (section 7.4.1 of ITU-T H.264) |
| `NaluSamples.MediaOfConcat` | src/fmp4_bridge.rs:1459-1482 | selection goes unit by unit and keeps those that are neither empty nor of type 7 or 8 |
| `NaluSamples.StripIsIdempotent` | src/fmp4_bridge.rs:1459-1482 | stripping twice is stripping once |
| `NaluSamples.StripParameterSets` | src/fmp4_bridge.rs:1459-1482 | the appending loop computes the stripped sample, nothing left, or the first error |
| `MediaClock.TicksToMsInvertsMsToTicks` | src/fmp4_bridge.rs:1266-1286 | every millisecond target survives the trip through ticks |
| `MediaClock.ConversionsAreNearest` | src/fmp4_bridge.rs:1266-1286 | a millisecond is 90 ticks, and ticks become the nearest millisecond |
| `MediaClock.DecodeTimeIsNearest` | src/fmp4_bridge.rs:868-873 | a millisecond time becomes the nearest sample |
| `MediaClock.RunStaysNearInput` | src/fmp4_bridge.rs:861-892 | over any run of one rate every output is one frame after the previous one if that is within 1024 samples of its rounded input, and the input otherwise |
| `MediaClock.RoundingError` | src/fmp4_bridge.rs:868-873 | tick to millisecond to sample rounding moves a position by at most half a millisecond and half a sample |
| `MediaClock.NoDrift` | src/fmp4_bridge.rs:861-892 | for 90 kHz inputs within 800 ticks of the ideal grid at rates up to 96000, output k is exactly 1024 k after the first (section 2.4.3.7 of ISO/IEC 13818-1) |
| `MediaClock.PayloadTicksOnGridIff` | src/fmp4_bridge.rs:2585-2589 | the rounded-up frame durations of one payload stay on that grid exactly as long as their overshoots add up to 800 ticks or less: at any rate, for 800 frames |
| `SegmenterPushes.PushesDoNotDrift` | src/fmp4_bridge.rs:861-916 | through whole pushes, base subtraction and the sample clock: of an ADTS stream on that grid, unit k is taken in with a time exactly 1024 k after the first |
| `SegmenterTheorems.InitDiscipline` | src/fmp4_bridge.rs:972-1134 | over all runs every published part carries an init of its own signature or follows a last published init of that signature |
| `SegmenterTheorems.PartsMatchConfiguration` | src/fmp4_bridge.rs:639-787 | every video unit of a part was buffered under the configuration the part is boxed with, parts are numbered by the boxes before them and fragments by the attempts, modulo 2^32 |
| `SegmenterTheorems.UnitsAreConserved` | src/fmp4_bridge.rs:955-998 | units cut or discarded, then units buffered, are exactly the units taken in, in order; timestamps stay parallel to the buffers |
| `SegmenterTheorems.PushBuffersItsUnit` | src/fmp4_bridge.rs:542-581 | a push takes in its own unit and no other: supported audio always, video at most once |
| `SegmenterPushes.VideoPushTakesIff` | src/fmp4_bridge.rs:542-777 | a video unit is taken in, and with which data and times, if and only if it can be framed, has media, and does not announce a change of configuration it may not bring; audio is untouched |
| `SegmenterTheorems.NormalizedTimes` | src/fmp4_bridge.rs:902-916 | both times of a unit become relative to the session's first unit unless absolute, in ticks for video and in milliseconds for audio, exactly or to the nearest |
| `SegmenterTheorems.NormalizationKeepsOrder` | src/fmp4_bridge.rs:902-916 | units of one kind keep their decode order through base subtraction, scaling and saturation; a session starts at zero; 90 kHz video keeps its composition offset |
| `SegmenterTheorems.FinishEndsAfterLastUnit` | src/fmp4_bridge.rs:918-930 | finishing boxes everything buffered into one part that ends one step after the last decode time, modulo 2^64, the step being the last one seen, at least one tick, or 4500 ticks; it is later if and only if the sum fits 64 bits |
| `SegmenterPushes.StepDiscardsIff` | src/fmp4_bridge.rs:542-637 | exactly which operations discard buffered units: a reset; and without a configuration a finish, a backward jump, a first configuration, or the 181st pending unit |
| `SegmenterPushes.ConfiguredStepsLoseNothing` | src/fmp4_bridge.rs:563-580 | once configured, no video push and no finish discards a unit, nor does audio once video has started; configuration changes and timestamp resets cut first |
| `SegmenterTheorems.AudioOnlyStepsLoseNothing` | src/fmp4_bridge.rs:789-852 | an audio-only stream never discards a unit |
| `SegmenterTheorems.PendingIsBounded` | src/fmp4_bridge.rs:1160-1171 | any push that buffers its unit while a configuration is awaited leaves at most 180 units pending, on the audio path and on the video path |
| `SegmenterTheorems.CutsAreTight` | src/fmp4_bridge.rs:932-946 | over all runs buffered video spans less than the smaller of the part target and two seconds, and a cut before a unit happens if and only if that unit reaches it |
| `SegmenterParts.PushCuts` | src/fmp4_bridge.rs:542-580 | exactly which parts any push cuts: video under a configuration at the part limit, at a replacing configuration or at a backward jump; audio before a unit that lies at the target when durations are unknown, and after the unit that reaches it; with the units, end time, signature and init of each |
| `SegmenterTheorems.AudioTargetIsTight` | src/fmp4_bridge.rs:838-859 | audio-only totals are the sum of durations, stay below the target between operations, and each part reaches it only with its last unit |
| `SegmenterPushes.AudioPushTakes` | src/fmp4_bridge.rs:861-892 | an audio unit is taken in at its normalized time, or for ADTS at the sample clock's time if that is within 1024 samples, and the clock moves on one frame |
| `SegmenterSets.ParseConfigIff` | src/fmp4_bridge.rs:1180-1263 | a sample announces a configuration if and only if it has a parameter set, and then the last sequence set, the last picture set, either perhaps the stored one, and the dimensions the former decodes to |
| `SegmenterSets.PushInstalls` | src/fmp4_bridge.rs:639-787 | a push installs exactly what its sample offers, on a keyframe or when nothing is installed, after a backward jump made it forget; otherwise nothing changes |
| `SegmenterSets.PushStartsOver` | src/fmp4_bridge.rs:697-735 | a push that installs a new configuration leaves an init due, no audio held, and video started if and only if its own unit was buffered |
| `SegmenterSets.RunKeepsSets` | src/fmp4_bridge.rs:639-787 | over all runs the installed sets are a sequence set and a picture set in their places with the dimensions decoded, and so are those of every part |
| `SegmenterTheorems.UnconfiguredCutIff` | src/fmp4_bridge.rs:955-998 | a flush boxes video without a configuration if and only if such video is buffered and `seen_video` is forgotten |
| `SegmenterTheorems.PushKeepsConfiguredIff` | src/fmp4_bridge.rs:554-580 | one push keeps all video configured or expected if and only if it is not a backward jump by an H.264 unit with media and no configuration |
| `SegmenterTheorems.VideoPartsAreConfigured` | src/fmp4_bridge.rs:639-787 | over all runs without such jumps every part with video has a configuration |
| `SegmenterTheorems.UnconfiguredResetIsPublished` | src/fmp4_bridge.rs:563-572 | after such a jump, finishing boxes a video part with no configuration |
| `SegmenterTheorems.UnconfiguredResetExists` | src/fmp4_bridge.rs:563-572 | two plain slices, the second one tick earlier, are such a run |
| `SegmenterObject.Fmp4Segmenter.PushAccessUnit` | src/fmp4_bridge.rs:542-581 | on the fields: what is taken in, what is discarded, what is cut into which parts and what is installed are exactly what is owed; inits stay in order and configured video within the part limit |
| `SegmenterObject.Fmp4Segmenter.Finish` | src/fmp4_bridge.rs:583-585 | the buffers are empty; unless video was expected without a configuration they became one part that ends at the closing time, and nothing was discarded |
| `SegmenterObject.Fmp4Segmenter.ParseH264Config` | src/fmp4_bridge.rs:1180-1263 | the loop over the sample finds exactly what the sample offers |
| `SegmenterObject.Fmp4Segmenter.ApplyH264Config` | src/fmp4_bridge.rs:639-735 | new, unchanged and rejected configurations, with what is flushed and cleared |
| `SegmenterObject.Fmp4Segmenter.InstallH264Config` | src/fmp4_bridge.rs:779-787 | parameter sets, dimensions, signature and flags after an installation |
| `SegmenterObject.Fmp4Segmenter.AcceptVideoUnit` | src/fmp4_bridge.rs:740-777 | waiting for a configuration, waiting for a keyframe, cutting first, or buffering |
| `SegmenterObject.Fmp4Segmenter.AcceptAudioUnit` | src/fmp4_bridge.rs:801-852 | waiting, cutting before the unit, buffering, cutting after it |
| `SegmenterObject.Fmp4Segmenter.TrackAacClock` | src/fmp4_bridge.rs:861-892 | an ADTS unit's times become its place on the sample clock |
| `SegmenterObject.Fmp4Segmenter.NormalizeTimestamps` | src/fmp4_bridge.rs:902-916 | base subtraction and scaling for each kind of input clock |
| `SegmenterObject.Fmp4Segmenter.FlushWithNextDts` | src/fmp4_bridge.rs:955-1150 | nothing, a clearing, or one part with its init and counters |
| `SegmenterObject.Fmp4Segmenter.NoteBoxedPart` | src/fmp4_bridge.rs:1128-1149 | init bookkeeping under publish success and failure, and the two counters |
| `SegmenterObject.Fmp4Segmenter.FinishCurrent` | src/fmp4_bridge.rs:918-930 | the closing decode time from the last two units, modulo 2^64 |
| `SegmenterObject.Fmp4Segmenter.ResetState` | src/fmp4_bridge.rs:606-637 | everything but the part counters is forgotten, and what was buffered counts as discarded |
| `SegmenterObject.Fmp4Segmenter.SetAudioTrackConfig` | src/fmp4_bridge.rs:596-604 | a changed configuration forces a new init |
| `OpaquePackagingRuns.PackagingIsByteExact` | src/audio_epoch_hls.rs:249-289 | whatever the publisher answers, the bytes handed over to it, refused publishes included, then the buffer are exactly the payloads taken, and units add up |
| `OpaquePackagingRuns.PartsAreLabelled` | src/audio_epoch_hls.rs:269-289 | whatever the publisher answers, sequences count from 0, each part has its key's epoch and stream, FLAC at the base, Opus 1000 and PCM 2000 past it, and the bytes, count and total duration of its groups |
| `OpaqueCuts.PartsAreCutLate` | src/audio_epoch_hls.rs:249-257 | for every sequence of packable groups, publishes accepted: parts and buffer hold all groups in order, no part reaches the target before its last group, and one that does not reach it ends where the next group does not follow |
| `OpaqueCuts.PushCutsIff` | src/audio_epoch_hls.rs:249-257 | a packet closes a part if and only if the buffered time with it reaches the target |
| `OpaqueCuts.StepPartsAreDue` | src/audio_epoch_hls.rs:604-707 | whatever the publisher answers, each part a group causes is what was held before or reaches the target with its last group and not before |
| `OpaqueCuts.StepTakesIff` | src/audio_epoch_hls.rs:604-707 | a packable group is taken unless the publisher refuses what was held before it, any other group is not; success is reported exactly for a group taken whose parts were all accepted |
| `OpaqueCuts.PackableIff` | src/audio_epoch_hls.rs:604-707 | packable means content, a rate, frames and channels, and a stream id, end time and nearest-millisecond duration that fit |
| `OpaqueCuts.GroupMsIsNearest` | src/audio_epoch_hls.rs:861-869 | a group counts with its duration to the nearest millisecond, and one at least |
| `OpaqueCuts.StreamIdIs` | src/audio_epoch_hls.rs:773-787 | the stream id of each kind, or none when it does not fit 64 bits |
| `OpaquePackagingRuns.AllPackableTaken` | src/audio_epoch_hls.rs:604-707 | when publishing succeeds the groups taken are exactly the well-formed ones whose stream id, end time and duration fit |
| `OpaquePackagingRuns.AudioRatesFit` | src/audio_epoch_hls.rs:861-869 | from 1000 Hz on every group duration fits |
| `OpaquePackagingRuns.PackageTearsIff` | src/audio_epoch_hls.rs:604-707 | one group leaves only continuous runs, in the parts it causes and in the buffer, if and only if it is not appended at the expected time to a last group that ends elsewhere |
| `OpaquePackagingRuns.TornStaysTorn` | src/audio_epoch_hls.rs:660-707 | a torn buffer stays torn until it is handed over torn |
| `OpaquePackagingRuns.PartsAreContinuousIff` | src/audio_epoch_hls.rs:604-707 | under any publish failures, every part and the buffer are one same-format PTS-contiguous run with no discontinuity flag after its first group if and only if no group of the run tore |
| `OpaquePackagingRuns.SkipThenNextTears` | src/audio_epoch_hls.rs:660-707 | after any group skipped inside a buffer for its duration, the next group in sequence that fits tears it |
| `OpaquePackagingRuns.AudioRatesNeverSkip` | src/audio_epoch_hls.rs:861-869 | from 1000 Hz on no group is skipped so |
| `OpaquePackagingRuns.AudioRatesNeverTear` | src/audio_epoch_hls.rs:861-869 | from 1000 Hz on no run has a group that tears, and the expected time stays the end of the last group held |
| `OpaquePackagingRuns.SkippedGroupTearsPart` | src/audio_epoch_hls.rs:660-707 | of three groups at 1 Hz in sequence, the one part published holds the first and the third |
| `OpaqueObjects.OpaquePartSegmenter.Push` | src/audio_epoch_hls.rs:249-257 | the bytes handed over then the buffer are the old buffer then the packet; a part is handed over if and only if the time with the packet reaches the target |
| `OpaqueObjects.OpaquePartSegmenter.FlushBytes` | src/audio_epoch_hls.rs:269-289 | the buffer is handed over whole in at most one part and emptied, whatever the publish answers |
| `OpaqueObjects.RenditionTable.Package` | src/audio_epoch_hls.rs:604-707 | parts and buffer account for exactly the bytes and units taken; a packable group is missed only where the publisher refused what was held, each new part was held or is due, and success is reported exactly when nothing went wrong |
| `OpaqueObjects.RenditionTable.Finish` | src/audio_epoch_hls.rs:542-547 | the leaving worker has handed over every byte and unit taken |
| `RenditionWorkers.ScheduleIsSequential` | src/audio_epoch_hls.rs:322-473 | on every schedule that reached a stop, each key's output is that of one sequential packager over its history, renewed at each retirement, and that history holds every accepted group in order |
| `RenditionWorkers.WorkersAreHeard` | src/audio_epoch_hls.rs:437-465 | over all schedules the accepted groups are those of published formats that arrived, and a worker's clock stands at the last arrival of its key |
| `RenditionWorkers.SweepRetiresIff` | src/audio_epoch_hls.rs:492-521 | over all schedules a sweep retires a worker if and only if its key was last heard from 30 seconds before or earlier, and passes it on unchanged |
| `RenditionWorkers.WorkersAreAccounted` | src/audio_epoch_hls.rs:492-570 | at every moment a key has at most one worker, live or draining, no queue holds more than 1024 groups, and created = present + retired + stopped |
| `RenditionWorkers.NeverStuck` | src/audio_epoch_hls.rs:466-473 | a blocked dispatcher always has a worker that can move |
| `RenditionWorkers.ReadyTakesGroups` | src/audio_epoch_hls.rs:330-420 | while the dispatcher waits it takes any group until it stops, and sweeps only before a shutdown |
| `RenditionWorkers.ShutdownCompletes` | src/audio_epoch_hls.rs:425-430 | from every reachable state in which the dispatcher waits, a shutdown can be carried through to the stop |
| `RenditionWorkers.StoppedIsFinal` | src/audio_epoch_hls.rs:425-435 | after the stop nothing can happen and no worker is left |
| `RenditionObjects.RenditionDispatcher.Dispatch` | src/audio_epoch_hls.rs:437-465 | a group of a published format is accepted, and its worker is there with its clock at the arrival; no other worker changes; created = present + retired + stopped |
| `RenditionObjects.RenditionDispatcher.Deliver` | src/audio_epoch_hls.rs:466-472 | the group's worker is there, and its queue and history grow by the group |
| `RenditionObjects.RenditionDispatcher.PackageNext` | src/audio_epoch_hls.rs:529-530 | the oldest queued group is packaged, draining or not, and what the key handed over stays that of its history |
| `RenditionObjects.RenditionDispatcher.Leave` | src/audio_epoch_hls.rs:542-547 | a drained worker flushes and leaves |
| `RenditionObjects.RenditionDispatcher.MoveWorkers` | src/audio_epoch_hls.rs:507-512 | the loop moves exactly the given workers, unchanged, out of the table |
| `RenditionObjects.RenditionDispatcher.RetireIdle` | src/audio_epoch_hls.rs:492-521 | exactly the workers not heard from for 30 seconds leave the table and are counted |
| `RenditionObjects.RenditionDispatcher.StopAllWorkers` | src/audio_epoch_hls.rs:556-570 | shutdown closes every queue |
| `RenditionObjects.RenditionDispatcher.FinishJoin` | src/audio_epoch_hls.rs:556-570 | after the last join of a shutdown every key has handed over exactly what one sequential packager makes of its accepted groups |
| `RenditionOutput.ItemsAreByteExact` | src/audio_epoch_hls.rs:523-554 | the sequential packager loses no byte across any number of retirements |
| `RenditionOutput.PublishedBytesAreAcceptedBytes` | src/audio_epoch_hls.rs:322-570 | end to end, after a stop with publishes accepted, a key's published bytes are the payloads of its packable accepted groups in arrival order |
| `RenditionOutput.PublishedPartsAreRunsIff` | src/audio_epoch_hls.rs:604-707 | end to end, on any schedule and under any publish failures, every part of a key is one continuous run if and only if no group of its history tore |
| `RenditionOutput.PublishedAudioPartsAreRuns` | src/audio_epoch_hls.rs:604-707 | end to end, for audio rates every part is one continuous run |
| `PartCoverages.RelativeIff` | src/bin/aep1-48k-probe.rs:1084-1094 | a time has an index if and only if it is that many whole parts after the window's start and inside it |
| `PartCoverages.MarkRepresents` | src/bin/aep1-48k-probe.rs:1095-1100 | setting one bit of one word adds exactly that index, across word boundaries |
| `PartCoverages.PartCoverage.InsertPts` | src/bin/aep1-48k-probe.rs:1084-1103 | succeeds if and only if the time is aligned, inside the window and new; the counter stays the number of covered parts |
| `PartCoverages.PartCoverage.ContainsRelative` | src/bin/aep1-48k-probe.rs:1105-1110 | for any index the answer is membership |
| `PartCoverages.PartCoverage.FirstMissingRelative` | src/bin/aep1-48k-probe.rs:1112-1114 | the least index missing; none if and only if the window is complete |
| `PartCoverages.PartCoverage.FirstPtsMs` | src/bin/aep1-48k-probe.rs:1116-1124 | the time of the least covered index |
| `PartCoverages.PartCoverage.LastPtsMs` | src/bin/aep1-48k-probe.rs:1126-1135 | the time of the greatest covered index |
| `PartCoverages.PartCoverage.NonContiguousPts` | src/bin/aep1-48k-probe.rs:1137-1150 | the number of maximal runs of covered indices less one |
| `MediaTimelines.MediaTimelineCoverage.Insert` | src/bin/aep1-48k-probe.rs:1027-1029 | the first arrival of a sequence is kept |
| `MediaTimelines.MediaTimelineCoverage.Discontinuities` | src/bin/aep1-48k-probe.rs:1031-1062 | the ordered pass counts exactly the neighbours that do not follow each other, then the edge faults of a full timeline |
| `MediaTimelines.FaultsAre` | src/bin/aep1-48k-probe.rs:1031-1062 | each neighbour that does not start where the one before ends counts one; a full timeline also counts one for each end that is missing or more than 5 ms off |
| `MediaTimelines.CleanIffChained` | src/bin/aep1-48k-probe.rs:1031-1062 | a complete timeline is reported clean if and only if its parts chain exactly and both ends are within 5 ms |
| `MediaTimelines.CleanMeansFullLength` | src/bin/aep1-48k-probe.rs:1031-1062 | a clean complete timeline's durations add up to the window length within 10 ms |
| `MediaTimelines.CleanWhileIncomplete` | src/bin/aep1-48k-probe.rs:1043-1043 | before that, a clean report speaks only of neighbours that are present |
| `ReorderBuffers.DeliversOnceInOrderIff` | src/bin/aep1-48k-probe.rs:1337-1349 | after any permutation with duplicates and no decoding failure: the first arrivals of first..next-1 were decoded in order, next is the least not arrived, and exactly the later ones wait, if and only if some sequence from the first on has not arrived |
| `ReorderBuffers.PushTakes` | src/bin/aep1-48k-probe.rs:1337-1349 | a part whose turn is over is ignored; otherwise the first arrival is kept, and from the turn on bodies are decoded one by one up to the first missing or failing one, which alone is gone without its turn passing |
| `ReorderBuffers.EveryTurnArrived` | src/bin/aep1-48k-probe.rs:1337-1349 | with failures, every decoded body still came in under its own turn's sequence, and the turn equals the number decoded up to the greatest sequence |
| `ReorderBuffers.LastSequenceRepeats` | src/bin/aep1-48k-probe.rs:1346-1346 | in any state whose turn is the greatest sequence with nothing of it waiting, its part is decoded on arrival and the turn stays |
| `ReorderBuffers.LastSequenceDecodesTwice` | src/bin/aep1-48k-probe.rs:1346-1346 | a run that decodes one part twice |
| `ReorderBuffers.SoundKitOpusConsumer.PushPart` | src/bin/aep1-48k-probe.rs:1337-1349 | on the mutable map: exactly what is kept, decoded and gone, with the error path; while nothing fails, delivery is in order and complete if and only if some sequence is missing |
| `SoundKitSplits.SplitIffConcatenation` | src/bin/aep1-48k-probe.rs:5170-5218 | splitting succeeds with a list if and only if its members concatenate to the body and each holds exactly the expected frames, reached with its last packet |
| `SoundKitSplits.ValidPartIff` | src/bin/aep1-48k-probe.rs:5220-5263 | a part is accepted if and only if it is made of one or more packets of encrypted 48 kHz Opus in one or two channels, with frames, payload and matching checksums, that last as long as declared |
| `SoundKitSplits.ValidPartFillsExactly` | src/bin/aep1-48k-probe.rs:5220-5263 | a part the probe accepts holds exactly the expected frames |
| `SoundKitSplits.SplitInvertsConcat` | src/bin/aep1-48k-probe.rs:5170-5263 | splitting the concatenation of accepted parts returns them, for every duration whose frame count fits 64 bits, and fails for every other |
| `SoundKitSplits.SplitSoundkitOpusParts` | src/bin/aep1-48k-probe.rs:5170-5218 | the loop over offsets, with each error |
| `SoundKitSplits.AbortsIffHeaderPastEnd` | src/bin/aep1-48k-probe.rs:5230-5240 | checking a part aborts if and only if acceptable packets lead up to a header said to reach past its end |
| `SoundKitSplits.SoundkitOpusPartIsValid` | src/bin/aep1-48k-probe.rs:5220-5263 | the loop over packets accepts exactly such parts, and aborts exactly where the slice is out of range |
| `PipelinedFetches.WindowEndIff` | src/bin/aep1-48k-probe.rs:1952-1988 | the end of the window is the media's or the start plus the seconds asked for, and is accepted if and only if start and end are part boundaries inside the media |
| `PipelinedFetches.WindowEndIsValid` | src/bin/aep1-48k-probe.rs:1952-1988 | an accepted window is aligned, holds at least one part, and its parts fill it exactly |
| `PipelinedFetches.NominalIndex` | src/bin/aep1-48k-probe.rs:4987-4999 | a fetched object is inside the window if and only if fewer than the expected parts precede it, and its coverage index is its distance from the baseline |
| `PipelinedFetches.RefreshIsLeast` | src/bin/aep1-48k-probe.rs:5060-5066 | the refreshed baseline is the least one that is not behind the old one nor behind what the playlist still has; refreshing again changes nothing |
| `PipelinedFetchRuns.BaselineKeepsUp` | src/bin/aep1-48k-probe.rs:3391-3424 | over all runs, once a playlist was consulted before media the baseline is never again behind what it listed |
| `PipelinedFetchRuns.HolesAreExactlyLost` | src/bin/aep1-48k-probe.rs:3177-3452 | over all runs of responses, retries, baseline moves and reconnects, eight requests are in flight while parts are missing, distinct but at the greatest sequence, and requested parts below it neither covered nor in flight are exactly those answered early since the last connection |
| `PipelinedFetchRuns.NoHoleUnlessEarly` | src/bin/aep1-48k-probe.rs:3177-3452 | when nothing is answered early no hole ever opens |
| `PipelinedFetchRuns.FinishedHasWholeWindow` | src/bin/aep1-48k-probe.rs:3198-3201 | as many parts as expected means every part of the window |
| `PipelinedFetchRuns.LostIsForever` | src/bin/aep1-48k-probe.rs:3282-3286 | once a hole is open the window is never complete on that connection |
| `PipelinedFetchRuns.EarlyAnswerLeavesHole` | src/bin/aep1-48k-probe.rs:3282-3286 | a concrete run with a hole |
| `PipelinedFetchRuns.OneConnectionFetchesOnce` | src/bin/aep1-48k-probe.rs:3425-3450 | on one connection nothing in flight below the greatest sequence is already covered |
| `PipelinedFetchRuns.EveryTimelyAnswerCounts` | src/bin/aep1-48k-probe.rs:3262-3286 | on one connection every timely answer inside the window covers its part, and that is one part more unless it is a repeated answer at the greatest sequence |
| `PipelinedFetchRuns.LastSequenceRequestedAgain` | src/bin/aep1-48k-probe.rs:3180-3196 | from the greatest sequence on, all eight requests are for it |
| `PipelinedFetchRuns.BaselineSettles` | src/bin/aep1-48k-probe.rs:3391-3424 | the baseline only moves forward, and not once media has started |
| `PipelinedFetchRuns.MediaKeepsPromise` | src/bin/aep1-48k-probe.rs:3257-3286 | media aborts the fetch exactly when its position does not exist or fit; otherwise a timely part of the window is covered and the next request replaces it |
| `PipelinedFetchRuns.MissingKeepsPromise` | src/bin/aep1-48k-probe.rs:3390-3438 | before media the baseline moves to the least one the playlist still has; a request at or past it is repeated, any other replaced by the next one not before it |
| `PipelinedFetchRuns.BrokenKeepsPromise` | src/bin/aep1-48k-probe.rs:3209-3253 | a new connection requests exactly the eight sequences from the first part missing on |
| `PipelineObjects.PartPipeline.HandleMedia` | src/bin/aep1-48k-probe.rs:3257-3286 | on the fetcher's variables and the bitset: coverage, position and the next request are exactly those owed; eight distinct requests stay in flight while parts are missing, and only lost parts are forgotten |
| `PipelineObjects.PartPipeline.HandleMissing` | src/bin/aep1-48k-probe.rs:3390-3438 | baseline, repeated and replacing requests are exactly those owed, with the same promises |
| `PipelineObjects.PartPipeline.HandleBroken` | src/bin/aep1-48k-probe.rs:3209-3253 | exactly the eight sequences from the first missing part on are in flight, and nothing is lost any more |
| `PipelineObjects.PartPipeline.FillPipeline` | src/bin/aep1-48k-probe.rs:3180-3196 | the filling loop |

## Left out

- Sockets, TLS, QUIC, Tokio channels, logging, metrics text, CLI parsing and file output: plumbing; channels appear as bounded FIFO sequences.
- RaptorQ recovery, MPEG-TS demultiplexing, boxing, SPS bits, ADTS, FLAC and Opus headers, SoundKit headers and token verification: foreign code, present as parameters.
- The local playlist cache in `src/fmp4_bridge.rs:1047-1070`: the publish-only mode is modelled.
- The fMP4 policy of the AEP1 worker in `src/audio_epoch_hls.rs:709-736`: `ScheduleIsSequential` holds for any packaging policy, the byte-level results are for the opaque one.
- The single-request and aggregated tail loops of the probe, playlist parsing, percentiles and signal generation: they add easier members or floating point.
- That the first unit after the very first H.264 configuration is a keyframe, that rendition stream ids are globally unique, and that part sequences are unique across an idle retirement: the code does not ensure them.
- OneCapabilityOneBinding: does not model capability ids reused with other limits, because limits are a function of the id.
- NoDrift: does not cover the last frames before the 64-bit range ends, where the roundings saturate.
- NeverStuck: states that some step of a blocked dispatcher is possible, not that the runtime schedules it.
- PartCoverage.InsertPts: does not model a window so large that the bitset's allocation fails; the constructors rule out the last 63 part counts below 2^64.
- RenditionDispatcher.Deliver: does not model a send to a worker that panicked.
- FinishCurrent: adds the closing decode time with the wrap-around of a release build; a debug build aborts there instead.
