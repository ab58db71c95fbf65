# Verified models of str0m's negotiation, pacing and estimation cores

str0m is a Sans I/O WebRTC engine: every component is a state machine that is driven by
explicit inputs and explicit time. This project models the components where the state is
hardest to get right, and proves what every step keeps and what holds over whole runs.

| Files | What they model |
|---|---|
| `PayloadTypes`, `CodecNegotiation`, `PtUniqueness`, `PtCompletion`, `PtChoices`, `CodecConfig` | payload type (PT) negotiation over a 128-entry claim table |
| `SdpSession`, `SdpSlots`, `SdpCodecs`, `SdpMedias`, `SdpChanges`, `SdpAnswers`, `SdpNegotiation` | m-lines, medias and codecs across offer and answer, pending changes, merging |
| `Channels`, `ChannelRuns`, `ChannelTurns`, `ChannelOpens`, `ChannelHandler` | SCTP stream ids of data channels |
| `PacerQueues`, `ProbeCluster`, `LeakyBucket`, `LeakyBound`, `LeakyOffers`, `LeakyWaits`, `ProbeRuns`, `ProbeCompletion`, `LeakyBucketPacer`, `SessionPacing`, `NullPacer` | pacing and probe clusters |
| `LossWindow`, `LossAccounting`, `LossEstimate`, `LossLikelihood`, `LossController`, `AckedBitrate`, `AckedWindows` | bandwidth estimation |
| `Contiguity`, `Fingerprint`, `FingerprintGrammar` | frame filtering, certificate fingerprints |

Each component comes in two layers. Functions on values say what one call does, and lemmas
about them state the properties, mostly by induction over runs. Classes and methods keep the
code's own form (fields changed in place, loops, early returns) and are proved equal to those
functions, so the properties hold of them too. A panic is the value `Panic` (or `Panicked`),
an error the value `Rejected`; a run continues only from a completed call.

The results that carry the rest:

- PTs: distinct and locked PTs survive every run of updates (`PtCompletion.RunKeepsLocksAndDistinct`);
  when an update completes (`PtCompletion.DemandedUpdate`, `PtCompletion.ControllingNeverPanics`) and
  what every entry then holds (`PtChoices.UpdateSettles`).
- SDP: exactly when an offer or answer is accepted, rejected or panics (`SdpMedias.AcceptedIff`,
  `SdpAnswers.AnswerIff`), and the lines, medias and codecs it leaves (`SdpSlots.AcceptedLinesIff`,
  `SdpMedias.AcceptedMedias`, `SdpCodecs.TakeInVerdict`), over runs (`SdpChanges.RunOfExchanges`,
  `SdpAnswers.ExchangesKeepLocks`).
- Channels: which channel gets which id (`ChannelTurns.AllocationsInTurn`), ids stable and distinct over
  runs (`ChannelRuns.StreamIdsAreStable`), no config lost or opened twice (`ChannelOpens.ConfigsConserved`).
- Pacing: what is sent is bounded by the rate (`LeakyBound.SentIsBounded`), what a timeout offers
  (`LeakyOffers.TimeoutOffers`), announced times are kept (`LeakyWaits.AnnouncedIsOffered`), probe clusters
  are conserved (`ProbeRuns.ProbesConserved`) and end exactly when they have reached their targets
  (`ProbeCompletion.EndedIffReached`), and the null pacer is fair (`NullPacing.Fairness`).
- Estimation: the ring of observations is the plain history (`LossWindow.RunRefines`), which counts every
  packet of the feedback once (`LossAccounting.RunAccounts`); acknowledged rates measure consecutive
  windows (`AckedWindows.SamplesMeasureWindows`).
- Frames: what is emitted is decodable, and what the emitted history allows is emitted
  (`Contiguity.RunIsDecodable`).

Where the code does not meet a promise, a concrete input shows it and the exact condition is
proved:

- Remote PTs that are demands (the remote receives) make `update_params` panic exactly when
  adopting them all would give a locked PT twice (`PtCompletion.DemandedUpdate`); two local
  entries with the same best match are enough (`PtCompletion.DemandClashExample`).
- An accepted SDP leaves the session with the lines of that SDP exactly when the SDP respects
  the slots in use (`SdpSlots.AcceptedLinesIff`). Nothing in the code checks that: a media line
  on the application's slot is accepted (`SdpSlots.SlotClashExample`).
- `ensure_correct_answer` accepts an answer that repeats a mid, and adding the pending changes
  then panics (`SdpChanges.RepeatedMidPanics`). With distinct mids it cannot, and in general it
  does exactly if the answer leaves a pending media out (`SdpChanges.PendingPanicsIff`).
- A live channel can sit on a held stream id (`ChannelRuns.HeldAndLiveExample`), in any run only
  after a remote open of that id while it was held (`ChannelRuns.HeldAndLiveIsRemote`).
- A channel waiting for a negotiated id that another live channel owns keeps the handler
  asking for timeouts (`ChannelRuns.WaitingExample`); nothing else does
  (`ChannelRuns.QuietAfterTimeout`).
- The comment on the loss controller (src/bwe/loss_controller.rs:27-28) says that its estimate is
  bounded by the delay based one. `loss_based_result` skips the bound
  (`LossEstimate.AboveDelayExample`) until the first observation of a run is complete, and keeps
  it from then on (`LossEstimate.BelowDelayOnceObserved`).
- The acknowledged bitrate divides by zero once a sample follows a first sample without bytes
  (`AckedBitrate.EmptyPacketsExample`), and never otherwise (`AckedBitrate.RunDefinedIff`).

Rates, sizes and debts of the pacer are real numbers that its callers never make negative.

## Model

| member | source | states |
|---|---|---|
| `PayloadTypes.FindUnclaimed` | src/format/payload_params.rs:47-63 | the search returns the first PT, in the order of the preferred ranges, that is neither claimed nor unlocked, and fails only if there is none |
| `PayloadTypes.PreferredCount` | src/format/payload_params.rs:13-25 | the preferred ranges hold exactly 87 PTs |
| `PayloadTypes.EnoughFree` | src/format/payload_params.rs:47-63 | pigeonhole: while fewer than 87 PTs are claimed or unlocked the search succeeds |
| `PayloadTypes.AssertClaimOnce` | src/format/payload_params.rs:38-42 | claims a PT in the array, or reports the panic exactly for a PT out of range or claimed already |
| `PayloadTypes.SearchUnclaimed` | src/format/payload_params.rs:47-63 | the two nested loops find the first free PT of the preferred ranges |
| `CodecNegotiation.BestIndex` | src/format/payload_params.rs:600-606 | of several best scores the last one wins, and there is none only if nothing matches |
| `CodecNegotiation.BestMatchIs` | src/format/payload_params.rs:600-606 | the match of an entry is the last remote entry of maximal score, and there is none exactly if nothing scores |
| `PtUniqueness.ClaimLockedResult` | src/format/codec_config.rs:463-477 | the first pass completes if and only if the locked PTs are in range and pairwise distinct, and then claims exactly those |
| `PtUniqueness.LockEntryInv` | src/format/payload_params.rs:719-750 | locking one entry keeps the invariant of the middle pass: settled PTs are distinct and claimed, an unsettled one can clash only while it counts as unlocked |
| `PtUniqueness.LockMatchingInv` | src/format/codec_config.rs:497-504 | the locking pass as a whole keeps that invariant, in either direction |
| `PtUniqueness.ReassignInv` | src/format/codec_config.rs:507-540 | the repair pass settles every slot, so all clashes are gone at its end |
| `PtUniqueness.UpdateKeepsDistinct` | src/format/codec_config.rs:462-541 | distinct main and RTX PTs are distinct again after every completed update, for any scoring, remote list and direction |
| `PtCompletion.RunKeepsLocksAndDistinct` | src/format/codec_config.rs:462-541 | over any run of updates a locked entry keeps PT, RTX PT and lock, and distinct PTs stay distinct |
| `PtCompletion.ReassignKeepsRest` | src/format/codec_config.rs:507-540 | the repair pass changes neither locks nor codecs |
| `PtCompletion.SmallConfigHasRoom` | src/format/codec_config.rs:479-486 | with at most 21 entries claimed plus unlocked PTs stay below 87 |
| `PtCompletion.ControllingNeverPanics` | src/format/codec_config.rs:462-541 | with room and the local side controlling, neither the exhausted ranges nor a double claim is ever reached |
| `PtChoices.ControllingUpdate` | src/format/payload_params.rs:719-749 | with the local side controlling, every matched entry is locked: to the suggested PT unless a formerly locked or earlier slot holds it, else to its own under the same proviso, else to the first preferred PT that is neither held so nor that of an open entry |
| `PtChoices.MovedPtsAreFirst` | src/format/codec_config.rs:507-540 | a completed update moves the PT of an open entry only to the first preferred one that no locked entry holds, no open entry had and no earlier slot took |
| `PtChoices.SpecsMirrored` | src/format/payload_params.rs:593-720 | every entry with a match ends locked with the mirrored codec; without a match neither lock nor codec changes |
| `PtChoices.UpdateAgrees` | src/format/payload_params.rs:703-750 | an open entry with a match is locked to exactly the PTs of its best match where the remote decides, else with the suggestions honoured |
| `PtChoices.UpdateSettles` | src/format/codec_config.rs:462-541 | all of that together for every completed update of distinct PTs |
| `PtCompletion.DemandedLocking` | src/format/payload_params.rs:703-749 | demanded PTs: the locking pass completes if and only if the adopted config has clean locked PTs, and its outcome is that config |
| `PtCompletion.DemandedUpdate` | src/format/codec_config.rs:462-541 | demanded PTs: the whole update completes if and only if the adopted config is clean; an unmatched PT moves exactly when a locked entry owns it |
| `PtCompletion.ReassignMoves` | src/format/codec_config.rs:507-540 | the repair pass moves a PT exactly when it was claimed before the pass |
| `PtCompletion.SharedMatchPanics` | src/format/payload_params.rs:600-606 | two unlocked entries with one best match make a demanded update panic |
| `PtCompletion.DemandClashExample` | src/format/codec_config.rs:492-504 | a concrete config and remote list on which it panics |
| `CodecConfiguration.FindBestMatch` | src/format/payload_params.rs:600-606 | one scan finds the last entry of maximal score, or none exactly if nothing scores |
| `CodecConfiguration.LockPt` | src/format/payload_params.rs:719-729 | claims the remote PT, or a replacement for it, in the array exactly as the value model does |
| `CodecConfiguration.UpdateParam` | src/format/payload_params.rs:593-754 | one entry against the remote list: same entry, claims and unlocked set as the value model, and the same panics |
| `CodecConfiguration.ReassignPt` | src/format/codec_config.rs:513-524 | keeps an unclaimed PT; replaces a claimed one by the first free one in the order of the preferred ranges |
| `CodecConfiguration.ReassignOne` | src/format/codec_config.rs:508-539 | the main PT is kept or becomes the first free one, and the RTX PT follows on what is left |
| `CodecConfiguration.CodecConfig.ClaimLockedPass` | src/format/codec_config.rs:463-477 | the first loop claims what the value model claims, and panics when it does |
| `CodecConfiguration.CodecConfig.LockPass` | src/format/codec_config.rs:497-504 | the second loop changes the entries in place as the value model says |
| `CodecConfiguration.CodecConfig.ReassignPass` | src/format/codec_config.rs:507-540 | the third loop repairs the entries in place as the value model, whose choices `PtChoices.MovedPtsAreFirst` fixes, says |
| `CodecConfiguration.CodecConfig.UpdateParams` | src/format/codec_config.rs:462-541 | the object after an update: locks kept, distinct PTs distinct, codecs mirrored, open matches locked as agreed, and every other PT kept or moved to the first free one |
| `SdpSession.UpdateMediaOutcome` | src/change/sdp.rs:1256-1335 | after a line its slot can be recycled if and only if the line is rejected, the media was stopped, or no payload type ever matched; the local direction answers the remote one except for an inactive media of ours asked to send |
| `SdpSlots.SortSorts` | src/change/sdp.rs:1245-1254 | listing the lines is a permutation of application and medias, ordered by slot |
| `SdpSlots.SortedUnique` | src/change/sdp.rs:1245-1254 | with distinct slots that order is the only one |
| `SdpSlots.SyncStep` | src/change/sdp.rs:1100-1155 | one line of the first loop accounts for its slot: old owner kept, replaced by the new line, or joined by it |
| `SdpSlots.AddLoopAll` | src/change/sdp.rs:1168-1218 | the second loop adds exactly the entries of the collected lines and loses none |
| `SdpSlots.AcceptedSlots` | src/change/sdp.rs:1092-1218 | the entries of the session after an accepted SDP, slot by slot, recycled slots included |
| `SdpSlots.AcceptedLinesIff` | src/change/sdp.rs:946-959 | after an accepted SDP the session's lines are those of the SDP, each at its position, if and only if the SDP respects the slots in use |
| `SdpSlots.LinesMakeWellFormed` | src/change/sdp.rs:1245-1254 | a session whose lines are those of an SDP with distinct mids has slots 0 to n-1 without a clash and distinct mids |
| `SdpSlots.LostWereDisabled` | src/change/sdp.rs:1112-1151 | a media that an accepted SDP takes away was disabled before, and the SDP was an offer with a line on its slot; an answer takes none |
| `SdpSlots.SlotClashExample` | src/change/sdp.rs:1112-1151 | an accepted offer after which a media and the application share slot 0 |
| `SdpCodecs.SyncedNews` | src/change/sdp.rs:1100-1158 | the first loop collects, in order, the media lines whose mid is not in their slot and application lines while there is no application, and touches neither application nor config |
| `SdpCodecs.AddVerdict` | src/change/sdp.rs:1168-1218 | adding new lines panics if and only if the run of updates for their media lines before a second application line does, and succeeds if and only if that run completes and there is no second one |
| `SdpCodecs.TakeInVerdict` | src/change/sdp.rs:946-986 | once its lines fit, an SDP panics if and only if the run of updates for its new media lines does, and when accepted the config is the result of that run |
| `SdpCodecs.LineIsAgreed` | src/change/sdp.rs:1189-1192 | after an accepted SDP, for each new media line every entry that was open before it and matches it is still locked as that line agreed |
| `SdpCodecs.AcceptedKeepsLocks` | src/change/sdp.rs:946-986 | an accepted SDP changes no locked PT and keeps PTs distinct |
| `SdpCodecs.SyncEnds` | src/change/sdp.rs:1092-1162 | the first loop can fail only with an error, never with a panic |
| `SdpMedias.MatchedPtsAre` | src/change/sdp.rs:1325-1335 | the PTs of a line are one for each remote entry that matches, in order: the remote's where the remote receives, else that of the best local entry |
| `SdpMedias.UpdateFollows` | src/change/sdp.rs:1256-1335 | all a line does to its media: stopped if rejected, else direction and PTs answering the line |
| `SdpMedias.SyncFitsIff` | src/change/sdp.rs:1100-1158 | the first loop goes through if and only if every line fits the session as it was: a known media or the application in its slot, a new mid that no kept media has on a slot that is empty or, in an offer, disabled |
| `SdpMedias.AcceptedIff` | src/change/sdp.rs:946-959 | for a well-formed session an SDP is accepted if and only if its lines fit, at most one application line is new and the negotiation of its new lines completes; it panics if and only if they fit and that negotiation panics |
| `SdpMedias.AcceptedMedias` | src/change/sdp.rs:1092-1218 | the medias after an accepted SDP: the known ones as their lines say, then one per new media line, in order, as its line says with the config negotiated so far |
| `SdpChanges.AsNewMedias` | src/change/sdp.rs:1765-1783 | new lines have consecutive indices, one per change that adds a line, however other changes are interleaved |
| `SdpChanges.OfferIsContiguous` | src/change/sdp.rs:837-857 | every line of an offer has the index of its position |
| `SdpChanges.LineIndexIs` | src/change/sdp.rs:1765-1783 | the index of a new line is the start plus the number of line-adding changes before it |
| `SdpChanges.MergedIndexIff` | src/change/sdp.rs:551-612 | a still relevant line keeps its index in the merged offer if and only if as many earlier pending lines dropped out as the session gained in between |
| `SdpChanges.MergeKeepsPositions` | src/change/sdp.rs:551-562 | if the session has not changed, every line of the first offer has its old index in the merged one |
| `SdpChanges.CorrectAnswerCovers` | src/change/sdp.rs:1715-1756 | if the check passes and mids are distinct on both sides, every pending line has an answered line of its mid and type |
| `SdpChanges.PendingSucceeds` | src/change/sdp.rs:1046-1062 | adding pending changes cannot panic when every pending mid is in the session |
| `SdpChanges.PendingMediaIsPresent` | src/change/sdp.rs:961-986 | with distinct mids on both sides an answer that passes the check and whose lines are taken in never panics in the pending changes, for any session |
| `SdpChanges.PendingPanicsIff` | src/change/sdp.rs:961-986 | without that assumption: it panics if and only if some pending media is neither in the session before nor on a media line of the answer |
| `SdpChanges.RepeatedMidPanics` | src/change/sdp.rs:1715-1756 | a concrete answer with a repeated mid that passes the check and then panics |
| `SdpChanges.AnswerLines` | src/change/sdp.rs:961-986 | after an accepted answer the session's lines are those of the answer if and only if the answer respects the slots |
| `SdpChanges.RunOfExchanges` | src/change/sdp.rs:946-986 | over any run mixing accepted offers with answers to own offers, each respecting the slots, slots stay 0 to n-1 without a clash and the session's lines mirror the latest SDP |
| `SdpChanges.SplitConserves` | src/change/sdp.rs:1696-1712 | taking out new channels splits the changes without loss and leaves the new lines as they were |
| `SdpChanges.SplitKeepsOrder` | src/change/sdp.rs:1696-1712 | both parts keep the order of the changes |
| `SdpAnswers.CorrectIff` | src/change/sdp.rs:1715-1756 | with distinct mids on both sides an answer passes the check if and only if its new lines are those the offer asked for, by mid and by media or channel |
| `SdpAnswers.AnswerIff` | src/change/sdp.rs:961-986 | for a well-formed session exactly when an answer is accepted and exactly when it panics, and the config it leaves |
| `SdpAnswers.PendingNames` | src/change/sdp.rs:1046-1062 | every pending media gets the cname promised for it and nothing else changes |
| `SdpAnswers.AnswerMedias` | src/change/sdp.rs:961-986 | the medias after an accepted answer are those its lines make, with the promised cnames |
| `SdpAnswers.RelevantIff` | src/change/sdp.rs:597-612 | a pending change is relevant if and only if it still has something to do; for a direction, if and only if setting it would change the session |
| `SdpAnswers.AnsweredIsDone` | src/change/sdp.rs:597-612 | after an accepted answer none of the lines it answers is relevant, so a merge takes up none of them again |
| `SdpAnswers.MergeInTime` | src/change/sdp.rs:551-562 | an offer merged before the session has changed keeps all lines of the first one in front |
| `SdpAnswers.ExchangesKeepLocks` | src/change/sdp.rs:946-986 | over any run of accepted offers and answers locked PTs never change and distinct PTs stay distinct |
| `SdpNegotiation.RtcSession.SyncOne` | src/change/sdp.rs:1100-1155 | one turn of the loop on the mutable session, recycling by swap-remove included |
| `SdpNegotiation.RtcSession.SyncMedias` | src/change/sdp.rs:1092-1162 | the loop ends with the session and the new lines of the value model, or fails when it fails |
| `SdpNegotiation.RtcSession.SetApp` | src/session.rs:241-253 | sets the application once; later calls must repeat mid and index, and a refused call changes nothing |
| `SdpNegotiation.RtcSession.AddOne` | src/change/sdp.rs:1174-1215 | a new media line panics exactly if its negotiation on the config object does, else leaves its result and opens the media as the line says |
| `SdpNegotiation.RtcSession.AddNewLines` | src/change/sdp.rs:1168-1218 | the loop over new lines ends accepted, with an error or with a panic as the value model does; accepted, one media is open per media line and the config is the result of their negotiations |
| `SdpNegotiation.RtcSession.ApplyOffer` | src/change/sdp.rs:946-959 | accepts exactly the offers whose lines fit and whose negotiation completes, panics exactly where that negotiation does, and leaves its result as config and the medias as the lines say; a clean offer leaves a well-formed session with the lines of the offer |
| `SdpNegotiation.RtcSession.ApplyAnswer` | src/change/sdp.rs:961-986 | the same for an answer, with the check before and the promised cnames after |
| `SdpNegotiation.RtcSession.AddPendingChanges` | src/change/sdp.rs:1046-1062 | the cnames of pending medias are set in place, or the missing media is reported |
| `SdpNegotiation.Changes.TakeNewChannels` | src/change/sdp.rs:1696-1712 | the reverse removal loop returns all new channels, last first, and keeps the rest in order |
| `SdpNegotiation.Changes.EnsureCorrectAnswer` | src/change/sdp.rs:1715-1756 | the nested loops decide exactly whether every answered line matches a pending change by mid and type, and the counts agree |
| `SdpNegotiation.Changes.Merge` | src/change/sdp.rs:551-562 | the relevant pending changes come first, then the new ones |
| `SdpNegotiation.Changes.Retain` | src/change/sdp.rs:597-612 | keeps the relevant changes in order |
| `Channels.LeastFree` | src/channel.rs:331-337 | the search finds the least free id of its parity, and overflows only if all of them are taken |
| `Channels.RemoveFirstCounts` | src/channel.rs:410-414 | a completed reset releases exactly one hold |
| `ChannelRuns.LookupsInverse` | src/channel.rs:241-254 | channel-to-stream and stream-to-channel lookups undo each other |
| `ChannelRuns.AllocationsResult` | src/channel.rs:296-345 | allocation gives out only ids neither live nor held, touches no known id, and leaves a channel waiting only for a negotiated id in use |
| `ChannelTurns.AllocationsInTurn` | src/channel.rs:296-345 | what each channel gets, in order: its negotiated id unless live, held or with an earlier channel, else it waits; without one the least such id of the role's parity |
| `ChannelTurns.EarlierGetsSmaller` | src/channel.rs:331-345 | of two automatic ids given in one pass the channel registered first has the smaller one |
| `ChannelTurns.RegistersIff` | src/channel.rs:198-229 | a channel can be registered if and only if no channel has or has negotiated its id; a held id is no obstacle |
| `ChannelTurns.NegotiatedWaits` | src/channel.rs:316-329 | a channel that negotiates a held id waits for it, and gets it with the first timeout after the hold unless a live or earlier channel has it |
| `ChannelRuns.LeastFreeBound` | src/channel.rs:331-337 | the search never goes past the start plus twice the number of taken ids |
| `ChannelRuns.AutoSearchSucceeds` | src/channel.rs:331-337 | with at most 32767 ids taken the search ends without u16 overflow |
| `ChannelRuns.TimeoutCompletes` | src/channel.rs:256-266 | a timeout does not overflow while twice the channels plus the holds are at most 32768 |
| `ChannelRuns.QuietAfterTimeout` | src/channel.rs:366-372 | after a timeout the handler asks for another one if and only if a channel waits for a negotiated id owned by a live channel |
| `ChannelRuns.StepKeepsWellFormed` | src/channel.rs:198-435 | every call keeps live and negotiated ids distinct and channel ids increasing |
| `ChannelRuns.RunWellFormed` | src/channel.rs:198-435 | so does every run |
| `ChannelRuns.StreamIdsAreStable` | src/channel.rs:198-435 | once known, a channel's stream id never changes, and a removed channel never returns |
| `ChannelRuns.HoldsAreOutstanding` | src/channel.rs:410-435 | if completions never outnumber starts, holds on an id equal resets started minus completed since the association was lost |
| `ChannelRuns.OnlyRemoteOpenTakesHeldIds` | src/channel.rs:374-390 | a call puts a live channel on a held id if and only if it is a remote open of that id |
| `ChannelRuns.HeldAndLiveIsRemote` | src/channel.rs:198-435 | in every run a live channel on a held id got there by a remote open while the id was held |
| `ChannelRuns.HeldAndLiveExample` | src/channel.rs:374-435 | a run of three calls after which a live channel sits on a held id |
| `ChannelRuns.WaitingExample` | src/channel.rs:296-372 | a run after which the handler keeps asking for timeouts: id 0 went to an automatic channel, and another one had negotiated it |
| `ChannelRuns.AutoIdsHaveParity` | src/channel.rs:303-307 | all ids given automatically in a run have the parity of the role |
| `ChannelRuns.PeersNeverCollide` | src/channel.rs:303-337 | in any two runs the ids a client and a server pick never coincide |
| `ChannelOpens.OpenCallsMatch` | src/channel.rs:348-364 | each stream opened is that of the channel whose config it gets |
| `ChannelOpens.ConfigsConserved` | src/channel.rs:231-364 | over every run the number of times a config was confirmed equals the times it was opened, left with its channel, was replaced, or still waits |
| `ChannelOpens.EachConfigInOnePlace` | src/channel.rs:231-364 | if channels are confirmed once, a confirmed config is in exactly one place and nothing else is ever opened |
| `ChannelHandling.ChannelHandler.NewChannel` | src/channel.rs:198-229 | panics exactly if another channel has or has negotiated the same id, held or not; else appends an allocation under a new id |
| `ChannelHandling.ChannelHandler.Confirm` | src/channel.rs:231-238 | panics exactly for an unknown channel; else stores its config |
| `ChannelHandling.ChannelHandler.ChannelIdByStreamId` | src/channel.rs:241-246 | the lookup loop agrees with the value model, and in a well-formed handler its answer is inverted by the other lookup |
| `ChannelHandling.ChannelHandler.StreamIdByChannelId` | src/channel.rs:249-254 | the lookup loop returns the stream id of the first allocation with that channel id, if it has one |
| `ChannelHandling.ChannelHandler.DoAllocations` | src/channel.rs:296-345 | the loop over a growing list of taken ids gives every channel its id in turn, and reports overflow when the value model does |
| `ChannelHandling.ChannelHandler.OpenChannels` | src/channel.rs:348-364 | opens every channel with id and config, in order, and takes exactly those configs |
| `ChannelHandling.ChannelHandler.HandleTimeout` | src/channel.rs:256-266 | allocates, then opens; does nothing before the association is initialised; keeps the handler well formed |
| `ChannelHandling.ChannelHandler.EnsureChannelIdFor` | src/channel.rs:374-390 | afterwards the stream belongs to a channel; well-formedness is kept |
| `ChannelHandling.ChannelHandler.CloseChannel` | src/channel.rs:393-402 | closes the stream of the channel, if it has one, and no other |
| `ChannelHandling.ChannelHandler.StreamResetComplete` | src/channel.rs:410-414 | drops one hold on the id, if there is one |
| `ChannelHandling.ChannelHandler.AssociationLost` | src/channel.rs:418-420 | afterwards no id is held by anyone, so exactly the channels without an id can be given one, and the handler stays well formed |
| `ChannelHandling.ChannelHandler.RemoveChannel` | src/channel.rs:423-435 | removes the channel and holds its id exactly while a reset is pending |
| `PacerQueues.FindFirstMin` | src/pacer/leaky.rs:281-291 | the loop finds the first of the least keys (priority, then last emission, never served first) |
| `PacerQueues.FindLastMax` | src/pacer/leaky.rs:412-416 | the loop finds the last of the greatest keys |
| `LeakyBound.TickPaces` | src/pacer/leaky.rs:78-122 | with steady rate, paced media and no probe or padding, a timeout drains at most what the rate allows and, once something was sent, puts a queue on offer only while the debt is within 40 ms of the rate |
| `LeakyBound.PollPaces` | src/pacer/leaky.rs:124-162 | a packet within 460 ms of the rate is in the debt afterwards, and on top of the old debt if it was offered in time |
| `LeakyBound.WindowRun` | src/pacer/leaky.rs:78-162 | over any run of such actions what was sent is still in the debt or has drained at the rate |
| `LeakyBound.SentIsBounded` | src/pacer/leaky.rs:78-252 | whatever rates, probes and padding went before, from a timeout at which the rate is R and neither probe nor padding rate is left, at most R times (T + 40 ms) plus one packet is sent until a timeout T later, while R stays and only paced media is queued |
| `LeakyBound.PacedReleaseIff` | src/pacer/leaky.rs:270-316 | when only paced media waits, a timeout offers a queue if and only if the drained debt is within 40 ms of the rate, and then the most important, least recently served one |
| `LeakyBound.AdjustedRateDrains` | src/pacer/leaky.rs:353-386 | the rate is the base rate if that empties the queues in the time they have left, else exactly the rate that does, else the maximum |
| `LeakyBound.AdjustedRateIs` | src/pacer/leaky.rs:353-386 | the same from first principles: the base rate is the target of the active probe or the pacing rate, and the time left is what is missing to an average wait of 2 s, at least a millisecond |
| `LeakyBound.PaddingWaitsForDebt` | src/pacer/leaky.rs:318-350 | without a probe, padding is planned for the first moment at which both debts have drained, at least a microsecond ahead, and offers no queue yet |
| `LeakyOffers.FoundIsRight` | src/pacer/leaky.rs:254-351 | which queue is offered from when: the first non-empty one at first, then the longest waiting unpaced one whatever the debt, rate or probes, then the most urgent paced one in its time, else none |
| `LeakyOffers.ProbeDueIff` | src/bwe/probe/cluster.rs:179-203 | a probe is due exactly if it has not begun, or its bytes are not ahead of its rate and its minimal distance has passed |
| `LeakyOffers.PaddingIff` | src/pacer/leaky.rs:400-466 | padding is requested if and only if all queues are empty, one can carry it, and the probe asks for it or both debts are zero at a padding rate; for which queue and how much |
| `LeakyOffers.ProbeAsks` | src/bwe/probe/cluster.rs:244-299 | when a probe asks for padding and for how much: what is left of its target, but no more than its rate between two requests or 240 bytes |
| `LeakyOffers.TimeoutOffers` | src/pacer/leaky.rs:78-122 | a timeout in full: debts drained, rate right, padding exactly when due, and the right queue on offer |
| `LeakyWaits.AnnouncedIsOffered` | src/pacer/leaky.rs:78-122 | a timeout at the announced time leaves a queue on offer if the queues are still the same, for unpaced, paced and probed media |
| `LeakyWaits.PaddingKeepsDistance` | src/pacer/leaky.rs:142-156 | over any run after a packet, no padding outside a probe is requested before the padding rate has made up for the packet or for 500 ms |
| `LeakyWaits.BacklogIsWaiting` | src/pacer/queue.rs:105-107 | the backlog that raises the rate is how long all queued packets have waited, their number and their bytes |
| `ProbeRuns.TimeoutKeepsClusters` | src/pacer/leaky.rs:400-424 | a timeout drops the queued probes exactly when all queues are empty and none can carry padding, and touches no cluster otherwise |
| `ProbeRuns.ProbesConserved` | src/session.rs:335-387 | over every run each started cluster is in exactly one place, in start order: reported as ended once, dropped, parked as completed, or queued |
| `ProbeRuns.SlotNeverOverwritten` | src/pacer/leaky.rs:158-161 | in every run the slot for a completed probe is empty whenever a send may write it |
| `ProbeRuns.PacketsNeedTimeouts` | src/pacer/leaky.rs:124-140 | in any run every packet uses up a timeout of its own |
| `ProbeRuns.OnePacketPerTimeout` | src/session.rs:989-1031 | after a packet no other one leaves before the next timeout, whatever else happens in between |
| `ProbeCompletion.EndedIffReached` | src/pacer/leaky.rs:207-230 | over every run a cluster is reported or parked as ended if and only if the packets sent while it was active have reached its byte and packet targets; a dropped or queued one has not |
| `ProbeCompletion.WorkIsStarted` | src/session.rs:335-387 | the clusters these packets are counted for are those that were started, in order |
| `ProbeCompletion.ReportedReached` | src/pacer/leaky.rs:207-230 | so a reported cluster has reached its targets |
| `LeakyBucketPacing.LeakyBucketPacer.HandleTimeout` | src/pacer/leaky.rs:78-122 | drains the debts, sets the right rate, requests padding exactly when due and puts the right queue on offer: padding, longest waiting unpaced, most urgent paced in its time; the gate is open afterwards, and clusters are kept unless all queues are empty and none can carry padding |
| `LeakyBucketPacing.LeakyBucketPacer.UpdateAdjustedBitrate` | src/pacer/leaky.rs:353-386 | the fold over the queues yields the base rate, or the rate that empties the queues in the time left, and changes nothing else |
| `LeakyBucketPacing.LeakyBucketPacer.CreatePaddingRequest` | src/pacer/leaky.rs:400-466 | requests padding exactly when it is due, for the queue that sent last, a 5 ms burst or what the probe asks for |
| `LeakyBucketPacing.LeakyBucketPacer.NextPollOf` | src/pacer/leaky.rs:254-316 | finds the right queue and time for the offer, unpaced before paced, read only |
| `LeakyBucketPacing.LeakyBucketPacer.PollQueue` | src/pacer/leaky.rs:124-140 | hands out the queue on offer exactly while the gate is open, closes the gate with it, names the oldest cluster still in the queue and asks for a timeout a microsecond later |
| `LeakyBucketPacing.LeakyBucketPacer.RegisterSend` | src/pacer/leaky.rs:142-162 | the packet is in both debts, capped at 500 ms; no cluster is lost or reordered, and the active one is parked exactly if this packet makes it reach its targets |
| `LeakyBucketPacing.LeakyBucketPacer.CheckProbeComplete` | src/pacer/leaky.rs:207-215 | returns the oldest cluster exactly if it is parked, or begun with its targets reached; the others stay in order, and the slot is empty afterwards |
| `SessionPacing.PacedSession.HandleTimeout` | src/session.rs:335-387 | in session order each finished cluster is reported once, in start order, only after what was sent for it reached its targets, and the slot for it is empty when the gate opens |
| `SessionPacing.PacedSession.PollPacket` | src/session.rs:989-1031 | sends at most one packet, only with the gate open, and meets the empty slot that registering a send demands |
| `SessionPacing.PacedSession.SetRates` | src/session.rs:1203-1204 | new rates change neither clusters nor books |
| `SessionPacing.PacedSession.LogIsBounded` | src/session.rs:989-1031 | the rate bound holds for every quiet stretch of what a session has done with its pacer |
| `NullPacing.NullPacer.PollTimeout` | src/pacer/null.rs:37-45 | after a poll the earliest of the last sends, else none |
| `NullPacing.ChoiceIs` | src/pacer/null.rs:59-68 | the choice is the first of the non-empty queues not served for longest, and there is none exactly if all are empty |
| `NullPacing.NullPacer.PollQueue` | src/pacer/null.rs:59-74 | chooses that queue and closes the gate if there is one |
| `NullPacing.NullPacer.Serve` | src/pacer/null.rs:47-79 | a timeout, a poll and the send it leads to are one round of the runs the fairness result is about |
| `NullPacing.AheadShrinks` | src/pacer/null.rs:59-79 | serving another queue strictly shrinks the set of queues that may go before a waiting one |
| `NullPacing.ServedInTime` | src/pacer/null.rs:59-79 | a queue that stays non-empty is chosen within one poll more than there are queues ahead of it |
| `NullPacing.Fairness` | src/pacer/null.rs:59-79 | so it is chosen within as many polls as there are queues |
| `LossAccounting.SummarizeCounts` | src/bwe/loss_controller.rs:919-937 | the totals of a feedback are the number and bytes of its packets and of its lost packets |
| `LossAccounting.StageAccounts` | src/bwe/loss_controller.rs:435-482 | a feedback completes an observation exactly when it takes a stretch beyond 250 ms; the observation counts the packets, bytes and losses of the stretch, and its rate times the duration is their bits |
| `LossAccounting.RunAccounts` | src/bwe/loss_controller.rs:435-482 | over every run the history counts the finished stretches since the last reset one by one, and the staging area the packets after them |
| `LossAccounting.LedgerIsComplete` | src/bwe/loss_controller.rs:214-225 | those stretches and packets are the feedback since the last reset, in order, none lost or counted twice |
| `LossWindow.AddRefines` | src/bwe/loss_controller.rs:477-479 | writing at id mod 15 keeps the ring equal to the latest observations of the history |
| `LossWindow.RunRefines` | src/bwe/loss_controller.rs:214-225 | over every run of feedback and resets the ring is the latest up to 15 observations since the reset, each at its id mod 15 |
| `LossWindow.SlotsInBounds` | src/bwe/loss_controller.rs:803-825 | every initialised slot has an age within the weight table |
| `LossWindow.RingSumIsDecayed` | src/bwe/loss_controller.rs:803-825 | summing any quantity over the ring in slot order equals the decayed fold over the history |
| `LossWindow.RatioOfRun` | src/bwe/loss_controller.rs:803-830 | in every reachable state the loss ratio is the decayed lost bytes over the decayed bytes of the history, within [0, 1]; `LossAccounting.RunAccounts` says what that history counts |
| `LossAccounting.RatioAtTheEnds` | src/bwe/loss_controller.rs:803-830 | the ratio of a run without loss since the last reset is 0, and of one with nothing but loss 1 once the window holds bytes |
| `LossEstimate.InstantBoundOfRun` | src/bwe/loss_controller.rs:776-795 | in every reachable state the high-loss branch is not taken, and the bound is at least 100 kbps / 0.95 if the maximum bitrate is |
| `LossLikelihood.ProbabilityIsShare` | src/bwe/loss_controller.rs:614-634 | the probability is the share of bytes that inherent loss and a limited bandwidth do not let through, kept a millionth off 0 and 1 |
| `LossLikelihood.SlopeSign` | src/bwe/loss_controller.rs:562-612 | the slope is positive, zero or negative as the lost bytes are above, at or below what the probability says |
| `LossLikelihood.CurvatureIsFall` | src/bwe/loss_controller.rs:562-612 | between two candidates the slope falls by the difference of their probabilities times a secant, and the curvature is the secant of a candidate with itself |
| `LossLikelihood.NewtonStep` | src/bwe/loss_controller.rs:549-560 | a step goes three quarters of the way to where the linearised slope vanishes, and then to the nearest feasible loss |
| `LossLikelihood.BoundBalancesLoss` | src/bwe/loss_controller.rs:776-795 | in every reachable state the bound is the maximum up to 5 % loss, and beyond that bound times excess loss is 100 kbps |
| `LossLikelihood.ReportsLeast` | src/bwe/loss_controller.rs:406-433 | something is reported if and only if there is an estimate, and then the least of the limits in force |
| `LossEstimate.ConcaveIffBytes` | src/bwe/loss_controller.rs:562-612 | the second derivative is negative if and only if the window holds bytes; the guarded one always is |
| `LossEstimate.DerivativesOfRun` | src/bwe/loss_controller.rs:562-612 | both derivatives over the ring are decayed folds over the history |
| `LossEstimate.NewtonGoesUphill` | src/bwe/loss_controller.rs:549-560 | a step from a feasible loss moves in the direction of the slope, or stays |
| `LossEstimate.CandidateIsFeasible` | src/bwe/loss_controller.rs:491-560 | every improved candidate has an inherent loss between 0.001 and 1 |
| `LossEstimate.InherentLossStaysFeasible` | src/bwe/loss_controller.rs:229-393 | over every run so does the current estimate, whichever candidates win |
| `LossLikelihood.FeasibleIsNearest` | src/bwe/loss_controller.rs:832-858 | the feasible loss is the point nearest to the loss between 0.1 % and the limit that the bandwidth sets |
| `LossEstimate.BelowDelayOnceObserved` | src/bwe/loss_controller.rs:406-433 | in every run what is reported is at most the delay based estimate, for all estimates, if and only if an observation has been completed, resets included |
| `LossEstimate.AboveDelayExample` | src/bwe/loss_controller.rs:406-418 | before that, twice the delay based estimate is reported for these values |
| `LossControl.LossController.ResetObservations` | src/bwe/loss_controller.rs:214-225 | empties window and staging in place while ids go on counting |
| `LossControl.LossController.SetAlr` | src/bwe/loss_controller.rs:181-198 | resets the window exactly on entering or leaving the application limited region |
| `LossControl.LossController.StageFeedback` | src/bwe/loss_controller.rs:435-482 | returns an observation exactly when the feedback ends a stretch of more than 250 ms, counting the packets of that stretch; what is staged counts those after it |
| `LossControl.LossController.Store` | src/bwe/loss_controller.rs:477-479 | writes the array slot of the id; the array still refines the history |
| `LossControl.LossController.MaybeAddObservation` | src/bwe/loss_controller.rs:435-489 | the object takes the step of both machines, its history still counts the feedback since the last reset stretch by stretch, and a new observation refreshes the cached bound |
| `LossControl.LossController.WeightedSums` | src/bwe/loss_controller.rs:803-825 | the accumulator loop computes the ring sums, with every index in bounds |
| `LossControl.SummarizeAll` | src/bwe/loss_controller.rs:919-937 | one pass counts packets and bytes, and the lost ones among them, and finds the latest send time |
| `LossControl.LossController.AverageReportedLossRatio` | src/bwe/loss_controller.rs:803-830 | returns the decayed lost bytes over the decayed bytes of the history, within [0, 1] |
| `LossControl.LossController.CalculateInstantUpperBound` | src/bwe/loss_controller.rs:776-795 | returns the maximum up to 5 % loss, else the bound whose product with the excess loss is 100 kbps, without reaching the panic of the high-loss branch |
| `LossControl.LossController.ComputeDerivatives` | src/bwe/loss_controller.rs:562-612 | returns both derivatives, the second one negative |
| `LossControl.LossController.NewtonsMethodUpdate` | src/bwe/loss_controller.rs:549-560 | returns the improved candidate, feasible for every valid bandwidth |
| `AckedBitrate.WindowKeepsFilled` | src/bwe/acked_bitrate_estimator.rs:95-136 | a packet with bytes keeps "no bytes, no window", so a sample that comes out is positive |
| `AckedBitrate.BlendBetween` | src/bwe/acked_bitrate_estimator.rs:66-84 | the blended estimate lies between estimate and sample |
| `AckedBitrate.BlendVar` | src/bwe/acked_bitrate_estimator.rs:66-84 | the new variance is non-negative and at most either variance |
| `AckedBitrate.EstimateTracks` | src/bwe/acked_bitrate_estimator.rs:41-89 | a new estimate lies between the old one and the sample, or at the 40 kbps floor, up to rounding up; without a sample nothing changes |
| `AckedBitrate.RunDefinedIff` | src/bwe/acked_bitrate_estimator.rs:41-89 | in every run, empty packets, backward times and gaps included, the estimate is defined if and only if no sample follows a first sample without bytes; it starts with the first sample and from the second on never falls below the floor |
| `AckedBitrate.SamplesArePositive` | src/bwe/acked_bitrate_estimator.rs:95-136 | if all packets have bytes, every sample of the run is positive |
| `AckedBitrate.RunIsDefined` | src/bwe/acked_bitrate_estimator.rs:41-89 | so a run of packets with bytes never divides by zero |
| `AckedBitrate.EmptyPacketsExample` | src/bwe/acked_bitrate_estimator.rs:41-89 | four empty packets that lead to a division by zero |
| `AckedWindows.SamplesMeasureWindows` | src/bwe/acked_bitrate_estimator.rs:95-136 | over every run the samples are the rates of consecutive windows of time: which packets count for which window, across pauses and backward times, and which samples are small |
| `AckedWindows.SmoothIs` | src/bwe/acked_bitrate_estimator.rs:60-89 | a sample moves the estimate to the point where the pulls of estimate and sample, each with its inverse variance, balance, at least 40 kbps and rounded up; precisions add |
| `AckedWindows.UpdateEstimates` | src/bwe/acked_bitrate_estimator.rs:41-89 | the first sample sets the estimate, later ones smooth it, nothing else touches it |
| `AckedBitrateEstimation.AckedBitrateEstimator.UpdateWindow` | src/bwe/acked_bitrate_estimator.rs:95-136 | the object's window after a packet, and its sample, are those of the value model |
| `AckedBitrateEstimation.AckedBitrateEstimator.Update` | src/bwe/acked_bitrate_estimator.rs:41-89 | the first sample sets the estimate and later ones smooth it as the variances say; reports exactly when it divides by zero, and keeps "no bytes, no window" on packets with bytes |
| `Contiguity.FrameContiguityState.NextFrame` | src/packet/contiguity.rs:37-103 | keeps the history of emitted frames decodable, emits a frame with ids exactly when that history allows it, and reports a base frame contiguous exactly when it continues the tl0 id of the last frame others build on |
| `Contiguity.EmitDecides` | src/packet/contiguity.rs:37-103 | two remembered ids decide exactly what the whole emitted history would |
| `Contiguity.RunIsDecodable` | src/packet/contiguity.rs:37-103 | over every run emitted picture ids strictly increase, and an enhancement frame has the tl0 id of its base frame and directly continues what was emitted since |
| `Fingerprints.BytesRoundTrip` | src/crypto/finger.rs:38-70 | non-empty digest bytes survive printing and parsing |
| `Fingerprints.PrintParse` | src/crypto/finger.rs:38-70 | printing then parsing returns the fingerprint if and only if it has bytes and no space in its hash name |
| `Fingerprints.ParsePrintParse` | src/crypto/finger.rs:38-70 | for every accepted string, parsing what was printed from it gives the same fingerprint |
| `FingerprintGrammar.PrintedAs` | src/crypto/finger.rs:39-48 | two upper case hex digits per byte with a colon between any two |
| `FingerprintGrammar.ParseIff` | src/crypto/finger.rs:54-70 | a string parses to a fingerprint if and only if it is a name without space, a space, and hex numbers up to 255 of either case, with a plus sign or without, joined by colons |
| `Fingerprints.Display` | src/crypto/finger.rs:39-48 | the writing loop prints the fingerprint |
| `Fingerprints.FromStr` | src/crypto/finger.rs:54-70 | the reading loop accepts and returns exactly what the parser does |

## Left out

- Codec match scoring and the mirroring of H.265 and H.266 format parameters: both are function parameters (`Matcher`), and every PT result holds for any of them.
- Feedback flags of payload parameters (only carried along), default codec tables and `has_pt`.
- Rates, sizes and durations in the pacer and the loss controller are reals: no rounding to bytes, bits or nanoseconds, and no floating point error.
- Times in the acknowledged bitrate estimator and the loss window are whole microseconds.
- The objective function with its logarithm, the choice of candidate bandwidths, the hold and ramp-up states and the final bandwidth in `update_bandwidth_estimate`: the chosen candidate and all bandwidths are inputs of a run.
- AckedBitrateEstimation.AckedBitrateEstimator.Update: where it divides by zero the estimate it leaves, a floating point artefact, is not modelled.
- In `update_media`: RIDs, simulcast, extension maps and send streams.
- SDP text parsing, the structural check `assert_consistency`, ICE, DTLS, SNAP and session attributes.
- The state left behind by a negotiation that fails or panics: results are about accepted SDPs.
- SdpNegotiation.RtcSession.AddPendingChanges: of what a pending media carries only the cname is set; msid, SSRCs and send streams are not modelled, because they touch no line.
- SdpSlots.SortSorts: the stable library sort is modelled as a stable insertion sort.
- SdpChanges.PendingMediaIsPresent: leaves aside panics inside PT negotiation, which `SdpAnswers.AnswerIff` brings in.
- A stream id search past 65535 is a panic, as in a build with overflow checks; a wrapping build would behave differently.
- Of a channel config only the name and the negotiated id are modelled; SCTP itself is the list of calls made to it.
- When the estimator starts a probe, and when a polled stream has a packet, are inputs of a session run; NACK, RTCP and TWCC work in the session are not modelled.
- The pacer's log lines and statistics, and the reason given with a timeout.
- SRTP, RTP and RTCP encoding, depacketizers, the delay controller and everything outside the files cited above.
