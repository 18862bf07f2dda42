# Verification of the recon monitor's analysis core

Dafny models of the parts of the application that decide what an analysis
reads, what it stores and what it may activate, with proofs of the properties
those parts are built for. `dafny verify dfyconfig.toml` checks everything.

Code that changes state step by step is a class or a method with loops, proved
against a specification function; what the code promises is then proved about
those functions, about every step of a state machine, or about every run.

## What is modelled

* **Versioned analysis inputs** (`SnapshotForm`, `ArtifactPins`,
  `SnapshotStore`, `InputSelection`, `AnalysisInputs`). An append-only version
  table with a head per (run, scope), canonical payloads, artifacts pinned in a
  content-addressed store, the merge of target snapshots, the choice between
  capture, merge, head and explicit revision, and the overlay of temporary
  tables. Storing is three steps (compare the head, pin, commit), so the runs
  interleave the steps of any number of clients with garbage collection. The
  database is a class; its methods are proved equal to the specification.
* **Calibration** (`Thresholds`, `CalibrationBins`). A finite candidate search
  that must be optimal over all thresholds, the score bins and their lookup,
  and the relation of calibration error to the Brier score.
* **Change guidance** (`Wilson`, `ChangeGuidance`, `PolicyValuesAndDiffs`,
  `PolicyProposals`, `ConcurrentProposals`). Wilson intervals over the reals,
  two adjacent rating windows, the gate that joins the reports, and the proposal
  life cycle, whose single writes are the steps and whose operations are runs of
  them; then the same operations of any number of callers, their reads and
  writes interleaved.
* **Balanced selection** (`BalancedSelection`): quotas per source and a
  confidence-ordered top-up.
* **Text search** (`Utf8`, `TextSearch`): an incremental decoder for section 3
  of RFC 3629 and a chunked search with a carried tail.
* **Stop protocol** (`StopProtocol`): one server, any number of stop clients
  and status calls, one control file, one API record; every file operation is
  one step.
* **Baselines** (`BaselineIntegrity`, `BehavioralBaselines`): review,
  recovery, refresh and repair of scan baselines; binding of an analysis to an
  earlier one.
* **Evidence and gates** (`CandidateMerge`, `EvidenceGrouping`,
  `ActivationGate`, `ReplayIngestion`): incremental merging against a batch
  form, grouping by provenance, readiness of labelled records, and the reading
  of replay files.

`CaptureLaws`, `CalibrationLaws`, `GuidanceLaws`, `ProposalLaws`, `SelectionLaws`
and `GateLaws` say what the specification functions mean without naming them: by
start times, positions, and numbers of records, ratings and rows.

`Options`, `Ordering`, `FirstSeen`, `SortedSets`, `Decimals` and `Reals` hold
what several modules share: Python's tuple order with a stable sort,
`list(dict.fromkeys(s))`, `sorted(set(s))`, numbers as texts, and the order of
squares.

Abstract functions stand for what the code calls and these models do not look
into: JSON text, SHA-256, `strip`/`lower`/`casefold`, `round`, `math.sqrt`. What
is needed of them is written out where it is used: `SnapshotForm.Sound` (JSON
text determines its value, reading undoes writing, digests have no collisions, no
line breaks, blanks or capitals), `ReplayIngestion.Ordinary`, `TextSearch.Idempotent`,
`Wilson.IsRoot`.

## Where the code does less than one might expect

Each of these is a lemma with a concrete history, beside the exact condition
under which the expected property holds.

* Two clients that check the head before either commits store one payload twice;
  neighbouring revisions differ exactly when the head is not what is committed
  (`RaceStoresTwice`, `CommitKeepsNeighbours`).
* Two payloads share an owner key if and only if the heads of their scopes nest
  (`PrefixesOverlap`); names on one line never do (`PlainNamesAreApart`). A
  target's name is free text, and a target named like another one, a line break
  and a digest loses a stored script to it (`WhenPinsCollide`,
  `NestedNamesLoseArtifact`).
* A racing client can overwrite the acknowledgement of a stop, and then no
  client is ever told (`RaceLosesAcknowledgement`, `LostRun`);
  `AcknowledgementSurvives` says from which states it stays in every run.
* The record of a new start can be removed between comparing and unlinking
  (`ReplacementRace`); `ForeignRemoval` and `ForeignRemovalRuns` say from which
  states.
* A NUL byte hides a match from the text search if and only if the query occurs
  only in or after the chunk that carries it (`FoundInFile`, `ZeroHidesMatch`);
  `WhenCutsMatter` says when the way a file is cut matters.
* A ready packet can rest on fewer than ten ratings when the calibration report
  reads fewer rows than the drift report (`MismatchedLimits`);
  `WhichLimitsGuaranteeTen` says for which limits it cannot.
* Nothing re-checks what a proposal operation read before it writes. In an
  interleaving versions stay chained and accepted versions frozen if and only if
  every write meets a condition on the table it finds
  (`WhenInterleavingsAreOrderly`; `StaleUpdate` and `StaleInsert` for single
  writes). Five histories break them: a stale submit (`StaleSubmitUnchains`), a
  stale accept (`StaleAcceptUnchains`), a submit between the two writes of a
  create (`StaleInsertUnchains`), and an accepted version put under review again
  or superseded (`StaleSubmitThawsAccepted`, `StaleAmendThawsAccepted`).
  Re-checking the state in the write itself would do
  (`RecheckedWritesAreHarmless`).
* A run row that comes after analyses of its run can turn a chain of baselines
  round (`LateRowsTurnChain`); `WhenRowsFit` says which rows do not.
* After a recovery the next review flags the run's rows again, refreshed ones
  included (`RefreshedRowIsFlaggedAgain`); `WhatFlags` and `StaysUnflagged` say
  which steps and histories flag a row.
* The state stored with a candidate is chosen before its scores are merged;
  `StateFitsScores` says when it still fits them.
* A fact whose group name is blank moves to another group when it is grouped
  again (`BlankGroupMoves`); `RegroupingKeepsGroup` says when facts stay.

## Model

| member | source | states |
|---|---|---|
| `SnapshotForm.SameRowsSamePayload` | app/analysis_input_snapshot.py:249-254 | the same rows in any order, and any order of tables, have one canonical form and one payload |
| `SnapshotForm.SamePayloadSameRows` | app/analysis_input_snapshot.py:249-260 | and only the same rows do: equal payloads mean the same tables with the same rows |
| `SnapshotForm.MergeRows` | app/analysis_input_snapshot.py:366-378 | one table of one part is added to the bucket row by row, each row once under its JSON text, tags of other entities skipped |
| `SnapshotForm.MergeParts` | app/analysis_input_snapshot.py:362-384 | the bucket loop computes the union of the parts and fails exactly on an unknown table |
| `SnapshotForm.MergeIsUnion` | app/analysis_input_snapshot.py:362-384 | the merge has exactly the parts' tables, every kept row of every part and no other, each once |
| `SnapshotForm.MergeIgnoresOrder` | app/analysis_input_snapshot.py:346-384 | what is stored after a merge depends on which snapshots are merged, not on their order or repetition |
| `ArtifactPins.PrefixesOverlap` | app/analysis_input_snapshot.py:206-213 | some owner key lies under the prefixes of two different payloads if and only if the head (run, scope) of one properly begins the other |
| `ArtifactPins.PlainNamesAreApart` | app/analysis_input_snapshot.py:208 | run and target names without line breaks never nest |
| `SnapshotStore.WhenPinsCollide` | app/analysis_input_snapshot.py:206-222 | a run of two stores and a collection in which the first payload's script is lost if and only if the second payload's prefix begins its owner key |
| `SnapshotStore.NestedNamesLoseArtifact` | app/analysis_input_snapshot.py:206-222 | so a target named like another one, a line break and the digest of that one's payload loses a stored script |
| `ArtifactPins.DesiredPins` | app/analysis_input_snapshot.py:209-213 | the references built for a snapshot give every script row its own key and its artifact |
| `ArtifactPins.PinSeparates` | app/analysis_input_snapshot.py:198-222 | pinning one payload leaves the references of every other payload in place, unless their heads nest |
| `ArtifactPins.PinPins` | app/analysis_input_snapshot.py:198-222 | after pinning every script row's artifact is referenced, and references still point at stored objects |
| `SnapshotStore.StepKeepsInv` | app/analysis_input_snapshot.py:242-292 | comparison, pin, commit, abort, upload, foreign reference and garbage collection keep: revisions numbered, head equal to the highest version, hashes matching, all artifacts pinned |
| `SnapshotStore.CommitNumbers` | app/analysis_input_snapshot.py:263-291 | inserting MAX+1 and moving the head keeps revisions 1..n and the head last |
| `SnapshotStore.SealSurvivesPin` | app/analysis_input_snapshot.py:206-222 | a pin for a new payload releases no artifact of a stored or pending payload whose head does not nest with its own |
| `SnapshotStore.RunKeepsInv` | app/analysis_input_snapshot.py:242-292 | in every interleaving of any number of clients, under names that do not nest, the invariant holds and no version row changes or disappears |
| `SnapshotStore.RunKeepsVersions` | app/analysis_input_snapshot.py:263-291 | whatever the names, revisions stay numbered and no version row changes or disappears |
| `SnapshotStore.RevisionsAreGapless` | app/analysis_input_snapshot.py:264-291 | a scope has exactly the revisions 1..n and its head is revision n |
| `SnapshotStore.ReplayIsStable` | app/analysis_input_snapshot.py:414-421 | selecting a revision gives the same row however many steps follow |
| `SnapshotStore.ArtifactsStayPinned` | app/analysis_input_snapshot.py:206-222 | every artifact named by a stored payload, or by one pinned and not yet committed, is referenced and in the store in every state reached under names that do not nest |
| `SnapshotStore.CommitKeepsNeighbours` | app/analysis_input_snapshot.py:256-264 | a commit keeps neighbouring revisions different if and only if the head does not already hold its payload |
| `SnapshotStore.NeighboursAlwaysDiffer` | app/analysis_input_snapshot.py:256-264 | when no two clients store one scope at once, neighbouring revisions differ in every run |
| `SnapshotStore.RaceStoresTwice` | app/analysis_input_snapshot.py:256-264 | a run of two clients that compare before either commits and store the same payload as two revisions |
| `InputSelection.StoreIsThreeSteps` | app/analysis_input_snapshot.py:242-292 | storing a snapshot is a comparison, a pin and a commit of the state machine, or nothing when the head has the payload or an artifact is missing |
| `InputSelection.SelectionKeepsInv` | app/analysis_input_snapshot.py:403-443 | whatever a request selects, captures or refuses, the store invariant holds, stored payloads stay portable and stored revisions are untouched |
| `InputSelection.HistoryIsSound` | app/analysis_input_snapshot.py:388-443 | in every history of captures, refreshes, merges, replays and object-store changes under names that do not nest: gapless, hashed, pinned, portable, neighbours different, nothing stored changes |
| `InputSelection.CaptureIsPortable` | app/analysis_input_snapshot.py:167-195 | a capture has known tables only, and every script row is blank or names a stored object |
| `InputSelection.CaptureIsLive` | app/analysis_input_snapshot.py:113-135 | a live capture happens only while no later run covers the target and never in a replay |
| `CaptureLaws.LaterRunIsNotCaptured` | app/analysis_input_snapshot.py:113-135 | when another run's row of the target started later, or at the same time and was added later, the run is not captured: the request falls back or is refused with nothing stored |
| `CaptureLaws.LastRunIsCaptured` | app/analysis_input_snapshot.py:113-135 | when the run's rows are the last of their targets no request is refused for that reason, and a refresh captures |
| `CaptureLaws.WhatIsChosen` | app/analysis_input_snapshot.py:403-443 | which source answers which request, and with which stored row |
| `CaptureLaws.WhatIsChosenIsIntact` | app/analysis_input_snapshot.py:225-239 | a chosen text has schema 2 or later, its stored digest, and entity tags |
| `CaptureLaws.WhyRefused` | app/analysis_input_snapshot.py:399-421 | bad revisions, nested contexts, missing revisions and missing snapshots are refused exactly when they occur |
| `CaptureLaws.WhatACaptureHolds` | app/analysis_input_snapshot.py:137-195 | a capture stores of every table exactly the rows of the named target, as often as they occur, and scripts under the digests of their files |
| `InputSelection.ReplayReadsOnly` | app/analysis_input_snapshot.py:408-421 | a replay with a head or an explicit revision writes nothing and returns that very row, readable |
| `InputSelection.ReplayRepeats` | app/analysis_input_snapshot.py:414-421 | replaying a chosen revision after any steps of any clients chooses the same row |
| `InputSelection.RecaptureAddsNothing` | app/analysis_input_snapshot.py:125-195 | capturing unchanged tables again, in any row order, adds no revision and changes nothing |
| `InputSelection.UnchangedStoreAddsNothing` | app/analysis_input_snapshot.py:249-260 | storing the head's rows in another order returns the head |
| `InputSelection.ChangedStoreAddsRevision` | app/analysis_input_snapshot.py:249-291 | a store that adds no version was given the rows of the version before |
| `InputSelection.MergeIsComplete` | app/analysis_input_snapshot.py:346-365 | a merge is made only when every target of the run has a readable snapshot, and is the union of what all heads of the run decode to |
| `CaptureLaws.WhatAMergeHolds` | app/analysis_input_snapshot.py:338-385 | when snapshots are merged, when that fails, and that a merge holds a row exactly when some target's snapshot does and it is no tag of another kind |
| `InputSelection.StoredRevisionsInstall` | app/analysis_input_snapshot.py:295-340 | a stored revision whose tables and columns exist can be installed: every script row is portable and no artifact of it has been collected |
| `CaptureLaws.WhatIsInstalled` | app/analysis_input_snapshot.py:481-520 | rows are installed in the stored order, scripts with the paths of stored objects, everything else as stored |
| `AnalysisInputs.ArchiveAdoptsOldHeads` | app/analysis_input_snapshot.py:97-104 | archiving heads of a database without version rows establishes the numbering |
| `AnalysisInputs.ArchiveIsIdempotent` | app/analysis_input_snapshot.py:97-104 | in a sound store archiving changes nothing |
| `AnalysisInputs.AnalysisDatabase.ArchiveHeads` | app/analysis_input_snapshot.py:97-104 | a head gets a version row, unchanged, if and only if its revision has none |
| `AnalysisInputs.AnalysisDatabase.SyncReferences` | app/storage.py:182-251 | references under the prefix become exactly the desired ones, all others stay; fails without any change on a foreign key or a missing object |
| `AnalysisInputs.AnalysisDatabase.PinJsArtifacts` | app/analysis_input_snapshot.py:198-222 | the reference dictionary and its synchronisation are the specified pin, nothing when no row has an artifact |
| `AnalysisInputs.AnalysisDatabase.StoreSnapshot` | app/analysis_input_snapshot.py:242-292 | the new tables and the returned row are those of the specification |
| `AnalysisInputs.AnalysisDatabase.CaptureRows` | app/analysis_input_snapshot.py:125-166 | the table loop captures exactly the rows in scope, or refuses when a later run exists |
| `AnalysisInputs.AnalysisDatabase.FreezeJsArtifacts` | app/analysis_input_snapshot.py:169-195 | every script path becomes a portable reference and its content an object; a missing file fails |
| `AnalysisInputs.AnalysisDatabase.MergeTargetSnapshots` | app/analysis_input_snapshot.py:342-384 | reads the parts in scope order and merges them, none, failing or merged as specified |
| `AnalysisInputs.AnalysisDatabase.SelectInputs` | app/analysis_input_snapshot.py:403-443 | the whole selection, with every refusal, and the store after it |
| `AnalysisInputs.AnalysisDatabase.InstallOverlay` | app/analysis_input_snapshot.py:445-541 | all tables of the snapshot are installed with resolved paths, or none, exactly when it is installable |
| `AnalysisInputs.AnalysisDatabase.OpenInputs` | app/analysis_input_snapshot.py:388-529 | opening a context archives, selects and installs; on any failure the temporary tables are as before |
| `Thresholds.ConfusionMetrics` | app/calibration_engine.py:40-85 | one pass counts every record on its side and derives the metrics from the counts |
| `CalibrationLaws.WhatMetricsMean` | app/calibration_engine.py:42-85 | precision is the share of positives among the records at or over the threshold, recall that of those among the positives, and so on, each rounded, F1 their harmonic mean |
| `CalibrationLaws.WhatExactMetricsMean` | app/calibration_engine.py:42-85 | without rounding these products are exact, and F1 times flagged and positives is twice the hits |
| `Thresholds.CountsPartition` | app/calibration_engine.py:52-62 | each record is in exactly one of the four counts, by prediction and label |
| `Thresholds.Dominated` | app/calibration_engine.py:183-206 | a threshold that is not tried loses to one that is |
| `Thresholds.CandidatesSuffice` | app/calibration_engine.py:183-206 | the best candidate is the best of all thresholds 0..100 under the six-level objective |
| `Thresholds.BestIsUnique` | app/calibration_engine.py:190-206 | the objective never ties, so the choice does not depend on the order of the candidates |
| `Thresholds.Candidates` | app/calibration_engine.py:183-189 | the candidate set: observed scores, their successors, 0, 100 and the default |
| `Thresholds.SelectThreshold` | app/calibration_engine.py:165-206 | returns the strictly best threshold of 0..100, or the default without records |
| `CalibrationLaws.WhatIsSelected` | app/calibration_engine.py:168-215 | without rounding the threshold is the one of 0 to 100 with the highest F1, then precision, then hits, then fewest false alarms, then nearest to the default, then highest |
| `CalibrationBins.BinsAreDisjoint` | app/calibration_engine.py:97-113 | no score lies in two bins |
| `CalibrationBins.LowMonotone` | app/calibration_engine.py:100-113 | lower bounds strictly increase |
| `CalibrationBins.BinOf` | app/calibration_engine.py:101-109 | every score 0..100 lies in the bin chosen for it |
| `CalibrationBins.AssignBin` | app/calibration_engine.py:103-109 | the scan over the lower bounds finds that bin |
| `CalibrationBins.BuildBins` | app/calibration_engine.py:88-125 | the table has one row per bin with its bounds, support, score sum and positives |
| `CalibrationLaws.WhichBin` | app/calibration_engine.py:100-112 | a score is in bin i of n exactly when 100i < n(score+1) and, but for the last bin, n(score+1) <= 100(i+1) |
| `CalibrationLaws.WhatABinHolds` | app/calibration_engine.py:113-131 | each row counts the records, the positives and the scores of its part, and its bounds hold exactly its scores |
| `CalibrationBins.SupportsSum` | app/calibration_engine.py:101-125 | the supports add up to the number of records |
| `CalibrationBins.Diagnostics` | app/calibration_engine.py:128-162 | the loops compute Brier score and calibration error, and the error's square is at most the score |
| `CalibrationLaws.BrierIsMean` | app/calibration_engine.py:146-151 | the Brier score is the mean squared distance of score and outcome |
| `CalibrationLaws.CalibrationErrorIsMean` | app/calibration_engine.py:153-161 | the calibration error is the sum of the bins' distances over the number of records |
| `CalibrationBins.GapsBounded` | app/calibration_engine.py:143-150 | the bins' absolute gaps add up to at most the records' absolute gaps |
| `CalibrationBins.SumVersusSquares` | app/calibration_engine.py:137-142 | the square of the sum of absolute gaps is at most n times the sum of squares |
| `CalibrationBins.CalibrationErrorBound` | app/calibration_engine.py:137-156 | expected calibration error lies in [0,1] and its square never exceeds the Brier score |
| `CalibrationBins.Select` | app/calibration_engine.py:209-262 | a threshold is learned only from enough rows, else it is the fallback |
| `CalibrationBins.BuildProfile` | app/calibration_engine.py:209-280 | the profile's global and family selections and tables are those of the records |
| `CalibrationBins.LookUp` | app/calibration_engine.py:303-311 | scanning the stored bounds returns the rate of the bin that binning would choose |
| `CalibrationBins.CalibrationForScore` | app/calibration_engine.py:283-323 | on a built profile the lookup returns the family's or the global threshold and that bin's rate |
| `CalibrationLaws.WhatTheRateIs` | app/calibration_engine.py:318-325 | the rate of a score is the share of positives among the records in its part |
| `CalibrationLaws.WhenReady` | app/calibration_engine.py:236-254 | the minimums, by numbers of rows and labels |
| `CalibrationLaws.WhatAProfileHolds` | app/calibration_engine.py:218-280 | the best thresholds where there are enough rows, the overall one or 70 elsewhere |
| `Wilson.IntervalIsScoreTest` | app/change_guidance_drift.py:57-72 | the interval holds exactly the rates that the score test at z accepts |
| `Wilson.ClampsNeverBind` | app/change_guidance_drift.py:62-72 | the observed rate is inside, both ends lie in [0,1], so the clamps change nothing |
| `Wilson.MirrorInterval` | app/change_guidance_calibration.py:28-43 | swapping positives and negatives mirrors the interval around one half |
| `Wilson.IntervalIncreases` | app/change_guidance_calibration.py:28-43 | more positives of the same total move both ends strictly up |
| `Wilson.LowerEndTouches` | app/change_guidance_calibration.py:33-43 | at the lower end the score test holds with equality |
| `ChangeGuidance.CalibrationReport` | app/change_guidance_calibration.py:110-158 | the loop counts, per mentioned signal, every rating once |
| `GuidanceLaws.WhatCalibrationCounts` | app/change_guidance_calibration.py:110-158 | feedback, useful, neutral and noisy are the numbers of explicit ratings of the signal |
| `GuidanceLaws.WhatShadowMeans` | app/change_guidance_calibration.py:51-78 | the shadow status by whole numbers |
| `ChangeGuidance.CountsAddUp` | app/change_guidance_calibration.py:131-158 | useful, neutral and noisy add up to the feedback, at most one per row |
| `ChangeGuidance.WindowsConserve` | app/change_guidance_drift.py:285-311 | two windows that meet at an instant share no rating: together they count at most all |
| `ChangeGuidance.CollectSamples` | app/change_guidance_drift.py:214-244 | the samples are exactly the explicit ratings with a time, and the anchor their latest |
| `ChangeGuidance.FillWindows` | app/change_guidance_drift.py:288-311 | one pass per window fills both buckets of every signal |
| `ChangeGuidance.DriftReport` | app/change_guidance_drift.py:189-340 | each signal's trend is what its ratings in the two windows give |
| `GuidanceLaws.WhatDriftCounts` | app/change_guidance_drift.py:285-311 | with the latest rating at A and d days, the recent window counts the ratings from A-86400d to A, the previous one those from A-172800d to before A-86400d |
| `GuidanceLaws.NoWindows` | app/change_guidance_drift.py:244-250 | without a rating that has a time both windows are empty |
| `GuidanceLaws.WhatIsRead` | app/change_guidance_drift.py:189-213 | the newest tasks up to the bounded limit |
| `GuidanceLaws.WhatDriftMeans` | app/change_guidance_drift.py:116-158 | without rounding the drift status by whole numbers |
| `ChangeGuidance.JoinReports` | app/change_guidance_review_packet.py:140-267 | one packet per reported signal, joined from both reports |
| `ChangeGuidance.SortAndCut` | app/change_guidance_review_packet.py:269-277 | sorting and cutting keeps a sorted report whose cut-off part sorts last |
| `ChangeGuidance.ReviewPackets` | app/change_guidance_review_packet.py:110-281 | the returned packets are the specified report |
| `GuidanceLaws.WhatAPacketSays` | app/change_guidance_review_packet.py:78-185 | direction and readiness of a packet by the ratings of all time and of the two windows |
| `GuidanceLaws.WhichSignalsAreReported` | app/change_guidance_review_packet.py:140-155 | exactly the signals that an advisory task names or that have a rating in a window |
| `GuidanceLaws.ReportOrder` | app/change_guidance_review_packet.py:263-277 | ready first, then noise, regression, promotion, the rest, then more ratings, then the signal |
| `ChangeGuidance.ReadyRestsOnTenRatings` | app/change_guidance_review_packet.py:156-185 | with the drift report reading no more rows, a ready packet rests on at least ten explicit ratings, five per window |
| `ChangeGuidance.WhichLimitsGuaranteeTen` | app/change_guidance_review_packet.py:120-185 | exactly which report limits guarantee this for every history of distinct tasks |
| `ChangeGuidance.MismatchedLimits` | app/change_guidance_review_packet.py:120-185 | for all other limits, a history of distinct tasks on which a ready packet rests on fewer |
| `ChangeGuidance.ReadyReport` | app/change_guidance_review_packet.py:110-281 | a history of distinct tasks whose default report holds a ready packet |
| `ChangeGuidance.TruncationKeepsReady` | app/change_guidance_review_packet.py:269-277 | the cut never drops a ready packet while keeping one that is not |
| `PolicyValuesAndDiffs.ValidatedFields` | app/change_guidance_policy_proposal.py:149-211 | values are accepted if and only if they name the surface's fields and no others, each a number within its bounds; the validated values lie within the same bounds, whole where these are |
| `ProposalLaws.WhatIsShipped` | app/change_guidance_policy_proposal.py:99-123 | the shipped values of the three surfaces |
| `ProposalLaws.WhatIsValidated` | app/change_guidance_policy_proposal.py:132-211 | a validated value is the whole part of the candidate, a weight the rounded candidate |
| `PolicyValuesAndDiffs.Diff` | app/change_guidance_policy_proposal.py:226-236 | the rows list exactly the differing fields, once each and in order |
| `PolicyValuesAndDiffs.DiffApplies` | app/change_guidance_policy_proposal.py:214-236 | the diff takes the values before to the values after, its inverse takes them back, and it is empty only for equal values |
| `PolicyProposals.VersionsContiguous` | app/change_guidance_policy_proposal.py:401-456 | the versions of a key are 1..n and all but the newest are superseded |
| `PolicyProposals.WriteKeepsInv` | app/change_guidance_policy_proposal.py:410-456 | each single write keeps this, also the supersede alone before its insert, whose row is whatever a call has prepared |
| `PolicyProposals.CreatedIsSound` | app/change_guidance_policy_proposal.py:343-400 | a row prepared by any call, from any tasks, has its own key and digest, rests on a ready packet with ten explicit ratings, and carries the non-empty diff of its values |
| `PolicyProposals.WriteKeepsRows` | app/change_guidance_policy_proposal.py:410-567 | no write removes a row, changes its content or touches an accepted one |
| `PolicyProposals.RunKeepsInv` | app/change_guidance_policy_proposal.py:343-585 | the invariant holds in every run |
| `PolicyProposals.RunKeepsRows` | app/change_guidance_policy_proposal.py:343-585 | in every run content never changes, and an accepted version stays, the last of its key |
| `PolicyProposals.StoredProposals` | app/change_guidance_policy_proposal.py:355-400 | every stored proposal of every run rests on a ready packet with at least ten explicit ratings among its target's tasks, and its diff leads from before to after |
| `PolicyProposals.CreateIsWrites` | app/change_guidance_policy_proposal.py:410-456 | a create is at most two single writes |
| `PolicyProposals.HistoryIsRun` | app/change_guidance_policy_proposal.py:343-585 | every history of creates, submits and decisions is a run of single writes that passes through its tables in order |
| `PolicyProposals.HistoryKeepsRows` | app/change_guidance_policy_proposal.py:343-585 | so in every such history versions are contiguous, content is constant, accepted rows are frozen, and ten ratings stand behind each row |
| `ConcurrentProposals.InterleavingKeepsRows` | app/change_guidance_policy_proposal.py:343-585 | whatever any number of callers do to one another, no row goes, content is constant, and every row rests on a ready packet with ten explicit ratings |
| `ConcurrentProposals.StaleUpdate` | app/change_guidance_policy_proposal.py:481-567 | an update of a row read earlier keeps the invariant if and only if the row becomes superseded or is still the newest, and all accepted rows too if and only if it leaves its own alone when that is accepted |
| `ConcurrentProposals.StaleInsert` | app/change_guidance_policy_proposal.py:401-456 | an insert of an absent version keeps the invariant if and only if it is the first or the one before it is superseded |
| `ConcurrentProposals.WhatDoesHarm` | app/change_guidance_policy_proposal.py:410-567 | each pending write keeps invariant and accepted rows if and only if it meets its condition on the table it finds |
| `ConcurrentProposals.WhenInterleavingsAreOrderly` | app/change_guidance_policy_proposal.py:343-585 | in an interleaving of any number of callers the invariant holds throughout and accepted rows are frozen if and only if every write meets that condition |
| `ConcurrentProposals.RecheckedWritesAreHarmless` | app/change_guidance_policy_proposal.py:410-567 | a write that finds the state it read meets it |
| `ConcurrentProposals.StaleSubmitUnchains` | app/change_guidance_policy_proposal.py:481-521 | an interleaving after which a stale submit leaves a followed version under review |
| `ConcurrentProposals.StaleAcceptUnchains` | app/change_guidance_policy_proposal.py:524-567 | one after which a stale decision leaves a followed version accepted |
| `ConcurrentProposals.StaleInsertUnchains` | app/change_guidance_policy_proposal.py:401-521 | one in which a submit comes between the two writes of a create, whose version is then followed and under review |
| `ConcurrentProposals.StaleSubmitThawsAccepted` | app/change_guidance_policy_proposal.py:481-521 | an interleaving whose last write puts an accepted version under review |
| `ConcurrentProposals.StaleAmendThawsAccepted` | app/change_guidance_policy_proposal.py:401-421 | one whose last write supersedes an accepted version |
| `PolicyProposals.Prepare` | app/change_guidance_policy_proposal.py:343-400 | the checks before any write, in their order, and the draft they yield |
| `ProposalLaws.WhatIsDrafted` | app/change_guidance_policy_proposal.py:343-400 | where each field of a draft comes from |
| `ProposalLaws.WhyNotDrafted` | app/change_guidance_policy_proposal.py:343-400 | each refusal, exactly when it applies and none before it does |
| `PolicyProposals.ProposalStore.constructor` | app/change_guidance_policy_proposal.py:49-92 | a new store has no proposals |
| `PolicyProposals.ProposalStore.NewestVersion` | app/change_guidance_policy_proposal.py:401-409 | finds the highest version of a key, 0 when there is none |
| `PolicyProposals.ProposalStore.FindPacket` | app/change_guidance_policy_proposal.py:355-375 | finds a packet by its identifier, or none has it |
| `PolicyProposals.ProposalStore.Amend` | app/change_guidance_policy_proposal.py:410-478 | supersedes the newest version and inserts the next, by two single writes |
| `PolicyProposals.ProposalStore.Create` | app/change_guidance_policy_proposal.py:343-478 | answers and leaves the table as specified: unchanged, reused, refused, or superseded and extended; a whole operation, and at most two single writes |
| `ProposalLaws.WhatACreateLeaves` | app/change_guidance_policy_proposal.py:401-478 | a created row is the newest of its key, new or as it was, the one before it superseded, no other changed |
| `ProposalLaws.CreateIsIdempotent` | app/change_guidance_policy_proposal.py:401-413 | creating the same again answers with the same row and changes nothing |
| `ProposalLaws.AcceptedRefuses` | app/change_guidance_policy_proposal.py:414-418 | an accepted version refuses another content |
| `PolicyProposals.ProposalStore.Submit` | app/change_guidance_policy_proposal.py:481-521 | moves a draft to review and refuses every other state |
| `PolicyProposals.ProposalStore.Decide` | app/change_guidance_policy_proposal.py:524-585 | accepts or rejects a proposal under review and refuses every other request |
| `BalancedSelection.FillBuckets` | app/bug_candidates.py:124-130 | each source's bucket holds its rows in input order |
| `BalancedSelection.Allocate` | app/bug_candidates.py:140-163 | the quota pass takes from every active source its share and puts the rest aside, with matching counts |
| `BalancedSelection.FillUp` | app/bug_candidates.py:165-179 | the top-up takes the sorted overflow from the front while there is room |
| `BalancedSelection.Select` | app/bug_candidates.py:114-179 | the method returns the specified selection and its counts |
| `SelectionLaws.WhichSource` | app/bug_candidates.py:97-112 | the source of a row by the start of its reference |
| `SelectionLaws.BestOfEachSource` | app/bug_candidates.py:140-165 | of each source the first rows by confidence, target, endpoint and reference are selected, in that order |
| `SelectionLaws.WhatEachSourceGets` | app/bug_candidates.py:150-165 | each source gets the equal share or all its rows, and with fewer places than sources the first ones get one each |
| `SelectionLaws.SurplusIsBest` | app/bug_candidates.py:166-185 | what a source gets beyond its share ranks before everything left out, by confidence, source, target and endpoint |
| `BalancedSelection.SelectsExactly` | app/bug_candidates.py:114-179 | exactly min(limit, n) rows are selected |
| `BalancedSelection.SelectsPrefixes` | app/bug_candidates.py:131-179 | what is taken from a source is a prefix of that source's order, at least its quota |
| `BalancedSelection.SelectsBestOverflow` | app/bug_candidates.py:165-179 | input rows are used at most once, and no skipped overflow row beats a chosen one on confidence |
| `BalancedSelection.EverySourceServed` | app/bug_candidates.py:140-163 | with at least as many places as sources each source gets at least min(limit div sources, its size) |
| `BalancedSelection.SelectionIgnoresOrder` | app/bug_candidates.py:114-179 | the sequence of selected keys does not depend on the order of the input |
| `Utf8.FeedAppend` | app/dashboard_artifact_search.py:37-47 | decoding two pieces one after the other is decoding them together |
| `Utf8.RoundTrip` | app/dashboard_artifact_search.py:37-43 | decoding undoes UTF-8 encoding for every text |
| `Utf8.ZeroBytes` | app/dashboard_artifact_search.py:44 | a zero byte occurs exactly where the text has the zero character |
| `TextSearch.Window` | app/dashboard_artifact_search.py:45-47 | carrying one character less than the query loses no match |
| `TextSearch.ChunkSearched` | app/dashboard_artifact_search.py:39-47 | searching tail and new text searches everything decoded so far |
| `TextSearch.FlushSearched` | app/dashboard_artifact_search.py:42-43 | so does the last search after the decoder's flush, folded twice |
| `TextSearch.ContainsText` | app/dashboard_artifact_search.py:31-49 | the loop agrees with one search of the whole folded text, and with a NUL with one of the chunks before the first that carries it |
| `TextSearch.FoundEarly` | app/dashboard_artifact_search.py:46 | a match in the first chunks is a match of the whole search |
| `TextSearch.CutsDoNotMatter` | app/dashboard_artifact_search.py:40-47 | without a NUL byte the answer does not depend on how the file is cut |
| `TextSearch.SearchOfEncodedText` | app/dashboard_artifact_search.py:31-49 | on a UTF-8 file the query is found exactly when its folding occurs in the folded text |
| `TextSearch.WhatIsFound` | app/dashboard_artifact_search.py:31-49 | where characters fold to one character, a query is found exactly when it stands in the text up to folding |
| `TextSearch.WhatStandsIsFound` | app/dashboard_artifact_search.py:31-49 | and whatever they fold to, what stands in the text is found |
| `TextSearch.WhenCutsMatter` | app/dashboard_artifact_search.py:40-47 | two cuts of a file disagree about a query if and only if the file has a zero byte and the query occurs before it |
| `TextSearch.FoundInFile` | app/dashboard_artifact_search.py:39-45 | with a NUL byte the 65536-byte reads find exactly what occurs in the full chunks before the one that carries it |
| `TextSearch.WhatIsClean` | app/dashboard_artifact_search.py:39-45 | what counts as before the NUL: the full 65536-byte chunks before the one that holds the first |
| `TextSearch.ZeroHidesMatch` | app/dashboard_artifact_search.py:39-45 | the file "a", NUL hides its match; 65536 times "a" before the NUL do not |
| `StopProtocol.ProcessControl.RequestStop` | app/api_process_control.py:40-44 | writes a request unless the acknowledgement for this pid is there |
| `StopProtocol.StepKeepsInv` | app/api_process_control.py:40-67 | every step of the server, of any client, or of a later start keeps the protocol invariant |
| `StopProtocol.RunKeepsInv` | app/api_server_core.py:505-515 | so it holds in every interleaving |
| `StopProtocol.SuccessMeansClosed` | app/api_server_core.py:726-749 | a client reports success only after that instance's listener has closed |
| `StopProtocol.StoppedMeansClosed` | app/api_server_core.py:510-515 | a "stopped" record exists only after the close and carries the server's pid |
| `StopProtocol.OnlyOwnRequestsStop` | app/api_process_control.py:46-60 | requests for another instance or pid never stop this server |
| `StopProtocol.OverwriteIsStale` | app/api_process_control.py:40-44 | a request that destroys an acknowledgement was checked before it, or names another pid |
| `StopProtocol.AcknowledgementSurvives` | app/api_process_control.py:40-44 | the acknowledgement stays in every run without a clean-up of its own clients if and only if no client of the instance stands between check and write or is about to check for another pid |
| `StopProtocol.UnsafeLoses` | app/api_process_control.py:40-44 | from every other acknowledged state one or two steps of one client destroy it |
| `StopProtocol.AcknowledgementIsSeen` | app/api_process_control.py:53-56 | while it is there every client of its instance and pid that checks or polls sees it |
| `StopProtocol.LostForever` | app/api_server_core.py:736-743 | a lost acknowledgement never comes back |
| `StopProtocol.LostRun` | app/api_server_core.py:736-743 | so from then on, in every run, no further client succeeds |
| `StopProtocol.UninterruptedRequest` | app/api_process_control.py:40-44 | check and write without interruption are the operation on the record |
| `StopProtocol.RaceLosesAcknowledgement` | app/api_process_control.py:43-44 | a run of two clients in which the acknowledgement is overwritten and never seen |
| `StopProtocol.RecordKept` | app/api_server_core.py:657-676 | the API record is removed only by a stop client that saw the acknowledgement, or by a status call that did not find its process; each compared the record before |
| `StopProtocol.WhoComesToRemove` | app/api_server_core.py:657-676 | nobody comes to remove the record without having found it to be its own |
| `StopProtocol.FilesAreOwn` | app/api_process_control.py:40-67 | clients and server write and unlink only the control file of their instance |
| `StopProtocol.ForeignRemoval` | app/api_server_core.py:657-676 | somebody can remove a record that is not its own in one step if and only if somebody who compared another one stands before its removal |
| `StopProtocol.ForeignRemovalRuns` | app/api_server_core.py:657-676 | some run without a further comparison removes a foreign record if and only if somebody stands between comparing and removing |
| `StopProtocol.ReplacementRace` | app/api_server_core.py:657-662 | a run from the start in which a stop client removes the record of a new start |
| `BaselineIntegrity.RegistryChangesOnlyWhenCurrent` | app/baseline_integrity.py:145-158 | a review changes the registry if and only if there is a gap and the run is both committed and last refreshed |
| `BaselineIntegrity.ReviewIsIdempotent` | app/baseline_integrity.py:127-158 | a second review that follows at once, by anyone and with any clock, changes nothing |
| `BaselineIntegrity.ReviewExcludes` | app/baseline_integrity.py:54-56 | after a review with gaps the run is excluded, no other becomes so, and its changes are gone |
| `BaselineIntegrity.EvidenceIsKept` | app/baseline_integrity.py:136-144 | until it is recovered, a quarantined run keeps its review and original evidence whatever happens |
| `BaselineIntegrity.FlagSurvives` | app/baseline_integrity.py:73-78 | an observation's flag stays through recovery until a refresh with its run or a new observation |
| `BaselineIntegrity.RefreshSurvives` | app/baseline_integrity.py:136-149 | a refreshed observation is not flagged again while the run stays quarantined |
| `BaselineIntegrity.WhatFlags` | app/baseline_integrity.py:136-149 | a flag goes on by exactly one kind of step: a review with proven gaps of the row's own run while that is not quarantined |
| `BaselineIntegrity.StaysUnflagged` | app/baseline_integrity.py:136-149 | a row stays unflagged throughout a history if and only if no step of it is such a review |
| `BaselineIntegrity.RefreshedRowIsFlaggedAgain` | app/baseline_integrity.py:136-165 | review, recovery, refresh and review: the refreshed row is flagged again |
| `BaselineIntegrity.ReviewStaysWithTarget` | app/baseline_integrity.py:117-158 | a review of one target changes nothing of another |
| `BaselineIntegrity.ReviewReadsTarget` | app/baseline_integrity.py:117-158 | and depends on nothing of another |
| `BaselineIntegrity.BaselineStore.ReviewCommittedBaseline` | app/baseline_integrity.py:117-158 | the rows written and the answer are those of the specification |
| `BaselineIntegrity.WhatAReviewWrites` | app/baseline_integrity.py:117-158 | row by row what a review adds, flags, quarantines and deletes, and that all else stays |
| `BaselineIntegrity.WhatARecoveryWrites` | app/baseline_integrity.py:161-165 | a recovery ends the quarantine of one review and changes nothing else |
| `BaselineIntegrity.BaselineStore.SelectTargets` | app/baseline_integrity.py:168-181 | the covered targets, or which of the four refusals, each exactly when it applies |
| `BaselineIntegrity.BaselineStore.RepairBaselines` | app/baseline_integrity.py:167-195 | repair covers all its targets, each as if reviewed alone, or none with nothing changed and the refusal named |
| `BaselineIntegrity.BaselineStore.ReviewAll` | app/baseline_integrity.py:182-189 | the loop's outcome for each target is that of reviewing it alone |
| `BehavioralBaselines.EarlierIsStrictOrder` | app/behavioral_intelligence.py:90-128 | (started_at, rowid) orders the runs strictly and totally |
| `BehavioralBaselines.ChoiceIsSound` | app/behavioral_intelligence.py:45-180 | a chosen baseline keeps the binding invariant: it belongs to a strictly earlier run and agrees with the run's other analyses |
| `BehavioralBaselines.StepKeepsInv` | app/behavioral_intelligence.py:45-180 | new run rows that fit, starts, results, bindings and ends keep it |
| `BehavioralBaselines.WhenRowsFit` | app/behavioral_intelligence.py:90-172 | a run row, also one that comes after analyses of its run, keeps it if and only if the baselines already bound for that run are of runs strictly earlier than it |
| `BehavioralBaselines.LateRowsTurnChain` | app/behavioral_intelligence.py:130-172 | a history without run rows whose chain of baselines leads to a later run once the rows come |
| `BehavioralBaselines.SharedBaseline` | app/behavioral_intelligence.py:55-80 | in every serial history all successful analyses of a run and target share one baseline |
| `BehavioralBaselines.ChainDescends` | app/behavioral_intelligence.py:90-128 | every further baseline belongs to a strictly earlier run |
| `BehavioralBaselines.FollowingBaselinesEnds` | app/behavioral_intelligence.py:45-180 | following baselines never revisits a run and ends |
| `BehavioralBaselines.BehavioralStore.LatestPreviousAnalysis` | app/behavioral_intelligence.py:45-180 | reuses the run's baseline or takes the latest candidate, and records the binding |
| `BehavioralBaselines.WhatIsBoundByRows` | app/behavioral_intelligence.py:81-128 | with a run row: no analysis that may serve is of a run between the baseline's and this one, and none of the baseline's run ended later |
| `BehavioralBaselines.WhatIsBoundByTimes` | app/behavioral_intelligence.py:130-172 | without: none that may serve and ended before this analysis began ended later |
| `BehavioralBaselines.WhatIsReused` | app/behavioral_intelligence.py:55-80 | a baseline already bound for the run by a successful analysis is reused |
| `BehavioralBaselines.BehavioralStore.FindBound` | app/behavioral_intelligence.py:55-80 | the first bound analysis of the run, if any |
| `BehavioralBaselines.BehavioralStore.FindLatest` | app/behavioral_intelligence.py:81-172 | the latest candidate by (started_at, rowid) and end time, if any |
| `CandidateMerge.MergeEvidenceLists` | app/bug_candidates_legacy_core.py:147-156 | the seen-set loop is the first-seen, duplicate-free form of the concatenation |
| `CandidateMerge.MissingGroups` | app/bug_candidates_legacy_core.py:171-175 | the groups of which no evidence type is present, in order |
| `CandidateMerge.CandidateStore.InsertCandidate` | app/bug_candidates_legacy_core.py:183-242 | one row per analysis and fingerprint is replaced by the merged row; an unknown family changes nothing |
| `CandidateMerge.WhatIsGated` | app/bug_candidates_legacy_core.py:166-180 | a required group without a supporting item costs 18 points and adds the message; scores are cut to 0 to 100 |
| `CandidateMerge.WhatTheStateIs` | app/bug_candidates_legacy_core.py:210-226 | the analyst's word, else the thresholds 75 and 60, 55, 35 |
| `CandidateMerge.WhatTheScoresAre` | app/bug_candidates_legacy_core.py:206-230 | scores grow to the larger, the priority weighs them 45 to 30 to 25, the first alert and reference stay |
| `CandidateMerge.InsertsRefineBatch` | app/bug_candidates_legacy_core.py:206-241 | any sequence of inserts leaves the row of the batch form: maxima, sorted union, first-seen lists from the second insert on, first alert and reference |
| `CandidateMerge.NothingLost` | app/bug_candidates_legacy_core.py:213-217 | the row holds exactly the evidence, gaps and rule ids that came in, without repetition from the second insert on |
| `CandidateMerge.ScoresAreMaxima` | app/bug_candidates_legacy_core.py:206-220 | each stored score is the largest of the clamped scores |
| `CandidateMerge.OrderIsIrrelevant` | app/bug_candidates_legacy_core.py:206-241 | order and repetition of the inserts change no score, no rule id and no set of evidence |
| `CandidateMerge.StateFitsScores` | app/bug_candidates_legacy_core.py:210-226 | the stored state is that of the stored scores if and only if an analyst decided or the earlier scores lift the row over no threshold |
| `CandidateMerge.StateCanLag` | app/bug_candidates_legacy_core.py:210-226 | a strong candidate seen again with weak evidence is stored as a weak signal |
| `EvidenceGrouping.IndependentRepresentatives` | app/evidence_grouping.py:15-24 | one representative per distinct group in order of appearance, each the first of its group's highest rank |
| `EvidenceGrouping.WhichGroup` | app/evidence_grouping.py:11-12 | the group is the first of group name, source and type that is not empty, or "rule" |
| `EvidenceGrouping.WhoRepresents` | app/evidence_grouping.py:19-23 | no fact of the group is heavier, as heavy and trusted more, or equal and earlier |
| `EvidenceGrouping.RepresentativeIsUnique` | app/evidence_grouping.py:19-23 | a group has only one such item |
| `EvidenceGrouping.GroupItems` | app/evidence_grouping.py:34-39 | the dictionary holds each group's items in order, under the group's name |
| `EvidenceGrouping.IndependentEvidence` | app/evidence_grouping.py:27-55 | the retained list and all reported counts, suppressed contributions included |
| `EvidenceGrouping.WhatIsRetained` | app/evidence_grouping.py:34-45 | every fact under its group and with the number of facts of its group, heavier first |
| `EvidenceGrouping.EvidenceIsKept` | app/evidence_grouping.py:34-45 | every fact is retained exactly once, marked with its group and the group's size; heavier first, order inside a group stable |
| `EvidenceGrouping.SizesAddUp` | app/evidence_grouping.py:46-54 | no group is empty and the sizes add up to the number of facts |
| `EvidenceGrouping.RegroupingKeepsGroup` | app/evidence_grouping.py:11-12 | a retained fact keeps its group when grouped again, if and only if its group name is not blank or its fallback is |
| `EvidenceGrouping.BlankGroupMoves` | app/evidence_grouping.py:11-12 | a fact of the source "scanner" with a blank group name does not |
| `ActivationGate.ActivationReadiness` | app/calibration_dataset.py:75-143 | the report is the specified function of the rows; provenance counts count every row |
| `GateLaws.WhenTheGateOpens` | app/calibration_dataset.py:92-110 | open exactly when the trusted, verified, labelled rows reach the global minimum, both labels occur, and they name the minimum of families |
| `GateLaws.WhenAFamilyIsReady` | app/calibration_dataset.py:111-122 | a named family is ready exactly when it has its three minimums |
| `GateLaws.WhichOrigin` | app/calibration_dataset.py:124-128 | rows are counted by their origin, "unclassified" without one |
| `ActivationGate.GroupByFamily` | app/calibration_dataset.py:94-98 | each named family's eligible rows in order |
| `ActivationGate.ReadinessRestsOnEligible` | app/calibration_dataset.py:92-122 | readiness depends only on the multiset of eligible rows |
| `ActivationGate.IneligibleRowsDoNotCount` | app/calibration_dataset.py:47-55 | golden, synthetic or unverified rows, any number anywhere, change nothing |
| `ActivationGate.ReadinessGrows` | app/calibration_dataset.py:100-122 | more eligible rows never turn readiness off, overall or for a family |
| `ActivationGate.GuardActivation` | app/calibration_dataset.py:182-200 | the activation fields are those of the guard |
| `GateLaws.WhatActivationMeans` | app/calibration_dataset.py:182-200 | activated exactly when more than shadow mode is asked and the gate is open; blocked when asked and not |
| `ActivationGate.ActivationImpliesReadiness` | app/calibration_dataset.py:182-200 | an activation outside shadow mode means global readiness with verified rows of both labels, and is what the eligible rows alone would give |
| `ReplayIngestion.ValidMeans` | app/analysis_benchmark_v2.py:274-307 | a record has no error if and only if it is trusted, verified, complete, unambiguous and in range |
| `GateLaws.WhichFaults` | app/analysis_benchmark_v2.py:274-307 | each fault is reported exactly when its requirement is not met |
| `GateLaws.WhatIsStored` | app/analysis_benchmark_v2.py:384-391 | what is stored of a valid record, field by field |
| `GateLaws.WhatAReadLineDoes` | app/analysis_benchmark_v2.py:358-402 | what one line adds to the accepted and the rejected records |
| `GateLaws.WhereALineIs` | app/analysis_benchmark_v2.py:356-358 | a record without an identifier is known by its file and its line |
| `ReplayIngestion.ReadLine` | app/analysis_benchmark_v2.py:358-402 | one line is skipped, rejected with its reasons, or accepted |
| `ReplayIngestion.LoadVerifiedReplay` | app/analysis_benchmark_v2.py:337-402 | the loops over files and lines compute the specified outcome and count the files read |
| `ReplayIngestion.AcceptedIsEligible` | app/analysis_benchmark_v2.py:384-391 | every accepted record is eligible for activation |
| `ReplayIngestion.AcceptedAreDistinct` | app/analysis_benchmark_v2.py:374-383 | accepted fingerprints are pairwise distinct |
| `ReplayIngestion.FirstOccurrenceWins` | app/analysis_benchmark_v2.py:374-391 | the accepted records are exactly the first occurrences of the valid ones, in reading order |
| `ReplayIngestion.LinesAddUp` | app/analysis_benchmark_v2.py:356-415 | accepted and rejected add up to the lines that are not blank, and duplicates are counted |
| `ReplayIngestion.MoreReplaysKeepReadiness` | app/analysis_benchmark_v2.py:384-391 | every accepted record counts for the gate, and reading more lines never turns readiness off |
| `Ordering.SortFilter` | app/evidence_grouping.py:45 | sorting is stable: it commutes with keeping any part of the rows |
| `Ordering.SortKeysCanonical` | app/bug_candidates.py:131-139 | the sorted keys depend only on the multiset of keys |
| `Ordering.WhatStringOrderIs` | app/bug_candidates.py:131-139 | texts are ordered by the first character in which they differ |
| `Ordering.SortedSet` | app/change_guidance_drift.py:315 | a set of strings in ascending order |

## Left out

- Floating point: rates, intervals and errors are real numbers; rounding of reports is any function; NaN and infinities do not occur.
- The SQL engine, locks between threads of one process, timestamps of rows, and reading files, sockets and process tables.
- `serve_api` without a control instance, pid signalling through pidfd or `ps`, and transient read errors of the control file.
- SnapshotStore.RunKeepsInv: the runs store under names that do not nest, as names without line breaks never do; `WhenPinsCollide` is what happens otherwise.
- ArtifactPins.OwnerKey: the trimming of blanks at the ends of owner keys is not modelled; the row's number keeps the keys apart.
- SnapshotStore: removal of runs by retention does not occur in the runs, which start from stores without versions older than schema version 2.
- InputSelection.StoredRevisionsInstall: assumes that an object in the store has its file intact, and that files an early branch stored by name stay; damaged files are not modelled.
- AnalysisInputs: malformed payloads (tables that are no lists, rows that are no objects) are one failing result of reading; indexes on temporary tables are left out.
- The columns of a captured table are fixed during a capture; `NULL` columns are absent keys.
- CalibrationBins: the advisory texts and safety fields of a profile.
- ChangeGuidance: task status counts, family and stage slices, report decoration, and parsing of texts, numbers and times.
- PolicyProposals: the list of proposals, the cleaning of test lists (a text longer than 1000 characters can be listed twice), and a report handed in by the caller instead of read by create, which its caller reads in the same way.
- BaselineIntegrity: how gaps are found in the collected evidence, run diagnostics after a repair, and rollback inside a repair, which is one atomic step.
- BehavioralBaselines.StepKeepsInv: run rows that come late and do not fit do not occur in the serial histories; `WhenRowsFit` is exact about them.
- BehavioralBaselines: concurrent analyses of one run and target; the shape difference of two responses.
- TextSearch: characters whose folding depends on their neighbours, and the check that the path is a regular file.
- BalancedSelection: scoring of the surfaces themselves.
- CandidateMerge: identifiers, fingerprints and wording; the earlier analyst decision is an input; a family's schema is data.
- EvidenceGrouping: group names that are not texts, and numbers given as texts.
- ReplayIngestion: records whose auxiliary numbers or signal lists cannot be read, which end the loading with an exception; the quality score.
- HTTP handlers, HTML, the command line, regular-expression extraction, keyword scoring and family catalogs.
