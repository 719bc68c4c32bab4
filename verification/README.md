# A verified model of mon-server's decision engine and its protocols

mon-server decides, from the heartbeats of its mon-clients, which of a panel's inbounds are
UP, DOWN, FLAPPING or PAUSED, and tells the panel.  This project models the parts of it that
decide something, in Dafny, and proves what they promise.  Tables are maps and sequences, a
database transaction is one atomic step that commits or rolls back whole, times are
milliseconds, ids and tokens are values somebody else made fresh.

Code that changes state step by step is a class whose methods change its fields, each proved
equal to a specification function; the theorems are lemmas about those functions, over every
input, every run and every answer of the other side.

| files | what they model |
|---|---|
| `machine.dfy`, `history.dfy` | the target state machine, and everything true of a row's whole life |
| `wire.dfy`, `tables.dfy`, `engine.dfy` | the heartbeat's cycles, the engine's operations as functions, and the engine as the program runs it |
| `runs.dfy`, `pauses.dfy`, `windows.dfy`, `monclients.dfy` | whole runs of the engine: log and table, pauses, flap windows, each mon-client's events, acks and batches |
| `dues.dfy`, `received.dfy` | what every operation owes every row, and histories as what was owed |
| `paths.dfy`, `config.dfy` | the path grammar and target keys, the config document and why a target is out of it |
| `delivery.dfy`, `protocol.dfy`, `resent.dfy` | the mon-client's buffer and loop, delivery end to end, and what resent cycles say |
| `buckets.dfy`, `stats.dfy`, `counted.dfy` | five-minute buckets, their table and flush, and what a protocol run leaves in them |
| `client.dfy`, `watch.dfy`, `outbox.dfy`, `ledger.dfy` | the panel's answers, PANEL_DOWN, the outbox drain, and what becomes of every event |
| `material.dfy` | reading the probe material, and what is rebuilt from it |
| `handoff.dfy`, `admission.dfy`, `slugs.dfy` | registration: the one-time token, the caps, the ids |
| `grid.dfy` | when cycles start |
| `wrappers.dfy`, `store.dfy`, `sorting.dfy`, `flatten.dfy` | shared types, row shapes, sorting, lists per element |

`dafny verify dfyconfig.toml` checks everything.

## Laws the code does not keep

Each is stated with a concrete input on which it fails, or as the exact condition under which
it holds.

- "An event into UP says recovered" fails under FLAPPING: `Machine.FailingFlipIntoUp` gives the
  condition, `History.FailureFlipsIntoUp` a life, `Machine.AnnouncedUpSaysRecovered` the law that
  holds.
- "DOWN means DownAfter failures in a row" fails on leaving FLAPPING:
  `Machine.FlappingExitIntoDown` gives the condition, `History.HoldEndsDownOnSuccesses` a life,
  `History.DownFollowsFailures` the law that holds.
- "UP or DOWN means fewer than FlapN recorded flips" fails, under fixed thresholds, exactly after
  a move out of FLAPPING, which keeps the window: `History.QuietUnlessMovedFull`,
  `History.FullWindowOutlivesAMove`.  Thresholds are read again on every heartbeat, so lowering
  FlapN breaks it too: `History.QuietAfter` is exact for any change,
  `History.LoweredFlapNFillsTheWindow` a life.
- "A mon-client's events chain to its state" fails when a sweep marks a mon-client that was
  revoked or approved anew since the sweep found it silent: `MonClients.EventsTellStateIff`,
  `MonClients.SweepAfterRevoke`.  A heartbeat in between is overruled:
  `MonClients.SweepAfterHeartbeat`.
- "If the rebuild fails the next panel poll will retry" (`internal/admin/settings.go:328`) fails
  while the revision and the host stay: `ProbeMaterial.MissedRebuildStaysMissedIff`,
  `ProbeMaterial.FailedRefreshIsRetriedIff`, `ProbeMaterial.RebuildFailureIsForgotten`.
- "A stamped bucket is what the panel was told" fails when a heartbeat lands between a batch's
  read and its stamp: `Stats.LateStampIsTrueIff`, `Stats.LateStampCanLie`.
- "A lost cycles.json costs only the cycles in it" fails: the next cycle made after the loss is
  recorded if and only if no request reaching past state.json's ack was committed before it,
  ahead of the loss or since; otherwise it is acknowledged as a duplicate and gone.
  `Protocol.LostFileIsSafeIff`, `Protocol.LostFileLosesACycle`.
- "A cycle that was never acknowledged is resent as unverified" fails when the box restarts
  while its request is in flight: `Resent.ResentIsUnverifiedIff`, `Resent.RestartResendsVerified`.
- "The allocated id is free" holds for every registry exactly for bases of at most 27
  characters: `Slugs.FreshIffSuffixesFit`.

Where the code and its own comments differ, the code is followed: the comment on `Rejections`
(`internal/panel/client.go:514-520`) says an entry is ignored when its index is out of range
and its id unknown, but an entry naming an unknown id is ignored even when its index is in
range (`PanelClient.RefusedAreTheNamed`); the comment on `RefreshMaterial`
(`internal/panel/poller.go:837-838`) says a failure leaves the material invalidated, but a failing
rebuild leaves it accepted (`ProbeMaterial.FailedRefreshIsRetriedIff`); the comment on `ErrRequestExpired`
(`internal/registry/registry.go:100-105`) says the row has been flipped by the time the error
is returned, but in Approve, ApproveAsReplacement and Reject that flip is rolled back with the
transaction (`Handoff.Registry.Approve`).

## Model

| member | source | states |
|---|---|---|
| `Machine.ThresholdsFrom` | internal/state/machine.go:40-55 | field by field: a sensible setting passes unchanged and windows become milliseconds, one below its floor is clamped to it whatever the others are; never anything the Thresholds type forbids |
| `Machine.OutcomeOf` | internal/state/machine.go:69-78 | a failure keeps the reason it was given and gets http_error without one; a success carries none |
| `Machine.RecordTransition` | internal/state/machine.go:275-291 | the loop keeps, in order, exactly the flips inside the window and appends now |
| `Machine.StepRow` | internal/state/machine.go:108-207 | the field-by-field program is the transition function Step that every theorem below speaks about |
| `Machine.StepCalibrates` | internal/state/machine.go:108-207 | after every step UP or UNKNOWN means fewer failures in a row than DownAfter, and DOWN fewer successes than UpAfter |
| `Machine.FailingFlipIntoUp` | internal/state/machine.go:158-165 | the false law "into UP always says recovered": over every row that runs at most one counter, a result flips it into UP with another reason if and only if it is a failure under FLAPPING before its hold is served, with a success streak positive but short of UpAfter, and DownAfter above one |
| `Machine.FlappingExitIntoDown` | internal/state/machine.go:121-139 | the false law "DOWN means DownAfter failures": FLAPPING is left to DOWN without them if and only if the success streak was positive but short of UpAfter |
| `Machine.StepBlames` | internal/state/machine.go:121-207 | a failure that changes the state gives its own reason to the event and to the row, a success says recovered and clears the row's, entering FLAPPING says flapping, and a served hold that ends DOWN keeps the row's last reason |
| `Machine.FlappingIsUnderneath` | internal/state/machine.go:121-139 | a served hold ends DOWN exactly after DownAfter failures or on a streak of successes short of UpAfter, and UP otherwise |
| `Machine.AnnouncedUpSaysRecovered` | internal/state/machine.go:121-207 | the law that does hold: every non-silent event into UP says recovered |
| `History.LifeIsShaped` | internal/state/machine.go:108-207 | in every life of a row: FLAPPING iff a hold is set, the two counters never run together, PAUSED carries a pause reason and zero counters |
| `History.LogTellsState` | internal/state/machine.go:108-207 | the announced events of any life form a chain from UNKNOWN to the row's state, with from and to different in each |
| `History.CountersAreStreaks` | internal/state/machine.go:143-151 | ConsecutiveOk and ConsecutiveFail are the trailing runs of applied results since creation or the last move |
| `History.StreakMeans` | internal/state/machine.go:143-151 | the trailing run, said index by index, so that the counter theorem does not rest on a recursion |
| `History.DownFollowsFailures` | internal/state/machine.go:174-207 | every announced DOWN that is not an exit from FLAPPING comes at the end of DownAfter failures in a row |
| `History.UpFollowsSuccesses` | internal/state/machine.go:174-207 | every announced UP that is not an exit from FLAPPING comes at the end of UpAfter successes in a row, or of one from UNKNOWN |
| `History.LogTellsSinceAndWhy` | internal/state/machine.go:108-207 | each event carries the true start of the state it ends, and the row's since and reason are those its events give it |
| `History.LastResultIsDated` | internal/state/machine.go:143-144 | lastResultAt is the time of the last applied result, whatever moves came after |
| `History.WindowIsHistory` | internal/state/machine.go:275-291 | under fixed thresholds and ordered time the pruned Transitions list is the whole flip history seen through the window, and a FLAPPING row's hold ends one hold after its last flip |
| `History.FlappingIsFlapN` | internal/state/machine.go:186-201 | a flip outside FLAPPING enters it exactly when it is at least the FlapN-th of the full history inside the window |
| `History.FlappingNeedsWholeHold` | internal/state/machine.go:121-139 | a result takes a row out of FLAPPING exactly when a whole hold has passed since the last flip |
| `History.SilentFlipsChain` | internal/state/machine.go:152-169 | the silent flips under FLAPPING chain too, and FLAPPING is left to the state they lead to |
| `History.FailureFlipsIntoUp` | internal/state/machine.go:158-165 | a concrete life on which "into UP says recovered" fails: up, two failures, one success, and then a failure flips the FLAPPING row into UP |
| `History.HoldEndsDownOnSuccesses` | internal/state/machine.go:121-139 | the same life, with the hold served instead: announced DOWN on a streak of successes, with no failure counted |
| `History.QuietAfter` | internal/state/engine.go:968-985 | "outside FLAPPING fewer than FlapN flips are recorded" under the thresholds of now, whatever they were before: it holds after an act unless the window was full under them and the act was a move out of FLAPPING, or outside it and no flip |
| `History.QuietUnlessMovedFull` | internal/state/engine.go:968-985 | so under fixed thresholds it survives an act if and only if the act is not a move out of FLAPPING with a full window |
| `History.LoweredFlapNFillsTheWindow` | internal/state/machine.go:10-13 | a concrete life where a lowered FlapN breaks it with no move at all |
| `History.ResultsAloneStayQuiet` | internal/state/machine.go:174-207 | in a life of results alone it always holds |
| `History.FullWindowOutlivesAMove` | internal/state/engine.go:968-985 | and a concrete life where it fails: a row that flapped, lost its mon-client and came back UP with a full window |
| `History.OnlyConfigEndsPause` | internal/state/engine.go:783-791 | in a life, only a move to UNKNOWN with config_enabled ends PAUSED |
| `Wire.ClampTs` | internal/state/engine.go:1190-1199 | a timestamp within the skew of now is kept, any other becomes now |
| `Wire.KeepKnown` | internal/state/engine.go:1203-1211 | exactly the results whose key is in the config survive |
| `Wire.KeptInOrder` | internal/state/engine.go:1203-1211 | each of them as often as it came and in the order it came |
| `Wire.AckOf` | internal/state/engine.go:198-212 | the ack never goes back, covers every cycle of the request, and is one of their seqs or the old ack |
| `Wire.Accepted` | internal/state/engine.go:198-212 | exactly the cycles above the last ack are accepted |
| `Wire.AcceptedInOrder` | internal/state/engine.go:198-212 | each of them as often as it came and in the order it came |
| `Wire.LiveCycle` | internal/state/engine.go:1217-1229 | the live cycle is verified and no verified cycle has a higher seq; there is none only if all are unverified |
| `Wire.LiveIsNewest` | internal/state/engine.go:1217-1229 | of verified cycles with the same highest seq it is the first |
| `Wire.CleanedAre` | internal/state/engine.go:198-212 | a kept cycle keeps its seq and flag, and has its time clamped and its results reduced to the config's targets |
| `Wire.Sift` | internal/state/engine.go:198-212 | the loop computes the ack and the cleaned accepted cycles together |
| `Wire.FindLive` | internal/state/engine.go:1217-1229 | the loop finds that live cycle |
| `Engine.SortKeys` | internal/state/engine.go:817-833 | iterating a map in any order and sorting yields the one sorted list of the set |
| `Engine.ListMissingAwg` | internal/state/engine.go:721-777 | the AWG targets expected, absent and without a link, each once and in order |
| `Engine.Engine.MoveRow` | internal/state/engine.go:968-985 | one row moved in place: state, reason, counters and hold change, one event is filed, the flip window stays |
| `Engine.Engine.MoveTargets` | internal/state/engine.go:959-985 | the loop over matching rows is the bulk move each row decides on its own |
| `Engine.Engine.TargetRow` | internal/state/engine.go:628-654 | finds the row of a key or creates it UNKNOWN, and returns its index |
| `Engine.Engine.DeleteRows` | internal/state/engine.go:661-693 | exactly the rows the condition names are deleted, the others keep their order, no event |
| `Engine.Engine.ReconcilePauses` | internal/state/engine.go:721-777 | drop, create what must be paused unseen, then pause or release: equal to the specification |
| `Engine.Engine.StepTarget` | internal/state/engine.go:602-625 | a PAUSED row is left alone; any other is stepped, saved, and its transitions filed |
| `Engine.Engine.ApplyLive` | internal/state/engine.go:602-625 | the live cycle's results one after the other; what each does is `Received.OnlyLiveResultsStep` |
| `Engine.Engine.ApplyClientInfo` | internal/state/engine.go:523-595 | the mon-client is ONLINE with the new ack, and an event is filed only if it was not |
| `Engine.Engine.Heartbeat` | internal/state/engine.go:148-258 | answers the new ack and commits everything, or answers nothing and every table is as before; what is committed is `Dues.NextGivesDue` |
| `Engine.Engine.BeatAll` | internal/state/engine.go:198-246 | the transaction's statements in order equal the specification Beaten, about which `Dues.NextGivesDue` and `MonClients.NextTells` speak |
| `Engine.Engine.SyncInbounds` | internal/state/engine.go:389-438 | an empty answer changes nothing; otherwise the sync is the operation `Received.SyncPauses` is about, in whatever order the maps are visited |
| `Engine.Engine.SyncPaths` | internal/state/engine.go:450-463 | rows off the served paths go; an empty set is ignored |
| `Engine.Engine.FindSilent` | internal/state/engine.go:298-317 | the sweep selects exactly the ONLINE mon-clients whose last heartbeat is older than allowed, and nobody before the server has been up that long |
| `Engine.Engine.LoseClient` | internal/state/engine.go:319-340 | one mon-client's transaction: its row OFFLINE, an event from ONLINE whatever the row said, its targets to UNKNOWN |
| `Engine.Engine.MarkOffline` | internal/state/engine.go:290-340 | with nothing in between, everyone found silent and nobody else is lost |
| `Engine.Engine.MonClientDisabled` | internal/state/engine.go:476-481 | its targets that are neither UNKNOWN nor PAUSED go to UNKNOWN |
| `Engine.Engine.RevokeClient` | internal/state/engine.go:498-511 | an OFFLINE event unless already OFFLINE, and the targets to UNKNOWN, in one transaction with the registry row |
| `Engine.Engine.DeleteClient` | internal/registry/registry.go:940-950 | the mon-client's row and targets go, no event |
| `Runs.NextKeeps` | internal/state/engine.go:148-985 | every operation keeps: unique row ids and keys, and every row explained by its own history and its own events; a sweep may mark a mon-client any time after it found it silent |
| `Runs.ReachableIsExplained` | internal/state/engine.go:148-985 | so it holds in every reachable state |
| `Runs.LogAndTableAgree` | internal/state/engine.go:968-985 | in every reachable state each row's announced events chain from UNKNOWN to its state and give its since and reason, its counters are its trailing runs, and its hold and pause reason fit its state |
| `Pauses.PauseOwnership` | internal/state/engine.go:914-950 | a PAUSED row is changed only by its owner: config_disabled by a sync seeing its inbound enabled, another pause by a heartbeat of its mon-client with the key in config and not rejected; everything else leaves or deletes it |
| `Pauses.PausesAreReleased` | internal/state/engine.go:721-777 | such a sync and then such a heartbeat leave the row not PAUSED |
| `Pauses.BeatClassifies` | internal/state/engine.go:721-791 | after a heartbeat every row of the mon-client fits its config, and every target to be paused unseen has a row |
| `Pauses.BeatLeavesNoStray` | internal/state/engine.go:661-777 | with the exclusions known: in config and not rejected, or PAUSED, or on an inbound not enabled; and never off the served paths outside the config |
| `Pauses.ReconcileIsIdempotent` | internal/state/engine.go:721-777 | reconciling again on the same inputs, at any time, changes no row and files no event |
| `Pauses.SyncIgnoresOrder` | internal/state/engine.go:389-438 | a sync leaves the same rows and inbounds whatever order it visits them in |
| `Pauses.SyncedSizes` | internal/state/engine.go:389-438 | a sync deletes no row and forgets exactly the vanished inbounds |
| `Dues.NextGivesDue` | internal/state/engine.go:148-985 | every operation does to every row exactly what it owes it, read off the operation and the row alone: the rows it deletes, the move of each kept row with its reason, the live results after it, and the rows a heartbeat makes and for which targets |
| `Received.SyncPauses` | internal/state/engine.go:389-438 | after a sync every row of an inbound listed as disabled, or known and no longer listed, is PAUSED, with config_disabled, since now and by one event unless it was PAUSED already; a row paused so is UNKNOWN when its inbound is enabled; every other row and its events are untouched |
| `Received.OnlyLiveResultsStep` | internal/state/engine.go:602-625 | an operation steps a row with exactly the live results that reach it: a heartbeat steps each row of its mon-client that it does not leave PAUSED, and nothing else steps one |
| `Received.GivenInOrder` | internal/state/engine.go:602-625 | those are the results about the row's target, each once and in order, with the outcome sent, the reason sent or http_error, the thresholds and the time of the heartbeat |
| `Received.LiveResultsAre` | internal/state/engine.go:1217-1229 | and they come from the newest verified cycle past the ack, the first of equals, reduced to the config's targets |
| `Received.LiveResultsHaveRows` | internal/state/engine.go:628-654 | every target with a live result has a row afterwards |
| `Received.HistoriesAreDue` | internal/state/engine.go:148-985 | in every run a row's whole history is what the operations owed it |
| `Received.OnlyReachingResultsStep` | internal/state/engine.go:602-625 | in every run the results that stepped a row are exactly the live results that reached it, in order |
| `MonClients.NextTells` | internal/state/engine.go:290-595 | an operation files at most one event of a mon-client, moves its state, its ack, its last heartbeat and its missed count only as the program says, and records for it what its own heartbeat brought |
| `MonClients.DeletionForgets` | internal/registry/registry.go:940-950 | a deletion forgets exactly its mon-client and files nothing |
| `MonClients.OthersAreLeftAlone` | internal/state/engine.go:148-511 | a heartbeat, sweep, disable, revoke, delete or approval leaves every other mon-client as it was: its target rows in order, its events, state, ack and batches |
| `MonClients.EventsTellStateIff` | internal/state/engine.go:523-595 | in every reachable state a mon-client's events since its last approval chain from NEVER to its state, from and to different in each, if and only if every sweep found it still ONLINE when it marked it |
| `MonClients.SweepAfterRevoke` | internal/state/engine.go:298-340 | a concrete run where the chain breaks: found silent, revoked, then marked by the sweep |
| `MonClients.SweepAfterHeartbeat` | internal/state/engine.go:298-340 | a concrete run where a mon-client goes OFFLINE right after a heartbeat that came between its selection and its marking |
| `MonClients.AckNeverFalls` | internal/state/engine.go:198-212 | over any run between two approvals a mon-client's ack never falls, and stays what it was without a heartbeat of its own |
| `MonClients.BatchesCameInTurn` | internal/state/engine.go:198-258 | in every reachable state the batches recorded for a mon-client since its last approval hold rising seqs from batch to batch, all behind its ack |
| `MonClients.RisingRequestsRecordOnce` | internal/state/engine.go:198-258 | if its requests hold rising seqs, as its buffer's do, no cycle was recorded for it twice |
| `Windows.SteadyRunsPace` | internal/state/engine.go:602-625 | in an engine run with fixed thresholds and a clock that does not go back every row's history is time-ordered |
| `Windows.RowsShowTheirFlips` | internal/state/engine.go:602-625 | so in such a run every row's window is its outbox history seen through the window, and the silent events chain |
| `Paths.HopPathGrammar` | internal/store/paths.go:28-48 | the grammar accepts role:name exactly when the role is edge or inner and the name is 1 to 32 of a-z, 0-9 and "-" |
| `Paths.ParseTarget` | internal/api/probe.go:132-154 | a parsed key has a valid path and a known kind |
| `Paths.ParsePrinted` | internal/api/probe.go:132-154 | parsing the printed form of any valid key gives the key back, also when the path contains ":" |
| `Paths.PrintIsInjective` | internal/state/engine.go:798-813 | so two valid keys never print alike |
| `Paths.RejectedKeys` | internal/state/engine.go:798-813 | the loop selects from the config |
| `Paths.RejectedAreTheNamed` | internal/state/engine.go:798-813 | exactly the valid config keys that were named |
| `Config.ListProbedHops` | internal/panel/types.go:112-124 | the joined and legacy hops with a valid path, in the panel's order |
| `Config.ExpandPaths` | internal/registry/config.go:503-533 | the loop over the vocabulary |
| `Config.ExpandedPaths` | internal/registry/config.go:503-533 | an expansion holds no path twice and exactly the paths one of its words stands for |
| `Config.ServedAre` | internal/panel/poller.go:198-215 | the panel serves direct, and every probed hop or, without one, proxy |
| `Config.ExpandedAre` | internal/registry/config.go:503-533 | word by word: direct for itself, a probed hop for itself, and "hops" for every probed hop, or proxy when there is none |
| `Config.ExpandedIsServed` | internal/registry/config.go:503-533 | a mon-client only ever probes paths the panel serves |
| `Config.ValidatePaths` | internal/registry/registry.go:518-532 | refused exactly when some word is outside the vocabulary; an empty list becomes the default |
| `Config.ValidatedPaths` | internal/registry/registry.go:518-532 | what is stored holds each given word once and nothing else |
| `Config.Build` | internal/registry/config.go:422-475 | gathering path by path and sorting gives the document the next three rows are about |
| `Config.DocumentHolds` | internal/registry/config.go:422-475 | a target is in the document exactly when its path is probed and the panel has an item there with its kind, inbound, link and conf, an AWG one naming this very mon-client; its protocol is awg or the inbound's |
| `Config.AwgIsOnesOwn` | internal/registry/config.go:536-548 | every AWG target of a document is carried by an item naming its own mon-client |
| `Config.DocumentIsSorted` | internal/registry/config.go:455-467 | the document is in order of kind, inbound and path, and holds no key twice when the panel gives one item per inbound |
| `Config.SamePathsIffSameWords` | internal/registry/registry.go:843-849 | samePaths holds exactly for lists of the same words, each as often; no list is excluded |
| `Config.SamePathsBuildSameDoc` | internal/registry/registry.go:810-837 | path lists samePaths equates build the same document, so skipping the rebuild loses nothing |
| `Config.Expected` | internal/registry/config.go:325-348 | the targets a mon-client would have if every link existed: exactly its paths crossed with its offered inbounds, once each and sorted |
| `Config.DocKeys` | internal/registry/config.go:422-475 | a key is in the document exactly when its path is expanded and the panel has an item for it there, an AWG one naming this mon-client |
| `Config.DocKeysAreNotRetired` | internal/registry/config.go:290-292 | no document key is retired under its own material |
| `Config.ExpectedAre` | internal/registry/config.go:325-348 | a target is expected exactly when its inbound is enabled and of the kind, its path is probed, and it is not on proxy with the override off |
| `Config.ReasonsAre` | internal/registry/config.go:300-315 | each reason is given exactly in its case, and none for a retired path or an inbound that is off |
| `Config.ExpectedLacksOnlyItsLink` | internal/registry/config.go:300-348 | every expected key has reason no_probe_link |
| `Config.NoProbeLinkIsHonest` | internal/registry/config.go:300-315 | for a key out of the document the reason is no_probe_link exactly when its inbound is enabled, its path is probed (proxy only with the override on) and the panel gave no item for it |
| `Delivery.Buffer.Add` | internal/client/heartbeat/buffer.go:116-132 | the cycle gets the next seq; past sixty the oldest goes |
| `Delivery.Buffer.ContinueAfter` | internal/client/heartbeat/buffer.go:140-150 | the counter jumps past an ack it has not reached, and never goes back |
| `Delivery.Buffer.Ack` | internal/client/heartbeat/buffer.go:172-186 | exactly the cycles up to the ack are dropped |
| `Delivery.Buffer.MarkUnverified` | internal/client/heartbeat/buffer.go:194-202 | only flags change |
| `Delivery.Loop.constructor` | internal/client/app/loop.go:187-192 | the buffer continues after the remembered ack, and a config is needed |
| `Delivery.Loop.FetchAndApply` | internal/client/app/loop.go:373-401 | only a document clears the need for a config; only an applied one becomes the applied revision |
| `Delivery.Loop.Once` | internal/client/app/loop.go:241-299 | every cycle is sent; an ack drops what it covers and is remembered if higher; a lost answer flags everything; a refusal stops |
| `Protocol.RunIsSound` | internal/client/app/loop.go:241-299 | the invariant of client, network and server in every run that keeps cycles.json |
| `Protocol.ExactlyOnce` | internal/state/engine.go:198-246 | over lost, late, repeated and rolled-back requests and restarts, while cycles.json is kept: a cycle dropped on an ack was recorded exactly once and as made, and one neither owed nor dropped was evicted |
| `Protocol.NeverTwice` | internal/state/engine.go:198-246 | also when cycles.json is lost, any number of times: no seq is recorded twice and live cycles have rising seqs |
| `Protocol.CounterNeverJumps` | internal/client/heartbeat/buffer.go:140-150 | within a token generation that keeps cycles.json an ack is always behind the counter |
| `Protocol.AckIsTheFurthestCommit` | internal/state/engine.go:198-212 | in every run the ack is past a seq if and only if a committed request held a cycle past it |
| `Protocol.LostFileIsSafeIff` | internal/client/app/loop.go:187-192 | after losing cycles.json the next cycle gets the seq past state.json's ack and is sent alone; whenever a request holding it arrives, late requests of before included in between, it is recorded if and only if no request reaching past that ack was committed first, and it is acknowledged either way |
| `Protocol.LostFileLosesACycle` | internal/client/app/loop.go:187-192 | two concrete runs that lose it: the answer to a committed request was lost with the file, and an old request arrived after the loss although state.json held the server's latest ack |
| `Protocol.BeatKeepsOthers` | internal/state/engine.go:523-595 | a heartbeat leaves its mon-client ONLINE, heard now, with nothing missed and the new ack, and every other row of the table as it was |
| `Resent.ResentIsUnverifiedIff` | internal/client/app/loop.go:241-299 | in every run the newest cycle of a request is verified, and every resent one is unverified if and only if no restart cut off the request before it |
| `Resent.RestartResendsVerified` | internal/client/app/loop.go:241-299 | a concrete run in which a resent cycle is verified |
| `Resent.AnswersCatchUp` | internal/client/heartbeat/buffer.go:172-186 | after an answer nothing is owed and the counter is past its ack, whatever the box had forgotten |
| `Protocol.EngineServes` | internal/state/engine.go:198-246 | an engine heartbeat moves the ack, hands over cycles and picks the live one exactly as the protocol's server does |
| `Buckets.BucketStart` | internal/state/stats.go:424-430 | a multiple of the window with the time inside it, before 1970 too |
| `Buckets.AnySplitRecordsAlike` | internal/state/stats.go:90-144 | any split of rising cycles over heartbeats leaves the buckets of one Record |
| `Buckets.MergeIsCounting` | internal/state/stats.go:339-397 | merging a heartbeat's sums once is counting its results one at a time |
| `Buckets.RecordCountsWhatIsBrought` | internal/state/stats.go:90-144 | recording changes exactly the buckets something is brought to: a result of its mon-client about its target, in a cycle within the five minutes from its start, unless a failure of an unverified cycle; and such a bucket is owed again |
| `Buckets.BucketSummarisesItsWindow` | internal/state/stats.go:309-397 | a bucket's counts, extremes, sum and samples are those of the results brought to it in the order of their cycles' seqs, its handshake that of the latest successful AWG one; without a success it has no latency |
| `Buckets.AverageIsHonest` | internal/state/stats.go:360-375 | the stored average lies between the extremes and within half a millisecond of the mean |
| `Buckets.RecordConserves` | internal/state/stats.go:90-144 | recording adds to the totals exactly the results less the failures of unverified cycles |
| `Stats.Add` | internal/state/stats.go:309-332 | one result folded into a delta |
| `Stats.Group` | internal/state/stats.go:101-131 | the nested loops leave one delta per touched bucket, in the order of first sight; which bucket a result touches is `Buckets.RecordCountsWhatIsBrought` |
| `Stats.Table.ApplyDelta` | internal/state/stats.go:339-397 | the row is merged, created if new, and its stamp cleared |
| `Stats.Table.Record` | internal/state/stats.go:90-144 | in place, the table becomes what counting each result alone would make it, as `Buckets.RecordCountsWhatIsBrought` says |
| `Stats.PayloadTellsTheWindow` | internal/state/stats.go:399-420 | what the panel is told about a bucket are the counts, extremes, average and handshake of the results brought to it |
| `Stats.BatchIsTheEarliestDue` | internal/state/stats.go:174-185 | a batch holds unsent buckets of closed windows, at most two thousand and none twice; one is left out only when the batch is full, and of no earlier a window |
| `Stats.AnsweredElementByElement` | internal/state/stats.go:194-240 | an answered batch is stamped in full, its payloads unchanged; a bucket is given up on exactly when the answer names its index or refuses the whole batch |
| `Stats.RoundUsesUp` | internal/state/stats.go:173-241 | each answered batch leaves strictly fewer buckets owed: the termination of Flush |
| `Stats.Table.Flush` | internal/state/stats.go:167-242 | ends with nothing due or a failure worth repeating, having gone through rounds of earliest-due batches, and keeps the agreement |
| `Stats.RunsKeepAgreement` | internal/state/stats.go:247-276 | over any heartbeats and rounds, a stamped bucket that was not dropped equals what the panel was last told and acknowledged |
| `Stats.RecordingKeepsAgreement` | internal/state/stats.go:386-391 | new data clears the stamp of exactly the buckets it touches |
| `Stats.LateStampIsTrueIff` | internal/state/stats.go:173-240 | a heartbeat between a batch's read and its stamp: the stamp is true if and only if the heartbeat counted nothing for the bucket |
| `Stats.LateStampCanLie` | internal/state/stats.go:173-240 | and a concrete bucket stamped with a payload that was never posted |
| `PanelClient.CountedIsUnanswered` | internal/panel/poller.go:1325-1346 | a failure counts toward PANEL_DOWN exactly when it is retryable and is not xray_unavailable |
| `PanelClient.Do` | internal/panel/client.go:371-408 | one to four attempts; the last one's outcome is reported; every earlier one was worth repeating and the last was not, was the fourth, or was not waited for |
| `PanelClient.FailureReasons` | internal/panel/poller.go:1325-1346 | the reason a failure counts with: no answer in time, none at all, or a 5xx other than xray_unavailable |
| `PanelClient.Rejections` | internal/panel/client.go:521-552 | the loop places every entry it can, the last one winning |
| `PanelClient.RefusedAreTheNamed` | internal/panel/client.go:521-552 | an event is refused exactly when an entry names its id, or names none and gives its index |
| `PanelClient.RefusedAreTheIndexed` | internal/panel/client.go:521-552 | a stats row is refused exactly when an entry gives its index |
| `PanelClient.Split` | internal/panel/poller.go:938-951 | the loop splits a batch in order |
| `PanelClient.SplitIsExact` | internal/panel/poller.go:938-951 | into sent and refused, each element in one of them once |
| `Counted.BucketsCountEachCycleOnce` | internal/state/engine.go:198-246 | over lost, late, repeated and rolled-back requests, and losses of cycles.json, the buckets are those of one Record of the recorded cycles, each of which was recorded once |
| `Counted.CountsAddUp` | internal/state/stats.go:90-144 | so over a whole run the counts add up to those cycles' results less the failures of unverified ones |
| `Watch.ModeIsTheHistory` | internal/panel/poller.go:1078-1140 | the failure count is the counted failures since the last success, and the mode whether they reached the threshold |
| `Watch.FilingsAlternate` | internal/panel/poller.go:1078-1162 | for every sequence of answers PANEL_DOWN and PANEL_UP alternate, DOWN first |
| `Watch.FiledAtTheThreshold` | internal/panel/poller.go:1128-1140 | under one setting PANEL_DOWN is filed by exactly the failure that brings the run to the threshold, which is at least one, and with its reason |
| `Watch.NeutralLeavesNoTrace` | internal/panel/poller.go:1086-1093 | taking a neutral answer out of a history changes neither the mode nor what is filed |
| `Outbox.Poller.Observe` | internal/panel/poller.go:1078-1098 | one request's outcome: the mode, the pending recovery and the event filed, if any |
| `Outbox.Poller.Prune` | internal/panel/poller.go:994-1007 | exactly the unsent, notified rows older than a day go |
| `Outbox.BatchIsTheOldest` | internal/panel/poller.go:887-895 | a batch is the thousand oldest unsent rows, or all of them, by time and then id |
| `Outbox.Poller.DecodeBatch` | internal/panel/poller.go:1040-1051 | the ids of a batch told apart by whether they can be read, order kept |
| `Outbox.Poller.File` | internal/panel/poller.go:912-962 | sent, refused and kept as the answer says; an error only where the batch is kept |
| `Outbox.Poller.FinishRecovery` | internal/panel/poller.go:1186-1197 | the message carries the running total if a recovery was pending, and both are reset |
| `Outbox.Poller.Unnotify` | internal/state/engine.go:1171-1185 | the engine clears notified on the one row whose message failed, sent or not |
| `Outbox.Poller.Flush` | internal/panel/poller.go:882-976 | terminates; on a normal end nothing is unsent and the recovery is closed; an error is one that keeps the batch |
| `Outbox.OfferShrinks` | internal/panel/poller.go:887-963 | every turn either leaves PANEL_DOWN or leaves fewer rows unsent, although a success may itself file an event |
| `Ledger.RunBalances` | internal/panel/poller.go:882-1035 | the invariant of outbox and book over all runs |
| `Ledger.EveryEventIsAccountedFor` | internal/panel/poller.go:978-1035 | an event is in the queue unsent until the panel accepts or refuses it, it cannot be read, or it is pruned; only one notified then and more than a day old is pruned |
| `Ledger.NotNotifiedIsNeverPruned` | internal/state/engine.go:1168-1185 | an event not notified, as filed or since its message failed, is never pruned, over any run from there |
| `Ledger.FailedMessageIsNeverPruned` | internal/state/engine.go:1158-1185 | once its message has failed, an event still queued then waits for the panel over any run from there |
| `Ledger.FatesAreFinal` | internal/panel/poller.go:1011-1035 | what became of an event never changes: none is accepted twice, or refused after being accepted |
| `Ledger.SplitsCleanly` | internal/panel/poller.go:938-951 | no id of a batch is both sent and refused, and none twice |
| `Ledger.RecoveryCountsTheResent` | internal/panel/poller.go:1164-1197 | "N events resent" is the number of events the panel accepted since the recovery began, over any number of interrupted drains |
| `Ledger.DeliveredOnce` | internal/panel/poller.go:1011-1020 | that count counts each accepted event once |
| `Ledger.PanelEventsAlternate` | internal/panel/poller.go:1146-1162 | in every run the panel events queued in the outbox alternate, PANEL_DOWN first, the mode is the last of them, and every panel event row there is one of them |
| `Ledger.BookFollows` | internal/panel/poller.go:882-976 | the book only watches: the poller under it is the one the program runs |
| `ProbeMaterial.Holder.Invalidate` | internal/panel/poller.go:840-843 | a refresh makes the held material stale and keeps it |
| `ProbeMaterial.Holder.Keep` | internal/panel/poller.go:755-781 | the material is held first, then the documents are rebuilt, then the paths gone are removed; the first failure ends it |
| `ProbeMaterial.Holder.Read` | internal/panel/poller.go:684-781 | reads everything before keeping anything: accepted exactly when it was needed and every answer came stamped with the cycle's revision, and then rebuilt from; otherwise nothing changes |
| `ProbeMaterial.AcceptedIsCoherent` | internal/panel/poller.go:699-759 | every item list of an accepted material is the answer to that path's own request, under the material's own revision |
| `ProbeMaterial.AcceptedHops` | internal/panel/poller.go:719-738 | one list per probed hop of its chain, and no other |
| `ProbeMaterial.HeldIsOneRead` | internal/panel/poller.go:756-759 | in every run the held material is one whole read |
| `ProbeMaterial.StaleUntilAccepted` | internal/panel/poller.go:840-875 | staleness is cleared exactly by an accepted read |
| `ProbeMaterial.DocumentsFollowTheMaterial` | internal/panel/poller.go:768-772 | in every run, once a rebuild has finished since the material was accepted, the documents are that material's |
| `ProbeMaterial.PathsFollowTheDocuments` | internal/panel/poller.go:773-780 | in every run the paths last kept were those of documents already rebuilt |
| `ProbeMaterial.MissedRebuildStaysMissedIff` | internal/panel/poller.go:684-781 | the false law "the next poll retries": however many cycles follow under the same revision and host, the documents become the new material's if and only if the rebuild worked or they were its already |
| `ProbeMaterial.FailedRefreshIsRetriedIff` | internal/panel/poller.go:837-875 | a failed refresh is taken up by a later cycle if and only if it accepted no material, or the revision or the host has moved since |
| `ProbeMaterial.RebuildFailureIsForgotten` | internal/panel/poller.go:837-875 | a concrete refresh whose rebuild fails and which the next cycle does not repeat |
| `Handoff.Registry.PollReads` | internal/registry/registry.go:460-467 | the read half of a poll finds the row as it is then, or none |
| `Handoff.Registry.PollActs` | internal/registry/registry.go:399-444 | the write half of a poll, on a row that may have changed since it was read: each answer exactly in its case |
| `Handoff.Registry.Approve` | internal/registry/registry.go:545-625 | a decidable request and a free id: approved with the token parked and a fresh term; otherwise the error and no change at all |
| `Handoff.Registry.ApproveAsReplacement` | internal/registry/registry.go:639-685 | the same for an existing mon-client, which must exist |
| `Handoff.Registry.Reject` | internal/registry/registry.go:707-721 | only a live pending request is rejected |
| `Handoff.Registry.Revoke` | internal/registry/registry.go:898-932 | the hash is cleared and every parked token of the mon-client blanked |
| `Handoff.Registry.Delete` | internal/registry/registry.go:940-960 | the row goes and every parked token is blanked |
| `Handoff.Registry.ExpireRequests` | internal/registry/registry.go:487-496 | exactly the stale pending rows expire |
| `Handoff.PollsAnswerTruly` | internal/registry/registry.go:399-444 | in every run a poll answers exactly what the row was at its own read: pending before its expiry, rejected, expired, unknown, or approved for the row's mon-client |
| `Handoff.DecisionsAreTold` | internal/registry/registry.go:545-721 | it says rejected only after a rejection of that request was committed, and approved only after an approval was, for the mon-client that named |
| `Handoff.DecisionsAreExplained` | internal/registry/registry.go:545-721 | in every run a decided row was decided while pending and not past its expiry, and an approved one carries that approval's mon-client, its five minutes and at most its token |
| `Handoff.HandedIsAnswered` | internal/registry/registry.go:429-441 | the tokens handed out are exactly those in the answers, in order, each minted for the request it is answered for |
| `Handoff.WritesAreNarrow` | internal/registry/registry.go:399-444 | a poll's write expires what it read as stale or takes the token it hands out, on its own row, and otherwise changes nothing |
| `Handoff.HandsOnlyLiveTokens` | internal/registry/registry.go:429-441 | a poll hands out only a token that was minted, never handed out and never forbidden |
| `Handoff.EachTokenOnce` | internal/registry/registry.go:399-444 | however polls interleave with everything else no token is handed out twice |
| `Handoff.ForbiddenStaysIn` | internal/registry/registry.go:898-960 | no token is handed out after its mon-client was revoked or deleted, or its request expired |
| `Handoff.StatusOnlyAdvances` | internal/registry/registry.go:460-477 | a request moves from pending to a decision or expiry and from a decision at most to expiry |
| `Handoff.NeverPendingAgain` | internal/registry/registry.go:446-477 | so it is never pending again |
| `Admission.CeilSeconds` | internal/registry/registry.go:347-353 | whole seconds, at least one, never short, never a second too long |
| `Admission.Desk.Register` | internal/registry/registry.go:250-341 | the checks in order, and a row only on admission |
| `Admission.AdmittedIff` | internal/registry/registry.go:250-341 | admitted, for five minutes, exactly with a valid code, nothing admitted from the address within a minute, and fewer than three live requests from it and twenty in all |
| `Admission.CapsHold` | internal/registry/registry.go:250-341 | in every reachable state at most three live requests are pending per address and twenty in all, and admissions of one address are a minute apart |
| `Admission.RetryAfterSuffices` | internal/registry/registry.go:363-376 | waiting out the quoted time with no other admission gets past the check that refused |
| `Admission.RateRetryIsTight` | internal/registry/registry.go:274-277 | a second less would not |
| `Admission.CapRetryIsTight` | internal/registry/registry.go:363-376 | nor for the caps |
| `Slugs.UniqueSlug` | internal/registry/registry.go:1085-1117 | the loop returns the first candidate the fetched ids do not hold |
| `Slugs.FreshIffSuffixesFit` | internal/registry/registry.go:1085-1117 | the id returned is free in every registry if and only if the base leaves room for every suffix |
| `Grid.Interval` | internal/client/app/loop.go:467-474 | a positive interval is used as it is, anything else becomes a minute, so the interval is always positive |
| `Grid.NextStart` | internal/client/app/loop.go:449-463 | the wait is between zero and one interval |
| `Grid.NextIsTheFirstTickAhead` | internal/client/app/loop.go:449-463 | the next start is the least later tick not past when the clock has not stepped back behind the last start, and one interval from now when it has |
| `Grid.Schedule` | internal/client/app/loop.go:213-235 | the loop of Run |
| `Grid.RunsStayOnTheGrid` | internal/client/app/loop.go:213-235 | over a run under one interval every start is on the first start's grid and later than the one before |

## Left out

- HTTP handlers, sessions, the admin pages, TLS and certificates, bootstrap files and permissions: plumbing around the decisions modelled here.
- Telegram: wording and delivery; of an engine event the model keeps whether it is silent.  `Ledger` takes `notified` as given when an engine event is filed, and lets any later failure of its message put it back.
- Poller.Poll: the order of a cycle's requests; the model has its parts (observing, reading the material, draining, stats) and lets them happen in any order.
- RebuildAll is one step that works or fails: a failing one may have rebuilt some documents, and the rebuilds of one document (an approval, an edit of its paths, a missing document asked for) are not modelled.
- The probe subId and the ensure answer's unallocated pairs: stored values no modelled decision reads.
- The config revision is a hash of the document; the model compares documents instead.
- JSON columns and documents: the abstract values are stored, so a column that does not parse has no fallback here; an unreadable outbox payload is a flag of its row.
- Database errors, except as a heartbeat's transaction rolling back; markSent failing between two statements of a flush is not modelled.
- int64 overflow and sub-millisecond time: integers are unbounded and in milliseconds.
- ProbeMaterial.Holder.Read: each request's outcome is also observed for PANEL_DOWN, which `Watch` and `Ledger` model apart.
- Stats.Group: a heartbeat's deltas are values in a map rather than shared objects, so aliasing between them is not modelled.
- Stats.Table.Flush: a round is one step; a heartbeat in between is what `Stats.LateStampIsTrueIff` is about.
- Engine.Engine.MarkOffline: the method runs without interruption; what may come between its query and its transactions is left to the runs, where `GoSilent` marks a mon-client at any time after.  A mon-client deleted in between, for which only an event is filed, is not modelled.
- Engine.Engine.Heartbeat: the config keys, exclusions and thresholds it works with are parameters, read by code modelled in `Config` and `Machine`; concurrent heartbeats are serialised by the one write connection.
- Delivery.Loop.Once: failing to save cycles.json is the `LoseFile` of `Protocol`, which loses it whole; state.json is taken to hold every ack it was given; seqs within one request are distinct because the buffer made them.
- Delivery.Loop.FetchAndApply: what applying a document does to the xray and AWG children is a yes or no.
- Handoff.Registry.Approve: the name, region, paths and approval hook of the new mon-client; its id is a parameter, `Slugs` allocates it.
- Slugs.UniqueSlug: slugify itself; and LIKE is taken as an exact prefix, since its wildcards only fetch more ids and no truncated candidate can be among them.
- Admission.Desk.Register: the pairing code's pattern is a yes or no; retention deleting old requests is not modelled.
- Outbox.Poller.Flush: a round is one step, so a message failing between its read and its write is one before or after it; retention deleting sent rows; the order of rows with equal time follows the id as text.
- Supervisor, retention, login lockout, settings load and save, SuggestReplacement, AWG and xray link building: short branch logic, or code whose effects are outside.
