# Kompany: protocols and algorithms, modelled and proved in Dafny

Kompany runs a company of software agents. Its engine, desktop shell and dashboard contain a number of small
protocols in which several functions must agree over a whole run, and a number of loops that must agree with a
plain definition. This project models those parts and proves what they keep.

| part | files |
|---|---|
| outward queue: keys, interleaved enqueuers, founder verdicts, lane ticks, policy gate | `Outbox.dfy`, `OutwardPolicy.dfy`, `OutboxProtocol.dfy`, `EnqueueCalls.dfy`, `OutboxRuns.dfy`, `OutwardLane.dfy`, `OutwardRuns.dfy`, `LeaseRaces.dfy`, `LaneEntry.dfy`, `DuplicateSuppression.dfy` |
| desktop profiles: ids, registry, tokens, switching | `TargetIds.dfy`, `TargetRegistry.dfy`, `RegistrySafety.dfy`, `Desktop.dfy`, `DesktopPicks.dfy`, `DesktopRuntime.dfy`, `SlugText.dfy`, `RegistryOutcomes.dfy`, `RegistryExamples.dfy` |
| desktop self-update gate | `Updates.dfy` |
| studio activity buffer and backfill | `Activity.dfy` |
| executive review, rework loop, founder cards | `Review.dfy`, `ReviewLoop.dfy`, `FounderCards.dfy` |
| money moved by approvals | `ApprovalEffects.dfy` |
| approvals and rejections of one card that overlap | `CardCalls.dfy`, `CardSafety.dfy`, `CardRuns.dfy`, `OverlappingVerdicts.dfy` |
| credential leases and the plaintext scan | `Leases.dfy`, `PlaintextScan.dfy` |
| glossary, drift scan, pattern filters | `Glossary.dfy`, `GlossaryScan.dfy`, `Distillation.dfy` |
| founder lists, version order | `NeedsYou.dfy`, `FounderLists.dfy`, `Versions.dfy` |
| shared: stable sorting, filters, option and result types | `Sorting.dfy`, `Wrappers.dfy` |

`dafny verify dfyconfig.toml` checks everything.

Code that changes state step by step is a class or a method with loops, tied by its contract to a function of the old
state; what the program promises is then proved about that function. Protocols whose point is the interleaving are
state machines: one step for each database statement of the outward queue, the lane and the card handlers, one for each
stretch between two awaits of a desktop command, and theorems over all step sequences. What is coarser than that is
listed under "Left out".

## Where the code does not do what is said of it

Each is a lemma: a concrete run, or an if-and-only-if that names the condition.

- The rework loop is said to end because rounds are counted. The executor stores a fresh task result without
  `csuite_rework_rounds` (kompany/src/kompany/core/harness_execution/executor.py:507-520), and so does the in-process
  runner (kompany/src/kompany/core/runner.py:320-327), so the count restarts with every run and a reviewer who always
  holds keeps the loop going. With a kept counter the bound holds and is exact (`ReviewLoop.LoopIsBoundedIff`,
  `ReviewLoop.BoundIsMet`).
- The outward lane documents that its lease stops two ticks from sending one action, and that it takes the lease before
  it pulls a row (kompany/src/kompany/core/outward_lane.py:11-17). The code pulls the row first (lines 86-105), and the
  lease is read and replaced in two statements (kompany/src/kompany/core/lane_registry.py:106-121). A tick that
  ends also drops a lease it no longer holds (lines 123-128). `OutwardLane.RunIsSafeIff` is the exact condition under
  which no action is sent too often, `OutwardLane.UnguardedOnlyIf` says what must be the case when it fails, and
  `LeaseRaces` has four runs in which it does: `TwoReadersDispatchTwice`, `StaleReadDispatchesTwice`,
  `ExpiredLeaseDispatchesTwice` and `ReleasedLeaseDispatchesTwice`.
- `approve_outward_park` describes an "approved" stamp that lets the row skip the policy gate
  (kompany/src/kompany/channels/outbox.py:349-373). No such stamp is written: whether a row can be sent depends on its
  class, side effect and cost alone (`OutwardRuns.DispatchableIffAuto`), and a gated one can be parked and approved for
  ever (`OutwardRuns.ApprovedAgainAndAgain`). The approval does not look at the row's status either: a row enters the
  queue again for every approval that finds it parked or resolved (`OutwardRuns.EntriesAreApprovals`), so the second card
  of a row that two ticks parked sends it again (`OutwardRuns.SecondCardSendsAgain`).
- The `effect_applied` stamp is said to guard against funding twice when an approval is replayed
  (kompany/src/kompany/core/approval_effects.py:10-14). It does for calls one after the other
  (`CardSafety.SerialCallsActOnce`). The handlers run in a thread pool
  (kompany/src/kompany/interfaces/api_parts/projects.py:198-209), the database locks one statement at a time
  (kompany/src/kompany/state/database.py:104-119), and the stamp is written after the money moved: the exact condition is
  `OverlappingVerdicts.CreditedMoreThanOnceIff`, a run that credits twice is
  `OverlappingVerdicts.OverlappingApprovalsCreditTwice`. A card can also end rejected with its money moved
  (`OverlappingVerdicts.RejectedCardHasCredited`), and a review approved and rejected
  (`OverlappingVerdicts.OverlappingVerdictsBothStamp`).
- `reject_outward_park` says that a rejected action never sends (kompany/src/kompany/channels/outbox.py:376-377). An auto row
  still is sent exactly if a tick holds it (`OutwardRuns.DiscardedIsDispatchedIffHeld`).
- `enqueue_outward` says that the loser of a race returns the winner's row
  (kompany/src/kompany/channels/outbox.py:294-300). If the winner is resolved before the loser looks again, the loser
  raises (`OutwardRuns.LoserOfTheRaceCanRaise`).
- `unique_id` does not check its last form (tauri/src-tauri/src/target_registry.rs:170-185): when all three are taken, a
  create replaces an existing profile (`RegistryExamples.CreateCanReplace`). The origin check then forces another URL, so
  that profile's token is removed.
- A token file without a profile is adopted by the next profile under its id (`RegistrySafety.NewProfileAdoptsOrphan`);
  after the registry file became unreadable, an old token goes to a new profile of the same name at any URL
  (`RegistrySafety.LostRegistryHandsOverTokens`).
- The next pick is said to log in again after a save (tauri/src-tauri/src/desktop.rs:404-405). A profile that gets a new
  token at the same URL while its own pick is in flight is shown with the old login, now and by the next pick
  (`Desktop.SaveDuringPickIsMissedIff`, `RegistryExamples.NextPickDoesNotLogInAgain`).
- `set_active` loads the registry and persists it without a lock (tauri/src-tauri/src/target_registry.rs:366-376). A save
  in between is lost, and its token belongs to no profile at its URL exactly if the profile was new or its URL changed
  (`Desktop.SaveInsideActivationIsLost`).
- The glossary scan promises total occurrences. The operations on a glossary refuse a repeated term, but loading a stored
  one does not look for it (kompany/src/kompany/state/glossary.py:292-321), so a term that was written twice is counted
  twice (`Glossary.RepeatedRowIsCountedTwice`).
- The allowlist of money actions names other action types than the engine files
  (kompany/src/kompany/core/harness_execution/executor.py:46-48), so no budget card of the engine is shown as money; nor is
  a parked outward action shown as a ship gate (`NeedsYou.EngineCardsAreDecisions`).
- A funding lowers the unallocated treasury by its amount only for an active project that is not overspent
  (`ApprovalEffects.FundingIsExact`).
- `newer` is a strict weak order only on versions that are present: incomparability passes through a version exactly if
  that one is (`Versions.IncomparabilityPassesIffPresent`; `Versions.AbsentBreaksIncomparability` is an example).

## Model

| member | source | states |
|---|---|---|
| `Outbox.OutboxStore.Add` | kompany/src/kompany/channels/outbox.py:63-99 | an insert is refused exactly when a row has the same id or a live row holds the same non-empty key; otherwise the row is appended and returned |
| `Outbox.OutboxStore.SetStatus` | kompany/src/kompany/channels/outbox.py:125-133 | the new table is the update's, or unchanged when the index refuses it; the one-live-row index holds afterwards |
| `Outbox.OutboxStore.EnqueueOutward` | kompany/src/kompany/channels/outbox.py:237-309 | run alone: while an action with the key is live its row is returned and nothing is queued, otherwise exactly one queued row is added; it fails only on a row id in use |
| `Outbox.UpdateRefusedIff` | kompany/src/kompany/channels/outbox.py:125-133 | a status change is refused exactly when it would revive a resolved row whose key another live row holds |
| `Outbox.InsertKeepsIndexed` | kompany/src/kompany/channels/outbox.py:82-98 | an accepted insert keeps ids distinct and at most one live row per non-empty key |
| `Outbox.UpdateKeepsIndexed` | kompany/src/kompany/channels/outbox.py:125-133 | an accepted status change keeps both indexes |
| `OutboxProtocol.KeysStayUnique` | kompany/src/kompany/channels/outbox.py:237-309 | in every interleaving of enqueue calls cut into their statements, drafts, verdicts and lane ticks, every state has at most one live row per non-empty key |
| `EnqueueCalls.ReturnedRowsWereLive` | kompany/src/kompany/channels/outbox.py:264-309 | in every interleaving, a call that returns gives a row with its own key that was live at an instant while the call was under way |
| `EnqueueCalls.CallAloneIsEnqueue` | kompany/src/kompany/channels/outbox.py:264-309 | the steps of one call that nothing interrupts do what the method above does: same table, same result, in every case |
| `EnqueueCalls.RaisesIff` | kompany/src/kompany/channels/outbox.py:294-300 | after a refused insert the call raises exactly when nobody holds the key at the second lookup |
| `OutboxProtocol.RowsPersist` | kompany/src/kompany/channels/outbox.py:125-133 | no step removes a row, renames it or changes its key |
| `DuplicateSuppression.KeysAreApart` | kompany/src/kompany/channels/outbox.py:219-234 | a given key is the key; two calls without one share a key exactly if their digests are equal, and a given key meets a keyless one exactly if it spells its digest |
| `DuplicateSuppression.AskAnswers` | kompany/src/kompany/channels/outbox.py:264-309 | a call alone returns a row that is a draft, queued or parked for its action if there is one, and otherwise, under a free id, queues one new row |
| `DuplicateSuppression.SecondRequestIsQueuedIff` | kompany/src/kompany/channels/outbox.py:217-309 | of two requests for which nothing was queued, the second gets a row of its own exactly if it names another action; so keyless ones with different digests are both queued |
| `DuplicateSuppression.ActionIsFreeAfter` | kompany/src/kompany/channels/outbox.py:101-118 | an action can be queued again exactly when its row was approved, discarded, sent or failed |
| `DuplicateSuppression.RefusedIff` | kompany/src/kompany/channels/outbox.py:82-98 | an insert is refused exactly beside a row of the same id, or of the same non-empty key if both are drafts, queued or parked |
| `LaneEntry.PullTakesTheOldest` | kompany/src/kompany/channels/outbox.py:153-166 | a tick pulls the oldest row that is a draft or queued, of equally old ones the first, and ends without one |
| `LaneEntry.HeldLeaseStopsTicks` | kompany/src/kompany/core/outward_lane.py:79-105 | while the lease is held no tick starts, and one that pulled a row ends when it reads the lease |
| `OutwardPolicy.FlooredIffAlwaysGated` | kompany/src/kompany/core/outward_policy.py:39-78 | exactly a founder-identity or spending action is gated under every policy |
| `OutwardLane.StepKeepsSafeIff` | kompany/src/kompany/core/outward_lane.py:79-231 | no step but a replacement of the lease can endanger the dispatch bound, and that one does exactly when its row entered the queue no more often than it was dispatched and is being worked on |
| `OutwardLane.RunIsSafeIff` | kompany/src/kompany/core/outward_lane.py:79-231 | in every interleaving of callers, founder and lane ticks, with the lease read and replaced in two statements: every state is safe exactly when every replacement was guarded |
| `OutwardLane.DispatchesAreBounded` | kompany/src/kompany/core/outward_lane.py:79-231 | so in a guarded run no row is dispatched more often than it entered the queue |
| `OutwardLane.ReplaceKeepsSafeIff` | kompany/src/kompany/core/lane_registry.py:92-121 | replacing the lease keeps its row's bound exactly when guarded; neither a fresh read nor an unexpired lease is enough |
| `OutwardLane.UnguardedOnlyIf` | kompany/src/kompany/core/outward_lane.py:79-231 | in a safe state an unguarded replacement is one for a row that no longer waits, or that another tick may dispatch or is recording |
| `OutwardRuns.UnguardedReplaceDispatchesTooOften` | kompany/src/kompany/core/outward_lane.py:94-190 | after every unguarded replacement for an auto row the lane can go on to dispatch it more often than it entered |
| `LeaseRaces.TwoReadersDispatchTwice` | kompany/src/kompany/core/lane_registry.py:106-121 | a concrete run from a safe state and without any expiry: both ticks read the lease before either replaces it, and the row, which still waits, is dispatched twice for one entry |
| `LeaseRaces.StaleReadDispatchesTwice` | kompany/src/kompany/core/outward_lane.py:86-105 | a concrete run: the second tick pulled the row before it took the lease, and dispatches a row that is sent already |
| `LeaseRaces.ExpiredLeaseDispatchesTwice` | kompany/src/kompany/core/lane_registry.py:109-120 | a concrete run: a lease expires under its holder, and a second tick dispatches the same row |
| `LeaseRaces.ReleasedLeaseDispatchesTwice` | kompany/src/kompany/core/lane_registry.py:123-128 | a concrete run without any expiry, with the bound intact until the last lease is taken: the end of one tick drops the lease another tick holds, a third tick reads no lease for the same waiting row, and the row is dispatched twice for one entry |
| `OutwardRuns.GatedRowIsNeverDispatched` | kompany/src/kompany/core/outward_lane.py:111-123 | in every run in which the policy gates a row it is never dispatched, however often it is approved |
| `OutwardRuns.BarredRowIsNeverDispatched` | kompany/src/kompany/core/outward_policy.py:61-76 | in a run in which every policy lacks the row's class, or has a cap below its cost, the row is never dispatched |
| `OutwardRuns.FlooredRowIsNeverDispatched` | kompany/src/kompany/core/outward_policy.py:70-76 | a floored row is never dispatched, whatever policies are set during the run |
| `OutwardRuns.DispatchableIffAuto` | kompany/src/kompany/core/outward_lane.py:111-151 | while the policy stays, a row that is next in line can be dispatched exactly if its class is auto, no floor applies and its cost is within the cap; the founder's approval is no part of it |
| `OutwardRuns.EverDispatchableIffNotFloored` | kompany/src/kompany/core/outward_policy.py:39-78 | with policies that may change, exactly if no floor applies |
| `OutwardRuns.ApprovedAgainAndAgain` | kompany/src/kompany/channels/outbox.py:349-373 | a queued row can be parked and approved any number of times, each time coming back to where it was, undispatched |
| `OutwardRuns.ApprovalEntersIff` | kompany/src/kompany/channels/outbox.py:349-373 | an approval puts a row back into the queue exactly if the row is parked, or is resolved with its key free; whether it was parked is not looked at |
| `OutwardRuns.EntriesAreApprovals` | kompany/src/kompany/channels/outbox.py:349-373 | in every interleaving in which rows are queued again by founder approvals only, a present row enters the queue once for every approval that found it parked and once for every one that found it resolved with its key free, and never otherwise |
| `OutwardRuns.SecondCardSendsAgain` | kompany/src/kompany/channels/outbox.py:349-373 | a sent row, alone in the queue, is dispatched once more after another approval of it |
| `OutwardRuns.DiscardedIsDispatchedIffHeld` | kompany/src/kompany/channels/outbox.py:376-390 | a discarded auto row can still be dispatched without being queued again exactly if a tick holds it already |
| `OutwardRuns.DiscardIsOverwritten` | kompany/src/kompany/core/outward_lane.py:153-190 | a discard while a tick is sending the row is overwritten when the tick stores its status |
| `OutwardRuns.LoserOfTheRaceCanRaise` | kompany/src/kompany/channels/outbox.py:294-300 | a concrete run in which the loser of a race raises, against the comment that it returns the winner's row |
| `TargetIds.Slug` | tauri/src-tauri/src/target_registry.rs:132-156 | for every byte string the generated id is accepted by the id check and has at most 49 characters |
| `TargetIds.SlugIsValid` | tauri/src-tauri/src/target_registry.rs:132-156 | it starts with `remote`, and is `remotetarget` exactly when the name has no ASCII letter or digit |
| `TargetIds.UniqueIdIsUsable` | tauri/src-tauri/src/target_registry.rs:170-185 | a generated id is valid, at most 59 characters, never a reserved id, and taken exactly when all three of its forms are taken |
| `SlugText.SlugSpellsTheWords` | tauri/src-tauri/src/target_registry.rs:132-156 | the id of a name made of words is `remote-` and the words in small letters, joined by single hyphens, cut after 48 or 49 characters if longer |
| `SlugText.CandidatesDifferIff` | tauri/src-tauri/src/target_registry.rs:170-185 | the second choices of two instants differ exactly if their last nine digits do |
| `RegistryOutcomes.TrimIsExact` | tauri/src-tauri/src/target_registry.rs:73-74 | trimming takes all white space off both ends and nothing else |
| `RegistryOutcomes.SpaceIff` | tauri/src-tauri/src/target_registry.rs:73-74 | white space is exactly the 25 code points that Unicode lists |
| `RegistryOutcomes.StripUrlIsExact` | tauri/src-tauri/src/target_registry.rs:73-74 | the stored URL is the given one without white space around it and slashes at its end |
| `RegistryOutcomes.Utf8CharDecodes` | tauri/src-tauri/src/target_registry.rs:132-140 | the bytes of a code point are as many as it needs and decode to it |
| `RegistryOutcomes.LoadKeepsTheSensible` | tauri/src-tauri/src/target_registry.rs:232-290 | loading keeps exactly the profiles with a usable id, name and URL, each as often as stored, and the active choice exactly if it is local or kept; the file is rewritten only to give up the choice |
| `RegistryOutcomes.FirstLoad` | tauri/src-tauri/src/target_registry.rs:226-290 | without a readable file the old remote URL, if accepted, becomes the only profile and the active target, and is persisted |
| `RegistryOutcomes.SaveAnswers` | tauri/src-tauri/src/target_registry.rs:297-320 | the answer to a save in every case, in the order of the checks: URL, another profile's server, id, name |
| `TargetRegistry.NormalizeUrl` | tauri/src-tauri/src/target_registry.rs:73-86 | accepts exactly HTTP(S) URLs with a host and without credentials, and returns them trimmed and without slashes at the end |
| `TargetRegistry.Disk.Load` | tauri/src-tauri/src/target_registry.rs:232-290 | the registry returned and the file written are those of `LoadStored`: migration, filter, and fallback to the local engine |
| `TargetRegistry.Disk.Save` | tauri/src-tauri/src/target_registry.rs:297-337 | result and new files are those of `SaveTarget`, on every path including each refusal |
| `TargetRegistry.Disk.Remove` | tauri/src-tauri/src/target_registry.rs:339-364 | result and new files are those of `RemoveTarget`, on every path |
| `TargetRegistry.Disk.Activate` | tauri/src-tauri/src/target_registry.rs:366-376 | result and new file are those of `SetActive`, on every path |
| `TargetRegistry.Disk.WriteToken` | tauri/src-tauri/src/target_registry.rs:393-412 | result and new token file are those of `SaveToken`, on every path |
| `RegistrySafety.LoadReturnsTheFile` | tauri/src-tauri/src/target_registry.rs:232-290 | loading changes nothing exactly when the filter keeps every profile and the active id is local or stored |
| `RegistrySafety.LoadOfNothing` | tauri/src-tauri/src/target_registry.rs:226-290 | a first start, or one with an unreadable file, persists a registry in good shape |
| `RegistrySafety.SaveKeepsShape` | tauri/src-tauri/src/target_registry.rs:297-337 | a save keeps ids distinct, valid and unreserved, origins distinct, and the active id local or stored |
| `RegistrySafety.RemoveKeepsShape` | tauri/src-tauri/src/target_registry.rs:339-364 | so does a removal |
| `RegistrySafety.RunsAreSafe` | tauri/src-tauri/src/target_registry.rs:297-427 | over every run of save, remove, activate and write-token: the shape holds, loading returns exactly what was persisted, and every stored token belongs to a registered profile and was entered for its present URL |
| `RegistrySafety.FirstLoadOwnsTokensIff` | tauri/src-tauri/src/target_registry.rs:226-290 | after a missing or unreadable registry file is loaded every token is owned exactly if there is none but the legacy one, entered for the accepted legacy URL |
| `RegistrySafety.RunsFromAFirstLoadAreSafe` | tauri/src-tauri/src/target_registry.rs:232-427 | from such a start every run is safe |
| `RegistrySafety.NewProfileAdoptsOrphan` | tauri/src-tauri/src/target_registry.rs:297-337 | a token file without a profile is adopted by the next profile that gets its id, given or generated |
| `RegistrySafety.LostRegistryHandsOverTokens` | tauri/src-tauri/src/target_registry.rs:232-337 | after the registry file became unreadable, creating a profile under its old name hands it the old token, for any accepted URL |
| `RegistryExamples.CreateCanReplace` | tauri/src-tauri/src/target_registry.rs:170-185 | for every name, at almost every instant, there is a registry in good shape in which a create replaces one of three profiles |
| `TargetRegistry.ValidateTarget` | tauri/src-tauri/src/target_registry.rs:117-130 | a record is accepted exactly with a valid unreserved id, a trimmed name of 1 to 80 characters and an accepted URL, and is returned trimmed and normalised |
| `RegistrySafety.CreateNeverFailsOnItsId` | tauri/src-tauri/src/target_registry.rs:297-320 | a create succeeds exactly for an accepted URL and name and a new origin; its generated id is never the reason for a refusal |
| `RegistrySafety.SaveUnderAnIdSucceedsIff` | tauri/src-tauri/src/target_registry.rs:297-320 | a save under a given id succeeds exactly for an accepted URL and name, a valid unreserved id, and an origin no other profile has |
| `RegistrySafety.CreateAddsUnlessIdsRunOut` | tauri/src-tauri/src/target_registry.rs:170-185 | a create adds a profile exactly unless the three generated ids are all taken |
| `RegistrySafety.CollidingCreateDropsTheToken` | tauri/src-tauri/src/target_registry.rs:297-337 | a create that lands on an existing profile always changes its URL, because the origin is new, and so drops its token |
| `RegistrySafety.SaveChangesOneProfile` | tauri/src-tauri/src/target_registry.rs:297-337 | a refused save changes nothing; any other writes one profile as asked; its token survives unless its URL changed; all other profiles, tokens and the active choice stay |
| `RegistrySafety.RemovalChangesOneProfile` | tauri/src-tauri/src/target_registry.rs:339-364 | a refused removal changes nothing; any other takes one profile with its token, falls back to local if it was active, and leaves all others alone |
| `RegistrySafety.TokenRoundTrip` | tauri/src-tauri/src/target_registry.rs:393-427 | a refused token changes nothing; a saved one is read back trimmed, a blank one changes nothing, and no other profile or token moves |
| `Desktop.EveryInterleavingIsConsistent` | tauri/src-tauri/src/desktop.rs:338-436 | in every interleaving of picks, saves and removals: the switching flag is set exactly while one pick is in flight and never two are; the active id is local, the environment's or registered; persisted and shown choice agree unless the environment's is shown |
| `Desktop.StartupIsConsistent` | tauri/src-tauri/src/main.rs:322-334 | the active id that the setup publishes, over a registry in good shape, starts with all of that |
| `Desktop.SaveDuringPickIsMissedIff` | tauri/src-tauri/src/desktop.rs:404-421 | when a profile is saved while its own pick waits, the completed pick shows an outdated login exactly if the save changed its token and not its URL |
| `Desktop.MissedLoginIsNotMadeUp` | tauri/src-tauri/src/desktop.rs:366-402 | then the next pick finds the view warm and shows it without logging in |
| `RegistryExamples.NextPickDoesNotLogInAgain` | tauri/src-tauri/src/desktop.rs:404-421 | a concrete run of that, against the comment that the next pick re-authenticates |
| `Desktop.SaveKeepsCurrentIff` | tauri/src-tauri/src/desktop.rs:404-421 | a save leaves the shown views current, and the logins in flight exactly unless it overtakes one |
| `Desktop.LoginsAreCurrentIff` | tauri/src-tauri/src/desktop.rs:366-436 | in every interleaving all logins stay current exactly if no save overtakes a pick in flight |
| `Desktop.UndisturbedPicksLogInAgain` | tauri/src-tauri/src/desktop.rs:366-436 | so without such a save no warm view was logged in with an outdated token |
| `DesktopPicks.CompletedPickSwitches` | tauri/src-tauri/src/desktop.rs:386-399 | a pick that completes makes its target active and persists that, unless the profile was removed meanwhile; a failed one leaves target, choice and views as they were |
| `DesktopPicks.StartedPick` | tauri/src-tauri/src/desktop.rs:366-399 | an available target with an open view is switched to at once; any other waits with its URL and token; an unavailable one, or a second pick, changes nothing |
| `DesktopPicks.PickShowsTheTarget` | tauri/src-tauri/src/desktop.rs:366-399 | a pick that nothing interrupts shows an available target: active, persisted unless it is the environment's, at its present URL, and logged in with its present token unless its view was open |
| `DesktopPicks.SaveDropsTheView` | tauri/src-tauri/src/desktop.rs:404-421 | a save drops the view of its profile and no other and switches nothing; a refused one changes nothing |
| `DesktopPicks.RemovalDropsTheView` | tauri/src-tauri/src/desktop.rs:423-436 | the shown target is not removed; any other profile goes with its token and view, and nothing is switched |
| `Desktop.SaveInsideActivationIsLost` | tauri/src-tauri/src/target_registry.rs:366-376 | a save with a token between the load and the persist of `set_active` is lost and its token stays; every token still belongs to a profile and its URL exactly if the save neither created the profile nor changed its URL |
| `Desktop.WindowBetweenPersistAndPublish` | tauri/src-tauri/src/desktop.rs:395-399 | a command that ran between persisting and publishing the choice would break their agreement exactly if it removed the picked profile |
| `DesktopRuntime.Runtime.StartPick` | tauri/src-tauri/src/desktop.rs:366-383 | the command up to its await is the model's step; a second pick changes nothing, and every return without waiting leaves the flag as it was |
| `DesktopRuntime.Runtime.ContinuePick` | tauri/src-tauri/src/desktop.rs:381-402 | the rest of the command is the model's step, makes the target active exactly if the pick was prepared and the target is local, the environment's or registered, and releases the flag on success and on failure |
| `DesktopRuntime.Runtime.SaveProfile` | tauri/src-tauri/src/desktop.rs:404-421 | the command is the model's step on every path, and touches neither the shown target nor the flag |
| `DesktopRuntime.Runtime.RemoveProfile` | tauri/src-tauri/src/desktop.rs:423-436 | the command is the model's step; the shown target is refused without any change |
| `DesktopRuntime.Runtime.ResolveNow` | tauri/src-tauri/src/desktop.rs:235-253 | base URL and token of a target, or nothing, without changing anything |
| `Updates.UpdateState.Set` | tauri/src-tauri/src/updates.rs:43-53 | the record becomes the given phase, version and error; a new check resets the byte counts |
| `Updates.UpdateState.Downloaded` | tauri/src-tauri/src/updates.rs:55-60 | the byte count grows and saturates at 64 bits; an unknown or zero total is indeterminate |
| `Updates.NextIsSafe` | tauri/src-tauri/src/updates.rs:72-115 | each step keeps: the gate is up exactly while one check is inside, a version is announced exactly when ready, and in the ready phase nobody may write |
| `Updates.EveryInterleavingIsSafe` | tauri/src-tauri/src/updates.rs:72-165 | that holds in every state of every interleaving of manual and periodic checks, and after the ready phase is reached the status never changes |
| `Updates.EveryRunFromTheStartIsSafe` | tauri/src-tauri/src/updates.rs:39-145 | the same for every interleaving from the state that the setup leaves |
| `Updates.ReadyComesFromTheHolder` | tauri/src-tauri/src/updates.rs:104-107 | the version that becomes ready is the one fetched by the check that holds the gate |
| `Updates.CheckLeaves` | tauri/src-tauri/src/updates.rs:72-115 | what an uninterrupted check leaves: a failed reply, download or installation is shown as that error, nothing newer leaves no trace, and the offered version becomes ready if both end well; the byte count is the sum of the chunks |
| `Updates.ChunksAddUp` | tauri/src-tauri/src/updates.rs:55-60 | while a version is fetched the count adds up the chunks, up to its maximum, and the total is the last one announced |
| `Updates.SecondCheckGivesUp` | tauri/src-tauri/src/updates.rs:95-103 | a check that finds another one inside leaves no trace |
| `Activity.StreamKeepsTheNewest` | board-ui/src/studio/activity.ts:94-98 | feeding a stream line by line leaves exactly the newest `cap` lines (at least one), whatever the buffer held before |
| `Activity.MergeBackfill` | board-ui/src/studio/activity.ts:101-110 | the loop, sort and slice compute the last `cap` lines of the stable sort of replay followed by the first-seen new live lines |
| `Activity.MergedKeepsTheLatest` | board-ui/src/studio/activity.ts:101-111 | whatever the cap: the merged lines ascend in time, the dropped ones are not later than any shown line, and nothing else is lost or added |
| `Activity.SameKeyIff` | board-ui/src/studio/activity.ts:101-106 | two lines count as one exactly if time stamp, kind and text agree, as long as no stamp and no kind holds the separator |
| `Activity.NewLineIsMerged` | board-ui/src/studio/activity.ts:101-111 | a live line that differs from every replayed and earlier live line in one of the three is in the merged lines |
| `Sorting.TextLeIffNotBelow` | board-ui/src/studio/activity.ts:108-109 | the order of texts ascends: the lesser one is a proper prefix or has the smaller character at the first difference |
| `Activity.MergeIsIdempotent` | board-ui/src/studio/activity.ts:101-110 | merging the same replay again changes nothing, for every cap and even where the cap dropped lines |
| `Activity.RemergedTimeline` | board-ui/src/studio/activity.ts:101-110 | before its cap, the second merge shows the dropped replay lines followed by exactly what the first merge showed |
| `Activity.FreshIsFirstSeen` | board-ui/src/studio/activity.ts:102-107 | a live line is kept exactly once if it is the first with its key and the replay lacks the key |
| `Activity.FreshCount` | board-ui/src/studio/activity.ts:102-107 | each live key outside the replay is kept once, and no other key is kept |
| `Activity.TimelineIsSorted` | board-ui/src/studio/activity.ts:108 | the merged lines are in time order |
| `Sorting.StableSortIsTheOnlyOne` | board-ui/src/studio/activity.ts:108 | a list that is ordered and keeps every class of ties in input order is this sort's result, whatever stable algorithm an engine uses |
| `Review.RunReview` | kompany/src/kompany/core/csuite_review.py:168-215 | one finding per reviewer in order; the hold flag is set exactly if some answer is HOLD, the error flag exactly if some reviewer failed |
| `Review.StripTooling` | kompany/src/kompany/core/csuite_rework.py:42-62 | every finding is cleaned as `Clean` says, in order |
| `Review.StripToolingIsIdempotent` | kompany/src/kompany/core/csuite_rework.py:42-62 | cleaning twice changes nothing more |
| `Review.CleanIsIdempotent` | kompany/src/kompany/core/csuite_rework.py:42-62 | for one finding, and a failed reviewer's finding is never altered |
| `Review.RequestReview` | kompany/src/kompany/core/csuite_review.py:112-165 | the outcome is `Decide` of the deliverable and the findings |
| `Review.ClearedUnlessBlocked` | kompany/src/kompany/core/csuite_review.py:112-165 | cleared exactly when the deliverable is not empty, no reviewer failed, and after cleaning no finding is HOLD or has a defect |
| `Review.ClearedIff` | kompany/src/kompany/core/csuite_review.py:112-215 | the same in terms of the raw replies: every reviewer answered, named only tooling defects, and a HOLD named at least one |
| `Review.ReworkIff` | kompany/src/kompany/core/csuite_rework.py:94-123 | work goes back to the team exactly when it is not cleared, every reviewer answered and a round is left |
| `Review.OutcomeIs` | kompany/src/kompany/core/csuite_review.py:112-165 | the outcome in every case, in terms of the replies: requeued without output and files, cleared, the next round number, or a card |
| `Review.CleanedReply` | kompany/src/kompany/core/csuite_rework.py:42-62 | what is kept of each reply: its role, its defects but those about tooling, how many those were, and its hold unless they were all it had; a failed reviewer holds |
| `ReviewLoop.ReviewedRun` | kompany/src/kompany/core/csuite_review.py:112-165 | one reviewed run finishes the task, sends it back with the next round and all retries, or leaves it to the founder, exactly as the replies say |
| `ReviewLoop.NoWorkIsRetried` | kompany/src/kompany/core/harness_execution/retry.py:17-36 | runs without work are retried as often as allowed and then blocked, or left to the parent task; reviewers are not asked |
| `ReviewLoop.StepSpends` | kompany/src/kompany/core/harness_execution/retry.py:17-36 | with a kept counter every attempt that leaves the task waiting lowers (rounds left, retries left) lexicographically |
| `ReviewLoop.SettledWithinTheBound` | kompany/src/kompany/core/csuite_rework.py:94-138 | with a kept counter the task is settled within (max rounds + 1) * (max retries + 1) attempts, whatever runs and reviewers do |
| `ReviewLoop.BoundIsMet` | kompany/src/kompany/core/csuite_rework.py:94-138 | the bound is exact: some sequence keeps the task waiting one attempt less |
| `ReviewLoop.WithoutCounterNeverEnds` | kompany/src/kompany/core/harness_execution/executor.py:507-520 | if runs store a fresh result without the counter, a reviewer who always holds keeps the task waiting for any number of attempts |
| `ReviewLoop.LoopIsBoundedIff` | kompany/src/kompany/core/harness_execution/executor.py:507-520 | some bound exists exactly if runs keep the counter or rework is switched off |
| `FounderCards.ReviewCard.ApproveReview` | kompany/src/kompany/core/csuite_review.py:302-324 | card, task result and effect record are those of an approval step; a terminal card refuses it |
| `FounderCards.ReviewCard.RejectReview` | kompany/src/kompany/core/csuite_review.py:327-353 | the same for a rejection |
| `FounderCards.ReviewCard.StampTask` | kompany/src/kompany/core/csuite_review.py:417-426 | the stamp is merged into an existing task result, and a missing task is left missing |
| `FounderCards.ReviewCard.ReviseReview` | kompany/src/kompany/core/csuite_review.py:356-383 | a revision request closes an open card and stamps the task with the feedback; a closed card, or no feedback, is refused |
| `FounderCards.OneVerdictTakesEffect` | kompany/src/kompany/core/csuite_review.py:302-383 | for any sequence of verdicts given one after the other, replays included, exactly the first effective approve, reject or revision request takes effect and is stamped, and nothing else |
| `FounderCards.VerdictIsOnRecord` | kompany/src/kompany/core/csuite_review.py:302-383 | the fields each verdict writes on the task and when; any other verdict writes nothing |
| `FounderCards.StatusAfter` | kompany/src/kompany/state/approvals_parts/_transitions.py:211-238 | the status after each verdict; a closed card keeps its own |
| `FounderCards.StampKeepsTheRest` | kompany/src/kompany/core/csuite_review.py:417-426 | stamping keeps every field that no stamp names |
| `ApprovalEffects.Engine.Fund` | kompany/src/kompany/core/engine_parts/company.py:85-107 | refused for an amount that is not positive, an unknown project or a shortfall, and then nothing moves |
| `ApprovalEffects.Engine.Approve` | kompany/src/kompany/core/approval_effects.py:67-256 | books and card after an approval are those of `ApproveCard`, on every path |
| `ApprovalEffects.FundingIsExact` | kompany/src/kompany/core/approval_effects.py:148-195 | a funding adds exactly the amount to one envelope, keeps balance, caps and all other envelopes, and never promises more than there is; it lowers the unallocated money by exactly the amount iff the project is active and not overspent |
| `ApprovalEffects.CreditsAddUpToTheAmount` | kompany/src/kompany/core/approval_effects.py:67-256 | over every run of approvals and rejections, one after the other, and changing books, what the approvals credited adds up to the card's amount if it was applied and to nothing otherwise, in one movement at most |
| `ApprovalEffects.EffectRaisesByTheAmount` | kompany/src/kompany/core/approval_effects.py:148-256 | running the effect raises the envelope or the cap by exactly the amount |
| `ApprovalEffects.ApprovalMovesExactly` | kompany/src/kompany/core/approval_effects.py:148-256 | one approval applies the effect exactly if it had not run and can run now; otherwise nothing moves and the card stays retryable |
| `ApprovalEffects.TopUpMovesTheApprovedSum` | kompany/src/kompany/core/approval_effects.py:149-162 | an approved top-up adds the approved number to the envelope whatever was suggested, and the suggested one if none or zero was approved; with the exact condition under which it runs |
| `ApprovalEffects.CapRisesByTheApprovedSum` | kompany/src/kompany/core/approval_effects.py:200-226 | the same for a cap increase, which touches no other cap and no money |
| `ApprovalEffects.RejectedCardMovesNothing` | kompany/src/kompany/state/approvals_parts/_transitions.py:211-238 | a rejection closes an open card: no later approval moves money |
| `ApprovalEffects.FirstChanceIsTaken` | kompany/src/kompany/core/approval_effects.py:161-186 | the effect has run exactly if some approval so far found enough, so a shortfall is never final and the first later chance is taken |
| `CardSafety.RunKeepsBalance` | kompany/src/kompany/state/approvals_parts/_transitions.py:211-238 | in every interleaving of approvals and rejections cut into their statements, every read of an unstamped card has led to one effect, or found nothing to do, or is held by a call that has yet to act |
| `CardSafety.ActsMoreThanOnceIff` | kompany/src/kompany/core/approval_effects.py:67-256 | once no call is about to act, the effect ran more than once exactly if more than one call read the card before its first stamp and found something to do |
| `CardSafety.OnlyEarlierReadersAct` | kompany/src/kompany/core/approval_effects.py:67-256 | after the first stamp only the calls that had read the card before it can still act, each once |
| `CardSafety.SerialCallsActOnce` | kompany/src/kompany/core/approval_effects.py:1-19 | if every call arrives after the one before is gone the effect runs at most once |
| `CardRuns.AloneIsOneStep` | kompany/src/kompany/core/engine_parts/approvals.py:131-185 | the statements of one call that nothing interrupts do what the one-step approval or rejection does |
| `CardRuns.OverlappingCallsBothAct` | kompany/src/kompany/state/approvals_parts/_transitions.py:211-238 | two calls that overlap both act, if there is something to do for the second after the first; the card ends with the status written last |
| `OverlappingVerdicts.ApprovalAloneIsApproveCard` | kompany/src/kompany/core/approval_effects.py:67-256 | the statements of one approval that nothing interrupts give the books and the card of the one-step approval |
| `OverlappingVerdicts.CreditsCountTheActs` | kompany/src/kompany/core/approval_effects.py:67-256 | in every interleaving the account is credited by exactly the amount for every time the effect ran |
| `OverlappingVerdicts.CreditedMoreThanOnceIff` | kompany/src/kompany/core/approval_effects.py:67-256 | in every interleaving, once no approval is about to act, more than the amount is credited exactly if more than one approval read the card before its first stamp and found enough |
| `OverlappingVerdicts.OverlappingApprovalsCreditTwice` | kompany/src/kompany/core/approval_effects.py:67-256 | a concrete run of two approvals of any card: it credits twice the amount whenever there is enough for both, against the stamp that is said to guard against it |
| `OverlappingVerdicts.CapsAreRaisedTwice` | kompany/src/kompany/core/approval_effects.py:216-256 | for a cap increase it always does |
| `OverlappingVerdicts.RejectedCardHasCredited` | kompany/src/kompany/state/approvals_parts/_transitions.py:211-238 | a concrete run of an approval and a rejection: the money moves and the card ends rejected |
| `OverlappingVerdicts.VerdictAloneIsAct` | kompany/src/kompany/core/csuite_review.py:302-353 | the statements of one verdict on a held review that nothing interrupts give the status, stamp and result of the one-step verdict |
| `OverlappingVerdicts.OverlappingVerdictsBothStamp` | kompany/src/kompany/core/csuite_review.py:302-353 | a concrete run of a rejection and an approval of a held review: its task is marked approved and rejected |
| `Leases.FakeBroker.Issue` | kompany/src/kompany/core/credential_broker.py:215-234 | a lease for the known, in-scope reference with the requested lifetime and uses is stored and returned, or nothing changes |
| `Leases.FakeBroker.Consume` | kompany/src/kompany/core/credential_broker.py:285-297 | succeeds exactly for a usable lease and then spends one use; otherwise nothing changes |
| `Leases.FakeBroker.Revoke` | kompany/src/kompany/core/credential_broker.py:299-304 | an existing lease is revoked and left without uses; a missing one is an error |
| `Leases.UsesAreConserved` | kompany/src/kompany/core/credential_broker.py:205-304 | over every run: active exactly while uses remain, consumed plus remaining uses are the allowed ones until revocation, and never more are consumed |
| `Leases.UnusableIsForEver` | kompany/src/kompany/core/credential_broker.py:285-304 | after revocation, exhaustion or expiry no consumption succeeds, if time does not run backwards |
| `Leases.TermsAreFixed` | kompany/src/kompany/core/credential_broker.py:279-304 | no run changes a lease's scope, expiry or use limit |
| `Leases.AcceptedLeaseIsInsideTheReference` | kompany/src/kompany/core/credential_broker.py:133-193 | with any backend, a lease accepted after a successful preflight lies inside the reference's agent, action, destination, use and (plus five seconds) lifetime limits |
| `Leases.ReferenceBoundsTheWholeRun` | kompany/src/kompany/core/credential_broker.py:175-304 | after preflight and issue, no run consumes the lease more often than the reference allows, or at all once its longest lifetime is over |
| `Leases.FakeLeaseIsAcceptedUntilExpiry` | kompany/src/kompany/core/credential_broker.py:133-170 | the client accepts what the in-memory broker issues exactly until it expires, if the secret is filed under its reference's id |
| `Leases.GrantedIff` | kompany/src/kompany/core/credential_broker.py:215-277 | a lease is granted exactly for a request within the limits whose secret is known for its company, project and connector and allows its action; it carries that scope, lifetime and use limit |
| `Leases.ConsumableIff` | kompany/src/kompany/core/credential_broker.py:215-304 | over its whole life: a consumption succeeds exactly if the granted lifetime is not over, the lease was not revoked, and it was consumed less often than granted |
| `Leases.SlackIsFiveSeconds` | kompany/src/kompany/core/credential_broker.py:133-170 | a lease otherwise as requested is accepted exactly until it expires, if it outlives the requested lifetime by at most five seconds |
| `PlaintextScan.RejectPlaintext` | kompany/src/kompany/core/credential_broker.py:438-449 | the worklist ends and rejects exactly when the recursive definition holds |
| `PlaintextScan.ForbiddenIffSomePath` | kompany/src/kompany/core/credential_broker.py:438-449 | that definition holds exactly when some path of nested objects and arrays reaches an object with a forbidden key |
| `PlaintextScan.RefusedIff` | kompany/src/kompany/core/credential_broker.py:438-449 | a document is refused exactly if some object in it, at any depth, has one of the six forbidden keys |
| `PlaintextScan.OrderIsIrrelevant` | kompany/src/kompany/core/credential_broker.py:438-449 | any rule for taking values off the worklist ends and gives the same answer |
| `PlaintextScan.ExpandShrinks` | kompany/src/kompany/core/credential_broker.py:438-449 | each step lowers the total size of the pending values by one |
| `GlossaryScan.CompileGlossary` | kompany/src/kompany/agents/cos_glossary_scan.py:92-121 | the compiled terms list exactly the stripped, non-blank synonyms with their terms, in order |
| `GlossaryScan.Aggregator.ScanText` | kompany/src/kompany/agents/cos_glossary_scan.py:135-173 | one text records exactly one probe per term and synonym, in order, and an empty text none |
| `GlossaryScan.ScanDrift` | kompany/src/kompany/agents/cos_glossary_scan.py:186-270 | the result is strictly sorted by (role, term, synonym) and holds exactly the hits that are owed: absent without a match, else with the total count and the excerpt and source of the first matching text |
| `GlossaryScan.ReportedIff` | kompany/src/kompany/agents/cos_glossary_scan.py:222-267 | a role is reported for a term and synonym exactly if an entry lists it and a reflection of the role, a decision whose first agent is the role, or an event naming the role uses it; shown from a reflection before a decision before an event |
| `GlossaryScan.RecordedEntry` | kompany/src/kompany/agents/cos_glossary_scan.py:135-173 | after any probes an entry holds the total of its key and the excerpt and source of its first match |
| `GlossaryScan.TotalOfSamples` | kompany/src/kompany/agents/cos_glossary_scan.py:186-267 | the recorded total of a key is its number of listings times all matches in the texts of its role |
| `GlossaryScan.CountsIgnoreTheOrderOfTexts` | kompany/src/kompany/agents/cos_glossary_scan.py:186-270 | which keys are reported, and with which counts, is the same for every permutation of the texts |
| `GlossaryScan.CountIsTheTotalIff` | kompany/src/kompany/agents/cos_glossary_scan.py:25-28 | a reported count is the total number of occurrences exactly when the glossary lists the pair once |
| `GlossaryScan.ValidatedGlossaryCountsOnce` | kompany/src/kompany/agents/cos_glossary_scan.py:92-121 | a glossary without repeated terms and without repeated stripped synonyms lists no pair twice |
| `Glossary.NormalizeSynonyms` | kompany/src/kompany/state/glossary.py:90-108 | the loop keeps each stripped, non-blank synonym once up to case |
| `Glossary.NormalizedIsStripped` | kompany/src/kompany/state/glossary.py:90-108 | what it keeps has no repeats, and stripping changes it no more |
| `Glossary.CompanyGlossary.Add` | kompany/src/kompany/state/glossary.py:164-173 | adds exactly a good entry whose term is new up to case, and keeps terms and synonyms free of repeats |
| `Glossary.CompanyGlossary.Update` | kompany/src/kompany/state/glossary.py:175-205 | replaces the synonyms of a term that is there, and keeps the rest and the freedom from repeats |
| `Glossary.CompanyGlossary.Remove` | kompany/src/kompany/state/glossary.py:217-224 | removes exactly the entry of the term |
| `Glossary.EntryIsRefusedIff` | kompany/src/kompany/state/glossary.py:82-124 | an entry is refused exactly if its term is blank or is one of its synonyms up to case; otherwise it has a synonym for each given key |
| `Glossary.LoadedRows` | kompany/src/kompany/state/glossary.py:292-321 | loading skips a refused row and keeps all others in order |
| `Glossary.KeptGlossaryCountsOnce` | kompany/src/kompany/state/glossary.py:126-224 | so a glossary kept by these operations is counted once |
| `Glossary.RepeatedRowIsCountedTwice` | kompany/src/kompany/state/glossary.py:292-321 | a concrete stored glossary with a term written twice: it is loaded as it is, and one occurrence is reported as two |
| `Distillation.FilterPatterns` | kompany/src/kompany/agents/cos_distillation.py:379-412 | kept patterns and warnings are those of the reference definitions, in order |
| `Distillation.FilterInferredOnly` | kompany/src/kompany/agents/cos_distillation.py:415-445 | the patterns with evidence in order, and one record, with at most 200 characters of its claim, for each other |
| `Distillation.KeptIsTheLastOfEachKey` | kompany/src/kompany/agents/cos_distillation.py:379-412 | exactly the last pattern of every key with a known role is kept, one per key, in the order of first occurrence |
| `Distillation.FiltersConserve` | kompany/src/kompany/agents/cos_distillation.py:379-445 | for every key, and in total, sourced, rejected and warned patterns account for the whole input |
| `Distillation.WarningsSayWhy` | kompany/src/kompany/agents/cos_distillation.py:379-412 | a warning says unknown role exactly for a role outside the eleven, and otherwise the key was named before |
| `Distillation.RejectionsQuote` | kompany/src/kompany/agents/cos_distillation.py:415-445 | a rejection names a pattern without evidence and quotes the first 200 characters of its summary |
| `Distillation.SourcedIffTheLastHasEvidence` | kompany/src/kompany/agents/cos_distillation.py:379-445 | a pattern is promoted exactly when it is the last of its key, has a known role and has evidence; an earlier one with evidence does not help |
| `NeedsYou.IntegrationForTask` | board-ui/src/studio/needsYou.ts:92-103 | the first unconnected integration whose name or id the title mentions, and none exactly if there is no such one |
| `NeedsYou.BuildNeedsYou` | board-ui/src/studio/needsYou.ts:112-174 | the pane is the stable sort, by kind and severity, of the pending approvals and blocked tasks, with all their fields |
| `NeedsYou.BuildBoard` | board-ui/src/board/classify.ts:83-120 | the column is the stable sort, by severity, of the pending approvals and blocked tasks, with all their fields |
| `NeedsYou.CountByKind` | board-ui/src/studio/needsYou.ts:177-181 | each count is right and the counts add up to the length of the list |
| `NeedsYou.BothAreStablySorted` | board-ui/src/studio/needsYou.ts:169-173 | each list is ordered by its own key and keeps the incoming order on ties |
| `NeedsYou.SameRows` | board-ui/src/board/classify.ts:78-120 | both lists show the same ids, each equally often, whatever is connected |
| `NeedsYou.SameMoneyRequests` | board-ui/src/board/classify.ts:83-120 | both lists contain the same money approvals, even in the same order |
| `NeedsYou.EngineCardsAreDecisions` | kompany/src/kompany/core/harness_execution/executor.py:46-48 | the engine's budget cards, and its parked outward actions, have other action types than the allowlists name: both lists show them as decisions, never as money or ship gate |
| `NeedsYou.MoneyRequestsAreAboutMoney` | board-ui/src/studio/needsYou.ts:77-80 | the money approvals shown are exactly the pending ones on the allowlist |
| `FounderLists.PaneOrder` | board-ui/src/studio/needsYou.ts:169-173 | money before accounts before decisions, and within a kind the more urgent severity first |
| `FounderLists.BoardOrder` | board-ui/src/board/classify.ts:52-76 | on the Board the more urgent severity comes first |
| `FounderLists.MentionsIff` | board-ui/src/studio/needsYou.ts:82-103 | a task mentions a name exactly if it occurs in the title as whole words, both normalised |
| `FounderLists.PaneShows` | board-ui/src/studio/needsYou.ts:112-174 | the rows are exactly those of requests that are pending or snoozed, and of blocked tasks |
| `FounderLists.RowsSay` | board-ui/src/studio/needsYou.ts:112-174 | kind, title, reason and integration of each row |
| `FounderLists.BadgeIff` | board-ui/src/board/classify.ts:37-50 | which actions are about money, and which hold an outward deliverable |
| `Sorting.FilterSort` | board-ui/src/studio/needsYou.ts:169-173 | keeping a part of a stably sorted list is stably sorting that part |
| `Versions.Newer` | board-ui/src/panes/settings/updateVersions.ts:3-12 | the loop decides the first difference of the two number lists after padding with zeros |
| `Versions.VersionReadsItsNumbers` | board-ui/src/panes/settings/updateVersions.ts:5-7 | a dotted version reads as the numbers its parts spell, with any number of parts and digits; text after a numeral and everything from the first `+` or `-` is ignored |
| `Versions.TagsCompareByNumbers` | board-ui/src/panes/settings/updateVersions.ts:3-12 | X.Y.Z tags compare by their numbers, the first one first, whatever follows a `+` or `-` |
| `Versions.NewerIsAStrictOrder` | board-ui/src/panes/settings/updateVersions.ts:3-12 | on versions of any lengths the comparison is irreflexive, asymmetric and transitive |
| `Versions.IncomparableIffSame` | board-ui/src/panes/settings/updateVersions.ts:3-12 | present versions are incomparable exactly if their numbers are equal after padding with zeros |
| `Versions.IncomparabilityIsTransitive` | board-ui/src/panes/settings/updateVersions.ts:3-12 | among present versions being incomparable is transitive, so the order is a strict weak order |
| `Versions.AbsentBreaksIncomparability` | board-ui/src/panes/settings/updateVersions.ts:4 | with absent versions let in, incomparability is not transitive |
| `Versions.IncomparabilityPassesIffPresent` | board-ui/src/panes/settings/updateVersions.ts:3-12 | incomparability passes through a version, from any version to any other, exactly if that version is present |
| `Versions.PendingUpdates` | board-ui/src/panes/settings/updateVersions.ts:16-26 | names exactly the packages that are behind, and nothing exactly if none is |
| `Versions.NothingPendingIff` | board-ui/src/panes/settings/updateVersions.ts:16-26 | the joined message is empty exactly if neither package is behind |

## Left out

- Glossary.CompanyGlossary: definitions, authors and time stamps of entries are not modelled; stripping and case folding are parameters.
- Updates.Next, Desktop.DoStep, OutboxProtocol.Next: concurrency is modelled on values, one step for each uninterrupted stretch of code; memory orderings, poisoned locks and threads are not modelled.
- OutboxProtocol.Verdict: any status change of any row at any time, which covers both park verdicts and both draft verdicts; approval ids, external references and the other columns of a row are not modelled.
- Outbox.KeyOf: the digest of channel, class, source and text of a keyless action is a parameter.
- OutboxProtocol.Clear: pre-flight gates and the search for an executor only decide between clearing and parking; the executor itself only succeeds or fails.
- OutwardPolicy.Action: the action class stripped, whether the declared side effect is `spend`, and the cost.
- TargetRegistry.ParserContract: the URL library is a parameter; accepted URLs are assumed to have a known port, and white space or slashes at their end to say nothing about scheme, host, port and credentials.
- TargetRegistry.Disk: errors of the file system, crashes between two writes, file permissions and the legacy token file are not modelled; operations complete.
- TargetRegistry.UniqueId: the clock is a parameter.
- Desktop.View: keeps the token a view was logged in with as history; web views, cookies, layout and the status texts are not modelled.
- Desktop.WindowBetweenPersistAndPublish, Desktop.SaveInsideActivationIsLost: state what an interleaving inside one command would do; all other theorems take the code between two awaits as one step.
- DesktopRuntime.Runtime: a call that waits is kept in a map until it continues; its commands are stated for a registry in good shape, in which loading writes nothing.
- Updates.UpdateState: the version of the running app, and restarting into an update, are not modelled.
- Activity.Line: cost and project of a line are not modelled; neither is turning events and replay rows into lines.
- Sorting.TextLe: compares by code point; the dashboard compares by UTF-16 code unit, which differs only for characters outside the basic plane.
- Review.RunReview: prompts, reviewer calls and the parsing of their replies are not modelled; a reply is a failure or a verdict with defect lines. What counts as a tooling defect is a parameter.
- Review.Deliverable: which files are run artifacts is decided before.
- FounderCards.ReviewCard.ReviseReview: a feedback of blanks only is not told apart from other feedback; the successor card that a revision request files is another card.
- FounderCards.UPHELD: the founder-action texts are shortened; audit records and comments are not modelled.
- ApprovalEffects.Next, FounderCards.Act: a whole call is one step, so these are about calls one after the other; overlapping ones are `CardCalls`.
- CardCalls.Next: an effect (a funding, or reading and raising a cap) and the merge that writes the stamp are one step each, and every call finds the card; overlapping revision requests, snoozing and cancelling are not modelled.
- ApprovalEffects.Books: money is in reals, without rounding; audit records, comments and the note on the parked task are not modelled, nor are the other action types.
- Leases.FakeBroker: a generated lease id is assumed to be new in the runs; the lease returned by a successful issue is the stored object itself in the code, and changes to it by a caller are not modelled.
- Leases.Scope: the company, project, connector, agent, worker, action and destination of a request; approvals and idempotency keys are not modelled.
- PlaintextScan.Json: an object is its keys and its values; other values are scalars.
- GlossaryScan.Text: stripping, the regular expressions and the excerpt around a match are parameters.
- GlossaryScan.Event: the text of an event's detail, and the two values in it that name a role, are inputs.
- Distillation.Pattern: confidence and time stamps of a pattern are not modelled.
- NeedsYou.Reading: the normalisation of titles and names, and the plain-language reading of a block reason, are parameters.
- NeedsYou.SeverityRank: severities that are names of built-in object members are not modelled.
- Versions.Number: only ASCII white space before the digits is skipped, and numbers are exact where the code uses floating point.
- User interface, agents, prompts, HTTP, mail, subprocesses, settings and workspaces: outside this model.
