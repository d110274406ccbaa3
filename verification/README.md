# Terminal routing of the console, verified

A Dafny model of the part of the console that decides which worker owns a terminal session and carries
commands to it: the route table and its store, the dispatch and retry loop, the connection registry and
recovery handshake, the slots of a connection, preview routes, tasks, and owner-scoped session ids.

Each lock-protected region of the source is one step. Regions that work on the table are written twice: as a
pure function (`RouteModel`) and as a method of a class with the source's fields, loops and index
(`RouteTable`, `RouteStore`, `SessionRuntime`, `PreviewRoutes`, `TaskStore`); the methods are proved equal to
the functions, and the theorems are about arbitrary interleavings of the steps. A store call may fail at any
point, and a crash may fall between a store call and the memory update that follows it.

## Files

| files | subject |
|---|---|
| `RouteModel`, `RouteInvariants`, `RouteStore`, `RouteTable` | the route table, its node index and its rows |
| `RecoveryReport`, `RecoveryTheorems` | validating a recovery report, and what a handshake leaves behind |
| `Dispatch`, `DispatchInvariants`, `DispatchCounting`, `DispatchTheorems`, `DispatchIncarnations`, `DispatchHazards` | concurrent dispatches over the table |
| `Picker` | choosing a worker |
| `SessionRuntime`, `SlotProtocol` | slots and waiting commands of a connection |
| `ConnectionRegistry`, `ConnectionRuns`, `ConnectionHazard` | connecting, taking over, leaving |
| `PreviewRoutes`, `PreviewProtocol` | preview routes, their quotas and their sessions |
| `TaskStore`, `TaskSubmission`, `TaskTheorems` | task rows, idempotent submission, waiters |
| `OwnerScope`, `JitAccount` | scoped ids and derived account ids |
| `Common`, `Text` | options, set sizes, trimming and splitting |

## Where the code does not meet an expectation

Each is shown to happen, and the exact condition is proved.

- The clear a dispatch makes when it finds the worker gone (`service_dispatch.go:426` and `:470`) does not look at
  reservation ids. It removes a route another dispatch has confirmed and persisted (`CoHolderDropsCommitted`), one
  that another holds and is running on, against `terminal_session_routes.go:607-608` (`CoHolderDropsHeld`), and,
  from a dispatch whose own reservation is long gone, a later one (`StaleHolderDropsSuccessor`). Exactly when:
  `RouteLostIff` and `StaleHolderChangesIff`.
- A departed connection marks its worker's routes after it gave up the registry lock, so it can mark the routes its
  successor has recovered (`LateMarkHitsSuccessor`) and drop the sessions being created on it
  (`LateMarkDropsReservation`). Exactly which and when: `MarkChangesIff` and `MarkHitsSuccessorIff`.
- A displaced connection whose report is still on its way can delete the sessions its successor has recovered
  (`DisplacedReportDrops`; exactly when: `ReportDropsIff`).
- The comment at `terminal_session_routes.go:244-246` says that id 0 may only refresh a confirmed route; the
  guard accepts it for provisional ones too, and a running dispatch can use it so
  (`ZeroIdCommitsOverReservation`; exactly when it is accepted: `ZeroIdAlwaysAccepted`).
- An accepted recovery report with a nil entry is not acknowledged when it is repeated
  (`RepeatAcknowledged`). A decoded message holds no nil entries, so the stream itself cannot deliver one.
- A failed commit keeps its use counted, so the count bounds the holders and need not equal them
  (`FailedCommitLeaksUse`; exactly then: `TallyBreaksIff`, `TalliedOverRuns`).
- A confirmed session that was never leased is pruned by its own dispatch once idle, and may move to another worker
  (`IdleSessionMoves`; exactly when: `PinnedIff`).
- Registering a command id that is already waiting loses its slot (`ReusedIdLeaksSlot`).
- A failed request lookup reads as "not found", and then only the unique index prevents a second row
  (`FailedLookupDuplicates`; exactly when: `VacantLostIff`).
- Waiters are released even if the finishing update failed (`FinishReleasesAnyway`, `CancelReleasesAnyway`; exactly when:
  `ReleasedTooEarlyIff`).
- Parsing undoes scoping only for owners without a colon (`ParseUndoesScopeIff`, `ColonOwnersCollide`). The
  account ids the console makes have none: they are `acc_` and hexadecimal digits, or derived (`DerivedOwnersAreSafe`).

## Assumptions

- Session, node, command and task ids are abstract values, already trimmed and not empty; times are positive.
- Task and command ids are never drawn twice, except where a lemma is about that.
- Reservation and round-robin counters are unbounded; wrap-around is not modelled.
- A failing store call has no effect. The store is configured. Statements are atomic.
- A client can cancel a task only after its id was returned to somebody.
- Lower-casing, the SHA-256 digest and the reading of echo payloads are parameters.

## Model

| member | source | states |
|---|---|---|
| `RouteInvariants.InvKept` | console/internal/grpcserver/terminal_session_routes.go:168-748 | every critical section, with its store call failing or not, keeps cache and store in agreement (a row exists only behind a route with the same node, lease and creation time; provisional routes are counted and have no lease; ids are unique) and moves each session only in the allowed way |
| `RouteInvariants.AgreementOverRuns` | console/internal/grpcserver/terminal_session_routes.go:72-116 | the agreement holds after every sequence of operations, crashes between them, and crashes between a store call and its memory update, from any agreeing table |
| `RouteInvariants.CommitNeverConflicts` | console/internal/registry/store_terminal_session_routes.go:42-66 | the upsert's node-conflict error is unreachable |
| `RouteInvariants.RowsLeaveWithRoutes` | console/internal/grpcserver/terminal_session_routes.go:609-748 | an operation deletes a row only together with the memory route, and a dropped session keeps no row |
| `RouteInvariants.RetiredOverRuns` | console/internal/grpcserver/terminal_session_routes.go:194-204 | an issued reservation id carried by no route is carried by none after any sequence of operations |
| `RouteInvariants.RetiredIdIsInert` | console/internal/grpcserver/terminal_session_routes.go:247-278 | confirm, commit and release under a retired id change nothing, whatever now stands at the session |
| `RouteInvariants.ZeroIdAlwaysAccepted` | console/internal/grpcserver/terminal_session_routes.go:244-278 | id 0 is accepted exactly for the routes bound to the node, provisional ones included, although the comment says otherwise |
| `RouteInvariants.ZeroIdTakesOver` | console/internal/grpcserver/terminal_session_routes.go:347-380 | a commit under id 0 confirms and persists a route others hold provisionally, and retires their id |
| `RouteInvariants.RestoreRebuilds` | console/internal/grpcserver/terminal_session_routes.go:72-116 | a restart rebuilds exactly the persisted routes with an open lease, each with its node, lease and creation time, all unavailable |
| `RouteInvariants.BindingOverRuns` | console/internal/grpcserver/terminal_session_routes.go:168-748 | while a session stays in the table its node is constant, its lease never decreases, and once confirmed it stays confirmed |
| `RecoveryTheorems.ReportAllOrNothing` | console/internal/grpcserver/terminal_session_routes.go:532-591 | a refused report or failed delete changes nothing; after an applied one each candidate serves again with lease and row unchanged, or is gone from memory and store, exactly as reported; nobody else is touched |
| `RecoveryTheorems.OfferIsExact` | console/internal/grpcserver/terminal_session_routes.go:419-477 | the worker is offered exactly its confirmed leased sessions, each under its present open lease; the expired ones are gone; a failed delete changes nothing |
| `RecoveryTheorems.HandshakeOutcome` | console/internal/grpcserver/terminal_session_routes.go:419-591 | without interference, a session survives a whole handshake if and only if its lease (the end of its idle time, if never leased) is open at both ends and it is reported recovered; one being created, or never leased and idle too long to be offered, is left alone |
| `RecoveryTheorems.CommitOutcome` | console/internal/grpcserver/terminal_session_routes.go:328-381 | a commit changes nothing or leaves a confirmed route and a row that agree, under the larger lease; with the store up it succeeds exactly under its guards |
| `RecoveryReport.Check` | console/internal/grpcserver/terminal_session_routes.go:506-531 | accepts exactly the reports naming each candidate once with a known status, returns the map the report denotes, and each refusal names a defect the report really has |
| `RecoveryReport.Matches` | console/internal/grpcserver/session_runtime.go:163-188 | true exactly for a report without nil entries that names every stored result once and restates it |
| `RecoveryReport.DenotationUnique` | console/internal/grpcserver/session_runtime.go:163-188 | a report denotes at most one result map |
| `RecoveryReport.RepeatAcknowledged` | console/internal/grpcserver/service_connect.go:166-185 | after an accepted report a later one is acknowledged if and only if it is an exact report of the same results without nil entries |
| `RouteStore.Store.Upsert` | console/internal/persistence/sqlc/terminal_session_routes.sql.go:126-140 | inserts, or raises lease and times on the same node; on another node reports the conflict and changes nothing |
| `RouteStore.Store.Delete` | console/internal/registry/store_terminal_session_routes.go:68-77 | removes the row only if it is at the expected node |
| `RouteStore.Store.DeleteAll` | console/internal/registry/store_terminal_session_routes.go:79-94 | one transaction: all listed rows go, or, if any statement fails, none |
| `RouteStore.Store.LoadActive` | console/internal/registry/store_terminal_session_routes.go:27-40 | lists every row with an open lease exactly once and nothing else |
| `RouteTable.Routes.Sessions` | console/internal/grpcserver/terminal_session_routes.go:84-115 | the node index yields exactly the sessions bound to the node |
| `RouteTable.Routes.Remove` | console/internal/grpcserver/terminal_session_routes.go:698-711 | removing a route keeps the index the exact inverse of the table without empty sets, and reports the session for revocation |
| `RouteTable.Routes.Reserve` | console/internal/grpcserver/terminal_session_routes.go:168-213 | refines the pure reservation and keeps the index |
| `RouteTable.Routes.Claim` | console/internal/grpcserver/terminal_session_routes.go:217-242 | refines the pure claim and keeps the index |
| `RouteTable.Routes.Confirm` | console/internal/grpcserver/terminal_session_routes.go:247-278 | refines the pure confirm and keeps the index |
| `RouteTable.Routes.Commit` | console/internal/grpcserver/terminal_session_routes.go:328-381 | refines the pure commit: the store first, memory only after it |
| `RouteTable.Routes.Release` | console/internal/grpcserver/terminal_session_routes.go:609-633 | refines the pure release; revokes exactly the sessions that leave the table |
| `RouteTable.Routes.Clear` | console/internal/grpcserver/terminal_session_routes.go:635-666 | refines the pure clear; a failed store delete keeps the route |
| `RouteTable.Routes.Snapshot` | console/internal/grpcserver/terminal_session_routes.go:383-412 | refines the pure snapshot; an expired route is never returned |
| `RouteTable.Routes.MarkUnavailable` | console/internal/grpcserver/terminal_session_routes.go:479-504 | the loop that deletes from the index it walks marks every confirmed route of the node, drops every provisional one, and keeps the index |
| `RouteTable.Routes.DeleteByNode` | console/internal/grpcserver/terminal_session_routes.go:668-696 | drops exactly the node's routes, reports their number, revokes each once |
| `RouteTable.Routes.Prune` | console/internal/grpcserver/terminal_session_routes.go:714-748 | the loop drops exactly the lapsed leases (if the store did) and the idle unleased routes |
| `RouteTable.Routes.SweepExpired` | console/internal/grpcserver/terminal_session_routes.go:807-845 | drops exactly the expired routes, in one store transaction, or none |
| `RouteTable.Routes.BeginRecovery` | console/internal/grpcserver/terminal_session_routes.go:419-477 | the two loops refine the pure beginning of a handshake and revoke exactly what they drop |
| `RouteTable.Routes.ApplyReport` | console/internal/grpcserver/terminal_session_routes.go:506-591 | a report that is not exact, or whose store call fails, changes nothing; an exact one has the pure effect, and the index stays the inverse |
| `RouteTable.Routes.Restore` | console/internal/grpcserver/terminal_session_routes.go:72-116 | fills an empty table with exactly the live rows; its duplicate check never fires; on any failure memory is untouched |
| `DispatchInvariants.OpCounts` | console/internal/grpcserver/terminal_session_routes.go:168-242 | what each operation does to the use count of a reservation still standing after it |
| `DispatchInvariants.StepHolds` | console/internal/grpcserver/service_dispatch.go:223-473 | a dispatch comes to hold a reservation only by joining it, and no longer holds one it released |
| `DispatchInvariants.AdvanceCounts` | console/internal/grpcserver/terminal_session_routes.go:168-278 | after any dispatch step the dispatches holding a provisional route are at most its use count |
| `DispatchInvariants.StepKeepsTrail` | console/internal/grpcserver/service_dispatch.go:132-221 | every dispatch step keeps the tried workers distinct, bounded, and refused on capacity except the last |
| `DispatchInvariants.RefusalRemovedRoute` | console/internal/grpcserver/service_dispatch.go:355-374 | an attempt becomes a retryable refusal only if this step removed its provisional route |
| `DispatchTheorems.ReleaseRemovesOnlyWhenAlone` | console/internal/grpcserver/terminal_session_routes.go:609-633 | a release that removes a route is made by its only remaining holder |
| `DispatchInvariants.RunsKeep` | console/internal/grpcserver/service_dispatch.go:108-473 | route agreement, holder counts, retry trails and the node each holder remembers are right in every state of every interleaving of dispatches, their inline pruning, other operations and restarts |
| `DispatchCounting.TallyBreaksIff` | console/internal/grpcserver/service_dispatch.go:339-346 | from an exact count, a dispatch step makes it inexact if and only if it is a failed commit (no lease in the reply, or the store failed) by a dispatch whose reservation still stands |
| `DispatchCounting.TalliedOverRuns` | console/internal/grpcserver/terminal_session_routes.go:168-242 | as long as no commit failed in that way, every reservation is used exactly as often as it is held, in every state of every run |
| `DispatchIncarnations.CarriedThroughout` | console/internal/grpcserver/terminal_session_routes.go:194-204 | in one process, an issued id that a session carries at some state it carried at every state since the id was issued |
| `DispatchIncarnations.OneIncarnation` | console/internal/grpcserver/terminal_session_routes.go:194-204 | each nonzero reservation id belongs to exactly one incarnation of one session's route in the whole life of a process |
| `DispatchIncarnations.RetiredForLife` | console/internal/grpcserver/terminal_session_routes.go:194-204 | an issued id that nobody carries is never carried again in the life of the process |
| `DispatchIncarnations.StaleForLife` | console/internal/grpcserver/service_dispatch.go:223-473 | a dispatch whose incarnation is over stays stale as long as it holds on to its reservation |
| `DispatchIncarnations.StaleHolderChangesIff` | console/internal/grpcserver/service_dispatch.go:378-473 | a dispatch whose session has no route, or a later one, changes the table if and only if it clears blindly and the session has by then a deletable route at the node it remembers |
| `DispatchTheorems.RouteLostIff` | console/internal/grpcserver/service_dispatch.go:355-473 | a dispatch step removes its session's route, provisional or confirmed, exactly when inline pruning takes it, its lease is over, the worker denies it, its last use is given back, or the worker is gone at slot time |
| `DispatchTheorems.ConfirmedLostIff` | console/internal/grpcserver/service_dispatch.go:393-473 | the same for a confirmed route: giving a reservation back is never the reason |
| `DispatchTheorems.OtherSessionsOnlyPruned` | console/internal/grpcserver/service_dispatch.go:398-400 | a dispatch changes another session only by the inline pruning, exactly when that session is due, and then route and row both go |
| `DispatchTheorems.RetryDiscipline` | console/internal/grpcserver/service_dispatch.go:132-221 | in every reachable state: distinct workers, no more than were online when the dispatch began (at least one), every earlier attempt a capacity refusal of a provisional route, and the last refusal is what is returned |
| `DispatchTheorems.PinnedIff` | console/internal/grpcserver/service_dispatch.go:393-431 | without interference a dispatch for a confirmed route runs at its worker, or ends without an attempt, with binding, lease and row as they were, if and only if inline pruning does not take the route and the lookup does not delete it |
| `DispatchHazards.CoHolderDropsCommitted` | console/internal/grpcserver/service_dispatch.go:422-428 | a reachable state in which one dispatch removes the route another has confirmed and persisted |
| `DispatchHazards.CoHolderDropsHeld` | console/internal/grpcserver/service_dispatch.go:422-428 | a reachable state in which one dispatch removes a reservation that another holds and is running on |
| `DispatchHazards.StaleHolderDropsSuccessor` | console/internal/grpcserver/service_dispatch.go:422-428 | a reachable state in which a dispatch with a dead reservation removes a later reservation of the session |
| `DispatchHazards.FailedCommitLeaksUse` | console/internal/grpcserver/service_dispatch.go:343-345 | a reachable state whose provisional route is counted once and held by nobody, after a failed commit |
| `DispatchHazards.ZeroIdCommitsOverReservation` | console/internal/grpcserver/terminal_session_routes.go:347-380 | a reachable state in which a dispatch running under id 0 commits over the provisional route of another, whose own reply then ends in an error |
| `DispatchHazards.IdleSessionMoves` | console/internal/grpcserver/terminal_session_routes.go:714-748 | a reachable state in which a confirmed, never leased, idle session is pruned by its own dispatch and reserved at another worker |
| `Picker.VisitsEachOnce` | console/internal/grpcserver/service_dispatch.go:500-589 | the rotated scan visits every node exactly once |
| `Picker.SortStable` | console/internal/grpcserver/service_dispatch.go:563-565 | the sort orders by load, ties in rotation order, and keeps exactly the candidates |
| `Picker.Collect` | console/internal/grpcserver/service_dispatch.go:528-560 | the scan gathers exactly the eligible workers of each capacity group, in rotation order |
| `Picker.Pick` | console/internal/grpcserver/service_dispatch.go:500-589 | the choice is the best willing worker by group, load and rotation; the two errors are returned exactly when no worker is usable and when none is willing |
| `Picker.EvenChoice` | console/internal/grpcserver/service_dispatch.go:500-589 | among equals the first of the rotation is chosen |
| `Picker.RoundRobinIsFair` | console/internal/grpcserver/service_dispatch.go:500-589 | picks fewer than n calls apart over n evenly loaded workers choose different workers |
| `SessionRuntime.ActiveSession.TryAcquire` | console/internal/grpcserver/session_runtime.go:275-294 | succeeds exactly when the capability is declared and below its limit, and takes one slot |
| `SessionRuntime.ReleaseUndoesAcquire` | console/internal/grpcserver/session_runtime.go:275-310 | giving back a slot just taken restores the table, but for a missing limit filled in, and it can be taken again |
| `SessionRuntime.ReleaseMakesRoom` | console/internal/grpcserver/session_runtime.go:296-310 | a full capability has room for exactly one more after one release |
| `SessionRuntime.ActiveSession.Resolve` | console/internal/grpcserver/session_runtime.go:382-430 | the reply reaches the dispatcher exactly if the command was still waiting; an error counts before a payload and a reply with neither is an error; payload, echo message, error code and completion time are the worker's; outcomes given before stay |
| `SessionRuntime.ActiveSession.Unregister` | console/internal/grpcserver/session_runtime.go:359-380 | a waiting command leaves with nothing on its channel and its slot back; one already settled is not touched |
| `SessionRuntime.ActiveSession.Close` | console/internal/grpcserver/session_runtime.go:432-472 | the loop gives every waiting command the closing error and its slot back, once; a second close does nothing |
| `SlotProtocol.SlotsConserved` | console/internal/grpcserver/session_runtime.go:275-457 | in every state of every run of a connection, in-flight equals held plus waiting plus being-settled commands of the capability and stays within its limit |
| `SlotProtocol.ReleaseNeverHidden` | console/internal/grpcserver/session_runtime.go:296-310 | the in-flight guard of a release never hides one: each release gives exactly one slot back |
| `SlotProtocol.QuiescentIsFree` | console/internal/grpcserver/session_runtime.go:275-457 | when nobody holds, waits or settles, every slot is free |
| `SlotProtocol.ExactlyOnceOverRuns` | console/internal/grpcserver/session_runtime.go:337-472 | over every run a command leaves the table at most once, gives its slot back at most once, and its channel, once closed, carries for good the outcome of the one party that took it out |
| `SlotProtocol.NothingPendingAfterSweep` | console/internal/grpcserver/session_runtime.go:432-457 | after the close has emptied the table nothing waits in any later state |
| `SlotProtocol.ReusedIdLeaksSlot` | console/internal/grpcserver/session_runtime.go:337-357 | registering conserves slots if and only if the id is not already waiting |
| `ConnectionRuns.RegistryInvOverRuns` | console/internal/grpcserver/service_connect.go:376-452 | under either policy, in every state of every run, each registered connection is current for its worker and displaced ones are closed or doomed |
| `ConnectionRuns.DisplacedOnlyBy` | console/internal/grpcserver/service_connect.go:376-409 | a registered connection loses its place only by its own clean-up, an administrator, a takeover of its worker under the replace policy, or, under the reject policy, to a newcomer of its worker when it is closed or overdue |
| `ConnectionRuns.OnlyMarkMakesUnavailable` | console/internal/grpcserver/terminal_session_routes.go:479-504 | no other table operation makes a route unavailable |
| `ConnectionRuns.BecomesUnavailableIff` | console/internal/grpcserver/service_connect.go:411-452 | a route becomes unavailable if and only if a departed connection of its worker marks it while it is confirmed |
| `ConnectionRuns.MarkChangesIff` | console/internal/grpcserver/terminal_session_routes.go:479-504 | a mark changes a route if and only if it is at the worker and provisional or not yet unavailable; provisional ones are dropped, the others made unavailable |
| `ConnectionRuns.MarkHitsSuccessorIff` | console/internal/grpcserver/service_connect.go:411-433 | a mark meets a successor if and only if the worker is registered at that moment; whoever is registered then entered after the marking connection left |
| `ConnectionHazard.LateMarkHitsSuccessor` | console/internal/grpcserver/service_connect.go:411-433 | a reachable state in which the late mark of a departed connection makes its successor's recovered route unavailable |
| `ConnectionHazard.LateMarkDropsReservation` | console/internal/grpcserver/terminal_session_routes.go:495-497 | a reachable state in which it drops a session being created on the successor |
| `ConnectionRuns.ReportDropsIff` | console/internal/grpcserver/terminal_session_routes.go:532-591 | which sessions a report drops: exactly the denied or lapsed candidates of a worker that still owns them all, with the store able to delete; nobody asks whether the reporter is current |
| `ConnectionHazard.DisplacedReportDrops` | console/internal/grpcserver/service_connect.go:166-185 | a reachable state in which the report of a displaced connection deletes the session its successor has recovered |
| `PreviewProtocol.StoreCallCovers` | console/internal/grpcserver/terminal_session_routes.go:635-748 | through the store call of an operation a preview stays backed by its row, or its session is among those the operation goes on to revoke |
| `PreviewProtocol.InvOverRuns` | console/internal/httpapi/proxy_routes.go:232-258 | every state of every interleaving of creation, route operations and restarts keeps published and half-created previews backed or about to be revoked |
| `PreviewProtocol.NoPreviewOutlivesSession` | console/internal/httpapi/proxy_routes.go:452-510 | whenever no route operation is in progress every published preview leads to a session with a row and a route, both at its worker |
| `PreviewRoutes.AddedWithin` | console/internal/httpapi/proxy_routes.go:452-510 | adding under a new key keeps the quotas if and only if owner and session both have room |
| `PreviewRoutes.QuotasOverRuns` | console/internal/httpapi/proxy_routes.go:211-258 | from any state within the quotas every run of create, delete, prune and revoke stays within them |
| `PreviewRoutes.Previews.Create` | console/internal/httpapi/proxy_routes.go:452-510 | adds one route under an unused key only with room under both quotas, tells the limits apart exactly, retries only on collisions, and otherwise only expired routes go |
| `PreviewRoutes.Previews.CountRoutes` | console/internal/httpapi/proxy_routes.go:452-510 | the counting loop yields the exact number of the owner's and of the session's routes |
| `PreviewRoutes.Previews.Delete` | console/internal/httpapi/proxy_routes.go:540-553 | removes the route exactly if it is live and the owner's, and only after the store did |
| `PreviewRoutes.Previews.Prune` | console/internal/httpapi/proxy_routes.go:555-564 | removes exactly the expired routes |
| `PreviewRoutes.Previews.RevokeOwner` | console/internal/httpapi/proxy_routes.go:211-230 | removes exactly the owner's routes and reports their number |
| `PreviewRoutes.Previews.RevokeSessions` | console/internal/httpapi/proxy_routes.go:232-258 | removes exactly the routes of the listed sessions |
| `TaskStore.TerminalUntouched` | console/internal/persistence/sqlc/tasks.sql.go:181-236 | no statement changes a terminal row; only the pruning of an expired one removes it |
| `TaskStore.LiveNeverPruned` | console/internal/persistence/sqlc/tasks.sql.go:12-17 | a live row is never deleted and keeps its owner and request |
| `TaskStore.TerminalIsAbsorbing` | console/internal/persistence/sqlc/maintenance.sql.go:12-21 | over every history of inserts, status updates, restart recovery and pruning, a terminal row never changes again |
| `TaskStore.DeletedForGood` | console/internal/persistence/sqlc/tasks.sql.go:12-17 | a pruned row is never seen again |
| `TaskStore.OneWinner` | console/internal/grpcserver/task.go:579-617 | of all calls finishing a task at most one is told it changed the row |
| `TaskStore.WinnerSettles` | console/internal/grpcserver/task.go:579-617 | what the winner wrote is what the row says at every later point until it is pruned |
| `TaskStore.Tasks.MarkDispatched` | console/internal/grpcserver/task.go:507-526 | changes a live row only, and reports whether it did |
| `TaskStore.Tasks.MarkRunning` | console/internal/grpcserver/task.go:528-548 | changes a live row only, and reports whether it did |
| `TaskStore.Tasks.Finish` | console/internal/grpcserver/task.go:579-617 | the waiters are released whatever becomes of the update; the row is live afterwards exactly if it was and the update failed |
| `TaskStore.Tasks.CompleteRuntime` | console/internal/grpcserver/task.go:755-766 | takes the record out and closes its channel, at most once |
| `TaskStore.Tasks.FinishOrFail` | console/internal/grpcserver/task.go:496-505 | the row is left live exactly if both the update and the fallback failed |
| `TaskSubmission.InvOverRuns` | console/internal/grpcserver/task.go:169-282 | reservations have one holder each, ids one creator, an unregistered row is live and unseen, every registered record is owed a release, and released waiters see a finished row, in every state of every run |
| `TaskTheorems.OneRowPerRequest` | console/internal/grpcserver/task.go:169-282 | at most one row per owner and request id from the reservations alone, for any number of interleaved submitters, while no lookup fails for a request that has a row |
| `TaskTheorems.VacantLostIff` | console/internal/grpcserver/task.go:196-199 | a step lets a submitter go on to the insert with its key taken if and only if it is a lookup that fails although the row is there |
| `TaskTheorems.IndexedRowPerRequest` | console/db/migrations/00001_init.sql:83-85 | with the unique index, whatever fails |
| `TaskTheorems.FailedLookupDuplicates` | console/internal/grpcserver/task.go:726-741 | a request submitted again while its lookup fails gets a second row exactly without the index |
| `TaskTheorems.ExecutedOnce` | console/internal/grpcserver/task.go:280-282 | each task has at most one goroutine in every run, and exactly one has been started for a dispatched or running row |
| `TaskTheorems.ReleasedByItsTaker` | console/internal/grpcserver/task.go:171-198 | a reservation is released only by the submitter that took it, or by a restart |
| `TaskTheorems.ReleasedWaiterSeesEnd` | console/internal/grpcserver/task.go:755-766 | a released waiter's row is finished or gone, unless a finishing update failed |
| `TaskTheorems.NoWaiterForgotten` | console/internal/grpcserver/task.go:400-505 | when nobody works on a task any more its record is gone and its waiters released, even after store failures |
| `TaskTheorems.LiveOverRunsIff` | console/internal/grpcserver/task.go:579-617 | a live row stays live exactly as long as no finishing update on it succeeds and the console does not restart |
| `TaskTheorems.ReleasedTooEarlyIff` | console/internal/grpcserver/task.go:603-616 | whoever releases the waiters, executor or canceller, under any interleaving, they find the row live if and only if no finishing update on it has succeeded |
| `TaskTheorems.FinishReleasesAnyway` | console/internal/grpcserver/task.go:579-617 | an executor that finishes its task releases the waiters either way; the row is live exactly when the update failed |
| `TaskTheorems.CancelReleasesAnyway` | console/internal/grpcserver/task.go:298-330 | and so does a canceller |
| `OwnerScope.ParseUndoesScopeIff` | console/internal/grpcserver/task_owner_scope.go:61-97 | parsing undoes scoping if and only if the owner has no colon, whatever the id contains |
| `OwnerScope.UnscopeUndoesScope` | console/internal/grpcserver/task_owner_scope.go:61-116 | unscoping under the same owner undoes scoping for every owner and id |
| `OwnerScope.RestoreAcceptsScopedIff` | console/internal/grpcserver/terminal_session_routes.go:118-121 | a restart accepts a scoped id exactly when the owner does not begin with a colon |
| `OwnerScope.ScopeInjective` | console/internal/grpcserver/task_owner_scope.go:61-72 | for owners without a colon scoped ids coincide exactly when owner and id do |
| `OwnerScope.ForeignUnscopeIff` | console/internal/grpcserver/task_owner_scope.go:99-116 | an owner without a colon unscopes another's id exactly when it equals the part before that owner's first colon |
| `OwnerScope.ColonOwnersCollide` | console/internal/grpcserver/task_owner_scope.go:61-72 | every owner with a colon shares ids with the owner named before it |
| `OwnerScope.RequestKeyInjective` | console/internal/grpcserver/task_owner_scope.go:57-59 | request keys coincide exactly when owner and request do, for owners without NUL |
| `JitAccount.Normalize` | console/internal/httpapi/jit_auth.go:167-196 | the loop with its dash flag replaces each run of other characters by one dash, then trims and truncates |
| `JitAccount.NormalizedShape` | console/internal/httpapi/jit_auth.go:167-196 | the part is within the limit, in [a-z0-9_-], and neither begins nor ends with a dash or underscore |
| `JitAccount.NormalizedTwice` | console/internal/httpapi/jit_auth.go:167-196 | normalising is idempotent |
| `JitAccount.DerivedShape` | console/internal/httpapi/jit_auth.go:143-165 | a derived account id is within 62 characters of [a-z0-9_-] and carries its prefix |
| `JitAccount.DerivedOwnersAreSafe` | console/internal/httpapi/jit_auth.go:143-165 | for the accounts derived from any two tokens: parse and unscope undo scope, a restart accepts the scoped id, and the other account can unscope it only if it is the same |

## Left out

- Views and paging: the snapshots built by ListTerminalSessions, GetTerminalSession and InflightStats; only the
  clean-up they perform is modelled.
- bindTerminalSessionRoute, touchTerminalSessionRoute and updateTerminalSessionRouteLease, which nothing calls.
- Heartbeats, the writer loop, outbound queues and credentials; the connection model keeps only the heartbeat time.
- JSON payloads, capability names, error texts, HTTP handlers, logging and metrics.
- Liveness: no theorem says that a step is eventually taken.
- The minimum interval between inline prunings, of routes and of tasks: whether a pick or a submission prunes is
  left open, so the theorems cover both.
- TaskTheorems.OneRowPerRequest: holds for runs in which no lookup fails for a request that has a row, because the
  code reads a failed lookup as "not found"; IndexedRowPerRequest covers the other runs.
- DispatchTheorems.PinnedIff: is about a dispatch without interference; with interference the route may leave
  the table.
- Picker.Pick: takes the loads as one snapshot; a slot lost between the snapshot and the attempt is the
  parameter `unwilling`.
