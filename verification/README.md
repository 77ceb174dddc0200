# A verified model of the xczs file server's core

This project models, in Dafny, the parts of the xczs file server where several
requests, crashes or budgets meet, and proves what holds of every run, every
input or every tree. Dafny 4.11 verifies it with `dafny verify dfyconfig.toml`.
Nothing here is compiled into the server.

## What is modelled

**Paths and leases.** `Filesystem` is the shared tree with relative, absolute
and dangling symbolic links and the kernel's lookup below the root. `PrefixSearch`
finds the deepest directory of a path by bisection, `PathKeys` computes the keys
that leases compare, `PathCoordinator` is the coordinator object with its
critical sections, and `CoordinatorRuns` lets any number of requests, releases
and cancellations interleave on it. `CoordinatorProgress` shows that the queue
moves, `FreshKeys` what the epochs are for, and `LeasedEntries` joins runs and
trees: who is granted a lease, and that what leases held together name is
physically apart. `StatePathScan` checks a request against the paths durable state
speaks for, page by page.

**Deleting.** `DeleteProtocol` has the steps of any number of DELETE requests for
one target, of the reconciler and of the purge worker, over a directory, a
durable purge row and operation records. Every call may fail, store calls and
renames may take effect and report an error, the process may be killed anywhere,
and a power loss brings back any directory state since the last successful
fsync. `DeleteRuns` proves what every run keeps, `DeleteOrphans` when a trash entry
can lose its row, and `DeleteRecovery` that without further faults everything
comes to an end. `DeleteHandler` is the handler and the reconciliation as code
that takes these steps. `PurgeWorker` is the worker's loop with its two queues, and
`PurgeRefinement` ties what it does with a job to the steps of the protocol.

**Disk space.** `DiskSpace` has the tracker and the reservations, `DiskSpaceRuns`
every interleaving of attempts, writes, batched releases and drops.

**Listings.** `InterruptibleSort` is the stable merge sort that can be stopped at
any poll, `ListingOrder` the orders it sorts by, and `ListingBudget` the byte
accounting of a listing.

**The rest.** `MaintenanceScan` is the resumable scan of the tree, `StoreClock`
the clock of the state store, `AncestorCreation` the creation of missing
directories with rollback, and `Fingerprint` the framing of operation
fingerprints. `Arithmetic`, `Sequences` and `Wrappers` hold what several of these
share.

## Where a promise does not hold as stated

- *An object at a trash name always has a purge row.* This fails. Three branches
  drop the row because they find nothing at the trash name, without an fsync: the
  reconciler that sees no entry (src/server/purge.rs:535-561), the worker that
  captures none (src/server/purge.rs:378-385), and the worker whose move to
  quarantine finds none (src/server/purge.rs:443-471). If the move that emptied the
  trash name was not made durable, a power loss brings the name back without its
  row, and maintenance then purges the object, even though Ready was never stored.
  `DeleteOrphans.LostAfterTwoFailedFsyncs` is such a run.
  `DeleteOrphans.NoOrphanIffRemovalsFollowFsync` gives the exact condition: every
  removal of a row comes after an fsync made since its trash name was last in use.
  `DeleteOrphans.TooEarlyFoundNothing` shows that only those three branches can
  break it, and `DeleteOrphans.OnlyPowerLossMakesOrphans` that killing the process
  alone never makes an orphan.
- *Ending a state scan at the first path that cannot be resolved is equivalent
  to judging every pair on its own* (comment at src/server/path_coordinator.rs:421-425).
  True of the symmetric check (`StatePathScan.SymmetricPageIsExact`). The
  directional check refuses more: with a link that leaves the tree, a stored path
  below the link stops the replacement of an unrelated entry
  (`StatePathScan.DescendantShortcutRefusesMore`).
  `StatePathScan.DescendantPageRefusesMore` gives the exact condition: no stored
  path is a reason to refuse by itself, and the source or a stored path cannot be
  resolved.
- *Rounding a size up refuses only what does not fit.* True exactly for units
  that divide 2^64 (`DiskSpace.RoundUpRefusesOnlyOverflow`).

## Model

| member | source | states |
|---|---|---|
| `Filesystem.OpenMonotone` | src/server/rooted_fs.rs:2668-2682 | In a tree with symbolic links, a prefix that cannot be opened fails every longer path with the same error |
| `Filesystem.AncestorIffPrefix` | src/server/rooted_fs.rs:998-1043 | A directory is in another's chain of parents exactly when its physical path is a prefix of the other's |
| `PrefixSearch.Search` | src/server/rooted_fs.rs:914-947 | Bisection finds the same deepest directory as a left-to-right scan, with at most 1 + ceil(log2 n) probes, and its answer is always explained by an actual probe, so no other error becomes an unresolved tail |
| `PrefixSearch.Bisect` | src/server/rooted_fs.rs:929-946 | The probes made after the full path was refused, their number, and the result they explain, even if answers change between probes |
| `PrefixSearch.ScanReports` | src/server/rooted_fs.rs:2737-2744 | The first error that is not "unresolved" is the answer of the scan |
| `PathKeys.DirectoryAncestry` | src/server/rooted_fs.rs:998-1043 | Following parents up to the root gives the whole ancestry, or an error from 4096 levels on |
| `PathKeys.ResolvedPathKey` | src/server/rooted_fs.rs:852-912 | The key computed by bisection is the one a linear scan of the path defines |
| `PathKeys.ResolvedIsAnchored` | src/server/rooted_fs.rs:852-912 | Every key names a real directory with its true ancestry, a non-empty tail that does not continue into a directory, and the target directory if there is one |
| `PathKeys.PhysicalPathIsCanonical` | src/server/rooted_fs.rs:852-912 | Resolving the physical path of a key gives the same key back |
| `PathKeys.ConflictIsOverlap` | src/server/path_coordinator.rs:641-671 | Two keys conflict exactly when the physical entries are the same or one contains the other |
| `PathKeys.ContainsIsPrefix` | src/server/path_coordinator.rs:631-639 | Containment of keys is the prefix relation of physical paths |
| `PathKeys.StrictlyContainsIsProperPrefix` | src/server/path_coordinator.rs:652-661 | Strict containment of keys is the proper-prefix relation of physical paths |
| `PathKeys.SameEntryIsSamePath` | src/server/path_coordinator.rs:595-599 | Equal parent and tail mean the same physical path, and only then |
| `PathKeys.ConservativeConflictsWithAll` | src/server/rooted_fs.rs:572-579 | The key used after a failed resolution conflicts with every resolved key |
| `PathKeys.KeysConflictIsOverlap` | src/server/path_coordinator.rs:584-588 | For any two paths: what is compared conflicts exactly when one name is a prefix of the other, one physical path is a prefix of the other, or one of them cannot be resolved |
| `PathKeys.ResolvesWhereItStops` | src/server/rooted_fs.rs:852-947 | The key of a path is the directory its longest openable prefix leads to, the names from there on and the entry itself if it is a directory, whatever the search does |
| `PathKeys.ResolutionFailsOnlyBy` | src/server/rooted_fs.rs:2737-2744 | A non-empty path that neither leaves the tree nor follows too many links stops somewhere, so nothing but these and excess depth makes resolution fail |
| `PathCoordinator.Coordinator.constructor` | src/server/path_coordinator.rs:84-105 | No leases, no waiters, identifiers from 1, epoch and version 0 |
| `PathCoordinator.Coordinator.TryAcquire` | src/server/path_coordinator.rs:297-353 | Stale, blocked or granted, and the whole state after it, as functions of the state before it; `LeasedEntries.GrantedExactly` says which attempts these are |
| `PathCoordinator.Coordinator.MarkResolvingIfEligible` | src/server/path_coordinator.rs:502-525 | Who may resolve, and the state after it; `LeasedEntries.TurnExactly` says who that is |
| `PathCoordinator.Coordinator.Enqueue` | src/server/path_coordinator.rs:488-500 | A new waiter is resolving |
| `PathCoordinator.Coordinator.RemoveWaiter` | src/server/path_coordinator.rs:532-550 | A cancelled waiter leaves the queue and nothing else changes |
| `PathCoordinator.Coordinator.DropLease` | src/server/path_coordinator.rs:552-566 | Releasing starts a new epoch and announces it; releasing twice does nothing |
| `PathCoordinator.LexicalOverlapBlocks` | src/server/path_coordinator.rs:601-629 | In either state a waiter blocks whatever overlaps it lexically |
| `CoordinatorRuns.Reachable` | src/server/path_coordinator.rs:127-216 | The invariant holds after every step of every interleaving |
| `CoordinatorRuns.LeasesAreExclusive` | src/server/path_coordinator.rs:297-353 | In every reachable state held leases are pairwise free of conflicts, and each holds keys resolved wholly in the epoch of its grant |
| `CoordinatorRuns.GrantedInOneEpoch` | src/server/path_coordinator.rs:148-210 | An attempt that is not stale uses keys all resolved in the current epoch |
| `CoordinatorRuns.ConservativeLeaseIsAlone` | src/server/path_coordinator.rs:171-187 | A lease granted on a failed resolution is the only lease held |
| `CoordinatorRuns.NoLostWakeup` | src/server/path_coordinator.rs:148-216 | A waiter asleep on the current version is still blocked, or an earlier waiter is resolving, or a notification is on its way |
| `CoordinatorRuns.NoOvertaking` | src/server/path_coordinator.rs:312-334 | While an earlier waiter is queued, no later waiter that overlaps it lexically is ever granted a lease |
| `CoordinatorProgress.NoDeadlock` | src/server/path_coordinator.rs:144-216 | With no lease held the first waiter is not asleep, and its attempt is granted if the epoch has not changed |
| `CoordinatorProgress.FirstIsServed` | src/server/path_coordinator.rs:144-216 | Left alone, the first waiter reaches its lease by its own steps, in at most two per path plus nine |
| `CoordinatorProgress.QueueDrains` | src/server/path_coordinator.rs:144-216 | With no lease held and nobody new, the steps of the waiters and the release of each lease empty the whole queue |
| `FreshKeys.KeysHaveHistory` | src/server/path_coordinator.rs:148-190 | In every run each key a request has was resolved by a step of its own, in the epoch noted for it |
| `FreshKeys.GrantedOnFreshKeys` | src/server/path_coordinator.rs:148-216 | Between the step that resolved a key and the grant of a lease on it, no lease was released |
| `LeasedEntries.GrantedExactly` | src/server/path_coordinator.rs:297-353 | On a standing tree an attempt in an unchanged epoch is granted exactly if no path of a held lease overlaps its own, and none of an earlier waiter: by name while that one resolves, by name or physical path once it is resolved; otherwise it waits as resolved |
| `LeasedEntries.TurnExactly` | src/server/path_coordinator.rs:502-525 | A waiter with outdated keys resolves exactly if no earlier waiter overlaps it, by name until it was resolved once; else it sleeps |
| `LeasedEntries.HeldEntriesAreApart` | src/server/path_coordinator.rs:127-216 | In every run on a standing tree, two leases held together name resolvable entries whose physical paths are neither equal nor one inside the other |
| `StatePathScan.SymmetricPageIsExact` | src/server/path_coordinator.rs:414-426 | Giving up on a page at the first unresolved path answers as judging every pair with fail-closed keys |
| `StatePathScan.SymmetricIsOverlap` | src/server/path_coordinator.rs:464-468 | A request path and a stored path hit exactly when one is a prefix of the other by name or physical path, or one of them cannot be read or resolved |
| `StatePathScan.ResolvedBelow` | src/server/path_coordinator.rs:470-482 | When both paths resolve, a pair hits unless neither physical path nor name lies below the source's, or both are one entry that may be replaced |
| `StatePathScan.UnresolvedBelow` | src/server/path_coordinator.rs:470-482 | When only the stored path cannot be resolved, a pair judged alone hits exactly if its name lies below the source's |
| `StatePathScan.DescendantPageRefusesMore` | src/server/path_coordinator.rs:414-482 | The directional check never misses a hit, and refuses without one exactly when every stored path is harmless by itself but the source or a stored path cannot be resolved |
| `StatePathScan.DescendantPagePasses` | src/server/path_coordinator.rs:414-482 | The directional check passes a page exactly if it is empty, or all its paths and the source resolve and none lies below the source or is the source without leave |
| `StatePathScan.DescendantShortcutRefusesMore` | src/server/path_coordinator.rs:414-482 | A tree with a link leaving it, a source and a stored path below the link, for which the directional check refuses although no pair hits |
| `StatePathScan.Scanner.PageConflicts` | src/server/path_coordinator.rs:383-485 | A page conflicts exactly if some stored path overlaps a request path, or for the directional check if a path cannot be resolved or lies below the source; the scan asks the filesystem for each path of the page at most once, and for the request's own paths with the first page only |
| `StatePathScan.HasPersistedConflict` | src/server.rs:729-757 | All pages together conflict exactly when some request path and some stored path overlap, by name or physical path, or one of them cannot be read or resolved; a scan without a conflict has asked for the request's paths once and for every stored path once |
| `DeleteRuns.Reachable` | src/server/delete.rs:95-234 | The invariant of requests, reconciler, worker, row and directory holds after every step of every run, crashes included |
| `DeleteRuns.OnePlaceUntilPurged` | src/server/rooted_fs.rs:2068-2236 | The object is under exactly one name until it is purged, and it is purged only after Ready was stored or as an orphan |
| `DeleteRuns.RecordedOutcomesAreRight` | src/server/delete.rs:99-214 | A recorded success means the rename was fsynced and stored as Ready and no crash can bring the target back; a recorded failure means this request renamed nothing |
| `DeleteOrphans.CoveredIsSafe` | src/server/maintenance.rs:854-881 | The invariant "covered" says exactly that no power loss brings back a trash entry without its row |
| `DeleteOrphans.UnsyncedShowsInEvents` | src/server/rooted_fs.rs:2337-2386 | In every run, a power loss can bring a trash name back exactly when no successful fsync or power loss came after its last use |
| `DeleteOrphans.NoOrphanIffRemovalsFollowFsync` | src/server/purge.rs:514-563 | A run is safe from orphans throughout exactly when each removal of a row follows an fsync made since its trash name was last in use |
| `DeleteOrphans.TooEarlyFoundNothing` | src/server/purge.rs:378-385 | A removal without such an fsync only happens in the three branches that found nothing at the trash name |
| `DeleteOrphans.PurgedOnlyAfterReady` | src/server/purge.rs:340-471 | Without such a removal maintenance sees no orphan and the object is gone only after Ready was stored |
| `DeleteOrphans.OnlyPowerLossMakesOrphans` | src/server/purge.rs:514-563 | In runs without power loss no trash entry ever lacks its row, however often the process is killed |
| `DeleteOrphans.LostAfterTwoFailedFsyncs` | src/server/rooted_fs.rs:2337-2386 | A run in which two failed fsyncs and a power loss destroy an object whose outcome is recorded as unknown |
| `DeleteRecovery.ClaimsAreHeld` | src/server/purge.rs:340-471 | In every run a claimed row is in the hands of some job, and what the reconciler is about to hide is there |
| `DeleteRecovery.StepCloser` | src/server/purge.rs:340-563 | In every state that keeps the invariant, each step without a fault, of a request, the reconciler or the worker, leaves less to do, and a slice of a purge no more |
| `DeleteRecovery.StepsRunOut` | src/server/purge.rs:186-300 | From any point of any run, steps without a fault, however interleaved, run out after at most sixty and twelve for each claimed job |
| `DeleteRecovery.StopsOnlySettled` | src/server/purge.rs:340-563 | They stop nowhere but where there is no row, no lease and no claimed job |
| `DeleteRecovery.RecoveryConverges` | src/server/purge.rs:514-563 | Every run, whatever went wrong in it, can be continued without a fault to such an end, within that bound |
| `DeleteRecovery.SettledObject` | src/server/purge.rs:514-563 | Then all requests are done, and the object is at the target, in quarantine or gone, unless it was an orphan before; it stays at the target if nobody was deleting it, and is gone only after Ready was stored or as an orphan |
| `DeleteHandler.Site.MoveToTrash` | src/server/rooted_fs.rs:2068-2236 | "Moved" means renamed and durable, "not moved" and "target changed" mean an untouched directory; which answers of the calls lead to which |
| `DeleteHandler.Site.Commit` | src/server/delete.rs:132-214 | From the stored intent on: exactly which answers of the calls end in success and in rejection, which agree with the record and the directory; every call is a step of the protocol |
| `DeleteHandler.Site.HandleDelete` | src/server/delete.rs:53-234 | A whole request with its own reconciliation: success, rejection and "unavailable" are answered exactly when the calls and the row found went that way; success leaves the entry at its trash name with a Ready row, rejection the directory as it was, "unavailable" no record and nothing touched, and an uncertain answer no open record, nor, if the reconciliation goes well, a Prepared intent or an entry without a row |
| `DeleteHandler.Site.Reconcile` | src/server/purge.rs:514-563 | For an intent still Prepared, exactly which answers take the row away, move the entry to quarantine and make that durable, and what each failing call leaves; nothing else is touched, and nothing at all for any other row |
| `PurgeWorker.RetryDelayBacksOff` | src/server/purge.rs:636-642 | Delays start at 100 ms, never shrink, double up to the ninth failure and are 30 s from the tenth on |
| `PurgeWorker.FrontIsFirstDue` | src/server/purge.rs:208-212 | If the front of the retry queue is not due, nothing in it is |
| `PurgeWorker.InsertedSorted` | src/server/purge.rs:586-610 | Inserting a retry keeps the queue sorted and adds exactly that retry |
| `PurgeWorker.OpenSettles` | src/server/purge.rs:340-398 | Opening a job either keeps it in hand or leaves its row no longer Claimed, and touches no other claim |
| `PurgeWorker.SliceSettles` | src/server/purge.rs:400-441 | The same for one purge slice |
| `PurgeWorker.OpensOnlyItsOwn` | src/server/purge.rs:340-398 | Work is opened exactly if the path resolves, a revision is stored and the captured entry is the job's own; the row goes exactly after a missing entry or a move to quarantine; a failed capture puts the job off by the delay for its attempts |
| `PurgeWorker.SliceClosesIt` | src/server/purge.rs:400-441 | The job stays open exactly while there is more to purge; the row goes exactly after a finished purge or a move to quarantine; a failed slice puts the job off |
| `PurgeRefinement.OpenFollowsProtocol` | src/server/purge.rs:340-471 | In every reachable state of the delete protocol, opening a claimed job comes to what steps of that job come to, beginning with what was found at the trash name: same stage of the row, and the job open, over or kept for a retry |
| `PurgeRefinement.SliceFollowsProtocol` | src/server/purge.rs:400-471 | The same for a purge slice |
| `PurgeWorker.ReceivesWhatFits` | src/server/purge.rs:192-207 | Announced orphans are queued in order, as far as there is room |
| `PurgeWorker.OrphanGoesOn` | src/server/purge.rs:257-278 | An orphan stays queued exactly while there is more of it to purge |
| `PurgeWorker.RetainedWaits` | src/server/purge.rs:208-225 | A retained job waits until it is due, is dropped if its row is no longer Claimed, and waits longer after another failure |
| `PurgeWorker.ClaimsOnlyDue` | src/server/purge.rs:227-244 | No row is changed by claiming unless it is Ready and due |
| `PurgeWorker.ClaimsAllItCan` | src/server/purge.rs:227-244 | Every claim takes one job off what is due, and claiming stops only at the capacity, at the call of the store that fails or when nothing is due |
| `PurgeWorker.EveryTaskGetsItsTurn` | src/server/purge.rs:192-300 | In every run of whole rounds the pending task at position i gets the slice of the i-th round from then, whatever the answers and however much work comes in |
| `PurgeWorker.WorkerKeepsItsClaims` | src/server/purge.rs:186-300 | After any number of rounds every Claimed row is in one of the queues, these hold at most 64 tasks, and the retries are sorted |
| `PurgeWorker.Worker.Schedule` | src/server/purge.rs:586-610 | The retry goes behind everything due no later |
| `PurgeWorker.Worker.OpenWork` | src/server/purge.rs:340-398 | Which answers open, settle or keep a claimed job, and what they do to its row, as `PurgeWorker.OpensOnlyItsOwn` and `PurgeRefinement.OpenFollowsProtocol` explain |
| `PurgeWorker.Worker.RetryDue` | src/server/purge.rs:208-225 | Only a due front retry is taken, reread and placed again |
| `PurgeWorker.Worker.ClaimDue` | src/server/purge.rs:227-244 | The state after the claiming loop |
| `PurgeWorker.Worker.ProcessFirst` | src/server/purge.rs:246-278 | The state after one slice of the first task |
| `PurgeWorker.Worker.RunRound` | src/server/purge.rs:192-300 | One round of the loop, which keeps every claim in a queue |
| `DiskSpace.FitsIsExact` | src/server/disk_space.rs:343-353 | The overflow checks neither reject what fits nor accept what does not |
| `DiskSpace.BudgetCovers` | src/server/disk_space.rs:331-341 | An allocation budget is a sum of whole units for data and for metadata, each part covered with less than a unit to spare |
| `DiskSpace.RoundUpRefusesOnlyOverflow` | src/server/disk_space.rs:332-337 | Rounding refuses only what does not fit exactly when the unit divides 2^64 |
| `DiskSpace.BudgetExactly` | src/server/disk_space.rs:331-341 | For such units a budget comes back exactly when the rounded parts fit together, and is their sum |
| `DiskSpace.DiskSpaceTracker.ReserveLocked` | src/server/disk_space.rs:87-114 | Grants exactly when the request fits above the floor beside everything promised, and records it |
| `DiskSpace.DiskSpaceTracker.Release` | src/server/disk_space.rs:169-189 | The bucket shrinks or disappears and the revision changes |
| `DiskSpace.DiskSpaceReservation.Consume` | src/server/disk_space.rs:239-250 | Bytes move from remaining to pending, and a full batch is released |
| `DiskSpace.DiskSpaceReservation.FlushPendingRelease` | src/server/disk_space.rs:281-284 | Exactly the pending bytes are released |
| `DiskSpace.DiskSpaceReservation.Drop` | src/server/disk_space.rs:287-297 | Exactly what is still tracked is released |
| `DiskSpaceRuns.ReservedSpaceIsThere` | src/server/disk_space.rs:116-152 | In every interleaving, while reserved bytes are unwritten, the free space is at least the floor plus those bytes |
| `DiskSpaceRuns.OwnerCanWrite` | src/server/disk_space.rs:116-152 | An owner can always write what it still holds, and stays above the floor |
| `DiskSpaceRuns.BytesAreConserved` | src/server/disk_space.rs:169-189 | The bucket is the sum of what live reservations hold and exists only if that is positive; no addition overflows, no subtraction saturates, and every change of it moves the revision |
| `DiskSpaceRuns.DecidedExactly` | src/server/disk_space.rs:87-152 | An outdated snapshot sends an attempt back, at the eighth time away; a current one grants exactly if the request fits above the floor beside all that is held |
| `DiskSpaceRuns.DecidedOnSnapshot` | src/server/disk_space.rs:116-152 | In every run: an attempt whose revision changed since it was read starts over, up to eight times; else it is granted exactly if the request fits above the floor, beside all that is held now, in the space that was free when it probed |
| `DiskSpaceRuns.PendingStaysSmall` | src/server/disk_space.rs:239-250 | Used-up bytes stay promised only below one mebibyte per reservation |
| `InterruptibleSort.StableSortInterruptible` | src/server/listing.rs:1121-1231 | Success leaves the stable sort of the input and takes all the polls the work asks for; every exit leaves a permutation; it stops exactly at the first poll that says so; a failed allocation, or a stop at a poll that falls inside the work of finding the order, leaves the input untouched |
| `InterruptibleSort.RouteWorkIsLinearithmic` | src/server/listing.rs:1144-1211 | Before the first value moves, 2n + n * ceil(log2 n) units of work are counted |
| `InterruptibleSort.SortIndicesStable` | src/server/listing.rs:1148-1196 | The merge passes compute the stable order for every total preorder |
| `InterruptibleSort.StablySortedUnique` | src/server/listing.rs:1121-1231 | A stable sort of a list is unique |
| `InterruptibleSort.SwapRoutes` | src/server/listing.rs:1213-1226 | Every swap of the apply phase brings one value home for good, so the cycles end |
| `InterruptibleSort.ApplyCycles` | src/server/listing.rs:1213-1226 | The permutation is applied in place; stopped half-way the values are still a permutation |
| `ListingOrder.ListingOrderIsTotalPreorder` | src/server/listing.rs:1102-1119 | Every listing order, ascending or descending, is a total preorder if the comparison of names is |
| `ListingOrder.TieIsSameName` | src/server/listing.rs:1491-1518 | Entries that compare equal have the same name and rank |
| `ListingOrder.AscendingIsPrecedes` | src/server/listing.rs:1491-1518 | Directories come first, then the chosen field decides, then names, and last the first byte that differs |
| `ListingOrder.SortedListing` | src/server/listing.rs:1102-1119 | In a sorted listing nothing stands behind what it precedes, and in a descending one nothing before it |
| `ListingBudget.CollectionCheckIsExact` | src/server/listing.rs:1404-1408 | The saturating check passes exactly when the real bytes fit, or the maximum is the largest size |
| `ListingBudget.ReserveSlot` | src/server/listing.rs:1445-1477 | After a growth the old and the new allocation and everything else fit together, whatever the allocator granted, and the capacity has doubled unless the budget has no room for more; refusals are justified |
| `ListingBudget.Push` | src/server/listing.rs:953-1014 | Adding an item keeps everything that exists at once, both allocations while growing, inside the budget; the capacity is the old one or the one granted; refusals are justified |
| `ListingBudget.Collect` | src/server/listing.rs:884-1022 | For a listing that comes back, everything that existed while each of its items was added fits the budget, with the capacities the allocator granted; otherwise some item did not fit or the allocator gave less than asked for |
| `ListingBudget.SortFits` | src/server/listing.rs:1410-1437 | Sorting is allowed exactly when the retained bytes and two index arrays fit |
| `MaintenanceScan.WalkIsDistinct` | src/server/maintenance.rs:769-991 | The recursive walk visits nothing twice |
| `MaintenanceScan.WalkReachesEverything` | src/server/maintenance.rs:769-991 | A path is visited exactly if it names an entry that is neither hidden nor broken, every folder above can be read, and no broken entry comes before its component in any of them |
| `MaintenanceScan.WalkInOrder` | src/server/maintenance.rs:769-991 | Visits come in the lexicographic order of their positions, a folder before what is in it |
| `MaintenanceScan.VisitChunk` | src/server/rooted_fs.rs:674-761 | One chunk of a directory visits a stretch of the walk and resumes right behind it, before an entry it had no budget for and after one it stopped at |
| `MaintenanceScan.Scan.Advance` | src/server/maintenance.rs:769-991 | A chunk and its effect on the stack leave exactly the rest of the walk, and less work |
| `MaintenanceScan.Scan.Slice` | src/server/maintenance.rs:723-993 | A slice visits a stretch of the walk within its budget, and makes progress if it may look at an entry |
| `MaintenanceScan.RunSlices` | src/server/maintenance.rs:769-991 | Slices with any budgets visit only what can be visited, in order, each entry once; finished, they have visited everything that can be; and enough of them finish |
| `StoreClock.StoreClock.Observe` | src/server/state_store.rs:1104-1125 | The answer and the new state, or an error and the old state |
| `StoreClock.ClockKeepsHistory` | src/server/state_store.rs:1104-1125 | Three fields answer as the full history: the latest time any reading vouches for, or an overflow exactly when that does not fit |
| `StoreClock.NeverGoesBack` | src/server/state_store.rs:1104-1125 | Whatever the readings, answers never decrease |
| `StoreClock.NeverLags` | src/server/state_store.rs:1104-1125 | Between two answers at least the whole milliseconds really passed are counted |
| `AncestorCreation.RootedFs.OpenParent` | src/server/rooted_fs.rs:2505-2625 | A failure leaves the tree as it was; a success has created exactly the components that could not be opened, in order, and opens the parent; without failing calls the error is the one the lookup reports, and creating fails exactly if a component is there and is no directory |
| `AncestorCreation.RootedFs.CreateHere` | src/server/rooted_fs.rs:2531-2611 | Creating one directory either yields it, opened, or leaves no trace |
| `AncestorCreation.RootedFs.RollbackOne` | src/server/rooted_fs.rs:2631-2663 | Only an empty directory with the created identity is ever removed; right after its creation exactly that is undone |
| `AncestorCreation.RootedFs.Rollback` | src/server/rooted_fs.rs:2627-2666 | Rolling back the returned list restores the tree it was created in |
| `AncestorCreation.WalkGrows` | src/server/rooted_fs.rs:2668-2682 | A new directory changes no lookup that succeeded without it |
| `AncestorCreation.RemoveUndoesMake` | src/server/rooted_fs.rs:2652-2657 | Removing a new directory restores the tree |
| `Fingerprint.PartsOfStream` | src/server/operation_registry.rs:236-245 | The digested stream can be taken apart into its parts |
| `Fingerprint.StreamIsInjective` | src/server/operation_registry.rs:236-245 | Different lists of parts are digested as different streams |
| `Fingerprint.StreamOfParts` | src/server/operation_registry.rs:236-245 | Whatever can be taken apart is the stream of its parts |
| `Fingerprint.Feed` | src/server/operation_registry.rs:237-244 | Feeding length and bytes part by part produces that stream |

## Left out

- HTTP, authentication, configuration, uploads, search, archives, previews and the web client: wrappers and I/O around the core.
- Real system calls and SQLite: the tree, the directory states and the rows stand for them; a commit of the store is atomic and durable.
- Wrap-around of the 64-bit identifiers, epochs, versions and revisions, and saturation of 32-bit failure counters: they are unbounded here.
- Memory ordering: the steps of `CoordinatorRuns` and `DiskSpaceRuns` are sequentially consistent, one per critical section or atomic access.
- Directories that exist but may not be read: every directory of `Filesystem` can be opened, so the search never meets a refusal followed by a success.
- Normalising, sorting and deduplicating the lexical paths of a request, and the permits that limit how many requests resolve paths.
- The last component of a path is never followed, so a key says nothing about what a final symbolic link points to.
- `reserved_space_is_available_on_device` and the measuring of allocated blocks: they read the tracker the same way as a reservation attempt.
- Outside writers: in the delete protocol, in ancestor creation and in a maintenance scan nobody but the server changes the tree, and the target is not created again.
- The inside of a trash directory: a purge slice of `DeleteProtocol` may change the revision of the trash entry, but its files are not modelled; an orphan purge is one step.
- DeleteRecovery.StepsRunOut: does not count slices of a purge, because what is inside a trash directory is not modelled.
- Removal of stale upload stages and of empty stage directories during a maintenance scan: the scanned tree is static.
- SHA-256 and the comparison of folded names: the framing stops before the digest, and names are compared by any total preorder.
- Time passing inside one round of the purge worker: all claims of a round see the same store time.
- Names that are not UTF-8, deadlines and entry limits of a listing: they end it with an error before the budget matters.
