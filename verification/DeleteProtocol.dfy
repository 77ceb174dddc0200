/**
 The crash-safe delete protocol, step by step.

 Any number of DELETE requests for one target, the reconciler of unfinished
 intents and the purge worker share a directory, the durable purge row of the
 target and the operation records.  Every filesystem and store call may fail;
 a store call may also take effect and lose its reply, and so may a rename.
 The process may be killed between any two steps.  A power loss brings back any
 state the directory had since the last successful fsync.  Nobody else writes.
 */
module DeleteProtocol {
  import opened Wrappers

  type Id = nat

  datatype Name = Target | Trash(id: Id) | Quarantine

  /** Which names hold the object, and the revision it shows there. */
  type Directory = map<Name, nat>

  // ----- Durable records

  datatype Stage = Prepared | Ready | Claimed

  datatype Row = Row(id: Id, stage: Stage, revision: Option<nat>)

  datatype Outcome = Succeeded | Failed | Unknown

  /** A reservation that is dropped before its commit started leaves no record: `Forgotten`. */
  datatype Operation = Reserved | CommitStarted | Completed(outcome: Outcome) | Forgotten

  // ----- Who is where

  /** The next thing a request does; `Done` once it let go of its path lease. */
  datatype RequestAt =
    | Checking
    | Preparing
    | Marking
    | Renaming
    | Syncing(revision: nat)
    | Readying(revision: nat)
    | Rejecting
    | Failing
    | Succeeding
    | Done

  datatype Request = Request(at: RequestAt, operation: Operation)

  /** Why a row is about to be removed: what happened to the trash entry was made durable, there was nothing at the
      trash name when it was looked at, or there was nothing to move to quarantine. */
  datatype Reason = Settled | TrashMissing | NothingToHide

  datatype ReconcilerAt = Loading | Inspecting | Hiding | SyncingHidden | Removing(why: Reason)

  datatype Lease = Free | Deleting(r: Id) | Reconciling(id: Id, at: ReconcilerAt)

  /** The next thing done for a claimed job.  `Ambiguous` moves the trash entry to quarantine, `Covering`
      makes that durable; `inSlice` tells a purge slice cleaning up after itself from the job's own quarantine. */
  datatype WorkAt =
    | Opening
    | Purging
    | Isolated
    | Unlinked
    | Ambiguous(inSlice: bool)
    | Covering(inSlice: bool)
    | Completing(why: Reason)
    | Deferring
    | Retained

  /** A claimed job with the revision its row had when it was read. */
  datatype Work = Work(id: Id, revision: Option<nat>, at: WorkAt)

  /** `images` are the directory states a power loss may bring back.  The last four fields are history:
      which requests renamed the target, which of these renames were fsynced, which were stored as Ready
      with which revision, and whether maintenance ever purged an entry it took for an orphan. */
  datatype State = State(
    dir: Directory,
    images: set<Directory>,
    row: Option<Row>,
    requests: map<Id, Request>,
    lease: Lease,
    works: map<nat, Work>,
    renamed: set<Id>,
    synced: set<Id>,
    stored: map<Id, nat>,
    orphanPurged: bool)

  ghost predicate Initial(s: State) {
    && (exists revision :: s.dir == map[Target := revision])
    && s.images == {s.dir} && s.row.None? && s.requests == map[] && s.lease.Free? && s.works == map[]
    && s.renamed == {} && s.synced == {} && s.stored == map[] && !s.orphanPurged
  }

  // ----- Calls

  /** A store call takes effect and answers, is refused, or takes effect and loses its answer. */
  datatype Call = Fine | Refused | Lost

  predicate Applied(c: Call) { !c.Refused? }

  function Move(d: Directory, source: Name, destination: Name, revision: nat): (n: Directory) {
    (d - {source})[destination := revision]
  }

  function WithDir(s: State, d: Directory): (n: State) {
    s.(dir := d, images := s.images + {d})
  }

  function Fsynced(s: State): (n: State) {
    s.(images := {s.dir})
  }

  predicate RowIs(s: State, id: Id, stage: Stage) {
    s.row.Some? && s.row.value.id == id && s.row.value.stage == stage
  }

  predicate HasRow(s: State, id: Id) {
    s.row.Some? && s.row.value.id == id
  }

  // ----- A request

  datatype Answer = Clear | Conflicting | CheckFails

  datatype Reply = Inserted | Full | PrepareFails(applied: bool)

  datatype RequestStep =
    | CheckConflict(answer: Answer)
    | Prepare(reply: Reply)
    | MarkCommit(call: Call)
    | Reject                 // the target changed, or an error came before the rename
    | LoseGate               // the blocking task failed: nothing is known
    | Rename(revision: nat)
    | RenameFails(applied: bool, revision: nat, sourceRead: bool, trashRead: bool)
    | VerifyFails(synced: bool)
    | SyncRename(ok: bool)
    | RemoveRejected(call: Call)
    | MarkReady(call: Call)
    | Complete(call: Call)
    | Abandon

  /** After a rename that reported an error: only the source still under its own name, together with a
      trash name that was inspected and does not hold it, shows that nothing moved. */
  predicate ProvenNotMoved(d: Directory, r: Id, sourceRead: bool, trashRead: bool) {
    sourceRead && Target in d && trashRead && Trash(r) !in d
  }

  predicate RequestEnabled(s: State, r: Id, step: RequestStep) {
    r in s.requests &&
    var at, operation := s.requests[r].at, s.requests[r].operation;
    match step
    case CheckConflict(answer) => at.Checking? && (answer.Clear? ==> s.row.None?)
    case Prepare(_) => at.Preparing?
    case MarkCommit(_) => at.Marking?
    case Reject => at.Renaming?
    case LoseGate => at.Renaming? || at.Syncing?
    case Rename(_) => at.Renaming? && Target in s.dir && Trash(r) !in s.dir
    case RenameFails(applied, _, _, _) => at.Renaming? && (applied ==> Target in s.dir && Trash(r) !in s.dir)
    case VerifyFails(_) => at.Syncing?
    case SyncRename(_) => at.Syncing?
    case RemoveRejected(_) => at.Rejecting?
    case MarkReady(call) => at.Readying? && (call.Fine? ==> RowIs(s, r, Prepared))
    case Complete(call) =>
      (at.Failing? || at.Succeeding?) && (call.Fine? ==> operation.Reserved? || operation.CommitStarted?)
    case Abandon => at.Done? && (operation.Reserved? || operation.CommitStarted?)
  }

  function Abandoned(operation: Operation): (n: Operation) {
    match operation
    case Reserved => Forgotten
    case CommitStarted => Completed(Unknown)
    case _ => operation
  }

  function RenameTarget(s: State, r: Id, revision: nat): (n: State) {
    WithDir(s, Move(s.dir, Target, Trash(r), revision)).(renamed := s.renamed + {r})
  }

  function InsertRow(s: State, r: Id): (n: State) {
    s.(row := Some(Row(r, Prepared, None)))
  }

  function StoreReady(s: State, r: Id, revision: nat): (n: State) {
    if RowIs(s, r, Prepared) then s.(row := Some(Row(r, Ready, Some(revision))), stored := s.stored[r := revision])
    else s
  }

  /** What the step does to the directory and the row. */
  function RequestEffect(s: State, r: Id, step: RequestStep): (n: State)
    requires RequestEnabled(s, r, step)
  {
    match step
    case Prepare(reply) => if reply.Inserted? || reply == PrepareFails(true) then InsertRow(s, r) else s
    case Rename(revision) => RenameTarget(s, r, revision)
    case RenameFails(applied, revision, _, _) => if applied then RenameTarget(s, r, revision) else s
    case VerifyFails(synced) => if synced then Fsynced(s) else s
    case SyncRename(ok) => if ok then Fsynced(s).(synced := s.synced + {r}) else s
    case RemoveRejected(call) => if Applied(call) && HasRow(s, r) then s.(row := None) else s
    case MarkReady(call) => if Applied(call) then StoreReady(s, r, s.requests[r].at.revision) else s
    case _ => s
  }

  /** What the step does to the request's operation record. */
  function OperationTo(s: State, r: Id, step: RequestStep): (operation: Operation)
    requires RequestEnabled(s, r, step)
  {
    var at, operation := s.requests[r].at, s.requests[r].operation;
    match step
    case MarkCommit(call) => if Applied(call) && operation.Reserved? then CommitStarted else operation
    case Complete(call) =>
      if Applied(call) && (operation.Reserved? || operation.CommitStarted?)
      then Completed(if at.Succeeding? then Succeeded else Failed) else operation
    case Abandon => Abandoned(operation)
    case _ => operation
  }

  function RequestTo(s: State, r: Id, step: RequestStep): (at: RequestAt)
    requires RequestEnabled(s, r, step)
  {
    match step
    case CheckConflict(answer) => if answer.Clear? then Preparing else if answer.Conflicting? then Failing else Done
    case Prepare(reply) => if reply.Inserted? then Marking else Failing
    case MarkCommit(call) => if call.Fine? && s.requests[r].operation.Reserved? then Renaming else Done
    case Reject => Rejecting
    case LoseGate => Done
    case Rename(revision) => Syncing(revision)
    case RenameFails(_, _, sourceRead, trashRead) =>
      if ProvenNotMoved(RequestEffect(s, r, step).dir, r, sourceRead, trashRead) then Rejecting else Done
    case VerifyFails(_) => Done
    case SyncRename(ok) => if ok then Readying(s.requests[r].at.revision) else Done
    case RemoveRejected(call) => if call.Fine? && HasRow(s, r) then Failing else Done
    case MarkReady(call) => if call.Fine? then Succeeding else Done
    case Complete(_) => Done
    case Abandon => Done
  }

  /** A request that is done has dropped its lease. */
  function LeaseTo(s: State, r: Id, step: RequestStep): (lease: Lease)
    requires RequestEnabled(s, r, step)
  {
    if RequestTo(s, r, step).Done? && !s.requests[r].at.Done? then Free else s.lease
  }

  function WithRequest(s: State, r: Id, request: Request, lease: Lease): (n: State) {
    s.(requests := s.requests[r := request], lease := lease)
  }

  function RequestNext(s: State, r: Id, step: RequestStep): (n: State)
    requires RequestEnabled(s, r, step)
  {
    WithRequest(RequestEffect(s, r, step), r, Request(RequestTo(s, r, step), OperationTo(s, r, step)),
                LeaseTo(s, r, step))
  }

  // ----- Into quarantine

  predicate MayHide(s: State, id: Id) {
    Trash(id) in s.dir && Quarantine !in s.dir
  }

  function HideTrash(s: State, id: Id): (n: State)
    requires Trash(id) in s.dir
  {
    WithDir(s, Move(s.dir, Trash(id), Quarantine, s.dir[Trash(id)]))
  }

  // ----- The reconciler of Prepared rows, holding the path lease

  datatype ReconcilerStep =
    | LoadRow(ok: bool)
    | Inspect(ok: bool)
    | Hide(ok: bool, applied: bool)
    | SyncHidden(ok: bool)
    | RemovePrepared(call: Call)

  predicate ReconcilerEnabled(s: State, step: ReconcilerStep) {
    s.lease.Reconciling? &&
    match step
    case LoadRow(_) => s.lease.at.Loading?
    case Inspect(_) => s.lease.at.Inspecting?
    case Hide(ok, applied) => s.lease.at.Hiding? && (ok || applied ==> MayHide(s, s.lease.id))
    case SyncHidden(_) => s.lease.at.SyncingHidden?
    case RemovePrepared(_) => s.lease.at.Removing?
  }

  function ReconcilerEffect(s: State, step: ReconcilerStep): (n: State)
    requires ReconcilerEnabled(s, step)
  {
    match step
    case Hide(ok, applied) => if ok || applied then HideTrash(s, s.lease.id) else s
    case SyncHidden(ok) => if ok then Fsynced(s) else s
    case RemovePrepared(call) => if Applied(call) && HasRow(s, s.lease.id) then s.(row := None) else s
    case _ => s
  }

  function ReconcilerTo(s: State, step: ReconcilerStep): (lease: Lease)
    requires ReconcilerEnabled(s, step)
  {
    var id := s.lease.id;
    match step
    case LoadRow(ok) => if ok && RowIs(s, id, Prepared) then Reconciling(id, Inspecting) else Free
    case Inspect(ok) =>
      if !ok then Free else Reconciling(id, if Trash(id) in s.dir then Hiding else Removing(TrashMissing))
    case Hide(ok, _) => if ok then Reconciling(id, SyncingHidden) else Free
    case SyncHidden(ok) => if ok then Reconciling(id, Removing(Settled)) else Free
    case RemovePrepared(_) => Free
  }

  function ReconcilerNext(s: State, step: ReconcilerStep): (n: State)
    requires ReconcilerEnabled(s, step)
  {
    ReconcilerEffect(s, step).(lease := ReconcilerTo(s, step))
  }

  // ----- The purge worker

  datatype Seen = Found | Missing | Suspicious | OpenFails | Unresolvable

  datatype HideResult = Hidden | Absent | HideFails(applied: bool)

  datatype WorkStep =
    | Reload(ok: bool)
    | Open(seen: Seen)
    | PurgeSome(revision: nat)
    | PurgeFails(invalid: bool, moved: bool)
    | PurgeMissing
    | Isolate
    | IsolatedFails
    | Unlink
    | SyncPurged(ok: bool)
    | HideClaimed(result: HideResult)
    | SyncClaimed(ok: bool)
    | CompleteRow(call: Call)
    | Defer(call: Call)

  predicate WorkEnabled(s: State, w: nat, step: WorkStep) {
    w in s.works &&
    var id, at := s.works[w].id, s.works[w].at;
    match step
    case Reload(_) => at.Retained?
    case Open(seen) =>
      && at.Opening?
      && (seen.Found? ==> Trash(id) in s.dir && s.works[w].revision == Some(s.dir[Trash(id)]))
      && (seen.Missing? ==> Trash(id) !in s.dir)
    case PurgeSome(_) => at.Purging? && Trash(id) in s.dir
    case PurgeFails(invalid, moved) => at.Purging? && (moved ==> !invalid && MayHide(s, id))
    case PurgeMissing => at.Purging? && Trash(id) !in s.dir
    case Isolate => at.Purging? && MayHide(s, id)
    case IsolatedFails => at.Isolated?
    case Unlink => at.Isolated?
    case SyncPurged(_) => at.Unlinked?
    case HideClaimed(result) =>
      && at.Ambiguous?
      && (result.Hidden? || (result.HideFails? && result.applied) ==> MayHide(s, id))
      && (result.Absent? ==> Trash(id) !in s.dir)
    case SyncClaimed(_) => at.Covering?
    case CompleteRow(_) => at.Completing?
    case Defer(_) => at.Deferring?
  }

  /** What the step does to the directory and the row. */
  function WorkEffect(s: State, w: nat, step: WorkStep): (n: State)
    requires WorkEnabled(s, w, step)
  {
    var id := s.works[w].id;
    match step
    case PurgeSome(revision) => WithDir(s, s.dir[Trash(id) := revision])
    case PurgeFails(_, moved) => if moved then HideTrash(s, id) else s
    case Isolate => HideTrash(s, id)
    case Unlink => WithDir(s, s.dir - {Quarantine})
    case SyncPurged(ok) => if ok then Fsynced(s) else s
    case SyncClaimed(ok) => if ok then Fsynced(s) else s
    case HideClaimed(result) => if result.Hidden? || (result.HideFails? && result.applied) then HideTrash(s, id) else s
    case CompleteRow(call) => if Applied(call) && RowIs(s, id, Claimed) then s.(row := None) else s
    case Defer(call) =>
      if Applied(call) && RowIs(s, id, Claimed) then s.(row := Some(s.row.value.(stage := Ready))) else s
    case _ => s
  }

  /** Where the job goes next; nowhere when the worker is finished with it. */
  function WorkTo(s: State, w: nat, step: WorkStep): (at: Option<WorkAt>)
    requires WorkEnabled(s, w, step)
  {
    var id, at := s.works[w].id, s.works[w].at;
    match step
    case Reload(ok) => if !ok then Some(Retained) else if RowIs(s, id, Claimed) then Some(Opening) else None
    case Open(seen) =>
      Some(match seen
           case Found => Purging
           case Missing => Completing(TrashMissing)
           case Suspicious => Ambiguous(false)
           case OpenFails => Deferring
           case Unresolvable => Retained)
    case PurgeSome(_) => Some(Purging)
    case PurgeFails(invalid, _) => Some(if invalid then Ambiguous(true) else Deferring)
    case PurgeMissing => Some(Unlinked)
    case Isolate => Some(Isolated)
    case IsolatedFails => Some(Covering(true))
    case Unlink => Some(Unlinked)
    case SyncPurged(ok) => Some(if ok then Completing(Settled) else Deferring)
    case HideClaimed(result) =>
      Some(match result
           case Hidden => Covering(at.inSlice)
           case Absent => if at.inSlice then Covering(true) else Completing(NothingToHide)
           case HideFails(_) => if at.inSlice then Deferring else Retained)
    case SyncClaimed(ok) =>
      Some(if ok then (if at.inSlice then Ambiguous(false) else Completing(Settled))
           else if at.inSlice then Deferring else Retained)
    case CompleteRow(call) => if call.Fine? then None else Some(Retained)
    case Defer(call) => if call.Fine? then None else Some(Retained)
  }

  /** A retained job is read again before it is retried. */
  function WorkRevision(s: State, w: nat, step: WorkStep): (revision: Option<nat>)
    requires WorkEnabled(s, w, step)
  {
    if step == Reload(true) && RowIs(s, s.works[w].id, Claimed) then s.row.value.revision else s.works[w].revision
  }

  function WorkNext(s: State, w: nat, step: WorkStep): (n: State)
    requires WorkEnabled(s, w, step)
  {
    var t, at := WorkEffect(s, w, step), WorkTo(s, w, step);
    t.(works := if at.None? then t.works - {w}
                else t.works[w := Work(s.works[w].id, WorkRevision(s, w, step), at.value)])
  }

  // ----- Everything

  datatype Event =
    | Start(r: Id)
    | OfRequest(r: Id, request: RequestStep)
    | BeginReconcile(id: Id)
    | OfReconciler(reconciler: ReconcilerStep)
    | Claim(w: nat)
    | OfWorker(w: nat, work: WorkStep)
    | Kill
    | PowerLoss(image: Directory)
    | OrphanPurge(id: Id)

  /** The object sits at a trash name no purge row speaks for: maintenance takes it for old, unjournaled trash. */
  predicate Orphan(s: State, id: Id) {
    Trash(id) in s.dir && !HasRow(s, id)
  }

  predicate Enabled(s: State, e: Event) {
    match e
    case Start(r) => r !in s.requests && s.lease.Free?
    case OfRequest(r, step) => RequestEnabled(s, r, step)
    case BeginReconcile(_) => s.lease.Free?
    case OfReconciler(step) => ReconcilerEnabled(s, step)
    case Claim(w) => w !in s.works && s.row.Some? && s.row.value.stage.Ready?
    case OfWorker(w, step) => WorkEnabled(s, w, step)
    case Kill => true
    case PowerLoss(image) => image in s.images
    case OrphanPurge(id) => Orphan(s, id)
  }

  /** What the store does when it is opened: operations are settled and claims returned. */
  function Recovered(s: State): (n: State) {
    s.(row := if s.row.Some? && s.row.value.stage.Claimed? then Some(s.row.value.(stage := Ready)) else s.row,
       requests := map r | r in s.requests :: Request(Done, Abandoned(s.requests[r].operation)),
       lease := Free,
       works := map[])
  }

  function Apply(s: State, e: Event): (n: State)
    requires Enabled(s, e)
  {
    match e
    case Start(r) => s.(requests := s.requests[r := Request(Checking, Reserved)], lease := Deleting(r))
    case OfRequest(r, step) => RequestNext(s, r, step)
    case BeginReconcile(id) => s.(lease := Reconciling(id, Loading))
    case OfReconciler(step) => ReconcilerNext(s, step)
    case Claim(w) =>
      s.(row := Some(s.row.value.(stage := Claimed)),
         works := s.works[w := Work(s.row.value.id, s.row.value.revision, Opening)])
    case OfWorker(w, step) => WorkNext(s, w, step)
    case Kill => Recovered(s)
    case PowerLoss(image) => Recovered(s).(dir := image, images := {image})
    case OrphanPurge(id) => WithDir(s, s.dir - {Trash(id)}).(orphanPurged := true)
  }
}
