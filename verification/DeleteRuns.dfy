/**
 What every run of the delete protocol keeps, crashes included.
 */
module DeleteRuns {
  import opened Wrappers
  import opened DeleteProtocol

  // ----- The invariant

  predicate AtMostOne(d: Directory) {
    forall a, b :: a in d && b in d ==> a == b
  }

  /** A power loss may bring the object back to this trash name. */
  predicate Unsynced(s: State, id: Id) {
    exists image :: image in s.images && Trash(id) in image
  }

  predicate DirectoryGood(s: State) {
    && s.dir in s.images
    && (forall image :: image in s.images ==> AtMostOne(image))
    && (Target in s.dir ==> s.images == {s.dir})
    && (s.stored != map[] ==> forall image :: image in s.images ==> Target !in image)
    && (map[] in s.images ==> s.stored != map[] || s.orphanPurged)
  }

  ghost predicate HistoryGood(s: State) {
    && s.stored.Keys <= s.synced <= s.renamed <= s.requests.Keys
    && (forall image, id :: image in s.images && Trash(id) in image ==> id in s.renamed)
  }

  predicate RowGood(s: State) {
    s.row.Some? ==>
      var row := s.row.value;
      if row.stage.Prepared? then row.revision.None? && row.id !in s.stored && row.id in s.requests
      else row.id in s.stored && row.revision == Some(s.stored[row.id])
  }

  /** The row a request stored and nobody else may touch yet. */
  predicate OwnRow(s: State, id: Id) {
    s.row == Some(Row(id, Prepared, None))
  }

  predicate RequestGood(s: State, r: Id)
    requires r in s.requests
  {
    var q := s.requests[r];
    && (q.at.Done? <==> s.lease != Deleting(r))
    && (match q.at
        case Checking => q.operation.Reserved? && r !in s.renamed
        case Preparing => q.operation.Reserved? && r !in s.renamed && s.row.None?
        case Marking => q.operation.Reserved? && r !in s.renamed && OwnRow(s, r)
        case Renaming => q.operation.CommitStarted? && r !in s.renamed && OwnRow(s, r)
        case Syncing(revision) =>
          q.operation.CommitStarted? && r in s.renamed && OwnRow(s, r) && s.dir == map[Trash(r) := revision]
        case Readying(revision) =>
          && q.operation.CommitStarted? && r in s.synced && OwnRow(s, r)
          && s.dir == map[Trash(r) := revision] && s.images == {s.dir}
        case Rejecting => q.operation.CommitStarted? && r !in s.renamed && OwnRow(s, r)
        case Failing => (q.operation.Reserved? || q.operation.CommitStarted?) && r !in s.renamed
        case Succeeding => q.operation.CommitStarted? && r in s.stored
        case Done =>
          && (q.operation == Completed(Succeeded) ==> r in s.stored)
          && (q.operation == Completed(Failed) ==> r !in s.renamed))
  }

  predicate LeaseGood(s: State) {
    && (s.lease.Deleting? ==> s.lease.r in s.requests)
    && (s.lease.Reconciling? && !s.lease.at.Loading? ==> OwnRow(s, s.lease.id))
    && (s.lease.Reconciling? && (s.lease.at.SyncingHidden? || s.lease.at.Removing?) ==> Trash(s.lease.id) !in s.dir)
    && (s.lease.Reconciling? && s.lease.at == Removing(Settled) ==> !Unsynced(s, s.lease.id))
  }

  predicate WorkGood(s: State, work: Work) {
    && work.id in s.stored && work.revision == Some(s.stored[work.id])
    && (work.at.Isolated? || work.at.Unlinked? || work.at.Covering? || work.at.Completing? ==> Trash(work.id) !in s.dir)
    && (work.at == Completing(Settled) ==> !Unsynced(s, work.id))
  }

  ghost predicate Inv(s: State) {
    && DirectoryGood(s) && HistoryGood(s) && RowGood(s) && LeaseGood(s)
    && (forall r :: r in s.requests ==> RequestGood(s, r))
    && (forall w :: w in s.works ==> WorkGood(s, s.works[w]))
  }

  // ----- Changes to the shared state keep it

  lemma FsyncKeeps(s: State)
    requires Inv(s)
    ensures Inv(Fsynced(s))
  {
    var n := Fsynced(s);
    forall r | r in n.requests
      ensures RequestGood(n, r)
    {
      assert RequestGood(s, r);
    }
    forall w | w in n.works
      ensures WorkGood(n, n.works[w])
    {
      assert WorkGood(s, s.works[w]);
    }
  }

  lemma HideDirectory(s: State, id: Id)
    requires DirectoryGood(s) && HistoryGood(s) && MayHide(s, id)
    ensures var n := HideTrash(s, id); DirectoryGood(n) && HistoryGood(n) && n.dir.Keys == {Quarantine}
  {
    var n := HideTrash(s, id);
    assert n.dir.Keys == {Quarantine};
    assert n.images == s.images + {n.dir};
  }

  /** Moving the trash entry to quarantine, by whoever may. */
  lemma HideKeeps(s: State, id: Id)
    requires Inv(s) && MayHide(s, id) && (id in s.stored || s.lease.Reconciling?)
    ensures Inv(HideTrash(s, id))
  {
    var n := HideTrash(s, id);
    HideDirectory(s, id);
    forall r | r in n.requests
      ensures RequestGood(n, r)
    {
      assert RequestGood(s, r);
    }
    forall w | w in n.works
      ensures WorkGood(n, n.works[w])
    {
      assert WorkGood(s, s.works[w]);
    }
  }

  /** Purging children changes what the trash entry looks like, nothing else. */
  lemma PurgeSomeKeeps(s: State, id: Id, revision: nat)
    requires Inv(s) && Trash(id) in s.dir && id in s.stored
    ensures Inv(WithDir(s, s.dir[Trash(id) := revision]))
  {
    var n := WithDir(s, s.dir[Trash(id) := revision]);
    assert n.dir.Keys == s.dir.Keys;
    forall r | r in n.requests
      ensures RequestGood(n, r)
    {
      assert RequestGood(s, r);
    }
    forall w | w in n.works
      ensures WorkGood(n, n.works[w])
    {
      assert WorkGood(s, s.works[w]);
    }
  }

  lemma UnlinkKeeps(s: State)
    requires Inv(s) && s.stored != map[]
    ensures Inv(WithDir(s, s.dir - {Quarantine}))
  {
    var n := WithDir(s, s.dir - {Quarantine});
    forall r | r in n.requests
      ensures RequestGood(n, r)
    {
      assert RequestGood(s, r);
      if Quarantine !in s.dir { assert n.dir == s.dir; }
    }
    forall w | w in n.works
      ensures WorkGood(n, n.works[w])
    {
      assert WorkGood(s, s.works[w]);
    }
  }

  /** Nobody but the worker relies on a row that is past Prepared. */
  lemma ClaimedRowKeeps(s: State, row: Option<Row>)
    requires Inv(s) && s.row.Some? && !s.row.value.stage.Prepared?
    requires row.Some? ==> row.value.id == s.row.value.id && row.value.revision == s.row.value.revision
    requires row.Some? ==> !row.value.stage.Prepared?
    ensures Inv(s.(row := row))
  {
    var n := s.(row := row);
    forall r | r in n.requests
      ensures RequestGood(n, r)
    {
      assert RequestGood(s, r);
    }
  }

  lemma WorksKeep(s: State, works: map<nat, Work>)
    requires Inv(s) && forall w :: w in works ==> WorkGood(s, works[w])
    ensures Inv(s.(works := works))
  {
    var n := s.(works := works);
    forall r | r in n.requests
      ensures RequestGood(n, r)
    {
      assert RequestGood(s, r);
    }
    forall w | w in n.works
      ensures WorkGood(n, n.works[w])
    {
      assert WorkGood(s, works[w]);
    }
  }

  // ----- Every step keeps it

  lemma WorkEffectKeeps(s: State, w: nat, step: WorkStep)
    requires Inv(s) && WorkEnabled(s, w, step)
    ensures Inv(WorkEffect(s, w, step))
  {
    var id := s.works[w].id;
    assert WorkGood(s, s.works[w]);
    if WorkEffect(s, w, step) != s {
      match step
      case PurgeSome(revision) => PurgeSomeKeeps(s, id, revision);
      case Unlink => UnlinkKeeps(s);
      case SyncPurged(_) => FsyncKeeps(s);
      case SyncClaimed(_) => FsyncKeeps(s);
      case CompleteRow(_) => ClaimedRowKeeps(s, None);
      case Defer(_) => ClaimedRowKeeps(s, Some(s.row.value.(stage := Ready)));
      case _ => HideKeeps(s, id);
    }
  }

  ghost predicate WorkGoesOn(s: State, w: nat, step: WorkStep)
    requires WorkEnabled(s, w, step) && WorkTo(s, w, step).Some?
  {
    WorkGood(WorkEffect(s, w, step), Work(s.works[w].id, WorkRevision(s, w, step), WorkTo(s, w, step).value))
  }

  lemma WorkSyncGood(s: State, w: nat, step: WorkStep)
    requires Inv(s) && WorkEnabled(s, w, step) && (step.SyncPurged? || step.SyncClaimed?)
    ensures WorkGoesOn(s, w, step)
  {
    assert WorkGood(s, s.works[w]);
  }

  lemma WorkHideGood(s: State, w: nat, step: WorkStep)
    requires Inv(s) && WorkEnabled(s, w, step) && (step.HideClaimed? || step.Isolate? || step.PurgeFails?)
    ensures WorkGoesOn(s, w, step)
  {
    assert WorkGood(s, s.works[w]);
  }

  lemma WorkToGood(s: State, w: nat, step: WorkStep)
    requires Inv(s) && WorkEnabled(s, w, step) && WorkTo(s, w, step).Some?
    ensures WorkGoesOn(s, w, step)
  {
    if step.SyncPurged? || step.SyncClaimed? {
      WorkSyncGood(s, w, step);
    } else if step.HideClaimed? || step.Isolate? || step.PurgeFails? {
      WorkHideGood(s, w, step);
    } else {
      assert WorkGood(s, s.works[w]);
    }
  }

  lemma WorkStepKeeps(s: State, w: nat, step: WorkStep)
    requires Inv(s) && WorkEnabled(s, w, step)
    ensures Inv(WorkNext(s, w, step))
  {
    var t, n := WorkEffect(s, w, step), WorkNext(s, w, step);
    WorkEffectKeeps(s, w, step);
    if WorkTo(s, w, step).Some? { WorkToGood(s, w, step); }
    assert forall v :: v in n.works ==> WorkGood(t, n.works[v]);
    WorksKeep(t, n.works);
  }

  /** The invariant without what it says of one request and of the lease. */
  ghost predicate InvBut(s: State, r: Id) {
    && DirectoryGood(s) && HistoryGood(s) && RowGood(s)
    && (forall q :: q in s.requests && q != r ==> RequestGood(s, q))
    && (forall w :: w in s.works ==> WorkGood(s, s.works[w]))
  }

  lemma InsertRowKeeps(s: State, r: Id)
    requires Inv(s) && r in s.requests && s.requests[r].at.Preparing?
    ensures InvBut(InsertRow(s, r), r)
  {
    assert RequestGood(s, r);
    forall q | q in s.requests && q != r
      ensures RequestGood(InsertRow(s, r), q)
    {
      assert RequestGood(s, q);
    }
  }

  lemma RenameKeeps(s: State, r: Id, revision: nat)
    requires Inv(s) && r in s.requests && s.requests[r].at.Renaming? && Target in s.dir && Trash(r) !in s.dir
    ensures InvBut(RenameTarget(s, r, revision), r)
    ensures RenameTarget(s, r, revision).dir == map[Trash(r) := revision]
  {
    assert RequestGood(s, r);
    var n := RenameTarget(s, r, revision);
    assert s.dir.Keys == {Target} && n.dir.Keys == {Trash(r)};
    forall q | q in s.requests && q != r
      ensures RequestGood(n, q)
    {
      assert RequestGood(s, q);
    }
  }

  lemma StoreReadyKeeps(s: State, r: Id, revision: nat)
    requires Inv(s) && r in s.requests && s.requests[r].at == Readying(revision)
    ensures InvBut(StoreReady(s, r, revision), r)
  {
    assert RequestGood(s, r);
    var n := StoreReady(s, r, revision);
    forall q | q in s.requests && q != r
      ensures RequestGood(n, q)
    {
      assert RequestGood(s, q);
    }
    forall w | w in s.works
      ensures WorkGood(n, s.works[w])
    {
      assert WorkGood(s, s.works[w]);
    }
  }

  lemma SyncRenameKeeps(s: State, r: Id)
    requires Inv(s) && r in s.requests && s.requests[r].at.Syncing?
    ensures InvBut(Fsynced(s).(synced := s.synced + {r}), r)
  {
    assert RequestGood(s, r);
    FsyncKeeps(s);
    var t, n := Fsynced(s), Fsynced(s).(synced := s.synced + {r});
    forall q | q in s.requests && q != r
      ensures RequestGood(n, q)
    {
      assert RequestGood(t, q);
    }
    forall w | w in s.works
      ensures WorkGood(n, s.works[w])
    {
      assert WorkGood(t, t.works[w]);
    }
  }

  lemma RemoveRejectedKeeps(s: State, r: Id)
    requires Inv(s) && r in s.requests && s.requests[r].at.Rejecting?
    ensures InvBut(s.(row := None), r)
  {
    assert RequestGood(s, r);
    forall q | q in s.requests && q != r
      ensures RequestGood(s.(row := None), q)
    {
      assert RequestGood(s, q);
    }
  }

  lemma RequestEffectKeeps(s: State, r: Id, step: RequestStep)
    requires Inv(s) && RequestEnabled(s, r, step)
    ensures InvBut(RequestEffect(s, r, step), r)
  {
    if RequestEffect(s, r, step) != s {
      match step
      case Prepare(_) => InsertRowKeeps(s, r);
      case Rename(revision) => RenameKeeps(s, r, revision);
      case RenameFails(_, revision, _, _) => RenameKeeps(s, r, revision);
      case VerifyFails(_) => FsyncKeeps(s);
      case SyncRename(_) => SyncRenameKeeps(s, r);
      case RemoveRejected(_) => RemoveRejectedKeeps(s, r);
      case MarkReady(_) => StoreReadyKeeps(s, r, s.requests[r].at.revision);
    }
  }

  lemma RenamedToGood(s: State, r: Id, step: RequestStep)
    requires Inv(s) && RequestEnabled(s, r, step) && (step.Rename? || step.RenameFails?)
    ensures RequestGood(RequestNext(s, r, step), r)
  {
    assert RequestGood(s, r);
    if step.Rename? || step.applied { RenameKeeps(s, r, step.revision); }
  }

  lemma AfterRenameGood(s: State, r: Id, step: RequestStep)
    requires Inv(s) && RequestEnabled(s, r, step) && (step.VerifyFails? || step.SyncRename? || step.MarkReady?)
    ensures RequestGood(RequestNext(s, r, step), r)
  {
    assert RequestGood(s, r);
  }

  lemma BeforeRenameGood(s: State, r: Id, step: RequestStep)
    requires Inv(s) && RequestEnabled(s, r, step)
    requires step.CheckConflict? || step.Prepare? || step.MarkCommit? || step.Reject?
    ensures RequestGood(RequestNext(s, r, step), r)
  {
    assert RequestGood(s, r);
  }

  lemma RequestToGood(s: State, r: Id, step: RequestStep)
    requires Inv(s) && RequestEnabled(s, r, step)
    ensures RequestGood(RequestNext(s, r, step), r)
  {
    if step.Rename? || step.RenameFails? {
      RenamedToGood(s, r, step);
    } else if step.VerifyFails? || step.SyncRename? || step.MarkReady? {
      AfterRenameGood(s, r, step);
    } else if step.CheckConflict? || step.Prepare? || step.MarkCommit? || step.Reject? {
      BeforeRenameGood(s, r, step);
    } else {
      assert RequestGood(s, r);
    }
  }

  /** The other requests do not hold the lease, and do not care who does. */
  lemma OthersKeep(s: State, t: State, r: Id, request: Request, lease: Lease)
    requires Inv(s) && InvBut(t, r) && t.requests == s.requests && t.lease == s.lease && r in s.requests
    requires lease == s.lease || (s.lease == Deleting(r) && lease.Free?)
    ensures InvBut(WithRequest(t, r, request, lease), r)
  {
    var n := WithRequest(t, r, request, lease);
    forall q | q in n.requests && q != r
      ensures RequestGood(n, q)
    {
      assert RequestGood(t, q);
    }
    forall w | w in n.works
      ensures WorkGood(n, n.works[w])
    {
      assert WorkGood(t, t.works[w]);
    }
  }

  lemma RequestLeaseGood(s: State, r: Id, step: RequestStep)
    requires Inv(s) && RequestEnabled(s, r, step)
    ensures LeaseGood(RequestNext(s, r, step))
  {
    assert RequestGood(s, r);
  }

  lemma RequestStepKeeps(s: State, r: Id, step: RequestStep)
    requires Inv(s) && RequestEnabled(s, r, step)
    ensures Inv(RequestNext(s, r, step))
  {
    var n := RequestNext(s, r, step);
    assert InvBut(n, r) by { RequestOthersKeep(s, r, step); }
    assert RequestGood(n, r) by { RequestToGood(s, r, step); }
    assert LeaseGood(n) by { RequestLeaseGood(s, r, step); }
    PutTogether(n, r);
  }

  lemma RequestOthersKeep(s: State, r: Id, step: RequestStep)
    requires Inv(s) && RequestEnabled(s, r, step)
    ensures InvBut(RequestNext(s, r, step), r)
  {
    var t := RequestEffect(s, r, step);
    RequestEffectKeeps(s, r, step);
    RequestEffectFrame(s, r, step);
    assert RequestGood(s, r);
    RequestLeaseFrame(s, r, step);
    OthersKeep(s, t, r, Request(RequestTo(s, r, step), OperationTo(s, r, step)), LeaseTo(s, r, step));
  }

  lemma RequestEffectFrame(s: State, r: Id, step: RequestStep)
    requires RequestEnabled(s, r, step)
    ensures RequestEffect(s, r, step).requests == s.requests && RequestEffect(s, r, step).lease == s.lease
  {
  }

  lemma RequestLeaseFrame(s: State, r: Id, step: RequestStep)
    requires RequestEnabled(s, r, step) && RequestGood(s, r)
    ensures LeaseTo(s, r, step) == s.lease || (s.lease == Deleting(r) && LeaseTo(s, r, step).Free?)
  {
    if !s.requests[r].at.Done? { assert s.lease == Deleting(r); }
  }

  lemma PutTogether(n: State, r: Id)
    requires InvBut(n, r) && r in n.requests && RequestGood(n, r) && LeaseGood(n)
    ensures Inv(n)
  {
  }

  lemma LeaseKeeps(s: State, lease: Lease)
    requires Inv(s) && !s.lease.Deleting? && !lease.Deleting? && LeaseGood(s.(lease := lease))
    ensures Inv(s.(lease := lease))
  {
    var n := s.(lease := lease);
    forall r | r in n.requests
      ensures RequestGood(n, r)
    {
      assert RequestGood(s, r);
    }
    forall w | w in n.works
      ensures WorkGood(n, n.works[w])
    {
      assert WorkGood(s, s.works[w]);
    }
  }

  /** While the reconciler holds the lease, no request relies on the row. */
  lemma RemovePreparedKeeps(s: State)
    requires Inv(s) && s.lease.Free?
    ensures Inv(s.(row := None))
  {
    var n := s.(row := None);
    forall r | r in n.requests
      ensures RequestGood(n, r)
    {
      assert RequestGood(s, r);
    }
    forall w | w in n.works
      ensures WorkGood(n, n.works[w])
    {
      assert WorkGood(s, s.works[w]);
    }
  }

  lemma ReconcilerEffectKeeps(s: State, step: ReconcilerStep)
    requires Inv(s) && ReconcilerEnabled(s, step) && !step.RemovePrepared?
    ensures Inv(ReconcilerEffect(s, step)) && ReconcilerEffect(s, step).lease == s.lease
  {
    if ReconcilerEffect(s, step) != s {
      if step.Hide? { HideKeeps(s, s.lease.id); } else { FsyncKeeps(s); }
    }
  }

  lemma ReconcilerToGood(s: State, step: ReconcilerStep)
    requires Inv(s) && ReconcilerEnabled(s, step) && !step.RemovePrepared?
    ensures LeaseGood(ReconcilerNext(s, step)) && !ReconcilerNext(s, step).lease.Deleting?
  {
  }

  lemma ReconcilerStepKeeps(s: State, step: ReconcilerStep)
    requires Inv(s) && ReconcilerEnabled(s, step)
    ensures Inv(ReconcilerNext(s, step))
  {
    if step.RemovePrepared? {
      LeaseKeeps(s, Free);
      RemovePreparedKeeps(s.(lease := Free));
    } else {
      ReconcilerEffectKeeps(s, step);
      ReconcilerToGood(s, step);
      LeaseKeeps(ReconcilerEffect(s, step), ReconcilerTo(s, step));
    }
  }

  lemma StartKeeps(s: State, r: Id)
    requires Inv(s) && Enabled(s, Start(r))
    ensures Inv(Apply(s, Start(r)))
  {
    var n := Apply(s, Start(r));
    forall q | q in n.requests
      ensures RequestGood(n, q)
    {
      if q != r { assert RequestGood(s, q); }
    }
  }

  lemma ClaimKeeps(s: State, w: nat)
    requires Inv(s) && Enabled(s, Claim(w))
    ensures Inv(Apply(s, Claim(w)))
  {
    var row, n := Some(s.row.value.(stage := Claimed)), Apply(s, Claim(w));
    ClaimedRowKeeps(s, row);
    WorksKeep(s.(row := row), n.works);
  }

  lemma RecoveryKeeps(s: State)
    requires Inv(s)
    ensures Inv(Recovered(s))
  {
    var n := Recovered(s);
    assert n.requests.Keys == s.requests.Keys;
    forall r | r in n.requests
      ensures RequestGood(n, r)
    {
      assert RequestGood(s, r);
    }
  }

  /** A power loss is a restart on one of the images. */
  lemma PowerLossKeeps(s: State, image: Directory)
    requires Inv(s) && image in s.images
    ensures Inv(Apply(s, PowerLoss(image)))
  {
    RecoveryKeeps(s);
    var t, n := Recovered(s), Apply(s, PowerLoss(image));
    forall r | r in n.requests
      ensures RequestGood(n, r)
    {
      assert RequestGood(t, r);
    }
  }

  lemma OrphanPurgeKeeps(s: State, id: Id)
    requires Inv(s) && Orphan(s, id)
    ensures Inv(Apply(s, OrphanPurge(id)))
  {
    var n := Apply(s, OrphanPurge(id));
    assert n.dir == map[];
    forall r | r in n.requests
      ensures RequestGood(n, r)
    {
      assert RequestGood(s, r);
    }
    forall w | w in n.works
      ensures WorkGood(n, n.works[w])
    {
      assert WorkGood(s, s.works[w]);
    }
  }

  lemma StepKeeps(s: State, e: Event)
    requires Inv(s) && Enabled(s, e)
    ensures Inv(Apply(s, e))
  {
    match e
    case Start(r) => StartKeeps(s, r);
    case OfRequest(r, step) => RequestStepKeeps(s, r, step);
    case BeginReconcile(id) => LeaseKeeps(s, Reconciling(id, Loading));
    case OfReconciler(step) => ReconcilerStepKeeps(s, step);
    case Claim(w) => ClaimKeeps(s, w);
    case OfWorker(w, step) => WorkStepKeeps(s, w, step);
    case Kill => RecoveryKeeps(s);
    case PowerLoss(image) => PowerLossKeeps(s, image);
    case OrphanPurge(id) => OrphanPurgeKeeps(s, id);
  }

  // ----- Runs

  ghost predicate Leads(s: State, e: Event, n: State) {
    Enabled(s, e) && n == Apply(s, e)
  }

  ghost predicate IsRun(ss: seq<State>, es: seq<Event>) {
    && |ss| == |es| + 1 && Initial(ss[0])
    && forall i {:trigger es[i]} :: 0 <= i < |es| ==> Leads(ss[i], es[i], ss[i + 1])
  }

  lemma Extend(ss: seq<State>, es: seq<Event>, e: Event, n: State) returns (tt: seq<State>, ff: seq<Event>)
    requires IsRun(ss, es) && Leads(ss[|es|], e, n)
    ensures IsRun(tt, ff) && tt == ss + [n] && ff == es + [e]
  {
    tt, ff := ss + [n], es + [e];
    forall i | 0 <= i < |ff|
      ensures Leads(tt[i], ff[i], tt[i + 1])
    {
      if i < |es| { assert ff[i] == es[i] && tt[i] == ss[i] && tt[i + 1] == ss[i + 1]; }
    }
  }

  lemma {:induction false} Reachable(ss: seq<State>, es: seq<Event>, i: nat)
    requires IsRun(ss, es) && i < |ss|
    ensures Inv(ss[i])
  {
    if i == 0 {
      assert Target in ss[0].dir && ss[0].dir != map[];
    } else {
      Reachable(ss, es, i - 1);
      assert Leads(ss[i - 1], es[i - 1], ss[i]);
      StepKeeps(ss[i - 1], es[i - 1]);
    }
  }

  /** The object is under exactly one name until it is purged; it is purged only after Ready was stored,
      unless maintenance took it for an orphan. */
  lemma OnePlaceUntilPurged(ss: seq<State>, es: seq<Event>, i: nat)
    requires IsRun(ss, es) && i < |ss|
    ensures if ss[i].dir == map[] then ss[i].stored != map[] || ss[i].orphanPurged
            else exists name :: ss[i].dir.Keys == {name}
  {
    Reachable(ss, es, i);
    var d := ss[i].dir;
    if d != map[] {
      var name :| name in d;
      assert d.Keys == {name};
    }
  }

  /** Recorded outcomes are never wrong.  A success means the rename was fsynced and stored as Ready, and that
      no crash can bring the target back; a failure means this request renamed nothing. */
  lemma RecordedOutcomesAreRight(ss: seq<State>, es: seq<Event>, i: nat, r: Id)
    requires IsRun(ss, es) && i < |ss| && r in ss[i].requests
    ensures ss[i].requests[r].operation == Completed(Succeeded) ==>
              r in ss[i].renamed && r in ss[i].synced && r in ss[i].stored &&
              forall image :: image in ss[i].images ==> Target !in image
    ensures ss[i].requests[r].operation == Completed(Failed) ==> r !in ss[i].renamed
  {
    Reachable(ss, es, i);
    assert RequestGood(ss[i], r);
  }
}
