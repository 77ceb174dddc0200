/**
 When a power loss can make an orphan: an object at a trash name that no purge
 row speaks for, which maintenance takes for old, unjournaled trash.
 */
module DeleteOrphans {
  import opened Wrappers
  import opened DeleteProtocol
  import opened DeleteRuns

  /** No crash, now, leaves the object at a trash name without its row. */
  ghost predicate Covered(s: State) {
    forall image, id :: image in s.images && Trash(id) in image ==> HasRow(s, id)
  }

  /** Whichever directory state a power loss brings back, maintenance sees no orphan. */
  ghost predicate SafeFromPowerLoss(s: State) {
    forall image, id :: image in s.images ==> !Orphan(Apply(s, PowerLoss(image)), id)
  }

  lemma CoveredIsSafe(s: State)
    ensures Covered(s) <==> SafeFromPowerLoss(s)
  {
    if !Covered(s) {
      var image, id :| image in s.images && Trash(id) in image && !HasRow(s, id);
      assert Orphan(Apply(s, PowerLoss(image)), id);
    }
  }

  /** A step brings the object to no trash name but that of its row, and only a step that touches nothing
      else takes a row away. */
  ghost predicate Tame(s: State, n: State) {
    && (forall image, id :: image in n.images && Trash(id) in image ==> Unsynced(s, id) || HasRow(n, id))
    && (s.row.Some? ==> if n.row.None? then n.images == s.images else n.row.value.id == s.row.value.id)
  }

  /** As `Tame`, for the directory as it is now. */
  ghost predicate TameNow(s: State, n: State) {
    && (forall id :: Trash(id) in n.dir ==> Trash(id) in s.dir || HasRow(n, id))
    && (s.row.Some? ==> if n.row.None? then Trash(s.row.value.id) !in n.dir else n.row.value.id == s.row.value.id)
  }

  lemma RenameTame(s: State, r: Id, revision: nat)
    requires Inv(s) && RequestEnabled(s, r, Rename(revision))
    ensures Tame(s, RenameTarget(s, r, revision)) && TameNow(s, RenameTarget(s, r, revision))
  {
    assert RequestGood(s, r);
    RenameKeeps(s, r, revision);
  }

  lemma RequestEffectTame(s: State, r: Id, step: RequestStep)
    requires Inv(s) && RequestEnabled(s, r, step)
    ensures Tame(s, RequestEffect(s, r, step))
  {
    assert RequestGood(s, r);
    if step.Rename? || (step.RenameFails? && step.applied) { RenameTame(s, r, step.revision); }
  }

  lemma RequestEffectTameNow(s: State, r: Id, step: RequestStep)
    requires Inv(s) && RequestEnabled(s, r, step)
    ensures TameNow(s, RequestEffect(s, r, step))
  {
    assert RequestGood(s, r);
    if step.Rename? || (step.RenameFails? && step.applied) { RenameTame(s, r, step.revision); }
  }

  lemma ReconcilerStepTame(s: State, step: ReconcilerStep)
    requires Inv(s) && ReconcilerEnabled(s, step)
    ensures Tame(s, ReconcilerEffect(s, step)) && TameNow(s, ReconcilerEffect(s, step))
  {
  }

  lemma HideTame(s: State, id: Id)
    requires Inv(s) && MayHide(s, id)
    ensures Tame(s, HideTrash(s, id)) && TameNow(s, HideTrash(s, id))
  {
    HideDirectory(s, id);
  }

  lemma WorkEffectTame(s: State, w: nat, step: WorkStep)
    requires Inv(s) && WorkEnabled(s, w, step)
    ensures Tame(s, WorkEffect(s, w, step))
  {
    assert WorkGood(s, s.works[w]);
    if MayHide(s, s.works[w].id) { HideTame(s, s.works[w].id); }
  }

  lemma WorkEffectTameNow(s: State, w: nat, step: WorkStep)
    requires Inv(s) && WorkEnabled(s, w, step)
    ensures TameNow(s, WorkEffect(s, w, step))
  {
    assert WorkGood(s, s.works[w]);
    if MayHide(s, s.works[w].id) { HideTame(s, s.works[w].id); }
  }

  lemma RequestStepTame(s: State, r: Id, step: RequestStep)
    requires Inv(s) && RequestEnabled(s, r, step)
    ensures Tame(s, RequestNext(s, r, step))
  {
    RequestEffectTame(s, r, step);
  }

  lemma WorkStepTame(s: State, w: nat, step: WorkStep)
    requires Inv(s) && WorkEnabled(s, w, step)
    ensures Tame(s, WorkNext(s, w, step))
  {
    WorkEffectTame(s, w, step);
  }

  predicate Acts(e: Event) {
    e.OfRequest? || e.OfReconciler? || e.OfWorker?
  }

  lemma StepTame(s: State, e: Event)
    requires Inv(s) && Enabled(s, e)
    ensures Tame(s, Apply(s, e))
  {
    match e
    case OfRequest(r, step) => RequestStepTame(s, r, step);
    case OfReconciler(step) => ReconcilerStepTame(s, step);
    case OfWorker(w, step) => WorkStepTame(s, w, step);
    case _ =>
  }

  lemma TameCovers(s: State, n: State)
    requires Covered(s) && Tame(s, n)
    ensures Covered(n) <==> !(s.row.Some? && n.row.None? && Unsynced(s, s.row.value.id))
  {
  }

  // ----- Which removals are too early

  /** The calls that take the row away, and take effect. */
  predicate Removes(s: State, e: Event) {
    match e
    case OfRequest(r, RemoveRejected(call)) => Applied(call) && HasRow(s, r)
    case OfReconciler(RemovePrepared(call)) => s.lease.Reconciling? && Applied(call) && HasRow(s, s.lease.id)
    case OfWorker(w, CompleteRow(call)) => w in s.works && Applied(call) && RowIs(s, s.works[w].id, Claimed)
    case _ => false
  }

  lemma RemovesTakesRow(s: State, e: Event)
    requires Enabled(s, e)
    ensures Removes(s, e) <==> s.row.Some? && Apply(s, e).row.None?
  {
    match e
    case OfRequest(r, step) => RequestRemoves(s, r, step);
    case OfWorker(w, step) => WorkRemoves(s, w, step);
    case _ =>
  }

  lemma RequestRemoves(s: State, r: Id, step: RequestStep)
    requires RequestEnabled(s, r, step)
    ensures Removes(s, OfRequest(r, step)) <==> s.row.Some? && RequestNext(s, r, step).row.None?
  {
    assert RequestNext(s, r, step).row == RequestEffect(s, r, step).row;
  }

  lemma WorkRemoves(s: State, w: nat, step: WorkStep)
    requires WorkEnabled(s, w, step)
    ensures Removes(s, OfWorker(w, step)) <==> s.row.Some? && WorkNext(s, w, step).row.None?
  {
    assert WorkNext(s, w, step).row == WorkEffect(s, w, step).row;
  }

  /** After these steps what is on disk is the directory as it is: a successful fsync, or a power loss. */
  predicate Settles(e: Event) {
    match e
    case OfRequest(_, SyncRename(ok)) => ok
    case OfRequest(_, VerifyFails(synced)) => synced
    case OfReconciler(SyncHidden(ok)) => ok
    case OfWorker(_, SyncPurged(ok)) => ok
    case OfWorker(_, SyncClaimed(ok)) => ok
    case PowerLoss(_) => true
    case _ => false
  }

  lemma RequestImages(s: State, r: Id, step: RequestStep)
    requires RequestEnabled(s, r, step) && s.dir in s.images
    ensures var n := RequestNext(s, r, step);
            n.images == if Settles(OfRequest(r, step)) then {n.dir} else s.images + {n.dir}
  {
    var t := RequestEffect(s, r, step);
    assert RequestNext(s, r, step).images == t.images && RequestNext(s, r, step).dir == t.dir;
    assert s.images + {s.dir} == s.images;
  }

  lemma WorkImages(s: State, w: nat, step: WorkStep)
    requires WorkEnabled(s, w, step) && s.dir in s.images
    ensures var n := WorkNext(s, w, step);
            n.images == if Settles(OfWorker(w, step)) then {n.dir} else s.images + {n.dir}
  {
    var t := WorkEffect(s, w, step);
    assert WorkNext(s, w, step).images == t.images && WorkNext(s, w, step).dir == t.dir;
    assert s.images + {s.dir} == s.images;
  }

  /** Every step adds the directory as it is now to what a power loss may bring back, or leaves only that. */
  lemma ImagesStep(s: State, e: Event)
    requires Enabled(s, e) && s.dir in s.images
    ensures var n := Apply(s, e); n.images == if Settles(e) then {n.dir} else s.images + {n.dir}
  {
    assert s.images + {s.dir} == s.images;
    match e
    case OfRequest(r, step) => RequestImages(s, r, step);
    case OfWorker(w, step) => WorkImages(s, w, step);
    case _ =>
  }

  /** Up to state `i`, every time the object was at this trash name, something was made durable afterwards. */
  ghost predicate SettledSince(ss: seq<State>, es: seq<Event>, i: nat, id: Id)
    requires i < |ss| <= |es| + 1
  {
    forall j :: 0 <= j <= i && Trash(id) in ss[j].dir ==> exists k :: j <= k < i && Settles(es[k])
  }

  /** Whether the trash name may come back shows in what was done: it may not exactly if an fsync followed its last
      use. */
  lemma {:induction false} UnsyncedShowsInEvents(ss: seq<State>, es: seq<Event>, i: nat, id: Id)
    requires IsRun(ss, es) && i < |ss|
    ensures Unsynced(ss[i], id) <==> !SettledSince(ss, es, i, id)
  {
    if i == 0 {
      assert Unsynced(ss[0], id) <==> Trash(id) in ss[0].dir;
    } else {
      UnsyncedShowsInEvents(ss, es, i - 1, id);
      Reachable(ss, es, i - 1);
      assert Leads(ss[i - 1], es[i - 1], ss[i]);
      ImagesStep(ss[i - 1], es[i - 1]);
      SettledSinceNext(ss, es, i, id);
      UnsyncedNext(ss[i - 1], ss[i], Settles(es[i - 1]), id);
    }
  }

  lemma UnsyncedNext(s: State, n: State, settled: bool, id: Id)
    requires n.images == if settled then {n.dir} else s.images + {n.dir}
    ensures Unsynced(n, id) <==> Trash(id) in n.dir || (!settled && Unsynced(s, id))
  {
    if Trash(id) in n.dir { assert n.dir in n.images; }
    if !settled && Unsynced(s, id) {
      var image :| image in s.images && Trash(id) in image;
      assert image in n.images;
    }
  }

  lemma SettledSinceNext(ss: seq<State>, es: seq<Event>, i: nat, id: Id)
    requires 0 < i < |ss| <= |es| + 1
    ensures SettledSince(ss, es, i, id) <==>
            Trash(id) !in ss[i].dir && (Settles(es[i - 1]) || SettledSince(ss, es, i - 1, id))
  {
    if SettledSince(ss, es, i, id) && !Settles(es[i - 1]) {
      forall j | 0 <= j <= i - 1 && Trash(id) in ss[j].dir
        ensures exists k :: j <= k < i - 1 && Settles(es[k])
      {
        var k :| j <= k < i && Settles(es[k]);
        assert j <= k < i - 1;
      }
    }
    if Trash(id) !in ss[i].dir && (Settles(es[i - 1]) || SettledSince(ss, es, i - 1, id)) {
      forall j | 0 <= j <= i && Trash(id) in ss[j].dir
        ensures exists k :: j <= k < i && Settles(es[k])
      {
        if Settles(es[i - 1]) {
          assert j <= i - 1 < i;
        } else {
          var k :| j <= k < i - 1 && Settles(es[k]);
        }
      }
    }
  }

  /** A row is removed although nothing was made durable since its trash name was last in use. */
  ghost predicate TooEarly(ss: seq<State>, es: seq<Event>, i: nat)
    requires i < |es| < |ss| <= |es| + 1
  {
    Removes(ss[i], es[i]) && ss[i].row.Some? && !SettledSince(ss, es, i, ss[i].row.value.id)
  }

  lemma CoveredStep(ss: seq<State>, es: seq<Event>, i: nat)
    requires IsRun(ss, es) && i < |es| && Covered(ss[i])
    ensures Covered(ss[i + 1]) <==> !TooEarly(ss, es, i)
  {
    var s, e := ss[i], es[i];
    Reachable(ss, es, i);
    assert Leads(s, e, ss[i + 1]);
    StepTame(s, e);
    TameCovers(s, Apply(s, e));
    RemovesTakesRow(s, e);
    if s.row.Some? { UnsyncedShowsInEvents(ss, es, i, s.row.value.id); }
  }

  /** Exactly when no power loss can ever make an orphan: when every removal of a row comes after an fsync made since
      its trash name was last in use. */
  lemma NoOrphanIffRemovalsFollowFsync(ss: seq<State>, es: seq<Event>)
    requires IsRun(ss, es)
    ensures (forall i :: 0 <= i < |ss| ==> SafeFromPowerLoss(ss[i])) <==>
            (forall i :: 0 <= i < |es| ==> !TooEarly(ss, es, i))
  {
    forall i | 0 <= i < |ss|
      ensures SafeFromPowerLoss(ss[i]) <==> Covered(ss[i])
    {
      CoveredIsSafe(ss[i]);
    }
    if forall i :: 0 <= i < |es| ==> !TooEarly(ss, es, i) {
      forall i | 0 <= i < |ss|
        ensures Covered(ss[i])
      {
        CoveredSoFar(ss, es, i);
      }
    }
    forall i | 0 <= i < |es| && Covered(ss[i]) && Covered(ss[i + 1])
      ensures !TooEarly(ss, es, i)
    {
      CoveredStep(ss, es, i);
    }
  }

  lemma {:induction false} CoveredSoFar(ss: seq<State>, es: seq<Event>, i: nat)
    requires IsRun(ss, es) && i < |ss|
    requires forall j :: 0 <= j < i ==> !TooEarly(ss, es, j)
    ensures Covered(ss[i])
  {
    if i > 0 {
      CoveredSoFar(ss, es, i - 1);
      CoveredStep(ss, es, i - 1);
    }
  }

  /** A request removes its row only if it renamed nothing. */
  lemma RequestRemovalClean(s: State, r: Id, step: RequestStep)
    requires Inv(s) && RequestEnabled(s, r, step) && Removes(s, OfRequest(r, step))
    ensures s.row.Some? && !Unsynced(s, s.row.value.id)
  {
    assert RequestGood(s, r);
  }

  lemma WorkerRemovalClean(s: State, w: nat, step: WorkStep)
    requires Inv(s) && WorkEnabled(s, w, step) && Removes(s, OfWorker(w, step))
    ensures s.row.Some? && s.works[w].at.Completing?
    ensures s.works[w].at.why.Settled? ==> !Unsynced(s, s.row.value.id)
  {
    assert WorkGood(s, s.works[w]);
  }

  lemma ReconcilerRemovalClean(s: State, step: ReconcilerStep)
    requires Inv(s) && ReconcilerEnabled(s, step) && Removes(s, OfReconciler(step))
    ensures s.row.Some? && s.lease.at.Removing?
    ensures s.lease.at.why.Settled? ==> !Unsynced(s, s.row.value.id)
  {
  }

  /** Only three branches can be too early, those that found nothing where the trash entry should be: the reconciler
      that sees no entry, the worker that captures none, and the worker whose move to quarantine finds none. */
  lemma TooEarlyFoundNothing(ss: seq<State>, es: seq<Event>, i: nat)
    requires IsRun(ss, es) && i < |es| && TooEarly(ss, es, i)
    ensures (es[i].OfReconciler? && ss[i].lease.Reconciling? && ss[i].lease.at.Removing? &&
             !ss[i].lease.at.why.Settled?)
         || (es[i].OfWorker? && es[i].w in ss[i].works && ss[i].works[es[i].w].at.Completing?
             && !ss[i].works[es[i].w].at.why.Settled?)
  {
    Reachable(ss, es, i);
    assert Leads(ss[i], es[i], ss[i + 1]);
    UnsyncedShowsInEvents(ss, es, i, ss[i].row.value.id);
    match es[i]
    case OfRequest(r, step) => RequestRemovalClean(ss[i], r, step);
    case OfReconciler(step) => ReconcilerRemovalClean(ss[i], step);
    case OfWorker(w, step) => WorkerRemovalClean(ss[i], w, step);
  }

  lemma ActorsPurgeNoOrphans(s: State, e: Event)
    requires Enabled(s, e) && Acts(e)
    ensures Apply(s, e).orphanPurged == s.orphanPurged
  {
    match e
    case OfRequest(r, step) => assert RequestEffect(s, r, step).orphanPurged == s.orphanPurged;
    case OfReconciler(step) => assert ReconcilerEffect(s, step).orphanPurged == s.orphanPurged;
    case OfWorker(w, step) => assert WorkEffect(s, w, step).orphanPurged == s.orphanPurged;
  }

  lemma {:induction false} NeverOrphanPurged(ss: seq<State>, es: seq<Event>, i: nat)
    requires IsRun(ss, es) && i < |ss|
    requires forall j :: 0 <= j < i ==> !TooEarly(ss, es, j)
    ensures !ss[i].orphanPurged
  {
    if i > 0 {
      var s, e := ss[i - 1], es[i - 1];
      NeverOrphanPurged(ss, es, i - 1);
      CoveredSoFar(ss, es, i - 1);
      Reachable(ss, es, i - 1);
      assert Leads(s, e, ss[i]);
      if ss[i].orphanPurged {
        if !e.OrphanPurge? { ActorsPurgeNoOrphans(s, e); }
        assert false;
      }
    }
  }

  /** Without such a removal maintenance never purges, and the object is gone only after Ready was stored. */
  lemma PurgedOnlyAfterReady(ss: seq<State>, es: seq<Event>, i: nat)
    requires IsRun(ss, es) && i < |ss|
    requires forall j :: 0 <= j < i ==> !TooEarly(ss, es, j)
    ensures forall id :: !Orphan(ss[i], id)
    ensures !ss[i].orphanPurged
    ensures ss[i].dir == map[] ==> ss[i].stored != map[]
  {
    Reachable(ss, es, i);
    CoveredSoFar(ss, es, i);
    NeverOrphanPurged(ss, es, i);
  }

  // ----- Without power loss

  lemma StepTameNow(s: State, e: Event)
    requires Inv(s) && Enabled(s, e) && !e.PowerLoss?
    ensures TameNow(s, Apply(s, e))
  {
    match e
    case OfRequest(r, step) => RequestEffectTameNow(s, r, step);
    case OfReconciler(step) => ReconcilerStepTame(s, step);
    case OfWorker(w, step) => WorkEffectTameNow(s, w, step);
    case _ =>
  }

  /** Killing the process alone never makes an orphan: it takes a power loss. */
  lemma {:induction false} OnlyPowerLossMakesOrphans(ss: seq<State>, es: seq<Event>, i: nat, id: Id)
    requires IsRun(ss, es) && i < |ss|
    requires forall j :: 0 <= j < i ==> !es[j].PowerLoss?
    ensures !Orphan(ss[i], id)
  {
    if i > 0 {
      OnlyPowerLossMakesOrphans(ss, es, i - 1, id);
      Reachable(ss, es, i - 1);
      assert Leads(ss[i - 1], es[i - 1], ss[i]);
      StepTameNow(ss[i - 1], es[i - 1]);
    }
  }

  // ----- A run that loses the object

  const IN_PLACE: Directory := map[Target := 0]
  const IN_TRASH: Directory := map[Trash(0) := 1]
  const IN_QUARANTINE: Directory := map[Quarantine := 1]
  const INTENT: Option<Row> := Some(Row(0, Prepared, None))

  /** One request, numbered 0, whose rename moves the object from `IN_PLACE` to `IN_TRASH`. */
  function Deleting0(request: Request, row: Option<Row>, lease: Lease): (s: State) {
    State(IN_PLACE, {IN_PLACE}, row, map[0 := request], lease, map[], {}, {}, map[], false)
  }

  function Renamed0(dir: Directory, images: set<Directory>, operation: Operation, row: Option<Row>,
                    lease: Lease): (s: State) {
    State(dir, images, row, map[0 := Request(Done, operation)], lease, map[], {0}, {}, map[], false)
  }

  lemma Admitted() returns (ss: seq<State>, es: seq<Event>)
    ensures IsRun(ss, es) && ss[|es|] == Deleting0(Request(Preparing, Reserved), None, Deleting(0))
  {
    var s := State(IN_PLACE, {IN_PLACE}, None, map[], Free, map[], {}, {}, map[], false);
    ss, es := [s], [];
    ss, es := Extend(ss, es, Start(0), Deleting0(Request(Checking, Reserved), None, Deleting(0)));
    ss, es := Extend(ss, es, OfRequest(0, CheckConflict(Clear)),
                     Deleting0(Request(Preparing, Reserved), None, Deleting(0)));
  }

  lemma Intended() returns (ss: seq<State>, es: seq<Event>)
    ensures IsRun(ss, es) && ss[|es|] == Deleting0(Request(Renaming, CommitStarted), INTENT, Deleting(0))
  {
    ss, es := Admitted();
    ss, es := Extend(ss, es, OfRequest(0, Prepare(Inserted)),
                     Deleting0(Request(Marking, Reserved), INTENT, Deleting(0)));
    ss, es := Extend(ss, es, OfRequest(0, MarkCommit(Fine)),
                     Deleting0(Request(Renaming, CommitStarted), INTENT, Deleting(0)));
  }

  /** The rename goes through but its fsync fails: the outcome is unknown. */
  lemma RenameUnsynced() returns (ss: seq<State>, es: seq<Event>)
    ensures IsRun(ss, es) && ss[|es|] == Renamed0(IN_TRASH, {IN_PLACE, IN_TRASH}, Completed(Unknown), INTENT, Free)
  {
    ss, es := Intended();
    var images := {IN_PLACE, IN_TRASH};
    var moved := State(IN_TRASH, images, INTENT, map[0 := Request(Syncing(1), CommitStarted)], Deleting(0), map[],
                       {0}, {}, map[], false);
    assert Move(IN_PLACE, Target, Trash(0), 1) == IN_TRASH;
    ss, es := Extend(ss, es, OfRequest(0, Rename(1)), moved);
    ss, es := Extend(ss, es, OfRequest(0, SyncRename(false)), Renamed0(IN_TRASH, images, CommitStarted, INTENT, Free));
    ss, es := Extend(ss, es, OfRequest(0, Abandon), Renamed0(IN_TRASH, images, Completed(Unknown), INTENT, Free));
  }

  /** The reconciler starts and finds the intent still Prepared. */
  lemma ReconcilerLooks(ss: seq<State>, es: seq<Event>, dir: Directory, images: set<Directory>)
    returns (tt: seq<State>, ff: seq<Event>)
    requires IsRun(ss, es) && ss[|es|] == Renamed0(dir, images, Completed(Unknown), INTENT, Free)
    ensures IsRun(tt, ff)
    ensures tt[|ff|] == Renamed0(dir, images, Completed(Unknown), INTENT,
                                 Reconciling(0, if Trash(0) in dir then Hiding else Removing(TrashMissing)))
  {
    tt, ff := Extend(ss, es, BeginReconcile(0),
                     Renamed0(dir, images, Completed(Unknown), INTENT, Reconciling(0, Loading)));
    tt, ff := Extend(tt, ff, OfReconciler(LoadRow(true)),
                     Renamed0(dir, images, Completed(Unknown), INTENT, Reconciling(0, Inspecting)));
    tt, ff := Extend(tt, ff, OfReconciler(Inspect(true)), Apply(tt[|ff|], OfReconciler(Inspect(true))));
  }

  /** It hides the entry, and its fsync fails too; so the intent stays. */
  lemma HiddenUnsynced() returns (ss: seq<State>, es: seq<Event>)
    ensures IsRun(ss, es)
    ensures ss[|es|] == Renamed0(IN_QUARANTINE, {IN_PLACE, IN_TRASH, IN_QUARANTINE}, Completed(Unknown), INTENT, Free)
  {
    ss, es := RenameUnsynced();
    ss, es := ReconcilerLooks(ss, es, IN_TRASH, {IN_PLACE, IN_TRASH});
    var images := {IN_PLACE, IN_TRASH, IN_QUARANTINE};
    assert Move(IN_TRASH, Trash(0), Quarantine, 1) == IN_QUARANTINE;
    ss, es := Extend(ss, es, OfReconciler(Hide(true, false)),
                     Renamed0(IN_QUARANTINE, images, Completed(Unknown), INTENT, Reconciling(0, SyncingHidden)));
    ss, es := Extend(ss, es, OfReconciler(SyncHidden(false)),
                     Renamed0(IN_QUARANTINE, images, Completed(Unknown), INTENT, Free));
  }

  /** The next reconciliation finds the trash name empty and drops the intent. */
  lemma IntentDropped() returns (ss: seq<State>, es: seq<Event>)
    ensures IsRun(ss, es) && |es| > 0 && Removes(ss[|es| - 1], es[|es| - 1]) && TooEarly(ss, es, |es| - 1)
    ensures ss[|es|] == Renamed0(IN_QUARANTINE, {IN_PLACE, IN_TRASH, IN_QUARANTINE}, Completed(Unknown), None, Free)
  {
    ss, es := HiddenUnsynced();
    var images := {IN_PLACE, IN_TRASH, IN_QUARANTINE};
    ss, es := ReconcilerLooks(ss, es, IN_QUARANTINE, images);
    assert IN_TRASH in ss[|es|].images && Unsynced(ss[|es|], 0);
    ghost var last := ss[|es|];
    ss, es := Extend(ss, es, OfReconciler(RemovePrepared(Fine)),
                     Renamed0(IN_QUARANTINE, images, Completed(Unknown), None, Free));
    assert ss[|es| - 1] == last;
    UnsyncedShowsInEvents(ss, es, |es| - 1, 0);
  }

  /** Once the row is gone, a power loss brings the trash name back and maintenance purges it. */
  lemma PowerLossLeads(images: set<Directory>)
    requires IN_TRASH in images
    ensures Leads(Renamed0(IN_QUARANTINE, images, Completed(Unknown), None, Free), PowerLoss(IN_TRASH),
                  Renamed0(IN_TRASH, {IN_TRASH}, Completed(Unknown), None, Free))
  {
  }

  lemma OrphanPurgeLeads()
    ensures Leads(Renamed0(IN_TRASH, {IN_TRASH}, Completed(Unknown), None, Free), OrphanPurge(0),
                  Renamed0(map[], {IN_TRASH, map[]}, Completed(Unknown), None, Free).(orphanPurged := true))
  {
    assert IN_TRASH - {Trash(0)} == map[];
  }

  /** The object is gone although Ready was never stored and the recorded outcome is "unknown". */
  lemma LostAfterTwoFailedFsyncs() returns (ss: seq<State>, es: seq<Event>)
    ensures IsRun(ss, es) && ss[|es|].dir == map[] && ss[|es|].stored == map[]
    ensures 0 in ss[|es|].requests && ss[|es|].requests[0].operation == Completed(Unknown)
  {
    ss, es := IntentDropped();
    PowerLossLeads({IN_PLACE, IN_TRASH, IN_QUARANTINE});
    ss, es := Extend(ss, es, PowerLoss(IN_TRASH), Renamed0(IN_TRASH, {IN_TRASH}, Completed(Unknown), None, Free));
    OrphanPurgeLeads();
    ss, es := Extend(ss, es, OrphanPurge(0),
                     Renamed0(map[], {IN_TRASH, map[]}, Completed(Unknown), None, Free).(orphanPurged := true));
  }
}
