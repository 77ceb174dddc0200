/**
 The DELETE handler and the reconciliation it falls back on, as the ordered
 sequences of calls they are.  Everything they do is a run of the protocol, so
 what holds of every run holds of them.
 */
module DeleteHandler {
  import opened Wrappers
  import opened DeleteProtocol
  import opened DeleteRuns
  import opened DeleteOrphans

  datatype Moved = Moved | TargetChanged | NotMoved | DurabilityUnknown

  /** What the checked rename meets. */
  datatype MoveAnswers = MoveAnswers(
    gateLost: bool, changed: bool, refused: bool, renameErrs: bool, applied: bool, sourceRead: bool, trashRead: bool,
    revision: nat, verifies: bool, syncs: bool)

  datatype ReconcileAnswers = ReconcileAnswers(loads: bool, inspects: bool, hides: bool, applied: bool, syncs: bool,
                                               remove: Call)

  datatype DeleteAnswers = DeleteAnswers(
    checks: bool, prepare: Reply, mark: Call, move: MoveAnswers, remove: Call, ready: Call, complete: Call,
    reconcile: ReconcileAnswers)

  /** The rename is seen through, verified and made durable. */
  predicate Goes(a: MoveAnswers, there: bool) {
    !a.gateLost && !a.changed && !a.refused && there && !a.renameErrs && a.verifies && a.syncs
  }

  /** It is known that nothing moved: an error came before the rename, or both names were inspected after it. */
  predicate Stays(a: MoveAnswers, there: bool) {
    !a.gateLost && (a.changed || a.refused || !there || (a.renameErrs && !a.applied && a.sourceRead && a.trashRead))
  }

  /** The answers that lead from a stored intent to a recorded success, and to a recorded failure. */
  predicate Commits(a: DeleteAnswers, there: bool) {
    a.mark.Fine? && Goes(a.move, there) && a.ready.Fine? && a.complete.Fine?
  }

  predicate Backs(a: DeleteAnswers, there: bool) {
    a.mark.Fine? && Stays(a.move, there) && a.remove.Fine? && a.complete.Fine?
  }

  /** The entry, if there is one, is moved to quarantine; a call that fails may still have moved it. */
  predicate Hides(a: ReconcileAnswers, there: bool) {
    a.loads && a.inspects && there && (a.hides || a.applied)
  }

  /** The move to quarantine is known to be durable. */
  predicate Seals(a: ReconcileAnswers, there: bool) {
    a.loads && a.inspects && there && a.hides && a.syncs
  }

  /** The intent is taken back: there was nothing at its trash name, or what was there is safely in quarantine. */
  predicate Clears(a: ReconcileAnswers, there: bool) {
    a.loads && a.inspects && (!there || (a.hides && a.syncs)) && Applied(a.remove)
  }

  datatype Response = Succeeded | Rejected | Unavailable | Uncertain

  class Site {
    var state: State
    ghost var ss: seq<State>
    ghost var es: seq<Event>

    /** Everything that ever happened here is a run of the protocol. */
    ghost predicate Valid()
      reads this
    {
      IsRun(ss, es) && ss[|es|] == state
    }

    predicate At(r: Id, at: RequestAt)
      reads this
    {
      r in state.requests && state.requests[r].at == at
    }

    /** The only row there may be is the request's own, and nothing is at its trash name without it. */
    predicate Kept(r: Id)
      reads this
    {
      (state.row.Some? ==> state.row.value.id == r) && !Orphan(state, r)
    }

    method Do(e: Event)
      requires Valid() && Enabled(state, e)
      modifies this
      ensures Valid() && state == Apply(old(state), e) && es == old(es) + [e]
    {
      ghost var n := Apply(state, e);
      ghost var tt, ff := Extend(ss, es, e, n);
      state := Apply(state, e);
      ss, es := tt, ff;
    }

    /** One step of a request. */
    method Step(r: Id, step: RequestStep)
      requires Valid() && RequestEnabled(state, r, step)
      modifies this
      ensures Valid() && state == RequestNext(old(state), r, step) && old(es) <= es
      ensures r in state.requests &&
              state.requests[r] == Request(RequestTo(old(state), r, step), OperationTo(old(state), r, step))
      ensures old(Kept(r)) ==> Kept(r)
    {
      if Kept(r) { OwnStepKeeps(r, step); }
      Do(OfRequest(r, step));
    }

    lemma OwnStepKeeps(r: Id, step: RequestStep)
      requires Valid() && RequestEnabled(state, r, step) && Kept(r)
      ensures var n := RequestNext(state, r, step); (n.row.Some? ==> n.row.value.id == r) && !Orphan(n, r)
    {
      Reachable(ss, es, |es|);
      StepTameNow(state, OfRequest(r, step));
    }

    /** What the protocol knows of a request. */
    lemma Known(r: Id)
      requires Valid() && r in state.requests
      ensures RequestGood(state, r)
    {
      Reachable(ss, es, |es|);
    }

    lemma RenamedDirectory(r: Id, revision: nat)
      requires Valid() && At(r, Renaming) && Target in state.dir
      ensures Move(state.dir, Target, Trash(r), revision) == map[Trash(r) := revision]
    {
      Reachable(ss, es, |es|);
      assert state.dir.Keys == {Target};
    }

    /** Rename, verify, fsync. */
    method RenameAndSync(r: Id, a: MoveAnswers) returns (moved: Moved)
      requires Valid() && At(r, Renaming) && Target in state.dir && Trash(r) !in state.dir
      modifies this
      ensures old(Kept(r)) ==> Kept(r)
      ensures Valid() && old(es) <= es && r in state.requests
      ensures moved.Moved? ==> At(r, Readying(a.revision)) && state.dir == map[Trash(r) := a.revision]
      ensures moved.Moved? ==> state.images == {state.dir}
      ensures !moved.Moved? ==> moved.DurabilityUnknown? && At(r, Done) && state.lease.Free?
      ensures moved.Moved? <==> a.verifies && a.syncs
    {
      RenamedDirectory(r, a.revision);
      Step(r, Rename(a.revision));
      if !a.verifies {
        Step(r, VerifyFails(a.syncs));
        return DurabilityUnknown;
      }
      Step(r, SyncRename(a.syncs));
      moved := if a.syncs then Moved else DurabilityUnknown;
    }

    /** The checked rename.  Only a rename that was seen through, verified and fsynced counts as moved; only an
        untouched directory counts as not moved. */
    method MoveToTrash(r: Id, a: MoveAnswers) returns (moved: Moved)
      requires Valid() && At(r, Renaming)
      modifies this
      ensures old(Kept(r)) ==> Kept(r)
      ensures Valid() && old(es) <= es && r in state.requests
      ensures moved.Moved? ==> At(r, Readying(a.revision)) && state.dir == map[Trash(r) := a.revision]
      ensures moved.Moved? ==> state.images == {state.dir}
      ensures moved.TargetChanged? || moved.NotMoved? ==>
              At(r, Rejecting) && state.dir == old(state.dir) && state.images == old(state.images)
      ensures moved.DurabilityUnknown? ==> At(r, Done) && state.lease.Free?
      ensures moved.Moved? <==> Goes(a, Target in old(state.dir))
      ensures moved.TargetChanged? || moved.NotMoved? <==> Stays(a, Target in old(state.dir))
    {
      NoTrashYet(r);
      if a.gateLost {
        Step(r, LoseGate);
        return DurabilityUnknown;
      }
      if a.changed || a.refused || Target !in state.dir {
        Step(r, Reject);
        return if a.refused then NotMoved else TargetChanged;
      }
      if a.renameErrs {
        Step(r, RenameFails(a.applied, a.revision, a.sourceRead, a.trashRead));
        moved := if state.requests[r].at.Rejecting? then NotMoved else DurabilityUnknown;
        return;
      }
      moved := RenameAndSync(r, a);
    }

    /** A request that is about to rename has no trash entry yet. */
    lemma NoTrashYet(r: Id)
      requires Valid() && At(r, Renaming)
      ensures Trash(r) !in state.dir
    {
      Reachable(ss, es, |es|);
      assert RequestGood(state, r);
    }

    /** Record a failure that is known to be one. */
    method Fail(r: Id, complete: Call) returns (reply: Response)
      requires Valid() && At(r, Failing)
      modifies this
      ensures old(Kept(r)) ==> Kept(r)
      ensures Valid() && old(es) <= es && At(r, Done) && state.lease.Free?
      ensures reply == if complete.Fine? then Rejected else Uncertain
      ensures state.dir == old(state.dir)
      ensures reply.Rejected? ==> state.requests[r].operation == Completed(Failed)
    {
      Known(r);
      Step(r, Complete(complete));
      reply := if complete.Fine? then Rejected else Uncertain;
    }

    /** The rename is durable: store Ready with its revision, then the success. */
    method Succeed(r: Id, ready: Call, complete: Call) returns (reply: Response)
      requires Valid() && r in state.requests && state.requests[r].at.Readying?
      modifies this
      ensures old(Kept(r)) ==> Kept(r)
      ensures Valid() && old(es) <= es && At(r, Done) && state.lease.Free?
      ensures reply == if ready.Fine? && complete.Fine? then Response.Succeeded else Uncertain
      ensures state.dir == old(state.dir) && (reply.Succeeded? ==> RowIs(state, r, Ready))
      ensures reply.Succeeded? ==> state.requests[r].operation == Completed(DeleteProtocol.Succeeded)
    {
      Known(r);
      Step(r, MarkReady(ready));
      if !ready.Fine? { return Uncertain; }
      Step(r, Complete(complete));
      reply := if complete.Fine? then Response.Succeeded else Uncertain;
    }

    /** Nothing was renamed: take the intent back, then record the failure. */
    method TakeBack(r: Id, remove: Call, complete: Call) returns (reply: Response)
      requires Valid() && At(r, Rejecting)
      modifies this
      ensures old(Kept(r)) ==> Kept(r)
      ensures Valid() && old(es) <= es && At(r, Done) && state.lease.Free?
      ensures reply == if remove.Fine? && complete.Fine? then Rejected else Uncertain
      ensures state.dir == old(state.dir)
      ensures reply.Rejected? ==> state.requests[r].operation == Completed(Failed)
    {
      Known(r);
      Step(r, RemoveRejected(remove));
      if !remove.Fine? { return Uncertain; }
      reply := Fail(r, complete);
    }

    /** Mark the commit as started; without that the answer is uncertain. */
    method MarkStarted(r: Id, mark: Call)
      requires Valid() && At(r, Marking)
      modifies this
      ensures old(Kept(r)) ==> Kept(r)
      ensures Valid() && old(es) <= es && (if mark.Fine? then At(r, Renaming) else At(r, Done) && state.lease.Free?)
      ensures state.dir == old(state.dir)
    {
      Known(r);
      Step(r, MarkCommit(mark));
    }

    /** What follows the rename, by how it went. */
    method Conclude(r: Id, moved: Moved, a: DeleteAnswers) returns (reply: Response)
      requires Valid() && r in state.requests
      requires moved.Moved? ==> state.requests[r].at.Readying?
      requires moved.TargetChanged? || moved.NotMoved? ==> At(r, Rejecting)
      requires moved.DurabilityUnknown? ==> At(r, Done) && state.lease.Free?
      modifies this
      ensures old(Kept(r)) ==> Kept(r)
      ensures Valid() && old(es) <= es && At(r, Done) && state.lease.Free? && !reply.Unavailable?
      ensures reply.Succeeded? ==> state.requests[r].operation == Completed(DeleteProtocol.Succeeded)
      ensures reply.Rejected? ==> state.requests[r].operation == Completed(Failed)
      ensures state.dir == old(state.dir) && (reply.Succeeded? ==> RowIs(state, r, Ready))
      ensures reply.Succeeded? <==> moved.Moved? && a.ready.Fine? && a.complete.Fine?
      ensures reply.Rejected? <==> (moved.TargetChanged? || moved.NotMoved?) && a.remove.Fine? && a.complete.Fine?
    {
      match moved
      case DurabilityUnknown => reply := Uncertain;
      case Moved => reply := Succeed(r, a.ready, a.complete);
      case _ => reply := TakeBack(r, a.remove, a.complete);
    }

    /** From the stored intent to the recorded outcome. */
    method Commit(r: Id, a: DeleteAnswers) returns (reply: Response)
      requires Valid() && At(r, Marking)
      modifies this
      ensures old(Kept(r)) ==> Kept(r)
      ensures Valid() && old(es) <= es && At(r, Done) && state.lease.Free? && !reply.Unavailable?
      ensures reply.Succeeded? ==> state.requests[r].operation == Completed(DeleteProtocol.Succeeded)
      ensures reply.Rejected? ==> state.requests[r].operation == Completed(Failed)
      ensures reply.Succeeded? ==> state.dir == map[Trash(r) := a.move.revision] && RowIs(state, r, Ready)
      ensures reply.Rejected? ==> state.dir == old(state.dir)
      ensures reply.Succeeded? <==> Commits(a, Target in old(state.dir))
      ensures reply.Rejected? <==> Backs(a, Target in old(state.dir))
    {
      MarkStarted(r, a.mark);
      if !a.mark.Fine? { return Uncertain; }
      var moved := MoveToTrash(r, a.move);
      reply := Conclude(r, moved, a);
    }

    method ReconcilerDoes(step: ReconcilerStep)
      requires Valid() && ReconcilerEnabled(state, step)
      modifies this
      ensures Valid() && state == ReconcilerNext(old(state), step)
      ensures old(es) <= es && state.requests == old(state.requests)
    {
      Do(OfReconciler(step));
    }

    /** Move the trash entry to quarantine and make that durable; or give the lease up. */
    method HideAndSync(id: Id, a: ReconcileAnswers)
      requires Valid() && state.lease == Reconciling(id, Hiding) && Trash(id) in state.dir
      modifies this
      ensures Valid() && old(es) <= es
      ensures state == old(state).(dir := state.dir, images := state.images, lease := state.lease)
      ensures state.lease == if a.hides && a.syncs then Reconciling(id, Removing(Settled)) else Free
      ensures state.dir == if a.hides || a.applied then map[Quarantine := old(state.dir)[Trash(id)]]
                           else old(state.dir)
      ensures state.images == if a.hides && a.syncs then {state.dir} else old(state.images) + {state.dir}
    {
      OneName();
      assert Move(state.dir, Trash(id), Quarantine, state.dir[Trash(id)]) == map[Quarantine := state.dir[Trash(id)]];
      ReconcilerDoes(Hide(a.hides, a.applied));
      if !a.hides { return; }
      ReconcilerDoes(SyncHidden(a.syncs));
    }

    /** Look whether the intent is still Prepared, and whether there is anything at its trash name. */
    method Look(id: Id, a: ReconcileAnswers)
      requires Valid() && state.lease.Free?
      modifies this
      ensures Valid() && old(es) <= es && state == old(state).(lease := state.lease)
      ensures state.lease == if !a.loads || !RowIs(state, id, Prepared) || !a.inspects then Free
                             else Reconciling(id, if Trash(id) in state.dir then Hiding else Removing(TrashMissing))
    {
      Do(BeginReconcile(id));
      ReconcilerDoes(LoadRow(a.loads));
      if state.lease.Free? { return; }
      ReconcilerDoes(Inspect(a.inspects));
    }

    /** Settle an intent that is still Prepared: whatever is at its trash name goes to quarantine, that is made
        durable, and only then is the intent taken back.  What each failing call leaves shows in the answers; nothing
        else is ever touched. */
    method Reconcile(id: Id, a: ReconcileAnswers)
      requires Valid() && state.lease.Free?
      modifies this
      ensures Valid() && old(es) <= es
      ensures state == old(state).(dir := state.dir, images := state.images, row := state.row)
      ensures !old(RowIs(state, id, Prepared)) ==> state == old(state)
      ensures old(RowIs(state, id, Prepared)) ==>
              var there := Trash(id) in old(state.dir);
              && state.row == (if Clears(a, there) then None else old(state.row))
              && state.dir == (if Hides(a, there) then map[Quarantine := old(state.dir)[Trash(id)]] else old(state.dir))
              && state.images == (if Seals(a, there) then {state.dir} else old(state.images) + {state.dir})
    {
      OneName();
      Look(id, a);
      if !state.lease.Free? { Settle(id, a); }
    }

    /** What follows the look at the trash name. */
    method Settle(id: Id, a: ReconcileAnswers)
      requires Valid() && a.loads && a.inspects
      requires state.lease == Reconciling(id, if Trash(id) in state.dir then Hiding else Removing(TrashMissing))
      modifies this
      ensures Valid() && old(es) <= es
      ensures state == old(state).(dir := state.dir, images := state.images, row := state.row, lease := Free)
      ensures var there := Trash(id) in old(state.dir);
              && state.row == (if Clears(a, there) then None else old(state.row))
              && state.dir == (if Hides(a, there) then map[Quarantine := old(state.dir)[Trash(id)]] else old(state.dir))
              && state.images == (if Seals(a, there) then {state.dir} else old(state.images) + {state.dir})
    {
      OneName();
      if state.lease.at.Hiding? {
        HideAndSync(id, a);
        if state.lease.Free? { return; }
      }
      RemoveIntent(id, a.remove);
    }

    method RemoveIntent(id: Id, remove: Call)
      requires Valid() && state.lease.Reconciling? && state.lease.id == id && state.lease.at.Removing?
      modifies this
      ensures Valid() && old(es) <= es
      ensures state == old(state).(lease := Free, row := if Applied(remove) then None else old(state.row))
    {
      Reachable(ss, es, |es|);
      ReconcilerDoes(RemovePrepared(remove));
    }

    /** The object has one name at most, and the directory as it is may be what is on disk. */
    lemma OneName()
      requires Valid()
      ensures AtMostOne(state.dir) && state.dir in state.images
    {
      Reachable(ss, es, |es|);
    }

    /** Dropping the guard of an operation that was not completed: a reservation is forgotten, a started commit
        unknown. */
    method DropGuard(r: Id)
      requires Valid() && At(r, Done) && state.lease.Free?
      modifies this
      ensures old(Kept(r)) ==> Kept(r)
      ensures Valid() && old(es) <= es && At(r, Done) && state.lease.Free?
      ensures state.requests[r].operation == Abandoned(old(state.requests[r].operation))
      ensures state.dir == old(state.dir) && state.images == old(state.images) && state.row == old(state.row)
    {
      if state.requests[r].operation.Reserved? || state.requests[r].operation.CommitStarted? { Step(r, Abandon); }
    }

    method Begin(r: Id)
      requires Valid() && r !in state.requests && state.lease.Free?
      modifies this
      ensures Valid() && old(es) <= es && At(r, Checking) && state.requests[r].operation.Reserved?
      ensures state.dir == old(state.dir) && state.images == old(state.images) && state.row == old(state.row)
    {
      Do(Start(r));
    }

    lemma NewRequestHasNothing(r: Id)
      requires Valid() && r !in state.requests
      ensures Trash(r) !in state.dir
    {
      Reachable(ss, es, |es|);
    }

    /** Is there anything in the way?  If that cannot be told, nothing has happened and nothing is recorded. */
    method Admit(r: Id, checks: bool) returns (answer: Answer)
      requires Valid() && r !in state.requests && state.lease.Free?
      modifies this
      ensures Valid() && old(es) <= es
      ensures answer == if !checks then CheckFails else if state.row.Some? then Conflicting else Clear
      ensures state.dir == old(state.dir) && state.images == old(state.images) && state.row == old(state.row)
      ensures answer.Clear? ==> At(r, Preparing) && Kept(r)
      ensures answer.Conflicting? ==> At(r, Failing)
      ensures answer.CheckFails? ==> At(r, Done) && state.lease.Free? && state.requests[r].operation == Forgotten
    {
      NewRequestHasNothing(r);
      Begin(r);
      answer := if !checks then CheckFails else if state.row.Some? then Conflicting else Clear;
      Step(r, CheckConflict(answer));
      if answer.CheckFails? { DropGuard(r); }
    }

    /** A DELETE request from its lease to its answer.  Each answer is given exactly when the calls went that way, and
        agrees with the record; a request that could not be checked leaves nothing; an uncertain one leaves no open
        record and reconciles its own intent, which is gone then unless a call fails again. */
    method HandleDelete(r: Id, a: DeleteAnswers) returns (reply: Response)
      requires Valid() && r !in state.requests && state.lease.Free?
      modifies this
      ensures Valid() && old(es) <= es && At(r, Done) && state.lease.Free?
      ensures reply.Succeeded? ==> state.requests[r].operation == Completed(DeleteProtocol.Succeeded)
      ensures reply.Rejected? ==> state.requests[r].operation == Completed(Failed)
      ensures reply.Uncertain? ==> state.requests[r].operation.Completed? || state.requests[r].operation.Forgotten?
      ensures reply.Succeeded? ==> state.dir == map[Trash(r) := a.move.revision] && RowIs(state, r, Ready)
      ensures reply.Rejected? ==> state.dir == old(state.dir)
      ensures reply.Succeeded? <==>
              a.checks && old(state.row).None? && a.prepare.Inserted? && Commits(a, Target in old(state.dir))
      ensures reply.Rejected? <==>
              a.checks && if old(state.row).None? && a.prepare.Inserted? then Backs(a, Target in old(state.dir))
                          else a.complete.Fine?
      ensures reply.Unavailable? <==> !a.checks
      ensures reply.Uncertain? && old(state.row).None? && a.prepare.Inserted? && Clears(a.reconcile, true) ==>
              !RowIs(state, r, Prepared) && !Orphan(state, r)
      ensures reply.Unavailable? ==> state.requests[r].operation.Forgotten?
      ensures reply.Unavailable? ==>
                state.dir == old(state.dir) && state.images == old(state.images) && state.row == old(state.row)
    {
      var answer := Admit(r, a.checks);
      if answer.CheckFails? { return Unavailable; }
      if answer.Conflicting? {
        reply := Fail(r, a.complete);
      } else {
        reply := PrepareAndCommit(r, a);
      }
      if reply.Uncertain? { GiveUp(r, answer.Clear? && a.prepare.Inserted?, a.reconcile); }
    }

    /** The end of an uncertain request. */
    method GiveUp(r: Id, intended: bool, a: ReconcileAnswers)
      requires Valid() && At(r, Done) && state.lease.Free?
      modifies this
      ensures Valid() && old(es) <= es && At(r, Done) && state.lease.Free?
      ensures state.requests[r].operation.Completed? || state.requests[r].operation.Forgotten?
      ensures old(Kept(r)) && intended && Clears(a, true) ==> !RowIs(state, r, Prepared) && !Orphan(state, r)
    {
      DropGuard(r);
      if intended { Reconcile(r, a); }
    }

    /** Store the intent, then commit; without an intent the request fails. */
    method PrepareAndCommit(r: Id, a: DeleteAnswers) returns (reply: Response)
      requires Valid() && At(r, Preparing)
      modifies this
      ensures old(Kept(r)) ==> Kept(r)
      ensures Valid() && old(es) <= es && At(r, Done) && state.lease.Free? && !reply.Unavailable?
      ensures reply.Succeeded? ==> state.requests[r].operation == Completed(DeleteProtocol.Succeeded)
      ensures reply.Rejected? ==> state.requests[r].operation == Completed(Failed)
      ensures reply.Succeeded? ==> state.dir == map[Trash(r) := a.move.revision] && RowIs(state, r, Ready)
      ensures reply.Rejected? ==> state.dir == old(state.dir)
      ensures reply.Succeeded? <==> a.prepare.Inserted? && Commits(a, Target in old(state.dir))
      ensures reply.Rejected? <==>
              if a.prepare.Inserted? then Backs(a, Target in old(state.dir)) else a.complete.Fine?
    {
      Step(r, Prepare(a.prepare));
      if a.prepare.Inserted? {
        reply := Commit(r, a);
      } else {
        reply := Fail(r, a.complete);
      }
    }
  }
}
