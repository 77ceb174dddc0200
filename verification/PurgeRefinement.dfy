/**
 The worker's treatment of one job is the delete protocol's: whatever opening a
 claimed job or purging a slice of it comes to is what steps of that job in the
 protocol come to, for every reachable state and all answers.
 */
module PurgeRefinement {
  import opened Wrappers
  import opened DeleteProtocol
  import opened DeleteRuns
  import Worker = PurgeWorker

  // ----- Steps of one job

  predicate CanTake(s: State, w: nat, steps: seq<WorkStep>)
    decreases |steps|
  {
    steps == [] || (WorkEnabled(s, w, steps[0]) && CanTake(WorkNext(s, w, steps[0]), w, steps[1..]))
  }

  function Take(s: State, w: nat, steps: seq<WorkStep>): (n: State)
    requires CanTake(s, w, steps)
    decreases |steps|
  {
    if steps == [] then s else Take(WorkNext(s, w, steps[0]), w, steps[1..])
  }

  // ----- The worker's answers as steps

  function SeenAs(a: Worker.OpenAnswers): (seen: Seen) {
    if !a.resolves then Unresolvable
    else if !a.hasRevision then Suspicious
    else
      match a.capture
      case Captured => Found
      case CapturedOther => Suspicious
      case CaptureMissing => Missing
      case CaptureInvalid => Suspicious
      case CaptureFails => OpenFails
  }

  function QuarantineSteps(there: bool, hides: bool, call: Call): (steps: seq<WorkStep>) {
    if !hides then [HideClaimed(HideFails(false))]
    else if there then [HideClaimed(Hidden), SyncClaimed(true), CompleteRow(call)]
    else [HideClaimed(Absent), CompleteRow(call)]
  }

  function OpenSteps(a: Worker.OpenAnswers, there: bool): (steps: seq<WorkStep>) {
    match SeenAs(a)
    case Found => [Open(Found)]
    case Missing => [Open(Missing), CompleteRow(a.call)]
    case Suspicious => [Open(Suspicious)] + QuarantineSteps(there, a.hides, a.call)
    case OpenFails => [Open(OpenFails), Defer(a.call)]
    case Unresolvable => [Open(Unresolvable)]
  }

  /** A slice that finishes, goes on, meets an entry it must not touch, or fails.  What must not be touched is moved
      away at once, so that the job's own quarantine then finds nothing. */
  function SliceSteps(slice: Worker.Slice, there: bool, revision: nat, hides: bool, call: Call)
    : (steps: seq<WorkStep>)
  {
    match slice
    case SliceDone =>
      (if there then [Isolate, Unlink] else [PurgeMissing]) + [SyncPurged(true), CompleteRow(call)]
    case SlicePending => if there then [PurgeSome(revision)] else []
    case SliceInvalid =>
      [PurgeFails(true, false), HideClaimed(if there then Hidden else Absent), SyncClaimed(true)] +
      QuarantineSteps(false, hides, call)
    case SliceFails => [PurgeFails(false, false), Defer(call)]
  }

  // ----- Agreement

  function StageOf(s: State, id: Id): (stage: Option<Stage>) {
    if HasRow(s, id) then Some(s.row.value.stage) else None
  }

  function JobStage(rows: Worker.Rows, key: Worker.Key): (stage: Option<Stage>) {
    if key in rows then Some(rows[key].stage) else None
  }

  /** The row is in the same stage, and the job is open, over, or kept for a retry, in both views. */
  predicate Agrees(s: State, w: nat, id: Id, rows: Worker.Rows, key: Worker.Key, r: Worker.Opened) {
    && StageOf(s, id) == JobStage(rows, key)
    && match r
       case OpenedWork => w in s.works && s.works[w].at.Purging?
       case Released => w !in s.works
       case Failure => w in s.works && s.works[w].at.Retained?
  }

  predicate OthersStay(before: Worker.Rows, after: Worker.Rows, key: Worker.Key) {
    before - {key} == after - {key}
  }

  // ----- One step, then the rest

  lemma StepFirst(s: State, w: nat, step: WorkStep, rest: seq<WorkStep>)
    requires WorkEnabled(s, w, step) && CanTake(WorkNext(s, w, step), w, rest)
    ensures CanTake(s, w, [step] + rest) && Take(s, w, [step] + rest) == Take(WorkNext(s, w, step), w, rest)
  {
    assert ([step] + rest)[1..] == rest;
  }

  /** The job `w` for this entry has come to `at`; its row is still claimed. */
  predicate Stands(s: State, w: nat, id: Id, at: WorkAt) {
    w in s.works && s.works[w].id == id && s.works[w].at == at && RowIs(s, id, Claimed)
  }

  lemma MovesOn(s: State, w: nat, id: Id, step: WorkStep)
    requires WorkEnabled(s, w, step) && Stands(s, w, id, s.works[w].at) && WorkTo(s, w, step).Some?
    requires !step.CompleteRow? && !step.Defer?
    ensures Stands(WorkNext(s, w, step), w, id, WorkTo(s, w, step).value)
    ensures WorkNext(s, w, step).dir == WorkEffect(s, w, step).dir
  {
  }

  lemma CompleteFollows(s: State, w: nat, id: Id, why: Reason, rows: Worker.Rows, key: Worker.Key, call: Call)
    requires Stands(s, w, id, Completing(why)) && Worker.IsClaimed(rows, key)
    ensures CanTake(s, w, [CompleteRow(call)])
    ensures var n := Take(s, w, [CompleteRow(call)]);
            var (after, r) := Worker.AfterComplete(rows, key, call);
            Agrees(n, w, id, after, key, r) && OthersStay(rows, after, key) && n.dir == s.dir
  {
    StepFirst(s, w, CompleteRow(call), []);
    assert [CompleteRow(call)] + [] == [CompleteRow(call)];
  }

  lemma DeferFollows(s: State, w: nat, id: Id, rows: Worker.Rows, key: Worker.Key, now: nat, call: Call)
    requires Stands(s, w, id, Deferring) && Worker.IsClaimed(rows, key)
    ensures CanTake(s, w, [Defer(call)])
    ensures var n := Take(s, w, [Defer(call)]);
            var (after, r) := Worker.AfterDefer(rows, key, now, call);
            Agrees(n, w, id, after, key, r) && OthersStay(rows, after, key) && n.dir == s.dir
  {
    StepFirst(s, w, Defer(call), []);
    assert [Defer(call)] + [] == [Defer(call)];
  }

  /** The entry is in quarantine: make that durable, then complete the row. */
  lemma CoverFollows(s: State, w: nat, id: Id, rows: Worker.Rows, key: Worker.Key, call: Call)
    requires Stands(s, w, id, Covering(false)) && Worker.IsClaimed(rows, key)
    ensures var steps := [SyncClaimed(true), CompleteRow(call)];
            var (after, r) := Worker.AfterComplete(rows, key, call);
            && CanTake(s, w, steps) && Agrees(Take(s, w, steps), w, id, after, key, r) && OthersStay(rows, after, key)
            && Take(s, w, steps).dir == s.dir
  {
    MovesOn(s, w, id, SyncClaimed(true));
    CompleteFollows(WorkNext(s, w, SyncClaimed(true)), w, id, Settled, rows, key, call);
    StepFirst(s, w, SyncClaimed(true), [CompleteRow(call)]);
    assert [SyncClaimed(true)] + [CompleteRow(call)] == [SyncClaimed(true), CompleteRow(call)];
  }

  lemma QuarantineFollows(s: State, w: nat, id: Id, rows: Worker.Rows, key: Worker.Key, hides: bool, call: Call)
    requires AtMostOne(s.dir) && Stands(s, w, id, Ambiguous(false)) && Worker.IsClaimed(rows, key)
    ensures var steps := QuarantineSteps(Trash(id) in s.dir, hides, call);
            var (after, r) := Worker.AfterQuarantine(rows, key, hides, call);
            && CanTake(s, w, steps) && Agrees(Take(s, w, steps), w, id, after, key, r) && OthersStay(rows, after, key)
            && (hides ==> Trash(id) !in Take(s, w, steps).dir)
  {
    var there := Trash(id) in s.dir;
    var first := HideClaimed(if !hides then HideFails(false) else if there then Hidden else Absent);
    MovesOn(s, w, id, first);
    var s1 := WorkNext(s, w, first);
    if !hides {
      StepFirst(s, w, first, []);
      assert [first] + [] == QuarantineSteps(there, hides, call);
    } else if there {
      CoverFollows(s1, w, id, rows, key, call);
      StepFirst(s, w, first, [SyncClaimed(true), CompleteRow(call)]);
      assert [first] + [SyncClaimed(true), CompleteRow(call)] == QuarantineSteps(there, hides, call);
    } else {
      CompleteFollows(s1, w, id, NothingToHide, rows, key, call);
      StepFirst(s, w, first, [CompleteRow(call)]);
      assert [first] + [CompleteRow(call)] == QuarantineSteps(there, hides, call);
    }
  }

  /** Opening a claimed job.  The first step is what was found at the trash name, so an entry that is not the job's own
      can only end in quarantine, never in a purge. */
  lemma OpenFollowsProtocol(s: State, w: nat, id: Id, rows: Worker.Rows, key: Worker.Key, now: nat,
                            a: Worker.OpenAnswers)
    requires Inv(s) && Stands(s, w, id, Opening) && Worker.IsClaimed(rows, key)
    requires WorkEnabled(s, w, Open(SeenAs(a)))
    ensures var steps := OpenSteps(a, Trash(id) in s.dir);
            var (after, r) := Worker.AfterOpen(rows, key, now, a);
            CanTake(s, w, steps) && Agrees(Take(s, w, steps), w, id, after, key, r) && OthersStay(rows, after, key)
  {
    var first := Open(SeenAs(a));
    MovesOn(s, w, id, first);
    var s1 := WorkNext(s, w, first);
    var rest := OpenSteps(a, Trash(id) in s.dir)[1..];
    assert [first] + rest == OpenSteps(a, Trash(id) in s.dir);
    match SeenAs(a)
    case Found => StepFirst(s, w, first, []);
    case Unresolvable => StepFirst(s, w, first, []);
    case Missing =>
      CompleteFollows(s1, w, id, TrashMissing, rows, key, a.call);
      StepFirst(s, w, first, rest);
    case OpenFails =>
      DeferFollows(s1, w, id, rows, key, now, a.call);
      StepFirst(s, w, first, rest);
    case Suspicious =>
      assert s1.dir == s.dir;
      QuarantineFollows(s1, w, id, rows, key, a.hides, a.call);
      StepFirst(s, w, first, rest);
  }

  lemma PurgedFollows(s: State, w: nat, id: Id, rows: Worker.Rows, key: Worker.Key, call: Call)
    requires Stands(s, w, id, Unlinked) && Worker.IsClaimed(rows, key)
    ensures var steps := [SyncPurged(true), CompleteRow(call)];
            var (after, r) := Worker.AfterComplete(rows, key, call);
            CanTake(s, w, steps) && Agrees(Take(s, w, steps), w, id, after, key, r) && OthersStay(rows, after, key)
  {
    MovesOn(s, w, id, SyncPurged(true));
    CompleteFollows(WorkNext(s, w, SyncPurged(true)), w, id, Settled, rows, key, call);
    StepFirst(s, w, SyncPurged(true), [CompleteRow(call)]);
    assert [SyncPurged(true)] + [CompleteRow(call)] == [SyncPurged(true), CompleteRow(call)];
  }

  lemma DoneFollows(s: State, w: nat, id: Id, rows: Worker.Rows, key: Worker.Key, call: Call)
    requires AtMostOne(s.dir) && Stands(s, w, id, Purging) && Worker.IsClaimed(rows, key)
    ensures var steps := SliceSteps(Worker.SliceDone, Trash(id) in s.dir, 0, true, call);
            var (after, r) := Worker.AfterComplete(rows, key, call);
            CanTake(s, w, steps) && Agrees(Take(s, w, steps), w, id, after, key, r) && OthersStay(rows, after, key)
  {
    var last := [SyncPurged(true), CompleteRow(call)];
    if Trash(id) in s.dir {
      MovesOn(s, w, id, Isolate);
      var s1 := WorkNext(s, w, Isolate);
      MovesOn(s1, w, id, Unlink);
      PurgedFollows(WorkNext(s1, w, Unlink), w, id, rows, key, call);
      StepFirst(s1, w, Unlink, last);
      StepFirst(s, w, Isolate, [Unlink] + last);
      assert [Isolate] + ([Unlink] + last) == [Isolate, Unlink] + last;
    } else {
      MovesOn(s, w, id, PurgeMissing);
      PurgedFollows(WorkNext(s, w, PurgeMissing), w, id, rows, key, call);
      StepFirst(s, w, PurgeMissing, last);
    }
  }

  /** Inside the slice the entry was already moved to quarantine; the job's own quarantine comes next. */
  lemma MovedFollows(s: State, w: nat, id: Id, rows: Worker.Rows, key: Worker.Key, hides: bool, call: Call)
    requires AtMostOne(s.dir) && Stands(s, w, id, Covering(true)) && Worker.IsClaimed(rows, key) && Trash(id) !in s.dir
    ensures var steps := [SyncClaimed(true)] + QuarantineSteps(false, hides, call);
            var (after, r) := Worker.AfterQuarantine(rows, key, hides, call);
            CanTake(s, w, steps) && Agrees(Take(s, w, steps), w, id, after, key, r) && OthersStay(rows, after, key)
  {
    MovesOn(s, w, id, SyncClaimed(true));
    QuarantineFollows(WorkNext(s, w, SyncClaimed(true)), w, id, rows, key, hides, call);
    StepFirst(s, w, SyncClaimed(true), QuarantineSteps(false, hides, call));
  }

  lemma HiddenFollows(s: State, w: nat, id: Id, rows: Worker.Rows, key: Worker.Key, hides: bool, call: Call)
    requires AtMostOne(s.dir) && Stands(s, w, id, Ambiguous(true)) && Worker.IsClaimed(rows, key)
    ensures var steps := [HideClaimed(if Trash(id) in s.dir then Hidden else Absent), SyncClaimed(true)] +
                         QuarantineSteps(false, hides, call);
            var (after, r) := Worker.AfterQuarantine(rows, key, hides, call);
            CanTake(s, w, steps) && Agrees(Take(s, w, steps), w, id, after, key, r) && OthersStay(rows, after, key)
  {
    var away, last := HideClaimed(if Trash(id) in s.dir then Hidden else Absent), QuarantineSteps(false, hides, call);
    MovesOn(s, w, id, away);
    MovedFollows(WorkNext(s, w, away), w, id, rows, key, hides, call);
    StepFirst(s, w, away, [SyncClaimed(true)] + last);
    assert [away] + ([SyncClaimed(true)] + last) == [away, SyncClaimed(true)] + last;
  }

  lemma InvalidFollows(s: State, w: nat, id: Id, rows: Worker.Rows, key: Worker.Key, hides: bool, call: Call)
    requires AtMostOne(s.dir) && Stands(s, w, id, Purging) && Worker.IsClaimed(rows, key)
    ensures var steps := SliceSteps(Worker.SliceInvalid, Trash(id) in s.dir, 0, hides, call);
            var (after, r) := Worker.AfterQuarantine(rows, key, hides, call);
            CanTake(s, w, steps) && Agrees(Take(s, w, steps), w, id, after, key, r) && OthersStay(rows, after, key)
  {
    var away, last := HideClaimed(if Trash(id) in s.dir then Hidden else Absent), QuarantineSteps(false, hides, call);
    MovesOn(s, w, id, PurgeFails(true, false));
    HiddenFollows(WorkNext(s, w, PurgeFails(true, false)), w, id, rows, key, hides, call);
    StepFirst(s, w, PurgeFails(true, false), [away, SyncClaimed(true)] + last);
    assert [PurgeFails(true, false)] + ([away, SyncClaimed(true)] + last) ==
           [PurgeFails(true, false), away, SyncClaimed(true)] + last;
  }

  lemma PendingFollows(s: State, w: nat, id: Id, rows: Worker.Rows, key: Worker.Key, revision: nat)
    requires Stands(s, w, id, Purging) && Worker.IsClaimed(rows, key)
    ensures var steps := if Trash(id) in s.dir then [PurgeSome(revision)] else [];
            CanTake(s, w, steps) && Agrees(Take(s, w, steps), w, id, rows, key, Worker.OpenedWork)
  {
    if Trash(id) in s.dir {
      MovesOn(s, w, id, PurgeSome(revision));
      StepFirst(s, w, PurgeSome(revision), []);
      assert [PurgeSome(revision)] + [] == [PurgeSome(revision)];
    }
  }

  lemma FailureFollows(s: State, w: nat, id: Id, rows: Worker.Rows, key: Worker.Key, now: nat, call: Call)
    requires Stands(s, w, id, Purging) && Worker.IsClaimed(rows, key)
    ensures var steps := [PurgeFails(false, false), Defer(call)];
            var (after, r) := Worker.AfterDefer(rows, key, now, call);
            CanTake(s, w, steps) && Agrees(Take(s, w, steps), w, id, after, key, r) && OthersStay(rows, after, key)
  {
    MovesOn(s, w, id, PurgeFails(false, false));
    DeferFollows(WorkNext(s, w, PurgeFails(false, false)), w, id, rows, key, now, call);
    StepFirst(s, w, PurgeFails(false, false), [Defer(call)]);
    assert [PurgeFails(false, false)] + [Defer(call)] == [PurgeFails(false, false), Defer(call)];
  }

  /** Purging a slice of an open job. */
  lemma SliceFollowsProtocol(s: State, w: nat, id: Id, rows: Worker.Rows, key: Worker.Key, now: nat,
                             slice: Worker.Slice, revision: nat, hides: bool, call: Call)
    requires Inv(s) && Stands(s, w, id, Purging) && Worker.IsClaimed(rows, key)
    ensures var steps := SliceSteps(slice, Trash(id) in s.dir, revision, hides, call);
            var (after, r) := Worker.AfterSlice(rows, key, now, slice, hides, call);
            CanTake(s, w, steps) && Agrees(Take(s, w, steps), w, id, after, key, r) && OthersStay(rows, after, key)
  {
    match slice
    case SliceDone => DoneFollows(s, w, id, rows, key, call);
    case SliceInvalid => InvalidFollows(s, w, id, rows, key, hides, call);
    case SlicePending => PendingFollows(s, w, id, rows, key, revision);
    case SliceFails => FailureFollows(s, w, id, rows, key, now, call);
  }
}
