/**
 Recovery converges.

 While no call fails and no new request comes, whatever state the requests, the
 reconciler and the purge worker are in, their steps run out: the lease is
 given back, every claimed job is finished and the purge row is gone.
 */
module DeleteRecovery {
  import opened Wrappers
  import opened DeleteProtocol
  import opened DeleteRuns
  import opened DeleteOrphans

  // ----- Steps without a fault

  predicate RequestGoesWell(s: State, step: RequestStep) {
    match step
    case CheckConflict(answer) => answer == if s.row.None? then Clear else Conflicting
    case Prepare(reply) => reply.Inserted?
    case MarkCommit(call) => call.Fine?
    case Reject => Target !in s.dir
    case Rename(_) => true
    case SyncRename(ok) => ok
    case RemoveRejected(call) => call.Fine?
    case MarkReady(call) => call.Fine?
    case Complete(call) => call.Fine?
    case _ => false
  }

  predicate ReconcilerGoesWell(step: ReconcilerStep) {
    match step
    case LoadRow(ok) => ok
    case Inspect(ok) => ok
    case Hide(ok, _) => ok
    case SyncHidden(ok) => ok
    case RemovePrepared(call) => call.Fine?
  }

  /** An entry is suspicious only if it is not the one that was stored. */
  predicate WorkGoesWell(s: State, w: nat, step: WorkStep)
    requires w in s.works
  {
    var id := s.works[w].id;
    match step
    case Reload(ok) => ok
    case Open(seen) =>
      || seen.Found? || seen.Missing?
      || (seen.Suspicious? && Trash(id) in s.dir && s.works[w].revision != Some(s.dir[Trash(id)]))
    case PurgeFails(_, _) => false
    case IsolatedFails => false
    case SyncPurged(ok) => ok
    case HideClaimed(result) => !result.HideFails?
    case SyncClaimed(ok) => ok
    case CompleteRow(call) => call.Fine?
    case Defer(call) => call.Fine?
    case _ => true
  }

  /** A step of recovery: nothing fails, nobody new comes, and the reconciler is started for an intent that is there. */
  predicate GoesWell(s: State, e: Event)
    requires Enabled(s, e)
  {
    match e
    case OfRequest(_, step) => RequestGoesWell(s, step)
    case BeginReconcile(id) => RowIs(s, id, Prepared)
    case OfReconciler(step) => ReconcilerGoesWell(step)
    case Claim(_) => true
    case OfWorker(w, step) => WorkGoesWell(s, w, step)
    case _ => false
  }

  /** Purging a part of a large entry; how often that is needed depends on what is in it. */
  predicate IsSlice(e: Event) {
    e.OfWorker? && e.work.PurgeSome?
  }

  function Cost(e: Event): (n: nat) {
    if IsSlice(e) then 0 else 1
  }

  // ----- How much is left to do

  function RequestLeft(at: RequestAt): (n: nat) {
    match at
    case Checking => 27
    case Preparing => 26
    case Marking => 5
    case Renaming => 4
    case Syncing(_) => 3
    case Readying(_) => 2
    case Rejecting => 2
    case Failing => 1
    case Succeeding => 1
    case Done => 0
  }

  function ReconcilerLeft(s: State, id: Id, at: ReconcilerAt): (n: nat) {
    match at
    case Loading => if RowIs(s, id, Prepared) then 5 else 7
    case Inspecting => 4
    case Hiding => 3
    case SyncingHidden => 2
    case Removing(_) => 1
  }

  function WorkLeft(at: WorkAt): (n: nat) {
    match at
    case Opening => 5
    case Purging => 4
    case Isolated => 3
    case Unlinked => 2
    case Ambiguous(inSlice) => if inSlice then 5 else 3
    case Covering(inSlice) => if inSlice then 4 else 2
    case Completing(_) => 1
    case Deferring => 12
    case Retained => 6
  }

  function LeaseLeft(s: State): (n: nat) {
    match s.lease
    case Free => 6
    case Deleting(r) => 7 + if r in s.requests then RequestLeft(s.requests[r].at) else 0
    case Reconciling(id, at) => ReconcilerLeft(s, id, at)
  }

  function RowLeft(row: Option<Row>): (n: nat) {
    if row.None? || row.value.stage.Claimed? then 0 else if row.value.stage.Ready? then 10 else 20
  }

  ghost function WorksLeft(works: map<nat, Work>): (n: nat)
    decreases |works|
  {
    if works == map[] then 0
    else
      var w :| w in works;
      WorkLeft(works[w].at) + WorksLeft(works - {w})
  }

  /** It does not matter which job is counted first. */
  lemma {:induction false} WorksLeftWithout(works: map<nat, Work>, w: nat)
    requires w in works
    ensures WorksLeft(works) == WorkLeft(works[w].at) + WorksLeft(works - {w})
    decreases |works|
  {
    var v :| v in works && WorksLeft(works) == WorkLeft(works[v].at) + WorksLeft(works - {v});
    if v != w {
      WorksLeftWithout(works - {v}, w);
      WorksLeftWithout(works - {w}, v);
      assert works - {v} - {w} == works - {w} - {v};
    }
  }

  lemma WorksLeftPut(works: map<nat, Work>, w: nat, work: Work)
    ensures WorksLeft(works[w := work]) == WorkLeft(work.at) + WorksLeft(works - {w})
  {
    WorksLeftWithout(works[w := work], w);
    assert works[w := work] - {w} == works - {w};
  }

  lemma {:induction false} WorksLeftBound(works: map<nat, Work>)
    ensures WorksLeft(works) <= 12 * |works|
    decreases |works|
  {
    if works != map[] {
      var w :| w in works;
      WorksLeftWithout(works, w);
      WorksLeftBound(works - {w});
    }
  }

  ghost function Left(s: State): (n: nat) {
    RowLeft(s.row) + LeaseLeft(s) + WorksLeft(s.works)
  }

  lemma LeftBound(s: State)
    ensures Left(s) <= 12 * |s.works| + 60
  {
    WorksLeftBound(s.works);
  }

  // ----- Every such step leaves less to do

  /** What one job leaves to do in the row and for itself. */
  lemma WorkStepCloser(s: State, w: nat, step: WorkStep)
    requires WorkEnabled(s, w, step) && WorkGoesWell(s, w, step)
    ensures var at := WorkTo(s, w, step);
            RowLeft(WorkEffect(s, w, step).row) + (if at.None? then 0 else WorkLeft(at.value)) +
            (if step.PurgeSome? then 0 else 1) <= RowLeft(s.row) + WorkLeft(s.works[w].at)
  {
  }

  /** The reconciler does not notice the worker. */
  lemma WorkLeavesLease(s: State, w: nat, step: WorkStep)
    requires WorkEnabled(s, w, step)
    ensures LeaseLeft(WorkNext(s, w, step)) == LeaseLeft(s)
  {
    var n := WorkEffect(s, w, step);
    assert n.lease == s.lease && n.requests == s.requests;
    assert n.row == s.row || (s.row.value.stage.Claimed? && (n.row.None? || n.row.value.stage.Ready?));
  }

  lemma WorkCloser(s: State, w: nat, step: WorkStep)
    requires WorkEnabled(s, w, step) && WorkGoesWell(s, w, step)
    ensures Left(WorkNext(s, w, step)) + (if step.PurgeSome? then 0 else 1) <= Left(s)
  {
    WorkStepCloser(s, w, step);
    WorkLeavesLease(s, w, step);
    var n, at := WorkNext(s, w, step), WorkTo(s, w, step);
    assert WorkEffect(s, w, step).works == s.works;
    WorksLeftWithout(s.works, w);
    if at.Some? { WorksLeftPut(s.works, w, Work(s.works[w].id, WorkRevision(s, w, step), at.value)); }
  }

  /** What a request leaves to do in the row and for itself. */
  lemma RequestStepCloser(s: State, r: Id, step: RequestStep)
    requires RequestEnabled(s, r, step) && RequestGood(s, r) && RequestGoesWell(s, step)
    ensures s.lease == Deleting(r)
    ensures RowLeft(RequestEffect(s, r, step).row) + RequestLeft(RequestTo(s, r, step)) <
            RowLeft(s.row) + RequestLeft(s.requests[r].at)
  {
  }

  lemma RequestLeavesWorks(s: State, r: Id, step: RequestStep)
    requires RequestEnabled(s, r, step)
    ensures RequestEffect(s, r, step).works == s.works && RequestEffect(s, r, step).requests == s.requests
  {
  }

  lemma RequestCloser(s: State, r: Id, step: RequestStep)
    requires RequestEnabled(s, r, step) && RequestGood(s, r) && RequestGoesWell(s, step)
    ensures Left(RequestNext(s, r, step)) < Left(s)
  {
    RequestStepCloser(s, r, step);
    RequestLeavesWorks(s, r, step);
    var n := RequestNext(s, r, step);
    assert LeaseLeft(n) <= 7 + RequestLeft(RequestTo(s, r, step));
  }

  lemma ReconcilerCloser(s: State, step: ReconcilerStep)
    requires Inv(s) && ReconcilerEnabled(s, step) && ReconcilerGoesWell(step)
    ensures Left(ReconcilerNext(s, step)) < Left(s)
  {
  }

  lemma ClaimCloser(s: State, w: nat)
    requires Enabled(s, Claim(w))
    ensures Left(Apply(s, Claim(w))) < Left(s)
  {
    WorksLeftPut(s.works, w, Work(s.row.value.id, s.row.value.revision, Opening));
    assert s.works - {w} == s.works;
  }

  /** Every step of recovery leaves less to do; only purging a part of an entry leaves as much. */
  lemma StepCloser(s: State, e: Event)
    requires Inv(s) && Enabled(s, e) && GoesWell(s, e)
    ensures Left(Apply(s, e)) + Cost(e) <= Left(s)
  {
    match e
    case OfRequest(r, step) =>
      assert RequestGood(s, r);
      RequestCloser(s, r, step);
    case OfReconciler(step) => ReconcilerCloser(s, step);
    case Claim(w) => ClaimCloser(s, w);
    case OfWorker(w, step) => WorkCloser(s, w, step);
    case BeginReconcile(_) =>
  }

  // ----- As long as anything is left, somebody can take a step

  /** A job is in somebody's hands while its row is claimed. */
  predicate ClaimHeld(s: State) {
    s.row.Some? && s.row.value.stage.Claimed? ==> exists w :: w in s.works && s.works[w].id == s.row.value.id
  }

  /** What the reconciler is about to hide is still there. */
  predicate HideSeen(s: State) {
    s.lease.Reconciling? && s.lease.at.Hiding? ==> Trash(s.lease.id) in s.dir
  }

  lemma WorkKeepsClaim(s: State, w: nat, step: WorkStep)
    requires ClaimHeld(s) && WorkEnabled(s, w, step)
    ensures ClaimHeld(WorkNext(s, w, step))
  {
    var n := WorkNext(s, w, step);
    if n.row.Some? && n.row.value.stage.Claimed? {
      assert n.row == s.row;
      var v :| v in s.works && s.works[v].id == s.row.value.id;
      assert v in n.works && n.works[v].id == n.row.value.id;
    }
  }

  lemma RequestKeepsClaim(s: State, r: Id, step: RequestStep)
    requires ClaimHeld(s) && RequestEnabled(s, r, step)
    ensures ClaimHeld(RequestNext(s, r, step))
  {
    RequestLeavesWorks(s, r, step);
    var row := RequestEffect(s, r, step).row;
    assert row == s.row || row.None? || !row.value.stage.Claimed?;
  }

  lemma StepKeepsClaim(s: State, e: Event)
    requires ClaimHeld(s) && Enabled(s, e)
    ensures ClaimHeld(Apply(s, e))
  {
    match e
    case OfWorker(w, step) => WorkKeepsClaim(s, w, step);
    case Claim(w) => assert w in Apply(s, e).works;
    case OfRequest(r, step) => RequestKeepsClaim(s, r, step);
    case _ =>
  }

  lemma RequestKeepsHidden(s: State, r: Id, step: RequestStep)
    requires Inv(s) && RequestEnabled(s, r, step) && HideSeen(s)
    ensures HideSeen(RequestNext(s, r, step))
  {
    assert RequestGood(s, r);
    if s.requests[r].at.Done? { assert RequestEffect(s, r, step) == s; }
  }

  /** The worker touches stored entries only, the reconciler one that is not. */
  lemma WorkKeepsHidden(s: State, w: nat, step: WorkStep)
    requires Inv(s) && WorkEnabled(s, w, step) && HideSeen(s)
    ensures HideSeen(WorkNext(s, w, step))
  {
    assert WorkGood(s, s.works[w]);
    var id := s.works[w].id;
    var d := WorkEffect(s, w, step).dir;
    assert forall j :: j != id && Trash(j) in s.dir ==> Trash(j) in d;
    assert WorkNext(s, w, step).lease == s.lease;
  }

  lemma StepKeepsHidden(s: State, e: Event)
    requires Inv(s) && HideSeen(s) && Enabled(s, e)
    ensures HideSeen(Apply(s, e))
  {
    match e
    case OfWorker(w, step) => WorkKeepsHidden(s, w, step);
    case OfRequest(r, step) => RequestKeepsHidden(s, r, step);
    case _ =>
  }

  lemma {:induction false} ClaimsAreHeld(ss: seq<State>, es: seq<Event>, i: nat)
    requires IsRun(ss, es) && i < |ss|
    ensures ClaimHeld(ss[i]) && HideSeen(ss[i])
  {
    if i > 0 {
      ClaimsAreHeld(ss, es, i - 1);
      Reachable(ss, es, i - 1);
      assert Leads(ss[i - 1], es[i - 1], ss[i]);
      StepKeepsClaim(ss[i - 1], es[i - 1]);
      StepKeepsHidden(ss[i - 1], es[i - 1]);
    }
  }

  predicate Settled(s: State) {
    s.row.None? && s.lease.Free? && s.works == map[]
  }

  function NextForWork(s: State, w: nat): (step: WorkStep)
    requires w in s.works
  {
    var id := s.works[w].id;
    match s.works[w].at
    case Opening =>
      if Trash(id) !in s.dir then Open(Missing)
      else if s.works[w].revision == Some(s.dir[Trash(id)]) then Open(Found) else Open(Suspicious)
    case Purging => if Trash(id) in s.dir then Isolate else PurgeMissing
    case Isolated => Unlink
    case Unlinked => SyncPurged(true)
    case Ambiguous(_) => HideClaimed(if Trash(id) in s.dir then Hidden else Absent)
    case Covering(_) => SyncClaimed(true)
    case Completing(_) => CompleteRow(Fine)
    case Deferring => Defer(Fine)
    case Retained => Reload(true)
  }

  lemma WorkCanStep(s: State, w: nat)
    requires Inv(s) && w in s.works
    ensures var e := OfWorker(w, NextForWork(s, w)); Enabled(s, e) && GoesWell(s, e) && !IsSlice(e)
  {
    assert AtMostOne(s.dir);
  }

  function NextForRequest(s: State, at: RequestAt): (step: RequestStep)
    requires !at.Done?
  {
    match at
    case Checking => CheckConflict(if s.row.None? then Clear else Conflicting)
    case Preparing => Prepare(Inserted)
    case Marking => MarkCommit(Fine)
    case Renaming => if Target in s.dir then Rename(s.dir[Target]) else Reject
    case Syncing(_) => SyncRename(true)
    case Readying(_) => MarkReady(Fine)
    case Rejecting => RemoveRejected(Fine)
    case Failing => Complete(Fine)
    case Succeeding => Complete(Fine)
  }

  lemma RequestCanStep(s: State)
    requires Inv(s) && s.lease.Deleting?
    ensures s.lease.r in s.requests && !s.requests[s.lease.r].at.Done?
    ensures var e := OfRequest(s.lease.r, NextForRequest(s, s.requests[s.lease.r].at)); Enabled(s, e) && GoesWell(s, e)
  {
    assert RequestGood(s, s.lease.r);
  }

  function NextForReconciler(at: ReconcilerAt): (step: ReconcilerStep) {
    match at
    case Loading => LoadRow(true)
    case Inspecting => Inspect(true)
    case Hiding => Hide(true, true)
    case SyncingHidden => SyncHidden(true)
    case Removing(_) => RemovePrepared(Fine)
  }

  lemma ReconcilerCanStep(s: State)
    requires Inv(s) && HideSeen(s) && s.lease.Reconciling?
    ensures var e := OfReconciler(NextForReconciler(s.lease.at)); Enabled(s, e) && GoesWell(s, e)
  {
    assert AtMostOne(s.dir);
  }

  /** Recovery is stuck only where nothing is left. */
  lemma SomebodyCanStep(s: State) returns (e: Event)
    requires Inv(s) && ClaimHeld(s) && HideSeen(s) && !Settled(s)
    ensures Enabled(s, e) && GoesWell(s, e) && !IsSlice(e)
  {
    if s.works != map[] {
      var w :| w in s.works;
      WorkCanStep(s, w);
      e := OfWorker(w, NextForWork(s, w));
    } else if s.lease.Deleting? {
      RequestCanStep(s);
      e := OfRequest(s.lease.r, NextForRequest(s, s.requests[s.lease.r].at));
    } else if s.lease.Reconciling? {
      ReconcilerCanStep(s);
      e := OfReconciler(NextForReconciler(s.lease.at));
    } else {
      e := if s.row.value.stage.Ready? then Claim(0) else BeginReconcile(s.row.value.id);
    }
  }

  // ----- Runs that go well from some point on

  ghost predicate WellFrom(ss: seq<State>, es: seq<Event>, i: nat) {
    && IsRun(ss, es) && i <= |es|
    && forall k {:trigger es[k]} :: i <= k < |es| ==> Enabled(ss[k], es[k]) && GoesWell(ss[k], es[k])
  }

  /** Steps from `i` on, slices of a purge aside. */
  function StepsFrom(es: seq<Event>, i: nat): (n: nat)
    requires i <= |es|
    decreases |es| - i
  {
    if i == |es| then 0 else Cost(es[i]) + StepsFrom(es, i + 1)
  }

  lemma WellStep(ss: seq<State>, es: seq<Event>, i: nat, k: nat)
    requires WellFrom(ss, es, i) && i <= k < |es|
    ensures Left(ss[k + 1]) + Cost(es[k]) <= Left(ss[k])
  {
    Reachable(ss, es, k);
    assert Leads(ss[k], es[k], ss[k + 1]);
    StepCloser(ss[k], es[k]);
  }

  lemma LeftFalls(ss: seq<State>, es: seq<Event>, i: nat) returns (left: seq<nat>)
    requires WellFrom(ss, es, i)
    ensures |left| == |ss| && left[i] == Left(ss[i])
    ensures forall k {:trigger es[k]} :: i <= k < |es| ==> left[k + 1] + Cost(es[k]) <= left[k]
  {
    left := seq(|ss|, k requires 0 <= k < |ss| => Left(ss[k]));
    forall k | i <= k < |es|
      ensures left[k + 1] + Cost(es[k]) <= left[k]
    {
      WellStep(ss, es, i, k);
    }
  }

  lemma {:induction false} FallingRunsOut(left: seq<nat>, es: seq<Event>, i: nat)
    requires i <= |es| < |left|
    requires forall k {:trigger es[k]} :: i <= k < |es| ==> left[k + 1] + Cost(es[k]) <= left[k]
    ensures StepsFrom(es, i) + left[|es|] <= left[i]
    decreases |es| - i
  {
    if i < |es| { FallingRunsOut(left, es, i + 1); }
  }

  /** However the steps of recovery are interleaved, they run out: there are at most sixty, and twelve more for each
      claimed job. */
  lemma StepsRunOut(ss: seq<State>, es: seq<Event>, i: nat)
    requires WellFrom(ss, es, i)
    ensures StepsFrom(es, i) <= 12 * |ss[i].works| + 60
  {
    var left := LeftFalls(ss, es, i);
    FallingRunsOut(left, es, i);
    LeftBound(ss[i]);
  }

  lemma OneMore(ss: seq<State>, es: seq<Event>, i: nat, e: Event) returns (tt: seq<State>, ff: seq<Event>)
    requires WellFrom(ss, es, i) && Enabled(ss[|es|], e) && GoesWell(ss[|es|], e)
    ensures WellFrom(tt, ff, i) && ss <= tt && es <= ff && ff == es + [e] && tt[|ff|] == Apply(ss[|es|], e)
  {
    tt, ff := Extend(ss, es, e, Apply(ss[|es|], e));
    forall k | i <= k < |ff|
      ensures Enabled(tt[k], ff[k]) && GoesWell(tt[k], ff[k])
    {
      if k < |es| { assert ff[k] == es[k] && tt[k] == ss[k]; }
    }
  }

  lemma {:induction false} Finish(ss: seq<State>, es: seq<Event>, i: nat)
    returns (tt: seq<State>, ff: seq<Event>)
    requires WellFrom(ss, es, i)
    ensures WellFrom(tt, ff, i) && ss <= tt && es <= ff && Settled(tt[|ff|])
    ensures |ff| - |es| <= Left(ss[|es|])
    decreases Left(ss[|es|])
  {
    tt, ff := ss, es;
    if !Settled(ss[|es|]) {
      Reachable(ss, es, |es|);
      ClaimsAreHeld(ss, es, |es|);
      var e := SomebodyCanStep(ss[|es|]);
      StepCloser(ss[|es|], e);
      tt, ff := OneMore(ss, es, i, e);
      tt, ff := Finish(tt, ff, i);
    }
  }

  /** Every run, whatever went wrong in it, can be brought to an end without a further fault, in a number of steps that
      depends only on the number of claimed jobs. */
  lemma RecoveryConverges(ss: seq<State>, es: seq<Event>) returns (tt: seq<State>, ff: seq<Event>)
    requires IsRun(ss, es)
    ensures WellFrom(tt, ff, |es|) && ss <= tt && es <= ff && Settled(tt[|ff|])
    ensures |ff| <= |es| + 12 * |ss[|es|].works| + 60
  {
    tt, ff := Finish(ss, es, |es|);
    LeftBound(ss[|es|]);
  }

  ghost predicate CanGoOn(s: State) {
    exists e :: Enabled(s, e) && GoesWell(s, e) && !IsSlice(e)
  }

  /** And every way to go on without a fault ends there: the steps run out, and they stop nowhere else. */
  lemma StopsOnlySettled(ss: seq<State>, es: seq<Event>)
    requires IsRun(ss, es) && !CanGoOn(ss[|es|])
    ensures Settled(ss[|es|])
  {
    if !Settled(ss[|es|]) {
      assert CanGoOn(ss[|es|]) by {
        Reachable(ss, es, |es|);
        ClaimsAreHeld(ss, es, |es|);
        var e := SomebodyCanStep(ss[|es|]);
      }
    }
  }

  // ----- Where the object is then

  lemma WellKeepsTarget(s: State, e: Event)
    requires Inv(s) && Enabled(s, e) && GoesWell(s, e) && Target in s.dir && !s.lease.Deleting?
    ensures Apply(s, e).dir == s.dir && !Apply(s, e).lease.Deleting?
  {
    forall r | r in s.requests
      ensures s.requests[r].at.Done?
    {
      assert RequestGood(s, r);
    }
    assert AtMostOne(s.dir);
  }

  lemma {:induction false} TargetStays(ss: seq<State>, es: seq<Event>, i: nat)
    requires WellFrom(ss, es, i) && Target in ss[i].dir && !ss[i].lease.Deleting?
    ensures ss[|es|].dir == ss[i].dir
    decreases |es| - i
  {
    if i < |es| {
      Reachable(ss, es, i);
      assert Leads(ss[i], es[i], ss[i + 1]);
      WellKeepsTarget(ss[i], es[i]);
      TargetStays(ss, es, i + 1);
    }
  }

  lemma {:induction false} NoNewOrphan(ss: seq<State>, es: seq<Event>, i: nat, id: Id)
    requires WellFrom(ss, es, i) && Orphan(ss[|es|], id)
    ensures Orphan(ss[i], id)
    decreases |es| - i
  {
    if i < |es| {
      NoNewOrphan(ss, es, i + 1, id);
      Reachable(ss, es, i);
      assert Leads(ss[i], es[i], ss[i + 1]);
      StepTameNow(ss[i], es[i]);
    }
  }

  /** Once everything is settled, all requests are done and nothing is left at a trash name but an orphan that was there
      before; the object is at the target, in quarantine or gone, and at the target if it was there and nobody was
      deleting it. */
  lemma SettledObject(ss: seq<State>, es: seq<Event>, i: nat)
    requires WellFrom(ss, es, i) && Settled(ss[|es|])
    ensures forall r :: r in ss[|es|].requests ==> ss[|es|].requests[r].at.Done?
    ensures forall id :: Trash(id) in ss[|es|].dir ==> Orphan(ss[i], id)
    ensures Target in ss[i].dir && !ss[i].lease.Deleting? ==> ss[|es|].dir == ss[i].dir
    ensures ss[|es|].dir == map[] ==> ss[|es|].stored != map[] || ss[|es|].orphanPurged
  {
    var n := ss[|es|];
    Reachable(ss, es, |es|);
    forall r | r in n.requests
      ensures n.requests[r].at.Done?
    {
      assert RequestGood(n, r);
    }
    forall id | Trash(id) in n.dir
      ensures Orphan(ss[i], id)
    {
      NoNewOrphan(ss, es, i, id);
    }
    if Target in ss[i].dir && !ss[i].lease.Deleting? { TargetStays(ss, es, i); }
  }
}
