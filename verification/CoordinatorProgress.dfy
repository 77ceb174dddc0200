/**
 The coordinator never gets stuck: with no lease held the first waiter can go
 on, alone it gets its lease, and one after the other all of them do.
 */
module CoordinatorProgress {
  import opened Wrappers
  import opened Filesystem
  import opened PathKeys
  import opened PathCoordinator
  import opened CoordinatorRuns

  /** No lease is held and no announcement is on its way. */
  ghost predicate Calm(m: Machine) {
    m.shared.leases == map[] && !NotifyPending(m)
  }

  /** Nobody is before `id`. */
  ghost predicate FirstInLine(m: Machine, id: nat) {
    Calm(m) && id in m.shared.waiters && forall u :: u in m.shared.waiters ==> id <= u
  }

  /** With no lease held, the lowest-numbered waiter can always go on. */
  lemma NoDeadlock(root: DirId, ms: seq<Machine>, es: seq<Event>, k: nat, id: nat)
    requires IsRun(root, ms, es) && k < |ms| && FirstInLine(ms[k], id)
    ensures id in ms[k].tasks && !Asleep(ms[k], id)
    ensures ms[k].tasks[id].pc.Trying? && ms[k].tasks[id].expected == ms[k].shared.epoch ==>
              Enabled(root, ms[k], Try(id)) && Apply(root, ms[k], Try(id)).tasks[id].pc.Granted?
  {
    Reachable(root, ms, es, k);
    assert GoodTask(root, ms[k].shared, id, ms[k].tasks[id]);
  }

  // ----- The first waiter alone

  ghost predicate AllRooted(root: DirId, resolve: Path -> ResolvedKey) {
    forall p :: Rooted(root, resolve(p))
  }

  /** What a waiter does next, if the filesystem answers `resolve`. */
  function OwnEvent(m: Machine, id: nat, resolve: Path -> ResolvedKey): (e: Event)
    requires id in m.tasks && Queued(m.tasks[id].pc)
  {
    var t := m.tasks[id];
    match t.pc
    case Observing => Observe(id)
    case Loading => Load(id)
    case Choosing => Choose(id)
    case Working(p) =>
      if |p.keys| < |t.lexical| then ResolveOne(id, resolve(t.lexical[|p.keys|])) else FinishResolving(id)
    case Trying => Try(id)
    case _ => Wake(id)
  }

  /** How many of its own steps the first waiter still needs. */
  function Distance(m: Machine, id: nat): (r: int)
    requires id in m.tasks
  {
    var t := m.tasks[id];
    var n := |t.lexical|;
    var late := if t.expected == m.shared.epoch then 0 else n + 6;
    match t.pc
    case Trying => 1 + late
    case Working(p) => 2 + late + n - |p.keys|
    case Choosing => 3 + late + n
    case Loading => 4 + n
    case Observing => 5 + n
    case Sleeping => 6 + n
    case _ => 0
  }

  /** The waiter has its lease, the only one, or it is closer to it and nothing is held or pending. */
  ghost predicate Closer(m: Machine, n: Machine, id: nat) {
    && id in m.tasks && id in n.tasks && n.releasing.None?
    && if n.tasks[id].pc.Granted? then n.shared.leases.Keys == {n.tasks[id].pc.lease}
       else Queued(n.tasks[id].pc) && n.shared.leases == map[] && 0 <= Distance(n, id) < Distance(m, id)
  }

  lemma OwnStepLooks(root: DirId, m: Machine, id: nat, resolve: Path -> ResolvedKey)
    requires Inv(root, m) && FirstInLine(m, id) && id in m.tasks
    requires m.tasks[id].pc.Observing? || m.tasks[id].pc.Loading? || m.tasks[id].pc.Sleeping?
    ensures Enabled(root, m, OwnEvent(m, id, resolve)) && Closer(m, Apply(root, m, OwnEvent(m, id, resolve)), id)
  {
  }

  lemma OwnStepChooses(root: DirId, m: Machine, id: nat, resolve: Path -> ResolvedKey)
    requires Inv(root, m) && FirstInLine(m, id) && id in m.tasks && m.tasks[id].pc.Choosing?
    ensures Enabled(root, m, OwnEvent(m, id, resolve)) && Closer(m, Apply(root, m, OwnEvent(m, id, resolve)), id)
  {
    assert !EarlierLexicalConflict(m.shared.waiters, m.tasks[id].lexical, id);
  }

  lemma OwnStepResolves(root: DirId, m: Machine, id: nat, resolve: Path -> ResolvedKey)
    requires Inv(root, m) && FirstInLine(m, id) && id in m.tasks && m.tasks[id].pc.Working? && AllRooted(root, resolve)
    ensures Enabled(root, m, OwnEvent(m, id, resolve)) && Closer(m, Apply(root, m, OwnEvent(m, id, resolve)), id)
  {
    assert GoodTask(root, m.shared, id, m.tasks[id]);
    assert |LexicalPaths(m.tasks[id].pc.partial.keys)| <= |m.tasks[id].lexical|;
  }

  lemma OwnStepTries(root: DirId, m: Machine, id: nat, resolve: Path -> ResolvedKey)
    requires Inv(root, m) && FirstInLine(m, id) && id in m.tasks && m.tasks[id].pc.Trying?
    ensures Enabled(root, m, OwnEvent(m, id, resolve)) && Closer(m, Apply(root, m, OwnEvent(m, id, resolve)), id)
  {
    assert GoodTask(root, m.shared, id, m.tasks[id]);
  }

  lemma OwnStep(root: DirId, m: Machine, id: nat, resolve: Path -> ResolvedKey)
    requires Inv(root, m) && FirstInLine(m, id) && AllRooted(root, resolve)
    ensures id in m.tasks && Queued(m.tasks[id].pc) && Actor(m, OwnEvent(m, id, resolve)) == Some(id)
    ensures Enabled(root, m, OwnEvent(m, id, resolve)) && Closer(m, Apply(root, m, OwnEvent(m, id, resolve)), id)
  {
    assert GoodTask(root, m.shared, id, m.tasks[id]);
    match m.tasks[id].pc
    case Choosing => OwnStepChooses(root, m, id, resolve);
    case Working(_) => OwnStepResolves(root, m, id, resolve);
    case Trying => OwnStepTries(root, m, id, resolve);
    case _ => OwnStepLooks(root, m, id, resolve);
  }

  /** Nobody else is touched. */
  ghost predicate OthersSame(m: Machine, n: Machine, id: nat) {
    forall u :: u != id ==> SameFor(m, n, u)
  }

  lemma StaysFirst(m: Machine, n: Machine, id: nat)
    requires FirstInLine(m, id) && OthersSame(m, n, id)
    requires n.releasing.None? && n.shared.leases == map[]
    requires id in n.tasks && Queued(n.tasks[id].pc) && id in n.shared.waiters
    ensures FirstInLine(n, id)
  {
    forall u | u in n.shared.waiters
      ensures id <= u
    {
      if u != id { assert SameFor(m, n, u); }
    }
    forall c | c in n.tasks
      ensures !n.tasks[c].pc.Cancelled?
    {
      if c != id { assert SameFor(m, n, c); }
    }
  }

  lemma InvKept(root: DirId, m: Machine, e: Event)
    requires Inv(root, m) && Enabled(root, m, e)
    ensures Inv(root, Apply(root, m, e))
  {
    TasksKept(root, m, e);
    LeasesKept(root, m, e);
    SleepKept(root, m, e);
  }

  lemma OwnStepKeeps(root: DirId, m: Machine, id: nat, e: Event)
    requires Inv(root, m) && FirstInLine(m, id) && Enabled(root, m, e) && Actor(m, e) == Some(id)
    requires Closer(m, Apply(root, m, e), id)
    ensures var n := Apply(root, m, e);
            Inv(root, n) && OthersSame(m, n, id) && (n.tasks[id].pc.Granted? || FirstInLine(n, id))
  {
    var n := Apply(root, m, e);
    InvKept(root, m, e);
    forall u | u != id
      ensures SameFor(m, n, u)
    {
      OthersUntouched(root, m, e, u);
    }
    if !n.tasks[id].pc.Granted? {
      assert GoodTask(root, n.shared, id, n.tasks[id]);
      StaysFirst(m, n, id);
    }
  }

  // ----- Schedules

  /** Steps from `m` in which nobody comes and nobody gives up. */
  ghost predicate Schedule(root: DirId, m: Machine, ms: seq<Machine>, es: seq<Event>) {
    && Steps(root, ms, es) && ms[0] == m
    && forall i :: 0 <= i < |es| ==> !es[i].Allocate? && !es[i].Enqueue? && !es[i].Cancel?
  }

  lemma ScheduleAppended(root: DirId, m: Machine, ms: seq<Machine>, es: seq<Event>, ns: seq<Machine>, fs: seq<Event>)
    requires Schedule(root, m, ms, es) && Schedule(root, ms[|es|], ns, fs)
    ensures Schedule(root, m, ms + ns[1..], es + fs) && (ms + ns[1..])[|es + fs|] == ns[|fs|]
  {
    var tt, ff := ms + ns[1..], es + fs;
    forall i | 0 <= i < |ff|
      ensures Leads(root, tt[i], ff[i], tt[i + 1]) && !ff[i].Allocate? && !ff[i].Enqueue? && !ff[i].Cancel?
    {
      if i < |es| {
        assert ff[i] == es[i] && tt[i] == ms[i] && tt[i + 1] == ms[i + 1];
      } else {
        var k := i - |es|;
        assert ff[i] == fs[k] && tt[i] == ns[k] && tt[i + 1] == ns[k + 1];
      }
    }
  }

  lemma OneStep(root: DirId, m: Machine, e: Event) returns (ms: seq<Machine>, es: seq<Event>)
    requires Enabled(root, m, e) && !e.Allocate? && !e.Enqueue? && !e.Cancel?
    ensures Schedule(root, m, ms, es) && es == [e] && ms == [m, Apply(root, m, e)]
  {
    ms, es := [m, Apply(root, m, e)], [e];
  }

  /** The waiter was served: it holds the only lease, and nobody else is touched. */
  ghost predicate Served(root: DirId, m: Machine, n: Machine, id: nat) {
    && Inv(root, n) && OthersSame(m, n, id) && n.releasing.None?
    && id in n.tasks && n.tasks[id].pc.Granted? && n.shared.leases.Keys == {n.tasks[id].pc.lease}
  }

  lemma OthersSameTrans(l: Machine, m: Machine, n: Machine, id: nat)
    requires OthersSame(l, m, id) && OthersSame(m, n, id)
    ensures OthersSame(l, n, id)
  {
    forall u | u != id
      ensures SameFor(l, n, u)
    {
      assert SameFor(l, m, u) && SameFor(m, n, u);
    }
  }

  /** Running the first waiter alone grants it a lease, the only one, whatever keys the filesystem returns, within a
      number of steps that depends only on the number of its paths; nobody else is touched. */
  lemma {:induction false} FirstIsServed(root: DirId, m: Machine, id: nat, resolve: Path -> ResolvedKey)
    returns (ms: seq<Machine>, es: seq<Event>)
    requires Inv(root, m) && FirstInLine(m, id) && AllRooted(root, resolve)
    ensures Schedule(root, m, ms, es) && Served(root, m, ms[|es|], id)
    ensures id in m.tasks && |es| <= Distance(m, id) <= 2 * |m.tasks[id].lexical| + 9
    decreases Distance(m, id)
  {
    OwnStep(root, m, id, resolve);
    var e := OwnEvent(m, id, resolve);
    var n := Apply(root, m, e);
    OwnStepKeeps(root, m, id, e);
    DistanceBound(root, m, id);
    ms, es := OneStep(root, m, e);
    if !n.tasks[id].pc.Granted? {
      var ns, fs := FirstIsServed(root, n, id, resolve);
      ScheduleAppended(root, m, ms, es, ns, fs);
      OthersSameTrans(m, n, ns[|fs|], id);
      ms, es := ms + ns[1..], es + fs;
    }
  }

  lemma DistanceBound(root: DirId, m: Machine, id: nat)
    requires Inv(root, m) && id in m.tasks && Queued(m.tasks[id].pc)
    ensures 0 < Distance(m, id) <= 2 * |m.tasks[id].lexical| + 9
  {
    assert GoodTask(root, m.shared, id, m.tasks[id]);
    if m.tasks[id].pc.Working? { assert |LexicalPaths(m.tasks[id].pc.partial.keys)| <= |m.tasks[id].lexical|; }
  }

  // ----- The whole queue

  /** Dropping the only lease leaves the machine calm, and the queue as it was. */
  lemma ReleasedIsCalm(root: DirId, m: Machine, lease: nat) returns (ms: seq<Machine>, es: seq<Event>)
    requires Inv(root, m) && m.releasing.None? && m.shared.leases.Keys == {lease}
    requires forall c :: c in m.tasks ==> !m.tasks[c].pc.Cancelled?
    ensures Schedule(root, m, ms, es)
    ensures Inv(root, ms[|es|]) && Calm(ms[|es|]) && ms[|es|].shared.waiters == m.shared.waiters
  {
    var m1 := Apply(root, m, ReleaseRemove(lease));
    var m2 := Apply(root, m1, ReleaseEpoch);
    var m3 := Apply(root, m2, ReleaseNotify);
    InvKept(root, m, ReleaseRemove(lease));
    InvKept(root, m1, ReleaseEpoch);
    InvKept(root, m2, ReleaseNotify);
    ms, es := [m, m1, m2, m3], [ReleaseRemove(lease), ReleaseEpoch, ReleaseNotify];
    assert m3.shared.leases == map[];
  }

  lemma FirstExists(waiters: map<nat, WaiterState>) returns (id: nat)
    requires waiters != map[]
    ensures id in waiters && forall u :: u in waiters ==> id <= u
    decreases |waiters|
  {
    var k :| k in waiters;
    id := k;
    if u :| u in waiters && u < k {
      var rest := waiters - {k};
      assert u in rest && forall v :: v in waiters ==> v == k || v in rest;
      id := FirstExists(rest);
    }
  }

  lemma ServedLeavesQueue(root: DirId, m: Machine, n: Machine, id: nat)
    requires Inv(root, m) && FirstInLine(m, id) && Served(root, m, n, id)
    ensures n.shared.waiters == m.shared.waiters - {id}
    ensures forall c :: c in n.tasks ==> !n.tasks[c].pc.Cancelled?
  {
    assert GoodTask(root, n.shared, id, n.tasks[id]);
    var left := m.shared.waiters - {id};
    forall u
      ensures u in n.shared.waiters <==> u in left
      ensures u in left ==> n.shared.waiters[u] == left[u]
    {
      if u != id { assert SameFor(m, n, u); }
    }
    forall c | c in n.tasks
      ensures !n.tasks[c].pc.Cancelled?
    {
      if c != id { assert SameFor(m, n, c); }
    }
  }

  /** From any calm state, nobody new and nobody giving up, the whole queue can drain: every waiter is granted its
      lease in turn and drops it. */
  lemma {:induction false} QueueDrains(root: DirId, m: Machine, resolve: Path -> ResolvedKey)
    returns (ms: seq<Machine>, es: seq<Event>)
    requires Inv(root, m) && Calm(m) && AllRooted(root, resolve)
    ensures Schedule(root, m, ms, es)
    ensures Calm(ms[|es|]) && ms[|es|].shared.waiters == map[]
    decreases |m.shared.waiters|
  {
    if m.shared.waiters == map[] {
      ms, es := [m], [];
    } else {
      var id := FirstExists(m.shared.waiters);
      ms, es := FirstIsServed(root, m, id, resolve);
      var served := ms[|es|];
      ServedLeavesQueue(root, m, served, id);
      var ns, fs := ReleasedIsCalm(root, served, served.tasks[id].pc.lease);
      var calm := ns[|fs|];
      var os, gs := QueueDrains(root, calm, resolve);
      ScheduleAppended(root, served, ns, fs, os, gs);
      ScheduleAppended(root, m, ms, es, ns + os[1..], fs + gs);
      ms, es := ms + (ns + os[1..])[1..], es + (fs + gs);
    }
  }
}
