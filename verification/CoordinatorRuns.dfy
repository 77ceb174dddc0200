/**
 Every interleaving of requests on one coordinator.

 A request is a task that goes around the acquisition loop.  Each event is one
 atomic access to shared state; resolving a path, observing the change counter
 and loading the epoch take no lock.  Releasing a lease is three events, during
 which the lease lock is held; cancelling a waiter is two, with the lock free
 in between.
 */
module CoordinatorRuns {
  import opened Wrappers
  import opened Filesystem
  import opened PathKeys
  import opened PathCoordinator

  /** Keys resolved after the epoch was loaded as `epoch`; `when[i]` records the
      epoch in force at the moment `keys[i]` was resolved. */
  datatype Resolution = Resolution(epoch: nat, keys: seq<LeaseKey>, when: seq<nat>)

  datatype Pc =
    | Allocated                         // has a number, is not queued yet
    | Observing                         // about to mark the current version as seen
    | Loading                           // about to load the epoch
    | Choosing                          // about to reuse or renew its keys
    | Working(partial: Resolution)      // resolving its paths one by one
    | Trying                            // about to try to acquire
    | Sleeping                          // waiting for a version other than `seen`
    | Granted(lease: nat)
    | Cancelled                         // removed from the queue, notification pending
    | Gone

  datatype Task = Task(lexical: seq<Path>, pc: Pc, seen: nat, expected: nat, resolved: Option<Resolution>)

  datatype Release = Removed | EpochBumped

  datatype Grant = Grant(waiter: nat, epoch: nat, resolution: Resolution)

  /** `releasing` tells who holds the lease lock between events; `grants` is the history of leases. */
  datatype Machine = Machine(
    shared: Shared,
    tasks: map<nat, Task>,
    releasing: Option<Release>,
    grants: map<nat, Grant>)

  datatype Event =
    | Allocate(lexical: seq<Path>)
    | Enqueue(id: nat)
    | Observe(id: nat)
    | Load(id: nat)
    | Choose(id: nat)
    | ResolveOne(id: nat, key: ResolvedKey)
    | FinishResolving(id: nat)
    | Try(id: nat)
    | Wake(id: nat)
    | Cancel(id: nat)
    | NotifyCancel(id: nat)
    | ReleaseRemove(lease: nat)
    | ReleaseEpoch
    | ReleaseNotify

  predicate Queued(pc: Pc) {
    pc.Observing? || pc.Loading? || pc.Choosing? || pc.Working? || pc.Trying? || pc.Sleeping?
  }

  function Start(): (m: Machine) {
    Machine(Shared(map[], map[], 1, 1, 0, 0), map[], None, map[])
  }

  /** The keys of a finished resolution, or none. */
  function Previous(t: Task): (r: Option<seq<LeaseKey>>) {
    match t.resolved case None => None case Some(r) => Some(r.keys)
  }

  predicate KeysCurrent(t: Task) {
    t.resolved.Some? && t.resolved.value.epoch == t.expected
  }

  predicate Enabled(root: DirId, m: Machine, e: Event) {
    match e
    case Allocate(lexical) => lexical != []
    case Enqueue(id) => id in m.tasks && m.tasks[id].pc.Allocated?
    case Observe(id) => id in m.tasks && m.tasks[id].pc.Observing?
    case Load(id) => id in m.tasks && m.tasks[id].pc.Loading?
    case Choose(id) => id in m.tasks && m.tasks[id].pc.Choosing?
    case ResolveOne(id, key) =>
      && id in m.tasks && m.tasks[id].pc.Working?
      && |m.tasks[id].pc.partial.keys| < |m.tasks[id].lexical|
      && Rooted(root, key)
    case FinishResolving(id) =>
      && id in m.tasks && m.tasks[id].pc.Working?
      && |m.tasks[id].pc.partial.keys| == |m.tasks[id].lexical|
    case Try(id) => id in m.tasks && m.tasks[id].pc.Trying? && m.tasks[id].resolved.Some? && m.releasing.None?
    case Wake(id) => id in m.tasks && m.tasks[id].pc.Sleeping? && m.tasks[id].seen != m.shared.version
    case Cancel(id) => id in m.tasks && Queued(m.tasks[id].pc)
    case NotifyCancel(id) => id in m.tasks && m.tasks[id].pc.Cancelled?
    case ReleaseRemove(lease) => lease in m.shared.leases && m.releasing.None?
    case ReleaseEpoch => m.releasing == Some(Removed)
    case ReleaseNotify => m.releasing == Some(EpochBumped)
  }

  /** Who acts; a release is nobody's. */
  function Actor(m: Machine, e: Event): (r: Option<nat>) {
    match e
    case Allocate(_) => Some(m.shared.nextWaiter)
    case ReleaseRemove(_) => None
    case ReleaseEpoch => None
    case ReleaseNotify => None
    case _ => Some(e.id)
  }

  function Extended(r: Resolution, lexical: Path, key: ResolvedKey, now: nat): (x: Resolution) {
    Resolution(r.epoch, r.keys + [LeaseKey(lexical, key)], r.when + [now])
  }

  /** Reuse current keys, renew them if it is this waiter's turn, or wait. */
  function Chosen(sh: Shared, id: nat, t: Task): (n: Task) {
    if KeysCurrent(t) then t.(pc := Trying)
    else if Eligible(sh, id, t.lexical, Previous(t)) then t.(pc := Working(Resolution(t.expected, [], [])))
    else t.(pc := Sleeping)
  }

  function Attempted(sh: Shared, id: nat, t: Task): (n: Task)
    requires t.resolved.Some?
  {
    match TryAcquireOutcome(sh, t.resolved.value.keys, t.expected, id)
    case Stale => t.(pc := Observing)
    case Blocked => t.(pc := Sleeping)
    case Acquired(lease) => t.(pc := Granted(lease))
  }

  /** What the event makes of the one that acts. */
  function TaskAfter(root: DirId, m: Machine, e: Event): (n: Task)
    requires Enabled(root, m, e) && Actor(m, e).Some?
  {
    match e
    case Allocate(lexical) => Task(lexical, Allocated, 0, 0, None)
    case Enqueue(id) => m.tasks[id].(pc := Observing)
    case Observe(id) => m.tasks[id].(pc := Loading, seen := m.shared.version)
    case Load(id) => m.tasks[id].(pc := Choosing, expected := m.shared.epoch)
    case Choose(id) => Chosen(m.shared, id, m.tasks[id])
    case ResolveOne(id, key) =>
      var t := m.tasks[id];
      t.(pc := Working(Extended(t.pc.partial, t.lexical[|t.pc.partial.keys|], key, m.shared.epoch)))
    case FinishResolving(id) => m.tasks[id].(pc := Trying, resolved := Some(m.tasks[id].pc.partial))
    case Try(id) => Attempted(m.shared, id, m.tasks[id])
    case Wake(id) => m.tasks[id].(pc := Observing)
    case Cancel(id) => m.tasks[id].(pc := Cancelled)
    case NotifyCancel(id) => m.tasks[id].(pc := Gone)
  }

  /** What the event makes of the shared state. */
  function SharedAfter(root: DirId, m: Machine, e: Event): (sh: Shared)
    requires Enabled(root, m, e)
  {
    match e
    case Allocate(_) => m.shared.(nextWaiter := m.shared.nextWaiter + 1)
    case Enqueue(id) => WithWaiter(m.shared, id, Resolving(m.tasks[id].lexical))
    case Choose(id) =>
      var t := m.tasks[id];
      if KeysCurrent(t) then m.shared else MarkResolvingState(m.shared, id, t.lexical, Previous(t))
    case Try(id) => TryAcquireState(m.shared, m.tasks[id].resolved.value.keys, m.tasks[id].expected, id)
    case Cancel(id) => m.shared.(waiters := m.shared.waiters - {id})
    case NotifyCancel(_) => Notified(m.shared)
    case ReleaseRemove(lease) => m.shared.(leases := m.shared.leases - {lease})
    case ReleaseEpoch => m.shared.(epoch := m.shared.epoch + 1)
    case ReleaseNotify => Notified(m.shared)
    case _ => m.shared
  }

  function ReleasingAfter(m: Machine, e: Event): (r: Option<Release>) {
    match e
    case ReleaseRemove(_) => Some(Removed)
    case ReleaseEpoch => Some(EpochBumped)
    case ReleaseNotify => None
    case _ => m.releasing
  }

  function GrantsAfter(root: DirId, m: Machine, e: Event): (grants: map<nat, Grant>)
    requires Enabled(root, m, e)
  {
    if e.Try? && TaskAfter(root, m, e).pc.Granted? then
      m.grants[TaskAfter(root, m, e).pc.lease := Grant(e.id, m.shared.epoch, m.tasks[e.id].resolved.value)]
    else m.grants
  }

  function Apply(root: DirId, m: Machine, e: Event): (r: Machine)
    requires Enabled(root, m, e)
  {
    Machine(SharedAfter(root, m, e),
            if Actor(m, e).None? then m.tasks else m.tasks[Actor(m, e).value := TaskAfter(root, m, e)],
            ReleasingAfter(m, e),
            GrantsAfter(root, m, e))
  }

  ghost predicate Leads(root: DirId, m: Machine, e: Event, n: Machine) {
    Enabled(root, m, e) && n == Apply(root, m, e)
  }

  /** Each machine follows from the one before by `es`. */
  ghost predicate Steps(root: DirId, ms: seq<Machine>, es: seq<Event>) {
    && |ms| == |es| + 1
    && forall i {:trigger es[i]} :: 0 <= i < |es| ==> Leads(root, ms[i], es[i], ms[i + 1])
  }

  ghost predicate IsRun(root: DirId, ms: seq<Machine>, es: seq<Event>) {
    Steps(root, ms, es) && ms[0] == Start()
  }

  // ----- The invariant

  predicate RootedKeys(root: DirId, keys: seq<LeaseKey>) {
    forall i :: 0 <= i < |keys| ==> Rooted(root, keys[i].resolved)
  }

  /** Rooted keys for a prefix of the paths, each resolved no earlier than its epoch was loaded. */
  ghost predicate GoodResolution(root: DirId, r: Resolution, lexical: seq<Path>, now: nat) {
    && LexicalPaths(r.keys) <= lexical && RootedKeys(root, r.keys)
    && |r.when| == |r.keys| && r.epoch <= now
    && forall i :: 0 <= i < |r.when| ==> r.epoch <= r.when[i] <= now
  }

  ghost predicate GoodTask(root: DirId, sh: Shared, id: nat, t: Task) {
    && id < sh.nextWaiter && t.lexical != []
    && t.seen <= sh.version && t.expected <= sh.epoch
    && (Queued(t.pc) <==> id in sh.waiters)
    && (t.resolved.Some? ==>
          && GoodResolution(root, t.resolved.value, t.lexical, sh.epoch)
          && |t.resolved.value.keys| == |t.lexical|)
    && (t.pc.Working? ==> t.pc.partial.epoch == t.expected && GoodResolution(root, t.pc.partial, t.lexical, sh.epoch))
    && (t.pc.Trying? ==> KeysCurrent(t))
    && (id in sh.waiters ==> GoodWaiter(sh.waiters[id], t))
  }

  /** The queue entry always carries the request's own paths, and its last resolution. */
  ghost predicate GoodWaiter(w: WaiterState, t: Task) {
    && Claims(w) == t.lexical
    && (w.Resolved? ==> t.resolved.Some? && w.keys == t.resolved.value.keys)
    && (t.pc.Working? ==> w.Resolving?)
  }

  ghost predicate GoodLease(root: DirId, m: Machine, l: nat)
    requires l in m.shared.leases
  {
    && l in m.grants
    && m.shared.leases[l] == m.grants[l].resolution.keys
    && m.shared.leases[l] != [] && RootedKeys(root, m.shared.leases[l])
  }

  /** Every key of the grant was resolved in the very epoch in which it was granted. */
  ghost predicate GoodGrant(g: Grant) {
    && |g.resolution.when| == |g.resolution.keys|
    && forall i :: 0 <= i < |g.resolution.when| ==> g.resolution.when[i] == g.epoch
  }

  ghost predicate Exclusive(leases: map<nat, seq<LeaseKey>>) {
    forall a, b :: a in leases && b in leases && a != b ==> !PathsConflict(leases[a], leases[b])
  }

  ghost predicate NotifyPending(m: Machine) {
    m.releasing.Some? || exists id :: id in m.tasks && m.tasks[id].pc.Cancelled?
  }

  ghost predicate EarlierResolving(sh: Shared, id: nat) {
    exists u :: u in sh.waiters && u < id && sh.waiters[u].Resolving?
  }

  /** The reason for which a waiter went to sleep holds now. */
  ghost predicate StillBlocked(sh: Shared, id: nat, t: Task) {
    match Previous(t)
    case None => EarlierLexicalConflict(sh.waiters, t.lexical, id)
    case Some(keys) => IsBlocked(sh, keys, id)
  }

  /** Asleep, and no change has been announced since it looked. */
  ghost predicate Asleep(m: Machine, id: nat) {
    id in m.tasks && m.tasks[id].pc.Sleeping? && m.tasks[id].seen == m.shared.version
  }

  ghost predicate GoodSleep(m: Machine, id: nat) {
    Asleep(m, id) ==> NotifyPending(m) || EarlierResolving(m.shared, id) || StillBlocked(m.shared, id, m.tasks[id])
  }

  ghost predicate TasksInv(root: DirId, m: Machine) {
    && (forall id :: id in m.tasks ==> GoodTask(root, m.shared, id, m.tasks[id]))
    && (forall id :: id in m.shared.waiters ==> id in m.tasks)
  }

  ghost predicate LeasesInv(root: DirId, m: Machine) {
    && (forall l :: l in m.shared.leases ==> GoodLease(root, m, l))
    && (forall l :: l in m.grants ==> l < m.shared.nextLease && GoodGrant(m.grants[l]))
    && Exclusive(m.shared.leases)
  }

  ghost predicate SleepInv(m: Machine) {
    forall id :: id in m.tasks ==> GoodSleep(m, id)
  }

  ghost predicate Inv(root: DirId, m: Machine) {
    TasksInv(root, m) && LeasesInv(root, m) && SleepInv(m)
  }

  // ----- Every event keeps the invariant: tasks

  /** Only the acting task and its queue entry change, and counters only grow. */
  ghost predicate SameFor(m: Machine, n: Machine, id: nat) {
    && (id in m.tasks <==> id in n.tasks) && (id in m.tasks ==> m.tasks[id] == n.tasks[id])
    && (id in m.shared.waiters <==> id in n.shared.waiters)
    && (id in m.shared.waiters ==> m.shared.waiters[id] == n.shared.waiters[id])
  }

  ghost predicate Grown(m: Machine, n: Machine) {
    && m.shared.nextWaiter <= n.shared.nextWaiter && m.shared.epoch <= n.shared.epoch
    && m.shared.version <= n.shared.version
  }

  lemma OthersUntouched(root: DirId, m: Machine, e: Event, id: nat)
    requires Enabled(root, m, e) && Actor(m, e) != Some(id)
    ensures SameFor(m, Apply(root, m, e), id)
  {
  }

  lemma CountersGrow(root: DirId, m: Machine, e: Event)
    requires Enabled(root, m, e)
    ensures Grown(m, Apply(root, m, e))
  {
  }

  lemma GoodTaskKept(root: DirId, m: Machine, n: Machine, id: nat)
    requires id in m.tasks && GoodTask(root, m.shared, id, m.tasks[id])
    requires SameFor(m, n, id) && Grown(m, n)
    ensures GoodTask(root, n.shared, id, n.tasks[id])
  {
  }

  lemma ActorAllocates(root: DirId, m: Machine, lexical: seq<Path>)
    requires TasksInv(root, m) && lexical != []
    ensures var n := Apply(root, m, Allocate(lexical)); var id := m.shared.nextWaiter;
            id in n.tasks && GoodTask(root, n.shared, id, n.tasks[id])
  {
    var id := m.shared.nextWaiter;
    assert id !in m.tasks && id !in m.shared.waiters;
  }

  lemma ActorChooses(root: DirId, m: Machine, id: nat)
    requires TasksInv(root, m) && Enabled(root, m, Choose(id))
    ensures var n := Apply(root, m, Choose(id)); id in n.tasks && GoodTask(root, n.shared, id, n.tasks[id])
  {
    var t := m.tasks[id];
    assert id in m.shared.waiters;
    assert LexicalPaths([]) <= t.lexical;
  }

  lemma ActorResolves(root: DirId, m: Machine, id: nat, key: ResolvedKey)
    requires TasksInv(root, m) && Enabled(root, m, ResolveOne(id, key))
    ensures var n := Apply(root, m, ResolveOne(id, key)); id in n.tasks && GoodTask(root, n.shared, id, n.tasks[id])
  {
    var t := m.tasks[id];
    var p := t.pc.partial;
    var q := Extended(p, t.lexical[|p.keys|], key, m.shared.epoch);
    assert GoodTask(root, m.shared, id, t);
    assert LexicalPaths(q.keys) == LexicalPaths(p.keys) + [t.lexical[|p.keys|]];
    assert LexicalPaths(q.keys) <= t.lexical;
    assert GoodResolution(root, q, t.lexical, m.shared.epoch);
  }

  lemma ActorTries(root: DirId, m: Machine, id: nat)
    requires TasksInv(root, m) && Enabled(root, m, Try(id))
    ensures var n := Apply(root, m, Try(id)); id in n.tasks && GoodTask(root, n.shared, id, n.tasks[id])
  {
    var t := m.tasks[id];
    assert GoodTask(root, m.shared, id, t);
    var keys := t.resolved.value.keys;
    assert |LexicalPaths(keys)| == |t.lexical| && LexicalPaths(keys) == t.lexical;
  }

  lemma ActorFinishes(root: DirId, m: Machine, id: nat)
    requires TasksInv(root, m) && Enabled(root, m, FinishResolving(id))
    ensures var n := Apply(root, m, FinishResolving(id)); id in n.tasks && GoodTask(root, n.shared, id, n.tasks[id])
  {
    assert GoodTask(root, m.shared, id, m.tasks[id]);
  }

  lemma ActorLeaves(root: DirId, m: Machine, id: nat)
    requires TasksInv(root, m) && Enabled(root, m, Cancel(id))
    ensures var n := Apply(root, m, Cancel(id)); id in n.tasks && GoodTask(root, n.shared, id, n.tasks[id])
  {
    assert GoodTask(root, m.shared, id, m.tasks[id]);
  }

  lemma ActorEnters(root: DirId, m: Machine, id: nat)
    requires TasksInv(root, m) && Enabled(root, m, Enqueue(id))
    ensures var n := Apply(root, m, Enqueue(id)); id in n.tasks && GoodTask(root, n.shared, id, n.tasks[id])
  {
    assert GoodTask(root, m.shared, id, m.tasks[id]);
  }

  lemma ActorMoves(root: DirId, m: Machine, e: Event, id: nat)
    requires TasksInv(root, m) && Enabled(root, m, e) && Actor(m, e) == Some(id)
    requires e.Observe? || e.Load? || e.Wake? || e.NotifyCancel?
    ensures var n := Apply(root, m, e); id in n.tasks && GoodTask(root, n.shared, id, n.tasks[id])
  {
    assert GoodTask(root, m.shared, id, m.tasks[id]);
  }

  lemma ActorGood(root: DirId, m: Machine, e: Event, id: nat)
    requires TasksInv(root, m) && Enabled(root, m, e) && Actor(m, e) == Some(id)
    ensures var n := Apply(root, m, e); id in n.tasks && GoodTask(root, n.shared, id, n.tasks[id])
  {
    if e.Observe? || e.Load? || e.Wake? || e.NotifyCancel? {
      ActorMoves(root, m, e, id);
    } else {
      match e
      case Allocate(lexical) => ActorAllocates(root, m, lexical);
      case Choose(_) => ActorChooses(root, m, id);
      case ResolveOne(_, key) => ActorResolves(root, m, id, key);
      case Try(_) => ActorTries(root, m, id);
      case FinishResolving(_) => ActorFinishes(root, m, id);
      case Cancel(_) => ActorLeaves(root, m, id);
      case Enqueue(_) => ActorEnters(root, m, id);
    }
  }

  lemma TasksKept(root: DirId, m: Machine, e: Event)
    requires TasksInv(root, m) && Enabled(root, m, e)
    ensures TasksInv(root, Apply(root, m, e))
  {
    var n := Apply(root, m, e);
    CountersGrow(root, m, e);
    forall id | id in n.tasks
      ensures GoodTask(root, n.shared, id, n.tasks[id])
    {
      if Actor(m, e) == Some(id) {
        ActorGood(root, m, e, id);
      } else {
        OthersUntouched(root, m, e, id);
        GoodTaskKept(root, m, n, id);
      }
    }
    forall id | id in n.shared.waiters
      ensures id in n.tasks
    {
      if Actor(m, e) == Some(id) {
        ActorGood(root, m, e, id);
      } else {
        OthersUntouched(root, m, e, id);
      }
    }
  }

  // ----- Every event keeps the invariant: leases

  lemma GrantIsExclusive(leases: map<nat, seq<LeaseKey>>, added: nat, keys: seq<LeaseKey>)
    requires Exclusive(leases) && !HeldConflict(leases, keys)
    ensures Exclusive(leases[added := keys])
  {
    forall l | l in leases
      ensures !PathsConflict(leases[l], keys) && !PathsConflict(keys, leases[l])
    {
      PathsConflictSymmetric(leases[l], keys);
    }
  }

  /** Holding no lock while resolving is safe: when the attempt finds the loaded epoch still
      in force, it was in force during every single resolution. */
  lemma GrantedInOneEpoch(root: DirId, m: Machine, id: nat)
    requires TasksInv(root, m) && Enabled(root, m, Try(id))
    requires m.tasks[id].expected == m.shared.epoch
    ensures GoodGrant(Grant(id, m.shared.epoch, m.tasks[id].resolved.value))
  {
    assert GoodTask(root, m.shared, id, m.tasks[id]);
  }

  lemma TryKeepsLeases(root: DirId, m: Machine, id: nat)
    requires TasksInv(root, m) && LeasesInv(root, m) && Enabled(root, m, Try(id))
    ensures LeasesInv(root, Apply(root, m, Try(id)))
  {
    var t := m.tasks[id];
    var r := t.resolved.value;
    var n := Apply(root, m, Try(id));
    if TryAcquireOutcome(m.shared, r.keys, t.expected, id).Acquired? {
      var added := m.shared.nextLease;
      assert GoodTask(root, m.shared, id, t);
      GrantIsExclusive(m.shared.leases, added, r.keys);
      GrantedInOneEpoch(root, m, id);
      assert n.grants == m.grants[added := Grant(id, m.shared.epoch, r)];
      assert n.shared.leases == m.shared.leases[added := r.keys];
      forall l | l in n.shared.leases
        ensures GoodLease(root, n, l)
      {
        if l != added { assert GoodLease(root, m, l); }
      }
    }
  }

  lemma LeasesKept(root: DirId, m: Machine, e: Event)
    requires TasksInv(root, m) && LeasesInv(root, m) && Enabled(root, m, e)
    ensures LeasesInv(root, Apply(root, m, e))
  {
    if e.Try? {
      TryKeepsLeases(root, m, e.id);
    } else {
      var n := Apply(root, m, e);
      assert n.grants == m.grants && n.shared.nextLease == m.shared.nextLease;
      forall l | l in n.shared.leases
        ensures l in m.shared.leases && n.shared.leases[l] == m.shared.leases[l] && GoodLease(root, n, l)
      {
        assert GoodLease(root, m, l);
      }
    }
  }

  // ----- Every event keeps the invariant: sleepers

  /** An announced change wakes everyone. */
  lemma AnnouncementWakes(root: DirId, m: Machine, n: Machine)
    requires TasksInv(root, m) && n.shared.version > m.shared.version
    requires forall id :: id in n.tasks && n.tasks[id].pc.Sleeping? ==>
             id in m.tasks && n.tasks[id].seen == m.tasks[id].seen
    ensures SleepInv(n)
  {
    forall id | id in n.tasks && n.tasks[id].pc.Sleeping?
      ensures n.tasks[id].seen < n.shared.version
    {
      assert GoodTask(root, m.shared, id, m.tasks[id]);
    }
  }

  /** Without an announcement, queue entries stay as they are or go back to Resolving. */
  ghost predicate QuietFor(sh: Shared, after: Shared, id: nat) {
    && after.leases == sh.leases
    && forall u :: u in sh.waiters && u < id ==>
       u in after.waiters && (after.waiters[u] == sh.waiters[u] || after.waiters[u].Resolving?)
  }

  lemma ReasonPersists(sh: Shared, after: Shared, id: nat, t: Task)
    requires QuietFor(sh, after, id)
    requires EarlierResolving(sh, id) || StillBlocked(sh, id, t)
    ensures EarlierResolving(after, id) || StillBlocked(after, id, t)
  {
    if !EarlierResolving(after, id) {
      assert forall u :: u in sh.waiters && u < id ==> u in after.waiters && after.waiters[u] == sh.waiters[u];
    }
  }

  /** Events that announce nothing, remove nothing and leave the machine's lease lock alone. */
  predicate Quiet(root: DirId, m: Machine, e: Event)
    requires Enabled(root, m, e)
  {
    && Apply(root, m, e).shared.version == m.shared.version
    && !e.Cancel? && !e.ReleaseRemove? && !e.ReleaseEpoch?
  }

  lemma QuietEvents(root: DirId, m: Machine, e: Event, id: nat)
    requires TasksInv(root, m) && Enabled(root, m, e) && Quiet(root, m, e)
    ensures QuietFor(m.shared, Apply(root, m, e).shared, id)
  {
    var n := Apply(root, m, e);
    forall u | u in m.shared.waiters
      ensures u in n.shared.waiters && (n.shared.waiters[u] == m.shared.waiters[u] || n.shared.waiters[u].Resolving?)
    {
      if Actor(m, e) == Some(u) {
        assert GoodTask(root, m.shared, u, m.tasks[u]);
      } else {
        OthersUntouched(root, m, e, u);
      }
    }
  }

  lemma QuietKeepsPending(root: DirId, m: Machine, e: Event)
    requires TasksInv(root, m) && Enabled(root, m, e) && Quiet(root, m, e) && NotifyPending(m)
    ensures NotifyPending(Apply(root, m, e))
  {
    var n := Apply(root, m, e);
    if m.releasing.None? {
      var c :| c in m.tasks && m.tasks[c].pc.Cancelled?;
      assert GoodTask(root, m.shared, c, m.tasks[c]);
      if Actor(m, e) != Some(c) { OthersUntouched(root, m, e, c); }
      assert c in n.tasks && n.tasks[c].pc.Cancelled?;
    }
  }

  /** Who falls asleep does so for a reason that holds at that very moment. */
  lemma FallsAsleepBlocked(root: DirId, m: Machine, e: Event, id: nat)
    requires TasksInv(root, m) && Enabled(root, m, e) && Actor(m, e) == Some(id)
    requires Apply(root, m, e).shared.version == m.shared.version
    requires Asleep(Apply(root, m, e), id)
    ensures StillBlocked(Apply(root, m, e).shared, id, Apply(root, m, e).tasks[id])
  {
    assert e.Choose? || e.Try?;
    if e.Try? { BlockedTry(m.shared, id, m.tasks[id]); }
  }

  lemma BlockedTry(sh: Shared, id: nat, t: Task)
    requires t.resolved.Some? && Attempted(sh, id, t).pc.Sleeping?
    ensures StillBlocked(TryAcquireState(sh, t.resolved.value.keys, t.expected, id), id, t)
  {
    var keys := t.resolved.value.keys;
    var after := TryAcquireState(sh, keys, t.expected, id);
    if EarlierConflict(sh.waiters, keys, id) {
      var u :| u in sh.waiters && u < id && WaiterConflicts(sh.waiters[u], keys);
      assert u in after.waiters && WaiterConflicts(after.waiters[u], keys);
    }
  }

  lemma QuietSleepers(root: DirId, m: Machine, e: Event, id: nat)
    requires TasksInv(root, m) && SleepInv(m) && Enabled(root, m, e) && Quiet(root, m, e)
    requires id in Apply(root, m, e).tasks
    ensures GoodSleep(Apply(root, m, e), id)
  {
    var n := Apply(root, m, e);
    if Asleep(n, id) {
      if Actor(m, e) == Some(id) {
        FallsAsleepBlocked(root, m, e, id);
      } else {
        OthersUntouched(root, m, e, id);
        QuietEvents(root, m, e, id);
        assert GoodSleep(m, id) && Asleep(m, id);
        if NotifyPending(m) {
          QuietKeepsPending(root, m, e);
        } else {
          ReasonPersists(m.shared, n.shared, id, m.tasks[id]);
        }
      }
    }
  }

  lemma SleepKept(root: DirId, m: Machine, e: Event)
    requires TasksInv(root, m) && SleepInv(m) && Enabled(root, m, e)
    ensures SleepInv(Apply(root, m, e))
  {
    var n := Apply(root, m, e);
    CountersGrow(root, m, e);
    if n.shared.version > m.shared.version {
      forall id | id in n.tasks && n.tasks[id].pc.Sleeping?
        ensures id in m.tasks && n.tasks[id].seen == m.tasks[id].seen
      {
        if Actor(m, e) != Some(id) { OthersUntouched(root, m, e, id); }
      }
      AnnouncementWakes(root, m, n);
    } else if e.Cancel? {
      assert e.id in n.tasks && n.tasks[e.id].pc.Cancelled?;
      assert NotifyPending(n);
    } else if e.ReleaseRemove? || e.ReleaseEpoch? {
      assert NotifyPending(n);
    } else {
      forall id | id in n.tasks
        ensures GoodSleep(n, id)
      {
        QuietSleepers(root, m, e, id);
      }
    }
  }

  // ----- Reachable machines

  lemma {:induction false} Reachable(root: DirId, ms: seq<Machine>, es: seq<Event>, k: nat)
    requires IsRun(root, ms, es) && k < |ms|
    ensures Inv(root, ms[k])
  {
    if k > 0 {
      Reachable(root, ms, es, k - 1);
      TasksKept(root, ms[k - 1], es[k - 1]);
      LeasesKept(root, ms[k - 1], es[k - 1]);
      SleepKept(root, ms[k - 1], es[k - 1]);
    }
  }

  /** At every moment of every run no two held leases conflict, and each holds keys that
      were all resolved in the epoch in which it was granted. */
  lemma LeasesAreExclusive(root: DirId, ms: seq<Machine>, es: seq<Event>, k: nat, a: nat)
    requires IsRun(root, ms, es) && k < |ms| && a in ms[k].shared.leases
    ensures forall b :: b in ms[k].shared.leases && b != a ==>
            !PathsConflict(ms[k].shared.leases[a], ms[k].shared.leases[b])
    ensures a in ms[k].grants && ms[k].shared.leases[a] == ms[k].grants[a].resolution.keys && GoodGrant(ms[k].grants[a])
  {
    Reachable(root, ms, es, k);
    assert GoodLease(root, ms[k], a);
  }

  /** A lease granted on a failed resolution is alone. */
  lemma ConservativeLeaseIsAlone(root: DirId, ms: seq<Machine>, es: seq<Event>, k: nat, a: nat, i: nat)
    requires IsRun(root, ms, es) && k < |ms| && a in ms[k].shared.leases
    requires i < |ms[k].shared.leases[a]| && ms[k].shared.leases[a][i].resolved == ConservativeKey(root)
    ensures ms[k].shared.leases.Keys == {a}
  {
    Reachable(root, ms, es, k);
    var leases: map<nat, seq<LeaseKey>> := ms[k].shared.leases;
    forall b: nat | b in leases
      ensures b == a
    {
      assert GoodLease(root, ms[k], b);
      ConservativeConflictsWithAll(root, leases[b][0].resolved);
      assert KeysConflict(leases[a][i], leases[b][0]);
      assert PathsConflict(leases[a], leases[b]);
    }
  }

  /** No lost wake-up: whoever sleeps on the current version is blocked right now, or an earlier
      waiter is resolving, or an announcement is on its way. */
  lemma NoLostWakeup(root: DirId, ms: seq<Machine>, es: seq<Event>, k: nat, id: nat)
    requires IsRun(root, ms, es) && k < |ms| && Asleep(ms[k], id)
    ensures NotifyPending(ms[k]) || EarlierResolving(ms[k].shared, id) ||
            StillBlocked(ms[k].shared, id, ms[k].tasks[id])
  {
    Reachable(root, ms, es, k);
    assert GoodSleep(ms[k], id);
  }

  // ----- No overtaking

  lemma PathsFixedByStep(root: DirId, m: Machine, e: Event, id: nat)
    requires TasksInv(root, m) && Enabled(root, m, e) && id in m.tasks
    ensures var n := Apply(root, m, e); id in n.tasks && n.tasks[id].lexical == m.tasks[id].lexical
  {
    assert GoodTask(root, m.shared, id, m.tasks[id]);
    if Actor(m, e) != Some(id) { OthersUntouched(root, m, e, id); }
  }

  lemma {:induction false} PathsAreFixed(root: DirId, ms: seq<Machine>, es: seq<Event>, i: nat, j: nat, id: nat)
    requires IsRun(root, ms, es) && i <= j < |ms| && id in ms[i].tasks
    ensures id in ms[j].tasks && ms[j].tasks[id].lexical == ms[i].tasks[id].lexical
    decreases j - i
  {
    if i < j {
      PathsAreFixed(root, ms, es, i, j - 1, id);
      Reachable(root, ms, es, j - 1);
      PathsFixedByStep(root, ms[j - 1], es[j - 1], id);
    }
  }

  /** A grant never passes an earlier queued waiter whose paths overlap. */
  lemma GrantPassesNobody(root: DirId, m: Machine, u: nat, w: nat)
    requires Inv(root, m) && Enabled(root, m, Try(w)) && u < w && u in m.shared.waiters
    requires Apply(root, m, Try(w)).tasks[w].pc.Granted?
    ensures u in m.tasks && !LexicallyConflict(m.tasks[u].lexical, m.tasks[w].lexical)
  {
    var keys := m.tasks[w].resolved.value.keys;
    assert GoodTask(root, m.shared, u, m.tasks[u]) && GoodTask(root, m.shared, w, m.tasks[w]);
    assert LexicalPaths(keys) == m.tasks[w].lexical;
    assert !EarlierConflict(m.shared.waiters, keys, w);
    if LexicallyConflict(Claims(m.shared.waiters[u]), LexicalPaths(keys)) {
      LexicalOverlapBlocks(m.shared.waiters[u], keys);
    }
  }

  lemma StepPassesNobody(root: DirId, m: Machine, e: Event, u: nat, w: nat)
    requires Inv(root, m) && Enabled(root, m, e) && u < w && u in m.shared.waiters
    requires u in m.tasks && w in m.tasks && !m.tasks[w].pc.Granted?
    requires LexicallyConflict(m.tasks[u].lexical, m.tasks[w].lexical)
    ensures var n := Apply(root, m, e); w in n.tasks && !n.tasks[w].pc.Granted?
  {
    assert GoodTask(root, m.shared, w, m.tasks[w]);
    if Actor(m, e) != Some(w) {
      OthersUntouched(root, m, e, w);
    } else if e.Try? && Apply(root, m, e).tasks[w].pc.Granted? {
      GrantPassesNobody(root, m, u, w);
    }
  }

  lemma PassesNobodyAt(root: DirId, ms: seq<Machine>, es: seq<Event>, i: nat, k: nat, u: nat, w: nat)
    requires IsRun(root, ms, es) && i <= k < |es| && u < w && u in ms[k].shared.waiters
    requires u in ms[i].tasks && w in ms[i].tasks && LexicallyConflict(ms[i].tasks[u].lexical, ms[i].tasks[w].lexical)
    requires w in ms[k].tasks && !ms[k].tasks[w].pc.Granted?
    ensures w in ms[k + 1].tasks && !ms[k + 1].tasks[w].pc.Granted?
  {
    PathsAreFixed(root, ms, es, i, k, u);
    PathsAreFixed(root, ms, es, i, k, w);
    Reachable(root, ms, es, k);
    assert Leads(root, ms[k], es[k], ms[k + 1]);
    StepPassesNobody(root, ms[k], es[k], u, w);
  }

  /** While an earlier waiter stays queued, no later request that overlaps it lexically gets a
      lease, however often either of them resolves again. */
  lemma {:induction false} NoOvertaking(root: DirId, ms: seq<Machine>, es: seq<Event>, i: nat, j: nat, u: nat, w: nat)
    requires IsRun(root, ms, es) && i <= j < |ms| && u < w
    requires forall k :: i <= k <= j ==> u in ms[k].shared.waiters
    requires u in ms[i].tasks && w in ms[i].tasks && !ms[i].tasks[w].pc.Granted?
    requires LexicallyConflict(ms[i].tasks[u].lexical, ms[i].tasks[w].lexical)
    ensures w in ms[j].tasks && !ms[j].tasks[w].pc.Granted?
    decreases j - i
  {
    if i < j {
      NoOvertaking(root, ms, es, i, j - 1, u, w);
      PassesNobodyAt(root, ms, es, i, j - 1, u, w);
    }
  }
}
