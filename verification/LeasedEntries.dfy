/**
 What exclusive leases are for: while the tree stays as it is, two leases that
 are held at the same time never name the same entry, nor one inside the other,
 by whatever paths and links they were asked for.
 */
module LeasedEntries {
  import opened Wrappers
  import opened Filesystem
  import opened PathKeys
  import opened PathCoordinator
  import opened CoordinatorRuns

  /** Every key is what the tree says of its path; a path that cannot be resolved has the root's key. */
  ghost predicate FromTree(fs: Fs, keys: seq<LeaseKey>)
    requires WellFormed(fs)
  {
    forall i :: 0 <= i < |keys| ==> keys[i] == FailClosed(fs, keys[i].lexical)
  }

  /** Resolving a path asks the tree. */
  ghost predicate AsksTree(fs: Fs, m: Machine, e: Event)
    requires WellFormed(fs) && Enabled(fs.root, m, e)
  {
    e.ResolveOne? ==> var t := m.tasks[e.id]; e.key == FailClosed(fs, t.lexical[|t.pc.partial.keys|]).resolved
  }

  /** A run on a tree that stays as it is. */
  ghost predicate TreeRun(fs: Fs, ms: seq<Machine>, es: seq<Event>) {
    && WellFormed(fs) && IsRun(fs.root, ms, es)
    && forall i {:trigger es[i]} :: 0 <= i < |es| ==>
       Leads(fs.root, ms[i], es[i], ms[i + 1]) && AsksTree(fs, ms[i], es[i])
  }

  ghost predicate TaskFromTree(fs: Fs, t: Task)
    requires WellFormed(fs)
  {
    && (t.resolved.Some? ==> FromTree(fs, t.resolved.value.keys))
    && (t.pc.Working? ==> FromTree(fs, t.pc.partial.keys))
  }

  ghost predicate AllFromTree(fs: Fs, m: Machine)
    requires WellFormed(fs)
  {
    && (forall id :: id in m.tasks ==> TaskFromTree(fs, m.tasks[id]))
    && (forall l :: l in m.shared.leases ==> FromTree(fs, m.shared.leases[l]))
  }

  lemma ActorFromTree(fs: Fs, m: Machine, e: Event)
    requires WellFormed(fs) && Enabled(fs.root, m, e) && AsksTree(fs, m, e) && AllFromTree(fs, m) && Actor(m, e).Some?
    ensures TaskFromTree(fs, TaskAfter(fs.root, m, e))
  {
    if !e.Allocate? {
      var t := m.tasks[e.id];
      assert TaskFromTree(fs, t);
    }
  }

  lemma LeasesFromTree(fs: Fs, m: Machine, e: Event, l: nat)
    requires WellFormed(fs) && Enabled(fs.root, m, e) && AllFromTree(fs, m) && l in SharedAfter(fs.root, m, e).leases
    ensures FromTree(fs, SharedAfter(fs.root, m, e).leases[l])
  {
    if e.Try? { assert TaskFromTree(fs, m.tasks[e.id]); }
  }

  lemma {:induction false} KeysAreFromTree(fs: Fs, ms: seq<Machine>, es: seq<Event>, k: nat)
    requires TreeRun(fs, ms, es) && k < |ms|
    ensures AllFromTree(fs, ms[k])
  {
    if k > 0 {
      var m, e, n := ms[k - 1], es[k - 1], ms[k];
      KeysAreFromTree(fs, ms, es, k - 1);
      assert Leads(fs.root, m, e, n) && AsksTree(fs, m, e);
      StepFromTree(fs, m, e);
    }
  }

  lemma StepFromTree(fs: Fs, m: Machine, e: Event)
    requires WellFormed(fs) && Enabled(fs.root, m, e) && AsksTree(fs, m, e) && AllFromTree(fs, m)
    ensures AllFromTree(fs, Apply(fs.root, m, e))
  {
    var n := Apply(fs.root, m, e);
    forall id | id in n.tasks
      ensures TaskFromTree(fs, n.tasks[id])
    {
      if Actor(m, e) == Some(id) {
        ActorFromTree(fs, m, e);
      } else {
        assert n.tasks[id] == m.tasks[id];
      }
    }
    forall l | l in n.shared.leases
      ensures FromTree(fs, n.shared.leases[l])
    {
      LeasesFromTree(fs, m, e, l);
    }
  }

  lemma ApartKeys(fs: Fs, p: Path, q: Path)
    requires WellFormed(fs) && !KeysConflict(FailClosed(fs, p), FailClosed(fs, q))
    ensures ResolveKey(fs, p).Ok? && ResolveKey(fs, q).Ok?
    ensures var l, r := ResolveKey(fs, p).value, ResolveKey(fs, q).value;
            && l.parent in fs.entries && r.parent in fs.entries
            && !LexicalOverlap(PhysicalPath(fs, l), PhysicalPath(fs, r))
  {
    ResolvedIsRooted(fs, p);
    ResolvedIsRooted(fs, q);
    ConservativeConflictsWithAll(fs.root, FailClosed(fs, p).resolved);
    ConservativeConflictsWithAll(fs.root, FailClosed(fs, q).resolved);
    ConflictIsOverlap(fs, p, q);
  }

  /** On a tree that stays as it is, two leases held at the same time name entries whose physical paths are neither
      equal nor one inside the other; and if there are two, every path of theirs could be resolved. */
  lemma HeldEntriesAreApart(fs: Fs, ms: seq<Machine>, es: seq<Event>, k: nat, a: nat, b: nat, i: nat, j: nat)
    requires TreeRun(fs, ms, es) && k < |ms|
    requires a in ms[k].shared.leases && b in ms[k].shared.leases && a != b
    requires i < |ms[k].shared.leases[a]| && j < |ms[k].shared.leases[b]|
    ensures var p, q := ms[k].shared.leases[a][i].lexical, ms[k].shared.leases[b][j].lexical;
            && ResolveKey(fs, p).Ok? && ResolveKey(fs, q).Ok?
            && var l, r := ResolveKey(fs, p).value, ResolveKey(fs, q).value;
            && l.parent in fs.entries && r.parent in fs.entries
            && !LexicalOverlap(PhysicalPath(fs, l), PhysicalPath(fs, r))
  {
    var x, y := ms[k].shared.leases[a], ms[k].shared.leases[b];
    assert x[i] == FailClosed(fs, x[i].lexical) && y[j] == FailClosed(fs, y[j].lexical) by {
      KeysAreFromTree(fs, ms, es, k);
      assert FromTree(fs, x) && FromTree(fs, y);
    }
    assert !KeysConflict(x[i], y[j]) by {
      LeasesAreExclusive(fs.root, ms, es, k, a);
      assert !PathsConflict(x, y);
    }
    ApartKeys(fs, x[i].lexical, y[j].lexical);
  }

  // ----- Who is granted a lease, and who has to wait

  /** Some path of the one list and some path of the other overlap, or only their names are compared. */
  predicate Collide(fs: Fs, left: seq<Path>, right: seq<Path>, byName: bool)
    requires WellFormed(fs)
  {
    exists i, j :: 0 <= i < |left| && 0 <= j < |right| &&
                   if byName then left[i] <= right[j] || right[j] <= left[i] else Overlap(fs, left[i], right[j])
  }

  /** A held lease names something that overlaps one of the paths. */
  ghost predicate LeaseInTheWay(fs: Fs, m: Machine, paths: seq<Path>)
    requires WellFormed(fs)
  {
    exists l :: l in m.shared.leases && Collide(fs, LexicalPaths(m.shared.leases[l]), paths, false)
  }

  /** A waiter that came earlier is queued for something that overlaps one of the paths.  Names are all there is to
      compare with a waiter that is still resolving, or if `byName` says so. */
  ghost predicate WaiterInTheWay(fs: Fs, m: Machine, w: nat, paths: seq<Path>, byName: bool)
    requires WellFormed(fs)
  {
    exists u :: u in m.shared.waiters && u in m.tasks && u < w &&
                Collide(fs, m.tasks[u].lexical, paths, byName || m.shared.waiters[u].Resolving?)
  }

  lemma ConflictOfLists(fs: Fs, a: seq<LeaseKey>, b: seq<LeaseKey>)
    requires WellFormed(fs) && FromTree(fs, a) && FromTree(fs, b)
    ensures PathsConflict(a, b) <==> Collide(fs, LexicalPaths(a), LexicalPaths(b), false)
  {
    forall i, j | 0 <= i < |a| && 0 <= j < |b|
      ensures KeysConflict(a[i], b[j]) <==> Overlap(fs, LexicalPaths(a)[i], LexicalPaths(b)[j])
    {
      KeysConflictIsOverlap(fs, a[i].lexical, b[j].lexical);
    }
  }

  lemma HeldIsInTheWay(fs: Fs, m: Machine, keys: seq<LeaseKey>)
    requires WellFormed(fs) && AllFromTree(fs, m) && FromTree(fs, keys)
    ensures HeldConflict(m.shared.leases, keys) <==> LeaseInTheWay(fs, m, LexicalPaths(keys))
  {
    forall l | l in m.shared.leases
      ensures PathsConflict(m.shared.leases[l], keys) <==>
              Collide(fs, LexicalPaths(m.shared.leases[l]), LexicalPaths(keys), false)
    {
      ConflictOfLists(fs, m.shared.leases[l], keys);
    }
  }

  lemma QueuedIsInTheWay(fs: Fs, x: WaiterState, keys: seq<LeaseKey>)
    requires WellFormed(fs) && (x.Resolved? ==> FromTree(fs, x.keys)) && FromTree(fs, keys)
    ensures WaiterConflicts(x, keys) <==> Collide(fs, Claims(x), LexicalPaths(keys), x.Resolving?)
  {
    if x.Resolved? { ConflictOfLists(fs, x.keys, keys); }
  }

  lemma WaiterFromTree(fs: Fs, m: Machine, u: nat)
    requires WellFormed(fs) && TasksInv(fs.root, m) && AllFromTree(fs, m) && u in m.shared.waiters
    ensures u in m.tasks && Claims(m.shared.waiters[u]) == m.tasks[u].lexical
    ensures m.shared.waiters[u].Resolved? ==> FromTree(fs, m.shared.waiters[u].keys)
  {
    assert GoodTask(fs.root, m.shared, u, m.tasks[u]) && TaskFromTree(fs, m.tasks[u]);
  }

  lemma EarlierIsInTheWay(fs: Fs, m: Machine, w: nat, keys: seq<LeaseKey>)
    requires WellFormed(fs) && TasksInv(fs.root, m) && AllFromTree(fs, m) && FromTree(fs, keys)
    ensures EarlierConflict(m.shared.waiters, keys, w) <==> WaiterInTheWay(fs, m, w, LexicalPaths(keys), false)
  {
    forall u | u in m.shared.waiters
      ensures u in m.tasks
      ensures WaiterConflicts(m.shared.waiters[u], keys) <==>
              Collide(fs, m.tasks[u].lexical, LexicalPaths(keys), m.shared.waiters[u].Resolving?)
    {
      WaiterFromTree(fs, m, u);
      QueuedIsInTheWay(fs, m.shared.waiters[u], keys);
    }
  }

  lemma EarlierNameIsInTheWay(fs: Fs, m: Machine, w: nat, paths: seq<Path>)
    requires WellFormed(fs) && TasksInv(fs.root, m) && AllFromTree(fs, m)
    ensures EarlierLexicalConflict(m.shared.waiters, paths, w) <==> WaiterInTheWay(fs, m, w, paths, true)
  {
    forall u | u in m.shared.waiters
      ensures u in m.tasks
      ensures WaiterLexicallyConflicts(m.shared.waiters[u], paths) <==> Collide(fs, m.tasks[u].lexical, paths, true)
    {
      WaiterFromTree(fs, m, u);
    }
  }

  /** The keys of a finished resolution are those of the request's own paths. */
  lemma OwnKeys(fs: Fs, m: Machine, w: nat)
    requires WellFormed(fs) && TasksInv(fs.root, m) && AllFromTree(fs, m) && w in m.tasks && m.tasks[w].resolved.Some?
    ensures FromTree(fs, m.tasks[w].resolved.value.keys)
    ensures LexicalPaths(m.tasks[w].resolved.value.keys) == m.tasks[w].lexical
  {
    assert GoodTask(fs.root, m.shared, w, m.tasks[w]) && TaskFromTree(fs, m.tasks[w]);
  }

  lemma BlockedExactly(fs: Fs, m: Machine, w: nat)
    requires WellFormed(fs) && TasksInv(fs.root, m) && AllFromTree(fs, m) && w in m.tasks && m.tasks[w].resolved.Some?
    ensures IsBlocked(m.shared, m.tasks[w].resolved.value.keys, w) <==>
            LeaseInTheWay(fs, m, m.tasks[w].lexical) || WaiterInTheWay(fs, m, w, m.tasks[w].lexical, false)
  {
    OwnKeys(fs, m, w);
    HeldIsInTheWay(fs, m, m.tasks[w].resolved.value.keys);
    EarlierIsInTheWay(fs, m, w, m.tasks[w].resolved.value.keys);
  }

  /** What the attempt comes to: stale if a lease was released since the epoch was read; else granted exactly if no
      held lease and no earlier waiter is in the way, and then with a lease on the request's own paths; else it waits as
      one whose paths are known. */
  lemma GrantedExactly(fs: Fs, ms: seq<Machine>, es: seq<Event>, k: nat, w: nat)
    requires TreeRun(fs, ms, es) && k < |ms| && Enabled(fs.root, ms[k], Try(w))
    ensures var m, n := ms[k], Apply(fs.root, ms[k], Try(w));
            && (if m.shared.epoch != m.tasks[w].expected then n.tasks[w].pc.Observing?
                else if LeaseInTheWay(fs, m, m.tasks[w].lexical) || WaiterInTheWay(fs, m, w, m.tasks[w].lexical, false)
                then n.tasks[w].pc.Sleeping? && w in n.shared.waiters && n.shared.waiters[w].Resolved?
                else n.tasks[w].pc.Granted?)
            && (n.tasks[w].pc.Granted? ==>
                  && n.tasks[w].pc.lease in n.shared.leases && w !in n.shared.waiters
                  && LexicalPaths(n.shared.leases[n.tasks[w].pc.lease]) == m.tasks[w].lexical)
  {
    Reachable(fs.root, ms, es, k);
    KeysAreFromTree(fs, ms, es, k);
    BlockedExactly(fs, ms[k], w);
    OwnKeys(fs, ms[k], w);
    assert GoodTask(fs.root, ms[k].shared, w, ms[k].tasks[w]);
  }

  /** And who may resolve: a waiter whose keys are outdated starts exactly if no earlier waiter is in its way, by name
      alone until it was resolved once. */
  lemma TurnExactly(fs: Fs, ms: seq<Machine>, es: seq<Event>, k: nat, w: nat)
    requires TreeRun(fs, ms, es) && k < |ms| && Enabled(fs.root, ms[k], Choose(w))
    ensures var m, n := ms[k], Apply(fs.root, ms[k], Choose(w)); var t := m.tasks[w];
            if t.resolved.Some? && t.resolved.value.epoch == t.expected then n.tasks[w].pc.Trying?
            else if WaiterInTheWay(fs, m, w, t.lexical, t.resolved.None?) then n.tasks[w].pc.Sleeping?
            else n.tasks[w].pc.Working? && w in n.shared.waiters && n.shared.waiters[w] == Resolving(t.lexical)
  {
    var m := ms[k];
    Reachable(fs.root, ms, es, k);
    KeysAreFromTree(fs, ms, es, k);
    assert GoodTask(fs.root, m.shared, w, m.tasks[w]);
    if m.tasks[w].resolved.None? {
      EarlierNameIsInTheWay(fs, m, w, m.tasks[w].lexical);
    } else {
      OwnKeys(fs, m, w);
      EarlierIsInTheWay(fs, m, w, m.tasks[w].resolved.value.keys);
    }
  }
}
