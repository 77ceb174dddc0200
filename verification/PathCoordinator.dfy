/**
 The path-lease coordinator: what its mutexes protect, and each critical section.

 A request queues a numbered waiter, resolves the keys of its paths without any
 lock, and then tries to turn the waiter into a lease.  Releasing a lease starts
 a new epoch, which makes keys resolved earlier stale.  Counters are unbounded.
 */
module PathCoordinator {
  import opened Wrappers
  import opened Filesystem
  import opened PathKeys

  datatype WaiterState = Resolving(lexical: seq<Path>) | Resolved(keys: seq<LeaseKey>)

  datatype Attempt = Acquired(lease: nat) | Blocked | Stale

  /** Everything shared between requests. */
  datatype Shared = Shared(
    leases: map<nat, seq<LeaseKey>>,
    waiters: map<nat, WaiterState>,
    nextLease: nat,
    nextWaiter: nat,
    epoch: nat,
    version: nat)

  // ----- Conflicts between lists of paths

  predicate PathsConflict(left: seq<LeaseKey>, right: seq<LeaseKey>) {
    exists i, j :: 0 <= i < |left| && 0 <= j < |right| && KeysConflict(left[i], right[j])
  }

  predicate LexicallyConflict(left: seq<Path>, right: seq<Path>) {
    exists i, j :: 0 <= i < |left| && 0 <= j < |right| && LexicalOverlap(left[i], right[j])
  }

  function LexicalPaths(keys: seq<LeaseKey>): (r: seq<Path>) {
    seq(|keys|, i requires 0 <= i < |keys| => keys[i].lexical)
  }

  /** The lexical paths of a waiter, in either state. */
  function Claims(w: WaiterState): (r: seq<Path>) {
    match w
    case Resolving(lexical) => lexical
    case Resolved(keys) => LexicalPaths(keys)
  }

  predicate WaiterConflicts(w: WaiterState, requested: seq<LeaseKey>) {
    match w
    case Resolving(lexical) => LexicallyConflict(lexical, LexicalPaths(requested))
    case Resolved(keys) => PathsConflict(keys, requested)
  }

  predicate WaiterLexicallyConflicts(w: WaiterState, requested: seq<Path>) {
    LexicallyConflict(Claims(w), requested)
  }

  lemma PathsConflictSymmetric(left: seq<LeaseKey>, right: seq<LeaseKey>)
    ensures PathsConflict(left, right) <==> PathsConflict(right, left)
  {
    if PathsConflict(left, right) {
      var i, j :| 0 <= i < |left| && 0 <= j < |right| && KeysConflict(left[i], right[j]);
      assert KeysConflict(right[j], left[i]);
    }
    if PathsConflict(right, left) {
      var i, j :| 0 <= i < |right| && 0 <= j < |left| && KeysConflict(right[i], left[j]);
      assert KeysConflict(left[j], right[i]);
    }
  }

  /** In either state a waiter blocks what overlaps it lexically. */
  lemma LexicalOverlapBlocks(w: WaiterState, requested: seq<LeaseKey>)
    requires LexicallyConflict(Claims(w), LexicalPaths(requested))
    ensures WaiterConflicts(w, requested)
  {
    if w.Resolved? {
      var i, j :| 0 <= i < |w.keys| && 0 <= j < |requested| && LexicalOverlap(Claims(w)[i], LexicalPaths(requested)[j]);
      assert KeysConflict(w.keys[i], requested[j]);
    }
  }

  // ----- The critical sections

  predicate HeldConflict(leases: map<nat, seq<LeaseKey>>, requested: seq<LeaseKey>) {
    exists l :: l in leases && PathsConflict(leases[l], requested)
  }

  predicate EarlierConflict(waiters: map<nat, WaiterState>, requested: seq<LeaseKey>, id: nat) {
    exists u :: u in waiters && u < id && WaiterConflicts(waiters[u], requested)
  }

  predicate EarlierLexicalConflict(waiters: map<nat, WaiterState>, requested: seq<Path>, id: nat) {
    exists u :: u in waiters && u < id && WaiterLexicallyConflicts(waiters[u], requested)
  }

  predicate IsBlocked(sh: Shared, requested: seq<LeaseKey>, id: nat) {
    HeldConflict(sh.leases, requested) || EarlierConflict(sh.waiters, requested, id)
  }

  function WithWaiter(sh: Shared, id: nat, w: WaiterState): (r: Shared) {
    sh.(waiters := sh.waiters[id := w])
  }

  function Notified(sh: Shared): (r: Shared) {
    sh.(version := sh.version + 1)
  }

  function AfterGrant(sh: Shared, requested: seq<LeaseKey>, id: nat): (r: Shared) {
    Notified(sh.(waiters := sh.waiters - {id},
                 leases := sh.leases[sh.nextLease := requested],
                 nextLease := sh.nextLease + 1))
  }

  function TryAcquireOutcome(sh: Shared, requested: seq<LeaseKey>, expected: nat, id: nat): (r: Attempt) {
    if sh.epoch != expected || id !in sh.waiters then Stale
    else if IsBlocked(sh, requested, id) then Blocked
    else Acquired(sh.nextLease)
  }

  function TryAcquireState(sh: Shared, requested: seq<LeaseKey>, expected: nat, id: nat): (r: Shared) {
    match TryAcquireOutcome(sh, requested, expected, id)
    case Stale => sh
    case Blocked =>
      var noted := WithWaiter(sh, id, Resolved(requested));
      if sh.waiters[id].Resolving? then Notified(noted) else noted
    case Acquired(_) => AfterGrant(sh, requested, id)
  }

  /** May the waiter start resolving, given the keys of its previous resolution? */
  predicate Eligible(sh: Shared, id: nat, lexical: seq<Path>, previous: Option<seq<LeaseKey>>) {
    match previous
    case None => !EarlierLexicalConflict(sh.waiters, lexical, id)
    case Some(keys) => !EarlierConflict(sh.waiters, keys, id)
  }

  function MarkResolvingState(sh: Shared, id: nat, lexical: seq<Path>, previous: Option<seq<LeaseKey>>): (r: Shared) {
    if Eligible(sh, id, lexical, previous) && id in sh.waiters
    then WithWaiter(sh, id, Resolving(lexical))
    else sh
  }

  /** The coordinator object.  Each method is one critical section of the code. */
  class Coordinator {
    var leases: map<nat, seq<LeaseKey>>
    var waiters: map<nat, WaiterState>
    var nextLease: nat
    var nextWaiter: nat
    var epoch: nat
    var version: nat

    ghost function State(): (r: Shared)
      reads this
    {
      Shared(leases, waiters, nextLease, nextWaiter, epoch, version)
    }

    constructor ()
      ensures State() == Shared(map[], map[], 1, 1, 0, 0)
    {
      leases, waiters := map[], map[];
      nextLease, nextWaiter, epoch, version := 1, 1, 0, 0;
    }

    method SendChange()
      modifies this`version
      ensures State() == Notified(old(State()))
    {
      version := version + 1;
    }

    method TryAcquire(requested: seq<LeaseKey>, expected: nat, id: nat) returns (r: Attempt)
      modifies this
      ensures r == TryAcquireOutcome(old(State()), requested, expected, id)
      ensures State() == TryAcquireState(old(State()), requested, expected, id)
    {
      if epoch != expected { return Stale; }
      if id !in waiters { return Stale; }
      var becameResolved := waiters[id].Resolving?;
      waiters := waiters[id := Resolved(requested)];
      var held := exists l :: l in leases && PathsConflict(leases[l], requested);
      var earlier := exists u :: u in waiters && u < id && WaiterConflicts(waiters[u], requested);
      assert held == HeldConflict(old(leases), requested);
      assert earlier == EarlierConflict(old(waiters), requested, id) by {
        assert forall u :: u < id ==> (u in waiters <==> u in old(waiters));
        assert forall u :: u < id && u in waiters ==> waiters[u] == old(waiters)[u];
      }
      if held || earlier {
        if becameResolved { SendChange(); }
        return Blocked;
      }
      var lease := nextLease;
      nextLease := nextLease + 1;
      waiters := waiters - {id};
      assert waiters == old(waiters) - {id};
      leases := leases[lease := requested];
      SendChange();
      r := Acquired(lease);
    }

    method MarkResolvingIfEligible(id: nat, lexical: seq<Path>, previous: Option<seq<LeaseKey>>)
      returns (eligible: bool)
      modifies this`waiters
      ensures eligible == Eligible(old(State()), id, lexical, previous)
      ensures State() == MarkResolvingState(old(State()), id, lexical, previous)
    {
      var blockedByEarlier: bool;
      match previous {
        case None => blockedByEarlier := EarlierLexicalConflict(waiters, lexical, id);
        case Some(keys) => blockedByEarlier := EarlierConflict(waiters, keys, id);
      }
      if blockedByEarlier { return false; }
      if id in waiters { waiters := waiters[id := Resolving(lexical)]; }
      return true;
    }

    method Enqueue(id: nat, lexical: seq<Path>)
      modifies this`waiters
      ensures State() == WithWaiter(old(State()), id, Resolving(lexical))
    {
      waiters := waiters[id := Resolving(lexical)];
    }

    /** The first half of dropping a registration; the notification follows outside the lock. */
    method RemoveWaiter(id: nat) returns (removed: bool)
      modifies this`waiters
      ensures removed == (id in old(waiters))
      ensures State() == old(State()).(waiters := old(waiters) - {id})
    {
      removed := id in waiters;
      waiters := waiters - {id};
    }

    /** Dropping a lease: all three updates happen under the lease lock. */
    method DropLease(id: nat)
      modifies this
      ensures id !in old(leases) ==> State() == old(State())
      ensures id in old(leases) ==>
              State() == Notified(old(State()).(leases := old(leases) - {id}, epoch := old(epoch) + 1))
    {
      if id in leases {
        leases := leases - {id};
        epoch := epoch + 1;
        SendChange();
      }
    }
  }
}
