/**
 What the epoch is for: no lease is released between the moment a path was
 resolved and the moment a lease is granted on it.
 */
module FreshKeys {
  import opened Wrappers
  import opened Filesystem
  import opened PathKeys
  import opened PathCoordinator
  import opened CoordinatorRuns

  /** Step `j` resolved the path `i` of this resolution, in the epoch that was noted. */
  ghost predicate ResolvedBy(ms: seq<Machine>, es: seq<Event>, j: nat, id: nat, r: Resolution, i: nat)
    requires j < |es| && j < |ms| && i < |r.keys| == |r.when|
  {
    es[j] == ResolveOne(id, r.keys[i].resolved) && ms[j].shared.epoch == r.when[i]
  }

  ghost predicate KeyResolvedBefore(ms: seq<Machine>, es: seq<Event>, k: nat, id: nat, r: Resolution, i: nat)
    requires k <= |es| && k <= |ms| && i < |r.keys| == |r.when|
  {
    exists j :: 0 <= j < k && ResolvedBy(ms, es, j, id, r, i)
  }

  ghost predicate AllResolvedBefore(ms: seq<Machine>, es: seq<Event>, k: nat, id: nat, r: Resolution)
    requires k <= |es| && k <= |ms|
  {
    && |r.when| == |r.keys|
    && forall i :: 0 <= i < |r.keys| ==> KeyResolvedBefore(ms, es, k, id, r, i)
  }

  ghost predicate HasHistory(ms: seq<Machine>, es: seq<Event>, k: nat, id: nat, t: Task)
    requires k <= |es| && k <= |ms|
  {
    && (t.resolved.Some? ==> AllResolvedBefore(ms, es, k, id, t.resolved.value))
    && (t.pc.Working? ==> AllResolvedBefore(ms, es, k, id, t.pc.partial))
  }

  lemma Longer(ms: seq<Machine>, es: seq<Event>, k: nat, id: nat, r: Resolution)
    requires k < |es| && k < |ms| && AllResolvedBefore(ms, es, k, id, r)
    ensures AllResolvedBefore(ms, es, k + 1, id, r)
  {
    var later := k + 1;
    forall i | 0 <= i < |r.keys|
      ensures KeyResolvedBefore(ms, es, later, id, r, i)
    {
      assert KeyResolvedBefore(ms, es, k, id, r, i);
    }
  }

  lemma OneMore(ms: seq<Machine>, es: seq<Event>, k: nat, id: nat, r: Resolution, path: Path, key: ResolvedKey)
    requires k < |es| && k < |ms| && AllResolvedBefore(ms, es, k, id, r) && es[k] == ResolveOne(id, key)
    ensures AllResolvedBefore(ms, es, k + 1, id, Extended(r, path, key, ms[k].shared.epoch))
  {
    var x, later := Extended(r, path, key, ms[k].shared.epoch), k + 1;
    forall i | 0 <= i < |x.keys|
      ensures KeyResolvedBefore(ms, es, later, id, x, i)
    {
      if i < |r.keys| {
        assert KeyResolvedBefore(ms, es, k, id, r, i);
        var j :| 0 <= j < k && ResolvedBy(ms, es, j, id, r, i);
        assert ResolvedBy(ms, es, j, id, x, i);
      } else {
        assert ResolvedBy(ms, es, k, id, x, i);
      }
    }
  }

  lemma StepHasHistory(root: DirId, ms: seq<Machine>, es: seq<Event>, k: nat, id: nat)
    requires IsRun(root, ms, es) && k < |es| && id in ms[k].tasks && HasHistory(ms, es, k, id, ms[k].tasks[id])
    requires Actor(ms[k], es[k]) == Some(id) && !es[k].Allocate?
    ensures Leads(root, ms[k], es[k], ms[k + 1]) && HasHistory(ms, es, k + 1, id, TaskAfter(root, ms[k], es[k]))
  {
    var m, e, t := ms[k], es[k], ms[k].tasks[id];
    assert Leads(root, m, e, ms[k + 1]);
    if t.resolved.Some? { Longer(ms, es, k, id, t.resolved.value); }
    if t.pc.Working? { Longer(ms, es, k, id, t.pc.partial); }
    if e.ResolveOne? { OneMore(ms, es, k, id, t.pc.partial, t.lexical[|t.pc.partial.keys|], e.key); }
  }

  /** Every key that a request has was resolved by a step of this run. */
  lemma {:induction false} KeysHaveHistory(root: DirId, ms: seq<Machine>, es: seq<Event>, k: nat, id: nat)
    requires IsRun(root, ms, es) && k <= |es| && id in ms[k].tasks
    ensures HasHistory(ms, es, k, id, ms[k].tasks[id])
  {
    if k > 0 {
      var m, e := ms[k - 1], es[k - 1];
      assert Leads(root, m, e, ms[k]);
      if Actor(m, e) != Some(id) {
        OthersUntouched(root, m, e, id);
        KeysHaveHistory(root, ms, es, k - 1, id);
        var t := ms[k].tasks[id];
        if t.resolved.Some? { Longer(ms, es, k - 1, id, t.resolved.value); }
        if t.pc.Working? { Longer(ms, es, k - 1, id, t.pc.partial); }
      } else if !e.Allocate? {
        KeysHaveHistory(root, ms, es, k - 1, id);
        StepHasHistory(root, ms, es, k - 1, id);
      }
    }
  }

  /** The epoch stands still only while no release moves it. */
  lemma {:induction false} SameEpochNoRelease(root: DirId, ms: seq<Machine>, es: seq<Event>, j: nat, k: nat)
    requires IsRun(root, ms, es) && j <= k <= |es|
    ensures ms[j].shared.epoch <= ms[k].shared.epoch
    ensures ms[j].shared.epoch == ms[k].shared.epoch ==> forall x :: j <= x < k ==> !es[x].ReleaseEpoch?
    decreases k - j
  {
    if j < k {
      SameEpochNoRelease(root, ms, es, j, k - 1);
      assert Leads(root, ms[k - 1], es[k - 1], ms[k]);
      CountersGrow(root, ms[k - 1], es[k - 1]);
    }
  }

  /** A lease that was taken off the list stays in the middle of its release until the epoch moves. */
  lemma {:induction false} ReleaseNeedsEpoch(root: DirId, ms: seq<Machine>, es: seq<Event>, x: nat, k: nat)
    requires IsRun(root, ms, es) && x < k <= |es| && es[x].ReleaseRemove?
    requires forall y :: x <= y < k ==> !es[y].ReleaseEpoch?
    ensures ms[k].releasing == Some(Removed)
    decreases k - x
  {
    assert Leads(root, ms[k - 1], es[k - 1], ms[k]);
    if x < k - 1 { ReleaseNeedsEpoch(root, ms, es, x, k - 1); }
  }

  /** Every key of a lease was resolved by a step since which, up to the grant, no lease was released. */
  lemma GrantedOnFreshKeys(root: DirId, ms: seq<Machine>, es: seq<Event>, k: nat, w: nat, i: nat) returns (j: nat)
    requires IsRun(root, ms, es) && k < |es| && es[k] == Try(w)
    requires w in ms[k + 1].tasks && ms[k + 1].tasks[w].pc.Granted?
    requires w in ms[k].tasks && i < |ms[k].tasks[w].lexical|
    ensures var lease := ms[k + 1].tasks[w].pc.lease;
            && lease in ms[k + 1].shared.leases && i < |ms[k + 1].shared.leases[lease]|
            && j < k && es[j] == ResolveOne(w, ms[k + 1].shared.leases[lease][i].resolved)
    ensures forall x :: j <= x < k ==> !es[x].ReleaseRemove? && !es[x].ReleaseEpoch?
  {
    var m := ms[k];
    assert Leads(root, m, es[k], ms[k + 1]);
    Reachable(root, ms, es, k);
    KeysHaveHistory(root, ms, es, k, w);
    assert GoodTask(root, m.shared, w, m.tasks[w]);
    var r := m.tasks[w].resolved.value;
    assert KeyResolvedBefore(ms, es, k, w, r, i);
    j :| 0 <= j < k && ResolvedBy(ms, es, j, w, r, i);
    GrantedInOneEpoch(root, m, w);
    SameEpochNoRelease(root, ms, es, j, k);
    forall x | j <= x < k
      ensures !es[x].ReleaseRemove?
    {
      if es[x].ReleaseRemove? { ReleaseNeedsEpoch(root, ms, es, x, k); }
    }
  }
}
