/**
 The interruptible stable sort of directory listings.

 Indices are merged bottom-up, the resulting permutation is inverted and then
 applied to the values in place, cycle by cycle.  At every 256th unit of work
 the sort asks whether it may go on, and may be told to stop.
 */
module InterruptibleSort {
  import opened Arithmetic
  import opened Sequences

  datatype Ordering = Less | Equal | Greater

  datatype Outcome = Sorted | Interrupted | Allocation

  const INTERRUPT_CHECK_INTERVAL: nat := 256

  type Compare<!T> = (T, T) -> Ordering

  // ----- Orders

  /** Any two values compare, consistently in both directions, and "not greater" is transitive. */
  ghost predicate TotalPreorder<T(!new)>(compare: Compare<T>) {
    && (forall a, b :: compare(a, b) == Greater <==> compare(b, a) == Less)
    && (forall a, b, c :: compare(a, b) != Greater && compare(b, c) != Greater ==> compare(a, c) != Greater)
  }

  predicate InRange<T>(v: seq<T>, p: seq<nat>) {
    forall i :: 0 <= i < |p| ==> p[i] < |v|
  }

  /** Position `i` of the input comes before position `j` of the input in a stable sort. */
  predicate Before<T>(v: seq<T>, compare: Compare<T>, i: nat, j: nat)
    requires i < |v| && j < |v|
  {
    compare(v[i], v[j]) == Less || (compare(v[i], v[j]) == Equal && i < j)
  }

  lemma BeforeTransitive<T(!new)>(v: seq<T>, compare: Compare<T>, i: nat, j: nat, k: nat)
    requires TotalPreorder(compare) && i < |v| && j < |v| && k < |v|
    requires Before(v, compare, i, j) && Before(v, compare, j, k)
    ensures Before(v, compare, i, k)
  {
    if compare(v[i], v[k]) == Equal {
      assert compare(v[k], v[i]) != Greater;
      assert compare(v[j], v[i]) != Greater && compare(v[k], v[j]) != Greater;
    }
  }

  ghost predicate InOrder<T>(v: seq<T>, compare: Compare<T>, p: seq<nat>)
    requires InRange(v, p)
  {
    forall i, j :: 0 <= i < j < |p| ==> Before(v, compare, p[i], p[j])
  }

  function Iota(n: nat): (r: seq<nat>) {
    seq(n, i => i)
  }

  function Arrange<T>(v: seq<T>, p: seq<nat>): (r: seq<T>)
    requires InRange(v, p)
  {
    seq(|p|, i requires 0 <= i < |p| && InRange(v, p) => v[p[i]])
  }

  /** `p` lists the input positions in the order of a stable sort. */
  ghost predicate StableOrder<T>(v: seq<T>, compare: Compare<T>, p: seq<nat>) {
    multiset(p) == multiset(Iota(|v|)) && InRange(v, p) && InOrder(v, compare, p)
  }

  ghost predicate StablySorted<T>(before: seq<T>, after: seq<T>, compare: Compare<T>) {
    exists p :: StableOrder(before, compare, p) && after == Arrange(before, p)
  }

  lemma HeadsAgree<T(!new)>(v: seq<T>, compare: Compare<T>, p: seq<nat>, q: seq<nat>)
    requires TotalPreorder(compare) && InRange(v, p) && InRange(v, q) && p != [] && q != []
    requires InOrder(v, compare, p) && InOrder(v, compare, q)
    requires p[0] in q && q[0] in p
    ensures p[0] == q[0]
  {
    var i :| 0 <= i < |q| && q[i] == p[0];
    var j :| 0 <= j < |p| && p[j] == q[0];
    if i > 0 && j > 0 {
      assert false;
    }
  }

  lemma TailMultiset(p: seq<nat>)
    requires p != []
    ensures multiset(p) == multiset{p[0]} + multiset(p[1..])
  {
    assert p == [p[0]] + p[1..];
  }

  lemma TailsAgree(p: seq<nat>, q: seq<nat>)
    requires p != [] && q != [] && p[0] == q[0] && multiset(p) == multiset(q)
    ensures multiset(p[1..]) == multiset(q[1..])
  {
    TailMultiset(p);
    TailMultiset(q);
    assert multiset(p[1..]) == multiset(p) - multiset{p[0]};
    assert multiset(q[1..]) == multiset(q) - multiset{q[0]};
  }

  lemma SameLength(p: seq<nat>, q: seq<nat>)
    requires multiset(p) == multiset(q)
    ensures |p| == |q|
    ensures p != [] ==> p[0] in q && q[0] in p
  {
    assert |p| == |multiset(p)| == |multiset(q)| == |q|;
    if p != [] { assert p[0] in multiset(q) && q[0] in multiset(p); }
  }

  lemma TailInOrder<T>(v: seq<T>, compare: Compare<T>, p: seq<nat>)
    requires InRange(v, p) && InOrder(v, compare, p) && p != []
    ensures InRange(v, p[1..]) && InOrder(v, compare, p[1..])
  {
  }

  /** There is only one stable order. */
  lemma {:induction false} OrderUnique<T(!new)>(v: seq<T>, compare: Compare<T>, p: seq<nat>, q: seq<nat>)
    requires TotalPreorder(compare) && InRange(v, p) && InRange(v, q)
    requires InOrder(v, compare, p) && InOrder(v, compare, q) && multiset(p) == multiset(q)
    ensures p == q
    decreases |p|
  {
    SameLength(p, q);
    if p != [] {
      HeadsAgree(v, compare, p, q);
      TailsAgree(p, q);
      TailInOrder(v, compare, p);
      TailInOrder(v, compare, q);
      OrderUnique(v, compare, p[1..], q[1..]);
      assert p == [p[0]] + p[1..] && q == [q[0]] + q[1..];
    }
  }

  /** So a stable sort of a list is determined. */
  lemma StablySortedUnique<T(!new)>(before: seq<T>, one: seq<T>, other: seq<T>, compare: Compare<T>)
    requires TotalPreorder(compare) && StablySorted(before, one, compare) && StablySorted(before, other, compare)
    ensures one == other
  {
    var p :| StableOrder(before, compare, p) && one == Arrange(before, p);
    var q :| StableOrder(before, compare, q) && other == Arrange(before, q);
    OrderUnique(before, compare, p, q);
  }

  // ----- The merge passes as functions

  predicate Bounds<T>(v: seq<T>, p: seq<nat>, left: nat, middle: nat, right: nat, end: nat) {
    InRange(v, p) && left <= middle <= right <= end <= |p|
  }

  predicate TakeLeft<T>(v: seq<T>, compare: Compare<T>, p: seq<nat>, left: nat, middle: nat, right: nat, end: nat)
    requires Bounds(v, p, left, middle, right, end)
  {
    right == end || (left < middle && compare(v[p[left]], v[p[right]]) != Greater)
  }

  /** Merge what is left of two neighbouring runs, `p[left..middle]` and `p[right..end]`. */
  function Merge<T>(v: seq<T>, compare: Compare<T>, p: seq<nat>, left: nat, middle: nat, right: nat,
                    end: nat): (m: seq<nat>)
    requires Bounds(v, p, left, middle, right, end)
    ensures |m| == middle - left + end - right && InRange(v, m)
    decreases middle - left + end - right
  {
    if left == middle && right == end then []
    else if TakeLeft(v, compare, p, left, middle, right, end)
    then [p[left]] + Merge(v, compare, p, left + 1, middle, right, end)
    else [p[right]] + Merge(v, compare, p, left, middle, right + 1, end)
  }

  /** One pass over the runs of `width` from `start` on. */
  function Pass<T>(v: seq<T>, compare: Compare<T>, p: seq<nat>, width: nat, start: nat): (m: seq<nat>)
    requires InRange(v, p) && width > 0 && start <= |p|
    ensures |m| == |p| - start && InRange(v, m)
    decreases |p| - start
  {
    if start == |p| then []
    else
      var middle, end := Min(start + width, |p|), Min(start + 2 * width, |p|);
      Merge(v, compare, p, start, middle, middle, end) + Pass(v, compare, p, width, end)
  }

  function Passes<T>(v: seq<T>, compare: Compare<T>, p: seq<nat>, width: nat): (m: seq<nat>)
    requires InRange(v, p) && width > 0
    ensures |m| == |p| && InRange(v, m)
    decreases |p| - width
  {
    if width >= |p| then p else Passes(v, compare, Pass(v, compare, p, width, 0), 2 * width)
  }

  /** The permutation the sort computes: new position to old position. */
  function SortIndices<T>(v: seq<T>, compare: Compare<T>): (p: seq<nat>)
    ensures |p| == |v| && InRange(v, p)
  {
    Passes(v, compare, Iota(|v|), 1)
  }

  // ----- Nothing is lost

  lemma Pushed(head: nat, rest: seq<nat>, a: seq<nat>, b: seq<nat>)
    requires multiset(rest) == multiset(a) + multiset(b)
    ensures multiset([head] + rest) == multiset([head] + a) + multiset(b)
    ensures multiset([head] + rest) == multiset(a) + multiset([head] + b)
  {
  }

  lemma PushedLeft(p: seq<nat>, left: nat, middle: nat, b: seq<nat>, rest: seq<nat>)
    requires left < middle <= |p| && multiset(rest) == multiset(p[left + 1..middle]) + multiset(b)
    ensures multiset([p[left]] + rest) == multiset(p[left..middle]) + multiset(b)
  {
    Pushed(p[left], rest, p[left + 1..middle], b);
    assert p[left..middle] == [p[left]] + p[left + 1..middle];
  }

  lemma PushedRight(p: seq<nat>, right: nat, end: nat, a: seq<nat>, rest: seq<nat>)
    requires right < end <= |p| && multiset(rest) == multiset(a) + multiset(p[right + 1..end])
    ensures multiset([p[right]] + rest) == multiset(a) + multiset(p[right..end])
  {
    Pushed(p[right], rest, a, p[right + 1..end]);
    assert p[right..end] == [p[right]] + p[right + 1..end];
  }

  lemma {:induction false} MergeMultiset<T>(v: seq<T>, compare: Compare<T>, p: seq<nat>, left: nat, middle: nat,
                                            right: nat, end: nat, m: seq<nat>)
    requires Bounds(v, p, left, middle, right, end) && m == Merge(v, compare, p, left, middle, right, end)
    ensures multiset(m) == multiset(p[left..middle]) + multiset(p[right..end])
    decreases |m|
  {
    if left == middle && right == end {
      assert p[left..middle] == p[right..end] == [];
    } else if TakeLeft(v, compare, p, left, middle, right, end) {
      var rest := Merge(v, compare, p, left + 1, middle, right, end);
      MergeMultiset(v, compare, p, left + 1, middle, right, end, rest);
      PushedLeft(p, left, middle, p[right..end], rest);
    } else {
      var rest := Merge(v, compare, p, left, middle, right + 1, end);
      MergeMultiset(v, compare, p, left, middle, right + 1, end, rest);
      PushedRight(p, right, end, p[left..middle], rest);
    }
  }

  lemma Regrouped(p: seq<nat>, start: nat, middle: nat, end: nat, merged: seq<nat>, rest: seq<nat>)
    requires start <= middle <= end <= |p|
    requires multiset(merged) == multiset(p[start..middle]) + multiset(p[middle..end])
    requires multiset(rest) == multiset(p[end..])
    ensures multiset(merged + rest) == multiset(p[start..])
  {
    assert p[start..] == p[start..middle] + p[middle..end] + p[end..];
  }

  lemma {:induction false} PassMultiset<T>(v: seq<T>, compare: Compare<T>, p: seq<nat>, width: nat, start: nat,
                                           m: seq<nat>)
    requires InRange(v, p) && width > 0 && start <= |p| && m == Pass(v, compare, p, width, start)
    ensures multiset(m) == multiset(p[start..])
    decreases |p| - start
  {
    if start < |p| {
      var middle, end := Min(start + width, |p|), Min(start + 2 * width, |p|);
      var merged := Merge(v, compare, p, start, middle, middle, end);
      var rest := Pass(v, compare, p, width, end);
      MergeMultiset(v, compare, p, start, middle, middle, end, merged);
      PassMultiset(v, compare, p, width, end, rest);
      Regrouped(p, start, middle, end, merged, rest);
    }
  }

  lemma {:induction false} PassesMultiset<T>(v: seq<T>, compare: Compare<T>, p: seq<nat>, width: nat)
    requires InRange(v, p) && width > 0
    ensures multiset(Passes(v, compare, p, width)) == multiset(p)
    decreases |p| - width
  {
    if width < |p| {
      PassMultiset(v, compare, p, width, 0, Pass(v, compare, p, width, 0));
      assert p[0..] == p;
      PassesMultiset(v, compare, Pass(v, compare, p, width, 0), 2 * width);
    }
  }

  // ----- The passes sort, and keep equal values in their order

  /** The segment holds exactly positions of its own range, in stable order. */
  ghost predicate RunAt<T>(v: seq<T>, compare: Compare<T>, p: seq<nat>, start: nat, end: nat)
    requires InRange(v, p) && start <= end <= |p|
  {
    && (forall i :: start <= i < end ==> start <= p[i] < end)
    && (forall i, j :: start <= i < j < end ==> Before(v, compare, p[i], p[j]))
  }

  ghost predicate Runs<T>(v: seq<T>, compare: Compare<T>, p: seq<nat>, width: nat, start: nat)
    requires InRange(v, p) && width > 0 && start <= |p|
    decreases |p| - start
  {
    start < |p| ==>
      var end := Min(start + width, |p|);
      RunAt(v, compare, p, start, end) && Runs(v, compare, p, width, end)
  }

  /** What may still be merged: both rests in order, and every left position below every right one. */
  ghost predicate Mergeable<T>(v: seq<T>, compare: Compare<T>, p: seq<nat>, left: nat, middle: nat, right: nat,
                               end: nat)
    requires Bounds(v, p, left, middle, right, end)
  {
    && (forall i, j :: left <= i < j < middle ==> Before(v, compare, p[i], p[j]))
    && (forall i, j :: right <= i < j < end ==> Before(v, compare, p[i], p[j]))
    && (forall i, j :: left <= i < middle && right <= j < end ==> p[i] < p[j])
  }

  /** Every merged index comes from one of the two rests. */
  lemma {:induction false} MergeDraws<T>(v: seq<T>, compare: Compare<T>, p: seq<nat>, left: nat, middle: nat,
                                         right: nat, end: nat, k: nat)
    returns (i: nat)
    requires Bounds(v, p, left, middle, right, end) && k < middle - left + end - right
    ensures left <= i < middle || right <= i < end
    ensures Merge(v, compare, p, left, middle, right, end)[k] == p[i]
    decreases middle - left + end - right
  {
    if TakeLeft(v, compare, p, left, middle, right, end) {
      i := left;
      if k > 0 { i := MergeDraws(v, compare, p, left + 1, middle, right, end, k - 1); }
    } else {
      i := right;
      if k > 0 { i := MergeDraws(v, compare, p, left, middle, right + 1, end, k - 1); }
    }
  }

  /** The chosen index comes before everything that is still to be merged. */
  lemma ChosenFirst<T(!new)>(v: seq<T>, compare: Compare<T>, p: seq<nat>, left: nat, middle: nat, right: nat,
                             end: nat, i: nat)
    requires TotalPreorder(compare) && Bounds(v, p, left, middle, right, end)
    requires Mergeable(v, compare, p, left, middle, right, end)
    requires left < middle || right < end
    ensures TakeLeft(v, compare, p, left, middle, right, end) && (left < i < middle || right <= i < end) ==>
            Before(v, compare, p[left], p[i])
    ensures !TakeLeft(v, compare, p, left, middle, right, end) && (left <= i < middle || right < i < end) ==>
            Before(v, compare, p[right], p[i])
  {
    if left < middle && right < end {
      assert compare(v[p[left]], v[p[right]]) == Greater ==> compare(v[p[right]], v[p[left]]) == Less;
      if TakeLeft(v, compare, p, left, middle, right, end) {
        if right < i < end { BeforeTransitive(v, compare, p[left], p[right], p[i]); }
      } else {
        if left < i < middle { BeforeTransitive(v, compare, p[right], p[left], p[i]); }
      }
    }
  }

  lemma {:induction false} MergeInOrder<T(!new)>(v: seq<T>, compare: Compare<T>, p: seq<nat>, left: nat, middle: nat,
                                                 right: nat, end: nat)
    requires TotalPreorder(compare) && Bounds(v, p, left, middle, right, end)
    requires Mergeable(v, compare, p, left, middle, right, end)
    ensures InOrder(v, compare, Merge(v, compare, p, left, middle, right, end))
    decreases middle - left + end - right
  {
    if left < middle || right < end {
      var takeLeft := TakeLeft(v, compare, p, left, middle, right, end);
      var l, r := if takeLeft then left + 1 else left, if takeLeft then right else right + 1;
      MergeInOrder(v, compare, p, l, middle, r, end);
      var head, m := if takeLeft then p[left] else p[right], Merge(v, compare, p, l, middle, r, end);
      forall k: nat | k < |m|
        ensures Before(v, compare, head, m[k])
      {
        var i := MergeDraws(v, compare, p, l, middle, r, end, k);
        ChosenFirst(v, compare, p, left, middle, right, end, i);
      }
      InOrderPrepended(v, compare, head, m);
    }
  }

  lemma InOrderPrepended<T>(v: seq<T>, compare: Compare<T>, head: nat, m: seq<nat>)
    requires InRange(v, m) && head < |v| && InOrder(v, compare, m)
    requires forall k :: 0 <= k < |m| ==> Before(v, compare, head, m[k])
    ensures InRange(v, [head] + m) && InOrder(v, compare, [head] + m)
  {
  }

  /** Merging two neighbouring runs gives one run. */
  lemma MergedRun<T(!new)>(v: seq<T>, compare: Compare<T>, p: seq<nat>, start: nat, middle: nat, end: nat, q: seq<nat>)
    requires TotalPreorder(compare) && Bounds(v, p, start, middle, middle, end)
    requires RunAt(v, compare, p, start, middle) && RunAt(v, compare, p, middle, end)
    requires InRange(v, q) && end <= |q| && q[start..end] == Merge(v, compare, p, start, middle, middle, end)
    ensures RunAt(v, compare, q, start, end)
  {
    var m := Merge(v, compare, p, start, middle, middle, end);
    forall i | start <= i < end
      ensures q[i] == m[i - start] && start <= q[i] < end
    {
      assert q[i] == q[start..end][i - start];
      var k := MergeDraws(v, compare, p, start, middle, middle, end, i - start);
    }
    assert InOrder(v, compare, m) by { MergeInOrder(v, compare, p, start, middle, middle, end); }
  }

  lemma SplitAt(q: seq<nat>, start: nat, end: nat, a: seq<nat>, b: seq<nat>)
    requires start <= end <= |q| && q[start..] == a + b && |a| == end - start
    ensures q[start..end] == a && q[end..] == b
  {
    assert q[start..end] == q[start..][..|a|];
    assert q[end..] == q[start..][|a|..];
  }

  lemma RunInFront<T>(v: seq<T>, compare: Compare<T>, p: seq<nat>, width: nat, start: nat, end: nat)
    requires InRange(v, p) && width > 0 && start < |p| && end == Min(start + width, |p|)
    requires RunAt(v, compare, p, start, end) && Runs(v, compare, p, width, end)
    ensures Runs(v, compare, p, width, start)
  {
  }

  /** Merging the two runs at `start` gives one run of twice the width. */
  lemma MergedRunOfPass<T(!new)>(v: seq<T>, compare: Compare<T>, p: seq<nat>, width: nat, start: nat, middle: nat,
                                 end: nat, q: seq<nat>)
    requires TotalPreorder(compare) && InRange(v, p) && width > 0 && start < |p| == |q|
    requires Runs(v, compare, p, width, start)
    requires middle == Min(start + width, |p|) && end == Min(start + 2 * width, |p|)
    requires InRange(v, q) && q[start..end] == Merge(v, compare, p, start, middle, middle, end)
    ensures RunAt(v, compare, q, start, end) && Runs(v, compare, p, width, end)
  {
    assert middle < |p| ==> Min(middle + width, |p|) == end;
    MergedRun(v, compare, p, start, middle, end, q);
  }

  /** A pass turns runs of `width` into runs of twice the width. */
  lemma {:induction false} PassDoublesRuns<T(!new)>(v: seq<T>, compare: Compare<T>, p: seq<nat>, width: nat,
                                                    start: nat, q: seq<nat>)
    requires TotalPreorder(compare) && InRange(v, p) && width > 0 && start <= |p| && Runs(v, compare, p, width, start)
    requires |q| == |p| && InRange(v, q) && q[start..] == Pass(v, compare, p, width, start)
    ensures Runs(v, compare, q, 2 * width, start)
    decreases |p| - start
  {
    if start < |p| {
      var middle, end := Min(start + width, |p|), Min(start + 2 * width, |p|);
      SplitAt(q, start, end, Merge(v, compare, p, start, middle, middle, end), Pass(v, compare, p, width, end));
      MergedRunOfPass(v, compare, p, width, start, middle, end, q);
      PassDoublesRuns(v, compare, p, width, end, q);
      RunInFront(v, compare, q, 2 * width, start, end);
    }
  }

  lemma {:induction false} PassesInOrder<T(!new)>(v: seq<T>, compare: Compare<T>, p: seq<nat>, width: nat)
    requires TotalPreorder(compare) && InRange(v, p) && width > 0 && Runs(v, compare, p, width, 0)
    ensures InOrder(v, compare, Passes(v, compare, p, width))
    decreases |p| - width
  {
    if width < |p| {
      var q := Pass(v, compare, p, width, 0);
      assert q[0..] == q;
      PassDoublesRuns(v, compare, p, width, 0, q);
      PassesInOrder(v, compare, Pass(v, compare, p, width, 0), 2 * width);
    }
  }

  lemma {:induction false} SinglesAreRuns<T>(v: seq<T>, compare: Compare<T>, start: nat)
    requires start <= |v|
    ensures Runs(v, compare, Iota(|v|), 1, start)
    decreases |v| - start
  {
    if start < |v| { SinglesAreRuns(v, compare, start + 1); }
  }

  /** The computed permutation is the stable order, for every total preorder. */
  lemma SortIndicesStable<T(!new)>(v: seq<T>, compare: Compare<T>)
    requires TotalPreorder(compare)
    ensures StableOrder(v, compare, SortIndices(v, compare))
    ensures StablySorted(v, Arrange(v, SortIndices(v, compare)), compare)
  {
    SinglesAreRuns(v, compare, 0);
    PassesInOrder(v, compare, Iota(|v|), 1);
    PassesMultiset(v, compare, Iota(|v|), 1);
  }

  // ----- Permutations

  predicate Injective(p: seq<nat>) {
    forall i, j :: 0 <= i < j < |p| ==> p[i] != p[j]
  }

  lemma {:induction false} IotaCounts(n: nat, x: nat)
    ensures multiset(Iota(n))[x] == if x < n then 1 else 0
  {
    if n > 0 {
      IotaCounts(n - 1, x);
      assert Iota(n) == Iota(n - 1) + [n - 1];
    }
  }

  lemma CountTwice(p: seq<nat>, i: nat, j: nat)
    requires i < j < |p| && p[i] == p[j]
    ensures multiset(p)[p[i]] >= 2
  {
    assert p == p[..j] + [p[j]] + p[j + 1..];
    assert p[..j][i] in multiset(p[..j]);
  }

  /** A rearrangement of all positions hits each position exactly once. */
  lemma PermutationFacts(p: seq<nat>, n: nat)
    requires multiset(p) == multiset(Iota(n))
    ensures |p| == n && Injective(p)
    ensures forall x :: 0 <= x < n ==> x in p
  {
    assert |p| == |multiset(p)| == |multiset(Iota(n))| == n;
    forall i, j | 0 <= i < j < |p|
      ensures p[i] != p[j]
    {
      IotaCounts(n, p[i]);
      if p[i] == p[j] { CountTwice(p, i, j); }
    }
    forall x: nat | x < n
      ensures x in p
    {
      IotaCounts(n, x);
      assert x in multiset(p);
    }
  }

  function Swapped<T>(v: seq<T>, i: nat, j: nat): (r: seq<T>)
    requires i < |v| && j < |v|
  {
    v[i := v[j]][j := v[i]]
  }

  lemma SwapKeepsMultiset<T>(v: seq<T>, i: nat, j: nat)
    requires i < |v| && j < |v|
    ensures multiset(Swapped(v, i, j)) == multiset(v)
  {
  }

  // ----- Polling

  /** Work since the last poll, and polls made so far. */
  datatype Poll = Poll(work: nat, calls: nat)

  ghost predicate AllActive(active: nat -> bool, p: Poll) {
    p.work < INTERRUPT_CHECK_INTERVAL && forall c :: 0 <= c < p.calls ==> active(c)
  }

  /** The last poll said stop, and no earlier one did. */
  ghost predicate Stopped(active: nat -> bool, p: Poll) {
    p.calls > 0 && !active(p.calls - 1) && forall c :: 0 <= c < p.calls - 1 ==> active(c)
  }

  /** Units of work since the first poll, which comes before any work. */
  function Units(p: Poll): (n: int) {
    INTERRUPT_CHECK_INTERVAL * (p.calls - 1) + p.work
  }

  /** From `p` to `q`: all of `work` was done, or a poll on the way said stop. */
  ghost predicate Worked(active: nat -> bool, p: Poll, go: bool, q: Poll, work: nat) {
    if go then AllActive(active, q) && Units(q) == Units(p) + work
    else Stopped(active, q) && q.work == 0 && Units(p) < Units(q) <= Units(p) + work
  }

  /** A poll of its own. */
  method Ask(active: nat -> bool, p: Poll) returns (go: bool, q: Poll)
    requires AllActive(active, p)
    ensures if go then AllActive(active, q) else Stopped(active, q)
    ensures Units(q) == Units(p) + INTERRUPT_CHECK_INTERVAL
  {
    go := active(p.calls);
    q := Poll(p.work, p.calls + 1);
  }

  /** One unit of work; every 256th polls. */
  method Tick(active: nat -> bool, p: Poll) returns (go: bool, q: Poll)
    requires AllActive(active, p)
    ensures Worked(active, p, go, q, 1)
  {
    q := p.(work := p.work + 1);
    if q.work >= INTERRUPT_CHECK_INTERVAL {
      go := active(q.calls);
      q := Poll(0, q.calls + 1);
    } else {
      go := true;
    }
  }

  // ----- How much work comes before the first write

  /** The merge passes from `width` on: each looks at every index once. */
  function MergeWork(n: nat, width: nat): (work: nat)
    requires width > 0
    decreases n - width
  {
    if width >= n then 0 else n + MergeWork(n, 2 * width)
  }

  /** Listing the indices, merging them, and inverting the result. */
  function RouteWork(n: nat): (work: nat) {
    2 * n + MergeWork(n, 1)
  }

  /** How many passes there are from `width` on. */
  function PassCount(n: nat, width: nat): (k: nat)
    requires width > 0
    decreases n - width
  {
    if width >= n then 0 else 1 + PassCount(n, 2 * width)
  }

  lemma {:induction false} MergeWorkIsProduct(n: nat, width: nat)
    requires width > 0
    ensures MergeWork(n, width) == n * PassCount(n, width)
    decreases n - width
  {
    if width < n { MergeWorkIsProduct(n, 2 * width); }
  }

  /** With `runs` runs left, the last of them perhaps short, there are as many passes as halvings of that number. */
  lemma {:induction false} PassCountIsLogarithm(n: nat, width: nat, runs: nat)
    requires width > 0 && runs > 0 && (runs - 1) * width < n <= runs * width
    ensures PassCount(n, width) == CeilLog2(runs)
    decreases n - width
  {
    if width >= n {
      if runs > 1 { MulGrows(1, runs - 1, width); }
    } else {
      var half := (runs + 1) / 2;
      MulGrows(runs, 2 * half, width);
      MulGrows(2 * half - 2, runs - 1, width);
      PassCountIsLogarithm(n, 2 * width, half);
    }
  }

  /** Before anything is moved, the sort works through the list twice and once per doubling of the run length. */
  lemma RouteWorkIsLinearithmic(n: nat)
    requires n > 0
    ensures RouteWork(n) == 2 * n + n * CeilLog2(n)
  {
    MergeWorkIsProduct(n, 1);
    PassCountIsLogarithm(n, 1, n);
  }

  // ----- The sort

  /** Taking the next index from the run it comes from leaves the same result to come. */
  lemma MergeNext<T>(v: seq<T>, compare: Compare<T>, p: seq<nat>, left: nat, middle: nat, right: nat, end: nat,
                     out: seq<nat>)
    requires Bounds(v, p, left, middle, right, end) && (left < middle || right < end)
    ensures out + Merge(v, compare, p, left, middle, right, end) ==
            if TakeLeft(v, compare, p, left, middle, right, end)
            then out + [p[left]] + Merge(v, compare, p, left + 1, middle, right, end)
            else out + [p[right]] + Merge(v, compare, p, left, middle, right + 1, end)
  {
    if TakeLeft(v, compare, p, left, middle, right, end) {
      Associative(out, [p[left]], Merge(v, compare, p, left + 1, middle, right, end));
    } else {
      Associative(out, [p[right]], Merge(v, compare, p, left, middle, right + 1, end));
    }
  }

  /** One merge of two neighbouring runs; appends to `next`. */
  method MergeRuns<T>(values: array<T>, compare: Compare<T>, active: nat -> bool, current: seq<nat>,
                      start: nat, middle: nat, end: nat, next: seq<nat>, p: Poll, ghost v: seq<T>)
    returns (go: bool, out: seq<nat>, q: Poll)
    requires v == values[..] && Bounds(v, current, start, middle, middle, end) && AllActive(active, p)
    ensures Worked(active, p, go, q, end - start)
    ensures go ==> out == next + Merge(v, compare, current, start, middle, middle, end)
  {
    ghost var goal := next + Merge(v, compare, current, start, middle, middle, end);
    var left, right := start, middle;
    out, q, go := next, p, true;
    while left < middle || right < end
      invariant start <= left <= middle <= right <= end
      invariant Worked(active, p, true, q, left - start + right - middle)
      invariant out + Merge(v, compare, current, left, middle, right, end) == goal
      decreases middle - left + end - right
    {
      go, q := Tick(active, q);
      if !go { return; }
      MergeNext(v, compare, current, left, middle, right, end, out);
      if right == end || (left < middle && compare(values[current[left]], values[current[right]]) != Greater) {
        out, left := out + [current[left]], left + 1;
      } else {
        out, right := out + [current[right]], right + 1;
      }
    }
  }

  /** Where the two runs at `start` end; saturation cannot matter below the length. */
  method RunBounds(start: nat, width: nat, len: nat) returns (middle: nat, end: nat)
    requires start < len <= USIZE_MAX && 0 < width
    ensures middle == Min(start + width, len) && end == Min(start + 2 * width, len)
    ensures start < middle <= end <= len
  {
    middle := Min(SaturatingAdd(start, width), len);
    end := Min(SaturatingAdd(start, SaturatingAdd(width, width)), len);
  }

  /** One round of a pass: merge the two runs at `start`. */
  method MergeRound<T>(values: array<T>, compare: Compare<T>, active: nat -> bool, current: seq<nat>,
                       width: nat, start: nat, next: seq<nat>, p: Poll, ghost v: seq<T>)
    returns (go: bool, end: nat, out: seq<nat>, q: Poll)
    requires v == values[..] && InRange(v, current) && start < |current| <= USIZE_MAX
    requires width > 0 && AllActive(active, p)
    ensures start < end <= |current| && Worked(active, p, go, q, end - start)
    ensures go ==> out + Pass(v, compare, current, width, end) == next + Pass(v, compare, current, width, start)
  {
    var middle;
    middle, end := RunBounds(start, width, |current|);
    Associative(next, Merge(v, compare, current, start, middle, middle, end), Pass(v, compare, current, width, end));
    go, out, q := MergeRuns(values, compare, active, current, start, middle, end, next, p, v);
  }

  /** One pass over all runs of `width`. */
  method MergePass<T>(values: array<T>, compare: Compare<T>, active: nat -> bool, current: seq<nat>,
                      width: nat, p: Poll, ghost v: seq<T>)
    returns (go: bool, next: seq<nat>, q: Poll)
    requires v == values[..] && InRange(v, current) && 0 < width < |current| <= USIZE_MAX && AllActive(active, p)
    ensures Worked(active, p, go, q, |current|)
    ensures go ==> next == Pass(v, compare, current, width, 0)
  {
    var start: nat := 0;
    next, q, go := [], p, true;
    while start < |current|
      invariant start <= |current| && Worked(active, p, true, q, start)
      invariant next + Pass(v, compare, current, width, start) == Pass(v, compare, current, width, 0)
    {
      go, start, next, q := MergeRound(values, compare, active, current, width, start, next, q, v);
      if !go { return; }
    }
  }

  /** From new-to-old positions to old-to-new positions. */
  method Invert(active: nat -> bool, current: seq<nat>, p: Poll) returns (go: bool, next: seq<nat>, q: Poll)
    requires multiset(current) == multiset(Iota(|current|)) && AllActive(active, p)
    ensures Worked(active, p, go, q, |current|)
    ensures go ==> |next| == |current|
    ensures go ==> forall k :: 0 <= k < |current| ==> current[k] < |next| && next[current[k]] == k
  {
    var n := |current|;
    PermutationFacts(current, n);
    forall k | 0 <= k < n
      ensures current[k] < n
    {
      assert current[k] in multiset(current);
      IotaCounts(n, current[k]);
    }
    next, q, go := seq(n, _ => 0), p, true;
    for position := 0 to n
      invariant |next| == n && Worked(active, p, true, q, position)
      invariant forall k :: 0 <= k < position ==> next[current[k]] == k
    {
      go, q := Tick(active, q);
      if !go { return; }
      next := next[current[position] := position];
    }
  }

  /** `next[i]` is where the value now at `i` still has to go. */
  ghost predicate Routed<T>(values: seq<T>, next: seq<nat>, goal: seq<T>) {
    && |next| == |values| == |goal| && Injective(next)
    && forall i :: 0 <= i < |next| ==> next[i] < |goal| && goal[next[i]] == values[i]
  }

  ghost function Misplaced(next: seq<nat>): (r: set<nat>) {
    set i | 0 <= i < |next| && next[i] != i
  }

  lemma {:induction false} SmallSet(s: set<nat>, n: nat)
    requires forall x :: x in s ==> x < n
    ensures |s| <= n
    decreases n
  {
    if n > 0 { SmallSet(s - {n - 1}, n - 1); } else { assert s == {}; }
  }

  lemma SubsetIsSmaller(small: set<nat>, large: set<nat>)
    requires small < large
    ensures |small| < |large|
  {
    assert large == small + (large - small);
    assert large - small != {};
  }

  /** A swap along the cycle brings one value home for good. */
  lemma SwapRoutes<T>(values: seq<T>, next: seq<nat>, goal: seq<T>, i: nat)
    requires Routed(values, next, goal) && i < |next| && next[i] != i
    ensures next[i] < |next| && Routed(Swapped(values, i, next[i]), Swapped(next, i, next[i]), goal)
    ensures Misplaced(Swapped(next, i, next[i])) < Misplaced(next)
  {
    var d := next[i];
    var swapped := Swapped(next, i, d);
    assert swapped[d] == d && swapped[i] == next[d];
    assert next[d] != d;
    assert d in Misplaced(next) && d !in Misplaced(swapped);
    forall k | k in Misplaced(swapped)
      ensures k in Misplaced(next)
    {
    }
  }

  /** One swap of the apply phase. */
  method SwapHome<T>(values: array<T>, route: seq<nat>, position: nat, ghost goal: seq<T>) returns (next: seq<nat>)
    requires Routed(values[..], route, goal) && position < |route| && route[position] != position
    modifies values
    ensures Routed(values[..], next, goal) && multiset(values[..]) == multiset(old(values[..]))
    ensures |Misplaced(next)| < |Misplaced(route)|
    ensures forall i :: 0 <= i < |route| && route[i] == i ==> next[i] == i
  {
    var destination := route[position];
    ghost var before := values[..];
    SwapRoutes(before, route, goal, position);
    SwapKeepsMultiset(before, position, destination);
    values[position], values[destination] := values[destination], values[position];
    assert values[..] == Swapped(before, position, destination);
    next := route[position := route[destination]][destination := route[position]];
    SubsetIsSmaller(Misplaced(next), Misplaced(route));
  }

  /** Follow one cycle until the value that belongs at `position` is there. */
  method FinishCycle<T>(values: array<T>, active: nat -> bool, route: seq<nat>, position: nat, p: Poll,
                        ghost goal: seq<T>)
    returns (go: bool, next: seq<nat>, q: Poll)
    requires Routed(values[..], route, goal) && AllActive(active, p) && position < |route|
    modifies values
    ensures multiset(values[..]) == multiset(old(values[..]))
    ensures if go then AllActive(active, q) else Stopped(active, q) && q.work == 0 && Units(p) < Units(q)
    ensures Routed(values[..], next, goal) && (forall i :: 0 <= i < |route| && route[i] == i ==> next[i] == i)
    ensures go ==> next[position] == position
    ensures Units(p) <= Units(q) <= Units(p) + |Misplaced(route)| - (if go then |Misplaced(next)| else 0)
  {
    next, q, go := route, p, true;
    while next[position] != position
      invariant Routed(values[..], next, goal) && AllActive(active, q)
      invariant multiset(values[..]) == multiset(old(values[..]))
      invariant Units(p) <= Units(q) <= Units(p) + |Misplaced(route)| - |Misplaced(next)|
      invariant forall i :: 0 <= i < |route| && route[i] == i ==> next[i] == i
      decreases |Misplaced(next)|
    {
      assert position in Misplaced(next);
      go, q := Tick(active, q);
      if !go { return; }
      next := SwapHome(values, next, position, goal);
    }
  }

  /** Apply the permutation to the values in place, with at most one swap for each value. */
  method ApplyCycles<T>(values: array<T>, active: nat -> bool, route: seq<nat>, p: Poll, ghost goal: seq<T>)
    returns (go: bool, q: Poll)
    requires Routed(values[..], route, goal) && AllActive(active, p)
    modifies values
    ensures multiset(values[..]) == multiset(old(values[..]))
    ensures if go then AllActive(active, q) && values[..] == goal
            else Stopped(active, q) && q.work == 0 && Units(p) < Units(q)
    ensures Units(p) <= Units(q) <= Units(p) + values.Length
  {
    var next := route;
    q, go := p, true;
    SmallSet(Misplaced(route), |route|);
    for position := 0 to values.Length
      invariant Routed(values[..], next, goal) && AllActive(active, q)
      invariant multiset(values[..]) == multiset(old(values[..]))
      invariant Units(p) <= Units(q) <= Units(p) + values.Length - |Misplaced(next)|
      invariant forall i :: 0 <= i < position ==> next[i] == i
    {
      go, next, q := FinishCycle(values, active, next, position, q, goal);
      if !go { return; }
    }
  }

  method BuildIndices(active: nat -> bool, len: nat, p: Poll) returns (go: bool, current: seq<nat>, q: Poll)
    requires AllActive(active, p)
    ensures Worked(active, p, go, q, len)
    ensures go ==> current == Iota(len)
  {
    current, q, go := [], p, true;
    for index := 0 to len
      invariant Worked(active, p, true, q, index) && current == Iota(index)
    {
      go, q := Tick(active, q);
      if !go { return; }
      current := current + [index];
    }
  }

  method MergeAll<T>(values: array<T>, compare: Compare<T>, active: nat -> bool, indices: seq<nat>,
                     p: Poll, ghost v: seq<T>)
    returns (go: bool, current: seq<nat>, q: Poll)
    requires v == values[..] && InRange(v, indices) && |indices| <= USIZE_MAX && AllActive(active, p)
    ensures Worked(active, p, go, q, MergeWork(|indices|, 1))
    ensures go ==> current == Passes(v, compare, indices, 1)
  {
    ghost var n, work, goal := |indices|, MergeWork(|indices|, 1), Passes(v, compare, indices, 1);
    var width := 1;
    current, q, go := indices, p, true;
    while width < |current|
      invariant 0 < width && |current| == n && InRange(v, current) && AllActive(active, q)
      invariant Units(p) <= Units(q) == Units(p) + work - MergeWork(n, width)
      invariant Passes(v, compare, current, width) == goal
      decreases n - width
    {
      go, current, q := MergePass(values, compare, active, current, width, q, v);
      if !go { return; }
      width := SaturatingAdd(width, width);
    }
  }

  lemma RouteOfInverse<T>(v: seq<T>, p: seq<nat>, next: seq<nat>)
    requires InRange(v, p) && multiset(p) == multiset(Iota(|v|)) && |p| == |next| == |v|
    requires forall k :: 0 <= k < |p| ==> next[p[k]] == k
    ensures Routed(v, next, Arrange(v, p))
  {
    PermutationFacts(p, |v|);
    forall i | 0 <= i < |v|
      ensures next[i] < |v| && p[next[i]] == i
    {
      assert i in p;
      var k :| 0 <= k < |p| && p[k] == i;
    }
  }

  /** Everything up to the first write to the values: the order, and where each value has to go. */
  method ComputeRoute<T(!new)>(values: array<T>, compare: Compare<T>, active: nat -> bool,
                               firstFits: bool, secondFits: bool, p: Poll, ghost v: seq<T>)
    returns (r: Outcome, next: seq<nat>, q: Poll)
    requires v == values[..] && |v| <= USIZE_MAX && AllActive(active, p)
    ensures !r.Allocation? ==> Worked(active, p, r.Sorted?, q, RouteWork(|v|))
    ensures r.Sorted? ==> Routed(v, next, Arrange(v, SortIndices(v, compare))) && firstFits && secondFits
    ensures r.Allocation? ==> !(firstFits && secondFits) && AllActive(active, q)
    ensures r.Allocation? ==> Units(p) <= Units(q) <= Units(p) + RouteWork(|v|)
  {
    var go, current;
    next, q := [], p;
    if !firstFits { return Allocation, next, q; }
    go, current, q := BuildIndices(active, values.Length, q);
    if !go { return Interrupted, next, q; }
    if !secondFits { return Allocation, next, q; }
    go, current, q := MergeAll(values, compare, active, current, q, v);
    if !go { return Interrupted, next, q; }
    PassesMultiset(v, compare, Iota(|v|), 1);
    go, next, q := Invert(active, current, q);
    if !go { return Interrupted, next, q; }
    RouteOfInverse(v, current, next);
    r := Sorted;
  }

  /** Find the order, then put the values into it. */
  method SortPolled<T(!new)>(values: array<T>, compare: Compare<T>, active: nat -> bool,
                             firstFits: bool, secondFits: bool, p: Poll, ghost work: nat)
    returns (r: Outcome, q: Poll)
    requires values.Length <= USIZE_MAX && AllActive(active, p) && work == RouteWork(values.Length)
    modifies values
    ensures multiset(values[..]) == multiset(old(values[..]))
    ensures r.Sorted? ==> values[..] == Arrange(old(values[..]), SortIndices(old(values[..]), compare))
    ensures r.Sorted? ==> firstFits && secondFits && Units(p) + work + INTERRUPT_CHECK_INTERVAL <= Units(q)
    ensures if r.Interrupted? then Stopped(active, q) else AllActive(active, q)
    ensures r.Interrupted? && INTERRUPT_CHECK_INTERVAL * (q.calls - 1) <= Units(p) + work ==>
            values[..] == old(values[..])
    ensures r.Allocation? ==> values[..] == old(values[..]) && !(firstFits && secondFits)
    ensures Units(p) <= Units(q) <= Units(p) + work + values.Length + INTERRUPT_CHECK_INTERVAL
  {
    ghost var v := values[..];
    var next, go;
    r, next, q := ComputeRoute(values, compare, active, firstFits, secondFits, p, v);
    if !r.Sorted? { return; }
    go, q := ApplyCycles(values, active, next, q, Arrange(v, SortIndices(v, compare)));
    if !go { return Interrupted, q; }
    go, q := Ask(active, q);
    r := if go then Sorted else Interrupted;
  }

  /** The whole sort.  `active(c)` answers the `c`-th poll; the two flags say whether the index arrays could be
      allocated.  It stops at the first poll that says so.  If that poll comes before the work of finding the order
      is done, or if memory is short, the values are untouched; and no sort succeeds without the polls this work and
      its end ask for. */
  method StableSortInterruptible<T(!new)>(values: array<T>, compare: Compare<T>, active: nat -> bool,
                                          firstFits: bool, secondFits: bool)
    returns (r: Outcome, q: Poll)
    requires values.Length <= USIZE_MAX
    modifies values
    ensures multiset(values[..]) == multiset(old(values[..]))
    ensures r.Sorted? ==> values[..] == Arrange(old(values[..]), SortIndices(old(values[..]), compare))
    ensures r.Sorted? && TotalPreorder(compare) ==> StablySorted(old(values[..]), values[..], compare)
    ensures r.Sorted? && values.Length >= 2 ==> firstFits && secondFits
    ensures r.Sorted? && values.Length >= 2 ==> RouteWork(values.Length) + INTERRUPT_CHECK_INTERVAL <= Units(q)
    ensures q.calls > 0 && if r.Interrupted? then Stopped(active, q) else AllActive(active, q)
    ensures r.Interrupted? && INTERRUPT_CHECK_INTERVAL * (q.calls - 1) <= RouteWork(values.Length) ==>
            values[..] == old(values[..])
    ensures r.Allocation? ==> values[..] == old(values[..]) && !(firstFits && secondFits) && values.Length >= 2
    ensures Units(q) <= RouteWork(values.Length) + values.Length + INTERRUPT_CHECK_INTERVAL
  {
    ghost var v, work := values[..], RouteWork(values.Length);
    var go;
    if TotalPreorder(compare) { SortIndicesStable(v, compare); }
    go, q := Ask(active, Poll(0, 0));
    if !go {
      r := Interrupted;
    } else if values.Length < 2 {
      assert values[..] == Arrange(v, Iota(|v|));
      r := Sorted;
    } else {
      r, q := SortPolled(values, compare, active, firstFits, secondFits, q, work);
    }
  }
}
