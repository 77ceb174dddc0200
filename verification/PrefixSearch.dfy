/**
 The search for the deepest openable prefix of a lexical parent path.

 One full-length probe, then a binary search.  The probes may see the tree
 change between two calls.  On a tree that stands still the answer is the one
 of `LinearScan`, the plain scan from the left.
 */
module PrefixSearch {
  import opened Arithmetic
  import opened Filesystem

  /** Errors that leave an unresolved tail; every other error is reported. */
  predicate Unresolved(e: IoError) {
    e.NotFound? || e.NotADirectory? || e.PermissionDenied?
  }

  datatype Found = Prefix(dir: DirId, len: nat) | Error(error: IoError)

  // ----- The reference

  /** `table[k]` is the answer of the probe of length `k`; scan from `from` to the right. */
  function LinearScan(table: seq<Opened>, from: nat): (r: Found)
    requires from < |table| && table[from].Open?
    ensures r.Prefix? ==> r.len < |table| && table[r.len] == Open(r.dir)
    ensures r.Prefix? && r.len + 1 < |table| ==> table[r.len + 1].Denied?
    decreases |table| - from
  {
    if from + 1 == |table| then Prefix(table[from].dir, from)
    else
      match table[from + 1]
      case Open(_) => LinearScan(table, from + 1)
      case Denied(e) => if Unresolved(e) then Prefix(table[from].dir, from) else Error(e)
  }

  /** A failing prefix fails every longer prefix with the same error. */
  predicate Monotone(table: seq<Opened>) {
    forall i, j :: 0 <= i < j < |table| && table[i].Denied? ==> table[j] == table[i]
  }

  /** The scan skips over every prefix that opens. */
  lemma {:induction false} ScanSkips(table: seq<Opened>, from: nat, upto: nat)
    requires from <= upto < |table|
    requires forall k :: from <= k <= upto ==> table[k].Open?
    ensures LinearScan(table, from) == LinearScan(table, upto)
    decreases upto - from
  {
    if from < upto { ScanSkips(table, from + 1, upto); }
  }

  /** The scan stops short only at a refusal that leaves an unresolved tail. */
  lemma {:induction false} ScanRefusal(table: seq<Opened>, from: nat)
    requires from < |table| && table[from].Open?
    ensures var r := LinearScan(table, from);
            r.Prefix? && r.len + 1 < |table| ==> Unresolved(table[r.len + 1].error)
    decreases |table| - from
  {
    if from + 1 < |table| && table[from + 1].Open? { ScanRefusal(table, from + 1); }
  }

  /** A prefix that opens, with the next one refused, is where the scan stops. */
  lemma ScanStopsAt(table: seq<Opened>, k: nat, d: DirId)
    requires k < |table| && Monotone(table) && table[k] == Open(d)
    requires k + 1 < |table| ==> table[k + 1].Denied? && Unresolved(table[k + 1].error)
    ensures table[0].Open? && LinearScan(table, 0) == Prefix(d, k)
  {
    assert forall i :: 0 <= i < k && table[i].Denied? ==> table[k] == table[i];
    ScanSkips(table, 0, k);
  }

  /** A failure that must be reported is the answer of the scan. */
  lemma {:induction false} ScanReports(table: seq<Opened>, from: nat, k: nat)
    requires from < k < |table| && table[from].Open? && Monotone(table)
    requires table[k].Denied? && !Unresolved(table[k].error)
    ensures LinearScan(table, from) == Error(table[k].error)
    decreases k - from
  {
    if from + 1 < k {
      if table[from + 1].Open? {
        ScanReports(table, from + 1, k);
      } else {
        assert table[k] == table[from + 1];
      }
    }
  }

  // ----- The search as the code runs it

  /** Both halves of a gap cost one probe less than the gap. */
  lemma HalvingCost(lo: nat, middle: nat, hi: nat)
    requires lo + 2 <= hi && middle == lo + (hi - lo) / 2
    ensures lo < middle < hi
    ensures 1 + CeilLog2(middle - lo) <= CeilLog2(hi - lo)
    ensures 1 + CeilLog2(hi - middle) <= CeilLog2(hi - lo)
  {
    assert hi - middle == (hi - lo + 1) / 2;
    CeilLog2Monotone(middle - lo, hi - middle);
  }

  /** One probe and what it answered. */
  datatype Probe = Probe(len: nat, answer: Opened)

  /** No answer was an error that must be reported. */
  predicate AllPassed(log: seq<Probe>) {
    forall p :: p in log && p.answer.Denied? ==> Unresolved(p.answer.error)
  }

  /** `log` records what the calls saw, in call order, for prefixes of at most `n` names. */
  ghost predicate Faithful(log: seq<Probe>, n: nat, probe: (nat, nat) -> Opened) {
    forall c :: 0 <= c < |log| ==> 0 < log[c].len <= n && log[c].answer == probe(c, log[c].len)
  }

  /** What the log says about the answer, even while the tree changes: the prefix was seen
      open and one name further was seen refused; or the last probe failed for good. */
  ghost predicate Explains(root: DirId, n: nat, log: seq<Probe>, r: Found) {
    match r
    case Error(e) => |log| > 0 && log[|log| - 1].answer == Denied(e) && !Unresolved(e)
    case Prefix(dir, len) =>
      && len <= n && AllPassed(log)
      && ((len == 0 && dir == root) || Probe(len, Open(dir)) in log)
      && (len < n ==> exists e :: Probe(len + 1, Denied(e)) in log)
  }

  /** Every call sees the same tree, the one described by `table`. */
  ghost predicate Static(root: DirId, n: nat, probe: (nat, nat) -> Opened, table: seq<Opened>) {
    && |table| == n + 1 && table[0] == Open(root) && Monotone(table)
    && forall call: nat, k: nat :: 0 < k < |table| ==> probe(call, k) == table[k]
  }

  /** On a tree that stands still such an answer is the one of the scan. */
  lemma ExplainedIsScan(root: DirId, n: nat, probe: (nat, nat) -> Opened, table: seq<Opened>, log: seq<Probe>, r: Found)
    requires Static(root, n, probe, table) && Faithful(log, n, probe) && Explains(root, n, log, r)
    ensures r == LinearScan(table, 0)
  {
    match r
    case Error(e) =>
      ScanReports(table, 0, log[|log| - 1].len);
    case Prefix(dir, len) =>
      assert table[len] == Open(dir);
      assert forall k :: 0 <= k < len ==> table[k].Open?;
      ScanSkips(table, 0, len);
  }

  /** `probe(c, k)` is what the `c`-th call sees for the prefix of length `k`. */
  method Search(root: DirId, n: nat, probe: (nat, nat) -> Opened, ghost table: seq<Opened>)
    returns (r: Found, log: seq<Probe>)
    ensures Faithful(log, n, probe)
    ensures |log| <= if n == 0 then 0 else 1 + CeilLog2(n)
    ensures Explains(root, n, log, r)
    ensures Static(root, n, probe, table) ==> r == LinearScan(table, 0)
  {
    if n == 0 {
      return Prefix(root, 0), [];
    }
    var first := probe(0, n);
    log := [Probe(n, first)];
    if first.Open? {
      r := Prefix(first.dir, n);
    } else if Unresolved(first.error) {
      r, log := Bisect(root, n, probe, first.error);
    } else {
      r := Error(first.error);
    }
    if Static(root, n, probe, table) {
      ExplainedIsScan(root, n, probe, table, log, r);
    }
  }

  method Bisect(root: DirId, n: nat, probe: (nat, nat) -> Opened, first: IoError)
    returns (r: Found, log: seq<Probe>)
    requires n > 0 && probe(0, n) == Denied(first) && Unresolved(first)
    ensures Faithful(log, n, probe)
    ensures |log| <= 1 + CeilLog2(n)
    ensures Explains(root, n, log, r)
  {
    log := [Probe(n, Denied(first))];
    var lo: nat, hi: nat, dir := 0, n, root;
    ghost var refusal := first;
    while lo + 1 < hi
      invariant lo < hi <= n
      invariant |log| + CeilLog2(hi - lo) <= 1 + CeilLog2(n)
      invariant Faithful(log, n, probe) && AllPassed(log)
      invariant (lo == 0 && dir == root) || Probe(lo, Open(dir)) in log
      invariant Probe(hi, Denied(refusal)) in log
      decreases hi - lo
    {
      var middle := lo + (hi - lo) / 2;
      HalvingCost(lo, middle, hi);
      var answer := probe(|log|, middle);
      log := log + [Probe(middle, answer)];
      if answer.Open? {
        lo, dir := middle, answer.dir;
      } else if Unresolved(answer.error) {
        hi, refusal := middle, answer.error;
      } else {
        return Error(answer.error), log;
      }
    }
    r := Prefix(dir, lo);
  }
}
