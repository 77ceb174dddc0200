/**
 The purge worker: its two queues, the rows it claims, and when it retries.

 Store and filesystem answers are inputs.  A store call may be refused, or take
 effect and lose its answer; a claim that fails is taken to change nothing.
 Between two rounds of the loop others may add, ready and remove rows, but
 only the worker ever makes a row Claimed or touches a Claimed one.
 */
module PurgeWorker {
  import opened Wrappers
  import opened Arithmetic
  import opened DeleteProtocol

  type Key = nat

  const ACTIVE_CAPACITY: nat := 64
  const RETRY_BASE_MS: nat := 100
  const RETRY_MAX_MS: nat := 30_000

  // ----- Retry delays

  function RetryDelay(failures: nat): (ms: nat) {
    Min(RETRY_BASE_MS * Pow2(Min(SaturatingSub(failures, 1), 16)), RETRY_MAX_MS)
  }

  /** Delays start at the base, never shrink, double until the cap, and stay at the cap from the tenth failure on. */
  lemma RetryDelayBacksOff(failures: nat)
    ensures RETRY_BASE_MS <= RetryDelay(failures) <= RETRY_MAX_MS
    ensures failures <= 1 ==> RetryDelay(failures) == RETRY_BASE_MS
    ensures RetryDelay(failures) <= RetryDelay(failures + 1)
    ensures 1 <= failures < 9 ==> RetryDelay(failures + 1) == 2 * RetryDelay(failures)
    ensures failures >= 10 <==> RetryDelay(failures) == RETRY_MAX_MS
  {
    var e := Min(SaturatingSub(failures, 1), 16);
    assert Pow2(8) == 256 && Pow2(9) == 512;
    Pow2Grows(0, e);
    Pow2Grows(e, e + 1);
    if failures < 10 { Pow2Grows(e, 8); } else { Pow2Grows(9, e); }
  }

  // ----- The retry queue

  /** A claimed job whose next state could not be recorded, kept for a retry in this process. */
  datatype Retry = Retry(due: nat, key: Key, failures: nat)

  ghost predicate Sorted(retries: seq<Retry>) {
    forall i, j :: 0 <= i < j < |retries| ==> retries[i].due <= retries[j].due
  }

  /** In a sorted queue it is enough to look at the front: if that is not due, nothing is. */
  lemma FrontIsFirstDue(retries: seq<Retry>, now: nat)
    requires Sorted(retries) && retries != []
    ensures retries[0].due <= now <==> exists i :: 0 <= i < |retries| && retries[i].due <= now
  {
  }

  /** Insert behind everything that is due no later. */
  function Inserted(retries: seq<Retry>, r: Retry): (out: seq<Retry>) {
    if retries == [] || retries[0].due > r.due then [r] + retries
    else [retries[0]] + Inserted(retries[1..], r)
  }

  lemma {:induction false} InsertedSorted(retries: seq<Retry>, r: Retry)
    requires Sorted(retries)
    ensures Sorted(Inserted(retries, r)) && |Inserted(retries, r)| == |retries| + 1
    ensures forall x :: x in Inserted(retries, r) <==> x == r || x in retries
  {
    if retries != [] && retries[0].due <= r.due {
      InsertedSorted(retries[1..], r);
      var rest := Inserted(retries[1..], r);
      forall i | 0 <= i < |rest|
        ensures retries[0].due <= rest[i].due
      {
        assert rest[i] in rest;
      }
      assert forall x :: x in retries <==> x == retries[0] || x in retries[1..];
    }
  }

  lemma {:induction false} InsertedAtPosition(retries: seq<Retry>, r: Retry, p: nat)
    requires p <= |retries| && (forall i :: 0 <= i < p ==> retries[i].due <= r.due)
    requires p < |retries| ==> retries[p].due > r.due
    ensures Inserted(retries, r) == retries[..p] + [r] + retries[p..]
  {
    if p > 0 {
      InsertedAtPosition(retries[1..], r, p - 1);
      assert retries[1..][..p - 1] == retries[1..p];
      assert retries[..p] == [retries[0]] + retries[1..p];
    }
  }

  // ----- The rows

  datatype Task = Durable(key: Key) | OrphanEntry

  datatype Signal = Wake | OrphanFound

  /** A row as the worker sees it: its stage, when it may be claimed again, and how often it was put off. */
  datatype Job = Job(stage: Stage, due: nat, attempts: nat)

  type Rows = map<Key, Job>

  predicate IsClaimed(rows: Rows, key: Key) {
    key in rows && rows[key].stage.Claimed?
  }

  /** The rows the store may hand out. */
  function DueKeys(rows: Rows, now: nat): (keys: set<Key>) {
    set k | k in rows && rows[k].stage.Ready? && rows[k].due <= now
  }

  function CompletedRows(rows: Rows, key: Key, call: Call): (after: Rows) {
    if Applied(call) && IsClaimed(rows, key) then rows - {key} else rows
  }

  /** Put the job off, for longer every time. */
  function RetriedRows(rows: Rows, key: Key, now: nat, call: Call): (after: Rows) {
    if Applied(call) && IsClaimed(rows, key)
    then var failures := rows[key].attempts + 1; rows[key := Job(Ready, now + RetryDelay(failures), failures)]
    else rows
  }

  /** No row became Claimed, and only `key` may have stopped being Claimed. */
  ghost predicate OnlySettles(before: Rows, after: Rows, key: Key) {
    && (forall k :: IsClaimed(after, k) ==> IsClaimed(before, k))
    && (forall k :: k != key && IsClaimed(before, k) ==> IsClaimed(after, k))
  }

  // ----- Opening and processing a job

  datatype Capture = Captured | CapturedOther | CaptureMissing | CaptureInvalid | CaptureFails

  /** What opening a claimed job meets: does its path resolve, has it a revision, what is at the trash name,
      does the move to quarantine succeed, and how does the final store call go. */
  datatype OpenAnswers = OpenAnswers(resolves: bool, hasRevision: bool, capture: Capture, hides: bool, call: Call)

  datatype Opened = OpenedWork | Released | Failure

  datatype Slice = SliceDone | SlicePending | SliceInvalid | SliceFails

  /** The job is over for the worker only if the store said so, and said that the row was still there. */
  function AfterQuarantine(rows: Rows, key: Key, hides: bool, call: Call): (r: (Rows, Opened)) {
    if !hides then (rows, Failure)
    else (CompletedRows(rows, key, call), if call.Fine? && IsClaimed(rows, key) then Released else Failure)
  }

  function AfterDefer(rows: Rows, key: Key, now: nat, call: Call): (r: (Rows, Opened)) {
    (RetriedRows(rows, key, now, call), if call.Fine? && IsClaimed(rows, key) then Released else Failure)
  }

  function AfterComplete(rows: Rows, key: Key, call: Call): (r: (Rows, Opened)) {
    (CompletedRows(rows, key, call), if call.Fine? then Released else Failure)
  }

  function AfterOpen(rows: Rows, key: Key, now: nat, a: OpenAnswers): (r: (Rows, Opened)) {
    if !a.resolves then (rows, Failure)
    else if !a.hasRevision then AfterQuarantine(rows, key, a.hides, a.call)
    else
      match a.capture
      case Captured => (rows, OpenedWork)
      case CapturedOther => AfterQuarantine(rows, key, a.hides, a.call)
      case CaptureMissing => AfterComplete(rows, key, a.call)
      case CaptureInvalid => AfterQuarantine(rows, key, a.hides, a.call)
      case CaptureFails => AfterDefer(rows, key, now, a.call)
  }

  function AfterSlice(rows: Rows, key: Key, now: nat, slice: Slice, hides: bool, call: Call): (r: (Rows, Opened)) {
    match slice
    case SliceDone => AfterComplete(rows, key, call)
    case SlicePending => (rows, OpenedWork)
    case SliceInvalid => AfterQuarantine(rows, key, hides, call)
    case SliceFails => AfterDefer(rows, key, now, call)
  }

  /** A job that is neither opened nor handed back as a failure is no longer Claimed. */
  lemma OpenSettles(rows: Rows, key: Key, now: nat, a: OpenAnswers)
    ensures var (after, r) := AfterOpen(rows, key, now, a);
            OnlySettles(rows, after, key) && (r.Released? ==> !IsClaimed(after, key))
  {
  }

  lemma SliceSettles(rows: Rows, key: Key, now: nat, slice: Slice, hides: bool, call: Call)
    ensures var (after, r) := AfterSlice(rows, key, now, slice, hides, call);
            OnlySettles(rows, after, key) && (r.Released? ==> !IsClaimed(after, key))
  {
  }

  /** Why a row may go: nothing was at the trash name, the purge is finished, or the entry was moved to quarantine. */
  predicate MayComplete(a: OpenAnswers) {
    && a.resolves && Applied(a.call)
    && if a.hasRevision && a.capture.CaptureMissing? then true
       else a.hides && (!a.hasRevision || a.capture.CapturedOther? || a.capture.CaptureInvalid?)
  }

  /** The row is as it was, or was put off once more: it may be claimed again after the delay for its attempts. */
  ghost predicate KeptOrPutOff(before: Rows, after: Rows, key: Key, now: nat)
    requires key in before
  {
    key in after &&
    (after == before ||
     (var n := before[key].attempts + 1;
      after == before[key := Job(Ready, now + RetryDelay(n), n)] && RETRY_BASE_MS <= RetryDelay(n)))
  }

  /** Only the job's own entry, with a stored revision and a path that resolves, is ever opened for purging; a claimed
      row goes exactly when it may; and an entry that cannot be captured puts the job off. */
  lemma OpensOnlyItsOwn(rows: Rows, key: Key, now: nat, a: OpenAnswers)
    requires IsClaimed(rows, key)
    ensures var (after, r) := AfterOpen(rows, key, now, a);
            && (r.OpenedWork? <==> a.resolves && a.hasRevision && a.capture.Captured?)
            && (MayComplete(a) <==> after == rows - {key})
            && (!MayComplete(a) ==> KeptOrPutOff(rows, after, key, now))
            && (key in after && !IsClaimed(after, key) <==>
                a.resolves && a.hasRevision && a.capture.CaptureFails? && Applied(a.call))
  {
    RetryDelayBacksOff(rows[key].attempts + 1);
    assert key in rows && key !in rows - {key};
  }

  /** The same for a slice: the job stays open exactly while there is more to purge. */
  lemma SliceClosesIt(rows: Rows, key: Key, now: nat, slice: Slice, hides: bool, call: Call)
    requires IsClaimed(rows, key)
    ensures var (after, r) := AfterSlice(rows, key, now, slice, hides, call);
            var goes := Applied(call) && (slice.SliceDone? || (slice.SliceInvalid? && hides));
            && (r.OpenedWork? <==> slice.SlicePending?)
            && (goes <==> after == rows - {key}) && (!goes ==> KeptOrPutOff(rows, after, key, now))
            && (key in after && !IsClaimed(after, key) <==> slice.SliceFails? && Applied(call))
  {
    RetryDelayBacksOff(rows[key].attempts + 1);
    assert key in rows && key !in rows - {key};
  }

  // ----- The loop's state

  datatype Loop = Loop(rows: Rows, pending: seq<Task>, retries: seq<Retry>)

  predicate HasRoom(l: Loop) {
    |l.pending| + |l.retries| < ACTIVE_CAPACITY
  }

  ghost predicate Holds(l: Loop, key: Key) {
    Durable(key) in l.pending || exists r :: r in l.retries && r.key == key
  }

  /** Every Claimed row is in one of the queues, except those in hand. */
  ghost predicate Owns(l: Loop, inHand: set<Key>) {
    forall k :: IsClaimed(l.rows, k) ==> k in inHand || Holds(l, k)
  }

  ghost predicate Good(l: Loop) {
    |l.pending| + |l.retries| <= ACTIVE_CAPACITY && Sorted(l.retries) && Owns(l, {})
  }

  /** The job goes to the queue it belongs to, or to none. */
  function Placed(l: Loop, now: nat, key: Key, r: Opened, localFailures: nat): (n: Loop) {
    match r
    case OpenedWork => l.(pending := l.pending + [Durable(key)])
    case Released => l
    case Failure =>
      var failures := if localFailures < 1 then 1 else localFailures;
      l.(retries := Inserted(l.retries, Retry(now + RetryDelay(failures), key, failures)))
  }

  lemma PlacedGood(l: Loop, now: nat, key: Key, r: Opened, localFailures: nat)
    requires HasRoom(l) && Sorted(l.retries) && Owns(l, {key}) && (r.Released? ==> !IsClaimed(l.rows, key))
    ensures Good(Placed(l, now, key, r, localFailures))
  {
    var n := Placed(l, now, key, r, localFailures);
    if r.Failure? {
      var failures := if localFailures < 1 then 1 else localFailures;
      var retry := Retry(now + RetryDelay(failures), key, failures);
      InsertedSorted(l.retries, retry);
      assert retry in n.retries;
    }
    forall k | IsClaimed(n.rows, k)
      ensures Holds(n, k)
    {
      if k != key && Durable(k) !in l.pending {
        var x :| x in l.retries && x.key == k;
        assert x in n.retries;
      }
    }
  }

  // ----- One step each

  /** Take what the signal channel holds, as far as there is room. */
  function Received(l: Loop, signals: seq<Signal>): (n: Loop)
    decreases |signals|
  {
    if !HasRoom(l) || signals == [] then l
    else Received(if signals[0].OrphanFound? then l.(pending := l.pending + [OrphanEntry]) else l, signals[1..])
  }

  lemma {:induction false} ReceivedGood(l: Loop, signals: seq<Signal>)
    requires Good(l)
    ensures Good(Received(l, signals))
    decreases |signals|
  {
    if HasRoom(l) && signals != [] {
      var n := if signals[0].OrphanFound? then l.(pending := l.pending + [OrphanEntry]) else l;
      assert forall k :: Holds(l, k) ==> Holds(n, k);
      ReceivedGood(n, signals[1..]);
    }
  }

  function OrphansIn(signals: seq<Signal>): (tasks: seq<Task>) {
    if signals == [] then []
    else OrphansIn(signals[..|signals| - 1]) + if signals[|signals| - 1].OrphanFound? then [OrphanEntry] else []
  }

  lemma {:induction false} OrphansSplit(first: Signal, rest: seq<Signal>)
    ensures OrphansIn([first] + rest) == (if first.OrphanFound? then [OrphanEntry] else []) + OrphansIn(rest)
  {
    var all := [first] + rest;
    if rest == [] {
      assert all[..0] == [] && OrphansIn([]) == [];
    } else {
      assert all[..|all| - 1] == [first] + rest[..|rest| - 1];
      OrphansSplit(first, rest[..|rest| - 1]);
    }
  }

  /** Every orphan that was announced is queued, in order, as far as there is room. */
  lemma {:induction false} ReceivesWhatFits(l: Loop, signals: seq<Signal>) returns (taken: nat)
    ensures taken <= |signals| && (taken == |signals| || !HasRoom(Received(l, signals)))
    ensures Received(l, signals) == l.(pending := l.pending + OrphansIn(signals[..taken]))
    decreases |signals|
  {
    if !HasRoom(l) || signals == [] {
      taken := 0;
      assert signals[..0] == [];
    } else {
      var n := if signals[0].OrphanFound? then l.(pending := l.pending + [OrphanEntry]) else l;
      var more := ReceivesWhatFits(n, signals[1..]);
      taken := more + 1;
      assert signals[..taken] == [signals[0]] + signals[1..][..more];
      OrphansSplit(signals[0], signals[1..][..more]);
    }
  }

  /** Retry the first retained job if it is due; `reload` tells whether its row could be read. */
  function DueRetried(l: Loop, now: nat, reload: bool, a: OpenAnswers): (n: Loop) {
    if |l.pending| < ACTIVE_CAPACITY && l.retries != [] && l.retries[0].due <= now then
      var retry, rest := l.retries[0], l.(retries := l.retries[1..]);
      if !reload then Placed(rest, now, retry.key, Failure, retry.failures + 1)
      else if !IsClaimed(l.rows, retry.key) then rest
      else
        var (rows, r) := AfterOpen(l.rows, retry.key, now, a);
        Placed(rest.(rows := rows), now, retry.key, r, retry.failures + 1)
    else l
  }

  /** A retained job is not touched before it is due; if it fails again it waits longer, as its failures say. */
  lemma RetainedWaits(l: Loop, now: nat, reload: bool, a: OpenAnswers)
    requires l.retries != [] && |l.pending| < ACTIVE_CAPACITY
    ensures var n, first := DueRetried(l, now, reload, a), l.retries[0];
            if first.due > now then n == l
            else if reload && !IsClaimed(l.rows, first.key) then n == l.(retries := l.retries[1..])
            else if !reload || AfterOpen(l.rows, first.key, now, a).1.Failure?
            then Retry(now + RetryDelay(first.failures + 1), first.key, first.failures + 1) in n.retries
            else n.retries == l.retries[1..]
    ensures forall x :: x in l.retries[1..] ==> x in DueRetried(l, now, reload, a).retries
  {
    var first := l.retries[0];
    InsertedKeeps(l.retries[1..], Retry(now + RetryDelay(first.failures + 1), first.key, first.failures + 1));
  }

  lemma {:induction false} InsertedKeeps(retries: seq<Retry>, r: Retry)
    ensures forall x :: x in Inserted(retries, r) <==> x == r || x in retries
  {
    if retries != [] && retries[0].due <= r.due {
      InsertedKeeps(retries[1..], r);
      assert retries == [retries[0]] + retries[1..];
    }
  }

  lemma DueRetriedGood(l: Loop, now: nat, reload: bool, a: OpenAnswers)
    requires Good(l)
    ensures Good(DueRetried(l, now, reload, a))
  {
    if |l.pending| < ACTIVE_CAPACITY && l.retries != [] && l.retries[0].due <= now {
      var retry, rest := l.retries[0], l.(retries := l.retries[1..]);
      assert Owns(rest, {retry.key}) by {
        assert forall x :: x in l.retries ==> x == retry || x in rest.retries;
      }
      if !reload {
        PlacedGood(rest, now, retry.key, Failure, retry.failures + 1);
      } else if IsClaimed(l.rows, retry.key) {
        var (rows, r) := AfterOpen(l.rows, retry.key, now, a);
        OpenSettles(l.rows, retry.key, now, a);
        assert forall k :: Holds(rest, k) ==> Holds(rest.(rows := rows), k);
        PlacedGood(rest.(rows := rows), now, retry.key, r, retry.failures + 1);
      }
    }
  }

  /** How the store answers the claims of a round: which of the due jobs it hands out, which call fails if any, and
      what opening each job meets. */
  datatype Claims = Claims(choose: set<Key> -> Key, failsAt: Option<nat>, open: Key -> OpenAnswers)

  ghost predicate Chooses(choose: set<Key> -> Key) {
    forall keys :: keys != {} ==> choose(keys) in keys
  }

  /** Claim a job and open it. */
  function ClaimedOne(l: Loop, now: nat, key: Key, a: OpenAnswers): (n: Loop)
    requires key in l.rows
  {
    var (rows, r) := AfterOpen(l.rows[key := l.rows[key].(stage := Claimed)], key, now, a);
    Placed(l.(rows := rows), now, key, r, 1)
  }

  /** A job that was claimed is not due again in the same round. */
  lemma ClaimedIsNotDue(l: Loop, now: nat, key: Key, a: OpenAnswers)
    requires key in DueKeys(l.rows, now)
    ensures DueKeys(ClaimedOne(l, now, key, a).rows, now) == DueKeys(l.rows, now) - {key}
    ensures |DueKeys(ClaimedOne(l, now, key, a).rows, now)| == |DueKeys(l.rows, now)| - 1
  {
    RetryDelayBacksOff(l.rows[key].attempts + 1);
  }

  /** A job that is claimed and whose own entry is there is marked as claimed and queued for purging. */
  lemma ClaimQueues(l: Loop, now: nat, key: Key, a: OpenAnswers)
    requires key in l.rows && a.resolves && a.hasRevision && a.capture.Captured?
    ensures var n := ClaimedOne(l, now, key, a);
            IsClaimed(n.rows, key) && n.pending == l.pending + [Durable(key)] && n.retries == l.retries
  {
  }

  /** Claim due jobs one by one until there is no room, none left or the store fails. */
  function DueClaimed(l: Loop, now: nat, c: Claims, made: nat): (n: Loop)
    requires Chooses(c.choose)
    decreases |DueKeys(l.rows, now)|
  {
    var due := DueKeys(l.rows, now);
    if !HasRoom(l) || c.failsAt == Some(made) || due == {} then l
    else
      var key := c.choose(due);
      ClaimedIsNotDue(l, now, key, c.open(key));
      DueClaimed(ClaimedOne(l, now, key, c.open(key)), now, c, made + 1)
  }

  lemma ClaimedOneGood(l: Loop, now: nat, key: Key, a: OpenAnswers)
    requires Good(l) && HasRoom(l) && key in l.rows
    ensures Good(ClaimedOne(l, now, key, a))
  {
    var claimed := l.rows[key := l.rows[key].(stage := Claimed)];
    var (rows, r) := AfterOpen(claimed, key, now, a);
    OpenSettles(claimed, key, now, a);
    assert forall k :: Holds(l, k) ==> Holds(l.(rows := rows), k);
    PlacedGood(l.(rows := rows), now, key, r, 1);
  }

  lemma {:induction false} DueClaimedGood(l: Loop, now: nat, c: Claims, made: nat)
    requires Good(l) && Chooses(c.choose)
    ensures Good(DueClaimed(l, now, c, made))
    decreases |DueKeys(l.rows, now)|
  {
    var due := DueKeys(l.rows, now);
    if HasRoom(l) && c.failsAt != Some(made) && due != {} {
      var key := c.choose(due);
      ClaimedIsNotDue(l, now, key, c.open(key));
      ClaimedOneGood(l, now, key, c.open(key));
      DueClaimedGood(ClaimedOne(l, now, key, c.open(key)), now, c, made + 1);
    }
  }

  /** The worker stops claiming only when it is full, when a call of the store fails or when nothing is due; every
      claim it made took one job off what was due. */
  lemma {:induction false} ClaimsAllItCan(l: Loop, now: nat, c: Claims, made: nat) returns (total: nat)
    requires Chooses(c.choose)
    ensures var n := DueClaimed(l, now, c, made);
            && made <= total && total - made == |DueKeys(l.rows, now)| - |DueKeys(n.rows, now)|
            && (!HasRoom(n) || c.failsAt == Some(total) || DueKeys(n.rows, now) == {})
    decreases |DueKeys(l.rows, now)|
  {
    var due := DueKeys(l.rows, now);
    if !HasRoom(l) || c.failsAt == Some(made) || due == {} {
      total := made;
    } else {
      var key := c.choose(due);
      ClaimedIsNotDue(l, now, key, c.open(key));
      total := ClaimsAllItCan(ClaimedOne(l, now, key, c.open(key)), now, c, made + 1);
    }
  }

  /** Nothing is claimed, and no row is changed, but of jobs that are Ready and due. */
  lemma {:induction false} ClaimsOnlyDue(l: Loop, now: nat, c: Claims, made: nat, k: Key)
    requires Chooses(c.choose) && k in l.rows && !(l.rows[k].stage.Ready? && l.rows[k].due <= now)
    ensures var n := DueClaimed(l, now, c, made); k in n.rows && n.rows[k] == l.rows[k]
    decreases |DueKeys(l.rows, now)|
  {
    var due := DueKeys(l.rows, now);
    if HasRoom(l) && c.failsAt != Some(made) && due != {} {
      var key := c.choose(due);
      ClaimedIsNotDue(l, now, key, c.open(key));
      ClaimsOnlyDue(ClaimedOne(l, now, key, c.open(key)), now, c, made + 1, k);
    }
  }

  /** One purge slice of the first pending task. */
  function FirstProcessed(l: Loop, now: nat, slice: Slice, hides: bool, call: Call): (n: Loop)
    requires l.pending != []
  {
    var task, rest := l.pending[0], l.(pending := l.pending[1..]);
    if task.OrphanEntry? then (if slice.SlicePending? then rest.(pending := rest.pending + [OrphanEntry]) else rest)
    else
      var (rows, r) := AfterSlice(l.rows, task.key, now, slice, hides, call);
      Placed(rest.(rows := rows), now, task.key, r, 1)
  }

  /** An orphan stays queued, at the end, exactly while there is more of it to purge; no row is touched for it. */
  lemma OrphanGoesOn(l: Loop, now: nat, slice: Slice, hides: bool, call: Call)
    requires l.pending != [] && l.pending[0].OrphanEntry?
    ensures var n := FirstProcessed(l, now, slice, hides, call);
            && n.rows == l.rows && n.retries == l.retries
            && n.pending == l.pending[1..] + (if slice.SlicePending? then [OrphanEntry] else [])
  {
  }

  lemma FirstProcessedGood(l: Loop, now: nat, slice: Slice, hides: bool, call: Call)
    requires Good(l) && l.pending != []
    ensures Good(FirstProcessed(l, now, slice, hides, call))
  {
    var task, rest := l.pending[0], l.(pending := l.pending[1..]);
    assert forall t :: t in l.pending ==> t == task || t in rest.pending;
    if task.OrphanEntry? {
      assert forall k :: Holds(l, k) ==> Holds(FirstProcessed(l, now, slice, hides, call), k);
    } else {
      var (rows, r) := AfterSlice(l.rows, task.key, now, slice, hides, call);
      SliceSettles(l.rows, task.key, now, slice, hides, call);
      assert Owns(rest.(rows := rows), {task.key}) by {
        assert forall k :: k != task.key && Holds(l, k) ==> Holds(rest.(rows := rows), k);
      }
      PlacedGood(rest.(rows := rows), now, task.key, r, 1);
    }
  }

  // ----- Rounds

  /** What others do to the rows: never to a Claimed one, and never to Claimed. */
  ghost predicate OthersMay(before: Rows, after: Rows) {
    forall k :: IsClaimed(before, k) <==> IsClaimed(after, k)
  }

  /** Everything one round of the loop is told. */
  datatype Answers = Answers(
    now: nat, signals: seq<Signal>, reload: bool, open: OpenAnswers, claims: Claims,
    slice: Slice, hides: bool, call: Call, late: seq<Signal>)

  /** The state of a round when it comes to its purge slice. */
  function Gathered(l: Loop, a: Answers): (n: Loop)
    requires Chooses(a.claims.choose)
  {
    DueClaimed(DueRetried(Received(l, a.signals), a.now, a.reload, a.open), a.now, a.claims, 0)
  }

  function Round(l: Loop, a: Answers): (n: Loop)
    requires Chooses(a.claims.choose)
  {
    var n := Gathered(l, a);
    if n.pending != [] then FirstProcessed(n, a.now, a.slice, a.hides, a.call) else Received(n, a.late)
  }

  lemma RoundGood(l: Loop, a: Answers)
    requires Good(l) && Chooses(a.claims.choose)
    ensures Good(Round(l, a))
  {
    ReceivedGood(l, a.signals);
    var m := Received(l, a.signals);
    DueRetriedGood(m, a.now, a.reload, a.open);
    m := DueRetried(m, a.now, a.reload, a.open);
    DueClaimedGood(m, a.now, a.claims, 0);
    m := Gathered(l, a);
    if m.pending != [] { FirstProcessedGood(m, a.now, a.slice, a.hides, a.call); } else { ReceivedGood(m, a.late); }
  }

  /** Rounds of the loop, with others at work on the store in between. */
  ghost predicate IsRun(ls: seq<Loop>, answers: seq<Answers>) {
    && |ls| == |answers| + 1 && ls[0].pending == [] && ls[0].retries == [] && (forall k :: !IsClaimed(ls[0].rows, k))
    && forall i {:trigger answers[i]} :: 0 <= i < |answers| ==> Follows(ls[i], answers[i], ls[i + 1])
  }

  ghost predicate Follows(l: Loop, a: Answers, n: Loop) {
    && Chooses(a.claims.choose) && OthersMay(Round(l, a).rows, n.rows)
    && n == Round(l, a).(rows := n.rows)
  }

  /** However many rounds, and whatever the store and the filesystem answer: every Claimed row is in one of the
      queues, the two hold at most 64 tasks, and the retries are sorted. */
  lemma {:induction false} WorkerKeepsItsClaims(ls: seq<Loop>, answers: seq<Answers>, i: nat)
    requires IsRun(ls, answers) && i < |ls|
    ensures Good(ls[i])
  {
    if i > 0 {
      WorkerKeepsItsClaims(ls, answers, i - 1);
      assert Follows(ls[i - 1], answers[i - 1], ls[i]);
      RoundGood(ls[i - 1], answers[i - 1]);
      var n := Round(ls[i - 1], answers[i - 1]);
      assert forall k :: Holds(n, k) ==> Holds(ls[i], k);
    }
  }

  // ----- Every task gets its turn

  lemma {:induction false} ReceivedBehind(l: Loop, signals: seq<Signal>)
    ensures l.pending <= Received(l, signals).pending
    decreases |signals|
  {
    if HasRoom(l) && signals != [] {
      ReceivedBehind(if signals[0].OrphanFound? then l.(pending := l.pending + [OrphanEntry]) else l, signals[1..]);
    }
  }

  lemma {:induction false} ClaimedBehind(l: Loop, now: nat, c: Claims, made: nat)
    requires Chooses(c.choose)
    ensures l.pending <= DueClaimed(l, now, c, made).pending
    decreases |DueKeys(l.rows, now)|
  {
    var due := DueKeys(l.rows, now);
    if HasRoom(l) && c.failsAt != Some(made) && due != {} {
      var key := c.choose(due);
      ClaimedIsNotDue(l, now, key, c.open(key));
      ClaimedBehind(ClaimedOne(l, now, key, c.open(key)), now, c, made + 1);
    }
  }

  /** New work queues up behind what is pending. */
  lemma GatheredBehind(l: Loop, a: Answers)
    requires Chooses(a.claims.choose)
    ensures l.pending <= Gathered(l, a).pending
  {
    ReceivedBehind(l, a.signals);
    ClaimedBehind(DueRetried(Received(l, a.signals), a.now, a.reload, a.open), a.now, a.claims, 0);
  }

  /** A round moves every pending task but the first one place forward. */
  lemma RoundMovesUp(l: Loop, a: Answers, i: nat)
    requires Chooses(a.claims.choose) && 0 < i < |l.pending|
    ensures i - 1 < |Round(l, a).pending| && Round(l, a).pending[i - 1] == l.pending[i]
  {
    GatheredBehind(l, a);
  }

  /** Fairness: pending task `i` gets the purge slice of the `i`-th round from now, whatever the store and the
      filesystem answer and however much work comes in. */
  lemma {:induction false} EveryTaskGetsItsTurn(ls: seq<Loop>, answers: seq<Answers>, n: nat, i: nat)
    requires IsRun(ls, answers) && n + i < |answers| && i < |ls[n].pending|
    ensures Chooses(answers[n + i].claims.choose)
    ensures var m := Gathered(ls[n + i], answers[n + i]); m.pending != [] && m.pending[0] == ls[n].pending[i]
    decreases i
  {
    assert Follows(ls[n], answers[n], ls[n + 1]);
    if i == 0 {
      GatheredBehind(ls[n], answers[n]);
    } else {
      RoundMovesUp(ls[n], answers[n], i);
      EveryTaskGetsItsTurn(ls, answers, n + 1, i - 1);
    }
  }

  // ----- The worker itself

  class Worker {
    var rows: Rows
    var pending: seq<Task>
    var retries: seq<Retry>

    function Now(): (l: Loop)
      reads this
    {
      Loop(rows, pending, retries)
    }

    /** Opening the store has returned every claim. */
    constructor (recovered: Rows)
      requires forall k :: !IsClaimed(recovered, k)
      ensures Good(Now()) && Now() == Loop(recovered, [], [])
    {
      rows, pending, retries := recovered, [], [];
    }

    method CompleteJob(key: Key, call: Call) returns (answer: Option<bool>)
      modifies this`rows
      ensures rows == CompletedRows(old(rows), key, call)
      ensures answer == if call.Fine? then Some(IsClaimed(old(rows), key)) else None
    {
      answer := if call.Fine? then Some(IsClaimed(rows, key)) else None;
      if Applied(call) && IsClaimed(rows, key) { rows := rows - {key}; }
    }

    method RetryJob(key: Key, now: nat, call: Call) returns (answer: Option<bool>)
      modifies this`rows
      ensures rows == RetriedRows(old(rows), key, now, call)
      ensures answer == if call.Fine? then Some(IsClaimed(old(rows), key)) else None
    {
      answer := if call.Fine? then Some(IsClaimed(rows, key)) else None;
      if Applied(call) && IsClaimed(rows, key) {
        var failures := rows[key].attempts + 1;
        rows := rows[key := Job(Ready, now + RetryDelay(failures), failures)];
      }
    }

    method QuarantineClaimed(key: Key, hides: bool, call: Call) returns (r: Opened)
      modifies this`rows
      ensures (rows, r) == AfterQuarantine(old(rows), key, hides, call)
    {
      if !hides { return Failure; }
      var answer := CompleteJob(key, call);
      r := if answer == Some(true) then Released else Failure;
    }

    method Defer(key: Key, now: nat, call: Call) returns (r: Opened)
      modifies this`rows
      ensures (rows, r) == AfterDefer(old(rows), key, now, call)
    {
      var answer := RetryJob(key, now, call);
      r := if answer == Some(true) then Released else Failure;
    }

    method OpenWork(key: Key, now: nat, a: OpenAnswers) returns (r: Opened)
      modifies this`rows
      ensures (rows, r) == AfterOpen(old(rows), key, now, a)
    {
      if !a.resolves { return Failure; }
      if !a.hasRevision {
        r := QuarantineClaimed(key, a.hides, a.call);
        return;
      }
      match a.capture {
        case Captured => r := OpenedWork;
        case CapturedOther => r := QuarantineClaimed(key, a.hides, a.call);
        case CaptureMissing =>
          var answer := CompleteJob(key, a.call);
          r := if answer.Some? then Released else Failure;
        case CaptureInvalid => r := QuarantineClaimed(key, a.hides, a.call);
        case CaptureFails => r := Defer(key, now, a.call);
      }
    }

    /** Keep a claimed job for a retry in this process. */
    method Schedule(now: nat, key: Key, localFailures: nat)
      modifies this`retries
      ensures Now() == Placed(old(Now()), now, key, Failure, localFailures)
    {
      var failures := if localFailures < 1 then 1 else localFailures;
      var retry := Retry(now + RetryDelay(failures), key, failures);
      var position := 0;
      while position < |retries| && retries[position].due <= retry.due
        invariant 0 <= position <= |retries| && retries == old(retries)
        invariant forall i :: 0 <= i < position ==> retries[i].due <= retry.due
      {
        position := position + 1;
      }
      InsertedAtPosition(retries, retry, position);
      retries := retries[..position] + [retry] + retries[position..];
    }

    method Place(now: nat, key: Key, r: Opened, localFailures: nat)
      modifies this`pending, this`retries
      ensures Now() == Placed(old(Now()), now, key, r, localFailures)
    {
      match r
      case OpenedWork => pending := pending + [Durable(key)];
      case Released =>
      case Failure => Schedule(now, key, localFailures);
    }

    method Receive(signals: seq<Signal>)
      modifies this`pending
      ensures Now() == Received(old(Now()), signals)
    {
      var taken := 0;
      while |pending| + |retries| < ACTIVE_CAPACITY && taken < |signals|
        invariant 0 <= taken <= |signals| && rows == old(rows) && retries == old(retries)
        invariant Received(Now(), signals[taken..]) == Received(old(Now()), signals)
        decreases |signals| - taken
      {
        assert signals[taken..][1..] == signals[taken + 1..];
        if signals[taken].OrphanFound? { pending := pending + [OrphanEntry]; }
        taken := taken + 1;
      }
    }

    method RetryDue(now: nat, reload: bool, a: OpenAnswers)
      modifies this
      ensures Now() == DueRetried(old(Now()), now, reload, a)
    {
      if |pending| < ACTIVE_CAPACITY && retries != [] && retries[0].due <= now {
        var retry := retries[0];
        retries := retries[1..];
        if !reload {
          Place(now, retry.key, Failure, retry.failures + 1);
        } else if IsClaimed(rows, retry.key) {
          var r := OpenWork(retry.key, now, a);
          Place(now, retry.key, r, retry.failures + 1);
        }
      }
    }

    method ClaimDue(now: nat, c: Claims)
      requires Chooses(c.choose)
      modifies this
      ensures Now() == DueClaimed(old(Now()), now, c, 0)
    {
      var made := 0;
      while |pending| + |retries| < ACTIVE_CAPACITY
        invariant DueClaimed(Now(), now, c, made) == DueClaimed(old(Now()), now, c, 0)
        decreases |DueKeys(rows, now)|
      {
        var due := DueKeys(rows, now);
        if c.failsAt == Some(made) || due == {} { return; }
        var key := c.choose(due);
        ClaimedIsNotDue(Now(), now, key, c.open(key));
        rows := rows[key := rows[key].(stage := Claimed)];
        var r := OpenWork(key, now, c.open(key));
        Place(now, key, r, 1);
        made := made + 1;
      }
    }

    method ProcessFirst(now: nat, slice: Slice, hides: bool, call: Call)
      requires pending != []
      modifies this
      ensures Now() == FirstProcessed(old(Now()), now, slice, hides, call)
    {
      var task := pending[0];
      pending := pending[1..];
      if task.OrphanEntry? {
        if slice.SlicePending? { pending := pending + [OrphanEntry]; }
        return;
      }
      var r := OpenedWork;
      match slice {
        case SliceDone =>
          var answer := CompleteJob(task.key, call);
          r := if answer.Some? then Released else Failure;
        case SlicePending =>
        case SliceInvalid => r := QuarantineClaimed(task.key, hides, call);
        case SliceFails => r := Defer(task.key, now, call);
      }
      Place(now, task.key, r, 1);
    }

    method RunRound(a: Answers)
      requires Good(Now()) && Chooses(a.claims.choose)
      modifies this
      ensures Now() == Round(old(Now()), a) && Good(Now())
    {
      RoundGood(Now(), a);
      Receive(a.signals);
      RetryDue(a.now, a.reload, a.open);
      ClaimDue(a.now, a.claims);
      if pending != [] {
        ProcessFirst(a.now, a.slice, a.hides, a.call);
      } else {
        Receive(a.late);
      }
    }
  }
}
