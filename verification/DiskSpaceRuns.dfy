/**
 Every interleaving of reservations on one tracker.

 A reservation attempt reads the revision, probes the filesystem without the
 lock, and grants only if the revision is still the one it read.  Owners write
 reserved bytes before they consume them; anyone may free space at any time;
 one free-space floor is in force.
 */
module DiskSpaceRuns {
  import opened Arithmetic
  import opened DiskSpace

  /** `written` are the bytes of `remaining` that already occupy the disk. */
  datatype Reservation = Reservation(device: Device, remaining: nat, pending: nat, written: nat)

  datatype Phase = Reading | Probing(revision: nat) | Deciding(revision: nat, available: nat)

  datatype Attempt = Attempt(device: Device, requested: nat, phase: Phase, tries: nat)

  datatype World = World(
    tracker: Tracker,
    live: map<nat, Reservation>,
    attempts: map<nat, Attempt>,
    free: map<Device, nat>)

  datatype Event =
    | Begin(a: nat, device: Device, requested: nat)
    | ReadRevision(a: nat)
    | Probe(a: nat)
    | ProbeFails(a: nat)
    | Decide(a: nat, r: nat)
    | Write(r: nat, bytes: nat)
    | Consume(r: nat, bytes: nat)
    | Flush(r: nat)
    | Drop(r: nat)
    | Freed(device: Device, bytes: nat)

  function Free(w: World, device: Device): (r: nat) {
    if device in w.free then w.free[device] else 0
  }

  function WithFree(w: World, device: Device, bytes: nat): (r: World) {
    w.(free := w.free[device := bytes])
  }

  predicate Enabled(w: World, e: Event) {
    match e
    case Begin(a, _, requested) => a !in w.attempts && requested <= U64_MAX
    case ReadRevision(a) => a in w.attempts && w.attempts[a].phase.Reading?
    case Probe(a) => a in w.attempts && w.attempts[a].phase.Probing? && Free(w, w.attempts[a].device) <= U64_MAX
    case ProbeFails(a) => a in w.attempts && w.attempts[a].phase.Probing?
    case Decide(a, r) => a in w.attempts && w.attempts[a].phase.Deciding? && r !in w.live
    case Write(r, bytes) =>
      && r in w.live && w.live[r].written + bytes <= w.live[r].remaining
      && bytes <= Free(w, w.live[r].device)
    case Consume(r, bytes) => r in w.live && bytes <= w.live[r].written && bytes <= w.live[r].remaining
    case Flush(r) => r in w.live
    case Drop(r) => r in w.live
    case Freed(_, _) => true
  }

  /** Is the attempt's snapshot current, and does its request fit? */
  predicate Current(w: World, a: Attempt)
    requires a.phase.Deciding?
  {
    Revision(w.tracker, a.device) == a.phase.revision
  }

  predicate Fits(w: World, minimum: nat, a: Attempt)
    requires a.phase.Deciding?
  {
    SpaceBudgetFits(a.phase.available, Bucket(w.tracker, a.device), a.requested, minimum)
  }

  function Decided(w: World, minimum: nat, a: nat, r: nat): (n: World)
    requires a in w.attempts && w.attempts[a].phase.Deciding?
  {
    var t := w.attempts[a];
    if !Current(w, t) then
      if t.tries + 1 == MAX_SNAPSHOT_RETRIES then w.(attempts := w.attempts - {a})
      else w.(attempts := w.attempts[a := t.(phase := Reading, tries := t.tries + 1)])
    else if Fits(w, minimum, t) then
      w.(attempts := w.attempts - {a},
         live := w.live[r := Reservation(t.device, t.requested, 0, 0)],
         tracker := Promised(w.tracker, t.device, t.requested))
    else w.(attempts := w.attempts - {a})
  }

  /** Consuming and the release it may cause, as the reservation object does it. */
  function Consumed(r: Reservation, bytes: nat): (n: Reservation)
    requires bytes <= r.written && bytes <= r.remaining
  {
    var pending := r.pending + bytes;
    Reservation(r.device, r.remaining - bytes, if pending >= RELEASE_BATCH_BYTES then 0 else pending, r.written - bytes)
  }

  function Apply(w: World, minimum: nat, e: Event): (n: World)
    requires Enabled(w, e)
  {
    match e
    case Begin(a, device, requested) => w.(attempts := w.attempts[a := Attempt(device, requested, Reading, 0)])
    case ReadRevision(a) =>
      var t := w.attempts[a];
      w.(attempts := w.attempts[a := t.(phase := Probing(Revision(w.tracker, t.device)))])
    case Probe(a) =>
      var t := w.attempts[a];
      w.(attempts := w.attempts[a := t.(phase := Deciding(t.phase.revision, Free(w, t.device)))])
    case ProbeFails(a) => w.(attempts := w.attempts - {a})
    case Decide(a, r) => Decided(w, minimum, a, r)
    case Write(r, bytes) =>
      var x := w.live[r];
      WithFree(w, x.device, Free(w, x.device) - bytes).(live := w.live[r := x.(written := x.written + bytes)])
    case Consume(r, bytes) =>
      var x := w.live[r];
      var y := Consumed(x, bytes);
      w.(live := w.live[r := y], tracker := Released(w.tracker, x.device, x.pending + bytes - y.pending))
    case Flush(r) =>
      var x := w.live[r];
      w.(live := w.live[r := x.(pending := 0)], tracker := Released(w.tracker, x.device, x.pending))
    case Drop(r) =>
      var x := w.live[r];
      w.(live := w.live - {r}, tracker := Released(w.tracker, x.device, x.remaining + x.pending))
    case Freed(device, bytes) => WithFree(w, device, Free(w, device) + bytes)
  }

  predicate GoodReservations(live: map<nat, Reservation>) {
    forall r :: r in live ==> live[r].written <= live[r].remaining
  }

  // ----- Sums over the live reservations of a device

  /** What is added up: bytes the tracker holds, bytes still to be written, bytes written but still held. */
  datatype Kind = Held | Unwritten | Spent

  function Weight(kind: Kind, r: Reservation, device: Device): (n: int) {
    if r.device != device then 0
    else
      match kind
      case Held => r.remaining + r.pending
      case Unwritten => r.remaining - r.written
      case Spent => r.pending + r.written
  }

  ghost function Sum(kind: Kind, live: map<nat, Reservation>, device: Device): (n: int)
    decreases |live|
  {
    if live == map[] then 0
    else
      var r :| r in live;
      Weight(kind, live[r], device) + Sum(kind, live - {r}, device)
  }

  lemma {:induction false} SumWithout(kind: Kind, live: map<nat, Reservation>, device: Device, r: nat)
    requires r in live
    ensures Sum(kind, live, device) == Weight(kind, live[r], device) + Sum(kind, live - {r}, device)
    decreases |live|
  {
    var q :| q in live && Sum(kind, live, device) == Weight(kind, live[q], device) + Sum(kind, live - {q}, device);
    if q != r {
      SumWithout(kind, live - {q}, device, r);
      SumWithout(kind, live - {r}, device, q);
      assert live - {q} - {r} == live - {r} - {q};
    }
  }

  lemma SumPut(kind: Kind, live: map<nat, Reservation>, device: Device, r: nat, x: Reservation)
    ensures Sum(kind, live[r := x], device) == Weight(kind, x, device) + Sum(kind, live - {r}, device)
  {
    SumWithout(kind, live[r := x], device, r);
    assert live[r := x] - {r} == live - {r};
  }

  /** Held bytes are the unwritten ones and the spent ones, and none of the sums is negative. */
  lemma {:induction false} SumSplits(live: map<nat, Reservation>, device: Device)
    requires GoodReservations(live)
    ensures Sum(Held, live, device) == Sum(Unwritten, live, device) + Sum(Spent, live, device)
    ensures Sum(Unwritten, live, device) >= 0 && Sum(Spent, live, device) >= 0
    decreases |live|
  {
    if live != map[] {
      var r :| r in live;
      SumWithout(Held, live, device, r);
      SumWithout(Unwritten, live, device, r);
      SumWithout(Spent, live, device, r);
      SumSplits(live - {r}, device);
    }
  }

  /** Replacing one reservation changes each sum by the difference of the weights. */
  lemma SumReplaced(live: map<nat, Reservation>, device: Device, r: nat, x: Reservation)
    requires r in live
    ensures forall kind ::
              Sum(kind, live[r := x], device) - Sum(kind, live, device) ==
              Weight(kind, x, device) - Weight(kind, live[r], device)
  {
    forall kind
      ensures Sum(kind, live[r := x], device) - Sum(kind, live, device) ==
              Weight(kind, x, device) - Weight(kind, live[r], device)
    {
      SumPut(kind, live, device, r, x);
      SumWithout(kind, live, device, r);
    }
  }

  lemma SumAdded(live: map<nat, Reservation>, device: Device, r: nat, x: Reservation)
    requires r !in live
    ensures forall kind :: Sum(kind, live[r := x], device) == Weight(kind, x, device) + Sum(kind, live, device)
  {
    forall kind
      ensures Sum(kind, live[r := x], device) == Weight(kind, x, device) + Sum(kind, live, device)
    {
      SumPut(kind, live, device, r, x);
      assert live - {r} == live;
    }
  }

  // ----- The invariant

  /** The bucket is exactly what the live reservations hold; an empty bucket is removed. */
  ghost predicate Accounted(w: World, d: Device) {
    && Bucket(w.tracker, d) == Sum(Held, w.live, d) <= U64_MAX
    && (d in w.tracker.reserved ==> w.tracker.reserved[d] > 0)
  }

  /** As long as reserved bytes are unwritten, they fit above the floor. */
  ghost predicate Protected(w: World, minimum: nat, d: Device) {
    Sum(Unwritten, w.live, d) > 0 ==> minimum + Sum(Unwritten, w.live, d) <= Free(w, d)
  }

  /** A snapshot that would still be accepted has lost only bytes that are still held. */
  ghost predicate GoodAttempt(w: World, a: Attempt) {
    match a.phase
    case Reading => true
    case Probing(revision) => revision <= Revision(w.tracker, a.device)
    case Deciding(revision, available) =>
      && revision <= Revision(w.tracker, a.device) && available <= U64_MAX
      && (revision == Revision(w.tracker, a.device) ==> available <= Free(w, a.device) + Sum(Spent, w.live, a.device))
  }

  ghost predicate Inv(w: World, minimum: nat) {
    && GoodReservations(w.live)
    && (forall d :: Accounted(w, d))
    && (forall d :: Protected(w, minimum, d))
    && (forall a :: a in w.attempts ==> GoodAttempt(w, w.attempts[a]))
  }

  /** What one event does to one device. */
  ghost predicate GoodStep(w: World, n: World, minimum: nat, d: Device) {
    && Accounted(n, d) && Protected(n, minimum, d)
    && Revision(w.tracker, d) <= Revision(n.tracker, d)
    && (Bucket(n.tracker, d) != Bucket(w.tracker, d) ==> Revision(n.tracker, d) == Revision(w.tracker, d) + 1)
    && (Revision(n.tracker, d) == Revision(w.tracker, d) ==>
          Free(w, d) + Sum(Spent, w.live, d) <= Free(n, d) + Sum(Spent, n.live, d))
  }

  /** What a release does to the numbers of a device. */
  lemma ReleasedNumbers(t: Tracker, device: Device, bytes: nat, d: Device)
    requires bytes <= Bucket(t, device)
    ensures var n := Released(t, device, bytes);
            && Bucket(n, d) == Bucket(t, d) - (if d == device then bytes else 0)
            && Revision(n, d) == Revision(t, d) + (if d == device && bytes > 0 then 1 else 0)
            && ((d in t.reserved ==> t.reserved[d] > 0) && d in n.reserved ==> n.reserved[d] > 0)
  {
  }

  lemma PromisedNumbers(t: Tracker, device: Device, bytes: nat, d: Device)
    ensures var n := Promised(t, device, bytes);
            && Bucket(n, d) == Bucket(t, d) + (if d == device then bytes else 0)
            && Revision(n, d) == Revision(t, d) + (if d == device && bytes > 0 then 1 else 0)
            && ((d in t.reserved ==> t.reserved[d] > 0) && d in n.reserved ==> n.reserved[d] > 0)
  {
  }

  /** A step judged by its numbers: bucket and held bytes move together, and only with a new revision; space that is
      lost was written into a reservation; and the reservations that are left unwritten still fit. */
  lemma GoodNumbers(w: World, n: World, minimum: nat, d: Device)
    requires Accounted(w, d) && Protected(n, minimum, d) && Sum(Held, n.live, d) <= U64_MAX
    requires Bucket(n.tracker, d) - Bucket(w.tracker, d) == Sum(Held, n.live, d) - Sum(Held, w.live, d)
    requires d in n.tracker.reserved ==> n.tracker.reserved[d] > 0
    requires Revision(n.tracker, d) == Revision(w.tracker, d)
          || Revision(n.tracker, d) == Revision(w.tracker, d) + 1
    requires Revision(n.tracker, d) == Revision(w.tracker, d) ==>
               && Bucket(n.tracker, d) == Bucket(w.tracker, d)
               && Free(w, d) + Sum(Spent, w.live, d) <= Free(n, d) + Sum(Spent, n.live, d)
    ensures GoodStep(w, n, minimum, d)
  {
  }

  lemma WriteStep(w: World, minimum: nat, r: nat, bytes: nat, d: Device)
    requires Inv(w, minimum) && Enabled(w, Write(r, bytes))
    ensures GoodStep(w, Apply(w, minimum, Write(r, bytes)), minimum, d)
  {
    var x := w.live[r];
    SumReplaced(w.live, d, r, x.(written := x.written + bytes));
    SumSplits(w.live, d);
    assert Accounted(w, d) && Protected(w, minimum, d);
    GoodNumbers(w, Apply(w, minimum, Write(r, bytes)), minimum, d);
  }

  /** Consuming and releasing move bytes from unwritten to spent to free, and lose none. */
  lemma ConsumedWeights(x: Reservation, bytes: nat, d: Device)
    requires bytes <= x.written && bytes <= x.remaining
    ensures var y := Consumed(x, bytes);
            && y.pending <= x.pending + bytes
            && Weight(Held, y, d) == Weight(Held, x, d) - (if d == x.device then x.pending + bytes - y.pending else 0)
            && Weight(Unwritten, y, d) == Weight(Unwritten, x, d)
            && Weight(Spent, y, d) == Weight(Spent, x, d) - (if d == x.device then x.pending + bytes - y.pending else 0)
  {
  }

  lemma ConsumeStep(w: World, minimum: nat, r: nat, bytes: nat, d: Device)
    requires Inv(w, minimum) && Enabled(w, Consume(r, bytes))
    ensures GoodStep(w, Apply(w, minimum, Consume(r, bytes)), minimum, d)
  {
    var x := w.live[r];
    var y := Consumed(x, bytes);
    ConsumedWeights(x, bytes, d);
    SumReplaced(w.live, d, r, y);
    HeldIsWithinBucket(w, minimum, r);
    ReleasedNumbers(w.tracker, x.device, x.pending + bytes - y.pending, d);
    assert Accounted(w, d) && Protected(w, minimum, d);
    GoodNumbers(w, Apply(w, minimum, Consume(r, bytes)), minimum, d);
  }

  lemma FlushStep(w: World, minimum: nat, r: nat, d: Device)
    requires Inv(w, minimum) && Enabled(w, Flush(r))
    ensures GoodStep(w, Apply(w, minimum, Flush(r)), minimum, d)
  {
    var x := w.live[r];
    SumReplaced(w.live, d, r, x.(pending := 0));
    HeldIsWithinBucket(w, minimum, r);
    ReleasedNumbers(w.tracker, x.device, x.pending, d);
    assert Accounted(w, d) && Protected(w, minimum, d);
    GoodNumbers(w, Apply(w, minimum, Flush(r)), minimum, d);
  }

  lemma DropStep(w: World, minimum: nat, r: nat, d: Device)
    requires Inv(w, minimum) && Enabled(w, Drop(r))
    ensures GoodStep(w, Apply(w, minimum, Drop(r)), minimum, d)
  {
    var x := w.live[r];
    SumWithout(Held, w.live, d, r);
    SumWithout(Unwritten, w.live, d, r);
    SumWithout(Spent, w.live, d, r);
    HeldIsWithinBucket(w, minimum, r);
    ReleasedNumbers(w.tracker, x.device, x.remaining + x.pending, d);
    assert Accounted(w, d) && Protected(w, minimum, d);
    GoodNumbers(w, Apply(w, minimum, Drop(r)), minimum, d);
  }

  /** No release is ever larger than the bucket, so nothing saturates and no addition overflows. */
  lemma HeldIsWithinBucket(w: World, minimum: nat, r: nat)
    requires Inv(w, minimum) && r in w.live
    ensures var x := w.live[r];
            x.remaining + x.pending <= Bucket(w.tracker, x.device) <= U64_MAX
  {
    var d := w.live[r].device;
    SumWithout(Held, w.live, d, r);
    SumSplits(w.live - {r}, d);
    assert Accounted(w, d);
  }

  /** A grant fits: the snapshot may be outdated by writes, but only by bytes the bucket still counts. */
  lemma GrantFits(w: World, minimum: nat, t: Attempt)
    requires Inv(w, minimum) && GoodAttempt(w, t) && t.phase.Deciding? && Current(w, t) && Fits(w, minimum, t)
    ensures minimum + Sum(Unwritten, w.live, t.device) + t.requested <= Free(w, t.device)
    ensures Bucket(w.tracker, t.device) + t.requested <= U64_MAX
  {
    assert Accounted(w, t.device);
    FitsIsExact(t.phase.available, Bucket(w.tracker, t.device), t.requested, minimum);
    SumSplits(w.live, t.device);
  }

  lemma GrantStep(w: World, minimum: nat, a: nat, r: nat, d: Device)
    requires Inv(w, minimum) && Enabled(w, Decide(a, r))
    requires Current(w, w.attempts[a]) && Fits(w, minimum, w.attempts[a])
    ensures GoodStep(w, Apply(w, minimum, Decide(a, r)), minimum, d)
  {
    var t, n := w.attempts[a], Apply(w, minimum, Decide(a, r));
    assert GoodAttempt(w, t) && Accounted(w, d) && Protected(w, minimum, d);
    GrantFits(w, minimum, t);
    SumAdded(w.live, d, r, Reservation(t.device, t.requested, 0, 0));
    PromisedNumbers(w.tracker, t.device, t.requested, d);
    GoodNumbers(w, n, minimum, d);
  }

  lemma DecideStep(w: World, minimum: nat, a: nat, r: nat, d: Device)
    requires Inv(w, minimum) && Enabled(w, Decide(a, r))
    ensures GoodStep(w, Apply(w, minimum, Decide(a, r)), minimum, d)
  {
    var t := w.attempts[a];
    if Current(w, t) && Fits(w, minimum, t) {
      GrantStep(w, minimum, a, r, d);
    } else {
      assert Accounted(w, d) && Protected(w, minimum, d);
    }
  }

  lemma FreedStep(w: World, minimum: nat, device: Device, bytes: nat, d: Device)
    requires Inv(w, minimum)
    ensures GoodStep(w, Apply(w, minimum, Freed(device, bytes)), minimum, d)
  {
    assert Accounted(w, d) && Protected(w, minimum, d);
  }

  lemma EveryStep(w: World, minimum: nat, e: Event, d: Device)
    requires Inv(w, minimum) && Enabled(w, e)
    ensures GoodStep(w, Apply(w, minimum, e), minimum, d)
  {
    match e
    case Write(r, bytes) => WriteStep(w, minimum, r, bytes, d);
    case Consume(r, bytes) => ConsumeStep(w, minimum, r, bytes, d);
    case Flush(r) => FlushStep(w, minimum, r, d);
    case Drop(r) => DropStep(w, minimum, r, d);
    case Decide(a, r) => DecideStep(w, minimum, a, r, d);
    case Freed(device, bytes) => FreedStep(w, minimum, device, bytes, d);
    case _ => assert Accounted(w, d) && Protected(w, minimum, d);
  }

  lemma AttemptsKept(w: World, minimum: nat, e: Event, a: nat)
    requires Inv(w, minimum) && Enabled(w, e) && a in Apply(w, minimum, e).attempts
    ensures GoodAttempt(Apply(w, minimum, e), Apply(w, minimum, e).attempts[a])
  {
    var n := Apply(w, minimum, e);
    var t := n.attempts[a];
    EveryStep(w, minimum, e, t.device);
    if a in w.attempts && w.attempts[a] == t {
      assert GoodAttempt(w, t);
    } else if e.Probe? {
      assert GoodAttempt(w, w.attempts[a]);
      SumSplits(w.live, t.device);
    }
  }

  lemma InvKept(w: World, minimum: nat, e: Event)
    requires Inv(w, minimum) && Enabled(w, e)
    ensures Inv(Apply(w, minimum, e), minimum)
  {
    var n := Apply(w, minimum, e);
    forall d
      ensures Accounted(n, d)
    {
      EveryStep(w, minimum, e, d);
    }
    forall d
      ensures Protected(n, minimum, d)
    {
      EveryStep(w, minimum, e, d);
    }
    forall a | a in n.attempts
      ensures GoodAttempt(n, n.attempts[a])
    {
      AttemptsKept(w, minimum, e, a);
    }
  }

  // ----- Runs

  function Start(free: map<Device, nat>): (w: World) {
    World(Tracker(map[], map[]), map[], map[], free)
  }

  ghost predicate IsRun(ws: seq<World>, es: seq<Event>, minimum: nat, free: map<Device, nat>) {
    && |ws| == |es| + 1 && ws[0] == Start(free)
    && forall i {:trigger es[i]} :: 0 <= i < |es| ==>
         Enabled(ws[i], es[i]) && ws[i + 1] == Apply(ws[i], minimum, es[i])
  }

  lemma {:induction false} Reachable(ws: seq<World>, es: seq<Event>, minimum: nat, free: map<Device, nat>, k: nat)
    requires IsRun(ws, es, minimum, free) && k < |ws|
    ensures Inv(ws[k], minimum)
  {
    if k == 0 {
      assert forall d, kind :: Sum(kind, ws[0].live, d) == 0;
      assert forall d :: Accounted(ws[0], d);
    } else {
      Reachable(ws, es, minimum, free, k - 1);
      InvKept(ws[k - 1], minimum, es[k - 1]);
    }
  }

  /** Protected space survives every interleaving: while reserved bytes remain unwritten, the
      device has them free above the floor. */
  lemma ReservedSpaceIsThere(ws: seq<World>, es: seq<Event>, minimum: nat, free: map<Device, nat>, k: nat, d: Device)
    requires IsRun(ws, es, minimum, free) && k < |ws|
    ensures Sum(Unwritten, ws[k].live, d) > 0 ==> minimum + Sum(Unwritten, ws[k].live, d) <= Free(ws[k], d)
  {
    Reachable(ws, es, minimum, free, k);
    assert Protected(ws[k], minimum, d);
  }

  /** So an owner can always write what it has reserved. */
  lemma OwnerCanWrite(ws: seq<World>, es: seq<Event>, minimum: nat, free: map<Device, nat>, k: nat, r: nat, bytes: nat)
    requires IsRun(ws, es, minimum, free) && k < |ws| && r in ws[k].live
    requires ws[k].live[r].written + bytes <= ws[k].live[r].remaining
    ensures Enabled(ws[k], Write(r, bytes))
    ensures bytes > 0 ==> minimum + bytes <= Free(ws[k], ws[k].live[r].device)
  {
    var d := ws[k].live[r].device;
    Reachable(ws, es, minimum, free, k);
    SumWithout(Unwritten, ws[k].live, d, r);
    SumSplits(ws[k].live - {r}, d);
    assert Protected(ws[k], minimum, d);
  }

  /** Conservation: the bucket is the sum of what live reservations hold and exists exactly when
      that is positive; every change of it moves the revision; no arithmetic overflows or saturates. */
  lemma BytesAreConserved(ws: seq<World>, es: seq<Event>, minimum: nat, free: map<Device, nat>, k: nat, d: Device)
    requires IsRun(ws, es, minimum, free) && k < |ws|
    ensures Bucket(ws[k].tracker, d) == Sum(Held, ws[k].live, d) <= U64_MAX
    ensures d in ws[k].tracker.reserved <==> Sum(Held, ws[k].live, d) > 0
    ensures forall r :: r in ws[k].live && ws[k].live[r].device == d ==>
                          ws[k].live[r].remaining + ws[k].live[r].pending <= Bucket(ws[k].tracker, d)
    ensures k < |es| && Bucket(ws[k + 1].tracker, d) != Bucket(ws[k].tracker, d) ==>
              Revision(ws[k + 1].tracker, d) == Revision(ws[k].tracker, d) + 1
  {
    Reachable(ws, es, minimum, free, k);
    assert Accounted(ws[k], d);
    forall r | r in ws[k].live && ws[k].live[r].device == d
      ensures ws[k].live[r].remaining + ws[k].live[r].pending <= Bucket(ws[k].tracker, d)
    {
      HeldIsWithinBucket(ws[k], minimum, r);
    }
    if k < |es| { EveryStep(ws[k], minimum, es[k], d); }
  }

  // ----- How attempts end

  /** What a decision comes to: an outdated snapshot sends the attempt back, at the eighth time away; a current one
      grants exactly if the request fits above the floor beside all that is held. */
  lemma DecidedExactly(w: World, minimum: nat, a: nat, r: nat)
    requires Inv(w, minimum) && Enabled(w, Decide(a, r))
    ensures var t, n := w.attempts[a], Apply(w, minimum, Decide(a, r));
            if Revision(w.tracker, t.device) != t.phase.revision
            then && n.live == w.live && n.tracker == w.tracker
                 && (if t.tries == 7 then a !in n.attempts
                     else a in n.attempts && n.attempts[a] == Attempt(t.device, t.requested, Reading, t.tries + 1))
            else if minimum + Sum(Held, w.live, t.device) + t.requested <= t.phase.available
            then a !in n.attempts && n.live == w.live[r := Reservation(t.device, t.requested, 0, 0)]
            else a !in n.attempts && n.live == w.live && n.tracker == w.tracker
  {
    var t := w.attempts[a];
    assert GoodAttempt(w, t) && Accounted(w, t.device);
    FitsIsExact(t.phase.available, Bucket(w.tracker, t.device), t.requested, minimum);
  }

  /** Decisions about an attempt since it began, among the first `k` events. */
  function DecisionsSince(es: seq<Event>, k: nat, a: nat): (n: nat)
    requires k <= |es|
  {
    if k == 0 then 0
    else
      match es[k - 1]
      case Begin(b, _, _) => if a == b then 0 else DecisionsSince(es, k - 1, a)
      case Decide(b, _) => (if a == b then 1 else 0) + DecisionsSince(es, k - 1, a)
      case _ => DecisionsSince(es, k - 1, a)
  }

  lemma TriesStep(w: World, minimum: nat, e: Event, a: nat)
    requires Enabled(w, e) && a in Apply(w, minimum, e).attempts
    ensures var t := Apply(w, minimum, e).attempts[a];
            if e.Begin? && e.a == a then t.tries == 0
            else a in w.attempts && t.tries == w.attempts[a].tries + (if e.Decide? && e.a == a then 1 else 0)
    ensures e.Decide? && e.a == a ==> w.attempts[a].tries + 1 != MAX_SNAPSHOT_RETRIES
  {
  }

  lemma {:induction false} TriesAreCounted(ws: seq<World>, es: seq<Event>, minimum: nat, free: map<Device, nat>, k: nat,
                                           a: nat)
    requires IsRun(ws, es, minimum, free) && k < |ws| && a in ws[k].attempts
    ensures ws[k].attempts[a].tries == DecisionsSince(es, k, a) < 8
  {
    if k > 0 {
      var w, e := ws[k - 1], es[k - 1];
      TriesStep(w, minimum, e, a);
      if !(e.Begin? && e.a == a) { TriesAreCounted(ws, es, minimum, free, k - 1, a); }
    }
  }

  /** Where an attempt's snapshot comes from: the revision was read, and then the free space probed, by steps of its
      own. */
  lemma {:induction false} SnapshotWasTaken(ws: seq<World>, es: seq<Event>, minimum: nat, free: map<Device, nat>,
                                            k: nat, a: nat)
    returns (i: nat, j: nat)
    requires IsRun(ws, es, minimum, free) && k < |ws| && a in ws[k].attempts && !ws[k].attempts[a].phase.Reading?
    ensures var t := ws[k].attempts[a];
            && i < k && es[i] == ReadRevision(a) && Revision(ws[i].tracker, t.device) == t.phase.revision
            && (t.phase.Deciding? ==> i < j < k && es[j] == Probe(a) && Free(ws[j], t.device) == t.phase.available)
  {
    i, j := 0, 0;
    if k > 0 {
      var w, e := ws[k - 1], es[k - 1];
      assert Enabled(w, e) && ws[k] == Apply(w, minimum, e);
      if e == ReadRevision(a) {
        i := k - 1;
      } else {
        assert a in w.attempts && !w.attempts[a].phase.Reading?;
        i, j := SnapshotWasTaken(ws, es, minimum, free, k - 1, a);
        if e == Probe(a) { j := k - 1; }
      }
    }
  }

  /** A decision in a run: `i` read the revision and `j` probed.  If the revision has changed since, the attempt starts
      over, unless this was the eighth time; otherwise it is granted exactly if the request fits above the floor, beside
      all that is held now, in the space that was free then. */
  lemma DecidedOnSnapshot(ws: seq<World>, es: seq<Event>, minimum: nat, free: map<Device, nat>, k: nat)
    returns (i: nat, j: nat)
    requires IsRun(ws, es, minimum, free) && k < |es| && es[k].Decide?
    ensures var a, r := es[k].a, es[k].r;
            && a in ws[k].attempts && i < j < k && es[i] == ReadRevision(a) && es[j] == Probe(a)
            && var t := ws[k].attempts[a];
            if Revision(ws[k].tracker, t.device) != Revision(ws[i].tracker, t.device)
            then r !in ws[k + 1].live && (a in ws[k + 1].attempts <==> DecisionsSince(es, k + 1, a) < 8)
            else && a !in ws[k + 1].attempts
                 && (r in ws[k + 1].live <==>
                     minimum + Sum(Held, ws[k].live, t.device) + t.requested <= Free(ws[j], t.device))
  {
    Reachable(ws, es, minimum, free, k);
    i, j := SnapshotWasTaken(ws, es, minimum, free, k, es[k].a);
    DecidedExactly(ws[k], minimum, es[k].a, es[k].r);
    TriesAreCounted(ws, es, minimum, free, k, es[k].a);
  }

  /** Bytes that were used up stay promised only until a batch of them is full. */
  lemma {:induction false} PendingStaysSmall(ws: seq<World>, es: seq<Event>, minimum: nat, free: map<Device, nat>,
                                             k: nat, r: nat)
    requires IsRun(ws, es, minimum, free) && k < |ws| && r in ws[k].live
    ensures ws[k].live[r].pending < 1024 * 1024
  {
    if k > 0 {
      assert ws[k] == Apply(ws[k - 1], minimum, es[k - 1]);
      if r in ws[k - 1].live { PendingStaysSmall(ws, es, minimum, free, k - 1, r); }
    }
  }
}
