/**
 Process-wide accounting of disk space that has been promised but not yet written.

 The tracker keeps, per device, the bytes promised and a revision that changes
 with every change of that number.  Byte counts are 64-bit; revisions are
 unbounded.
 */
module DiskSpace {
  import opened Wrappers
  import opened Arithmetic

  type Device = nat

  const RELEASE_BATCH_BYTES: nat := 1024 * 1024
  const MAX_SNAPSHOT_RETRIES: nat := 8

  datatype Tracker = Tracker(reserved: map<Device, nat>, revisions: map<Device, nat>)

  function CheckedAdd(a: nat, b: nat): (r: Option<nat>) {
    if a + b <= U64_MAX then Some(a + b) else None
  }

  predicate SpaceBudgetFits(available: nat, reserved: nat, requested: nat, minimum: nat) {
    match CheckedAdd(minimum, reserved)
    case None => false
    case Some(required) =>
      match CheckedAdd(required, requested)
      case None => false
      case Some(total) => available >= total
  }

  /** The overflow checks never reject what would fit, nor accept what would not. */
  lemma FitsIsExact(available: nat, reserved: nat, requested: nat, minimum: nat)
    requires available <= U64_MAX
    ensures SpaceBudgetFits(available, reserved, requested, minimum) <==> minimum + reserved + requested <= available
  {
  }

  // ----- How much to ask for

  /** The least multiple of `unit` that is not below `value`. */
  function Ceiling(value: nat, unit: nat): (r: nat)
    requires unit > 0
  {
    (value + unit - 1) / unit * unit
  }

  function RoundUp(value: nat, unit: nat): (r: Option<nat>) {
    if value == 0 then Some(0)
    else if unit == 0 || value + unit - 1 > U64_MAX then None
    else Some(Ceiling(value, unit))
  }

  function AllocationBudget(logical: nat, unit: nat, metadata: nat): (r: Option<nat>) {
    var data, extra := RoundUp(logical, unit), RoundUp(metadata, unit);
    if data.None? || extra.None? then None else CheckedAdd(data.value, extra.value)
  }

  lemma CeilingIsLeast(value: nat, unit: nat)
    requires unit > 0
    ensures value <= Ceiling(value, unit) < value + unit && Ceiling(value, unit) % unit == 0
  {
    var q := (value + unit - 1) / unit;
    assert value + unit - 1 == q * unit + (value + unit - 1) % unit;
    MultipleIsDivisible(q, unit);
  }

  lemma MultipleIsDivisible(q: nat, unit: nat)
    requires unit > 0
    ensures q * unit % unit == 0
  {
    var d := q * unit / unit;
    assert q * unit == d * unit + q * unit % unit;
    if d < q { MulGrows(d + 1, q, unit); } else { MulGrows(q, d, unit); }
  }

  lemma SumIsDivisible(a: nat, b: nat, unit: nat)
    requires unit > 0 && a % unit == 0 && b % unit == 0
    ensures (a + b) % unit == 0
  {
    assert a == a / unit * unit && b == b / unit * unit;
    var q := a / unit + b / unit;
    assert a + b == q * unit;
    MultipleIsDivisible(q, unit);
  }

  lemma RoundUpCovers(value: nat, unit: nat, r: nat)
    requires unit > 0 && RoundUp(value, unit) == Some(r)
    ensures value <= r < value + unit && r % unit == 0
  {
    CeilingIsLeast(value, unit);
  }

  lemma PartsAddUp(logical: nat, metadata: nat, unit: nat, data: nat, extra: nat)
    requires unit > 0
    requires logical <= data < logical + unit && data % unit == 0
    requires metadata <= extra < metadata + unit && extra % unit == 0
    ensures logical + metadata <= data + extra <= logical + metadata + 2 * (unit - 1) && (data + extra) % unit == 0
  {
    SumIsDivisible(data, extra, unit);
  }

  /** A budget that comes back is a whole number of units that covers data and metadata, each with less than a unit to
      spare. */
  lemma BudgetCovers(logical: nat, unit: nat, metadata: nat) returns (data: nat, extra: nat)
    requires unit > 0 && AllocationBudget(logical, unit, metadata).Some?
    ensures AllocationBudget(logical, unit, metadata) == Some(data + extra) && data + extra <= U64_MAX
    ensures logical <= data < logical + unit && metadata <= extra < metadata + unit
    ensures data % unit == 0 && extra % unit == 0 && (data + extra) % unit == 0
  {
    data, extra := RoundUp(logical, unit).value, RoundUp(metadata, unit).value;
    RoundUpCovers(logical, unit, data);
    RoundUpCovers(metadata, unit, extra);
    PartsAddUp(logical, metadata, unit, data, extra);
  }

  /** Rounding refuses only what does not fit exactly when the unit divides 2^64, as every power of two does. */
  lemma RoundUpRefusesOnlyOverflow(unit: nat)
    requires 0 < unit <= U64_MAX
    ensures (forall value: nat :: value <= U64_MAX && RoundUp(value, unit).None? ==> Ceiling(value, unit) > U64_MAX)
            <==> (U64_MAX + 1) % unit == 0
  {
    var q, rest := (U64_MAX + 1) / unit, (U64_MAX + 1) % unit;
    assert U64_MAX + 1 == q * unit + rest;
    if rest == 0 {
      forall value: nat | value <= U64_MAX && RoundUp(value, unit).None?
        ensures Ceiling(value, unit) > U64_MAX
      {
        CeilingIsLeast(value, unit);
        NoMultipleBetween(Ceiling(value, unit), q, unit);
      }
    } else {
      var value := q * unit;
      CeilingOfMultiple(q, unit);
      assert value > 0;
      assert RoundUp(value, unit).None? && Ceiling(value, unit) <= U64_MAX;
    }
  }

  /** For such units a budget comes back exactly when the rounded parts fit together, and is their sum; without a unit
      only nothing can be rounded. */
  lemma BudgetExactly(logical: nat, unit: nat, metadata: nat)
    requires logical <= U64_MAX && metadata <= U64_MAX && unit <= U64_MAX
    ensures unit > 0 && (U64_MAX + 1) % unit == 0 ==>
            var sum := Ceiling(logical, unit) + Ceiling(metadata, unit);
            AllocationBudget(logical, unit, metadata) == if sum <= U64_MAX then Some(sum) else None
    ensures unit == 0 ==> (AllocationBudget(logical, unit, metadata).Some? <==> logical == 0 && metadata == 0)
  {
    if unit > 0 && (U64_MAX + 1) % unit == 0 {
      RoundUpRefusesOnlyOverflow(unit);
      CeilingOfMultiple(0, unit);
      assert forall value: nat :: value <= U64_MAX && RoundUp(value, unit).None? ==> Ceiling(value, unit) > U64_MAX;
      assert RoundUp(logical, unit).None? ==> Ceiling(logical, unit) > U64_MAX;
      assert RoundUp(metadata, unit).None? ==> Ceiling(metadata, unit) > U64_MAX;
    }
  }

  /** A multiple of `unit` above `(q - 1) * unit` is at least `q * unit`. */
  lemma NoMultipleBetween(m: nat, q: nat, unit: nat)
    requires unit > 0 && m % unit == 0 && m + unit > q * unit
    ensures m >= q * unit
  {
    var k := m / unit;
    assert m == k * unit;
    if k < q { MulGrows(k + 1, q, unit); }
  }

  lemma CeilingOfMultiple(q: nat, unit: nat)
    requires unit > 0
    ensures Ceiling(q * unit, unit) == q * unit
  {
    CeilingIsLeast(q * unit, unit);
    MultipleIsDivisible(q, unit);
    var c := Ceiling(q * unit, unit);
    if c > q * unit { NoMultipleBetween(c, q + 1, unit); }
  }

  // ----- The tracker

  function Bucket(t: Tracker, device: Device): (r: nat) {
    if device in t.reserved then t.reserved[device] else 0
  }

  function Revision(t: Tracker, device: Device): (r: nat) {
    if device in t.revisions then t.revisions[device] else 0
  }

  function Bumped(t: Tracker, device: Device): (r: Tracker) {
    t.(revisions := t.revisions[device := Revision(t, device) + 1])
  }

  function Promised(t: Tracker, device: Device, requested: nat): (r: Tracker) {
    if requested == 0 then t
    else Bumped(t.(reserved := t.reserved[device := Bucket(t, device) + requested]), device)
  }

  function Released(t: Tracker, device: Device, bytes: nat): (r: Tracker) {
    if bytes == 0 then t
    else
      var left := SaturatingSub(Bucket(t, device), bytes);
      var reserved := if device !in t.reserved then t.reserved
                      else if left == 0 then t.reserved - {device}
                      else t.reserved[device := left];
      Bumped(t.(reserved := reserved), device)
  }

  class DiskSpaceTracker {
    var reserved: map<Device, nat>
    var revisions: map<Device, nat>

    ghost function State(): (r: Tracker)
      reads this
    {
      Tracker(reserved, revisions)
    }

    constructor ()
      ensures State() == Tracker(map[], map[])
    {
      reserved, revisions := map[], map[];
    }

    method BumpRevision(device: Device)
      modifies this`revisions
      ensures State() == Bumped(old(State()), device)
    {
      var revision := if device in revisions then revisions[device] else 0;
      revisions := revisions[device := revision + 1];
    }

    /** Grants exactly when the request fits beside everything already promised. */
    method ReserveLocked(device: Device, available: nat, requested: nat, minimum: nat)
      returns (r: Option<DiskSpaceReservation>)
      requires available <= U64_MAX
      modifies this
      ensures r.Some? <==> minimum + Bucket(old(State()), device) + requested <= available
      ensures r.None? ==> State() == old(State())
      ensures r.Some? ==> State() == Promised(old(State()), device, requested)
      ensures r.Some? ==> fresh(r.value) && r.value.tracker == this && r.value.device == device
      ensures r.Some? ==> r.value.remaining == requested && r.value.pending == 0
    {
      var already := if device in reserved then reserved[device] else 0;
      if !SpaceBudgetFits(available, already, requested, minimum) { return None; }
      if requested > 0 {
        assert CheckedAdd(already, requested).Some?;
        reserved := reserved[device := already + requested];
        BumpRevision(device);
      }
      var reservation := new DiskSpaceReservation(this, device, requested);
      r := Some(reservation);
    }

    method Release(device: Device, bytes: nat)
      modifies this
      ensures State() == Released(old(State()), device, bytes)
    {
      if bytes == 0 { return; }
      var removeBucket := false;
      if device in reserved {
        reserved := reserved[device := SaturatingSub(reserved[device], bytes)];
        removeBucket := reserved[device] == 0;
      }
      if removeBucket {
        reserved := reserved - {device};
        assert reserved == old(reserved) - {device};
      }
      BumpRevision(device);
    }
  }

  class DiskSpaceReservation {
    const tracker: DiskSpaceTracker
    const device: Device
    var remaining: nat
    var pending: nat

    constructor (tracker: DiskSpaceTracker, device: Device, requested: nat)
      ensures this.tracker == tracker && this.device == device && remaining == requested && pending == 0
    {
      this.tracker, this.device, this.remaining, this.pending := tracker, device, requested, 0;
    }

    method FlushPendingRelease()
      modifies this`pending, tracker
      ensures pending == 0
      ensures tracker.State() == Released(old(tracker.State()), device, old(pending))
    {
      var released := pending;
      pending := 0;
      tracker.Release(device, released);
    }

    /** Consuming moves bytes from `remaining` to `pending`; a full batch is released. */
    method Consume(bytes: nat)
      requires remaining + pending <= U64_MAX
      modifies this, tracker
      ensures var consumed := Min(bytes, old(remaining));
              && remaining == old(remaining) - consumed
              && pending == (if old(pending) + consumed >= RELEASE_BATCH_BYTES then 0 else old(pending) + consumed)
              && tracker.State() == Released(old(tracker.State()), device, old(pending) + consumed - pending)
    {
      var consumed := Min(bytes, remaining);
      remaining := remaining - consumed;
      assert CheckedAdd(pending, consumed).Some?;
      pending := pending + consumed;
      if pending >= RELEASE_BATCH_BYTES { FlushPendingRelease(); }
    }

    method Drop()
      requires remaining + pending <= U64_MAX
      modifies this, tracker
      ensures remaining == 0 && pending == 0
      ensures tracker.State() == Released(old(tracker.State()), device, old(remaining) + old(pending))
    {
      assert CheckedAdd(remaining, pending).Some?;
      tracker.Release(device, remaining + pending);
      remaining, pending := 0, 0;
    }
  }
}
