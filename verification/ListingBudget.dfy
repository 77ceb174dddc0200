/**
 The byte budget of a directory listing.

 The collector grows its vector itself, so that the old and the new allocation
 fit the budget together.  The allocator may give more than was asked for.
 Sizes are 64-bit and saturate.
 */
module ListingBudget {
  import opened Wrappers
  import opened Arithmetic

  const VEC_BYTES: nat := 24
  const INDEX_BYTES: nat := 8

  /** The bytes of `n` items: their product, defined as a sum so that the proofs below stay linear. */
  function Bytes(n: nat, itemBytes: nat): (r: nat) {
    if n == 0 then 0 else itemBytes + Bytes(n - 1, itemBytes)
  }

  lemma {:induction false} BytesIsProduct(n: nat, itemBytes: nat)
    ensures Bytes(n, itemBytes) == n * itemBytes
  {
    if n > 0 { BytesIsProduct(n - 1, itemBytes); }
  }

  lemma BytesGrow(a: nat, b: nat, itemBytes: nat)
    requires a <= b
    ensures Bytes(a, itemBytes) <= Bytes(b, itemBytes) && (itemBytes > 0 ==> a <= Bytes(a, itemBytes))
  {
    BytesIsProduct(a, itemBytes);
    BytesIsProduct(b, itemBytes);
    assert a * itemBytes <= b * itemBytes;
    if itemBytes > 0 { assert a * 1 <= a * itemBytes; }
  }

  function SaturatingBytes(n: nat, itemBytes: nat): (r: nat) { Min(Bytes(n, itemBytes), USIZE_MAX) }

  function CollectionBytes(capacity: nat, itemBytes: nat, heap: nat): (r: nat) {
    SaturatingAdd(SaturatingAdd(VEC_BYTES, SaturatingBytes(capacity, itemBytes)), heap)
  }

  /** The saturating sum passes a check against `maximum` exactly when the real sum fits, or nothing was checked
      because `maximum` is the largest size there is. */
  lemma CollectionCheckIsExact(capacity: nat, itemBytes: nat, heap: nat, maximum: nat)
    requires maximum <= USIZE_MAX
    ensures CollectionBytes(capacity, itemBytes, heap) <= maximum <==>
              VEC_BYTES + Bytes(capacity, itemBytes) + heap <= maximum || maximum == USIZE_MAX
  {
  }

  // ----- Growing a vector inside a budget

  datatype Reserve = Reserved | Budget | Allocation

  /** What a vector of sized items promises of itself. */
  predicate VecOk(len: nat, capacity: nat, itemBytes: nat) {
    len <= capacity && itemBytes > 0 && Bytes(capacity, itemBytes) <= ISIZE_MAX
  }

  /** The largest capacity whose allocation fits beside `taken` bytes. */
  function Room(taken: nat, itemBytes: nat, maximum: nat): (n: nat)
    requires itemBytes > 0
  {
    SaturatingSub(maximum, taken) / itemBytes
  }

  lemma RoomIsLargest(taken: nat, itemBytes: nat, maximum: nat, n: nat)
    requires itemBytes > 0 && n > 0
    ensures n <= Room(taken, itemBytes, maximum) <==> taken + Bytes(n, itemBytes) <= maximum
  {
    var available := SaturatingSub(maximum, taken);
    var room := available / itemBytes;
    assert available == room * itemBytes + available % itemBytes;
    BytesIsProduct(room, itemBytes);
    BytesIsProduct(room + 1, itemBytes);
    if n <= room { BytesGrow(n, room, itemBytes); } else { BytesGrow(room + 1, n, itemBytes); }
    BytesGrow(1, n, itemBytes);
  }

  /** The capacity asked for: double, but no more than there is room for. */
  function Wanted(capacity: nat, room: nat): (n: nat) {
    Min(if capacity == 0 then 4 else 2 * capacity, room)
  }

  /** Make room for one more item.  `grant` is the capacity the allocator comes back with, or nothing. */
  method ReserveSlot(len: nat, capacity: nat, itemBytes: nat, other: nat, maximum: nat, grant: Option<nat>)
    returns (r: Reserve, n: nat)
    requires VecOk(len, capacity, itemBytes) && other <= USIZE_MAX && maximum <= USIZE_MAX
    ensures len < capacity ==> r.Reserved? && n == capacity
    ensures len == capacity && r.Reserved? ==>
            grant == Some(n) && len < n &&
            Wanted(capacity, Room(other + Bytes(capacity, itemBytes), itemBytes, maximum)) <= n
    ensures len == capacity && r.Reserved? ==> other + Bytes(capacity, itemBytes) + Bytes(n, itemBytes) <= maximum
    ensures len == capacity && r.Reserved? ==>
            n >= 2 * capacity || other + Bytes(capacity, itemBytes) + Bytes(n + 1, itemBytes) > maximum
    ensures r.Budget? ==> other + Bytes(capacity, itemBytes) + Bytes(capacity + 1, itemBytes) > maximum
                          || (grant == Some(n) && other + Bytes(capacity, itemBytes) + Bytes(n, itemBytes) > maximum)
    ensures r.Allocation? ==>
            grant.None? || grant.value < Wanted(capacity, Room(other + Bytes(capacity, itemBytes), itemBytes, maximum))
  {
    n := capacity;
    if len < capacity { return Reserved, n; }
    BytesGrow(capacity, capacity, itemBytes);
    var current := SaturatingBytes(capacity, itemBytes);
    var available := SaturatingSub(maximum, SaturatingAdd(other, current));
    var room := available / itemBytes;
    var required := SaturatingAdd(len, 1);
    RoomIsLargest(other + current, itemBytes, maximum, capacity + 1);
    if room < required { return Budget, n; }
    var preferred := if capacity == 0 then Max(required, 4) else Max(SaturatingAdd(capacity, capacity), required);
    var requested := Min(preferred, room);
    if grant.None? || grant.value < requested { return Allocation, n; }
    n := grant.value;
    RoomIsLargest(other + current, itemBytes, maximum, n);
    RoomIsLargest(other + current, itemBytes, maximum, n + 1);
    r := if n > room then Budget else Reserved;
  }

  // ----- Collecting a listing

  function Sum(weights: seq<nat>): (n: nat) {
    if weights == [] then 0 else Sum(weights[..|weights| - 1]) + weights[|weights| - 1]
  }

  lemma SumNext(weights: seq<nat>, i: nat)
    requires i < |weights|
    ensures Sum(weights[..i + 1]) == Sum(weights[..i]) + weights[i]
  {
    assert weights[..i + 1][..i] == weights[..i];
  }

  /** The bytes really in use: the vector, its items and what the items own. */
  function RealBytes(capacity: nat, itemBytes: nat, heap: nat): (n: nat) {
    VEC_BYTES + Bytes(capacity, itemBytes) + heap
  }

  /** A budget that is really checked. */
  predicate Effective(maximum: nat) {
    maximum < USIZE_MAX
  }

  datatype Pushed = Pushed(capacity: nat, heap: nat) | TooLarge | NoMemory

  /** What exists at once while a vector with this capacity takes one more item: everything in use, and both
      allocations if it has to move to a new one. */
  function Moving(len: nat, capacity: nat, next: nat, itemBytes: nat, heap: nat): (n: nat) {
    RealBytes(capacity, itemBytes, heap) + if len < capacity then 0 else Bytes(next, itemBytes)
  }

  /** The allocator granted less than was asked for. */
  predicate Starved(capacity: nat, itemBytes: nat, heap: nat, maximum: nat, grant: Option<nat>)
    requires itemBytes > 0
  {
    var room := Room(RealBytes(capacity, itemBytes, heap), itemBytes, maximum);
    grant.None? || grant.value < Wanted(capacity, room)
  }

  /** Add one item that owns `weight` bytes.  Refusals are justified: the item does not fit, not even in the smallest
      larger vector, or the vector that the allocator granted does not fit. */
  method Push(len: nat, capacity: nat, itemBytes: nat, heap: nat, weight: nat, maximum: nat, grant: Option<nat>)
    returns (r: Pushed)
    requires VecOk(len, capacity, itemBytes) && heap <= USIZE_MAX && weight <= USIZE_MAX && maximum <= USIZE_MAX
    requires grant.Some? ==> Bytes(grant.value, itemBytes) <= ISIZE_MAX
    ensures r.Pushed? ==> VecOk(len + 1, r.capacity, itemBytes) && r.heap == SaturatingAdd(heap, weight)
    ensures r.Pushed? ==> if len < capacity then r.capacity == capacity else grant == Some(r.capacity)
    ensures r.Pushed? && Effective(maximum) ==>
            r.heap == heap + weight && Moving(len, capacity, r.capacity, itemBytes, heap + weight) <= maximum
    ensures r.TooLarge? ==>
            Moving(len, capacity, capacity + 1, itemBytes, heap + weight) > maximum ||
            (grant.Some? && Moving(len, capacity, grant.value, itemBytes, heap + weight) > maximum)
    ensures r.NoMemory? ==> len == capacity && Starved(capacity, itemBytes, heap + weight, maximum, grant)
  {
    var proposed := SaturatingAdd(heap, weight);
    BytesGrow(if len < capacity then len + 1 else capacity, capacity, itemBytes);
    BytesGrow(capacity, capacity, itemBytes);
    CollectionCheckIsExact(len + 1, itemBytes, proposed, maximum);
    if CollectionBytes(SaturatingAdd(len, 1), itemBytes, proposed) > maximum { return TooLarge; }
    var reserve, n := ReserveSlot(len, capacity, itemBytes, SaturatingAdd(VEC_BYTES, proposed), maximum, grant);
    match reserve
    case Budget => r := TooLarge;
    case Allocation => r := NoMemory;
    case Reserved =>
      CollectionCheckIsExact(n, itemBytes, proposed, maximum);
      r := if CollectionBytes(n, itemBytes, proposed) > maximum then TooLarge else Pushed(n, proposed);
  }

  datatype Collected = Listing(capacity: nat, heap: nat) | Refused | OutOfMemory

  /** The capacity after `i` items: what the allocator last granted. */
  function CapacityAfter(grants: seq<Option<nat>>, i: nat): (capacity: nat)
    requires i <= |grants|
  {
    if i == 0 then 0
    else
      var capacity := CapacityAfter(grants, i - 1);
      if i - 1 < capacity || grants[i - 1].None? then capacity else grants[i - 1].value
  }

  /** The bytes that exist at once while item `i` is added. */
  function BytesDuring(weights: seq<nat>, itemBytes: nat, grants: seq<Option<nat>>, i: nat): (n: nat)
    requires i < |weights| == |grants|
  {
    Moving(i, CapacityAfter(grants, i), CapacityAfter(grants, i + 1), itemBytes, Sum(weights[..i + 1]))
  }

  /** Item `i` does not fit: not even the smallest vector that could hold it, or not the one that was granted. */
  predicate OverBudget(weights: seq<nat>, itemBytes: nat, grants: seq<Option<nat>>, i: nat, maximum: nat)
    requires i < |weights| == |grants|
  {
    var capacity, heap := CapacityAfter(grants, i), Sum(weights[..i + 1]);
    || Moving(i, capacity, capacity + 1, itemBytes, heap) > maximum
    || (grants[i].Some? && Moving(i, capacity, grants[i].value, itemBytes, heap) > maximum)
  }

  /** The vector is full before item `i`, and the allocator grants less than is asked for. */
  predicate ShortAt(weights: seq<nat>, itemBytes: nat, grants: seq<Option<nat>>, i: nat, maximum: nat)
    requires i < |weights| == |grants| && itemBytes > 0
  {
    CapacityAfter(grants, i) == i && Starved(i, itemBytes, Sum(weights[..i + 1]), maximum, grants[i])
  }

  /** Collect items that own `weights` bytes.  A listing that comes back was inside its budget while each of its items
      was added, also while the vector was growing. */
  method Collect(weights: seq<nat>, itemBytes: nat, maximum: nat, grants: seq<Option<nat>>) returns (r: Collected)
    requires itemBytes > 0 && maximum <= USIZE_MAX && |grants| == |weights|
    requires forall i :: 0 <= i < |weights| ==> weights[i] <= USIZE_MAX
    requires forall i :: 0 <= i < |grants| && grants[i].Some? ==> Bytes(grants[i].value, itemBytes) <= ISIZE_MAX
    ensures r.Listing? ==> VecOk(|weights|, r.capacity, itemBytes) && r.capacity == CapacityAfter(grants, |weights|)
    ensures r.Listing? && Effective(maximum) ==> r.heap == Sum(weights)
    ensures r.Listing? && Effective(maximum) ==>
            forall i :: 0 <= i < |weights| ==> BytesDuring(weights, itemBytes, grants, i) <= maximum
    ensures r.Refused? && Effective(maximum) ==>
            exists i :: 0 <= i < |weights| && OverBudget(weights, itemBytes, grants, i, maximum)
    ensures r.OutOfMemory? && Effective(maximum) ==>
            exists i :: 0 <= i < |weights| && ShortAt(weights, itemBytes, grants, i, maximum)
  {
    var capacity, heap, i := 0, 0, 0;
    while i < |weights|
      invariant 0 <= i <= |weights| && VecOk(i, capacity, itemBytes) && heap <= USIZE_MAX
      invariant capacity == CapacityAfter(grants, i)
      invariant Effective(maximum) ==> heap == Sum(weights[..i])
      invariant Effective(maximum) ==>
                forall k :: 0 <= k < i ==> BytesDuring(weights, itemBytes, grants, k) <= maximum
    {
      SumNext(weights, i);
      var p := Push(i, capacity, itemBytes, heap, weights[i], maximum, grants[i]);
      match p {
        case TooLarge =>
          assert Effective(maximum) ==> OverBudget(weights, itemBytes, grants, i, maximum);
          return Refused;
        case NoMemory =>
          assert Effective(maximum) ==> ShortAt(weights, itemBytes, grants, i, maximum);
          return OutOfMemory;
        case Pushed(c, h) => capacity, heap := c, h;
      }
      i := i + 1;
    }
    assert weights[..i] == weights;
    r := Listing(capacity, heap);
  }

  // ----- Before sorting

  /** Two index arrays must fit beside what the listing retains. */
  method SortFits(weights: seq<nat>, capacity: nat, itemBytes: nat, maximum: nat) returns (fits: bool)
    requires maximum <= USIZE_MAX
    ensures fits <==>
            RealBytes(capacity, itemBytes, Sum(weights)) + 2 * Bytes(|weights|, INDEX_BYTES) <= maximum ||
            !Effective(maximum)
  {
    var heap, i := 0, 0;
    while i < |weights|
      invariant 0 <= i <= |weights| && heap == Min(Sum(weights[..i]), USIZE_MAX)
    {
      SumNext(weights, i);
      heap := SaturatingAdd(heap, weights[i]);
      i := i + 1;
    }
    assert weights[..i] == weights;
    var retained := CollectionBytes(capacity, itemBytes, heap);
    var index := SaturatingBytes(|weights|, INDEX_BYTES);
    fits := SaturatingAdd(retained, SaturatingAdd(index, index)) <= maximum;
  }
}
