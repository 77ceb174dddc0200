/**
 The orders in which a listing can be sorted.

 `alphanumeric` stands for the external comparison of folded names; whatever it
 is, if it is a total preorder then every listing order is one, ascending or
 descending, which is what the sort needs.
 */
module ListingOrder {
  import opened Arithmetic
  import opened InterruptibleSort

  datatype PathType = Dir | SymlinkDir | File | SymlinkFile

  type Bytes = seq<Byte>

  datatype PathItem = PathItem(pathType: PathType, sortName: Bytes, name: Bytes, mtime: nat, size: nat)

  datatype SortKey = ByName | ByMtime | BySize

  /** Directories come first, whether linked or not. */
  function Rank(t: PathType): (r: nat) {
    if t.Dir? || t.SymlinkDir? then 0 else 1
  }

  function CompareNat(a: nat, b: nat): (r: Ordering) {
    if a < b then Less else if a == b then Equal else Greater
  }

  /** Byte-wise lexicographic order. */
  function CompareBytes(a: Bytes, b: Bytes): (r: Ordering) {
    if a == [] then (if b == [] then Equal else Less)
    else if b == [] then Greater
    else if a[0] < b[0] then Less
    else if a[0] > b[0] then Greater
    else CompareBytes(a[1..], b[1..])
  }

  function ThenWith(first: Ordering, second: Ordering): (r: Ordering) {
    if first == Equal then second else first
  }

  function Reversed(o: Ordering): (r: Ordering) {
    match o case Less => Greater case Equal => Equal case Greater => Less
  }

  function ByTypeAndName(alphanumeric: Compare<Bytes>, a: PathItem, b: PathItem): (r: Ordering) {
    ThenWith(CompareNat(Rank(a.pathType), Rank(b.pathType)),
             ThenWith(alphanumeric(a.sortName, b.sortName), CompareBytes(a.name, b.name)))
  }

  function ByTypeAndNumber(alphanumeric: Compare<Bytes>, m: nat, n: nat, a: PathItem, b: PathItem): (r: Ordering) {
    ThenWith(CompareNat(Rank(a.pathType), Rank(b.pathType)),
             ThenWith(CompareNat(m, n), ByTypeAndName(alphanumeric, a, b)))
  }

  function Ascending(alphanumeric: Compare<Bytes>, key: SortKey, a: PathItem, b: PathItem): (r: Ordering) {
    match key
    case ByMtime => ByTypeAndNumber(alphanumeric, a.mtime, b.mtime, a, b)
    case BySize => ByTypeAndNumber(alphanumeric, a.size, b.size, a, b)
    case ByName => ByTypeAndName(alphanumeric, a, b)
  }

  function ComparePathItems(alphanumeric: Compare<Bytes>, key: SortKey, descending: bool): (r: Compare<PathItem>) {
    (a, b) => if descending then Reversed(Ascending(alphanumeric, key, a, b)) else Ascending(alphanumeric, key, a, b)
  }

  lemma {:induction false} BytesAntisymmetric(a: Bytes, b: Bytes)
    ensures CompareBytes(b, a) == Reversed(CompareBytes(a, b))
  {
    if a != [] && b != [] && a[0] == b[0] { BytesAntisymmetric(a[1..], b[1..]); }
  }

  lemma {:induction false} BytesTransitive(a: Bytes, b: Bytes, c: Bytes)
    requires CompareBytes(a, b) != Greater && CompareBytes(b, c) != Greater
    ensures CompareBytes(a, c) != Greater
    ensures CompareBytes(a, c) == Equal ==> CompareBytes(a, b) == Equal && CompareBytes(b, c) == Equal
  {
    if a != [] && b != [] && c != [] && a[0] == b[0] == c[0] {
      BytesTransitive(a[1..], b[1..], c[1..]);
    }
  }

  lemma AscendingReverses(alphanumeric: Compare<Bytes>, key: SortKey, a: PathItem, b: PathItem)
    requires TotalPreorder(alphanumeric)
    ensures Ascending(alphanumeric, key, b, a) == Reversed(Ascending(alphanumeric, key, a, b))
  {
    BytesAntisymmetric(a.name, b.name);
    assert alphanumeric(b.sortName, a.sortName) == Reversed(alphanumeric(a.sortName, b.sortName));
  }

  lemma NameTransitive(alphanumeric: Compare<Bytes>, a: PathItem, b: PathItem, c: PathItem)
    requires TotalPreorder(alphanumeric)
    requires ByTypeAndName(alphanumeric, a, b) != Greater && ByTypeAndName(alphanumeric, b, c) != Greater
    ensures ByTypeAndName(alphanumeric, a, c) != Greater
    ensures ByTypeAndName(alphanumeric, a, c) == Equal ==>
            ByTypeAndName(alphanumeric, a, b) == Equal && ByTypeAndName(alphanumeric, b, c) == Equal
  {
    if Rank(a.pathType) == Rank(b.pathType) == Rank(c.pathType) {
      var x, y, z := a.sortName, b.sortName, c.sortName;
      assert alphanumeric(x, z) != Greater;
      if alphanumeric(x, z) == Equal {
        BytesTransitive(a.name, b.name, c.name);
      }
    }
  }

  lemma AscendingTransitive(alphanumeric: Compare<Bytes>, key: SortKey, a: PathItem, b: PathItem, c: PathItem)
    requires TotalPreorder(alphanumeric)
    requires Ascending(alphanumeric, key, a, b) != Greater && Ascending(alphanumeric, key, b, c) != Greater
    ensures Ascending(alphanumeric, key, a, c) != Greater
  {
    if ByTypeAndName(alphanumeric, a, b) != Greater && ByTypeAndName(alphanumeric, b, c) != Greater {
      NameTransitive(alphanumeric, a, b, c);
    }
  }

  /** Every listing order meets what the stable sort asks of a comparison. */
  lemma ListingOrderIsTotalPreorder(alphanumeric: Compare<Bytes>, key: SortKey, descending: bool)
    requires TotalPreorder(alphanumeric)
    ensures TotalPreorder(ComparePathItems(alphanumeric, key, descending))
  {
    var compare := ComparePathItems(alphanumeric, key, descending);
    forall a, b
      ensures compare(a, b) == Greater <==> compare(b, a) == Less
    {
      AscendingReverses(alphanumeric, key, a, b);
    }
    forall a, b, c | compare(a, b) != Greater && compare(b, c) != Greater
      ensures compare(a, c) != Greater
    {
      AscendingReverses(alphanumeric, key, a, b);
      AscendingReverses(alphanumeric, key, b, c);
      AscendingReverses(alphanumeric, key, a, c);
      if descending {
        AscendingTransitive(alphanumeric, key, c, b, a);
      } else {
        AscendingTransitive(alphanumeric, key, a, b, c);
      }
    }
  }

  /** Items that tie under a listing order have the same name, so the entries of one directory
      never tie and its listing has exactly one order. */
  lemma {:induction false} TieIsSameName(alphanumeric: Compare<Bytes>, key: SortKey, descending: bool, a: PathItem,
                                         b: PathItem)
    requires ComparePathItems(alphanumeric, key, descending)(a, b) == Equal
    ensures a.name == b.name && Rank(a.pathType) == Rank(b.pathType)
  {
    BytesEqual(a.name, b.name);
  }

  lemma {:induction false} BytesEqual(a: Bytes, b: Bytes)
    ensures CompareBytes(a, b) == Equal ==> a == b
  {
    if a != [] && b != [] && a[0] == b[0] {
      BytesEqual(a[1..], b[1..]);
      assert a == [a[0]] + a[1..] && b == [b[0]] + b[1..];
    }
  }

  // ----- What the orders mean

  predicate IsDirectory(a: PathItem) {
    a.pathType.Dir? || a.pathType.SymlinkDir?
  }

  /** The first byte that differs decides, and a proper prefix comes first. */
  ghost predicate BytesPrecede(a: Bytes, b: Bytes) {
    exists k :: 0 <= k <= |a| && k < |b| && a[..k] == b[..k] && (k == |a| || a[k] < b[k])
  }

  lemma {:induction false} CompareBytesIsLexicographic(a: Bytes, b: Bytes)
    ensures CompareBytes(a, b) == Less <==> BytesPrecede(a, b)
  {
    if a == [] || b == [] || a[0] != b[0] {
      if b != [] && (a == [] || a[0] < b[0]) { assert a[..0] == b[..0] && BytesPrecede(a, b); }
    } else {
      CompareBytesIsLexicographic(a[1..], b[1..]);
      if BytesPrecede(a[1..], b[1..]) {
        var k :| 0 <= k <= |a[1..]| && k < |b[1..]| && a[1..][..k] == b[1..][..k]
                 && (k == |a[1..]| || a[1..][k] < b[1..][k]);
        assert a[..k + 1] == [a[0]] + a[1..][..k] && b[..k + 1] == [b[0]] + b[1..][..k];
      }
      if BytesPrecede(a, b) {
        var k :| 0 <= k <= |a| && k < |b| && a[..k] == b[..k] && (k == |a| || a[k] < b[k]);
        assert k > 0;
        assert a[1..][..k - 1] == a[..k][1..] && b[1..][..k - 1] == b[..k][1..];
      }
    }
  }

  ghost predicate NamePrecedes(alphanumeric: Compare<Bytes>, a: PathItem, b: PathItem) {
    || alphanumeric(a.sortName, b.sortName) == Less
    || (alphanumeric(a.sortName, b.sortName) == Equal && BytesPrecede(a.name, b.name))
  }

  /** Directories come first; among their equals the chosen field decides, and names decide where that is the same. */
  ghost predicate Precedes(alphanumeric: Compare<Bytes>, key: SortKey, a: PathItem, b: PathItem) {
    if IsDirectory(a) != IsDirectory(b) then IsDirectory(a)
    else
      match key
      case ByName => NamePrecedes(alphanumeric, a, b)
      case ByMtime => a.mtime < b.mtime || (a.mtime == b.mtime && NamePrecedes(alphanumeric, a, b))
      case BySize => a.size < b.size || (a.size == b.size && NamePrecedes(alphanumeric, a, b))
  }

  lemma AscendingIsPrecedes(alphanumeric: Compare<Bytes>, key: SortKey, a: PathItem, b: PathItem)
    ensures Ascending(alphanumeric, key, a, b) == Less <==> Precedes(alphanumeric, key, a, b)
  {
    CompareBytesIsLexicographic(a.name, b.name);
  }

  /** A sorted listing: nothing stands behind what it precedes; in descending order nothing stands before it. */
  lemma SortedListing(alphanumeric: Compare<Bytes>, key: SortKey, descending: bool, before: seq<PathItem>,
                      after: seq<PathItem>, i: nat, j: nat)
    requires TotalPreorder(alphanumeric) && i < j < |after|
    requires StablySorted(before, after, ComparePathItems(alphanumeric, key, descending))
    ensures if descending then !Precedes(alphanumeric, key, after[i], after[j])
            else !Precedes(alphanumeric, key, after[j], after[i])
  {
    var p :| StableOrder(before, ComparePathItems(alphanumeric, key, descending), p) && after == Arrange(before, p);
    assert Before(before, ComparePathItems(alphanumeric, key, descending), p[i], p[j]);
    AscendingReverses(alphanumeric, key, after[i], after[j]);
    AscendingIsPrecedes(alphanumeric, key, after[i], after[j]);
    AscendingIsPrecedes(alphanumeric, key, after[j], after[i]);
  }
}
