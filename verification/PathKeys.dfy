/**
 The keys that path leases compare, and how they are resolved.

 A key names an entry by the deepest existing directory above it and the names
 that are still unresolved below that directory; it also carries the physical
 ancestry of that directory, and the identity of the entry when it is a
 directory itself.  The last component of a path is never followed.

 The main result, `ConflictIsOverlap`, says that comparing two keys decides
 exactly whether the absolute physical paths of the two entries overlap.
 */
module PathKeys {
  import opened Wrappers
  import opened Filesystem
  import opened PrefixSearch

  /** More ancestors than this is an error of the `..` walk. */
  const MAX_DIRECTORY_ANCESTORS: nat := 4096

  datatype ResolvedKey = ResolvedKey(
    parent: DirId,
    tail: Path,
    ancestors: seq<DirId>,
    target: Option<DirId>)

  /** What a lease or a waiter holds for one path. */
  datatype LeaseKey = LeaseKey(lexical: Path, resolved: ResolvedKey)

  // ----- Comparison

  predicate AnchoredTailIsPrefix(left: ResolvedKey, right: ResolvedKey) {
    left.parent == right.parent && left.tail <= right.tail
  }

  predicate TargetAbove(left: ResolvedKey, right: ResolvedKey) {
    left.target.Some? && left.target.value in right.ancestors
  }

  predicate ResolvedContains(ancestor: ResolvedKey, descendant: ResolvedKey) {
    AnchoredTailIsPrefix(ancestor, descendant) || TargetAbove(ancestor, descendant)
  }

  predicate ResolvedStrictlyContains(ancestor: ResolvedKey, descendant: ResolvedKey) {
    || (|ancestor.tail| < |descendant.tail| && AnchoredTailIsPrefix(ancestor, descendant))
    || TargetAbove(ancestor, descendant)
  }

  predicate ResolvedConflict(left: ResolvedKey, right: ResolvedKey) {
    || AnchoredTailIsPrefix(left, right)
    || AnchoredTailIsPrefix(right, left)
    || TargetAbove(left, right)
    || TargetAbove(right, left)
  }

  predicate LexicalOverlap(left: Path, right: Path) {
    left <= right || right <= left
  }

  predicate KeysConflict(left: LeaseKey, right: LeaseKey) {
    LexicalOverlap(left.lexical, right.lexical) || ResolvedConflict(left.resolved, right.resolved)
  }

  predicate StrictlyContains(ancestor: LeaseKey, descendant: LeaseKey) {
    || (ancestor.lexical != descendant.lexical && ancestor.lexical <= descendant.lexical)
    || ResolvedStrictlyContains(ancestor.resolved, descendant.resolved)
  }

  predicate SameEntry(left: LeaseKey, right: LeaseKey) {
    || left.lexical == right.lexical
    || (left.resolved.parent == right.resolved.parent && left.resolved.tail == right.resolved.tail)
  }

  // ----- Resolution

  /** What each prefix of `names` answers when it is opened. */
  function ProbeTable(fs: Fs, names: Path): (r: seq<Opened>)
    requires WellFormed(fs)
    ensures |r| == |names| + 1
  {
    seq(|names| + 1, k requires 0 <= k <= |names| && WellFormed(fs) =>
      if k == 0 then Open(fs.root) else OpenDirectory(fs, names[..k]))
  }

  function TargetDirectory(fs: Fs, dir: DirId, name: Name): (r: Option<DirId>)
    requires dir in fs.entries
    ensures r.Some? <==> exists d :: Holds(fs, Place(dir, name), d)
    ensures r.Some? ==> Holds(fs, Place(dir, name), r.value)
  {
    if name in fs.entries[dir] && fs.entries[dir][name].Directory?
    then assert Holds(fs, Place(dir, name), fs.entries[dir][name].id); Some(fs.entries[dir][name].id)
    else None
  }

  /** The key of the entry that `path` names below the root. */
  function ResolveKey(fs: Fs, path: Path): (r: Result<ResolvedKey, IoError>)
    requires WellFormed(fs)
  {
    if path == [] then Err(InvalidInput)
    else
      match LinearScan(ProbeTable(fs, path[..|path| - 1]), 0)
      case Error(e) => Err(e)
      case Prefix(dir, len) => KeyAt(fs, path, dir, len)
  }

  function KeyAt(fs: Fs, path: Path, dir: DirId, len: nat): (r: Result<ResolvedKey, IoError>)
    requires WellFormed(fs) && len < |path| && dir in fs.entries
  {
    var ancestors := Ancestry(fs, dir);
    if |ancestors| > MAX_DIRECTORY_ANCESTORS then Err(TooDeep)
    else
      var target := if len == |path| - 1 then TargetDirectory(fs, dir, path[len]) else None;
      Ok(ResolvedKey(dir, path[len..], ancestors, target))
  }

  /** The key used when resolution fails: it stands for the root itself. */
  function ConservativeKey(root: DirId): (r: ResolvedKey) {
    ResolvedKey(root, [], [root], Some(root))
  }

  /** The key of a path; one that cannot be resolved stands for the whole tree. */
  function FailClosed(fs: Fs, path: Path): (k: LeaseKey)
    requires WellFormed(fs)
  {
    var r := ResolveKey(fs, path);
    LeaseKey(path, if r.Ok? then r.value else ConservativeKey(fs.root))
  }

  // ----- The code that computes a key

  method DirectoryAncestry(fs: Fs, directory: DirId) returns (r: Result<seq<DirId>, IoError>)
    requires WellFormed(fs) && directory in fs.entries
    ensures r == if fs.level[directory] < MAX_DIRECTORY_ANCESTORS then Ok(Ancestry(fs, directory)) else Err(TooDeep)
  {
    var current := directory;
    var below: seq<DirId> := [];  // the directories already passed, outermost first
    for i := 0 to MAX_DIRECTORY_ANCESTORS
      invariant current in fs.entries && |below| == i && fs.level[directory] == fs.level[current] + i
      invariant Ancestry(fs, directory) == Ancestry(fs, current) + below
    {
      if current == fs.root {
        return Ok([current] + below);
      }
      below := [current] + below;
      current := fs.places[current].dir;
    }
    r := Err(TooDeep);
  }

  /** What the code computes, with its binary search, is the reference key. */
  method ResolvedPathKey(fs: Fs, path: Path) returns (r: Result<ResolvedKey, IoError>)
    requires WellFormed(fs)
    ensures r == ResolveKey(fs, path)
  {
    if path == [] { return Err(InvalidInput); }
    var names := path[..|path| - 1];
    var table := ProbeTable(fs, names);
    TableIsMonotone(fs, names);
    var found, _ := Search(fs.root, |names|,
                           (call: nat, k: nat) => if k < |table| then table[k] else Denied(NotFound), table);
    if found.Error? { return Err(found.error); }
    var ancestors := DirectoryAncestry(fs, found.dir);
    if ancestors.Err? { return Err(ancestors.error); }
    var target := None;
    if found.len == |names| { target := TargetDirectory(fs, found.dir, path[found.len]); }
    r := Ok(ResolvedKey(found.dir, path[found.len..], ancestors.value, target));
  }

  // ----- What a resolved key says

  /** A key that the resolver can return: its ancestry is the one of its parent,
      its tail is not empty, it has a target exactly when the tail is one real directory,
      and a longer tail does not start with a real directory. */
  ghost predicate Anchored(fs: Fs, k: ResolvedKey)
    requires WellFormed(fs)
  {
    && k.parent in fs.entries
    && k.ancestors == Ancestry(fs, k.parent)
    && |k.tail| > 0
    && (forall d: DirId :: Holds(fs, Place(k.parent, k.tail[0]), d) ==> |k.tail| == 1 && k.target == Some(d))
    && (k.target.Some? ==> |k.tail| == 1 && Holds(fs, Place(k.parent, k.tail[0]), k.target.value))
  }

  lemma TableIsMonotone(fs: Fs, names: Path)
    requires WellFormed(fs)
    ensures Monotone(ProbeTable(fs, names))
  {
    var t := ProbeTable(fs, names);
    forall i, j | 0 <= i < j < |t| && t[i].Denied?
      ensures t[j] == t[i]
    {
      assert names[..j] == names[..i] + names[i..j];
      OpenMonotone(fs, names[..i], names[i..j]);
    }
  }

  /** The scan stops only where no real directory continues. */
  lemma NoDirectoryContinues(fs: Fs, names: Path, len: nat, d: DirId)
    requires WellFormed(fs)
    requires len < |names| && ProbeTable(fs, names)[len].Open?
    requires Holds(fs, Place(ProbeTable(fs, names)[len].dir, names[len]), d)
    ensures ProbeTable(fs, names)[len + 1].Open?
  {
    var dir := ProbeTable(fs, names)[len].dir;
    assert names[..0] == [];
    assert OpenDirectory(fs, names[..len]) == Open(dir);
    assert names[..len + 1] == names[..len] + [names[len]];
    OpenSplits(fs, names[..len], [names[len]]);
    var w := Walk(fs, fs.root, Components(names[..len]), MAX_LINKS);
    assert Components([names[len]]) == [Named(names[len])];
    assert Walk(fs, dir, [Named(names[len])], w.links) == Walk(fs, d, [Named(names[len])][1..], w.links);
  }

  lemma ResolvedIsAnchored(fs: Fs, path: Path)
    requires WellFormed(fs) && ResolveKey(fs, path).Ok?
    ensures Anchored(fs, ResolveKey(fs, path).value)
  {
    var names := path[..|path| - 1];
    var found := LinearScan(ProbeTable(fs, names), 0);
    var k := ResolveKey(fs, path).value;
    assert |k.tail| == |path| - found.len && k.tail[0] == path[found.len];
    forall d: DirId | Holds(fs, Place(k.parent, k.tail[0]), d)
      ensures |k.tail| == 1 && k.target == Some(d)
    {
      if found.len < |names| {
        NoDirectoryContinues(fs, names, found.len, d);
      }
    }
  }

  // ----- The reference: absolute physical paths

  /** Where the entry really is: the names from the root to its parent, then the tail. */
  function PhysicalPath(fs: Fs, k: ResolvedKey): (r: Path)
    requires WellFormed(fs) && k.parent in fs.entries
  {
    PathOf(fs, k.parent) + k.tail
  }

  /** A name that is refused in a directory is refused also when the directory is reached by its physical path. */
  lemma RefusedByAnyPath(fs: Fs, path: Path, dir: DirId, n: Name, e: IoError)
    requires WellFormed(fs) && OpenDirectory(fs, path) == Open(dir)
    requires OpenDirectory(fs, path + [n]) == Denied(e) && Unresolved(e)
    ensures OpenDirectory(fs, PathOf(fs, dir) + [n]) == Denied(e)
  {
    OpenSplits(fs, path, [n]);
    OpenSplits(fs, PathOf(fs, dir), [n]);
    WalkDown(fs, dir, MAX_LINKS);
    var w := Walk(fs, fs.root, Components(path), MAX_LINKS);
    MoreLinks(fs, dir, Components([n]), w.links, MAX_LINKS - w.links);
  }

  lemma EmptyPathIsRoot(fs: Fs)
    requires WellFormed(fs)
    ensures OpenDirectory(fs, []) == Open(fs.root)
  {
    assert Components([]) == [];
  }

  /** Where the scan stopped, the next name is refused also when it is looked up afresh. */
  lemma RefusedAfresh(fs: Fs, path: Path)
    requires WellFormed(fs) && ResolveKey(fs, path).Ok?
    requires |ResolveKey(fs, path).value.tail| > 1
    ensures var k := ResolveKey(fs, path).value;
            k.parent in fs.entries && RefusedIn(fs, k.parent, k.tail[0])
  {
    var names := path[..|path| - 1];
    var table := ProbeTable(fs, names);
    var found := LinearScan(table, 0);
    var len := found.len;
    ScanRefusal(table, 0);
    EmptyPathIsRoot(fs);
    assert names[..0] == [] && names[..len + 1] == names[..len] + [names[len]];
    RefusedByAnyPath(fs, names[..len], found.dir, names[len], table[len + 1].error);
  }

  /** Looked up by the physical path of the directory, the name leaves an unresolved tail. */
  predicate RefusedIn(fs: Fs, d: DirId, n: Name)
    requires WellFormed(fs) && d in fs.entries
  {
    var r := OpenDirectory(fs, PathOf(fs, d) + [n]);
    r.Denied? && Unresolved(r.error)
  }

  /** What the probes of a physical path answer at the directory and one name further. */
  lemma PhysicalProbes(fs: Fs, d: DirId, rest: Path)
    requires WellFormed(fs) && d in fs.entries
    ensures var a := PathOf(fs, d); var table := ProbeTable(fs, a + rest);
            && table[|a|] == Open(d)
            && (rest != [] ==> table[|a| + 1] == OpenDirectory(fs, a + [rest[0]]))
  {
    var a := PathOf(fs, d);
    WalkDown(fs, d, MAX_LINKS);
    assert (a + rest)[..|a|] == a;
    if rest != [] { assert (a + rest)[..|a| + 1] == a + [rest[0]]; }
  }

  /** Scanning the physical path of a directory, continued with names that do not resolve, finds the directory. */
  lemma ScanFindsDirectory(fs: Fs, d: DirId, rest: Path)
    requires WellFormed(fs) && d in fs.entries && (rest != [] ==> RefusedIn(fs, d, rest[0]))
    ensures LinearScan(ProbeTable(fs, PathOf(fs, d) + rest), 0) == Prefix(d, |PathOf(fs, d)|)
  {
    var a := PathOf(fs, d);
    TableIsMonotone(fs, a + rest);
    PhysicalProbes(fs, d, rest);
    ScanStopsAt(ProbeTable(fs, a + rest), |a|, d);
  }

  lemma ScanOfPhysicalPath(fs: Fs, k: ResolvedKey)
    requires WellFormed(fs) && k.parent in fs.entries && |k.tail| > 0
    requires |k.tail| > 1 ==> RefusedIn(fs, k.parent, k.tail[0])
    ensures var p := PhysicalPath(fs, k);
            LinearScan(ProbeTable(fs, p[..|p| - 1]), 0) == Prefix(k.parent, |PathOf(fs, k.parent)|)
  {
    var p := PhysicalPath(fs, k);
    ScanFindsDirectory(fs, k.parent, k.tail[..|k.tail| - 1]);
    assert p[..|p| - 1] == PathOf(fs, k.parent) + k.tail[..|k.tail| - 1];
  }

  /** The physical path is a name of the entry: resolving it gives the same key. */
  lemma PhysicalPathIsCanonical(fs: Fs, path: Path)
    requires WellFormed(fs) && ResolveKey(fs, path).Ok?
    ensures var k := ResolveKey(fs, path).value;
            k.parent in fs.entries && ResolveKey(fs, PhysicalPath(fs, k)) == Ok(k)
  {
    var k := ResolveKey(fs, path).value;
    assert |k.ancestors| <= MAX_DIRECTORY_ANCESTORS;
    ResolvedIsAnchored(fs, path);
    if |k.tail| > 1 { RefusedAfresh(fs, path); }
    CanonicalKey(fs, k);
  }

  lemma CanonicalKey(fs: Fs, k: ResolvedKey)
    requires WellFormed(fs) && Anchored(fs, k) && |k.ancestors| <= MAX_DIRECTORY_ANCESTORS
    requires |k.tail| > 1 ==> RefusedIn(fs, k.parent, k.tail[0])
    ensures ResolveKey(fs, PhysicalPath(fs, k)) == Ok(k)
  {
    ScanOfPhysicalPath(fs, k);
    AnchoredKeyAt(fs, k);
  }

  lemma AnchoredKeyAt(fs: Fs, k: ResolvedKey)
    requires WellFormed(fs) && Anchored(fs, k) && |k.ancestors| <= MAX_DIRECTORY_ANCESTORS
    ensures KeyAt(fs, PhysicalPath(fs, k), k.parent, |PathOf(fs, k.parent)|) == Ok(k)
  {
    var p, n := PhysicalPath(fs, k), |PathOf(fs, k.parent)|;
    assert p[n..] == k.tail && p[n] == k.tail[0];
    assert TargetDirectory(fs, k.parent, k.tail[0]).None? ==> k.target.None?;
  }

  /** Containment of keys is the prefix order of physical paths. */
  lemma ContainsIsPrefix(fs: Fs, left: ResolvedKey, right: ResolvedKey)
    requires WellFormed(fs) && Anchored(fs, left) && Anchored(fs, right)
    ensures ResolvedContains(left, right) <==> PhysicalPath(fs, left) <= PhysicalPath(fs, right)
  {
    if ResolvedContains(left, right) {
      ContainsImpliesPrefix(fs, left, right);
    }
    if PhysicalPath(fs, left) <= PhysicalPath(fs, right) {
      PrefixImpliesContains(fs, left, right);
    }
  }

  lemma ContainsImpliesPrefix(fs: Fs, left: ResolvedKey, right: ResolvedKey)
    requires WellFormed(fs) && Anchored(fs, left) && Anchored(fs, right)
    requires ResolvedContains(left, right)
    ensures PhysicalPath(fs, left) <= PhysicalPath(fs, right)
    ensures TargetAbove(left, right) ==> PhysicalPath(fs, left) < PhysicalPath(fs, right)
  {
    if TargetAbove(left, right) {
      var d := left.target.value;
      assert Holds(fs, Place(left.parent, left.tail[0]), d);
      assert PathOf(fs, d) == PathOf(fs, left.parent) + [left.tail[0]] == PhysicalPath(fs, left);
      AncestorIffPrefix(fs, d, right.parent);
    }
  }

  /** The contained entry's parent lies below the first name of the container's tail. */
  lemma DeeperIsContained(fs: Fs, left: ResolvedKey, right: ResolvedKey)
    requires WellFormed(fs) && Anchored(fs, left) && Anchored(fs, right)
    requires PhysicalPath(fs, left) <= PhysicalPath(fs, right) && fs.level[left.parent] < fs.level[right.parent]
    ensures TargetAbove(left, right)
  {
    var a, b := PathOf(fs, left.parent), PathOf(fs, right.parent);
    var p, q := PhysicalPath(fs, left), PhysicalPath(fs, right);
    assert a + [left.tail[0]] == p[..|a| + 1] == q[..|a| + 1] == b[..|a| + 1];
    var x := StepTowards(fs, left.parent, right.parent, left.tail[0]);
  }

  lemma SameParent(fs: Fs, left: ResolvedKey, right: ResolvedKey)
    requires WellFormed(fs) && left.parent in fs.entries && right.parent in fs.entries
    requires PhysicalPath(fs, left) <= PhysicalPath(fs, right) && fs.level[left.parent] == fs.level[right.parent]
    ensures AnchoredTailIsPrefix(left, right)
  {
    var a, b := PathOf(fs, left.parent), PathOf(fs, right.parent);
    var p, q := PhysicalPath(fs, left), PhysicalPath(fs, right);
    assert a == p[..|a|] == q[..|a|] == b;
    PathOfInjective(fs, left.parent, right.parent);
    assert left.tail == p[|a|..] && right.tail == q[|a|..];
  }

  lemma PrefixImpliesContains(fs: Fs, left: ResolvedKey, right: ResolvedKey)
    requires WellFormed(fs) && Anchored(fs, left) && Anchored(fs, right)
    requires PhysicalPath(fs, left) <= PhysicalPath(fs, right)
    ensures ResolvedContains(left, right)
  {
    ParentNotBelow(fs, left, right);
    if fs.level[left.parent] < fs.level[right.parent] {
      DeeperIsContained(fs, left, right);
    } else {
      SameParent(fs, left, right);
    }
  }

  /** A container's parent directory is never deeper than the contained entry's. */
  lemma ParentNotBelow(fs: Fs, left: ResolvedKey, right: ResolvedKey)
    requires WellFormed(fs) && Anchored(fs, left) && Anchored(fs, right)
    requires PhysicalPath(fs, left) <= PhysicalPath(fs, right)
    ensures fs.level[left.parent] <= fs.level[right.parent]
  {
    var a, b := PathOf(fs, left.parent), PathOf(fs, right.parent);
    if |a| > |b| {
      var p, q := PhysicalPath(fs, left), PhysicalPath(fs, right);
      assert b + [right.tail[0]] == q[..|b| + 1] == p[..|b| + 1] == a[..|b| + 1];
      var x := StepTowards(fs, right.parent, left.parent, right.tail[0]);
      assert false;
    }
  }

  /** Strict containment is the proper prefix order. */
  lemma StrictlyContainsIsProperPrefix(fs: Fs, left: ResolvedKey, right: ResolvedKey)
    requires WellFormed(fs) && Anchored(fs, left) && Anchored(fs, right)
    ensures ResolvedStrictlyContains(left, right) <==> PhysicalPath(fs, left) < PhysicalPath(fs, right)
  {
    ContainsIsPrefix(fs, left, right);
    if ResolvedContains(left, right) {
      ContainsImpliesPrefix(fs, left, right);
    }
  }

  /** One parent and one tail is one physical path. */
  lemma SameEntryIsSamePath(fs: Fs, left: ResolvedKey, right: ResolvedKey)
    requires WellFormed(fs) && Anchored(fs, left) && Anchored(fs, right)
    ensures left.parent == right.parent && left.tail == right.tail <==>
            PhysicalPath(fs, left) == PhysicalPath(fs, right)
  {
    if PhysicalPath(fs, left) == PhysicalPath(fs, right) {
      ContainsIsPrefix(fs, left, right);
      StrictlyContainsIsProperPrefix(fs, left, right);
      assert !TargetAbove(left, right);
    }
  }

  /** Two resolved keys conflict exactly when the entries coincide or one contains the other. */
  lemma ConflictIsOverlap(fs: Fs, left: Path, right: Path)
    requires WellFormed(fs)
    requires ResolveKey(fs, left).Ok? && ResolveKey(fs, right).Ok?
    ensures var l, r := ResolveKey(fs, left).value, ResolveKey(fs, right).value;
            && l.parent in fs.entries && r.parent in fs.entries
            && (ResolvedConflict(l, r) <==> LexicalOverlap(PhysicalPath(fs, l), PhysicalPath(fs, r)))
  {
    ResolvedIsAnchored(fs, left);
    ResolvedIsAnchored(fs, right);
    var l, r := ResolveKey(fs, left).value, ResolveKey(fs, right).value;
    ContainsIsPrefix(fs, l, r);
    ContainsIsPrefix(fs, r, l);
  }

  // ----- The conservative key

  /** Every key the coordinator stores lists the root among its ancestors. */
  predicate Rooted(root: DirId, k: ResolvedKey) {
    root in k.ancestors
  }

  lemma ResolvedIsRooted(fs: Fs, path: Path)
    requires WellFormed(fs)
    ensures ResolveKey(fs, path).Ok? ==> Rooted(fs.root, ResolveKey(fs, path).value)
    ensures Rooted(fs.root, ConservativeKey(fs.root))
  {
    if ResolveKey(fs, path).Ok? {
      var k := ResolveKey(fs, path).value;
      assert k.ancestors[0] == fs.root;
    }
  }

  /** A failed resolution conflicts with every key. */
  lemma ConservativeConflictsWithAll(root: DirId, k: ResolvedKey)
    requires Rooted(root, k)
    ensures ResolvedConflict(ConservativeKey(root), k) && ResolvedConflict(k, ConservativeKey(root))
  {
  }

  // ----- Paths compared without keys

  /** Two paths overlap: by name, or by where they lead; and one that cannot be resolved overlaps everything. */
  predicate Overlap(fs: Fs, p: Path, q: Path)
    requires WellFormed(fs)
  {
    || ResolveKey(fs, p).Err? || ResolveKey(fs, q).Err? || p <= q || q <= p
    || var l, r := ResolveKey(fs, p).value, ResolveKey(fs, q).value;
       && l.parent in fs.entries && r.parent in fs.entries
       && (PhysicalPath(fs, l) <= PhysicalPath(fs, r) || PhysicalPath(fs, r) <= PhysicalPath(fs, l))
  }

  /** What the coordinator compares decides exactly that. */
  lemma KeysConflictIsOverlap(fs: Fs, p: Path, q: Path)
    requires WellFormed(fs)
    ensures KeysConflict(FailClosed(fs, p), FailClosed(fs, q)) <==> Overlap(fs, p, q)
  {
    ResolvedIsRooted(fs, p);
    ResolvedIsRooted(fs, q);
    if ResolveKey(fs, p).Err? {
      ConservativeConflictsWithAll(fs.root, FailClosed(fs, q).resolved);
    } else if ResolveKey(fs, q).Err? {
      ConservativeConflictsWithAll(fs.root, FailClosed(fs, p).resolved);
    } else {
      ConflictIsOverlap(fs, p, q);
    }
  }

  // ----- What a path resolves to, without any search

  /** The first `len` names of the path open a directory, and one name more is missing or is no directory. */
  predicate StopsAt(fs: Fs, path: Path, len: nat)
    requires WellFormed(fs)
  {
    && len < |path| && OpenDirectory(fs, path[..len]).Open?
    && (len < |path| - 1 ==>
          var next := OpenDirectory(fs, path[..len + 1]); next == Denied(NotFound) || next == Denied(NotADirectory))
  }

  /** The key of a path: the directory where it stops, the names from there on, and the entry itself if it is a
      directory. */
  lemma ResolvesWhereItStops(fs: Fs, path: Path, len: nat)
    requires WellFormed(fs) && StopsAt(fs, path, len)
    ensures var dir := OpenDirectory(fs, path[..len]).dir;
            ResolveKey(fs, path) ==
            if fs.level[dir] >= MAX_DIRECTORY_ANCESTORS then Err(TooDeep)
            else Ok(ResolvedKey(dir, path[len..], Ancestry(fs, dir),
                                if len == |path| - 1 && path[len] in fs.entries[dir]
                                   && fs.entries[dir][path[len]].Directory?
                                then Some(fs.entries[dir][path[len]].id) else None))
  {
    var names := path[..|path| - 1];
    var table := ProbeTable(fs, names);
    assert forall k :: 0 <= k <= |names| ==> names[..k] == path[..k];
    OpensRoot(fs);
    assert table[len] == OpenDirectory(fs, path[..len]);
    TableIsMonotone(fs, names);
    ScanStopsAt(table, len, table[len].dir);
  }

  lemma OpensRoot(fs: Fs)
    requires WellFormed(fs)
    ensures OpenDirectory(fs, []) == Open(fs.root)
  {
    assert Components([]) == [];
  }

  /** Every path but the empty one stops somewhere, unless it leaves the tree or follows too many links: resolution
      fails for no other reason than these and excess depth. */
  lemma ResolutionFailsOnlyBy(fs: Fs, path: Path)
    requires WellFormed(fs) && path != []
    ensures var front := OpenDirectory(fs, path[..|path| - 1]);
            if front == Denied(Escape) || front == Denied(Loop) then ResolveKey(fs, path) == Err(front.error)
            else exists len :: StopsAt(fs, path, len)
  {
    var names := path[..|path| - 1];
    var table := ProbeTable(fs, names);
    assert forall k :: 0 <= k <= |names| ==> names[..k] == path[..k];
    OpensRoot(fs);
    TableIsMonotone(fs, names);
    var front := OpenDirectory(fs, names);
    if front.Denied? { WalkErrors(fs, fs.root, Components(names), MAX_LINKS); }
    assert table[|names|] == front;
    if front == Denied(Escape) || front == Denied(Loop) {
      ScanReports(table, 0, |names|);
    } else {
      var len := LastOpen(table, |names|);
      if len < |names| { assert table[len + 1] == front; }
      assert StopsAt(fs, path, len);
    }
  }

  lemma {:induction false} LastOpen(table: seq<Opened>, upto: nat) returns (len: nat)
    requires upto < |table| && table[0].Open? && Monotone(table)
    ensures len <= upto && table[len].Open? && (len < upto ==> table[len + 1].Denied? && table[len + 1] == table[upto])
    decreases upto
  {
    if table[upto].Open? {
      len := upto;
    } else {
      len := LastOpen(table, upto - 1);
    }
  }
}
