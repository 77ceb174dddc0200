/**
 Checking a request's paths against the paths that durable state still speaks
 for, page by page.

 The first page with anything on it resolves the request's own paths together
 with its candidates and keeps them; a path that cannot be resolved ends the
 scan at once.  The tree does not change during a scan: the request holds the
 leases of its paths.
 */
module StatePathScan {
  import opened Wrappers
  import opened Filesystem
  import opened PathKeys

  datatype Relation = SymmetricConflict | StrictDescendant

  /** A path below the root; the root itself is never stored. */
  type EntryPath = p: Path | p != [] witness [""]

  /** A stored path, if it can still be read as one, and whether replacing exactly it is allowed. */
  datatype StatePath = StatePath(path: Option<EntryPath>, allowsExact: bool)

  predicate Hits(relation: Relation, source: LeaseKey, candidate: LeaseKey, allowsExact: bool) {
    match relation
    case SymmetricConflict => KeysConflict(source, candidate)
    case StrictDescendant => if SameEntry(source, candidate) then !allowsExact else StrictlyContains(source, candidate)
  }

  // ----- The reference: every pair on its own, failing closed

  predicate PairHits(fs: Fs, relation: Relation, source: Path, c: StatePath)
    requires WellFormed(fs)
  {
    c.path.None? || Hits(relation, FailClosed(fs, source), FailClosed(fs, c.path.value), c.allowsExact)
  }

  predicate AnyHits(fs: Fs, relation: Relation, sources: seq<Path>, page: seq<StatePath>)
    requires WellFormed(fs)
  {
    exists i, j :: 0 <= i < |sources| && 0 <= j < |page| && PairHits(fs, relation, sources[i], page[j])
  }

  // ----- What a page comes to

  predicate Resolves(fs: Fs, path: Path)
    requires WellFormed(fs)
  {
    ResolveKey(fs, path).Ok?
  }

  predicate AllResolve(fs: Fs, paths: seq<Path>)
    requires WellFormed(fs)
  {
    forall i :: 0 <= i < |paths| ==> Resolves(fs, paths[i])
  }

  function Keys(fs: Fs, paths: seq<Path>): (keys: seq<LeaseKey>)
    requires WellFormed(fs)
    ensures |keys| == |paths|
  {
    seq(|paths|, i requires 0 <= i < |paths| && WellFormed(fs) => FailClosed(fs, paths[i]))
  }

  predicate Readable(page: seq<StatePath>) {
    forall j :: 0 <= j < |page| ==> page[j].path.Some?
  }

  function PathsOf(page: seq<StatePath>): (paths: seq<Path>)
    requires Readable(page)
    ensures |paths| == |page|
  {
    seq(|page|, j requires 0 <= j < |page| && Readable(page) => page[j].path.value)
  }

  /** Something on the page cannot be read or resolved, or something hits. */
  predicate PageHits(fs: Fs, relation: Relation, sources: seq<Path>, page: seq<StatePath>)
    requires WellFormed(fs)
  {
    page != [] &&
    ( || !AllResolve(fs, sources)
      || (exists j :: 0 <= j < |page| && (page[j].path.None? || !Resolves(fs, page[j].path.value)))
      || AnyHits(fs, relation, sources, page))
  }

  /** For the symmetric check, giving up at the first path that cannot be resolved changes no answer. */
  lemma SymmetricPageIsExact(fs: Fs, sources: seq<Path>, page: seq<StatePath>)
    requires WellFormed(fs) && sources != []
    ensures PageHits(fs, SymmetricConflict, sources, page) <==> AnyHits(fs, SymmetricConflict, sources, page)
  {
    if PageHits(fs, SymmetricConflict, sources, page) {
      if !AllResolve(fs, sources) {
        var i :| 0 <= i < |sources| && !Resolves(fs, sources[i]);
        UnresolvedHits(fs, sources[i], page[0]);
      } else if j :| 0 <= j < |page| && (page[j].path.None? || !Resolves(fs, page[j].path.value)) {
        UnresolvedHits(fs, sources[0], page[j]);
      }
    }
  }

  /** A path that cannot be resolved conflicts with everything. */
  lemma UnresolvedHits(fs: Fs, source: Path, c: StatePath)
    requires WellFormed(fs) && (!Resolves(fs, source) || c.path.None? || !Resolves(fs, c.path.value))
    ensures PairHits(fs, SymmetricConflict, source, c)
  {
    if c.path.Some? {
      ResolvedIsRooted(fs, source);
      ResolvedIsRooted(fs, c.path.value);
      if Resolves(fs, c.path.value) {
        ConservativeConflictsWithAll(fs.root, FailClosed(fs, c.path.value).resolved);
      } else {
        ConservativeConflictsWithAll(fs.root, FailClosed(fs, source).resolved);
      }
    }
  }

  // ----- What the symmetric check is about

  /** A request path and a stored path overlap, or the stored one cannot be read any more. */
  predicate StoredOverlap(fs: Fs, source: Path, c: StatePath)
    requires WellFormed(fs)
  {
    c.path.None? || Overlap(fs, source, c.path.value)
  }

  predicate PageOverlaps(fs: Fs, sources: seq<Path>, page: seq<StatePath>)
    requires WellFormed(fs)
  {
    exists i, j :: 0 <= i < |sources| && 0 <= j < |page| && StoredOverlap(fs, sources[i], page[j])
  }

  /** A pair hits exactly when one path lies in the other, by name or by where they lead, or one of them cannot be
      resolved. */
  lemma SymmetricIsOverlap(fs: Fs, source: Path, c: StatePath)
    requires WellFormed(fs)
    ensures PairHits(fs, SymmetricConflict, source, c) <==> StoredOverlap(fs, source, c)
  {
    if c.path.Some? { KeysConflictIsOverlap(fs, source, c.path.value); }
  }

  lemma AnyHitsIsOverlap(fs: Fs, sources: seq<Path>, page: seq<StatePath>)
    requires WellFormed(fs)
    ensures AnyHits(fs, SymmetricConflict, sources, page) <==> PageOverlaps(fs, sources, page)
  {
    forall i, j | 0 <= i < |sources| && 0 <= j < |page|
      ensures PairHits(fs, SymmetricConflict, sources[i], page[j]) <==> StoredOverlap(fs, sources[i], page[j])
    {
      SymmetricIsOverlap(fs, sources[i], page[j]);
    }
  }

  // ----- The directional check refuses more

  lemma RootIsNoTarget(fs: Fs, path: Path)
    requires WellFormed(fs) && Resolves(fs, path)
    ensures var k := ResolveKey(fs, path).value; k.tail != [] && k.target != Some(fs.root) && fs.root in k.ancestors
  {
    ResolvedIsAnchored(fs, path);
    ResolvedIsRooted(fs, path);
    var k := ResolveKey(fs, path).value;
    if k.target.Some? { assert Holds(fs, Place(k.parent, k.tail[0]), k.target.value); }
  }

  /** Judged on its own, a stored path that cannot be resolved lies below a source that can exactly if its name does. */
  lemma UnresolvedBelow(fs: Fs, source: Path, c: StatePath)
    requires WellFormed(fs) && Resolves(fs, source) && c.path.Some? && !Resolves(fs, c.path.value)
    ensures PairHits(fs, StrictDescendant, source, c) <==> source < c.path.value
  {
    RootIsNoTarget(fs, source);
  }

  /** A source that cannot be resolved stands above every path that can. */
  lemma UnresolvedAbove(fs: Fs, source: Path, c: StatePath)
    requires WellFormed(fs) && !Resolves(fs, source) && c.path.Some? && Resolves(fs, c.path.value)
    ensures PairHits(fs, StrictDescendant, source, c)
  {
    RootIsNoTarget(fs, c.path.value);
  }

  /** Two paths that cannot be resolved stand for the same entry. */
  lemma UnresolvedTwice(fs: Fs, source: Path, c: StatePath)
    requires WellFormed(fs) && !Resolves(fs, source) && c.path.Some? && !Resolves(fs, c.path.value)
    ensures PairHits(fs, StrictDescendant, source, c) <==> !c.allowsExact
  {
  }

  /** Neither entry holds the other, by physical path or by name; or they are one entry that may be replaced. */
  predicate Apart(fs: Fs, source: Path, path: Path, allowsExact: bool)
    requires WellFormed(fs) && Resolves(fs, source) && Resolves(fs, path)
  {
    var l, r := ResolveKey(fs, source).value, ResolveKey(fs, path).value;
    && l.parent in fs.entries && r.parent in fs.entries
    && var p, q := PhysicalPath(fs, l), PhysicalPath(fs, r);
    if p == q then allowsExact else !(p < q) && !(source < path)
  }

  lemma ResolvedBelow(fs: Fs, source: Path, c: StatePath)
    requires WellFormed(fs) && Resolves(fs, source) && c.path.Some? && Resolves(fs, c.path.value)
    ensures PairHits(fs, StrictDescendant, source, c) <==> !Apart(fs, source, c.path.value, c.allowsExact)
  {
    ResolvedIsAnchored(fs, source);
    ResolvedIsAnchored(fs, c.path.value);
    var l, r := ResolveKey(fs, source).value, ResolveKey(fs, c.path.value).value;
    SameEntryIsSamePath(fs, l, r);
    StrictlyContainsIsProperPrefix(fs, l, r);
  }

  /** This stored path, judged on its own, is no reason to refuse. */
  predicate Harmless(fs: Fs, source: Path, c: StatePath)
    requires WellFormed(fs)
  {
    c.path.Some? &&
    if Resolves(fs, source) then
      if Resolves(fs, c.path.value) then Apart(fs, source, c.path.value, c.allowsExact)
      else !(source < c.path.value)
    else !Resolves(fs, c.path.value) && c.allowsExact
  }

  lemma HarmlessIsNoHit(fs: Fs, source: Path, c: StatePath)
    requires WellFormed(fs)
    ensures Harmless(fs, source, c) <==> !PairHits(fs, StrictDescendant, source, c)
  {
    if c.path.Some? {
      if Resolves(fs, source) && Resolves(fs, c.path.value) { ResolvedBelow(fs, source, c); }
      if Resolves(fs, source) && !Resolves(fs, c.path.value) { UnresolvedBelow(fs, source, c); }
      if !Resolves(fs, source) && Resolves(fs, c.path.value) { UnresolvedAbove(fs, source, c); }
      if !Resolves(fs, source) && !Resolves(fs, c.path.value) { UnresolvedTwice(fs, source, c); }
    }
  }

  /** Exactly when the directional check refuses although no stored path, judged on its own, is a reason to: all of
      them are harmless and something cannot be resolved.  It never lets pass what it should refuse. */
  lemma DescendantPageRefusesMore(fs: Fs, source: Path, page: seq<StatePath>)
    requires WellFormed(fs)
    ensures AnyHits(fs, StrictDescendant, [source], page) ==> PageHits(fs, StrictDescendant, [source], page)
    ensures PageHits(fs, StrictDescendant, [source], page) && !AnyHits(fs, StrictDescendant, [source], page) <==>
      && page != [] && (forall j :: 0 <= j < |page| ==> Harmless(fs, source, page[j]))
      && (!Resolves(fs, source) ||
          exists j :: 0 <= j < |page| && page[j].path.Some? && !Resolves(fs, page[j].path.value))
  {
    forall j | 0 <= j < |page|
      ensures Harmless(fs, source, page[j]) <==> !PairHits(fs, StrictDescendant, source, page[j])
    {
      HarmlessIsNoHit(fs, source, page[j]);
    }
    OneSource(fs, StrictDescendant, source, page);
  }

  /** So it passes a page exactly if that is empty, or everything can be resolved and is harmless. */
  lemma DescendantPagePasses(fs: Fs, source: Path, page: seq<StatePath>)
    requires WellFormed(fs)
    ensures !PageHits(fs, StrictDescendant, [source], page) <==>
            page == [] || (Resolves(fs, source) && forall j :: 0 <= j < |page| ==> Passes(fs, source, page[j]))
  {
    OneSource(fs, StrictDescendant, source, page);
    forall j | 0 <= j < |page|
      ensures Harmless(fs, source, page[j]) <==> !PairHits(fs, StrictDescendant, source, page[j])
    {
      HarmlessIsNoHit(fs, source, page[j]);
    }
  }

  predicate Passes(fs: Fs, source: Path, c: StatePath)
    requires WellFormed(fs)
  {
    c.path.Some? && Resolves(fs, c.path.value) && Harmless(fs, source, c)
  }

  lemma OneSource(fs: Fs, relation: Relation, source: Path, page: seq<StatePath>)
    requires WellFormed(fs)
    ensures AllResolve(fs, [source]) <==> Resolves(fs, source)
    ensures AnyHits(fs, relation, [source], page) <==>
            exists j :: 0 <= j < |page| && PairHits(fs, relation, source, page[j])
  {
    assert [source][0] == source;
    if j :| 0 <= j < |page| && PairHits(fs, relation, source, page[j]) {
      assert PairHits(fs, relation, [source][0], page[j]);
    }
  }

  /** It happens: below a link that leaves the tree a stored path cannot be resolved, so replacing an unrelated entry
      is refused. */
  lemma DescendantShortcutRefusesMore() returns (fs: Fs, source: Path, page: seq<StatePath>)
    ensures WellFormed(fs) && PageHits(fs, StrictDescendant, [source], page)
    ensures !AnyHits(fs, StrictDescendant, [source], page)
  {
    fs := Fs(0, map[0 := map["l" := Link(Absolute)]], map[], map[0 := 0]);
    source := ["a"];
    var stored: EntryPath := ["l", "x"];
    page := [StatePath(Some(stored), false)];
    assert Resolves(fs, source) by { assert ProbeTable(fs, source[..0]) == [Open(0)]; }
    assert !Resolves(fs, stored) by {
      var names := stored[..1];
      assert names == ["l"] && names[..1] == ["l"] && Components(["l"]) == [Named("l")];
      assert ProbeTable(fs, names)[1] == Denied(Escape);
    }
    assert page[0].path == Some(stored) && Harmless(fs, source, page[0]);
    DescendantPageRefusesMore(fs, source, page);
  }

  // ----- The scanner

  class Scanner {
    const sources: seq<Path>
    const relation: Relation
    var resolvedSources: Option<seq<LeaseKey>>

    /** Every path this scan asked the filesystem to resolve, in order. */
    ghost var asked: seq<Path>

    ghost predicate Valid(fs: Fs)
      reads this
    {
      && WellFormed(fs) && sources != [] && (relation.StrictDescendant? ==> |sources| == 1)
      && (resolvedSources.Some? ==> AllResolve(fs, sources) && resolvedSources.value == Keys(fs, sources))
    }

    /** A directional scan has one source. */
    constructor (paths: seq<Path>, how: Relation)
      requires paths != [] && (how.StrictDescendant? ==> |paths| == 1)
      ensures sources == paths && relation == how && resolvedSources.None? && asked == []
    {
      sources, relation, resolvedSources, asked := paths, how, None, [];
    }

    /** The only way to the filesystem. */
    method Resolve(fs: Fs, path: Path) returns (r: Result<ResolvedKey, IoError>)
      requires WellFormed(fs)
      modifies this`asked
      ensures r == ResolveKey(fs, path) && asked == old(asked) + [path]
    {
      asked := asked + [path];
      r := ResolvedPathKey(fs, path);
    }

    /** Resolve a batch, each path once; nothing if any path of it fails, and then the rest is not asked for. */
    method ResolveAll(fs: Fs, paths: seq<Path>) returns (keys: Option<seq<LeaseKey>>)
      requires WellFormed(fs)
      modifies this`asked
      ensures keys == if AllResolve(fs, paths) then Some(Keys(fs, paths)) else None
      ensures old(asked) <= asked <= old(asked) + paths && (keys.Some? ==> asked == old(asked) + paths)
    {
      var out: seq<LeaseKey> := [];
      for i := 0 to |paths|
        invariant AllResolve(fs, paths[..i]) && out == Keys(fs, paths[..i])
        invariant asked == old(asked) + paths[..i]
      {
        var r := Resolve(fs, paths[i]);
        assert paths[..i + 1] == paths[..i] + [paths[i]];
        if r.Err? {
          assert !Resolves(fs, paths[i]);
          return None;
        }
        out := out + [LeaseKey(paths[i], r.value)];
      }
      assert paths[..|paths|] == paths;
      keys := Some(out);
    }

    /** The stored paths of a page; nothing if one of them cannot be read. */
    method Candidates(page: seq<StatePath>) returns (paths: Option<seq<Path>>)
      ensures paths == if Readable(page) then Some(PathsOf(page)) else None
    {
      var out: seq<Path> := [];
      for j := 0 to |page|
        invariant Readable(page[..j]) && out == PathsOf(page[..j])
      {
        assert page[..j + 1] == page[..j] + [page[j]];
        if page[j].path.None? {
          assert !Readable(page);
          return None;
        }
        out := out + [page[j].path.value];
      }
      assert page[..|page|] == page;
      paths := Some(out);
    }

    /** What a page has to resolve: its own paths, and the request's only if that was not done before. */
    function Batch(page: seq<StatePath>): (batch: seq<Path>)
      requires Readable(page)
      reads this
    {
      (if page != [] && resolvedSources.None? then sources else []) + PathsOf(page)
    }

    /** Check one page; no path of it is resolved twice, and the request's own paths only with the first page. */
    method PageConflicts(fs: Fs, page: seq<StatePath>) returns (conflict: bool)
      requires Valid(fs)
      modifies this
      ensures Valid(fs) && (!conflict ==> Readable(page))
      ensures relation.SymmetricConflict? ==> (conflict <==> PageOverlaps(fs, sources, page))
      ensures relation.StrictDescendant? ==>
              (!conflict <==> page == [] || (Resolves(fs, sources[0]) &&
                                             forall j :: 0 <= j < |page| ==> Passes(fs, sources[0], page[j])))
      ensures old(asked) <= asked <= old(asked) + (if Readable(page) then old(Batch(page)) else [])
      ensures !conflict ==> asked == old(asked) + old(Batch(page))
      ensures old(resolvedSources).Some? || page == [] ==> resolvedSources == old(resolvedSources)
      ensures page != [] && !conflict ==> resolvedSources.Some?
    {
      PageMeans(fs, page);
      if page == [] { return false; }
      var paths := Candidates(page);
      if paths.None? { return true; }
      var resolving := if resolvedSources.None? then sources else [];
      var keys := ResolveAll(fs, resolving + paths.value);
      BatchSplits(fs, resolving, paths.value);
      if keys.None? {
        SomeUnresolved(fs, page, resolving);
        return true;
      }
      if resolvedSources.None? { resolvedSources := Some(keys.value[..|resolving|]); }
      var own, candidates := resolvedSources.value, keys.value[|resolving|..];
      NothingUnresolved(fs, page);
      HitsAreAnyHits(fs, page, own, candidates);
      conflict := exists i, j :: 0 <= i < |own| && 0 <= j < |page|
                                 && Hits(relation, own[i], candidates[j], page[j].allowsExact);
    }

    /** What a hit on a page means, for either relation. */
    lemma PageMeans(fs: Fs, page: seq<StatePath>)
      requires Valid(fs)
      ensures relation.SymmetricConflict? ==>
              (PageHits(fs, relation, sources, page) <==> PageOverlaps(fs, sources, page))
      ensures relation.StrictDescendant? ==>
              (!PageHits(fs, relation, sources, page) <==>
               page == [] || (Resolves(fs, sources[0]) &&
                              forall j :: 0 <= j < |page| ==> Passes(fs, sources[0], page[j])))
    {
      if relation.SymmetricConflict? {
        SymmetricPageIsExact(fs, sources, page);
        AnyHitsIsOverlap(fs, sources, page);
      } else {
        assert sources == [sources[0]];
        DescendantPagePasses(fs, sources[0], page);
      }
    }

    lemma SomeUnresolved(fs: Fs, page: seq<StatePath>, resolving: seq<Path>)
      requires WellFormed(fs) && page != [] && Readable(page) && (resolving == [] || resolving == sources)
      requires !AllResolve(fs, resolving) || !AllResolve(fs, PathsOf(page))
      ensures PageHits(fs, relation, sources, page)
    {
      if AllResolve(fs, resolving) {
        var j :| 0 <= j < |page| && !Resolves(fs, PathsOf(page)[j]);
        assert !Resolves(fs, page[j].path.value);
      }
    }

    lemma NothingUnresolved(fs: Fs, page: seq<StatePath>)
      requires WellFormed(fs) && page != [] && Readable(page)
      requires AllResolve(fs, sources) && AllResolve(fs, PathsOf(page))
      ensures PageHits(fs, relation, sources, page) <==> AnyHits(fs, relation, sources, page)
    {
      forall j | 0 <= j < |page|
        ensures Resolves(fs, page[j].path.value)
      {
        assert Resolves(fs, PathsOf(page)[j]);
      }
    }

    lemma HitsAreAnyHits(fs: Fs, page: seq<StatePath>, own: seq<LeaseKey>, candidates: seq<LeaseKey>)
      requires WellFormed(fs) && own == Keys(fs, sources) && Readable(page) && candidates == Keys(fs, PathsOf(page))
      ensures AnyHits(fs, relation, sources, page) <==>
              exists i, j ::
                0 <= i < |own| && 0 <= j < |page| && Hits(relation, own[i], candidates[j], page[j].allowsExact)
    {
      forall i, j | 0 <= i < |sources| && 0 <= j < |page|
        ensures PairHits(fs, relation, sources[i], page[j])
           <==> Hits(relation, own[i], candidates[j], page[j].allowsExact)
      {
      }
    }
  }

  lemma BatchSplits(fs: Fs, a: seq<Path>, b: seq<Path>)
    requires WellFormed(fs)
    ensures AllResolve(fs, a + b) <==> AllResolve(fs, a) && AllResolve(fs, b)
    ensures Keys(fs, a + b)[..|a|] == Keys(fs, a) && Keys(fs, a + b)[|a|..] == Keys(fs, b)
  {
    if !AllResolve(fs, a) {
      var i :| 0 <= i < |a| && !Resolves(fs, a[i]);
      assert !Resolves(fs, (a + b)[i]);
    }
    if !AllResolve(fs, b) {
      var i :| 0 <= i < |b| && !Resolves(fs, b[i]);
      assert !Resolves(fs, (a + b)[|a| + i]);
    }
  }

  ghost function AllPaths(pages: seq<seq<StatePath>>): (paths: seq<Path>)
    requires forall n :: 0 <= n < |pages| ==> Readable(pages[n])
  {
    if pages == [] then [] else AllPaths(pages[..|pages| - 1]) + PathsOf(pages[|pages| - 1])
  }

  lemma AllPathsNext(pages: seq<seq<StatePath>>, n: nat)
    requires n < |pages| && forall m :: 0 <= m <= n ==> Readable(pages[m])
    ensures AllPaths(pages[..n + 1]) == AllPaths(pages[..n]) + PathsOf(pages[n])
  {
    assert pages[..n + 1][..n] == pages[..n];
  }

  /** The request's paths once, before the first of the stored ones. */
  function SourcesOnce(sources: seq<Path>, stored: seq<Path>): (paths: seq<Path>) {
    if stored == [] then [] else sources + stored
  }

  lemma BatchAppends(sources: seq<Path>, stored: seq<Path>, more: seq<Path>)
    ensures SourcesOnce(sources, stored) + (if more == [] then [] else (if stored == [] then sources else []) + more)
            == SourcesOnce(sources, stored + more)
  {
    if more == [] { assert stored + more == stored; }
  }

  /** The whole admission check of DELETE and MOVE: all pages together conflict exactly when some source and some stored
      path overlap; and a scan that finds nothing resolves every path exactly once. */
  method HasPersistedConflict(fs: Fs, sources: seq<Path>, pages: seq<seq<StatePath>>)
    returns (conflict: bool, ghost scanner: Scanner)
    requires WellFormed(fs) && sources != []
    ensures fresh(scanner)
    ensures conflict <==> exists n :: 0 <= n < |pages| && PageOverlaps(fs, sources, pages[n])
    ensures !conflict ==> forall n :: 0 <= n < |pages| ==> Readable(pages[n])
    ensures !conflict ==> scanner.asked == SourcesOnce(sources, AllPaths(pages))
  {
    var scan := new Scanner(sources, SymmetricConflict);
    scanner := scan;
    var n := 0;
    ghost var stored: seq<Path> := [];
    while n < |pages|
      invariant 0 <= n <= |pages| && fresh(scan) && scan.Valid(fs)
      invariant scan.sources == sources && scan.relation == SymmetricConflict
      invariant forall m :: 0 <= m < n ==> !PageOverlaps(fs, sources, pages[m]) && Readable(pages[m])
      invariant stored == AllPaths(pages[..n]) && (scan.resolvedSources.None? <==> stored == [])
      invariant scan.asked == SourcesOnce(sources, stored)
    {
      conflict := scan.PageConflicts(fs, pages[n]);
      if conflict { return; }
      BatchAppends(sources, stored, PathsOf(pages[n]));
      AllPathsNext(pages, n);
      stored := stored + PathsOf(pages[n]);
      n := n + 1;
    }
    assert pages[..n] == pages;
    conflict := false;
  }
}
