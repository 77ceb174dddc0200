/**
 The shared directory tree, as the rooted filesystem layer sees it.

 Every directory has a unique identity (device and inode in the server), one
 parent and one name in that parent.  Entries may also be plain files or
 symbolic links.  `Walk` is the kernel's lookup with RESOLVE_BENEATH: relative
 links are followed, absolute links and `..` above the root are an escape, and
 the number of links followed by one lookup is bounded.
 */
module Filesystem {
  type DirId = nat
  type Name = string
  type Path = seq<Name>

  /** Linux follows at most this many symbolic links in one lookup. */
  const MAX_LINKS: nat := 40

  datatype Component = Named(name: Name) | Up

  datatype LinkTarget = Absolute | Relative(path: seq<Component>)

  datatype Entry = Directory(id: DirId) | Plain | Link(target: LinkTarget)

  datatype Place = Place(dir: DirId, name: Name)

  /** `level` is the distance from the root, so that `..` chains are finite. */
  datatype Fs = Fs(
    root: DirId,
    entries: map<DirId, map<Name, Entry>>,
    places: map<DirId, Place>,
    level: map<DirId, nat>)

  datatype IoError = NotFound | NotADirectory | PermissionDenied | Escape | Loop | InvalidInput | TooDeep | OtherIo

  ghost predicate WellFormed(fs: Fs) {
    && fs.root in fs.entries
    && fs.entries.Keys == fs.level.Keys
    && fs.places.Keys == fs.entries.Keys - {fs.root}
    && fs.level[fs.root] == 0
    && (forall d :: d in fs.places ==>
          && fs.places[d].dir in fs.entries
          && Holds(fs, fs.places[d], d)
          && fs.level[d] == fs.level[fs.places[d].dir] + 1)
    && (forall p: Place, d :: Holds(fs, p, d) ==> d in fs.places && fs.places[d] == p)
  }

  /** Directory `d` is the entry at place `p`. */
  predicate Holds(fs: Fs, p: Place, d: DirId) {
    && p.dir in fs.entries
    && p.name in fs.entries[p.dir]
    && fs.entries[p.dir][p.name] == Directory(d)
  }

  datatype Walked = Reached(dir: DirId, links: nat) | Failed(error: IoError)

  function Walk(fs: Fs, at: DirId, path: seq<Component>, links: nat): (r: Walked)
    requires WellFormed(fs) && at in fs.entries
    ensures r.Reached? ==> r.dir in fs.entries && r.links <= links
    decreases links, |path|
  {
    if path == [] then Reached(at, links)
    else
      match path[0]
      case Up =>
        if at == fs.root then Failed(Escape) else Walk(fs, fs.places[at].dir, path[1..], links)
      case Named(n) =>
        if n !in fs.entries[at] then Failed(NotFound)
        else
          match fs.entries[at][n]
          case Directory(d) =>
            assert Holds(fs, Place(at, n), d);
            Walk(fs, d, path[1..], links)
          case Plain => Failed(NotADirectory)
          case Link(Absolute) => Failed(Escape)
          case Link(Relative(target)) =>
            if links == 0 then Failed(Loop) else Walk(fs, at, target + path[1..], links - 1)
  }

  function Continue(fs: Fs, w: Walked, path: seq<Component>): (r: Walked)
    requires WellFormed(fs) && (w.Reached? ==> w.dir in fs.entries)
  {
    if w.Reached? then Walk(fs, w.dir, path, w.links) else w
  }

  /** A lookup of `p + q` is a lookup of `p` continued with `q`: prefixes fail
      with the same error, and links already followed stay counted. */
  lemma {:induction false} WalkSplits(fs: Fs, at: DirId, p: seq<Component>, q: seq<Component>, links: nat)
    requires WellFormed(fs) && at in fs.entries
    ensures Walk(fs, at, p + q, links) ==
            Continue(fs, Walk(fs, at, p, links), q)
    decreases links, |p|
  {
    if p == [] {
      assert p + q == q;
    } else {
      assert (p + q)[1..] == p[1..] + q;
      match p[0]
      case Up =>
        if at != fs.root { WalkSplits(fs, fs.places[at].dir, p[1..], q, links); }
      case Named(n) =>
        if n in fs.entries[at] {
          match fs.entries[at][n]
          case Directory(d) =>
            assert Holds(fs, Place(at, n), d);
            WalkSplits(fs, d, p[1..], q, links);
          case Plain =>
          case Link(Absolute) =>
          case Link(Relative(target)) =>
            if links > 0 {
              assert target + (p + q)[1..] == (target + p[1..]) + q;
              WalkSplits(fs, at, target + p[1..], q, links - 1);
            }
        }
    }
  }

  /** What a lookup can fail with: a name is missing, is no directory, leads out of the tree, or too many links were
      followed. */
  lemma {:induction false} WalkErrors(fs: Fs, at: DirId, path: seq<Component>, links: nat)
    requires WellFormed(fs) && at in fs.entries && Walk(fs, at, path, links).Failed?
    ensures Walk(fs, at, path, links).error in {NotFound, NotADirectory, Escape, Loop}
    decreases links, |path|
  {
    match path[0]
    case Up =>
      if at != fs.root { WalkErrors(fs, fs.places[at].dir, path[1..], links); }
    case Named(n) =>
      if n in fs.entries[at] {
        match fs.entries[at][n]
        case Directory(d) =>
          assert Holds(fs, Place(at, n), d);
          WalkErrors(fs, d, path[1..], links);
        case Link(Relative(target)) =>
          if links > 0 { WalkErrors(fs, at, target + path[1..], links - 1); }
        case _ =>
      }
  }

  function Components(names: seq<Name>): (r: seq<Component>) {
    seq(|names|, i requires 0 <= i < |names| => Named(names[i]))
  }

  datatype Opened = Open(dir: DirId) | Denied(error: IoError)

  /** Open a directory for reading by its path below the root, following links. */
  function OpenDirectory(fs: Fs, names: seq<Name>): (r: Opened)
    requires WellFormed(fs)
    ensures r.Open? ==> r.dir in fs.entries
  {
    match Walk(fs, fs.root, Components(names), MAX_LINKS)
    case Failed(e) => Denied(e)
    case Reached(d, _) => Open(d)
  }

  lemma OpenSplits(fs: Fs, p: seq<Name>, q: seq<Name>)
    requires WellFormed(fs)
    ensures Walk(fs, fs.root, Components(p + q), MAX_LINKS) ==
            Continue(fs, Walk(fs, fs.root, Components(p), MAX_LINKS), Components(q))
  {
    assert Components(p + q) == Components(p) + Components(q);
    WalkSplits(fs, fs.root, Components(p), Components(q), MAX_LINKS);
  }

  /** A failing prefix fails every extension with the same error. */
  lemma OpenMonotone(fs: Fs, p: seq<Name>, q: seq<Name>)
    requires WellFormed(fs)
    ensures OpenDirectory(fs, p).Denied? ==> OpenDirectory(fs, p + q) == OpenDirectory(fs, p)
    ensures OpenDirectory(fs, p + q).Open? ==> OpenDirectory(fs, p).Open?
  {
    OpenSplits(fs, p, q);
  }

  // ----- The physical position of a directory

  /** The names from the root down to `d`. */
  function PathOf(fs: Fs, d: DirId): (r: seq<Name>)
    requires WellFormed(fs) && d in fs.entries
    ensures |r| == fs.level[d]
    decreases fs.level[d]
  {
    if d == fs.root then [] else PathOf(fs, fs.places[d].dir) + [fs.places[d].name]
  }

  /** The directories from the root down to `d`. */
  function Ancestry(fs: Fs, d: DirId): (r: seq<DirId>)
    requires WellFormed(fs) && d in fs.entries
    ensures |r| == fs.level[d] + 1
    ensures r[0] == fs.root && r[|r| - 1] == d
    decreases fs.level[d]
  {
    if d == fs.root then [d] else Ancestry(fs, fs.places[d].dir) + [d]
  }

  /** Following the names from the root down to `d` needs no link and ends in `d`. */
  lemma {:induction false} WalkDown(fs: Fs, d: DirId, links: nat)
    requires WellFormed(fs) && d in fs.entries
    ensures Walk(fs, fs.root, Components(PathOf(fs, d)), links) == Reached(d, links)
    decreases fs.level[d]
  {
    if d != fs.root {
      var p := fs.places[d];
      WalkDown(fs, p.dir, links);
      assert Components(PathOf(fs, d)) == Components(PathOf(fs, p.dir)) + [Named(p.name)];
      WalkSplits(fs, fs.root, Components(PathOf(fs, p.dir)), [Named(p.name)], links);
      assert Walk(fs, p.dir, [Named(p.name)], links) == Walk(fs, d, [Named(p.name)][1..], links);
    }
  }

  /** A larger link allowance changes only lookups that ran out of links. */
  lemma {:induction false} MoreLinks(fs: Fs, at: DirId, path: seq<Component>, links: nat, more: nat)
    requires WellFormed(fs) && at in fs.entries
    requires Walk(fs, at, path, links).Failed? && Walk(fs, at, path, links).error != Loop
    ensures Walk(fs, at, path, links + more) == Walk(fs, at, path, links)
    decreases links, |path|
  {
    if path != [] {
      match path[0]
      case Up =>
        if at != fs.root { MoreLinks(fs, fs.places[at].dir, path[1..], links, more); }
      case Named(n) =>
        if n in fs.entries[at] {
          match fs.entries[at][n]
          case Directory(d) =>
            assert Holds(fs, Place(at, n), d);
            MoreLinks(fs, d, path[1..], links, more);
          case Plain =>
          case Link(Absolute) =>
          case Link(Relative(target)) =>
            MoreLinks(fs, at, target + path[1..], links - 1, more);
        }
    }
  }

  lemma {:induction false} PathOfInjective(fs: Fs, a: DirId, b: DirId)
    requires WellFormed(fs) && a in fs.entries && b in fs.entries
    requires PathOf(fs, a) == PathOf(fs, b)
    ensures a == b
    decreases fs.level[a]
  {
    assert fs.level[a] == |PathOf(fs, a)| == fs.level[b];
    if a != fs.root && b != fs.root {
      var pa, pb := fs.places[a], fs.places[b];
      assert PathOf(fs, a)[..fs.level[a] - 1] == PathOf(fs, pa.dir);
      assert PathOf(fs, b)[..fs.level[b] - 1] == PathOf(fs, pb.dir);
      assert pa.name == PathOf(fs, a)[fs.level[a] - 1] == PathOf(fs, b)[fs.level[b] - 1] == pb.name;
      PathOfInjective(fs, pa.dir, pb.dir);
      assert pa == pb;
      assert Holds(fs, pa, a) && Holds(fs, pb, b);
    }
  }

  /** Being an ancestor directory is having a prefix of the physical path. */
  lemma {:induction false} AncestorIffPrefix(fs: Fs, a: DirId, b: DirId)
    requires WellFormed(fs) && a in fs.entries && b in fs.entries
    ensures a in Ancestry(fs, b) <==> PathOf(fs, a) <= PathOf(fs, b)
    decreases fs.level[b]
  {
    if PathOf(fs, a) == PathOf(fs, b) {
      PathOfInjective(fs, a, b);
    } else if b != fs.root {
      var p := fs.places[b].dir;
      AncestorIffPrefix(fs, a, p);
      assert PathOf(fs, p) == PathOf(fs, b)[..|PathOf(fs, b)| - 1];
      assert a != b;
    }
  }

  /** If the path of `b` runs through `a` and then `n`, then `n` is a real directory in `a`,
      and that directory is an ancestor of `b`. */
  lemma {:induction false} StepTowards(fs: Fs, a: DirId, b: DirId, n: Name) returns (x: DirId)
    requires WellFormed(fs) && a in fs.entries && b in fs.entries
    requires PathOf(fs, a) + [n] <= PathOf(fs, b)
    ensures Holds(fs, Place(a, n), x)
    ensures x in fs.entries && PathOf(fs, x) == PathOf(fs, a) + [n]
    ensures x in Ancestry(fs, b)
    decreases fs.level[b]
  {
    var p := fs.places[b].dir;
    assert PathOf(fs, p) == PathOf(fs, b)[..|PathOf(fs, b)| - 1];
    if |PathOf(fs, a)| + 1 == |PathOf(fs, b)| {
      assert PathOf(fs, a) == PathOf(fs, b)[..|PathOf(fs, a)|];
      PathOfInjective(fs, a, p);
      assert n == PathOf(fs, b)[|PathOf(fs, a)|] == fs.places[b].name;
      x := b;
    } else {
      x := StepTowards(fs, a, p, n);
    }
  }
}
