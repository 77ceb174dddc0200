/**
 The maintenance scan of the shared tree, cut into slices.

 A slice stops when it has examined enough entries, when time is up or when the
 server shuts down; the next one resumes from a stack of directories with a
 cursor into each.  Directories are opened again by path every time.  The tree
 is static here, including the errors it shows.
 */
module MaintenanceScan {
  import opened Wrappers
  import opened Sequences
  import Filesystem

  type Name = Filesystem.Name
  type Path = Filesystem.Path

  /** `Hidden` entries leave the shared root and are passed over; a `Broken` one cannot be inspected and makes the
      scan give up its directory; `Leaf` is whatever is visited without being entered. */
  datatype Entry =
    | Leaf(name: Name)
    | Hidden(name: Name)
    | Broken(name: Name)
    | Folder(name: Name, readable: bool, entries: seq<Entry>)

  ghost predicate WellFormed(e: Entry)
    decreases e
  {
    e.Folder? ==>
      && (forall i, j :: 0 <= i < j < |e.entries| ==> e.entries[i].name != e.entries[j].name)
      && (forall i :: 0 <= i < |e.entries| ==> WellFormed(e.entries[i]))
  }

  // ----- The reference: one recursive walk

  /** What is visited in a folder from `cursor` on, entering folders right after visiting them. */
  function WalkFrom(f: Entry, cursor: nat, path: Path): (visits: seq<Path>)
    requires f.Folder? && cursor <= |f.entries|
    decreases f, |f.entries| - cursor
  {
    if !f.readable || cursor == |f.entries| then []
    else
      var e := f.entries[cursor];
      match e
      case Hidden(_) => WalkFrom(f, cursor + 1, path)
      case Broken(_) => []
      case Leaf(name) => [path + [name]] + WalkFrom(f, cursor + 1, path)
      case Folder(name, _, _) => [path + [name]] + WalkFrom(e, 0, path + [name]) + WalkFrom(f, cursor + 1, path)
  }

  /** Everything visited below `path` lies below `path`. */
  lemma {:induction false} WalkStaysBelow(f: Entry, cursor: nat, path: Path, v: Path)
    requires f.Folder? && cursor <= |f.entries| && v in WalkFrom(f, cursor, path)
    ensures |v| > |path| && v[..|path|] == path
    ensures exists i :: cursor <= i < |f.entries| && f.entries[i].name == v[|path|]
    decreases f, |f.entries| - cursor
  {
    var e := f.entries[cursor];
    if v in WalkFrom(f, cursor + 1, path) && !e.Broken? {
      WalkStaysBelow(f, cursor + 1, path, v);
    } else if e.Folder? && v in WalkFrom(e, 0, path + [e.name]) {
      WalkStaysBelow(e, 0, path + [e.name], v);
      assert v[..|path|] == v[..|path| + 1][..|path|];
      assert v[|path|] == v[..|path| + 1][|path|];
    } else {
      assert v == path + [e.name];
    }
  }

  ghost predicate Distinct(visits: seq<Path>) {
    forall i, j :: 0 <= i < j < |visits| ==> visits[i] != visits[j]
  }

  lemma DistinctConcat(a: seq<Path>, b: seq<Path>)
    requires Distinct(a) && Distinct(b) && forall v :: v in a ==> v !in b
    ensures Distinct(a + b)
  {
    forall i, j | 0 <= i < j < |a + b|
      ensures (a + b)[i] != (a + b)[j]
    {
      if i < |a| <= j { assert a[i] in a && b[j - |a|] in b; }
    }
  }

  /** The walk visits nothing twice. */
  lemma {:induction false} WalkIsDistinct(f: Entry, cursor: nat, path: Path)
    requires f.Folder? && cursor <= |f.entries| && WellFormed(f)
    ensures Distinct(WalkFrom(f, cursor, path))
    decreases f, |f.entries| - cursor
  {
    if f.readable && cursor < |f.entries| && !f.entries[cursor].Broken? {
      var e := f.entries[cursor];
      var later := WalkFrom(f, cursor + 1, path);
      WalkIsDistinct(f, cursor + 1, path);
      forall v | v in later
        ensures |v| > |path| && v[|path|] != e.name
      {
        WalkStaysBelow(f, cursor + 1, path, v);
      }
      if e.Leaf? {
        DistinctConcat([path + [e.name]], later);
      } else if e.Folder? {
        var inside := WalkFrom(e, 0, path + [e.name]);
        WalkIsDistinct(e, 0, path + [e.name]);
        forall v | v in inside
          ensures |v| > |path| + 1 && v[|path|] == e.name
        {
          WalkStaysBelow(e, 0, path + [e.name], v);
          assert v[|path|] == v[..|path| + 1][|path|];
        }
        DistinctConcat([path + [e.name]], inside);
        DistinctConcat([path + [e.name]] + inside, later);
      }
    }
  }

  // ----- Opening a directory by path

  function IndexOf(entries: seq<Entry>, name: Name): (i: nat)
    ensures i <= |entries| && (i < |entries| ==> entries[i].name == name)
    ensures forall j :: 0 <= j < i ==> entries[j].name != name
  {
    if entries == [] || entries[0].name == name then 0 else 1 + IndexOf(entries[1..], name)
  }

  function Lookup(f: Entry, path: Path): (e: Option<Entry>)
    decreases |path|
  {
    if path == [] then Some(f)
    else if !f.Folder? then None
    else
      var i := IndexOf(f.entries, path[0]);
      if i == |f.entries| then None else Lookup(f.entries[i], path[1..])
  }

  lemma {:induction false} LookupChild(root: Entry, path: Path, f: Entry, i: nat)
    requires WellFormed(root) && Lookup(root, path) == Some(f) && f.Folder? && i < |f.entries|
    ensures Lookup(root, path + [f.entries[i].name]) == Some(f.entries[i])
    decreases |path|
  {
    var name := f.entries[i].name;
    if path == [] {
      assert (path + [name])[1..] == [];
      assert IndexOf(f.entries, name) == i;
    } else {
      var child := root.entries[IndexOf(root.entries, path[0])];
      LookupChild(child, path[1..], f, i);
      assert (path + [name])[1..] == path[1..] + [name];
    }
  }

  // ----- What the walk visits, and in which order

  /** Component `k` of the path can be found: the folder above it can be read, and no entry in front of it is broken. */
  predicate Passable(root: Entry, v: Path, k: nat)
    requires k < |v|
  {
    var f := Lookup(root, v[..k]);
    && f.Some? && f.value.Folder? && f.value.readable
    && forall j :: 0 <= j < IndexOf(f.value.entries, v[k]) ==> !f.value.entries[j].Broken?
  }

  /** The path names an entry that can be visited: it is there, it is neither hidden nor broken, and every component on
      the way can be found. */
  predicate Visitable(root: Entry, v: Path) {
    && v != [] && Lookup(root, v).Some? && !Lookup(root, v).value.Hidden? && !Lookup(root, v).value.Broken?
    && forall k :: 0 <= k < |v| ==> Passable(root, v, k)
  }

  /** The same, one component after the other, for entries of `f` from `cursor` on. */
  ghost predicate Seen(f: Entry, cursor: nat, v: Path)
    decreases |v|
  {
    && v != [] && f.Folder? && f.readable
    && var i := IndexOf(f.entries, v[0]);
    && cursor <= i < |f.entries| && (forall j :: cursor <= j < i ==> !f.entries[j].Broken?)
    && !f.entries[i].Hidden? && !f.entries[i].Broken?
    && (|v| > 1 ==> Seen(f.entries[i], 0, v[1..]))
  }

  lemma PassableBelow(f: Entry, v: Path, k: nat)
    requires 0 < k < |v| && f.Folder? && IndexOf(f.entries, v[0]) < |f.entries|
    ensures Passable(f, v, k) <==> Passable(f.entries[IndexOf(f.entries, v[0])], v[1..], k - 1)
  {
    assert v[..k][1..] == v[1..][..k - 1] && v[..k][0] == v[0];
  }

  lemma VisitableBelow(f: Entry, v: Path)
    requires |v| > 1 && f.Folder? && IndexOf(f.entries, v[0]) < |f.entries|
    ensures Visitable(f, v) <==> Passable(f, v, 0) && Visitable(f.entries[IndexOf(f.entries, v[0])], v[1..])
  {
    var child, rest := f.entries[IndexOf(f.entries, v[0])], v[1..];
    forall k | 0 < k < |v|
      ensures Passable(f, v, k) <==> Passable(child, rest, k - 1)
    {
      PassableBelow(f, v, k);
    }
    forall k | 0 <= k < |rest|
      ensures Passable(child, rest, k) <==> Passable(f, v, k + 1)
    {
      PassableBelow(f, v, k + 1);
    }
  }

  lemma {:induction false} SeenIsVisitable(f: Entry, v: Path)
    requires v != []
    ensures Seen(f, 0, v) <==> Visitable(f, v)
    decreases |v|
  {
    assert v[..0] == [];
    if f.Folder? && IndexOf(f.entries, v[0]) < |f.entries| {
      var child := f.entries[IndexOf(f.entries, v[0])];
      assert Passable(f, v, 0) <==>
             f.readable && forall j :: 0 <= j < IndexOf(f.entries, v[0]) ==> !f.entries[j].Broken?;
      if |v| > 1 {
        SeenIsVisitable(child, v[1..]);
        VisitableBelow(f, v);
        if Visitable(child, v[1..]) { assert Passable(child, v[1..], 0); }
      } else {
        assert Lookup(f, v) == Lookup(child, v[1..]) == Some(child);
      }
    }
  }

  /** The index of each component in its folder. */
  function IndexPath(f: Entry, v: Path): (r: seq<nat>)
    requires Lookup(f, v).Some?
    ensures |r| == |v|
    decreases |v|
  {
    if v == [] then []
    else var i := IndexOf(f.entries, v[0]); [i] + IndexPath(f.entries[i], v[1..])
  }

  /** Lexicographic order: a proper prefix comes first, else the first difference decides. */
  ghost predicate Ahead(a: seq<nat>, b: seq<nat>) {
    exists k :: 0 <= k <= |a| && k < |b| && a[..k] == b[..k] && (k == |a| || a[k] < b[k])
  }

  lemma {:induction false} SeenIsThere(f: Entry, cursor: nat, v: Path)
    requires Seen(f, cursor, v)
    ensures Lookup(f, v).Some?
    decreases |v|
  {
    if |v| > 1 { SeenIsThere(f.entries[IndexOf(f.entries, v[0])], 0, v[1..]); }
  }

  /** What is seen from `cursor` on is the entry there with what is inside, or is seen later; nothing after a broken
      entry is. */
  lemma SeenSplits(f: Entry, cursor: nat, v: Path)
    requires f.Folder? && WellFormed(f) && f.readable && cursor < |f.entries| && v != []
    ensures var e := f.entries[cursor];
            Seen(f, cursor, v) <==>
            !e.Broken? &&
            (Seen(f, cursor + 1, v) || (v[0] == e.name && !e.Hidden? && (|v| > 1 ==> Seen(e, 0, v[1..]))))
  {
    if v[0] == f.entries[cursor].name { assert IndexOf(f.entries, v[0]) == cursor; }
  }

  /** The walk visits exactly what can be seen. */
  lemma {:induction false} WalkSees(f: Entry, cursor: nat, path: Path, v: Path)
    requires f.Folder? && WellFormed(f) && cursor <= |f.entries|
    ensures v in WalkFrom(f, cursor, path) <==> path < v && Seen(f, cursor, v[|path|..])
    decreases f, |f.entries| - cursor
  {
    if f.readable && cursor < |f.entries| {
      var e := f.entries[cursor];
      if path < v { SeenSplits(f, cursor, v[|path|..]); }
      if !e.Broken? { WalkSees(f, cursor + 1, path, v); }
      if e.Folder? {
        WalkSees(e, 0, path + [e.name], v);
        if path + [e.name] < v { assert v[|path|..][1..] == v[|path| + 1..]; }
      }
      if path < v && v[|path|] == e.name { assert v[..|path| + 1] == path + [e.name]; }
      if path < v && |v| == |path| + 1 { assert v == v[..|path| + 1]; }
    }
  }

  /** From the root: a path is visited exactly if it can be. */
  lemma WalkReachesEverything(root: Entry, v: Path)
    requires root.Folder? && WellFormed(root)
    ensures v in WalkFrom(root, 0, []) <==> Visitable(root, v)
  {
    WalkSees(root, 0, [], v);
    if v != [] {
      assert v[0..] == v;
      SeenIsVisitable(root, v);
    }
  }

  /** Below `path`, which leads to `f`, the one visit comes ahead of the other. */
  ghost predicate ComesFirst(f: Entry, path: Path, x: Path, y: Path) {
    && path < x && path < y && Lookup(f, x[|path|..]).Some? && Lookup(f, y[|path|..]).Some?
    && Ahead(IndexPath(f, x[|path|..]), IndexPath(f, y[|path|..]))
  }

  ghost predicate InOrder(f: Entry, path: Path, visits: seq<Path>) {
    forall i, j :: 0 <= i < j < |visits| ==> ComesFirst(f, path, visits[i], visits[j])
  }

  lemma InOrderConcat(f: Entry, path: Path, a: seq<Path>, b: seq<Path>)
    requires InOrder(f, path, a) && InOrder(f, path, b)
    requires forall x, y :: x in a && y in b ==> ComesFirst(f, path, x, y)
    ensures InOrder(f, path, a + b)
  {
    forall i, j | 0 <= i < j < |a + b|
      ensures ComesFirst(f, path, (a + b)[i], (a + b)[j])
    {
      if i < |a| <= j { assert a[i] in a && b[j - |a|] in b; }
    }
  }

  /** A visit from `cursor` on: it is there, and its first index is no less. */
  lemma VisitIndex(f: Entry, cursor: nat, path: Path, x: Path)
    requires f.Folder? && WellFormed(f) && cursor <= |f.entries| && x in WalkFrom(f, cursor, path)
    ensures path < x && Lookup(f, x[|path|..]).Some? && IndexPath(f, x[|path|..])[0] >= cursor
  {
    WalkSees(f, cursor, path, x);
    SeenIsThere(f, cursor, x[|path|..]);
  }

  lemma SmallerIndexFirst(f: Entry, path: Path, x: Path, y: Path)
    requires path < x && path < y && Lookup(f, x[|path|..]).Some? && Lookup(f, y[|path|..]).Some?
    requires IndexPath(f, x[|path|..])[0] < IndexPath(f, y[|path|..])[0]
    ensures ComesFirst(f, path, x, y)
  {
    var a, b := IndexPath(f, x[|path|..]), IndexPath(f, y[|path|..]);
    assert a[..0] == b[..0];
  }

  /** Everything inside a folder has the folder's index in front. */
  lemma IndexInside(f: Entry, cursor: nat, path: Path, x: Path)
    requires f.Folder? && WellFormed(f) && cursor < |f.entries| && path + [f.entries[cursor].name] <= x
    requires Lookup(f.entries[cursor], x[|path| + 1..]).Some?
    ensures Lookup(f, x[|path|..]).Some?
    ensures IndexPath(f, x[|path|..]) == [cursor] + IndexPath(f.entries[cursor], x[|path| + 1..])
  {
    assert x[|path|..][1..] == x[|path| + 1..] && x[|path|] == f.entries[cursor].name;
    assert IndexOf(f.entries, x[|path|]) == cursor;
  }

  lemma AheadInside(i: nat, a: seq<nat>, b: seq<nat>)
    requires Ahead(a, b)
    ensures Ahead([i] + a, [i] + b)
  {
    var k :| 0 <= k <= |a| && k < |b| && a[..k] == b[..k] && (k == |a| || a[k] < b[k]);
    assert ([i] + a)[..k + 1] == [i] + a[..k] && ([i] + b)[..k + 1] == [i] + b[..k];
  }

  lemma FirstInside(f: Entry, cursor: nat, path: Path, x: Path, y: Path)
    requires f.Folder? && WellFormed(f) && cursor < |f.entries|
    requires ComesFirst(f.entries[cursor], path + [f.entries[cursor].name], x, y)
    ensures ComesFirst(f, path, x, y)
  {
    var e := f.entries[cursor];
    IndexInside(f, cursor, path, x);
    IndexInside(f, cursor, path, y);
    AheadInside(cursor, IndexPath(e, x[|path| + 1..]), IndexPath(e, y[|path| + 1..]));
  }

  lemma FolderFirst(f: Entry, cursor: nat, path: Path, y: Path)
    requires f.Folder? && WellFormed(f) && cursor < |f.entries| && path + [f.entries[cursor].name] < y
    requires Lookup(f.entries[cursor], y[|path| + 1..]).Some?
    ensures ComesFirst(f, path, path + [f.entries[cursor].name], y)
  {
    var here := path + [f.entries[cursor].name];
    assert here[|path| + 1..] == [];
    IndexInside(f, cursor, path, here);
    IndexInside(f, cursor, path, y);
    var a, b := IndexPath(f, here[|path|..]), IndexPath(f, y[|path|..]);
    assert a == [cursor] && a[..1] == b[..1];
  }

  /** What starts with the entry at `cursor` comes ahead of everything later. */
  lemma AllAhead(f: Entry, cursor: nat, path: Path, visits: seq<Path>)
    requires f.Folder? && WellFormed(f) && cursor < |f.entries|
    requires forall x :: x in visits ==>
               path + [f.entries[cursor].name] <= x && Lookup(f.entries[cursor], x[|path| + 1..]).Some?
    ensures forall x, y :: x in visits && y in WalkFrom(f, cursor + 1, path) ==> ComesFirst(f, path, x, y)
  {
    forall x, y | x in visits && y in WalkFrom(f, cursor + 1, path)
      ensures ComesFirst(f, path, x, y)
    {
      IndexInside(f, cursor, path, x);
      VisitIndex(f, cursor + 1, path, y);
      SmallerIndexFirst(f, path, x, y);
    }
  }

  lemma InsideIsThere(e: Entry, here: Path, x: Path)
    requires e.Folder? && WellFormed(e) && x in WalkFrom(e, 0, here)
    ensures here < x && Lookup(e, x[|here|..]).Some?
  {
    VisitIndex(e, 0, here, x);
  }

  /** Visits come in the order of their index paths: along a folder, and everything inside an entry right after it. */
  lemma {:induction false} WalkInOrder(f: Entry, cursor: nat, path: Path)
    requires f.Folder? && WellFormed(f) && cursor <= |f.entries|
    ensures InOrder(f, path, WalkFrom(f, cursor, path))
    decreases f, |f.entries| - cursor
  {
    if f.readable && cursor < |f.entries| && !f.entries[cursor].Broken? {
      var e, here := f.entries[cursor], path + [f.entries[cursor].name];
      var later := WalkFrom(f, cursor + 1, path);
      WalkInOrder(f, cursor + 1, path);
      assert here[|path| + 1..] == [];
      if e.Leaf? {
        AllAhead(f, cursor, path, [here]);
        InOrderConcat(f, path, [here], later);
      } else if e.Folder? {
        var inside := WalkFrom(e, 0, here);
        WalkInOrder(e, 0, here);
        forall x | x in inside
          ensures here < x && Lookup(e, x[|here|..]).Some? && ComesFirst(f, path, here, x)
        {
          InsideIsThere(e, here, x);
          FolderFirst(f, cursor, path, x);
        }
        forall i, j | 0 <= i < j < |inside|
          ensures ComesFirst(f, path, inside[i], inside[j])
        {
          FirstInside(f, cursor, path, inside[i], inside[j]);
        }
        InOrderConcat(f, path, [here], inside);
        AllAhead(f, cursor, path, [here] + inside);
        InOrderConcat(f, path, [here] + inside, later);
      }
    }
  }

  // ----- What a stack of directories still has to visit

  datatype Frame = Frame(path: Path, cursor: nat)

  predicate Opens(root: Entry, frame: Frame) {
    var e := Lookup(root, frame.path);
    e.Some? && e.value.Folder? && frame.cursor <= |e.value.entries|
  }

  function RestOf(root: Entry, frame: Frame): (visits: seq<Path>)
    requires Opens(root, frame)
  {
    WalkFrom(Lookup(root, frame.path).value, frame.cursor, frame.path)
  }

  predicate AllOpen(root: Entry, stack: seq<Frame>) {
    forall i :: 0 <= i < |stack| ==> Opens(root, stack[i])
  }

  function Rest(root: Entry, stack: seq<Frame>): (visits: seq<Path>)
    requires AllOpen(root, stack)
  {
    if stack == [] then [] else RestOf(root, stack[|stack| - 1]) + Rest(root, stack[..|stack| - 1])
  }

  // ----- How much work is left

  /** Entries still to examine, and one for every folder that has to be entered and left. */
  function Weight(f: Entry, cursor: nat): (n: nat)
    requires f.Folder? && cursor <= |f.entries|
    decreases f, |f.entries| - cursor
  {
    if cursor == |f.entries| then 0
    else
      var e := f.entries[cursor];
      (if e.Folder? then 2 + Weight(e, 0) else 1) + Weight(f, cursor + 1)
  }

  function Load(root: Entry, stack: seq<Frame>): (n: nat)
    requires AllOpen(root, stack)
  {
    if stack == [] then 0
    else
      var top := stack[|stack| - 1];
      1 + Weight(Lookup(root, top.path).value, top.cursor) + Load(root, stack[..|stack| - 1])
  }

  // ----- One chunk of one directory

  /** At most `max` entries, and only while fewer than `limit` looks at the clock and the shutdown flag were made. */
  datatype Budget = Budget(max: nat, limit: nat)

  predicate Allows(b: Budget, examined: nat, checks: nat) {
    examined < b.max && checks < b.limit
  }

  datatype Progress = Complete | Paused(cursor: nat) | Gone

  /** Where a chunk leaves off: `next` is the place in `f`, and `descend` tells that the entry before it is entered. */
  ghost predicate ChunkVisits(f: Entry, path: Path, cursor: nat, next: nat, descend: Option<Path>, visits: seq<Path>)
    requires f.Folder? && cursor <= |f.entries|
  {
    && cursor <= next <= |f.entries|
    && match descend
       case None => visits + WalkFrom(f, next, path) == WalkFrom(f, cursor, path)
       case Some(p) =>
         && cursor < next && f.entries[next - 1].Folder? && p == path + [f.entries[next - 1].name]
         && visits + WalkFrom(f.entries[next - 1], 0, p) + WalkFrom(f, next, path) == WalkFrom(f, cursor, path)
  }

  /** What a chunk takes off the work that is left. */
  ghost predicate ChunkWeighs(f: Entry, cursor: nat, next: nat, descend: Option<Path>)
    requires f.Folder? && cursor <= next <= |f.entries|
    requires descend.Some? ==> cursor < next && f.entries[next - 1].Folder?
  {
    if descend.None? then Weight(f, next) + next - cursor <= Weight(f, cursor)
    else 2 + Weight(f.entries[next - 1], 0) + Weight(f, next) <= Weight(f, cursor)
  }

  /** Visit entries from `cursor` on.  `refuses` tells for which visited entries the purge queue has no room. */
  method VisitChunk(f: Entry, path: Path, cursor: nat, b: Budget, examined0: nat, checks0: nat, refuses: Path -> bool)
    returns (progress: Progress, visits: seq<Path>, descend: Option<Path>, held: Option<Path>, examined: nat,
             checks: nat)
    requires f.Folder? && cursor <= |f.entries|
    ensures examined0 <= examined && checks0 <= checks && (examined <= b.max || examined == examined0)
    ensures !progress.Paused? ==> visits == WalkFrom(f, cursor, path) && descend.None? && held.None?
    ensures progress.Paused? ==> ChunkVisits(f, path, cursor, progress.cursor, descend, visits)
    ensures progress.Paused? ==> ChunkWeighs(f, cursor, progress.cursor, descend)
    ensures progress.Paused? && descend.None? && held.None? ==> !Allows(b, examined, checks)
    ensures progress.Paused? && Allows(b, examined0, checks0) ==> cursor < progress.cursor
    ensures held.Some? ==> progress.Paused? && refuses(held.value) && visits != [] && visits[|visits| - 1] == held.value
  {
    visits, descend, held, examined, checks := [], None, None, examined0, checks0;
    if !f.readable { return Gone, visits, descend, held, examined, checks; }
    var resume := cursor;
    while resume < |f.entries|
      invariant cursor <= resume <= |f.entries| && examined0 <= examined && checks0 <= checks
      invariant examined <= b.max || examined == examined0
      invariant visits + WalkFrom(f, resume, path) == WalkFrom(f, cursor, path)
      invariant Weight(f, resume) + resume - cursor <= Weight(f, cursor)
      invariant resume == cursor ==> examined == examined0 && checks == checks0
    {
      var e := f.entries[resume];
      var allowed := Allows(b, examined, checks);
      checks := checks + 1;
      if !allowed { return Paused(resume), visits, descend, held, examined, checks; }
      examined := examined + 1;
      if e.Broken? { return Gone, visits, descend, held, examined, checks; }
      ghost var before := visits;
      resume := resume + 1;
      if !e.Hidden? {
        var p := path + [e.name];
        visits := visits + [p];
        if e.Folder? {
          Regroup(before, [p], WalkFrom(e, 0, p), WalkFrom(f, resume, path));
          return Paused(resume), visits, Some(p), held, examined, checks;
        }
        Associative(before, [p], WalkFrom(f, resume, path));
        if refuses(p) { return Paused(resume), visits, descend, Some(p), examined, checks; }
      }
    }
    progress := Complete;
  }

  // ----- The scan

  class Scan {
    const root: Entry
    var directories: seq<Frame>
    var pending: Option<Path>

    ghost predicate Valid()
      reads this
    {
      root.Folder? && WellFormed(root) && AllOpen(root, directories)
    }

    constructor (tree: Entry)
      requires tree.Folder? && WellFormed(tree)
      ensures Valid() && root == tree && pending.None?
      ensures Rest(root, directories) == WalkFrom(tree, 0, []) && Load(root, directories) == 1 + Weight(tree, 0)
    {
      root, directories, pending := tree, [Frame([], 0)], None;
      new;
      assert directories[..0] == [];
    }

    /** One chunk of the directory on top of the stack, and what it does to the stack. */
    method Advance(b: Budget, examined0: nat, checks0: nat, refuses: Path -> bool)
      returns (visits: seq<Path>, held: Option<Path>, examined: nat, checks: nat)
      requires Valid() && directories != []
      modifies this`directories
      ensures Valid() && examined0 <= examined && checks0 <= checks && (examined <= b.max || examined == examined0)
      ensures visits + Rest(root, directories) == Rest(root, old(directories))
      ensures Load(root, directories) <= Load(root, old(directories))
      ensures Allows(b, examined0, checks0) ==> Load(root, directories) < Load(root, old(directories))
      ensures Load(root, directories) == Load(root, old(directories)) ==> held.Some? || !Allows(b, examined, checks)
      ensures held.Some? ==> refuses(held.value) && held.value in visits
    {
      var top := directories[|directories| - 1];
      var f := Lookup(root, top.path).value;
      var progress, descend;
      progress, visits, descend, held, examined, checks :=
        VisitChunk(f, top.path, top.cursor, b, examined0, checks0, refuses);
      if progress.Paused? {
        Pause(f, progress.cursor, descend, visits);
      } else {
        directories := directories[..|directories| - 1];
      }
    }

    /** Note where the top directory was left, and enter the folder found there, if any. */
    method Pause(f: Entry, next: nat, descend: Option<Path>, ghost visits: seq<Path>)
      requires Valid() && directories != []
      requires var top := directories[|directories| - 1];
               && Lookup(root, top.path) == Some(f) && f.Folder? && top.cursor <= |f.entries|
               && ChunkVisits(f, top.path, top.cursor, next, descend, visits)
               && ChunkWeighs(f, top.cursor, next, descend)
      modifies this`directories
      ensures Valid() && visits + Rest(root, directories) == Rest(root, old(directories))
      ensures Load(root, directories) <= Load(root, old(directories))
      ensures old(directories[|directories| - 1].cursor) < next ==>
              Load(root, directories) < Load(root, old(directories))
    {
      ghost var before := directories;
      var top := directories[|directories| - 1];
      directories := directories[|directories| - 1 := top.(cursor := next)];
      if descend.Some? {
        LookupChild(root, top.path, f, next - 1);
        directories := directories + [Frame(descend.value, 0)];
      }
      Restacked(root, before, next, descend, visits, directories);
    }

    /** One slice.  An entry the purge queue had no room for is offered once more first, or left to a later scan. */
    method Slice(b: Budget, refuses: Path -> bool) returns (visits: seq<Path>, complete: bool, examined: nat)
      requires Valid()
      modifies this
      ensures Valid() && examined <= b.max
      ensures visits + Rest(root, directories) == Rest(root, old(directories))
      ensures complete <==> directories == [] && pending.None?
      ensures Load(root, directories) <= Load(root, old(directories))
      ensures b.max > 0 && b.limit > 1 && old(directories) != [] ==>
              Load(root, directories) < Load(root, old(directories))
      ensures pending.Some? ==> refuses(pending.value) && pending.value in visits
    {
      var checks: nat := 0;
      visits, examined, pending := [], 0, None;
      while directories != [] && Allows(b, examined, checks)
        invariant Valid() && examined <= b.max && pending.None?
        invariant visits + Rest(root, directories) == Rest(root, old(directories))
        invariant Load(root, directories) <= Load(root, old(directories))
        invariant checks > 0 && b.max > 0 && b.limit > 1 ==> Load(root, directories) < Load(root, old(directories))
        invariant checks == 0 ==> directories == old(directories) && examined == 0
        decreases Load(root, directories), b.limit - checks
      {
        var more, held;
        ghost var before, seen := directories, visits;
        more, held, examined, checks := Advance(b, examined, checks + 1, refuses);
        visits := visits + more;
        Associative(seen, more, Rest(root, directories));
        if held.Some? {
          pending := held;
          break;
        }
      }
      complete := directories == [] && pending.None?;
    }
  }

  /** What the stack has left after its top directory was paused, and perhaps one of its folders entered. */
  lemma Restacked(root: Entry, before: seq<Frame>, next: nat, descend: Option<Path>, visits: seq<Path>,
                  after: seq<Frame>)
    requires before != [] && AllOpen(root, before)
    requires var top := before[|before| - 1]; var f := Lookup(root, top.path).value;
      && ChunkVisits(f, top.path, top.cursor, next, descend, visits)
      && (descend.Some? ==> Lookup(root, descend.value) == Some(f.entries[next - 1]))
      && ChunkWeighs(f, top.cursor, next, descend)
      && after == before[|before| - 1 := Frame(top.path, next)] +
                  (if descend.Some? then [Frame(descend.value, 0)] else [])
    ensures AllOpen(root, after) && visits + Rest(root, after) == Rest(root, before)
    ensures Load(root, after) <= Load(root, before)
    ensures before[|before| - 1].cursor < next ==> Load(root, after) < Load(root, before)
  {
    var top, below := before[|before| - 1], before[..|before| - 1];
    var paused, here := below + [Frame(top.path, next)], RestOf(root, Frame(top.path, next));
    assert before[|before| - 1 := Frame(top.path, next)] == paused;
    assert paused[..|paused| - 1] == below;
    if descend.Some? {
      var inside := RestOf(root, Frame(descend.value, 0));
      assert after == paused + [Frame(descend.value, 0)];
      assert after[..|after| - 1] == paused;
      Regroup(visits, inside, here, Rest(root, below));
      Associative(inside, here, Rest(root, below));
    } else {
      assert after == paused;
      Associative(visits, here, Rest(root, below));
    }
  }

  ghost predicate OnlyVisitable(root: Entry, visits: seq<Path>) {
    forall v :: v in visits ==> Visitable(root, v)
  }

  ghost predicate AllVisitable(root: Entry, visits: seq<Path>) {
    forall v :: Visitable(root, v) ==> v in visits
  }

  lemma PartOfWalk(root: Entry, visits: seq<Path>, all: seq<Path>)
    requires root.Folder? && WellFormed(root) && all == WalkFrom(root, 0, []) && visits <= all
    ensures Distinct(visits) && InOrder(root, [], visits) && OnlyVisitable(root, visits)
    ensures visits == all ==> AllVisitable(root, visits)
  {
    WalkIsDistinct(root, 0, []);
    WalkInOrder(root, 0, []);
    forall v
      ensures v in all <==> Visitable(root, v)
    {
      WalkReachesEverything(root, v);
    }
    assert forall i :: 0 <= i < |visits| ==> visits[i] == all[i];
  }

  /** Slices with any budgets, one after the other, visit what can be visited, in the order of the tree and nothing
      twice: exactly a first part of the one recursive walk, and all of it when they finish.  Enough slices that each
      get to look at an entry finish the scan. */
  method RunSlices(tree: Entry, budgets: seq<Budget>, refuses: Path -> bool) returns (visits: seq<Path>, finished: bool)
    requires tree.Folder? && WellFormed(tree)
    ensures visits <= WalkFrom(tree, 0, []) && Distinct(visits) && InOrder(tree, [], visits)
    ensures OnlyVisitable(tree, visits) && (finished ==> visits == WalkFrom(tree, 0, []) && AllVisitable(tree, visits))
    ensures |budgets| > Weight(tree, 0) &&
            (forall i :: 0 <= i < |budgets| ==> budgets[i].max > 0 && budgets[i].limit > 1) ==>
            finished
  {
    var scan := new Scan(tree);
    var i := 0;
    visits := [];
    while i < |budgets|
      invariant 0 <= i <= |budgets| && fresh(scan) && scan.root == tree && scan.Valid()
      invariant visits + Rest(tree, scan.directories) == WalkFrom(tree, 0, [])
      invariant (forall j :: 0 <= j < i ==> budgets[j].max > 0 && budgets[j].limit > 1) ==>
                  scan.directories == [] || Load(tree, scan.directories) + i <= 1 + Weight(tree, 0)
    {
      ghost var seen := visits;
      var more, complete, _ := scan.Slice(budgets[i], refuses);
      visits := visits + more;
      Associative(seen, more, Rest(tree, scan.directories));
      i := i + 1;
    }
    finished := scan.directories == [];
    PartOfWalk(tree, visits, WalkFrom(tree, 0, []));
  }
}
