/**
 Creating the missing directories above a new entry, and taking them back.

 `OpenParent` opens the parent of an entry, creating missing ancestors one by
 one; if a call fails half-way, what was created is removed again.  Any of the
 calls that look or create may fail; the calls that clean up do not, and nobody
 else writes.
 */
module AncestorCreation {
  import opened Wrappers
  import opened Filesystem

  // ----- Making and removing a directory

  predicate CanMake(fs: Fs, dir: DirId, name: Name, id: DirId) {
    dir in fs.entries && name !in fs.entries[dir] && id !in fs.entries
  }

  function MakeDir(fs: Fs, dir: DirId, name: Name, id: DirId): (n: Fs)
    requires CanMake(fs, dir, name, id) && dir in fs.level
  {
    fs.(entries := fs.entries[dir := fs.entries[dir][name := Directory(id)]][id := map[]],
        places := fs.places[id := Place(dir, name)],
        level := fs.level[id := fs.level[dir] + 1])
  }

  function RemoveDir(fs: Fs, dir: DirId, name: Name, id: DirId): (n: Fs)
    requires Holds(fs, Place(dir, name), id)
  {
    fs.(entries := fs.entries[dir := fs.entries[dir] - {name}] - {id},
        places := fs.places - {id},
        level := fs.level - {id})
  }

  lemma MakeDirWellFormed(fs: Fs, dir: DirId, name: Name, id: DirId)
    requires WellFormed(fs) && CanMake(fs, dir, name, id)
    ensures WellFormed(MakeDir(fs, dir, name, id))
  {
    var n := MakeDir(fs, dir, name, id);
    assert n.entries.Keys == fs.entries.Keys + {id};
    assert n.level.Keys == n.entries.Keys;
    assert n.places.Keys == n.entries.Keys - {n.root};
    forall d | d in n.places
      ensures n.places[d].dir in n.entries && Holds(n, n.places[d], d) && n.level[d] == n.level[n.places[d].dir] + 1
    {
      if d != id { assert Holds(fs, fs.places[d], d); }
    }
    forall p: Place, d | Holds(n, p, d)
      ensures d in n.places && n.places[d] == p
    {
      if p != Place(dir, name) {
        assert Holds(fs, p, d);
      }
    }
  }

  lemma UpdateUndone<K, V>(m: map<K, V>, k: K, v: V)
    requires k !in m
    ensures m[k := v] - {k} == m
  {
  }

  lemma NestedUpdateUndone(m: map<DirId, map<Name, Entry>>, dir: DirId, name: Name, id: DirId)
    requires dir in m && name !in m[dir] && id !in m
    ensures var n := m[dir := m[dir][name := Directory(id)]][id := map[]];
      n[dir := n[dir] - {name}] - {id} == m
  {
    UpdateUndone(m[dir], name, Directory(id));
    var n := m[dir := m[dir][name := Directory(id)]][id := map[]];
    assert n[dir] - {name} == m[dir];
  }

  /** Removing undoes making. */
  lemma RemoveUndoesMake(fs: Fs, dir: DirId, name: Name, id: DirId)
    requires WellFormed(fs) && CanMake(fs, dir, name, id)
    ensures Holds(MakeDir(fs, dir, name, id), Place(dir, name), id)
    ensures RemoveDir(MakeDir(fs, dir, name, id), dir, name, id) == fs
  {
    NestedUpdateUndone(fs.entries, dir, name, id);
    UpdateUndone(fs.places, id, Place(dir, name));
    UpdateUndone(fs.level, id, fs.level[dir] + 1);
  }

  /** A new directory changes no lookup that succeeded without it. */
  lemma {:induction false} WalkGrows(fs: Fs, n: Fs, dir: DirId, name: Name, id: DirId, at: DirId,
                                     path: seq<Component>, links: nat)
    requires WellFormed(fs) && CanMake(fs, dir, name, id) && n == MakeDir(fs, dir, name, id) && WellFormed(n)
    requires at in fs.entries && Walk(fs, at, path, links).Reached?
    ensures Walk(n, at, path, links) == Walk(fs, at, path, links)
    decreases links, |path|
  {
    if path != [] {
      match path[0]
      case Up => WalkGrows(fs, n, dir, name, id, fs.places[at].dir, path[1..], links);
      case Named(x) =>
        match fs.entries[at][x]
        case Directory(d) =>
          assert Holds(fs, Place(at, x), d);
          WalkGrows(fs, n, dir, name, id, d, path[1..], links);
        case Link(Relative(target)) => WalkGrows(fs, n, dir, name, id, at, target + path[1..], links - 1);
    }
  }

  lemma OpenGrows(fs: Fs, n: Fs, dir: DirId, name: Name, id: DirId, path: seq<Name>)
    requires WellFormed(fs) && CanMake(fs, dir, name, id) && n == MakeDir(fs, dir, name, id) && WellFormed(n)
    requires OpenDirectory(fs, path).Open?
    ensures OpenDirectory(n, path) == OpenDirectory(fs, path)
  {
    WalkGrows(fs, n, dir, name, id, fs.root, Components(path), MAX_LINKS);
  }

  /** The new directory is what its path opens. */
  lemma MadeIsOpened(fs: Fs, dir: DirId, name: Name, id: DirId, parent: seq<Name>)
    requires WellFormed(fs) && CanMake(fs, dir, name, id) && OpenDirectory(fs, parent) == Open(dir)
    ensures WellFormed(MakeDir(fs, dir, name, id))
    ensures OpenDirectory(MakeDir(fs, dir, name, id), parent + [name]) == Open(id)
  {
    var n := MakeDir(fs, dir, name, id);
    MakeDirWellFormed(fs, dir, name, id);
    OpenGrows(fs, n, dir, name, id, parent);
    OpenSplits(n, parent, [name]);
    var left := Walk(n, n.root, Components(parent), MAX_LINKS).links;
    assert Components([name]) == [Named(name)];
    assert Holds(n, Place(dir, name), id);
    assert Walk(n, dir, [Named(name)], left) == Walk(n, id, [Named(name)][1..], left) == Reached(id, left);
  }

  lemma MissingIsNotFound(fs: Fs, dir: DirId, name: Name, parent: seq<Name>)
    requires WellFormed(fs) && OpenDirectory(fs, parent) == Open(dir) && name !in fs.entries[dir]
    ensures OpenDirectory(fs, parent + [name]) == Denied(NotFound)
  {
    OpenSplits(fs, parent, [name]);
    assert Components([name]) == [Named(name)];
  }

  // ----- A list of created ancestors

  datatype Created = Created(path: seq<Name>, id: DirId)

  function Front(path: seq<Name>): (p: seq<Name>)
    requires path != []
  {
    path[..|path| - 1]
  }

  function Last(path: seq<Name>): (n: Name)
    requires path != []
  {
    path[|path| - 1]
  }

  ghost predicate CanGrow(fs: Fs, c: Created) {
    && WellFormed(fs) && c.path != [] && OpenDirectory(fs, Front(c.path)).Open?
    && CanMake(fs, OpenDirectory(fs, Front(c.path)).dir, Last(c.path), c.id)
  }

  ghost function GrowOne(fs: Fs, c: Created): (n: Fs)
    requires CanGrow(fs, c)
    ensures WellFormed(n)
  {
    var dir := OpenDirectory(fs, Front(c.path)).dir;
    MakeDirWellFormed(fs, dir, Last(c.path), c.id);
    MakeDir(fs, dir, Last(c.path), c.id)
  }

  /** The states in which the directories of the list were created one after the other. */
  ghost predicate Grown(states: seq<Fs>, created: seq<Created>) {
    && |states| == |created| + 1 && WellFormed(states[|created|])
    && forall k {:trigger created[k]} :: 0 <= k < |created| ==>
       CanGrow(states[k], created[k]) && states[k + 1] == GrowOne(states[k], created[k])
  }

  /** The directories created on the way from `start` to `fs`. */
  ghost predicate Trail(start: Fs, states: seq<Fs>, created: seq<Created>, fs: Fs) {
    Grown(states, created) && states[0] == start && fs == states[|created|]
  }

  lemma TrailMore(start: Fs, states: seq<Fs>, created: seq<Created>, fs: Fs, c: Created)
    requires Trail(start, states, created, fs) && CanGrow(fs, c)
    ensures Trail(start, states + [GrowOne(fs, c)], created + [c], GrowOne(fs, c))
  {
  }

  /** The first component that cannot be opened decides. */
  lemma FirstDenied(fs: Fs, path: seq<Name>, i: nat)
    requires WellFormed(fs) && i < |path| - 1 && OpenDirectory(fs, path[..i + 1]).Denied?
    ensures OpenDirectory(fs, Front(path)) == OpenDirectory(fs, path[..i + 1])
  {
    OpenMonotone(fs, path[..i + 1], Front(path)[i + 1..]);
    assert path[..i + 1] + Front(path)[i + 1..] == Front(path);
  }

  // ----- What a tree lacks, and what it cannot be given

  /** The directories among the first `i` components that cannot be opened, in order, with their new identities. */
  ghost function Missing(fs: Fs, path: seq<Name>, ids: seq<DirId>, i: nat): (r: seq<Created>)
    requires WellFormed(fs) && i <= |path| == |ids|
  {
    if i == 0 then []
    else Missing(fs, path, ids, i - 1) +
         if OpenDirectory(fs, path[..i]).Denied? then [Created(path[..i], ids[i - 1])] else []
  }

  /** If one is missing, so are all below it. */
  lemma {:induction false} MissingBelow(fs: Fs, path: seq<Name>, ids: seq<DirId>, i: nat)
    requires WellFormed(fs) && 0 < i <= |path| == |ids| && Missing(fs, path, ids, i) != []
    ensures OpenDirectory(fs, path[..i]).Denied?
  {
    if OpenDirectory(fs, path[..i]).Open? && i > 1 {
      MissingBelow(fs, path, ids, i - 1);
      assert path[..i] == path[..i - 1] + [path[i - 1]];
      OpenMonotone(fs, path[..i - 1], [path[i - 1]]);
    }
  }

  /** Component `i` is there, and yet it does not lead to a directory; a new one cannot take its place. */
  ghost predicate Blocked(fs: Fs, path: seq<Name>, i: nat)
    requires WellFormed(fs)
  {
    && i < |path| - 1 && OpenDirectory(fs, path[..i]).Open?
    && path[i] in fs.entries[OpenDirectory(fs, path[..i]).dir]
    && OpenDirectory(fs, path[..i + 1]).Denied?
  }

  // ----- The rooted filesystem

  lemma RemoveDirWellFormed(fs: Fs, dir: DirId, name: Name, id: DirId)
    requires WellFormed(fs) && Holds(fs, Place(dir, name), id) && fs.entries[id] == map[]
    ensures WellFormed(RemoveDir(fs, dir, name, id))
  {
    var n := RemoveDir(fs, dir, name, id);
    assert id != dir;
    assert n.entries.Keys == fs.entries.Keys - {id};
    assert n.level.Keys == n.entries.Keys;
    assert n.places.Keys == n.entries.Keys - {n.root};
    forall d | d in n.places
      ensures n.places[d].dir in n.entries && Holds(n, n.places[d], d) && n.level[d] == n.level[n.places[d].dir] + 1
    {
      assert Holds(fs, fs.places[d], d);
    }
    forall p: Place, d | Holds(n, p, d)
      ensures d in n.places && n.places[d] == p
    {
      assert Holds(fs, p, d);
    }
  }

  /** The empty directory `id`, and nothing else, was removed. */
  ghost predicate RemovedEmpty(before: Fs, after: Fs, id: DirId) {
    && id in before.entries && before.entries[id] == map[] && id in before.places
    && Holds(before, before.places[id], id)
    && after == RemoveDir(before, before.places[id].dir, before.places[id].name, id)
  }

  datatype RollbackStep = Next | Stop | Fails(error: IoError)

  /** A call that fails while an ancestor is opened or created. */
  datatype Fault = NoFault | OpenFails(error: IoError) | MakeFails | SyncFails | InspectFails
    | ReopenFails(error: IoError)

  datatype Parent = Parent(dir: DirId, created: seq<Created>)

  class RootedFs {
    var fs: Fs

    /** Take one created ancestor back.  Whatever the tree looks like, nothing is removed but an empty directory with
        the identity that was created; and right after its creation exactly that is undone. */
    method RollbackOne(c: Created, ghost before: Fs) returns (r: RollbackStep)
      requires WellFormed(fs) && c.path != []
      modifies this
      ensures WellFormed(fs) && (fs == old(fs) || RemovedEmpty(old(fs), fs, c.id))
      ensures CanGrow(before, c) && old(fs) == GrowOne(before, c) ==> fs == before && r == Next
    {
      ghost var dir0 := if CanGrow(before, c) then OpenDirectory(before, Front(c.path)).dir else 0;
      if CanGrow(before, c) && fs == GrowOne(before, c) {
        OpenGrows(before, fs, dir0, Last(c.path), c.id, Front(c.path));
        RemoveUndoesMake(before, dir0, Last(c.path), c.id);
      }
      var parent := OpenDirectory(fs, Front(c.path));
      if parent.Denied? {
        return if parent.error.NotFound? || parent.error.NotADirectory? then Next else Fails(parent.error);
      }
      var dir, name := parent.dir, Last(c.path);
      if name !in fs.entries[dir] { return Next; }
      if fs.entries[dir][name] != Directory(c.id) { return Stop; }
      assert Holds(fs, Place(dir, name), c.id);
      if fs.entries[c.id] != map[] { return Stop; }
      RemoveDirWellFormed(fs, dir, name, c.id);
      fs := RemoveDir(fs, dir, name, c.id);
      r := Next;
    }

    /** Take created ancestors back, last first.  With nothing else changed this restores the tree they were created
        in. */
    method Rollback(created: seq<Created>, ghost states: seq<Fs>)
      requires WellFormed(fs) && forall i :: 0 <= i < |created| ==> created[i].path != []
      modifies this
      ensures WellFormed(fs)
      ensures Grown(states, created) && old(fs) == states[|created|] ==> fs == states[0]
    {
      var i := |created|;
      while i > 0
        invariant 0 <= i <= |created| && WellFormed(fs)
        invariant Grown(states, created) && old(fs) == states[|created|] ==> fs == states[i]
      {
        i := i - 1;
        var r := RollbackOne(created[i], if |states| > i then states[i] else fs);
        if r != Next { return; }
      }
    }

    /** Create one missing directory, make it durable, look at it and open it again.  Failing, it leaves no trace. */
    method CreateHere(parent: seq<Name>, name: Name, dir: DirId, fault: Fault, id: DirId)
      returns (r: Result<DirId, IoError>, made: bool)
      requires WellFormed(fs) && OpenDirectory(fs, parent) == Open(dir) && id !in fs.entries
      modifies this
      ensures WellFormed(fs) && made == (fs != old(fs))
      ensures made ==> r == Ok(id) && CanGrow(old(fs), Created(parent + [name], id))
      ensures made ==> fs == GrowOne(old(fs), Created(parent + [name], id))
      ensures made ==> OpenDirectory(fs, parent + [name]) == Open(id) && fs.entries[id] == map[]
      ensures r.Ok? && !made ==> name in fs.entries[dir] && OpenDirectory(fs, parent + [name]) == Open(r.value)
      ensures r.Err? && fault.NoFault? ==>
              name in fs.entries[dir] && OpenDirectory(fs, parent + [name]) == Denied(r.error)
    {
      made := false;
      var prefix := parent + [name];
      if fault.MakeFails? { return Err(OtherIo), made; }
      if name in fs.entries[dir] {
        if fault.SyncFails? { return Err(OtherIo), made; }
        if fault.ReopenFails? { return Err(fault.error), made; }
        var found := OpenDirectory(fs, prefix);
        return if found.Open? then Ok(found.dir) else Err(found.error), made;
      }
      ghost var before := fs;
      MadeIsOpened(fs, dir, name, id, parent);
      RemoveUndoesMake(fs, dir, name, id);
      assert Front(prefix) == parent;
      fs := MakeDir(fs, dir, name, id);
      if fault.SyncFails? || fault.InspectFails? || fault.ReopenFails? {
        fs := RemoveDir(fs, dir, name, id);
        return Err(if fault.ReopenFails? then fault.error else OtherIo), made;
      }
      made := true;
      r := Ok(OpenDirectory(fs, prefix).dir);
    }

    /** Open one more component, or create it. */
    method OpenNext(parent: seq<Name>, name: Name, dir: DirId, create: bool, fault: Fault, id: DirId)
      returns (r: Result<DirId, IoError>, made: bool)
      requires WellFormed(fs) && OpenDirectory(fs, parent) == Open(dir) && id !in fs.entries
      modifies this
      ensures WellFormed(fs) && made == (fs != old(fs)) && (made ==> create && r == Ok(id))
      ensures made ==> CanGrow(old(fs), Created(parent + [name], id))
      ensures made ==> fs == GrowOne(old(fs), Created(parent + [name], id))
      ensures made ==> id in fs.entries && fs.entries[id] == map[]
      ensures r.Ok? ==> OpenDirectory(fs, parent + [name]) == Open(r.value)
      ensures r.Err? && fault.NoFault? ==> OpenDirectory(fs, parent + [name]) == Denied(r.error)
      ensures r.Ok? && !made ==> name in fs.entries[dir]
      ensures r.Err? && fault.NoFault? && create ==> name in fs.entries[dir]
    {
      if name !in fs.entries[dir] { MissingIsNotFound(fs, dir, name, parent); }
      made := false;
      var found := if fault.OpenFails? then Denied(fault.error) else OpenDirectory(fs, parent + [name]);
      if found == Denied(NotFound) && create {
        r, made := CreateHere(parent, name, dir, fault, id);
      } else {
        r := if found.Open? then Ok(found.dir) else Err(found.error);
      }
    }

    /** One component further, or back to the start. */
    method Advance(path: seq<Name>, i: nat, create: bool, fault: Fault, id: DirId, current: DirId,
                   created: seq<Created>, ghost start: Fs, ghost states: seq<Fs>, ghost ids: seq<DirId>)
      returns (r: Result<DirId, IoError>, out: seq<Created>, ghost after: seq<Fs>)
      requires OnTheWay(start, states, created, fs, path, ids, i, current, create)
      requires i < |path| - 1 && id !in fs.entries && ids[i] == id
      modifies this
      ensures r.Ok? ==> OnTheWay(start, after, out, fs, path, ids, i + 1, r.value, create)
      ensures r.Ok? ==> fs.entries.Keys <= old(fs.entries).Keys + {id}
      ensures r.Err? ==> fs == start && WellFormed(start)
      ensures r.Err? && fault.NoFault? ==> OpenDirectory(start, Front(path)) == Denied(r.error)
      ensures r.Err? && fault.NoFault? && create ==> Blocked(start, path, i)
    {
      var name, prefix := path[i], path[..i + 1];
      assert prefix == path[..i] + [name];
      ghost var before := fs;
      var made;
      r, made := OpenNext(path[..i], name, current, create, fault, id);
      NextMissing(start, states, created, before, path, ids, i, current, create);
      out, after := created, states;
      if r.Err? {
        if fault.NoFault? { FirstDenied(fs, path, i); }
        Rollback(created, states);
      } else if made {
        TrailMore(start, states, created, before, Created(prefix, id));
        out, after := created + [Created(prefix, id)], states + [fs];
      }
    }

    /** Open the parent of `path`, one component after the other, creating what is missing if asked to.
        `faults` and `ids` say for every component which call fails and which identity a new directory gets. */
    method OpenParent(path: seq<Name>, create: bool, faults: seq<Fault>, ids: seq<DirId>)
      returns (r: Result<Parent, IoError>, ghost states: seq<Fs>)
      requires WellFormed(fs) && path != [] && |faults| == |ids| == |path|
      requires forall i :: 0 <= i < |ids| ==> ids[i] !in fs.entries
      requires forall i, j :: 0 <= i < j < |ids| ==> ids[i] != ids[j]
      modifies this
      ensures r.Err? ==> fs == old(fs)
      ensures r.Ok? ==> Trail(old(fs), states, r.value.created, fs) && WellFormed(fs)
      ensures r.Ok? ==> OpenDirectory(fs, Front(path)) == Open(r.value.dir)
      ensures r.Ok? ==> r.value.created == Missing(old(fs), path, ids, |path| - 1)
      ensures !create && r.Ok? ==> r.value.created == []
      ensures create && r.Ok? ==> forall i :: 0 <= i < |path| ==> !Blocked(old(fs), path, i)
      ensures r.Err? && (forall i :: 0 <= i < |faults| ==> faults[i].NoFault?) ==>
              OpenDirectory(old(fs), Front(path)) == Denied(r.error)
      ensures r.Err? && create && (forall i :: 0 <= i < |faults| ==> faults[i].NoFault?) ==>
              exists i :: 0 <= i < |path| && Blocked(old(fs), path, i)
    {
      var current, created := fs.root, [];
      states := [fs];
      assert Components([]) == [];
      var i := 0;
      while i < |path| - 1
        invariant 0 <= i <= |path| - 1
        invariant OnTheWay(old(fs), states, created, fs, path, ids, i, current, create)
        invariant forall k :: i <= k < |ids| ==> ids[k] !in fs.entries
      {
        var next;
        next, created, states := Advance(path, i, create, faults[i], ids[i], current, created, old(fs), states, ids);
        if next.Err? { return Err(next.error), states; }
        current := next.value;
        i := i + 1;
      }
      r := Ok(Parent(current, created));
      assert path[..i] == Front(path);
    }
  }

  /** The first `i` components are open, or were created one after the other; a directory just created is empty. */
  ghost predicate OnTheWay(start: Fs, states: seq<Fs>, created: seq<Created>, fs: Fs, path: seq<Name>,
                           ids: seq<DirId>, i: nat, current: DirId, create: bool) {
    && WellFormed(start) && WellFormed(fs) && i < |path| == |ids| && Trail(start, states, created, fs)
    && created == Missing(start, path, ids, i) && (forall k :: 0 <= k < i ==> !Blocked(start, path, k))
    && OpenDirectory(fs, path[..i]) == Open(current)
    && (created != [] ==> create && fs.entries[current] == map[])
  }

  /** Until something was created the tree is the one at the start; afterwards everything further is missing. */
  lemma NextMissing(start: Fs, states: seq<Fs>, created: seq<Created>, fs: Fs, path: seq<Name>, ids: seq<DirId>,
                    i: nat, current: DirId, create: bool)
    requires OnTheWay(start, states, created, fs, path, ids, i, current, create) && i < |path| - 1
    ensures created == [] ==> fs == start
    ensures created != [] ==> OpenDirectory(start, path[..i]).Denied? && OpenDirectory(start, path[..i + 1]).Denied?
    ensures path[i] !in fs.entries[current] ==> OpenDirectory(fs, path[..i + 1]).Denied?
  {
    assert path[..i + 1] == path[..i] + [path[i]];
    if created != [] {
      MissingBelow(start, path, ids, i);
      OpenMonotone(start, path[..i], [path[i]]);
    }
    if path[i] !in fs.entries[current] { MissingIsNotFound(fs, current, path[i], path[..i]); }
  }
}
