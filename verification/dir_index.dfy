/** The two-way index of directory GUIDs kept by `PeerManager` (src/peer_manager.cpp). */
module DirIndex {

  /** Paths below the share root are sequences of component names; the root is empty. */
  type Path = seq<string>

  const ROOT: Path := []

  const RESERVED := {".sync_tmp", ".archive", ".config", ".conflict-stage"}

  predicate IsInternal(path: Path) { path != [] && path[0] in RESERVED }

  /** `p` is the path or one of its ancestors. */
  predicate Covers(p: Path, path: Path) { p <= path }

  datatype Index = Index(pathToGuid: map<Path, string>, guidToPath: map<string, Path>, origin: map<string, string>)

  /** Each map is the inverse of the other, nothing reserved is registered, and every GUID
      is a real one. */
  ghost predicate Inverse(s: Index) {
    && (forall p :: p in s.pathToGuid ==> s.pathToGuid[p] in s.guidToPath && s.guidToPath[s.pathToGuid[p]] == p)
    && (forall g :: g in s.guidToPath ==> s.guidToPath[g] in s.pathToGuid && s.pathToGuid[s.guidToPath[g]] == g)
    && (forall p :: p in s.pathToGuid ==> !IsInternal(p))
    && "" !in s.guidToPath
  }

  // ---------------------------------------------------------------- the operations

  /** Registering a path: itself and its ancestors, the root included, get GUIDs of their
      own where they have none; the new GUIDs were not in use, and nothing else changes. */
  ghost predicate Registered(s: Index, t: Index, path: Path, localPeer: string) {
    if IsInternal(path) then t == s
    else
      && (forall p :: p in t.pathToGuid <==> p in s.pathToGuid || Covers(p, path))
      && (forall p :: p in s.pathToGuid ==> t.pathToGuid[p] == s.pathToGuid[p])
      && (forall p :: p in t.pathToGuid && p !in s.pathToGuid ==>
            t.pathToGuid[p] !in s.guidToPath && t.pathToGuid[p] != "" &&
            t.pathToGuid[p] in t.guidToPath && t.guidToPath[t.pathToGuid[p]] == p &&
            t.pathToGuid[p] in t.origin && t.origin[t.pathToGuid[p]] == localPeer)
      && (forall g :: g in s.guidToPath ==> g in t.guidToPath && t.guidToPath[g] == s.guidToPath[g])
      && (forall g :: g in t.guidToPath && g !in s.guidToPath ==>
            t.guidToPath[g] !in s.pathToGuid && t.guidToPath[g] in t.pathToGuid && t.pathToGuid[t.guidToPath[g]] == g)
      && (forall g :: g in s.origin && (g !in t.guidToPath || g in s.guidToPath) ==>
            g in t.origin && t.origin[g] == s.origin[g])
  }

  /** Binding a GUID to a path: the GUID leaves its old path, the path loses its old GUID. */
  function Bound(s: Index, path: Path, guid: string): Index {
    var freed := if guid in s.guidToPath && s.guidToPath[guid] != path then s.pathToGuid - {s.guidToPath[guid]}
                 else s.pathToGuid;
    if path in freed && freed[path] == guid then s.(pathToGuid := freed)
    else
      var dropped := if path in freed then s.guidToPath - {freed[path]} else s.guidToPath;
      s.(pathToGuid := freed[path := guid], guidToPath := dropped[guid := path])
  }

  /** Taking a GUID out.  As written, the root path keeps pointing at it. */
  function Unregistered(s: Index, guid: string): Index {
    if guid == "" || guid !in s.guidToPath then s
    else
      var path := s.guidToPath[guid];
      var paths := if path != ROOT && path in s.pathToGuid && s.pathToGuid[path] == guid then s.pathToGuid - {path}
                   else s.pathToGuid;
      Index(paths, s.guidToPath - {guid}, s.origin - {guid})
  }

  /** The inserting lookup: a path that is not there is mapped to the empty text. */
  function ReadOrInsert(s: Index, path: Path): Index {
    if path in s.pathToGuid then s else s.(pathToGuid := s.pathToGuid[path := ""])
  }

  /** The regions guarded by the mutex, as they follow one another. */
  datatype Op =
    | Register(path: Path)
    | Bind(path: Path, guid: string)
    | Unregister(guid: string)
    | Read(path: Path)

  ghost predicate Steps(s: Index, t: Index, op: Op, localPeer: string) {
    match op
    case Register(path) => Registered(s, t, path, localPeer)
    case Bind(path, guid) => t == if guid == "" || IsInternal(path) then s else Bound(s, path, guid)
    case Unregister(guid) => t == Unregistered(s, guid)
    case Read(path) => t == if IsInternal(path) then s else ReadOrInsert(s, path)
  }

  /** The states around each of a sequence of regions. */
  ghost predicate Chain(states: seq<Index>, ops: seq<Op>, localPeer: string) {
    && |states| == |ops| + 1
    && forall i :: 0 <= i < |ops| ==> Steps(states[i], states[i + 1], ops[i], localPeer)
  }

  lemma ChainGrows(states: seq<Index>, ops: seq<Op>, localPeer: string, t: Index, op: Op)
    requires Chain(states, ops, localPeer) && Steps(states[|ops|], t, op, localPeer)
    ensures Chain(states + [t], ops + [op], localPeer)
  {
    hide Steps;
  }

  // ---------------------------------------------------------------- the class

  /** A source of random names that no finite set of names can hold for ever. */
  ghost predicate Inexhaustible(gen: nat -> string) {
    forall used: set<string>, n: nat :: SomeUnused(gen, used, n)
  }

  ghost predicate SomeUnused(gen: nat -> string, used: set<string>, n: nat) {
    exists m: nat :: m >= n && Guid(gen(m)) !in used
  }

  function Guid(random: string): (g: string)
    ensures g != ""
  {
    "dir-" + random
  }

  class DirectoryIndex {
    const localPeer: string
    var pathToDirGuid: map<Path, string>
    var dirGuidToPath: map<string, Path>
    var dirGuidOrigin: map<string, string>

    function Abs(): Index
      reads this
    {
      Index(pathToDirGuid, dirGuidToPath, dirGuidOrigin)
    }

    constructor (localPeer: string, gen: nat -> string)
      requires Inexhaustible(gen)
      ensures Inverse(Abs()) && this.localPeer == localPeer
      ensures pathToDirGuid.Keys == {ROOT}
    {
      this.localPeer := localPeer;
      pathToDirGuid, dirGuidToPath, dirGuidOrigin := map[], map[], map[];
      new;
      var next := RegisterHierarchy(ROOT, gen, 0);
      RegisteredKeepsInverse(Index(map[], map[], map[]), Abs(), ROOT, localPeer);
      assert forall p: Path :: Covers(p, ROOT) <==> p == ROOT;
    }

    /** The retry loop: draw names until one is not in use. */
    method GenerateUnused(gen: nat -> string, first: nat) returns (guid: string, next: nat)
      requires Inexhaustible(gen)
      ensures guid !in dirGuidToPath && guid != "" && first < next && guid == Guid(gen(next - 1))
    {
      assert SomeUnused(gen, dirGuidToPath.Keys, first);
      ghost var enough: nat :| enough >= first && Guid(gen(enough)) !in dirGuidToPath.Keys;
      guid, next := Guid(gen(first)), first + 1;
      while guid in dirGuidToPath
        invariant first < next <= enough + 1 && guid == Guid(gen(next - 1))
        decreases enough + 1 - next
      {
        guid, next := Guid(gen(next)), next + 1;
      }
    }

    method RegisterHierarchy(path: Path, gen: nat -> string, first: nat) returns (next: nat)
      requires Inexhaustible(gen)
      modifies this
      ensures Registered(old(Abs()), Abs(), path, localPeer)
    {
      next := first;
      if IsInternal(path) { return; }
      ghost var s := Abs();
      hide SoFar, Registered;
      NothingYet(s, path, localPeer);
      for i := 0 to |path| + 1
        invariant SoFar(s, Abs(), path, i, localPeer)
      {
        var dir := path[..i];
        if dir !in pathToDirGuid {
          var guid: string;
          guid, next := GenerateUnused(gen, next);
          ghost var before := Abs();
          pathToDirGuid := pathToDirGuid[dir := guid];
          dirGuidToPath := dirGuidToPath[guid := dir];
          dirGuidOrigin := dirGuidOrigin[guid := localPeer];
          OneMore(s, before, Abs(), path, i, guid, localPeer);
        } else {
          NoneNeeded(s, Abs(), path, i, localPeer);
        }
      }
      AllDone(s, Abs(), path, localPeer);
    }

    method BindDirectoryGuid(path: Path, guid: string)
      requires guid != "" && !IsInternal(path)
      modifies this
      ensures Abs() == Bound(old(Abs()), path, guid)
    {
      if guid in dirGuidToPath && dirGuidToPath[guid] != path {
        pathToDirGuid := pathToDirGuid - {dirGuidToPath[guid]};
      }
      if path in pathToDirGuid {
        if pathToDirGuid[path] == guid { return; }
        dirGuidToPath := dirGuidToPath - {pathToDirGuid[path]};
      }
      pathToDirGuid := pathToDirGuid[path := guid];
      dirGuidToPath := dirGuidToPath[guid := path];
    }

    method ReadOrInsertGuid(path: Path) returns (guid: string)
      modifies this
      ensures Abs() == ReadOrInsert(old(Abs()), path) && guid == pathToDirGuid[path]
    {
      if path !in pathToDirGuid { pathToDirGuid := pathToDirGuid[path := ""]; }
      guid := pathToDirGuid[path];
    }

    /** Registering a path under a given GUID: the parents first, then, after whatever other
        threads do in between, the binding. */
    method RegisterDirectoryWithGuid(path: Path, guid: string, between: seq<Op>, gen: nat -> string, first: nat)
      returns (next: nat, ghost states: seq<Index>)
      requires Inexhaustible(gen)
      modifies this
      ensures states != [] && states[0] == old(Abs()) && states[|states| - 1] == Abs()
      ensures Chain(states, BindingOps(path, guid, between), localPeer)
    {
      next, states := first, [Abs()];
      if guid == "" || IsInternal(path) { return; }
      assert Chain(states, [], localPeer);
      hide Registered, Bound, Inexhaustible, Chain;
      if |path| > 1 {
        next := RegisterHierarchy(path[..|path| - 1], gen, next);
        ChainGrows(states, [], localPeer, Abs(), Register(path[..|path| - 1]));
        states := states + [Abs()];
      }
      next, states := Meanwhile(between, gen, next, states, ParentOps(path));
      BindDirectoryGuid(path, guid);
      ChainGrows(states, ParentOps(path) + between, localPeer, Abs(), Bind(path, guid));
      states := states + [Abs()];
    }

    /** Other threads at work: the regions `ops`, one after the other. */
    method Meanwhile(ops: seq<Op>, gen: nat -> string, first: nat, ghost before: seq<Index>, ghost done: seq<Op>)
      returns (next: nat, ghost states: seq<Index>)
      requires Inexhaustible(gen) && Chain(before, done, localPeer) && before[|before| - 1] == Abs()
      modifies this
      ensures Chain(states, done + ops, localPeer) && states[0] == before[0] && states[|states| - 1] == Abs()
    {
      next, states := first, before;
      hide Steps;
      assert done + ops[..0] == done;
      for k := 0 to |ops|
        invariant Chain(states, done + ops[..k], localPeer) && states[0] == before[0] && states[|states| - 1] == Abs()
      {
        assert done + ops[..k + 1] == done + ops[..k] + [ops[k]];
        next := ByAnother(ops[k], gen, next);
        ChainGrows(states, done + ops[..k], localPeer, Abs(), ops[k]);
        states := states + [Abs()];
      }
      assert ops[..|ops|] == ops;
    }

    method ByAnother(op: Op, gen: nat -> string, first: nat) returns (next: nat)
      requires Inexhaustible(gen)
      modifies this
      ensures Steps(old(Abs()), Abs(), op, localPeer)
    {
      hide Registered;
      next := first;
      match op {
        case Register(path) => next := RegisterHierarchy(path, gen, first);
        case Bind(path, guid) => if guid != "" && !IsInternal(path) { BindDirectoryGuid(path, guid); }
        case Unregister(guid) => UnregisterDirectoryGuid(guid);
        case Read(path) => if !IsInternal(path) { var _ := ReadOrInsertGuid(path); }
      }
    }

    method UnregisterDirectoryGuid(guid: string)
      modifies this
      ensures Abs() == Unregistered(old(Abs()), guid)
    {
      if guid == "" || guid !in dirGuidToPath { return; }
      var path := dirGuidToPath[guid];
      dirGuidToPath := dirGuidToPath - {guid};
      dirGuidOrigin := dirGuidOrigin - {guid};
      if path != ROOT {
        if path in pathToDirGuid && pathToDirGuid[path] == guid {
          pathToDirGuid := pathToDirGuid - {path};
        }
      }
    }

    /** The GUID of a path, registering the path if need be; none for reserved paths.  The
        three regions are separate: `before` and `between` is what other threads do after the
        first and after the second. */
    method EnsureDirectoryGuid(path: Path, before: seq<Op>, between: seq<Op>, gen: nat -> string, first: nat)
      returns (guid: string, next: nat, ghost states: seq<Index>)
      requires Inexhaustible(gen)
      modifies this
      ensures IsInternal(path) ==> guid == "" && Abs() == old(Abs())
      ensures !IsInternal(path) && path in old(pathToDirGuid) ==>
        guid == old(pathToDirGuid)[path] && Abs() == old(Abs())
      ensures !IsInternal(path) && path !in old(pathToDirGuid) ==>
                && states != [] && states[0] == old(Abs()) && states[|states| - 1] == Abs()
                && Chain(states, before + [Register(path)] + between + [Read(path)], localPeer)
                && path in pathToDirGuid && guid == pathToDirGuid[path]
    {
      guid, next, states := "", first, [Abs()];
      if IsInternal(path) { return; }
      if path in pathToDirGuid { guid := pathToDirGuid[path]; return; }
      next, states := Meanwhile(before, gen, next, states, []);
      assert [] + before == before;
      next := RegisterHierarchy(path, gen, next);
      hide Registered, Inexhaustible, Chain;
      ChainGrows(states, before, localPeer, Abs(), Register(path));
      states := states + [Abs()];
      next, states := Meanwhile(between, gen, next, states, before + [Register(path)]);
      guid := ReadOrInsertGuid(path);
      ChainGrows(states, before + [Register(path)] + between, localPeer, Abs(), Read(path));
      states := states + [Abs()];
    }
  }

  /** The regions of a registration under a given GUID. */
  function BindingOps(path: Path, guid: string, between: seq<Op>): seq<Op> {
    if guid == "" || IsInternal(path) then [] else ParentOps(path) + between + [Bind(path, guid)]
  }

  function ParentOps(path: Path): seq<Op> {
    if |path| > 1 then [Register(path[..|path| - 1])] else []
  }

  /** The loop of the registration after its first `n` directories. */
  ghost predicate SoFar(s: Index, t: Index, path: Path, n: nat, localPeer: string)
    requires n <= |path| + 1
  {
    && (forall p :: p in t.pathToGuid <==> p in s.pathToGuid || (Covers(p, path) && |p| < n))
    && (forall p :: p in s.pathToGuid ==> t.pathToGuid[p] == s.pathToGuid[p])
    && OnlyNewGuids(s, t, localPeer)
  }

  /** GUIDs in use stay as they are, and the new ones are bound to new paths, both ways. */
  ghost predicate OnlyNewGuids(s: Index, t: Index, localPeer: string) {
    NewPaths(s, t, localPeer) && OldGuids(s, t)
  }

  ghost predicate NewPaths(s: Index, t: Index, localPeer: string) {
    forall p :: p in t.pathToGuid && p !in s.pathToGuid ==>
      t.pathToGuid[p] !in s.guidToPath && t.pathToGuid[p] != "" &&
      t.pathToGuid[p] in t.guidToPath && t.guidToPath[t.pathToGuid[p]] == p &&
      t.pathToGuid[p] in t.origin && t.origin[t.pathToGuid[p]] == localPeer
  }

  ghost predicate OldGuids(s: Index, t: Index) {
    && (forall g :: g in s.guidToPath ==> g in t.guidToPath && t.guidToPath[g] == s.guidToPath[g])
    && (forall g :: g in t.guidToPath && g !in s.guidToPath ==>
          t.guidToPath[g] !in s.pathToGuid && t.guidToPath[g] in t.pathToGuid && t.pathToGuid[t.guidToPath[g]] == g)
    && (forall g :: g in s.origin && (g !in t.guidToPath || g in s.guidToPath) ==>
          g in t.origin && t.origin[g] == s.origin[g])
  }

  lemma OneMore(s: Index, t: Index, u: Index, path: Path, i: nat, guid: string, localPeer: string)
    requires i <= |path| && SoFar(s, t, path, i, localPeer) && path[..i] !in t.pathToGuid
    requires guid !in t.guidToPath && guid != ""
    requires u == Index(t.pathToGuid[path[..i] := guid], t.guidToPath[guid := path[..i]], t.origin[guid := localPeer])
    ensures SoFar(s, u, path, i + 1, localPeer)
  {
    NewGuidAdded(s, t, u, path[..i], guid, localPeer);
    hide OnlyNewGuids, NewPaths, OldGuids;
    assert forall p :: Covers(p, path) && |p| == i ==> p == path[..i];
  }

  lemma NewGuidAdded(s: Index, t: Index, u: Index, p: Path, guid: string, localPeer: string)
    requires OnlyNewGuids(s, t, localPeer) && p !in t.pathToGuid && p !in s.pathToGuid
    requires guid !in t.guidToPath && guid != ""
    requires u == Index(t.pathToGuid[p := guid], t.guidToPath[guid := p], t.origin[guid := localPeer])
    ensures OnlyNewGuids(s, u, localPeer)
  {
    OldGuidsStay(s, t, u, p, guid);
    assert guid !in s.guidToPath;
    hide OldGuids;
    NewPathsGrow(s, t, u, p, guid, localPeer);
  }

  lemma NewPathsGrow(s: Index, t: Index, u: Index, p: Path, guid: string, localPeer: string)
    requires NewPaths(s, t, localPeer) && guid !in t.guidToPath && guid !in s.guidToPath && guid != ""
    requires u == Index(t.pathToGuid[p := guid], t.guidToPath[guid := p], t.origin[guid := localPeer])
    ensures NewPaths(s, u, localPeer)
  {
    forall q | q in u.pathToGuid && q !in s.pathToGuid && q != p
      ensures u.pathToGuid[q] == t.pathToGuid[q] && t.pathToGuid[q] != guid
    {
      assert t.pathToGuid[q] in t.guidToPath;
    }
  }

  lemma OldGuidsStay(s: Index, t: Index, u: Index, p: Path, guid: string)
    requires OldGuids(s, t) && p !in t.pathToGuid && p !in s.pathToGuid && guid !in t.guidToPath
    requires u.pathToGuid == t.pathToGuid[p := guid] && u.guidToPath == t.guidToPath[guid := p]
    requires forall g :: g in t.origin && g != guid ==> g in u.origin && u.origin[g] == t.origin[g]
    ensures OldGuids(s, u)
  {
  }

  lemma NothingYet(s: Index, path: Path, localPeer: string)
    ensures SoFar(s, s, path, 0, localPeer)
  {
  }

  lemma NoneNeeded(s: Index, t: Index, path: Path, i: nat, localPeer: string)
    requires i <= |path| && SoFar(s, t, path, i, localPeer) && path[..i] in t.pathToGuid
    ensures SoFar(s, t, path, i + 1, localPeer)
  {
    hide OnlyNewGuids;
    assert forall p :: Covers(p, path) && |p| == i ==> p == path[..i];
  }

  lemma AllDone(s: Index, t: Index, path: Path, localPeer: string)
    requires SoFar(s, t, path, |path| + 1, localPeer) && !IsInternal(path)
    ensures Registered(s, t, path, localPeer)
  {
    assert forall p :: Covers(p, path) ==> |p| < |path| + 1;
  }

  // ---------------------------------------------------------------- what each operation keeps

  lemma RegisteredKeepsInverse(s: Index, t: Index, path: Path, localPeer: string)
    requires Inverse(s) && Registered(s, t, path, localPeer)
    ensures Inverse(t)
  {
    if !IsInternal(path) {
      forall p | p in t.pathToGuid ensures !IsInternal(p) {
        if p !in s.pathToGuid && p != [] { assert p[0] == path[0]; }
      }
    }
  }

  /** New GUIDs are new to both maps. */
  lemma GeneratedGuidsAreFresh(s: Index, t: Index, path: Path, localPeer: string, p: Path)
    requires Inverse(s) && Registered(s, t, path, localPeer) && p in t.pathToGuid && p !in s.pathToGuid
    ensures t.pathToGuid[p] !in s.guidToPath && t.pathToGuid[p] !in s.pathToGuid.Values
  {
    assert forall q :: q in s.pathToGuid ==> s.pathToGuid[q] in s.guidToPath;
  }

  /** Binding makes exactly this pair hold: the GUID's old path and the path's old GUID are
      gone, every other pair stays, and so do the origins. */
  lemma BindMeaning(s: Index, path: Path, guid: string, p: Path, g: string)
    requires Inverse(s) && guid != "" && !IsInternal(path)
    ensures var t := Bound(s, path, guid);
            (p in t.pathToGuid && t.pathToGuid[p] == g) <==>
              (p == path && g == guid) || (p != path && g != guid && p in s.pathToGuid && s.pathToGuid[p] == g)
    ensures Inverse(Bound(s, path, guid)) && Bound(s, path, guid).origin == s.origin
  {
    BoundPaths(s, path, guid, p);
    BoundKeepsInverse(s, path, guid);
    hide Bound;
    if p in s.pathToGuid && s.pathToGuid[p] == guid { assert s.guidToPath[guid] == p; }
  }

  /** Path by path, and GUID by GUID. */
  lemma BoundPaths(s: Index, path: Path, guid: string, p: Path)
    requires Inverse(s)
    ensures var t := Bound(s, path, guid);
            if p == path then p in t.pathToGuid && t.pathToGuid[p] == guid
            else (p in t.pathToGuid <==> p in s.pathToGuid && s.pathToGuid[p] != guid)
                 && (p in t.pathToGuid ==> t.pathToGuid[p] == s.pathToGuid[p])
  {
  }

  lemma BoundGuids(s: Index, path: Path, guid: string, g: string)
    requires Inverse(s)
    ensures var t := Bound(s, path, guid);
            if g == guid then g in t.guidToPath && t.guidToPath[g] == path
            else (g in t.guidToPath <==> g in s.guidToPath && s.guidToPath[g] != path)
                 && (g in t.guidToPath ==> t.guidToPath[g] == s.guidToPath[g])
  {
  }

  lemma BoundKeepsInverse(s: Index, path: Path, guid: string)
    requires Inverse(s) && guid != "" && !IsInternal(path)
    ensures Inverse(Bound(s, path, guid))
  {
    var t := Bound(s, path, guid);
    forall p
      ensures p in t.pathToGuid ==>
        t.pathToGuid[p] in t.guidToPath && t.guidToPath[t.pathToGuid[p]] == p && !IsInternal(p)
    {
      BoundPaths(s, path, guid, p);
      if p in t.pathToGuid { BoundGuids(s, path, guid, t.pathToGuid[p]); }
    }
    forall g
      ensures g in t.guidToPath ==> g != "" && t.guidToPath[g] in t.pathToGuid && t.pathToGuid[t.guidToPath[g]] == g
    {
      BoundGuids(s, path, guid, g);
      if g in t.guidToPath { BoundPaths(s, path, guid, t.guidToPath[g]); }
    }
    hide Bound;
  }

  /** Unregistering takes out exactly the pairs of this GUID, and its origin: all others stay,
      and so does the root's entry in the map of paths, even if it is the GUID's. */
  lemma UnregisterMeaning(s: Index, guid: string, p: Path, g: string)
    requires Inverse(s)
    ensures var t := Unregistered(s, guid);
            && ((p in t.pathToGuid && t.pathToGuid[p] == g) <==>
                  p in s.pathToGuid && s.pathToGuid[p] == g && (g != guid || p == ROOT))
            && ((g in t.guidToPath && t.guidToPath[g] == p) <==>
                  g in s.guidToPath && s.guidToPath[g] == p && g != guid)
            && (guid !in s.guidToPath ==> t == s)
            && (guid in s.guidToPath ==> t.origin.Keys == s.origin.Keys - {guid})
            && (g in t.origin ==> t.origin[g] == s.origin[g])
  {
    assert p in s.pathToGuid ==> s.pathToGuid[p] in s.guidToPath;
  }

  /** The inserting lookup leaves everything as it is, but for the entry it may insert. */
  lemma ReadMeaning(s: Index, path: Path, p: Path, g: string)
    ensures var t := ReadOrInsert(s, path);
            && ((p in t.pathToGuid && t.pathToGuid[p] == g) <==>
                  if p in s.pathToGuid then s.pathToGuid[p] == g else p == path && g == "")
            && t.guidToPath == s.guidToPath && t.origin == s.origin
  {
  }

  /** What registering a directory under a given GUID comes to when nobody interferes: the path
      and the GUID are bound to each other, everything above it is registered (and loses
      that only if it had this very GUID), and nobody else's GUID has changed. */
  lemma BindingMeaning(states: seq<Index>, path: Path, guid: string, localPeer: string, p: Path)
    requires Chain(states, BindingOps(path, guid, []), localPeer) && Inverse(states[0])
    requires guid != "" && !IsInternal(path)
    ensures var s, t := states[0], states[|states| - 1];
            && Inverse(t) && path in t.pathToGuid && t.pathToGuid[path] == guid
            && (p < path && |path| > 1 ==>
                p in states[1].pathToGuid && (p in t.pathToGuid <==> states[1].pathToGuid[p] != guid))
            && (p in s.pathToGuid && p != path && s.pathToGuid[p] != guid ==>
                  p in t.pathToGuid && t.pathToGuid[p] == s.pathToGuid[p])
            && (p in t.pathToGuid && p !in s.pathToGuid ==> p == path || (p < path && |path| > 1))
  {
    var s := states[0];
    var ops := BindingOps(path, guid, []);
    assert Steps(states[0], states[1], ops[0], localPeer);
    var parent := if |path| > 1 then path[..|path| - 1] else ROOT;
    if |path| > 1 {
      assert ops == [Register(parent), Bind(path, guid)] && parent[0] == path[0];
      assert Steps(states[1], states[2], ops[1], localPeer);
      assert p < path <==> Covers(p, parent);
      RegisteredKeepsInverse(s, states[1], parent, localPeer);
    }
    var u := states[|ops| - 1];
    if p in u.pathToGuid { BindMeaning(u, path, guid, p, u.pathToGuid[p]); }
    BindMeaning(u, path, guid, path, guid);
    BoundPaths(u, path, guid, p);
  }

  /** Unregistering keeps the maps inverse to each other exactly when the GUID is not the
      root's: the root's entry in the other map is left behind. */
  lemma UnregisterKeepsInverseExactly(s: Index, guid: string)
    requires Inverse(s)
    ensures Inverse(Unregistered(s, guid)) <==> !(guid in s.guidToPath && s.guidToPath[guid] == ROOT)
  {
    var t := Unregistered(s, guid);
    if guid in s.guidToPath {
      var path := s.guidToPath[guid];
      if path == ROOT {
        assert t.pathToGuid[ROOT] == guid && guid !in t.guidToPath;
      } else {
        assert forall p :: p in t.pathToGuid <==> p in s.pathToGuid && p != path;
      }
    }
  }

  /** The inserting lookup keeps the maps inverse exactly when the path is there. */
  lemma ReadKeepsInverseExactly(s: Index, path: Path)
    requires Inverse(s)
    ensures Inverse(ReadOrInsert(s, path)) <==> path in s.pathToGuid
  {
    if path !in s.pathToGuid {
      assert ReadOrInsert(s, path).pathToGuid[path] == "";
    }
  }

  // ---------------------------------------------------------------- whole histories

  /** The two failing steps: the root's GUID is unregistered, or the last region of
      `ensure_directory_guid` does not find its path. */
  predicate Breaks(s: Index, op: Op) {
    || (op.Unregister? && op.guid in s.guidToPath && s.guidToPath[op.guid] == ROOT)
    || (op.Read? && !IsInternal(op.path) && op.path !in s.pathToGuid)
  }

  lemma StepKeepsInverseExactly(s: Index, t: Index, op: Op, localPeer: string)
    requires Inverse(s) && Steps(s, t, op, localPeer)
    ensures Inverse(t) <==> !Breaks(s, op)
  {
    match op
    case Register(path) => RegisteredKeepsInverse(s, t, path, localPeer);
    case Bind(path, guid) => if guid != "" && !IsInternal(path) { BindMeaning(s, path, guid, path, guid); }
    case Unregister(guid) => UnregisterKeepsInverseExactly(s, guid);
    case Read(path) => ReadKeepsInverseExactly(s, path);
  }

  /** ALWAYS INVERSE, exactly.  Along every interleaving of registrations, re-bindings,
      displacements, unregistrations and lookups from an empty index, the two maps are
      inverses of each other throughout if and only if neither failing step occurs. */
  lemma {:induction false} AlwaysInverse(states: seq<Index>, ops: seq<Op>, localPeer: string, n: nat)
    requires Chain(states, ops, localPeer) && states[0] == Index(map[], map[], map[]) && n <= |ops|
    ensures (forall i :: 0 <= i <= n ==> Inverse(states[i])) <==>
      (forall i :: 0 <= i < n ==> !Breaks(states[i], ops[i]))
  {
    if n > 0 {
      AlwaysInverse(states, ops, localPeer, n - 1);
      assert Steps(states[n - 1], states[n], ops[n - 1], localPeer);
      hide Inverse, Breaks, Steps;
      if forall i :: 0 <= i <= n - 1 ==> Inverse(states[i]) {
        StepKeepsInverseExactly(states[n - 1], states[n], ops[n - 1], localPeer);
      }
    }
  }

  /** The second failing step can be met from every good state: any path that
      `ensure_directory_guid` has to register, whose new GUID another thread unregisters
      before it is read, is left mapped to the empty text. */
  lemma EnsureCanBreak(s: Index, t: Index, path: Path, localPeer: string)
    requires Inverse(s) && Registered(s, t, path, localPeer)
    requires path != ROOT && path !in s.pathToGuid && !IsInternal(path)
    ensures path in t.pathToGuid
    ensures var u := Unregistered(t, t.pathToGuid[path]);
            Inverse(u) && Breaks(u, Read(path)) && ReadOrInsert(u, path).pathToGuid[path] == ""
  {
    assert Covers(path, path);
    RegisteredKeepsInverse(s, t, path, localPeer);
    UnregisterKeepsInverseExactly(t, t.pathToGuid[path]);
  }
}
