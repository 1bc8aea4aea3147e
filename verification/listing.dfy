/** Listings of the local share (src/peer_manager.cpp): what one listing contains, and what a
    reader who follows the listed directories finds. */
module Listing {
  import opened DirIndex
  import opened FiniteSets
  import opened Wrappers

  datatype Dir = Dir(path: Path, guid: string, origin: string)

  datatype ListedFile = ListedFile(path: Path, hash: string, size: nat)

  function Parent(path: Path): Path { if path == [] then [] else path[..|path| - 1] }

  /** `r` is registered, not reserved, and is `q` or lies below it. */
  predicate Supports(index: map<Path, string>, q: Path, r: Path) {
    r in index && !IsInternal(r) && q <= r
  }

  /** `q` is a directory directly below `p` that leads to something registered. */
  ghost predicate ListedDir(index: map<Path, string>, p: Path, q: Path) {
    |q| == |p| + 1 && p <= q && exists r :: Supports(index, q, r)
  }

  /** The registered path met first, in the order of the walk, at or below `q`. */
  function FirstAt(order: seq<Path>, q: Path): Option<Path> {
    if order == [] then None
    else if !IsInternal(order[0]) && q <= order[0] then Some(order[0])
    else FirstAt(order[1..], q)
  }

  function Origin(origins: map<string, string>, guid: string, localPeer: string): string {
    if guid in origins then origins[guid] else localPeer
  }

  /** `d` carries the GUID of the path met first, and the origin recorded for that GUID, or
      ourselves exactly if none is. */
  ghost predicate FromFirst(index: map<Path, string>, origins: map<string, string>, localPeer: string, order: seq<Path>,
                            d: Dir)
  {
    && FirstAt(order, d.path).Some? && FirstAt(order, d.path).value in index
    && d.guid == index[FirstAt(order, d.path).value] && (d.guid in origins ==> d.origin == origins[d.guid])
    && (d.guid !in origins ==> d.origin == localPeer)
  }

  lemma {:induction false} FirstAtAppend(order: seq<Path>, r: Path, q: Path)
    ensures FirstAt(order + [r], q) ==
              if FirstAt(order, q).Some? then FirstAt(order, q) else if !IsInternal(r) && q <= r then Some(r) else None
  {
    if order == [] {
      assert order + [r] == [r];
    } else {
      assert (order + [r])[1..] == order[1..] + [r];
      FirstAtAppend(order[1..], r, q);
    }
  }

  predicate NoneBefore(order: seq<Path>, k: nat, q: Path)
    requires k <= |order|
  {
    forall j :: 0 <= j < k ==> IsInternal(order[j]) || !(q <= order[j])
  }

  /** There is one exactly if something at or below `q` is in the walk, and none comes before. */
  lemma {:induction false} FirstAtSupports(order: seq<Path>, q: Path)
    ensures FirstAt(order, q).Some? <==> exists r :: r in order && !IsInternal(r) && q <= r
    ensures FirstAt(order, q).Some? ==>
      FirstAt(order, q).value in order && !IsInternal(FirstAt(order, q).value) && q <= FirstAt(order, q).value
    ensures FirstAt(order, q).Some? ==>
      exists k :: 0 <= k < |order| && order[k] == FirstAt(order, q).value && NoneBefore(order, k, q)
  {
    if order != [] {
      FirstAtSupports(order[1..], q);
      assert forall r :: r in order <==> r == order[0] || r in order[1..];
      if !IsInternal(order[0]) && q <= order[0] {
        assert NoneBefore(order, 0, q);
      } else if FirstAt(order, q).Some? {
        var k: nat :| k < |order[1..]| && order[1..][k] == FirstAt(order, q).value && NoneBefore(order[1..], k, q);
        assert order[k + 1] == order[1..][k] && NoneBefore(order, k + 1, q) by {
          assert forall j :: 0 < j < k + 1 ==> order[j] == order[1..][j - 1];
        }
      }
    }
  }

  function Paths(dirs: seq<Dir>): (r: seq<Path>)
    ensures |r| == |dirs| && forall i :: 0 <= i < |r| ==> r[i] == dirs[i].path
  {
    seq(|dirs|, i requires 0 <= i < |dirs| => dirs[i].path)
  }

  /** The directories of a listing.  `order` is the order in which the index is walked. */
  method ListDirectories(index: map<Path, string>, origins: map<string, string>, localPeer: string, p: Path,
                         order: seq<Path>)
    returns (dirs: seq<Dir>)
    requires Enumerates(order, index.Keys)
    ensures IsInternal(p) ==> dirs == []
    ensures !IsInternal(p) ==> forall q :: q in Paths(dirs) <==> ListedDir(index, p, q)
    ensures Distinct(Paths(dirs))
    ensures forall d :: d in dirs ==> FromFirst(index, origins, localPeer, order, d)
  {
    hide ListedSoFar;
    dirs := [];
    if IsInternal(p) { return; }
    var seen: set<Path> := {};
    NothingListed(index, origins, localPeer, p);
    for i := 0 to |order|
      invariant ListedSoFar(index, origins, localPeer, p, order[..i], dirs, seen)
    {
      var path := order[i];
      assert order[..i + 1] == order[..i] + [path];
      assert path in index;
      if IsInternal(path) || path == p || !(p <= path) {
        NotAChild(index, origins, localPeer, p, order[..i], dirs, seen, path);
        continue;
      }
      var child := path[..|p| + 1];
      ChildOf(index, origins, localPeer, p, order[..i], dirs, seen, path);
      if child in seen { continue; }
      seen := seen + {child};
      dirs := dirs + [Dir(child, index[path], Origin(origins, index[path], localPeer))];
    }
    assert order[..|order|] == order;
    AllListed(index, origins, localPeer, p, order, dirs, seen);
  }

  /** The walk after the paths `done`. */
  ghost predicate ListedSoFar(index: map<Path, string>, origins: map<string, string>, localPeer: string, p: Path,
                              done: seq<Path>, dirs: seq<Dir>, seen: set<Path>) {
    && ListedOnce(dirs, seen) && SeenSoFar(p, done, seen)
    && (forall d :: d in dirs ==> FromFirst(index, origins, localPeer, done, d))
  }

  ghost predicate ListedOnce(dirs: seq<Dir>, seen: set<Path>) {
    Distinct(Paths(dirs)) && forall q :: q in Paths(dirs) <==> q in seen
  }

  ghost predicate SeenSoFar(p: Path, done: seq<Path>, seen: set<Path>) {
    forall q :: q in seen <==> |q| == |p| + 1 && p <= q && FirstAt(done, q).Some?
  }

  lemma NothingListed(index: map<Path, string>, origins: map<string, string>, localPeer: string, p: Path)
    ensures ListedSoFar(index, origins, localPeer, p, [], [], {})
  {
  }

  lemma StillFromFirst(index: map<Path, string>, origins: map<string, string>, localPeer: string, done: seq<Path>,
                       dirs: seq<Dir>, path: Path)
    requires forall d :: d in dirs ==> FromFirst(index, origins, localPeer, done, d)
    ensures forall d :: d in dirs ==> FromFirst(index, origins, localPeer, done + [path], d)
  {
    forall d | d in dirs ensures FromFirst(index, origins, localPeer, done + [path], d) {
      FirstAtAppend(done, path, d.path);
    }
  }

  lemma NotAChild(index: map<Path, string>, origins: map<string, string>, localPeer: string, p: Path,
                  done: seq<Path>, dirs: seq<Dir>, seen: set<Path>, path: Path)
    requires ListedSoFar(index, origins, localPeer, p, done, dirs, seen)
    requires IsInternal(path) || path == p || !(p <= path)
    ensures ListedSoFar(index, origins, localPeer, p, done + [path], dirs, seen)
  {
    StillFromFirst(index, origins, localPeer, done, dirs, path);
    forall q | |q| == |p| + 1 && p <= q
      ensures FirstAt(done + [path], q) == FirstAt(done, q)
    {
      FirstAtAppend(done, path, q);
      assert q <= path ==> p <= path && path != p;
    }
  }

  lemma ChildOf(index: map<Path, string>, origins: map<string, string>, localPeer: string, p: Path,
                done: seq<Path>, dirs: seq<Dir>, seen: set<Path>, path: Path)
    requires ListedSoFar(index, origins, localPeer, p, done, dirs, seen)
    requires !IsInternal(path) && path != p && p <= path && path in index
    ensures var child := path[..|p| + 1];
            if child in seen then ListedSoFar(index, origins, localPeer, p, done + [path], dirs, seen)
            else ListedSoFar(index, origins, localPeer, p, done + [path],
                             dirs + [Dir(child, index[path], Origin(origins, index[path], localPeer))], seen + {child})
  {
    var child := path[..|p| + 1];
    var d := Dir(child, index[path], Origin(origins, index[path], localPeer));
    StillFromFirst(index, origins, localPeer, done, dirs, path);
    ChildSeen(p, done, path, seen);
    FirstAtAppend(done, path, child);
    if child !in seen {
      assert FromFirst(index, origins, localPeer, done + [path], d);
      hide FirstAt, FromFirst, SeenSoFar;
      OneMoreDir(dirs, d, seen);
    } else {
      assert seen + {child} == seen;
    }
  }

  lemma OneMoreDir(dirs: seq<Dir>, d: Dir, seen: set<Path>)
    requires ListedOnce(dirs, seen) && d.path !in seen
    ensures ListedOnce(dirs + [d], seen + {d.path})
  {
    assert Paths(dirs + [d]) == Paths(dirs) + [d.path];
  }

  lemma ChildSeen(p: Path, done: seq<Path>, path: Path, seen: set<Path>)
    requires !IsInternal(path) && path != p && p <= path && SeenSoFar(p, done, seen)
    ensures SeenSoFar(p, done + [path], seen + {path[..|p| + 1]})
  {
    forall q | |q| == |p| + 1 && p <= q
      ensures FirstAt(done + [path], q).Some? <==> FirstAt(done, q).Some? || q == path[..|p| + 1]
    {
      FirstAtAppend(done, path, q);
      assert q <= path <==> q == path[..|p| + 1];
    }
    hide FirstAt;
  }

  lemma AllListed(index: map<Path, string>, origins: map<string, string>, localPeer: string, p: Path, order: seq<Path>,
                  dirs: seq<Dir>, seen: set<Path>)
    requires Enumerates(order, index.Keys) && ListedSoFar(index, origins, localPeer, p, order, dirs, seen)
    ensures Distinct(Paths(dirs)) && forall d :: d in dirs ==> FromFirst(index, origins, localPeer, order, d)
    ensures forall q :: q in Paths(dirs) <==> ListedDir(index, p, q)
  {
    forall q ensures FirstAt(order, q).Some? <==> exists r :: Supports(index, q, r) {
      FirstAtSupports(order, q);
      assert forall r :: r in order && !IsInternal(r) && q <= r ==> Supports(index, q, r);
    }
  }

  /** The files of a listing. */
  method ListFiles(shared: map<string, ListedFile>, p: Path, order: seq<string>) returns (files: seq<ListedFile>)
    requires Enumerates(order, shared.Keys)
    ensures forall f :: f in files <==>
              !IsInternal(p) && f in shared.Values && !IsInternal(f.path) && Parent(f.path) == p
    ensures (forall h :: h in shared ==> shared[h].hash == h) ==> Distinct(files)
  {
    hide IsInternal, Parent;
    files := [];
    if IsInternal(p) { return; }
    for i := 0 to |order|
      invariant forall f :: f in files <==>
        exists k :: 0 <= k < i && f == shared[order[k]] && !IsInternal(f.path) && Parent(f.path) == p
      invariant (forall h :: h in shared ==> shared[h].hash == h) ==> Distinct(files)
    {
      assert order[i] in order;
      var f := shared[order[i]];
      if IsInternal(f.path) || Parent(f.path) != p { continue; }
      files := files + [f];
    }
  }

  // ---------------------------------------------------------------- following listings

  /** `q` is reached from the root by entering listed directories. */
  ghost predicate Walked(index: map<Path, string>, q: Path) {
    q == [] || (Walked(index, q[..|q| - 1]) && ListedDir(index, q[..|q| - 1], q))
  }

  /** Exactly the directories at or above something registered are reached. */
  lemma {:induction false} WalkedExactly(index: map<Path, string>, q: Path)
    ensures Walked(index, q) <==> q == [] || exists r :: Supports(index, q, r)
  {
    if q != [] {
      var up := q[..|q| - 1];
      WalkedExactly(index, up);
      if r :| Supports(index, q, r) {
        assert up <= q <= r;
        assert Supports(index, up, r);
      }
    }
  }

  /** A file is found by following listings exactly when its directory is at or above
      something registered; registering that directory, as sharing a file does, is enough. */
  lemma SharedFilesAreFound(s: Index, t: Index, f: ListedFile, localPeer: string)
    requires Registered(s, t, Parent(f.path), localPeer) && !IsInternal(Parent(f.path))
    ensures Walked(t.pathToGuid, Parent(f.path))
  {
    var p := Parent(f.path);
    WalkedExactly(t.pathToGuid, p);
    assert Covers(p, p);
    assert Supports(t.pathToGuid, p, p);
  }

  // ---------------------------------------------------------------- whose GUID is listed

  /** Whatever the order of the index, `q` is listed with its own GUID. */
  ghost predicate AlwaysOwnGuid(s: Index, localPeer: string, q: Path)
    requires q in s.pathToGuid
  {
    forall order, d | Enumerates(order, s.pathToGuid.Keys) && FromFirst(s.pathToGuid, s.origin, localPeer, order, d) ::
      d.path == q ==> d.guid == s.pathToGuid[q]
  }

  /** A listed directory may carry the GUID of a directory below it.  It always carries its
      own exactly when nothing is registered below it. */
  lemma OwnGuidExactly(s: Index, localPeer: string, q: Path)
    requires Inverse(s) && q in s.pathToGuid
    ensures AlwaysOwnGuid(s, localPeer, q) <==> forall r :: Supports(s.pathToGuid, q, r) ==> r == q
  {
    var index := s.pathToGuid;
    if r :| Supports(index, q, r) && r != q {
      var order := [r] + AnyOrder(index.Keys - {r});
      assert Enumerates(order, index.Keys) && FirstAt(order, q) == Some(r);
      var d := Dir(q, index[r], Origin(s.origin, index[r], localPeer));
      assert FromFirst(index, s.origin, localPeer, order, d);
      assert s.guidToPath[index[r]] == r && s.guidToPath[index[q]] == q;
    } else {
      forall order | Enumerates(order, index.Keys) ensures FirstAt(order, q).Some? ==> FirstAt(order, q).value == q {
        FirstAtSupports(order, q);
        if FirstAt(order, q).Some? { assert Supports(index, q, FirstAt(order, q).value); }
      }
      hide FirstAt, Inverse, Enumerates;
    }
  }
}
