/** Downloading a file and publishing it (`download_file_from_providers` and
    `make_swarm_refresh_provider` in src/MeshCLI.hpp), over a file system that is a map from
    paths to contents, with the swarm as it is. */
module Download {
  import opened Wrappers
  import opened Filters
  import opened SwarmState
  import opened SwarmRun
  import opened ChunkPath

  /** Paths are sequences of component names. */
  type Path = seq<string>

  const SHARE: Path := ["share"]
  const DOWNLOADS: Path := ["share", ".sync_tmp"]

  datatype Item = Item(peer: string, hash: string, size: nat)

  datatype SyncOutcome = SyncOutcome(success: bool, changed: bool)

  datatype Conflict = Conflict(path: Path, hash: string, dirGuid: string, origin: string)

  datatype IgnoreRules = IgnoreRules(paths: set<Path>, hashes: set<string>, dirGuids: set<string>)

  datatype AttemptResult = Success | HashMismatch | Failed

  /** How moving the staging file into place goes: whether the rename would succeed, and the
      copy that is tried if not, and what a failed copy leaves at the destination, if anything. */
  datatype Publishing = Publishing(renames: bool, copies: bool, left: Option<seq<byte>>) {
    predicate Moves() { renames || copies }
  }

  /** What the outside world does during one attempt.  `appears` is what somebody else puts at
      the destination meanwhile, if anything. */
  datatype AttemptIO = AttemptIO(
    appears: Option<seq<byte>>,
    opens: bool,
    order: seq<nat>,
    fetch: (nat, string, nat, nat) -> Response,
    write: (nat, nat, seq<byte>) -> WriteResult,
    listing: nat -> Option<Item>,
    hashes: bool,
    publishing: Publishing)

  /** One attempt as it went: the providers it had, the calls its swarm made, whether the file
      was verified, so that a move was tried, and the result. */
  datatype AttemptLog = AttemptLog(result: AttemptResult, verified: bool, providers: seq<Item>, calls: seq<Call>)

  /** What is at a path. */
  function At(fs: map<Path, seq<byte>>, p: Path): Option<seq<byte>> { if p in fs then Some(fs[p]) else None }

  function Appeared(fs: map<Path, seq<byte>>, p: Path, content: Option<seq<byte>>): map<Path, seq<byte>> {
    if content.Some? then fs[p := content.value] else fs
  }

  /** What others have put at the destination by attempt `k`. */
  function Standing(io: nat -> AttemptIO, k: nat): Option<seq<byte>> {
    if io(k).appears.Some? || k == 0 then io(k).appears else Standing(io, k - 1)
  }

  /** What a verified file leaves at the destination, where `before` was. */
  function Left(how: Publishing, before: Option<seq<byte>>, staged: seq<byte>): Option<seq<byte>> {
    if how.Moves() then Some(staged) else if how.left.Some? then how.left else before
  }

  const IsProper := (c: string) => c != "." && c != "" && c != ".."

  function Sanitized(path: Path): Path { Filter(path, IsProper) }

  function CleanPath(dest: Path, hash: string): (p: Path)
    ensures p != []
  {
    if Sanitized(dest) == [] then [hash] else Sanitized(dest)
  }

  /** The components of a clean path are those of the destination that are neither empty nor
      dots, in their order, or the hash if there are none. */
  lemma CleanPathExactly(dest: Path, hash: string) returns (places: seq<nat>)
    ensures if exists c :: c in dest && c !in {"", ".", ".."} then
              && |places| == |CleanPath(dest, hash)|
              && (forall k :: 0 <= k < |places| ==>
                    places[k] < |dest| && CleanPath(dest, hash)[k] == dest[places[k]] &&
                    dest[places[k]] !in {"", ".", ".."})
              && (forall j, k :: 0 <= j < k < |places| ==> places[j] < places[k])
              && (forall i: nat :: i < |dest| && dest[i] !in {"", ".", ".."} ==> i in places)
            else CleanPath(dest, hash) == [hash]
  {
    places := FilterKeeps(dest, IsProper);
    if Sanitized(dest) != [] { assert Sanitized(dest)[0] in Sanitized(dest); }
  }

  /** The filter of the refresh provider: another peer with this very file and, if a watch
      names its sources, one of them. */
  function Admitted(item: Option<Item>, hash: string, localPeer: string, allowed: set<string>): Option<string> {
    if item.None? || item.value.peer == "" || item.value.peer == localPeer || item.value.hash != hash then None
    else if allowed != {} && item.value.peer !in allowed then None
    else Some(item.value.peer)
  }

  function PeersOf(items: seq<Item>): (r: seq<string>)
    ensures |r| == |items| && forall i :: 0 <= i < |r| ==> r[i] == items[i].peer
  {
    seq(|items|, i requires 0 <= i < |items| => items[i].peer)
  }

  /** The providers to ask: those that are not ourselves, if there are any. */
  function Remote(items: seq<Item>, localPeer: string): (r: seq<Item>)
    ensures (exists x :: x in items && x.peer != localPeer) ==>
      forall x :: x in r <==> x in items && x.peer != localPeer
    ensures (forall x :: x in items ==> x.peer == localPeer) ==> r == items
  {
    var others := Filter(items, (x: Item) => x.peer != localPeer);
    assert others != [] ==> others[0] in others;
    if others == [] then items else others
  }

  function Trusted(items: seq<Item>, trusted: set<string>): seq<Item> {
    Filter(items, (x: Item) => x.peer in trusted)
  }

  /** The size to expect: the primary's, else that of the first provider that names one. */
  function ExpectedSize(primary: Item, providers: seq<Item>): (n: nat)
    ensures primary.size != 0 ==> n == primary.size
    ensures primary.size == 0 ==>
      if forall x :: x in providers ==> x.size == 0 then n == 0
      else exists i :: 0 <= i < |providers| && n == providers[i].size != 0 && forall k :: 0 <= k < i ==>
          providers[k].size == 0
  {
    if primary.size != 0 then primary.size
    else if providers == [] then 0
    else if providers[0].size > 0 then providers[0].size
    else ExpectedSize(primary, providers[1..])
  }

  lemma SizeKnownExactly(primary: Item, providers: seq<Item>)
    ensures ExpectedSize(primary, providers) != 0 <==> primary.size != 0 || exists x :: x in providers && x.size != 0
  {
  }

  /** The trusted providers are some, and not all, exactly if there are some of either kind. */
  lemma TrustedProper(remote: seq<Item>, trusted: set<string>)
    ensures Trusted(remote, trusted) != [] <==> exists x :: x in remote && x.peer in trusted
    ensures |Trusted(remote, trusted)| < |remote| <==> exists x :: x in remote && x.peer !in trusted
  {
    var some := Trusted(remote, trusted);
    if some != [] { assert some[0] in some; }
    if x :| x in remote && x.peer in trusted { assert x in some; }
  }

  // ---------------------------------------------------------------- whom an attempt asks

  /** A listing offers this very file by another peer, one of the allowed ones if there are any. */
  predicate Offers(item: Option<Item>, peer: string, hash: string, localPeer: string, allowed: set<string>) {
    && item.Some? && item.value.peer == peer != localPeer && item.value.hash == hash
    && (allowed == {} || peer in allowed)
  }

  /** A peer the swarm of an attempt may ask: a provider, or one that a refresh finds. */
  ghost predicate MayAsk(peer: string, providers: seq<Item>, io: AttemptIO, hash: string, localPeer: string,
                         allowed: set<string>)
  {
    peer != "" && ((exists x :: x in providers && x.peer == peer) ||
                   (exists t: nat :: Offers(io.listing(t), peer, hash, localPeer, allowed)))
  }

  /** The world of the swarm: the refresh admits peers once it has providers with names. */
  function WorldOf(io: AttemptIO, providers: seq<Item>, hash: string, localPeer: string, allowed: set<string>): World {
    World(io.fetch, io.write, (t: nat) =>
      if DistinctPeers(PeersOf(providers)) == [] then None else Admitted(io.listing(t), hash, localPeer, allowed))
  }

  /** Every peer that may be asked serves this file whenever it is asked, or fails to answer. */
  ghost predicate AllServe(cfg: Config, io: AttemptIO, providers: seq<Item>, localPeer: string, allowed: set<string>,
                           file: seq<byte>)
  {
    forall t: nat, peer: string, offset: nat, length: nat ::
      MayAsk(peer, providers, io, cfg.hash, localPeer, allowed) ==>
      Served(cfg, Call(peer, offset, length, io.fetch(t, peer, offset, length)), file)
  }

  /** An attempt in which nothing goes wrong: staging, hashing and publishing work, all that
      may be asked serve the file, and one provider is good, which is enough. */
  ghost predicate Smooth(cfg: Config, io: AttemptIO, providers: seq<Item>, localPeer: string, allowed: set<string>,
                         file: seq<byte>)
  {
    && io.opens && io.hashes && io.publishing.Moves()
    && FaithfulSource(cfg, file) && file != [] && cfg.sha(file) == cfg.hash
    && AllServe(cfg, io, providers, localPeer, allowed, file)
    && GoodWorld(WorldOf(io, providers, cfg.hash, localPeer, allowed), cfg, DistinctPeers(PeersOf(providers)))
  }

  lemma SmoothRuns(cfg: Config, io: AttemptIO, providers: seq<Item>, localPeer: string, allowed: set<string>,
                   file: seq<byte>, states: seq<nat>)
    requires Smooth(cfg, io, providers, localPeer, allowed, file)
    ensures providers != [] && (|states| == cfg.totalChunks ==> !Refused(cfg, PeersOf(providers), states))
    ensures GoodWorld(WorldOf(io, providers, cfg.hash, localPeer, allowed), cfg, DistinctPeers(PeersOf(providers)))
  {
    var g :| g in DistinctPeers(PeersOf(providers));
  }

  lemma AskedAreServed(cfg: Config, io: AttemptIO, providers: seq<Item>, localPeer: string, allowed: set<string>,
                       calls: seq<Call>, peers: seq<string>, file: seq<byte>)
    requires AllServe(cfg, io, providers, localPeer, allowed, file)
    requires CallsMade(WorldOf(io, providers, cfg.hash, localPeer, allowed), cfg, calls, peers)
    requires forall p :: p in peers ==> MayAsk(p, providers, io, cfg.hash, localPeer, allowed)
    ensures CallsServed(cfg, calls, file)
  {
    hide MayAsk, Served, AsksFor;
    forall c | c in calls ensures Served(cfg, c, file) {
      var t: nat :| Called(WorldOf(io, providers, cfg.hash, localPeer, allowed), t, c);
      assert c == Call(c.peer, c.offset, c.length, io.fetch(t, c.peer, c.offset, c.length));
    }
  }

  // ---------------------------------------------------------------- publishing

  /** A file that somebody else has put at the destination outlives the publication of
      different content exactly if neither the rename nor the copy succeeds and the failed copy
      has not replaced it. */
  lemma SurvivesExactly(fs: map<Path, seq<byte>>, staging: Path, final: Path, how: Publishing)
    requires staging in fs && staging != final && final in fs && fs[final] != fs[staging]
    ensures (At(Publish(fs, staging, final, how), final) == At(fs, final))
       <==> (!how.Moves() && (how.left.Some? ==> how.left.value == fs[final]))
    ensures At(Publish(fs, staging, final, how), final) == Left(how, At(fs, final), fs[staging])
  {
  }

  /** Moving the verified staging file into place, and what is there afterwards. */
  function Publish(fs: map<Path, seq<byte>>, staging: Path, final: Path, how: Publishing): map<Path, seq<byte>>
    requires staging in fs
  {
    if how.renames then fs[final := fs[staging]] - {staging}
    else if how.copies then fs[final := fs[staging]] - {staging}
    else if how.left.Some? then fs[final := how.left.value] - {staging}
    else fs - {staging}
  }

  /** The destination is absent, or holds exactly what had been staged and verified. */
  ghost predicate OnlyVerified(fs: map<Path, seq<byte>>, staging: Path, final: Path, after: map<Path, seq<byte>>)
    requires staging in fs
  {
    final in after ==> after[final] == fs[staging]
  }

  /** Publishing creates nothing but the verified content, whatever a failed copy leaves
      behind, exactly when the rename or the copy succeeds; the staging file goes either way. */
  lemma PublishSafeExactly(fs: map<Path, seq<byte>>, staging: Path, final: Path, renames: bool, copies: bool)
    requires staging in fs && staging != final && final !in fs
    ensures (forall left :: OnlyVerified(fs, staging, final,
                                         Publish(fs, staging, final, Publishing(renames, copies, left))))
       <==> renames || copies
    ensures forall left :: staging !in Publish(fs, staging, final, Publishing(renames, copies, left))
    ensures forall left :: final in Publish(fs, staging, final, Publishing(renames, copies, left)) <==>
              renames || copies || left.Some?
  {
    var other := fs[staging] + [0];
    if !renames && !copies {
      assert !OnlyVerified(fs, staging, final, Publish(fs, staging, final, Publishing(renames, copies, Some(other))));
    }
  }

  /** Two file systems agree away from two paths. */
  ghost predicate SameElsewhere(a: map<Path, seq<byte>>, b: map<Path, seq<byte>>, p: Path, q: Path) {
    forall x :: x != p && x != q ==> (x in a <==> x in b) && (x in a ==> a[x] == b[x])
  }

  class Downloader {
    const localPeer: string
    const ignoreRules: IgnoreRules
    const chunkSetting: nat
    const maxParallel: nat
    const chunkBuffers: nat
    const sha: seq<byte> -> string
    var fs: map<Path, seq<byte>>
    var shared: map<string, Path>
    var conflicts: seq<Conflict>

    constructor (localPeer: string, ignoreRules: IgnoreRules, chunkSetting: nat, maxParallel: nat, chunkBuffers: nat,
                 sha: seq<byte> -> string, fs: map<Path, seq<byte>>)
      ensures this.fs == fs && this.shared == map[] && this.conflicts == [] && this.sha == sha
      ensures this.localPeer == localPeer
    {
      this.localPeer, this.ignoreRules, this.chunkSetting := localPeer, ignoreRules, chunkSetting;
      this.maxParallel, this.chunkBuffers, this.sha := maxParallel, chunkBuffers, sha;
      this.fs, this.shared, this.conflicts := fs, map[], [];
    }

    predicate Ignored(path: Path, hash: string, dirGuid: string) {
      hash in ignoreRules.hashes || (dirGuid != "" && dirGuid in ignoreRules.dirGuids) || path in ignoreRules.paths
    }

    static predicate Queued(conflicts: seq<Conflict>, path: Path, hash: string) {
      exists i :: 0 <= i < |conflicts| && conflicts[i].path == path && conflicts[i].hash == hash
    }

    /** The queue with this conflict, unless its path, hash or directory is to be ignored or the
        queue has one of the same path and hash. */
    ghost predicate WithConflict(before: seq<Conflict>, c: Conflict, after: seq<Conflict>) {
      if c.hash in ignoreRules.hashes || c.path in ignoreRules.paths ||
        (c.dirGuid != "" && c.dirGuid in ignoreRules.dirGuids)
         || (exists x :: x in before && x.path == c.path && x.hash == c.hash)
      then after == before
      else after == before + [c]
    }

    /** Queue a conflict unless it is ignored or already queued for this path and content. */
    method AddConflict(path: Path, hash: string, dirGuid: string, origin: string)
      modifies `conflicts
      ensures WithConflict(old(conflicts), Conflict(path, hash, dirGuid, origin), conflicts)
    {
      if Ignored(path, hash, dirGuid) { return; }
      if Queued(conflicts, path, hash) { return; }
      conflicts := conflicts + [Conflict(path, hash, dirGuid, origin)];
    }

    /** The swarm of an attempt, over the empty staging file.  `mesh` are all peers there are. */
    method FillStaging(cfg: Config, empty: seq<byte>, providers: seq<Item>, states: seq<nat>,
                       io: AttemptIO, allowed: set<string>, ghost mesh: set<string>)
      returns (run: SwarmResult, ghost calls: seq<Call>)
      requires |empty| == cfg.fileSize
      requires Permutation(io.order, cfg.totalChunks)
      requires forall x :: x in providers ==> x.peer in mesh
      requires forall t: nat :: io.listing(t).Some? ==> io.listing(t).value.peer in mesh
      ensures forall c :: c in calls ==> MayAsk(c.peer, providers, io, cfg.hash, localPeer, allowed)
      ensures calls != [] ==> DistinctPeers(PeersOf(providers)) != []
      ensures |run.marks| == |states|
      ensures run.ok ==> FileDelivered(cfg, calls, run.file)
      ensures forall file :: AllServe(cfg, io, providers, localPeer, allowed, file) ==> CallsServed(cfg, calls, file)
      ensures |states| == cfg.totalChunks ==>
        forall file :: Smooth(cfg, io, providers, localPeer, allowed, file) ==> run.ok
    {
      hide FileDelivered, GoodWorld, CallsMade, CallsServed, AllServe, Smooth, MayAsk;
      var ids := PeersOf(providers);
      var world := WorldOf(io, providers, cfg.hash, localPeer, allowed);
      ghost var all := set p | p in mesh && MayAsk(p, providers, io, cfg.hash, localPeer, allowed);
      SwarmAsks(providers, io, cfg.hash, localPeer, allowed, mesh, all);
      run, calls := RunSwarmDownload(cfg, ids, io.order, states, empty, world, all);
      CallsWithin(world, cfg, calls, run.peers);
      forall file | AllServe(cfg, io, providers, localPeer, allowed, file) ensures CallsServed(cfg, calls, file) {
        AskedAreServed(cfg, io, providers, localPeer, allowed, calls, run.peers, file);
      }
      forall file | Smooth(cfg, io, providers, localPeer, allowed, file) && |states| == cfg.totalChunks
        ensures run.ok
      {
        SmoothRuns(cfg, io, providers, localPeer, allowed, file, states);
      }
    }

    /** Hash the staging file; if the hash is right, move the file into place. */
    method VerifyAndPublish(hash: string, staging: Path, final: Path, rel: Path, hashes: bool, publishing: Publishing)
      returns (result: AttemptResult)
      requires staging in fs && staging != final
      modifies `fs, `shared
      ensures result.HashMismatch? <==> !hashes || sha(old(fs)[staging]) != hash
      ensures result.Success? <==> !result.HashMismatch? && publishing.Moves()
      ensures shared == if result.Success? then old(shared)[hash := rel] else old(shared)
      ensures At(fs, final) == if result.HashMismatch? then At(old(fs), final)
                               else Left(publishing, At(old(fs), final), old(fs)[staging])
      ensures staging !in fs && SameElsewhere(fs, old(fs), staging, final)
    {
      if !hashes || sha(fs[staging]) != hash {
        fs := fs - {staging};
        return HashMismatch;
      }
      fs := Publish(fs, staging, final, publishing);
      if !publishing.Moves() { return Failed; }
      shared := shared[hash := rel];
      return Success;
    }

    /** What an attempt leaves at the destination: verified content, or what a failed move of
        it leaves; or what stood there. */
    ghost predicate AfterAttempt(after: Option<seq<byte>>, how: Publishing, stood: Option<seq<byte>>,
                                 result: AttemptResult, verified: bool, hash: string)
    {
      && (result.Success? <==> verified && how.Moves())
      && if verified then exists staged :: sha(staged) == hash && after == Left(how, stood, staged)
         else after == stood
    }

    /** What an attempt does when its swarm is through: the staging file as the swarm has
        written it is verified and published, or it is removed. */
    method Conclude(hash: string, staging: Path, final: Path, rel: Path, run: SwarmResult, hashes: bool,
                    publishing: Publishing)
      returns (result: AttemptResult, ghost verified: bool)
      requires staging in fs && staging != final
      modifies `fs, `shared
      ensures result.HashMismatch? <==> run.ok && (!hashes || sha(run.file) != hash)
      ensures result.Success? <==> run.ok && hashes && sha(run.file) == hash && publishing.Moves()
      ensures result.Success? ==> At(fs, final) == Some(run.file)
      ensures result.HashMismatch? ==> !verified
      ensures AfterAttempt(At(fs, final), publishing, At(old(fs), final), result, verified, hash)
      ensures shared == if result.Success? then old(shared)[hash := rel] else old(shared)
      ensures staging !in fs && SameElsewhere(fs, old(fs), staging, final)
    {
      fs := fs[staging := run.file];
      if !run.ok {
        fs := fs - {staging};
        return Failed, false;
      }
      result := VerifyAndPublish(hash, staging, final, rel, hashes, publishing);
      verified := !result.HashMismatch?;
    }

    /** One attempt: fill the staging file from these providers, verify it, publish it. */
    method AttemptDownload(cfg: Config, staging: Path, final: Path, rel: Path, providers: seq<Item>, states: seq<nat>,
                           io: AttemptIO, allowed: set<string>, ghost mesh: set<string>)
      returns (result: AttemptResult, marks: seq<nat>, ghost log: AttemptLog)
      requires staging != final && cfg.sha == sha
      requires Permutation(io.order, cfg.totalChunks)
      requires forall x :: x in providers ==> x.peer in mesh
      requires forall t: nat :: io.listing(t).Some? ==> io.listing(t).value.peer in mesh
      modifies `fs, `shared
      ensures log.result == result && log.providers == providers && |marks| == |states|
      ensures SameElsewhere(fs, old(fs), staging, final)
      ensures AfterAttempt(At(fs, final), io.publishing, At(Appeared(old(fs), final, io.appears), final), result,
                           log.verified, cfg.hash)
      ensures result.HashMismatch? ==> !log.verified
      ensures staging in fs ==> fs == Appeared(old(fs), final, io.appears) && !result.Success?
      ensures shared == if result.Success? then old(shared)[cfg.hash := rel] else old(shared)
      // whom it asks: providers, and peers that a refresh has found
      ensures forall c :: c in log.calls ==> MayAsk(c.peer, providers, io, cfg.hash, localPeer, allowed)
      ensures log.calls != [] ==> DistinctPeers(PeersOf(providers)) != []
      // answers by peers that serve the right file never cause a mismatch
      ensures forall file ::
                CallsServed(cfg, log.calls, file) && FaithfulSource(cfg, file) && sha(file) == cfg.hash && io.hashes ==>
                  !result.HashMismatch?
      // and it succeeds if nothing goes wrong
      ensures forall file :: Smooth(cfg, io, providers, localPeer, allowed, file) && |states| == cfg.totalChunks ==>
                               result.Success? && At(fs, final) == Some(file)
    {
      hide AllServe, MayAsk, FaithfulSource, DistinctPeers, Permutation, PeersOf, GoodWorld, CallsServed,
        Publishing.Moves;
      marks := states;
      fs := Appeared(fs, final, io.appears);
      result, log := Failed, AttemptLog(Failed, false, providers, []);
      if |providers| == 0 {
        SmoothNeedsSomebody(cfg, io, localPeer, allowed);
        return;
      }
      if !io.opens { return; }
      fs := fs[staging := seq(cfg.fileSize, _ => 0)];
      ghost var calls, verified;
      var run: SwarmResult;
      run, calls := FillStaging(cfg, fs[staging], providers, states, io, allowed, mesh);
      result, verified := Conclude(cfg.hash, staging, final, rel, run, io.hashes, io.publishing);
      marks, log := run.marks, AttemptLog(result, verified, providers, calls);
    }

    /** What the attempts have left at a destination that was empty. */
    ghost predicate AfterAttempts(fs: map<Path, seq<byte>>, final: Path, io: nat -> AttemptIO, logs: seq<AttemptLog>,
                                  hash: string)
    {
      if logs == [] then final !in fs
      else
        var k, last := |logs| - 1, logs[|logs| - 1];
        AfterAttempt(At(fs, final), io(k).publishing, Standing(io, k), last.result, last.verified, hash)
    }

    /** Which attempts are made: one with all providers; and, exactly if it ends in a mismatch
        and some but not all of them are sources of the watch, one with those. */
    ghost predicate Attempts(logs: seq<AttemptLog>, remote: seq<Item>, watch: Option<set<string>>) {
      && 1 <= |logs| <= 2 && logs[0].providers == remote
      && (|logs| == 2 <==> logs[0].result.HashMismatch? && watch.Some? &&
                           (exists x :: x in remote && x.peer in watch.value) &&
                           (exists x :: x in remote && x.peer !in watch.value))
      && (|logs| == 2 ==> logs[1].providers == Filter(remote, (x: Item) => x.peer in watch.value))
    }

    /** The first attempt asks providers and peers found by a refresh, the second trusted peers. */
    ghost predicate Asks(logs: seq<AttemptLog>, io: nat -> AttemptIO, hash: string, watch: Option<set<string>>)
      requires 1 <= |logs| <= 2 && (|logs| == 2 ==> watch.Some?)
    {
      && (forall c :: c in logs[0].calls ==>
            MayAsk(c.peer, logs[0].providers, io(0), hash, localPeer, AllowedPeers(watch)))
      && (|logs| == 2 ==> forall c :: c in logs[1].calls ==> c.peer in watch.value)
    }

    /** The peers a refresh may add: those of the watch's sources that have names. */
    function AllowedPeers(watch: Option<set<string>>): set<string> {
      if watch.Some? then watch.value - {""} else {}
    }

    /** The settings of a download. */
    function Settings(hash: string, size: nat): Config {
      var chunk := CurrentChunkSize(chunkSetting);
      Config(hash, size, chunk, TotalChunks(size, chunk), maxParallel, chunkBuffers, sha)
    }

    /** The provider sets of the attempts: everybody, then, for a watch, its sources alone,
        if there are some and that makes a difference. */
    function AttemptSets(remote: seq<Item>, watch: Option<set<string>>): (sets: seq<seq<Item>>)
      ensures 1 <= |sets| <= 2 && sets[0] == remote
      ensures |sets| == 2 <==> watch.Some? && (exists x :: x in remote && x.peer in watch.value) &&
                               (exists x :: x in remote && x.peer !in watch.value)
      ensures |sets| == 2 ==> sets[1] == Filter(remote, (x: Item) => x.peer in watch.value)
    {
      if watch.None? || watch.value == {} then [remote]
      else
        var some := Trusted(remote, watch.value);
        TrustedProper(remote, watch.value);
        if some != [] && |some| < |remote| then [remote, some] else [remote]
    }

    /** There is something to download, from somebody, and nothing in its place. */
    predicate Wanted(primary: Item, providers: seq<Item>, final: Path)
      reads this
    {
      && primary.hash != "" && final !in fs && providers != []
      && (primary.size != 0 || exists x :: x in providers && x.size != 0)
    }

    /** The file is there already: its hash is shared, or the destination itself has it. */
    predicate There(primary: Item, providers: seq<Item>, final: Path, readable: bool)
      reads this
    {
      && primary.hash != "" && final in fs
      && (primary.hash in shared || (providers != [] && readable && sha(fs[final]) == primary.hash))
    }

    /** `download_file_from_providers`.  `watch` holds the peers of the watch's sources, if
        the download is made for one; `readable` says whether an existing destination can be
        hashed; `mesh` are all peers there are. */
    method DownloadFile(primary: Item, providers: seq<Item>, dest: Path, dirGuid: string, watch: Option<set<string>>,
                        readable: bool, io: nat -> AttemptIO, ghost mesh: set<string>)
      returns (outcome: SyncOutcome, ghost logs: seq<AttemptLog>)
      requires var n := Settings(primary.hash, ExpectedSize(primary, providers)).totalChunks;
               forall i: nat :: Permutation(io(i).order, n)
      requires forall x :: x in providers ==> x.peer in mesh
      requires forall i: nat, t: nat :: io(i).listing(t).Some? ==> io(i).listing(t).value.peer in mesh
      modifies this
      // when an attempt is made, and which
      ensures logs != [] <==> old(Wanted(primary, providers, SHARE + CleanPath(dest, primary.hash)))
      ensures logs != [] ==>
        Attempts(logs, Remote(providers, localPeer), watch) && Asks(logs, io, primary.hash, watch)
      // without one nothing changes; with one, what is then at the destination: what others have
      // put there meanwhile, replaced by verified content or by what a failed move leaves
      ensures logs == [] ==> fs == old(fs)
      ensures logs != [] ==> AfterAttempts(fs, SHARE + CleanPath(dest, primary.hash), io, logs, primary.hash)
      ensures SameElsewhere(fs, old(fs), DOWNLOADS + CleanPath(dest, primary.hash),
                            SHARE + CleanPath(dest, primary.hash))
      // it succeeds exactly if the last attempt does or the file is there already
      ensures outcome.changed <==> logs != [] && logs[|logs| - 1].result.Success?
      ensures outcome.success <==>
        outcome.changed || old(There(primary, providers, SHARE + CleanPath(dest, primary.hash), readable))
      ensures shared == if outcome.changed then old(shared)[primary.hash := CleanPath(dest, primary.hash)]
                        else old(shared)
      // a conflict is queued exactly for a file in its place that differs, and after a mismatch
      ensures var clean := CleanPath(dest, primary.hash);
              var c := Conflict(clean, primary.hash, dirGuid, if primary.peer == "" then localPeer else primary.peer);
              if primary.hash != "" && providers != [] && (if logs == []
                 then SHARE + clean in old(fs) && !old(There(primary, providers, SHARE + clean, readable))
                 else logs[|logs| - 1].result.HashMismatch?)
              then WithConflict(old(conflicts), c, conflicts)
              else conflicts == old(conflicts)
      // with nothing in its way the file arrives
      ensures forall file ::
        Smooth(Settings(primary.hash, ExpectedSize(primary, providers)), io(0), Remote(providers, localPeer), localPeer,
               AllowedPeers(watch), file) && logs != [] ==>
          outcome == SyncOutcome(true, true) && At(fs, SHARE + CleanPath(dest, primary.hash)) == Some(file)
    {
      hide Smooth, Permutation, CleanPath, AfterAttempts, Asks, Attempts, WithConflict, SameElsewhere, AllowedPeers, At,
        ExpectedSize;
      logs := [];
      SameAsBefore(fs, DOWNLOADS + CleanPath(dest, primary.hash), SHARE + CleanPath(dest, primary.hash));
      if primary.hash == "" { return SyncOutcome(false, false), []; }
      var clean := CleanPath(dest, primary.hash);
      var final := SHARE + clean;
      if primary.hash in shared && final in fs { return SyncOutcome(true, false), []; }
      var remote := Filter(providers, (x: Item) => x.peer != localPeer);
      if |remote| == 0 { remote := providers; }
      if |remote| == 0 { return SyncOutcome(false, false), []; }
      var origin := if primary.peer == "" then localPeer else primary.peer;
      if final in fs {
        if readable && sha(fs[final]) == primary.hash { return SyncOutcome(true, false), []; }
        AddConflict(clean, primary.hash, dirGuid, origin);
        return SyncOutcome(false, false), [];
      }
      var size := ExpectedSize(primary, providers);
      SizeKnownExactly(primary, providers);
      if size == 0 { return SyncOutcome(false, false), []; }
      outcome, logs := DownloadMissing(Settings(primary.hash, size), clean, remote, watch, dirGuid, origin, io, mesh);
    }

    /** The part of it that downloads a file which is not there. */
    method DownloadMissing(cfg: Config, clean: Path, remote: seq<Item>, watch: Option<set<string>>, dirGuid: string,
                           origin: string, io: nat -> AttemptIO, ghost mesh: set<string>)
      returns (outcome: SyncOutcome, ghost logs: seq<AttemptLog>)
      requires SHARE + clean !in fs && cfg.sha == sha
      requires forall i: nat :: Permutation(io(i).order, cfg.totalChunks)
      requires forall x :: x in remote ==> x.peer in mesh
      requires forall i: nat, t: nat :: io(i).listing(t).Some? ==> io(i).listing(t).value.peer in mesh
      modifies this
      ensures logs != [] && Attempts(logs, remote, watch) && Asks(logs, io, cfg.hash, watch)
      ensures AfterAttempts(fs, SHARE + clean, io, logs, cfg.hash)
      ensures SameElsewhere(fs, old(fs), DOWNLOADS + clean, SHARE + clean)
      ensures outcome.changed == outcome.success == logs[|logs| - 1].result.Success?
      ensures shared == if outcome.changed then old(shared)[cfg.hash := clean] else old(shared)
      ensures if logs[|logs| - 1].result.HashMismatch?
              then WithConflict(old(conflicts), Conflict(clean, cfg.hash, dirGuid, origin), conflicts)
              else conflicts == old(conflicts)
      ensures forall file :: Smooth(cfg, io(0), remote, localPeer, AllowedPeers(watch), file) ==>
                outcome == SyncOutcome(true, true) && At(fs, SHARE + clean) == Some(file)
    {
      hide Smooth, Permutation, AfterAttempts, Asks, Attempts, WithConflict, SameElsewhere, AllowedPeers, At;
      var staging, final := DOWNLOADS + clean, SHARE + clean;
      assert |staging| != |final|;
      var last: AttemptResult;
      last, logs := RunAttempts(cfg, staging, final, clean, remote, watch, io, mesh);
      if last.Success? { return SyncOutcome(true, true), logs; }
      if last.HashMismatch? { AddConflict(clean, cfg.hash, dirGuid, origin); }
      return SyncOutcome(false, false), logs;
    }

    lemma AfterFirst(before: map<Path, seq<byte>>, after: map<Path, seq<byte>>, final: Path, io: nat -> AttemptIO,
                     log: AttemptLog, hash: string)
      requires final !in before
      requires AfterAttempt(At(after, final), io(0).publishing, At(Appeared(before, final, io(0).appears), final),
                            log.result, log.verified, hash)
      ensures AfterAttempts(after, final, io, [log], hash)
    {
    }

    lemma AfterSecond(between: map<Path, seq<byte>>, after: map<Path, seq<byte>>, final: Path, io: nat -> AttemptIO,
                      first: AttemptLog, log: AttemptLog, hash: string)
      requires AfterAttempts(between, final, io, [first], hash) && !first.verified
      requires AfterAttempt(At(after, final), io(1).publishing, At(Appeared(between, final, io(1).appears), final),
                            log.result, log.verified, hash)
      ensures AfterAttempts(after, final, io, [first, log], hash)
    {
      assert Standing(io, 1) == At(Appeared(between, final, io(1).appears), final);
    }

    lemma WhichAttempts(logs: seq<AttemptLog>, sets: seq<seq<Item>>, remote: seq<Item>, watch: Option<set<string>>)
      requires sets == AttemptSets(remote, watch) && 1 <= |logs| <= 2 && logs[0].providers == sets[0]
      requires |logs| == 2 <==> logs[0].result.HashMismatch? && |sets| == 2
      requires |logs| == 2 ==> logs[1].providers == sets[1]
      ensures Attempts(logs, remote, watch)
    {
    }

    lemma WhomAsked(logs: seq<AttemptLog>, io: nat -> AttemptIO, hash: string, watch: Option<set<string>>)
      requires 1 <= |logs| <= 2 && (|logs| == 2 ==> watch.Some?)
      requires forall c :: c in logs[0].calls ==>
                 MayAsk(c.peer, logs[0].providers, io(0), hash, localPeer, AllowedPeers(watch))
      requires |logs| == 2 ==> forall c :: c in logs[1].calls ==> c.peer in watch.value
      ensures Asks(logs, io, hash, watch)
    {
    }

    /** The attempts, over one vector of chunk marks: with everybody, and after a mismatch
        with the watch's sources alone. */
    method RunAttempts(cfg: Config, staging: Path, final: Path, clean: Path, remote: seq<Item>,
                       watch: Option<set<string>>, io: nat -> AttemptIO, ghost mesh: set<string>)
      returns (result: AttemptResult, ghost logs: seq<AttemptLog>)
      requires staging != final && final !in fs && cfg.sha == sha
      requires forall i: nat :: Permutation(io(i).order, cfg.totalChunks)
      requires forall x :: x in remote ==> x.peer in mesh
      requires forall i: nat, t: nat :: io(i).listing(t).Some? ==> io(i).listing(t).value.peer in mesh
      modifies `fs, `shared
      ensures logs != [] && Attempts(logs, remote, watch) && Asks(logs, io, cfg.hash, watch)
      ensures logs[|logs| - 1].result == result
      ensures AfterAttempts(fs, final, io, logs, cfg.hash)
      ensures SameElsewhere(fs, old(fs), staging, final)
      ensures shared == if result.Success? then old(shared)[cfg.hash := clean] else old(shared)
      ensures forall file :: Smooth(cfg, io(0), remote, localPeer, AllowedPeers(watch), file) ==>
                               result.Success? && At(fs, final) == Some(file)
    {
      hide Permutation, FaithfulSource, Smooth, MayAsk, CallsServed, AfterAttempt, AfterAttempts, Asks, Attempts,
        Appeared,
        Standing, At, SameElsewhere, Trusted, Served;
      var marks := seq(cfg.totalChunks, _ => 0);
      var allowed := AllowedPeers(watch);
      var sets := AttemptSets(remote, watch);
      ghost var log;
      result, marks, log := AttemptDownload(cfg, staging, final, clean, sets[0], marks, io(0), allowed, mesh);
      logs := [log];
      AfterFirst(old(fs), fs, final, io, log, cfg.hash);
      if result.HashMismatch? && |sets| == 2 {
        ghost var between := fs;
        result, marks, log := AttemptDownload(cfg, staging, final, clean, sets[1], marks, io(1), allowed, mesh);
        TrustedAsked(io(1), cfg.hash, localPeer, watch.value, sets[1], log.calls);
        AfterSecond(between, fs, final, io, logs[0], log, cfg.hash);
        SameTwice(old(fs), between, fs, staging, final);
        logs := [logs[0], log];
      }
      WhichAttempts(logs, sets, remote, watch);
      WhomAsked(logs, io, cfg.hash, watch);
    }
  }

  /** The settings describe a file exactly if it is not empty, has a hash, and the ceiling
      division of its size does not overflow; they are the downloader's own. */
  lemma SettingsAreFaithful(d: Downloader, hash: string, file: seq<byte>)
    ensures var cfg := d.Settings(hash, |file|);
            && (FaithfulSource(cfg, file) && file != [] <==>
                  hash != "" && 0 < |file| && |file| + CurrentChunkSize(d.chunkSetting) - 1 < WORD64)
            && cfg.hash == hash && cfg.sha == d.sha && cfg.chunkSize == CurrentChunkSize(d.chunkSetting)
            && cfg.maxParallel == d.maxParallel && cfg.chunkBuffers == d.chunkBuffers
  {
    if 0 < |file| < WORD64 { TilingExactly(|file|, CurrentChunkSize(d.chunkSetting)); }
  }

  lemma SameAsBefore(fs: map<Path, seq<byte>>, p: Path, q: Path)
    ensures SameElsewhere(fs, fs, p, q)
  {
  }

  lemma SameTwice(a: map<Path, seq<byte>>, b: map<Path, seq<byte>>, c: map<Path, seq<byte>>, p: Path, q: Path)
    requires SameElsewhere(b, a, p, q) && SameElsewhere(c, b, p, q)
    ensures SameElsewhere(c, a, p, q)
  {
  }

  lemma SmoothNeedsSomebody(cfg: Config, io: AttemptIO, localPeer: string, allowed: set<string>)
    ensures forall file :: !Smooth(cfg, io, [], localPeer, allowed, file)
  {
    forall file ensures !Smooth(cfg, io, [], localPeer, allowed, file) {
      if Smooth(cfg, io, [], localPeer, allowed, file) { SmoothRuns(cfg, io, [], localPeer, allowed, file, []); }
    }
  }

  lemma CallsWithin(world: World, cfg: Config, calls: seq<Call>, peers: seq<string>)
    requires CallsMade(world, cfg, calls, peers)
    ensures forall c :: c in calls ==> c.peer in peers
  {
  }

  /** The peers that can be in the swarm of an attempt are those it may ask. */
  lemma SwarmAsks(providers: seq<Item>, io: AttemptIO, hash: string, localPeer: string, allowed: set<string>,
                  mesh: set<string>, all: set<string>)
    requires forall x :: x in providers ==> x.peer in mesh
    requires forall t: nat :: io.listing(t).Some? ==> io.listing(t).value.peer in mesh
    requires forall p :: p in all <==> p in mesh && MayAsk(p, providers, io, hash, localPeer, allowed)
    ensures forall id :: id in PeersOf(providers) && id != "" ==> id in all
    ensures var world := WorldOf(io, providers, hash, localPeer, allowed);
            forall t: nat :: world.arrive(t).Some? ==> world.arrive(t).value in all
  {
    var world := WorldOf(io, providers, hash, localPeer, allowed);
    forall id | id in PeersOf(providers) && id != "" ensures id in all {
      var i :| 0 <= i < |providers| && providers[i].peer == id;
      assert providers[i] in providers;
    }
    forall t: nat | world.arrive(t).Some? ensures world.arrive(t).value in all {
      assert Offers(io.listing(t), world.arrive(t).value, hash, localPeer, allowed);
    }
  }

  /** In the second attempt only watch sources are asked: if its swarm runs at all, a provider
      has a name and is trusted, so the watch has named sources and the refresh filters. */
  lemma TrustedAsked(io: AttemptIO, hash: string, localPeer: string, trusted: set<string>, items: seq<Item>,
                     calls: seq<Call>)
    requires forall x :: x in items ==> x.peer in trusted
    requires forall c :: c in calls ==> MayAsk(c.peer, items, io, hash, localPeer, trusted - {""})
    requires calls != [] ==> DistinctPeers(PeersOf(items)) != []
    ensures forall c :: c in calls ==> c.peer in trusted
  {
    if calls != [] {
      var id := DistinctPeers(PeersOf(items))[0];
      assert id in DistinctPeers(PeersOf(items));
      var i :| 0 <= i < |items| && PeersOf(items)[i] == id;
      assert items[i] in items && id in trusted - {""};
    }
  }
}
