/** The shared variables and worker threads of `run_swarm_download`
    (src/swarm_downloader.cpp) as a labelled transition system.

    Every region the source protects by a mutex, and every call of a callback, is one
    atomic action.  What the callbacks answer, which worker moves and which peers turn up
    are labels of the actions, so a sequence of actions is one interleaving against one
    behaviour of the outside world and a statement about all sequences is a statement
    about all of them. */
module SwarmState {
  import opened Wrappers

  /** What a download is asked to do.  `sha` is the chunk digest, otherwise unknown. */
  datatype Config = Config(
    hash: string,
    fileSize: nat,
    chunkSize: nat,
    totalChunks: nat,
    maxParallel: nat,
    chunkBuffers: nat,
    sha: seq<byte> -> string)

  /** The part of a `ChunkResponse` that the swarm looks at. */
  datatype Response = Response(success: bool, data: seq<byte>, chunkSha: string)

  datatype Peer = Peer(id: string, outstanding: nat)

  datatype Stat = Stat(chunks: nat, bytes: nat)

  /** Where a worker thread is in `worker_fn`.  `slot` indexes `peers`. */
  datatype Stage =
    | Top
    | Taking
    | Acquiring(job: nat)
    | Fetching(job: nat, slot: nat)
    | Releasing(job: nat, slot: nat, resp: Response)
    | Judging(job: nat, slot: nat, resp: Response)
    | Writing(job: nat, slot: nat, data: seq<byte>)
    | Recording(job: nat, slot: nat, data: seq<byte>)
    | Completing(job: nat)
    | Requeueing(job: nat, reason: string, fatal: bool, quits: bool)
    | Exited

  /** The variables captured by the lambdas.  `fetches` and `writes` are history: how often
      each chunk was fetched and successfully written; no guard reads them.  `out` is the
      staging file. */
  datatype State = State(
    queue: seq<nat>,
    active: nat,
    completed: nat,
    shutting: bool,
    failure: bool,
    reason: string,
    attempts: seq<nat>,
    peers: seq<Peer>,
    next: nat,
    chunkStates: seq<nat>,
    bytes: nat,
    stats: map<string, Stat>,
    activePeers: nat,
    out: seq<byte>,
    workers: seq<Stage>,
    fetches: seq<nat>,
    writes: seq<nat>)

  const SHUTDOWN := "Swarm shutdown"
  const NOT_DOWNLOADED := "Failed to download chunk"
  const BAD_CHECKSUM := "Chunk checksum mismatch"
  const NOT_WRITTEN := "Failed writing chunk to disk"

  /** The writer either stores the chunk or fails, leaving the file as it pleases. */
  datatype WriteResult = Written | WriteFailed(left: seq<byte>)

  datatype Action =
    | CheckFailure(w: nat)
    | TakeJob(w: nat)
    | AcquirePeer(w: nat)
    | Fetch(w: nat, resp: Response)
    | ReleasePeer(w: nat)
    | Judge(w: nat)
    | Write(w: nat, result: WriteResult)
    | Record(w: nat)
    | Complete(w: nat)
    | Requeue(w: nat)
    | AddPeer(id: string)

  function PerPeerLimit(cfg: Config): nat {
    if cfg.chunkBuffers >= 1 then cfg.chunkBuffers else 1
  }

  function ChunkOffset(cfg: Config, job: nat): nat { job * cfg.chunkSize }

  /** The length asked for: the subtraction is on 64-bit unsigned values. */
  function ChunkLength(cfg: Config, job: nat): nat {
    var rest := (cfg.fileSize - ChunkOffset(cfg, job)) % WORD64;
    if cfg.chunkSize <= rest then cfg.chunkSize else rest
  }

  /** A chunk turns fatal at this many failed attempts. */
  function AttemptLimit(peerCount: nat): nat {
    if peerCount * 2 >= 3 then peerCount * 2 else 3
  }

  predicate HasCapacity(cfg: Config, peers: seq<Peer>) {
    exists p :: 0 <= p < |peers| && peers[p].outstanding < PerPeerLimit(cfg)
  }

  /** The scan of `acquire_peer_state` from step `i` on: the first slot with room,
      wrapping round at the end. */
  function ScanFrom(cfg: Config, peers: seq<Peer>, start: nat, i: nat): (found: Option<nat>)
    requires i <= |peers|
    ensures found.Some? ==> found.value < |peers| && peers[found.value].outstanding < PerPeerLimit(cfg)
    decreases |peers| - i
  {
    if i == |peers| then None
    else
      var idx := (start + i) % |peers|;
      if peers[idx].outstanding < PerPeerLimit(cfg) then Some(idx)
      else ScanFrom(cfg, peers, start, i + 1)
  }

  /** Good enough to be written: a success with bytes whose digest, if given, agrees. */
  predicate Accepted(cfg: Config, resp: Response) {
    resp.success && resp.data != [] && (resp.chunkSha == "" || resp.chunkSha == cfg.sha(resp.data))
  }

  /** Overwriting part of a file at an offset, growing it when the data reaches past the end. */
  function Splice(file: seq<byte>, offset: nat, data: seq<byte>): seq<byte> {
    var padded := if offset <= |file| then file else file + seq(offset - |file|, _ => 0);
    if offset + |data| <= |padded|
    then padded[..offset] + data + padded[offset + |data|..]
    else padded[..offset] + data
  }

  function StatOf(stats: map<string, Stat>, id: string): Stat {
    if id in stats then stats[id] else Stat(0, 0)
  }

  predicate KnownPeer(peers: seq<Peer>, id: string) {
    exists p :: 0 <= p < |peers| && peers[p].id == id
  }

  /** Index bounds that every step needs and keeps. */
  predicate Shaped(cfg: Config, s: State) {
    && |s.attempts| == |s.chunkStates| == |s.fetches| == |s.writes| == cfg.totalChunks
    && |s.peers| > 0
    && (forall i :: 0 <= i < |s.queue| ==> s.queue[i] < cfg.totalChunks)
    && (forall w :: 0 <= w < |s.workers| ==> StageShaped(cfg, s, s.workers[w]))
  }

  predicate StageShaped(cfg: Config, s: State, st: Stage) {
    && (Holding(st) ==> JobOf(st) < cfg.totalChunks)
    && (Placed(st) ==> st.slot < |s.peers|)
  }

  predicate Holding(st: Stage) { !st.Top? && !st.Taking? && !st.Exited? }

  function JobOf(st: Stage): nat
    requires Holding(st)
  {
    st.job
  }

  /** Stages that remember which peer served the chunk. */
  predicate Placed(st: Stage) {
    st.Fetching? || st.Releasing? || st.Judging? || st.Writing? || st.Recording?
  }

  predicate Enabled(cfg: Config, s: State, a: Action) {
    match a
    case CheckFailure(w) => (w < |s.workers| && s.workers[w].Top?)
    case TakeJob(w) => (w < |s.workers| && s.workers[w].Taking?) && (s.shutting || s.failure || s.queue != [])
    case AcquirePeer(w) => (w < |s.workers| && s.workers[w].Acquiring?) &&
      (s.shutting || s.failure || HasCapacity(cfg, s.peers))
    case Fetch(w, _) => (w < |s.workers| && s.workers[w].Fetching?)
    case ReleasePeer(w) => (w < |s.workers| && s.workers[w].Releasing?)
    case Judge(w) => (w < |s.workers| && s.workers[w].Judging?)
    case Write(w, _) => (w < |s.workers| && s.workers[w].Writing?)
    case Record(w) => (w < |s.workers| && s.workers[w].Recording?)
    case Complete(w) => (w < |s.workers| && s.workers[w].Completing?)
    case Requeue(w) => (w < |s.workers| && s.workers[w].Requeueing?)
    case AddPeer(id) => id != "" && !KnownPeer(s.peers, id)
  }

  /** What an enabled action does. */
  function Apply(cfg: Config, s: State, a: Action): State
    requires Shaped(cfg, s) && Enabled(cfg, s, a)
  {
    match a
    case CheckFailure(w) => s.(workers := s.workers[w := if s.failure then Exited else Taking])
    case TakeJob(w) => AfterTake(s, w)
    case AcquirePeer(w) => AfterAcquire(cfg, s, w)
    case Fetch(w, resp) =>
      var job, slot := s.workers[w].job, s.workers[w].slot;
      s.(fetches := s.fetches[job := s.fetches[job] + 1], workers := s.workers[w := Releasing(job, slot, resp)])
    case ReleasePeer(w) => AfterRelease(s, w)
    case Judge(w) => AfterJudge(cfg, s, w)
    case Write(w, result) => AfterWrite(cfg, s, w, result)
    case Record(w) => AfterRecord(s, w)
    case Complete(w) => AfterComplete(cfg, s, w)
    case Requeue(w) => AfterRequeue(s, w)
    case AddPeer(id) =>
      s.(peers := s.peers + [Peer(id, 0)], stats := s.stats[id := StatOf(s.stats, id)])
  }

  function AfterTake(s: State, w: nat): State
    requires w < |s.workers| && (s.shutting || s.failure || s.queue != [])
  {
    if s.shutting || s.failure then s.(workers := s.workers[w := Exited])
    else s.(queue := s.queue[1..], active := s.active + 1, workers := s.workers[w := Acquiring(s.queue[0])])
  }

  function AfterAcquire(cfg: Config, s: State, w: nat): State
    requires w < |s.workers| && s.workers[w].Acquiring? && |s.peers| > 0
  {
    var job := s.workers[w].job;
    if s.shutting || s.failure then s.(workers := s.workers[w := Requeueing(job, SHUTDOWN, true, true)])
    else
      match ScanFrom(cfg, s.peers, s.next, 0)
      case Some(idx) =>
        s.(peers := s.peers[idx := s.peers[idx].(outstanding := s.peers[idx].outstanding + 1)],
           next := (idx + 1) % |s.peers|,
           workers := s.workers[w := Fetching(job, idx)])
      case None => s.(workers := s.workers[w := Requeueing(job, SHUTDOWN, true, true)])
  }

  function AfterRelease(s: State, w: nat): State
    requires w < |s.workers| && s.workers[w].Releasing? && s.workers[w].slot < |s.peers|
  {
    var Releasing(job, slot, resp) := s.workers[w];
    var peer := s.peers[slot];
    s.(peers := s.peers[slot := peer.(outstanding := if peer.outstanding > 0 then peer.outstanding - 1 else 0)],
       workers := s.workers[w := Judging(job, slot, resp)])
  }

  function AfterJudge(cfg: Config, s: State, w: nat): State
    requires w < |s.workers| && s.workers[w].Judging? && s.workers[w].job < |s.attempts|
  {
    var Judging(job, slot, resp) := s.workers[w];
    if Accepted(cfg, resp) then s.(workers := s.workers[w := Writing(job, slot, resp.data)])
    else
      var tries := s.attempts[job] + 1;
      var reason := if !resp.success || resp.data == [] then NOT_DOWNLOADED else BAD_CHECKSUM;
      s.(attempts := s.attempts[job := tries],
         workers := s.workers[w := Requeueing(job, reason, tries >= AttemptLimit(|s.peers|), false)])
  }

  function AfterWrite(cfg: Config, s: State, w: nat, result: WriteResult): State
    requires w < |s.workers| && s.workers[w].Writing? && s.workers[w].job < |s.writes|
  {
    var Writing(job, slot, data) := s.workers[w];
    match result
    case Written =>
      s.(out := Splice(s.out, ChunkOffset(cfg, job), data), writes := s.writes[job := s.writes[job] + 1],
         workers := s.workers[w := Recording(job, slot, data)])
    case WriteFailed(left) =>
      s.(out := left, workers := s.workers[w := Requeueing(job, NOT_WRITTEN, true, true)])
  }

  function AfterRecord(s: State, w: nat): State
    requires w < |s.workers| && s.workers[w].Recording?
    requires s.workers[w].job < |s.chunkStates| && s.workers[w].slot < |s.peers|
  {
    var Recording(job, slot, data) := s.workers[w];
    var id := s.peers[slot].id;
    var stat := StatOf(s.stats, id);
    s.(chunkStates := s.chunkStates[job := 1],
       bytes := s.bytes + |data|,
       stats := s.stats[id := Stat(stat.chunks + 1, stat.bytes + |data|)],
       activePeers := if stat.bytes == 0 then s.activePeers + 1 else s.activePeers,
       workers := s.workers[w := Completing(job)])
  }

  function AfterComplete(cfg: Config, s: State, w: nat): State
    requires w < |s.workers| && s.workers[w].Completing?
  {
    var completed := if s.completed < cfg.totalChunks then s.completed + 1 else s.completed;
    s.(completed := completed,
       active := if s.active > 0 then s.active - 1 else 0,
       shutting := s.shutting || completed >= cfg.totalChunks,
       workers := s.workers[w := Top])
  }

  function AfterRequeue(s: State, w: nat): State
    requires w < |s.workers| && s.workers[w].Requeueing?
  {
    var Requeueing(job, reason, fatal, quits) := s.workers[w];
    var failure := s.failure || fatal;
    var shutting := s.shutting || fatal;
    s.(failure := failure,
       shutting := shutting,
       reason := if fatal && s.reason == "" then reason else s.reason,
       active := if s.active > 0 then s.active - 1 else 0,
       queue := if shutting || failure then [] else s.queue + [job],
       workers := s.workers[w := if quits then Exited else Top])
  }

  /** Providers become peers: empty names and repeats are dropped, order is kept. */
  function DistinctPeers(providers: seq<string>): (r: seq<string>)
    ensures forall id :: id in r <==> id != "" && id in providers
    ensures forall i, k :: 0 <= i < k < |r| ==> r[i] != r[k]
  {
    if providers == [] then []
    else
      var rest := DistinctPeers(providers[..|providers| - 1]);
      var last := providers[|providers| - 1];
      if last == "" || last in rest then rest else rest + [last]
  }

  /** They keep the order in which they are first named. */
  lemma {:induction false} DistinctPeersInOrder(providers: seq<string>) returns (places: seq<nat>)
    ensures |places| == |DistinctPeers(providers)|
    ensures forall k :: 0 <= k < |places| ==>
              places[k] < |providers| && DistinctPeers(providers)[k] == providers[places[k]] &&
              forall i :: 0 <= i < places[k] ==> providers[i] != providers[places[k]]
    ensures forall j, k :: 0 <= j < k < |places| ==> places[j] < places[k]
  {
    if providers == [] {
      places := [];
    } else {
      var init, last := providers[..|providers| - 1], providers[|providers| - 1];
      places := DistinctPeersInOrder(init);
      if last != "" && last !in DistinctPeers(init) { places := places + [|init|]; }
    }
  }

  predicate Permutation(order: seq<nat>, n: nat) {
    && |order| == n
    && (forall i :: 0 <= i < n ==> order[i] < n)
    && (forall i, k :: 0 <= i < k < n ==> order[i] != order[k])
  }

  function WorkerCount(cfg: Config, peerCount: nat): nat {
    if cfg.maxParallel == 0 then peerCount else cfg.maxParallel
  }

  /** The state in which the worker threads start.  `order` is the shuffled chunk order;
      `states` and `staging` are whatever the caller hands over. */
  function Initial(cfg: Config, ids: seq<string>, order: seq<nat>, states: seq<nat>, staging: seq<byte>,
                   reason: string): State
  {
    State(order, 0, 0, false, false, reason,
          seq(cfg.totalChunks, _ => 0),
          seq(|ids|, i requires 0 <= i < |ids| => Peer(ids[i], 0)),
          0, states, 0,
          map id | id in ids :: Stat(0, 0),
          0, staging,
          seq(WorkerCount(cfg, |ids|), _ => Top),
          seq(cfg.totalChunks, _ => 0),
          seq(cfg.totalChunks, _ => 0))
  }

  /** What the guards of `run_swarm_download` and its caller's vectors establish. */
  predicate Started(cfg: Config, ids: seq<string>, order: seq<nat>, states: seq<nat>) {
    && cfg.totalChunks > 0 && |states| == cfg.totalChunks
    && Permutation(order, cfg.totalChunks)
    && |ids| > 0
    && (forall i :: 0 <= i < |ids| ==> ids[i] != "")
    && (forall i, k :: 0 <= i < k < |ids| ==> ids[i] != ids[k])
  }
}
