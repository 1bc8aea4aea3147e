/** `run_swarm_download` with its captured variables as fields, its lambdas as methods and
    its worker threads as an arbitrary interleaving of atomic steps. */
module SwarmRun {
  import opened Wrappers
  import opened FiniteSets
  import opened SwarmState
  import opened SwarmJobs
  import opened SwarmCapacity
  import opened SwarmProgress
  import opened SwarmContent
  import opened SwarmRotation
  import opened SwarmGoodPeer
  import opened ChunkPath

  /** The outside world, asked at step `t`: the fetcher, the writer, and the peers that the
      refresh thread finds. */
  datatype World = World(
    fetch: (nat, string, nat, nat) -> Response,
    write: (nat, nat, seq<byte>) -> WriteResult,
    arrive: nat -> Option<string>)

  /** A call of the fetcher: the peer asked, the bytes asked for, and the answer. */
  datatype Call = Call(peer: string, offset: nat, length: nat, resp: Response)

  /** The call that a fetching worker makes: it asks the peer of its slot for its chunk. */
  function CallOf(cfg: Config, s: State, w: nat, resp: Response): Call
    requires w < |s.workers| && s.workers[w].Fetching? && s.workers[w].slot < |s.peers|
  {
    var job := s.workers[w].job;
    Call(s.peers[s.workers[w].slot].id, ChunkOffset(cfg, job), ChunkLength(cfg, job), resp)
  }

  function StepCalls(cfg: Config, s: State, a: Action): seq<Call>
    requires Shaped(cfg, s) && Enabled(cfg, s, a)
  {
    if a.Fetch? then assert StageShaped(cfg, s, s.workers[a.w]); [CallOf(cfg, s, a.w, a.resp)] else []
  }

  /** The calls of a run, in order. */
  function CallsOf(cfg: Config, s: State, acts: seq<Action>): seq<Call>
    decreases |acts|
  {
    if acts != [] && Shaped(cfg, s) && Enabled(cfg, s, acts[0])
    then StepCalls(cfg, s, acts[0]) + CallsOf(cfg, Apply(cfg, s, acts[0]), acts[1..])
    else []
  }

  /** What the outside world contributes to a step is its answer at some moment to what the
      worker asks, or a peer that arrives. */
  ghost predicate StepFrom(world: World, cfg: Config, s: State, a: Action)
    requires Shaped(cfg, s) && Enabled(cfg, s, a)
  {
    match a
    case Fetch(w, resp) => exists t: nat :: Called(world, t, StepCalls(cfg, s, a)[0])
    case Write(w, result) =>
      exists t: nat :: result == world.write(t, ChunkOffset(cfg, s.workers[w].job), s.workers[w].data)
    case AddPeer(id) => exists t: nat :: world.arrive(t) == Some(id)
    case _ => true
  }

  predicate Called(world: World, t: nat, call: Call) {
    call.resp == world.fetch(t, call.peer, call.offset, call.length)
  }

  ghost predicate RunFrom(world: World, cfg: Config, s: State, acts: seq<Action>)
    decreases |acts|
  {
    acts != [] && Shaped(cfg, s) && Enabled(cfg, s, acts[0]) ==>
      StepFrom(world, cfg, s, acts[0]) && RunFrom(world, cfg, Apply(cfg, s, acts[0]), acts[1..])
  }

  /** Every one of the calls was answered by some peer that serves the file, or failed. */
  ghost predicate CallsServed(cfg: Config, calls: seq<Call>, file: seq<byte>) {
    forall c :: c in calls ==> Served(cfg, c, file)
  }

  ghost predicate Served(cfg: Config, c: Call, file: seq<byte>) {
    exists server, id: string ::
      Serves(server, cfg.hash, file) && id != "" &&
      Answers(server, cfg.sha, Request(id, cfg.hash, c.offset, c.length), c.resp)
  }

  class SwarmDownload {
    const cfg: Config
    var jobQueue: seq<nat>
    var activeJobs: nat
    var completedJobs: nat
    var shuttingDown: bool
    var failure: bool
    var failureReason: string
    var attempts: seq<nat>
    var peerStates: seq<Peer>
    var nextPeerIndex: nat
    var chunkStates: seq<nat>
    var downloadedBytes: nat
    var peerStats: map<string, Stat>
    var activePeerCount: nat
    var staging: seq<byte>
    var workers: seq<Stage>
    ghost var fetches: seq<nat>
    ghost var writes: seq<nat>
    ghost var calls: seq<Call>

    ghost function Abs(): State
      reads this
    {
      State(jobQueue, activeJobs, completedJobs, shuttingDown, failure, failureReason, attempts, peerStates,
            nextPeerIndex, chunkStates, downloadedBytes, peerStats, activePeerCount, staging, workers, fetches, writes)
    }

    constructor (cfg: Config, ids: seq<string>, order: seq<nat>, states: seq<nat>, file: seq<byte>, reason: string)
      requires Started(cfg, ids, order, states)
      ensures this.cfg == cfg && Abs() == Initial(cfg, ids, order, states, file, reason) && calls == []
    {
      this.cfg := cfg;
      jobQueue := order;
      activeJobs, completedJobs, shuttingDown, failure, failureReason := 0, 0, false, false, reason;
      attempts := seq(cfg.totalChunks, _ => 0);
      peerStates := seq(|ids|, i requires 0 <= i < |ids| => Peer(ids[i], 0));
      nextPeerIndex := 0;
      chunkStates := states;
      downloadedBytes := 0;
      peerStats := map id | id in ids :: Stat(0, 0);
      activePeerCount := 0;
      staging := file;
      workers := seq(WorkerCount(cfg, |ids|), _ => Top);
      fetches := seq(cfg.totalChunks, _ => 0);
      writes := seq(cfg.totalChunks, _ => 0);
      calls := [];
    }

    // -------------------------------------------------------------- the lambdas

    /** The body of `take_job` after its wait. */
    method TakeJob() returns (job: Option<nat>)
      requires shuttingDown || failure || jobQueue != []
      modifies `jobQueue, `activeJobs
      ensures job.None? <==> shuttingDown || failure
      ensures job.None? ==> unchanged(this)
      ensures job.Some? ==> [job.value] + jobQueue == old(jobQueue) && activeJobs == old(activeJobs) + 1
    {
      if shuttingDown || failure { return None; }
      job := Some(jobQueue[0]);
      jobQueue := jobQueue[1..];
      activeJobs := activeJobs + 1;
    }

    method RequeueJob(job: nat, reason: string, fatal: bool)
      modifies `jobQueue, `activeJobs, `failure, `failureReason, `shuttingDown
      ensures failure == (old(failure) || fatal) && shuttingDown == (old(shuttingDown) || fatal)
      ensures failureReason == if fatal && old(failureReason) == "" then reason else old(failureReason)
      ensures activeJobs == if old(activeJobs) > 0 then old(activeJobs) - 1 else 0
      ensures jobQueue == if shuttingDown || failure then [] else old(jobQueue) + [job]
    {
      if fatal {
        failure := true;
        if failureReason == "" { failureReason := reason; }
        shuttingDown := true;
      } else {
        jobQueue := jobQueue + [job];
      }
      if activeJobs > 0 { activeJobs := activeJobs - 1; }
      if shuttingDown || failure { jobQueue := []; }
    }

    /** The body of `acquire_peer_state` after its wait: the first peer with room, in turn. */
    method AcquirePeerState() returns (slot: Option<nat>)
      requires |peerStates| > 0
      modifies `peerStates, `nextPeerIndex
      ensures slot == if shuttingDown || failure then None else ScanFrom(cfg, old(peerStates), old(nextPeerIndex), 0)
      ensures slot.None? ==> unchanged(this)
      ensures slot.Some? ==>
        slot.value < |old(peerStates)| &&
        var peer := old(peerStates)[slot.value];
        peerStates == old(peerStates)[slot.value := peer.(outstanding := peer.outstanding + 1)] &&
        nextPeerIndex == (slot.value + 1) % |old(peerStates)|
    {
      if shuttingDown || failure { return None; }
      var start := nextPeerIndex;
      for i := 0 to |peerStates|
        invariant unchanged(this)
        invariant ScanFrom(cfg, peerStates, start, 0) == ScanFrom(cfg, peerStates, start, i)
      {
        var idx := (start + i) % |peerStates|;
        if peerStates[idx].outstanding < PerPeerLimit(cfg) {
          peerStates := peerStates[idx := peerStates[idx].(outstanding := peerStates[idx].outstanding + 1)];
          nextPeerIndex := (idx + 1) % |peerStates|;
          return Some(idx);
        }
      }
      slot := None;
    }

    method ReleasePeerState(slot: nat)
      requires slot < |peerStates|
      modifies `peerStates
      ensures var peer := old(peerStates)[slot];
              var left := if peer.outstanding > 0 then peer.outstanding - 1 else 0;
              peerStates == old(peerStates)[slot := peer.(outstanding := left)]
    {
      if peerStates[slot].outstanding > 0 {
        peerStates := peerStates[slot := peerStates[slot].(outstanding := peerStates[slot].outstanding - 1)];
      }
    }

    method AddPeerState(id: string) returns (added: bool)
      modifies `peerStates, `peerStats
      ensures added == (id != "" && !KnownPeer(old(peerStates), id))
      ensures added ==> Enabled(cfg, old(Abs()), AddPeer(id))
      ensures added ==>
        peerStates == old(peerStates) + [Peer(id, 0)] && peerStats == old(peerStats)[id := StatOf(old(peerStats), id)]
      ensures !added ==> unchanged(this)
    {
      if id == "" || KnownPeer(peerStates, id) { return false; }
      peerStates := peerStates + [Peer(id, 0)];
      peerStats := peerStats[id := StatOf(peerStats, id)];
      added := true;
    }

    // -------------------------------------------------------------- the worker

    /** The waits of worker `w` are over, if it is in one. */
    predicate Ready(w: nat)
      reads this
    {
      && w < |workers| && !workers[w].Exited?
      && (workers[w].Taking? ==> shuttingDown || failure || jobQueue != [])
      && (workers[w].Acquiring? ==> shuttingDown || failure || HasCapacity(cfg, peerStates))
    }

    method SetStage(w: nat, st: Stage)
      requires w < |workers|
      modifies `workers
      ensures workers == old(workers)[w := st]
    {
      workers := workers[w := st];
    }

    method StepTake(w: nat)
      requires Shaped(cfg, Abs()) && Ready(w) && workers[w].Taking?
      modifies `activeJobs, `jobQueue, `peerStates, `nextPeerIndex, `workers
      ensures Abs() == Apply(cfg, old(Abs()), Action.TakeJob(w))
    {
      var job := TakeJob();
      SetStage(w, if job.Some? then Acquiring(job.value) else Exited);
    }

    method StepAcquire(w: nat)
      requires Shaped(cfg, Abs()) && Ready(w) && workers[w].Acquiring?
      modifies `activeJobs, `jobQueue, `peerStates, `nextPeerIndex, `workers
      ensures Abs() == Apply(cfg, old(Abs()), AcquirePeer(w))
    {
      var job := workers[w].job;
      var slot := AcquirePeerState();
      SetStage(w, if slot.Some? then Fetching(job, slot.value) else Requeueing(job, SHUTDOWN, true, true));
    }

    /** The fetcher is called. */
    method Ask(world: World, t: nat, peer: string, offset: nat, length: nat) returns (resp: Response)
      modifies `calls
      ensures resp == world.fetch(t, peer, offset, length)
      ensures calls == old(calls) + [Call(peer, offset, length, resp)]
    {
      resp := world.fetch(t, peer, offset, length);
      calls := calls + [Call(peer, offset, length, resp)];
    }

    method StepFetch(w: nat, world: World, t: nat) returns (ghost a: Action)
      requires Shaped(cfg, Abs()) && Ready(w) && workers[w].Fetching?
      modifies this
      ensures a.Fetch? && Enabled(cfg, old(Abs()), a) && Abs() == Apply(cfg, old(Abs()), a)
      ensures calls == old(calls) + StepCalls(cfg, old(Abs()), a)
      ensures StepFrom(world, cfg, old(Abs()), a)
    {
      assert StageShaped(cfg, Abs(), workers[w]);
      var job, slot := workers[w].job, workers[w].slot;
      var resp := Ask(world, t, peerStates[slot].id, ChunkOffset(cfg, job), ChunkLength(cfg, job));
      fetches := fetches[job := fetches[job] + 1];
      SetStage(w, Releasing(job, slot, resp));
      a := Fetch(w, resp);
      assert Called(world, t, StepCalls(cfg, old(Abs()), a)[0]);
    }

    method StepRelease(w: nat)
      requires Shaped(cfg, Abs()) && Ready(w) && workers[w].Releasing?
      modifies `activeJobs, `jobQueue, `peerStates, `nextPeerIndex, `workers
      ensures Abs() == Apply(cfg, old(Abs()), ReleasePeer(w))
    {
      assert StageShaped(cfg, Abs(), workers[w]);
      var Releasing(job, slot, resp) := workers[w];
      ReleasePeerState(slot);
      SetStage(w, Judging(job, slot, resp));
    }

    method StepJudge(w: nat)
      requires w < |workers| && workers[w].Judging? && workers[w].job < |attempts|
      modifies `attempts, `workers
      ensures Abs() == AfterJudge(cfg, old(Abs()), w)
    {
      hide AttemptLimit;
      var Judging(job, slot, resp) := workers[w];
      if !resp.success || resp.data == [] {
        attempts := attempts[job := attempts[job] + 1];
        SetStage(w, Requeueing(job, NOT_DOWNLOADED, attempts[job] >= AttemptLimit(|peerStates|), false));
      } else if resp.chunkSha != "" && resp.chunkSha != cfg.sha(resp.data) {
        attempts := attempts[job := attempts[job] + 1];
        SetStage(w, Requeueing(job, BAD_CHECKSUM, attempts[job] >= AttemptLimit(|peerStates|), false));
      } else {
        SetStage(w, Writing(job, slot, resp.data));
      }
    }

    method StepWrite(w: nat, world: World, t: nat) returns (ghost a: Action)
      requires w < |workers| && workers[w].Writing? && workers[w].job < |writes|
      modifies `staging, `writes, `workers
      ensures a.Write? && a.w == w && Abs() == AfterWrite(cfg, old(Abs()), w, a.result)
      ensures a.result == world.write(t, ChunkOffset(cfg, old(workers)[w].job), old(workers)[w].data)
    {
      hide Splice;
      var Writing(job, slot, data) := workers[w];
      var result := world.write(t, ChunkOffset(cfg, job), data);
      a := Write(w, result);
      match result {
        case Written =>
          staging := Splice(staging, ChunkOffset(cfg, job), data);
          writes := writes[job := writes[job] + 1];
          SetStage(w, Recording(job, slot, data));
        case WriteFailed(left) =>
          staging := left;
          SetStage(w, Requeueing(job, NOT_WRITTEN, true, true));
      }
    }

    method StepRecord(w: nat)
      requires w < |workers| && workers[w].Recording? && workers[w].job < |chunkStates|
      requires workers[w].slot < |peerStates|
      modifies `chunkStates, `downloadedBytes, `activePeerCount, `peerStats, `workers
      ensures Abs() == AfterRecord(old(Abs()), w)
    {
      hide StatOf;
      var Recording(job, slot, data) := workers[w];
      chunkStates := chunkStates[job := 1];
      Credit(peerStates[slot].id, |data|);
      SetStage(w, Completing(job));
    }

    /** Add a chunk of `n` bytes to the totals and to the peer's figures. */
    method Credit(id: string, n: nat)
      modifies `downloadedBytes, `activePeerCount, `peerStats
      ensures downloadedBytes == old(downloadedBytes) + n
      ensures activePeerCount == old(activePeerCount) + if StatOf(old(peerStats), id).bytes == 0 then 1 else 0
      ensures var stat := StatOf(old(peerStats), id);
              peerStats == old(peerStats)[id := Stat(stat.chunks + 1, stat.bytes + n)]
    {
      downloadedBytes := downloadedBytes + n;
      var stat := StatOf(peerStats, id);
      if stat.bytes == 0 { activePeerCount := activePeerCount + 1; }
      peerStats := peerStats[id := Stat(stat.chunks + 1, stat.bytes + n)];
    }

    method StepComplete(w: nat)
      requires w < |workers| && workers[w].Completing?
      modifies `completedJobs, `activeJobs, `shuttingDown, `workers
      ensures Abs() == AfterComplete(cfg, old(Abs()), w)
    {
      if completedJobs < cfg.totalChunks { completedJobs := completedJobs + 1; }
      if activeJobs > 0 { activeJobs := activeJobs - 1; }
      if completedJobs >= cfg.totalChunks && !shuttingDown { shuttingDown := true; }
      SetStage(w, Top);
    }

    method StepRequeue(w: nat)
      requires w < |workers| && workers[w].Requeueing?
      modifies `jobQueue, `activeJobs, `failure, `failureReason, `shuttingDown, `workers
      ensures Abs() == AfterRequeue(old(Abs()), w)
    {
      var Requeueing(job, reason, fatal, quits) := workers[w];
      RequeueJob(job, reason, fatal);
      SetStage(w, if quits then Exited else Top);
    }

    /** One atomic step of worker `w`. */
    method Step(w: nat, world: World, t: nat) returns (ghost a: Action)
      requires Shaped(cfg, Abs()) && Ready(w)
      modifies this
      ensures !a.AddPeer? && Enabled(cfg, old(Abs()), a) && Abs() == Apply(cfg, old(Abs()), a)
      ensures calls == old(calls) + StepCalls(cfg, old(Abs()), a)
      ensures StepFrom(world, cfg, old(Abs()), a)
    {
      hide Shaped, StatOf, Splice, ScanFrom, Accepted, AttemptLimit;
      StageIsShaped(cfg, Abs(), w);
      if workers[w].Judging? || workers[w].Writing? || workers[w].Recording? || workers[w].Completing? ||
        workers[w].Requeueing? {
        a := StepWithAnswer(w, world, t);
        return;
      }
      match workers[w]
      case Top =>
        a := CheckFailure(w);
        SetStage(w, if failure then Exited else Taking);
      case Taking => a := Action.TakeJob(w); StepTake(w);
      case Acquiring(_) => a := AcquirePeer(w); StepAcquire(w);
      case Fetching(_, _) => a := StepFetch(w, world, t);
      case Releasing(_, _, _) => a := ReleasePeer(w); StepRelease(w);
      case _ => a := Requeue(w);
    }

    /** The steps that follow once the answer of a peer is there. */
    method StepWithAnswer(w: nat, world: World, t: nat) returns (ghost a: Action)
      requires Shaped(cfg, Abs()) && Ready(w)
      requires workers[w].Judging? || workers[w].Writing? || workers[w].Recording? || workers[w].Completing? ||
        workers[w].Requeueing?
      modifies this
      ensures !a.AddPeer? && !a.Fetch? && Enabled(cfg, old(Abs()), a) && Abs() == Apply(cfg, old(Abs()), a)
      ensures calls == old(calls) && StepFrom(world, cfg, old(Abs()), a)
    {
      hide Shaped, StatOf, Splice, ScanFrom, Accepted, AttemptLimit;
      StageIsShaped(cfg, Abs(), w);
      if workers[w].Judging? {
        a := Judge(w);
        StepJudge(w);
      } else if workers[w].Writing? {
        a := StepWrite(w, world, t);
      } else if workers[w].Recording? {
        a := Record(w);
        StepRecord(w);
      } else if workers[w].Completing? {
        a := Complete(w);
        StepComplete(w);
      } else {
        a := Requeue(w);
        StepRequeue(w);
      }
    }

    /** What holds whenever no step is under way. */
    ghost predicate Sound(all: set<string>, m: nat)
      reads this
    {
      && JobInv(cfg, Abs()) && CapInv(cfg, Abs()) && TryInv(cfg, Abs(), m) && |all| <= m
      && forall p :: 0 <= p < |peerStates| ==> peerStates[p].id in all
    }

    /** The refresh thread reports a peer, which may be known already. */
    method Arrive(id: string, world: World, ghost t: nat, ghost all: set<string>, ghost m: nat)
      returns (ghost acts: seq<Action>)
      requires Sound(all, m) && id in all && world.arrive(t) == Some(id)
      modifies this
      ensures Sound(all, m) && workers == old(workers)
      ensures Exec(cfg, old(Abs()), acts) == Some(Abs())
      ensures 0 <= Potential(cfg, Abs(), m) <= old(Potential(cfg, Abs(), m))
      ensures calls == old(calls) && CallsOf(cfg, old(Abs()), acts) == []
      ensures RunFrom(world, cfg, old(Abs()), acts)
      ensures acts == if id != "" && !KnownPeer(old(peerStates), id) then [AddPeer(id)] else []
      ensures old(peerStates) <= peerStates && (id != "" ==> KnownPeer(peerStates, id))
    {
      hide JobInv, TryInv, Potential, Shaped;
      ghost var s := Abs();
      SoundPotential(cfg, s, m);
      var added := AddPeerState(id);
      acts := [];
      if added {
        AddedPeer(cfg, s, Abs(), id, all, m);
        StepInvariants(cfg, s, AddPeer(id), m);
        OneStepRun(world, cfg, s, AddPeer(id));
        acts := [AddPeer(id)];
        assert peerStates[|peerStates| - 1].id == id;
      }
    }

    /** Some worker whose turn it can be makes a step. */
    method Advance(world: World, ghost all: set<string>, ghost m: nat, t: nat) returns (ghost acts: seq<Action>)
      requires Sound(all, m) && exists w :: 0 <= w < |workers| && !workers[w].Exited?
      modifies this
      ensures Sound(all, m)
      ensures Exec(cfg, old(Abs()), acts) == Some(Abs())
      ensures 0 <= Potential(cfg, Abs(), m) < old(Potential(cfg, Abs(), m))
      ensures calls == old(calls) + CallsOf(cfg, old(Abs()), acts)
      ensures RunFrom(world, cfg, old(Abs()), acts)
      ensures |acts| == 1 && !acts[0].AddPeer? && SameNames(old(peerStates), peerStates)
    {
      hide JobInv, CapInv, TryInv, Potential, Shaped, Apply, Enabled, StepFrom, StepCalls;
      ghost var s := Abs();
      SomeoneReady();
      JobInvShape(cfg, s);
      var w :| 0 <= w < |workers| && Ready(w);
      ghost var a := Step(w, world, t);
      StepKeepsPeers(cfg, s, a);
      StepInvariants(cfg, s, a, m);
      OneStepRun(world, cfg, s, a);
      acts := [a];
    }

    /** A round of the schedule: the refresh thread may bring a peer, and then some worker that
        can move makes a step. */
    method Round(world: World, ghost all: set<string>, ghost m: nat, t: nat) returns (ghost acts: seq<Action>)
      requires Sound(all, m) && exists w :: 0 <= w < |workers| && !workers[w].Exited?
      requires world.arrive(t).Some? ==> world.arrive(t).value in all
      modifies this
      ensures Sound(all, m)
      ensures Exec(cfg, old(Abs()), acts) == Some(Abs())
      ensures 0 <= Potential(cfg, Abs(), m) < old(Potential(cfg, Abs(), m))
      ensures calls == old(calls) + CallsOf(cfg, old(Abs()), acts)
      ensures RunFrom(world, cfg, old(Abs()), acts)
      ensures WorkerSteps(acts) == 1 && KeptNames(old(peerStates), peerStates) && Taken(world, t, peerStates)
    {
      hide JobInv, CapInv, TryInv, Potential, StepFrom, StepCalls, CallsOf, RunFrom, Exec;
      var arrival := world.arrive(t);
      if arrival.Some? {
        acts := Arrive(arrival.value, world, t, all, m);
        ghost var arrived := peerStates;
        ghost var step := Advance(world, all, m, t);
        JoinRuns(world, cfg, old(Abs()), acts, step);
        NamesGrow(world, t, old(peerStates), arrived, peerStates);
        OneStepMore(acts, step[0]);
        assert step == [step[0]];
        acts := acts + step;
      } else {
        acts := Advance(world, all, m, t);
        OneStepMore([], acts[0]);
        assert [] + [acts[0]] == acts;
      }
    }

    /** Starting the threads and joining them: rounds are made until every worker has exited.
        `all` are the peers that may ever turn up. */
    method RunWorkers(world: World, ghost all: set<string>, ghost m: nat)
      returns (ghost acts: seq<Action>, ghost rounds: nat)
      requires Sound(all, m)
      requires forall t: nat :: world.arrive(t).Some? ==> world.arrive(t).value in all
      modifies this
      ensures Sound(all, m) && AllExited(Abs())
      ensures Exec(cfg, old(Abs()), acts) == Some(Abs())
      ensures calls == old(calls) + CallsOf(cfg, old(Abs()), acts)
      ensures RunFrom(world, cfg, old(Abs()), acts)
      // every peer that has arrived in a round in which some worker moved is known
      ensures WorkerSteps(acts) == rounds && forall k :: 0 <= k < rounds ==> Taken(world, k, peerStates)
    {
      hide Sound, Potential, StepFrom, StepCalls, CallsOf, RunFrom, Exec, KeptNames, Taken, WorkerSteps;
      ghost var start := Abs();
      acts, rounds := [], 0;
      var t := 0;
      NothingRun(world, cfg, start);
      SoundIsPositive(all, m);
      while exists w :: 0 <= w < |workers| && !workers[w].Exited?
        invariant Sound(all, m) && 0 <= Potential(cfg, Abs(), m)
        invariant Exec(cfg, start, acts) == Some(Abs())
        invariant calls == old(calls) + CallsOf(cfg, start, acts)
        invariant RunFrom(world, cfg, start, acts)
        invariant WorkerSteps(acts) == rounds == t && forall k :: 0 <= k < t ==> Taken(world, k, peerStates)
        decreases Potential(cfg, Abs(), m)
      {
        ghost var before := peerStates;
        ghost var more := Round(world, all, m, t);
        JoinRuns(world, cfg, start, acts, more);
        StepsAdd(acts, more);
        StillTaken(world, t, before, peerStates);
        acts := acts + more;
        t, rounds := t + 1, rounds + 1;
      }
    }

    lemma SoundIsPositive(all: set<string>, m: nat)
      requires Sound(all, m)
      ensures 0 <= Potential(cfg, Abs(), m)
    {
      SoundPotential(cfg, Abs(), m);
    }

    /** Deadlock freedom, for the scheduler: somebody is ready. */
    lemma SomeoneReady()
      requires JobInv(cfg, Abs()) && CapInv(cfg, Abs())
      requires exists w :: 0 <= w < |workers| && !workers[w].Exited?
      ensures exists w :: 0 <= w < |workers| && Ready(w)
    {
      var w :| 0 <= w < |workers| && !workers[w].Exited?;
      SomeoneMoves(cfg, Abs(), w);
      var v: nat :| v < |workers| && CanMove(cfg, Abs(), v);
      assert Ready(v);
    }
  }

  predicate SameNames(a: seq<Peer>, b: seq<Peer>) {
    |a| == |b| && forall p :: 0 <= p < |a| ==> a[p].id == b[p].id
  }

  predicate KeptNames(a: seq<Peer>, b: seq<Peer>) {
    |a| <= |b| && forall p :: 0 <= p < |a| ==> a[p].id == b[p].id
  }

  /** The peer that arrived in round `k`, if any, is one of these. */
  predicate Taken(world: World, k: nat, peers: seq<Peer>) {
    world.arrive(k).Some? && world.arrive(k).value != "" ==> KnownPeer(peers, world.arrive(k).value)
  }

  lemma NamesGrow(world: World, t: nat, a: seq<Peer>, b: seq<Peer>, c: seq<Peer>)
    requires a <= b && SameNames(b, c) && Taken(world, t, b)
    ensures KeptNames(a, c) && Taken(world, t, c)
  {
    if world.arrive(t).Some? && world.arrive(t).value != "" {
      var p :| 0 <= p < |b| && b[p].id == world.arrive(t).value;
      assert c[p].id == b[p].id;
    }
  }

  lemma StillTaken(world: World, n: nat, a: seq<Peer>, b: seq<Peer>)
    requires KeptNames(a, b) && forall k :: 0 <= k < n ==> Taken(world, k, a)
    ensures forall k :: 0 <= k < n ==> Taken(world, k, b)
  {
    forall k | 0 <= k < n && world.arrive(k).Some? && world.arrive(k).value != ""
      ensures KnownPeer(b, world.arrive(k).value)
    {
      assert Taken(world, k, a);
      var p :| 0 <= p < |a| && a[p].id == world.arrive(k).value;
      assert b[p].id == a[p].id;
    }
  }

  /** How many of the actions are steps of workers. */
  function WorkerSteps(acts: seq<Action>): nat {
    if acts == [] then 0 else (if acts[0].AddPeer? then 0 else 1) + WorkerSteps(acts[1..])
  }

  lemma {:induction false} StepsAdd(acts: seq<Action>, more: seq<Action>)
    ensures WorkerSteps(acts + more) == WorkerSteps(acts) + WorkerSteps(more)
  {
    if acts == [] {
      assert [] + more == more;
    } else {
      assert (acts + more)[1..] == acts[1..] + more;
      StepsAdd(acts[1..], more);
    }
  }

  lemma OneStepMore(acts: seq<Action>, a: Action)
    requires |acts| <= 1 && (forall i :: 0 <= i < |acts| ==> acts[i].AddPeer?) && !a.AddPeer?
    ensures WorkerSteps(acts + [a]) == 1
  {
    StepsAdd(acts, [a]);
    assert [a][1..] == [] && (acts != [] ==> acts[1..] == []);
  }

  lemma StageIsShaped(cfg: Config, s: State, w: nat)
    requires Shaped(cfg, s) && w < |s.workers|
    ensures StageShaped(cfg, s, s.workers[w]) && |s.attempts| == |s.chunkStates| == |s.writes| == cfg.totalChunks
  {
  }

  lemma JobInvShape(cfg: Config, s: State)
    requires JobInv(cfg, s)
    ensures Shaped(cfg, s) && |s.chunkStates| == cfg.totalChunks && |s.peers| > 0
  {
  }

  /** Peers have distinct names out of `all`, so there are at most |all| of them. */
  lemma PeersWithin(s: State, all: set<string>)
    requires DistinctIds(s.peers) && forall p :: 0 <= p < |s.peers| ==> s.peers[p].id in all
    ensures |s.peers| <= |all|
  {
    var ids := seq(|s.peers|, p requires 0 <= p < |s.peers| => s.peers[p].id);
    DistinctAtMost(ids, all);
  }

  lemma AddedPeer(cfg: Config, s: State, t: State, id: string, all: set<string>, m: nat)
    requires CapInv(cfg, s) && Enabled(cfg, s, AddPeer(id)) && id in all && |all| <= m
    requires t == s.(peers := s.peers + [Peer(id, 0)], stats := s.stats[id := StatOf(s.stats, id)])
    requires forall p :: 0 <= p < |s.peers| ==> s.peers[p].id in all
    ensures Shaped(cfg, s) && t == Apply(cfg, s, AddPeer(id)) && |t.peers| <= m
  {
    CapInvStep(cfg, s, AddPeer(id));
    PeersWithin(t, all);
  }

  lemma StepKeepsPeers(cfg: Config, s: State, a: Action)
    requires Shaped(cfg, s) && Enabled(cfg, s, a) && !a.AddPeer?
    ensures |Apply(cfg, s, a).peers| == |s.peers|
    ensures forall p :: 0 <= p < |s.peers| ==> Apply(cfg, s, a).peers[p].id == s.peers[p].id
  {
  }

  lemma StepInvariants(cfg: Config, s: State, a: Action, m: nat)
    requires JobInv(cfg, s) && CapInv(cfg, s) && TryInv(cfg, s, m)
    requires Shaped(cfg, s) && Enabled(cfg, s, a)
    requires |Apply(cfg, s, a).peers| <= m || |Apply(cfg, s, a).peers| == |s.peers|
    ensures var t := Apply(cfg, s, a);
            JobInv(cfg, t) && CapInv(cfg, t) && TryInv(cfg, t, m) && 0 <= Potential(cfg, t, m) < Potential(cfg, s, m)
  {
    JobInvStep(cfg, s, a);
    CapInvStep(cfg, s, a);
    TryInvStep(cfg, s, a, m);
    PotentialFalls(cfg, s, a, m);
    PotentialPositive(cfg, Apply(cfg, s, a), m);
  }

  lemma SoundPotential(cfg: Config, s: State, m: nat)
    requires TryInv(cfg, s, m)
    ensures 0 <= Potential(cfg, s, m)
  {
    PotentialPositive(cfg, s, m);
  }

  lemma {:induction false} ExecJoin(cfg: Config, s: State, acts: seq<Action>, more: seq<Action>)
    requires Exec(cfg, s, acts).Some?
    ensures Exec(cfg, s, acts + more) == Exec(cfg, Exec(cfg, s, acts).value, more)
    decreases |acts|
  {
    if acts == [] {
      assert [] + more == more;
    } else {
      assert (acts + more)[1..] == acts[1..] + more;
      ExecJoin(cfg, Apply(cfg, s, acts[0]), acts[1..], more);
    }
  }

  lemma {:induction false} JoinRuns(world: World, cfg: Config, s: State, acts: seq<Action>, more: seq<Action>)
    requires Exec(cfg, s, acts).Some? && RunFrom(world, cfg, s, acts)
    requires RunFrom(world, cfg, Exec(cfg, s, acts).value, more)
    ensures Exec(cfg, s, acts + more) == Exec(cfg, Exec(cfg, s, acts).value, more)
    ensures RunFrom(world, cfg, s, acts + more)
    ensures CallsOf(cfg, s, acts + more) == CallsOf(cfg, s, acts) + CallsOf(cfg, Exec(cfg, s, acts).value, more)
    decreases |acts|
  {
    ExecJoin(cfg, s, acts, more);
    hide StepFrom, StepCalls;
    if acts == [] {
      assert [] + more == more;
    } else {
      assert (acts + more)[1..] == acts[1..] + more;
      JoinRuns(world, cfg, Apply(cfg, s, acts[0]), acts[1..], more);
    }
  }

  lemma NothingRun(world: World, cfg: Config, s: State)
    ensures Exec(cfg, s, []) == Some(s) && RunFrom(world, cfg, s, []) && CallsOf(cfg, s, []) == []
    ensures WorkerSteps([]) == 0
  {
  }

  lemma OneStepRun(world: World, cfg: Config, s: State, a: Action)
    requires Shaped(cfg, s) && Enabled(cfg, s, a) && StepFrom(world, cfg, s, a)
    ensures Exec(cfg, s, [a]) == Some(Apply(cfg, s, a))
    ensures RunFrom(world, cfg, s, [a]) && CallsOf(cfg, s, [a]) == StepCalls(cfg, s, a)
  {
    hide StepFrom, StepCalls;
    assert [a][1..] == [];
  }

  // ---------------------------------------------------------------- the calls of a run

  /** THE PEER ACQUIRED IS THE PEER ASKED.  A worker acquires a peer, other workers move and
      peers arrive, and then it calls the fetcher: the call goes to the one peer whose count of
      outstanding requests the acquisition has raised. */
  lemma AskedIsAcquired(cfg: Config, s: State, w: nat, between: seq<Action>, resp: Response)
    requires Shaped(cfg, s) && Enabled(cfg, s, AcquirePeer(w)) && Others(w, between)
    requires Exec(cfg, Apply(cfg, s, AcquirePeer(w)), between).Some?
    requires var u := Exec(cfg, Apply(cfg, s, AcquirePeer(w)), between).value;
             Shaped(cfg, u) && Enabled(cfg, u, Fetch(w, resp))
    ensures var t := Apply(cfg, s, AcquirePeer(w));
            var u := Exec(cfg, t, between).value;
            exists p: nat :: p < |s.peers| == |t.peers|
              && t.peers == s.peers[p := Peer(s.peers[p].id, s.peers[p].outstanding + 1)]
              && StepCalls(cfg, u, Fetch(w, resp)) ==
                   [Call(s.peers[p].id, ChunkOffset(cfg, s.workers[w].job), ChunkLength(cfg, s.workers[w].job), resp)]
  {
    hide ScanFrom, HasCapacity;
    var t := Apply(cfg, s, AcquirePeer(w));
    OthersLeave(cfg, t, w, between);
    var p := t.workers[w].slot;
    assert t.peers == s.peers[p := Peer(s.peers[p].id, s.peers[p].outstanding + 1)];
  }

  predicate Others(w: nat, acts: seq<Action>) {
    forall i :: 0 <= i < |acts| ==> acts[i].AddPeer? || acts[i].w != w
  }

  /** What the others do leaves a worker where it is, and the peers their places. */
  lemma {:induction false} OthersLeave(cfg: Config, s: State, w: nat, acts: seq<Action>)
    requires Exec(cfg, s, acts).Some? && Others(w, acts) && w < |s.workers|
    ensures var t := Exec(cfg, s, acts).value;
            && w < |t.workers| && t.workers[w] == s.workers[w] && |s.peers| <= |t.peers|
            && forall p :: 0 <= p < |s.peers| ==> t.peers[p].id == s.peers[p].id
    decreases |acts|
  {
    if acts != [] {
      OtherLeaves(cfg, s, w, acts[0]);
      OthersLeave(cfg, Apply(cfg, s, acts[0]), w, acts[1..]);
    }
  }

  lemma OtherLeaves(cfg: Config, s: State, w: nat, a: Action)
    requires Shaped(cfg, s) && Enabled(cfg, s, a) && (a.AddPeer? || a.w != w) && w < |s.workers|
    ensures var t := Apply(cfg, s, a);
            && w < |t.workers| && t.workers[w] == s.workers[w] && |s.peers| <= |t.peers|
            && forall p :: 0 <= p < |s.peers| ==> t.peers[p].id == s.peers[p].id
  {
    hide ScanFrom, HasCapacity, Splice, Accepted, AttemptLimit;
  }

  ghost predicate AsksFor(cfg: Config, c: Call, job: nat) {
    job < cfg.totalChunks && c.offset == ChunkOffset(cfg, job) && c.length == ChunkLength(cfg, job)
  }

  ghost function NamesOf(peers: seq<Peer>): set<string> { set p | 0 <= p < |peers| :: peers[p].id }

  lemma StepCallsKnown(cfg: Config, s: State, a: Action)
    requires Shaped(cfg, s) && Enabled(cfg, s, a)
    ensures forall c :: c in StepCalls(cfg, s, a) ==>
              c.peer in NamesOf(s.peers) && exists job: nat :: AsksFor(cfg, c, job)
    ensures NamesOf(s.peers) <= NamesOf(Apply(cfg, s, a).peers)
  {
    if a.Fetch? {
      assert StageShaped(cfg, s, s.workers[a.w]);
      assert AsksFor(cfg, CallOf(cfg, s, a.w, a.resp), s.workers[a.w].job);
    }
    hide ScanFrom, HasCapacity, Splice, Accepted, AttemptLimit;
    var t := Apply(cfg, s, a);
    assert forall p :: 0 <= p < |s.peers| ==> p < |t.peers| && t.peers[p].id == s.peers[p].id;
  }

  /** Only peers of the swarm are asked, for chunks of the file, and the answers are the world's. */
  lemma {:induction false} CallsAreKnown(world: World, cfg: Config, s: State, acts: seq<Action>)
    requires Exec(cfg, s, acts).Some? && RunFrom(world, cfg, s, acts)
    ensures NamesOf(s.peers) <= NamesOf(Exec(cfg, s, acts).value.peers)
    ensures forall c :: c in CallsOf(cfg, s, acts) ==>
              c.peer in NamesOf(Exec(cfg, s, acts).value.peers) &&
              (exists job: nat :: AsksFor(cfg, c, job)) && (exists t: nat :: Called(world, t, c))
    decreases |acts|
  {
    hide NamesOf, AsksFor, Called;
    if acts != [] {
      StepCallsKnown(cfg, s, acts[0]);
      CallsAreKnown(world, cfg, Apply(cfg, s, acts[0]), acts[1..]);
    }
  }

  /** If all calls were served, so was the run. */
  lemma {:induction false} CallsServeRun(cfg: Config, s: State, acts: seq<Action>, file: seq<byte>)
    requires Exec(cfg, s, acts).Some? && CallsServed(cfg, CallsOf(cfg, s, acts), file)
    ensures RunServed(cfg, s, acts, file)
    decreases |acts|
  {
    if acts != [] {
      var a := acts[0];
      if a.Fetch? {
        var c := StepCalls(cfg, s, a)[0];
        assert c in CallsOf(cfg, s, acts) && Served(cfg, c, file);
        assert forall id :: ChunkRequest(cfg, s.workers[a.w].job, id) == Request(id, cfg.hash, c.offset, c.length);
      }
      CallsServeRun(cfg, Apply(cfg, s, a), acts[1..], file);
    }
  }

  /** What a worker has in hand once its peer has answered is the answer to one of the calls;
      what it is about to write has passed the checks. */
  ghost predicate InHand(cfg: Config, calls: seq<Call>, st: Stage) {
    && (st.Releasing? || st.Judging? ==> exists c :: c in calls && Answered(cfg, c, st.job, st.resp))
    && (st.Writing? ==> exists c :: c in calls && Checked(cfg, c, st.job, st.data))
  }

  predicate Answered(cfg: Config, c: Call, job: nat, resp: Response) {
    c.offset == ChunkOffset(cfg, job) && c.length == ChunkLength(cfg, job) && c.resp == resp
  }

  predicate Checked(cfg: Config, c: Call, job: nat, data: seq<byte>) {
    && c.offset == ChunkOffset(cfg, job) && c.length == ChunkLength(cfg, job)
    && c.resp.success && c.resp.data == data && data != []
    && (c.resp.chunkSha == "" || c.resp.chunkSha == cfg.sha(data))
  }

  lemma StillInHand(cfg: Config, calls: seq<Call>, more: seq<Call>, st: Stage)
    requires InHand(cfg, calls, st)
    ensures InHand(cfg, calls + more, st)
  {
  }

  lemma MoverInHand(cfg: Config, calls: seq<Call>, s: State, a: Action)
    requires Shaped(cfg, s) && Enabled(cfg, s, a) && !a.AddPeer? && InHand(cfg, calls, s.workers[a.w])
    ensures InHand(cfg, calls + StepCalls(cfg, s, a), Apply(cfg, s, a).workers[a.w])
  {
    hide ScanFrom, HasCapacity, Splice, AttemptLimit;
    if a.Fetch? {
      var c := StepCalls(cfg, s, a)[0];
      assert c in calls + StepCalls(cfg, s, a) && Answered(cfg, c, s.workers[a.w].job, a.resp);
    } else {
      assert calls + StepCalls(cfg, s, a) == calls;
      if a.Judge? && Accepted(cfg, s.workers[a.w].resp) {
        var c :| c in calls && Answered(cfg, c, s.workers[a.w].job, s.workers[a.w].resp);
        assert Checked(cfg, c, s.workers[a.w].job, s.workers[a.w].resp.data);
      }
    }
  }

  lemma OneStepInHand(cfg: Config, calls: seq<Call>, s: State, a: Action)
    requires Shaped(cfg, s) && Enabled(cfg, s, a)
    requires forall w :: 0 <= w < |s.workers| ==> InHand(cfg, calls, s.workers[w])
    ensures var t := Apply(cfg, s, a);
            forall w :: 0 <= w < |t.workers| ==> InHand(cfg, calls + StepCalls(cfg, s, a), t.workers[w])
  {
    hide InHand, StepCalls;
    var t := Apply(cfg, s, a);
    forall w | 0 <= w < |t.workers| ensures InHand(cfg, calls + StepCalls(cfg, s, a), t.workers[w]) {
      if !a.AddPeer? && a.w == w {
        MoverInHand(cfg, calls, s, a);
      } else {
        OtherKept(cfg, s, w, a);
        StillInHand(cfg, calls, StepCalls(cfg, s, a), s.workers[w]);
      }
    }
  }

  lemma {:induction false} InHandAlong(cfg: Config, calls: seq<Call>, s: State, acts: seq<Action>)
    requires Exec(cfg, s, acts).Some? && forall w :: 0 <= w < |s.workers| ==> InHand(cfg, calls, s.workers[w])
    ensures var t := Exec(cfg, s, acts).value;
            forall w :: 0 <= w < |t.workers| ==> InHand(cfg, calls + CallsOf(cfg, s, acts), t.workers[w])
    decreases |acts|
  {
    hide InHand, StepCalls;
    if acts == [] {
      assert calls + [] == calls;
    } else {
      var t, now := Apply(cfg, s, acts[0]), calls + StepCalls(cfg, s, acts[0]);
      OneStepInHand(cfg, calls, s, acts[0]);
      InHandAlong(cfg, now, t, acts[1..]);
      assert now + CallsOf(cfg, t, acts[1..]) == calls + CallsOf(cfg, s, acts);
    }
  }

  lemma OtherKept(cfg: Config, s: State, w: nat, a: Action)
    requires Shaped(cfg, s) && Enabled(cfg, s, a) && (a.AddPeer? || a.w != w)
    ensures var t := Apply(cfg, s, a); |t.workers| == |s.workers| && (w < |s.workers| ==> t.workers[w] == s.workers[w])
  {
    hide ScanFrom, HasCapacity, Splice, Accepted, AttemptLimit;
  }

  /** NOTHING UNCHECKED IS WRITTEN.  Whatever the peers answer, what a worker is about to write
      for a chunk is the data of a successful answer to a call for that very chunk, and not
      empty, and if the answer gave a digest it is the digest of the data. */
  lemma OnlyCheckedIsWritten(cfg: Config, ids: seq<string>, order: seq<nat>, states: seq<nat>, staging: seq<byte>,
                             reason: string, acts: seq<Action>, w: nat)
    requires Exec(cfg, Initial(cfg, ids, order, states, staging, reason), acts).Some?
    requires var t := Exec(cfg, Initial(cfg, ids, order, states, staging, reason), acts).value;
             w < |t.workers| && t.workers[w].Writing?
    ensures var s := Initial(cfg, ids, order, states, staging, reason);
            var st := Exec(cfg, s, acts).value.workers[w];
            exists c :: c in CallsOf(cfg, s, acts)
              && c.offset == ChunkOffset(cfg, st.job) && c.length == ChunkLength(cfg, st.job)
              && c.resp.success && c.resp.data == st.data && st.data != []
              && (c.resp.chunkSha == "" || c.resp.chunkSha == cfg.sha(st.data))
  {
    var s := Initial(cfg, ids, order, states, staging, reason);
    InHandAlong(cfg, [], s, acts);
    assert [] + CallsOf(cfg, s, acts) == CallsOf(cfg, s, acts);
    var st := Exec(cfg, s, acts).value.workers[w];
    var c :| c in CallsOf(cfg, s, acts) && Checked(cfg, c, st.job, st.data);
  }

  /** A reason that is true: some call brought no data, or data with a wrong digest, or some
      write failed. */
  ghost predicate Explained(cfg: Config, calls: seq<Call>, unwritten: bool, reason: string) {
    || reason == "" || reason == SHUTDOWN
    || (reason == NOT_DOWNLOADED && exists c :: c in calls && (!c.resp.success || c.resp.data == []))
    || (reason == BAD_CHECKSUM && exists c ::
                                    c in calls && c.resp.success && c.resp.chunkSha !in {"", cfg.sha(c.resp.data)})
    || (reason == NOT_WRITTEN && unwritten)
  }

  ghost predicate Explains(cfg: Config, calls: seq<Call>, unwritten: bool, s: State) {
    && Explained(cfg, calls, unwritten, s.reason)
    && forall w :: 0 <= w < |s.workers| && s.workers[w].Requeueing? ==>
         Explained(cfg, calls, unwritten, s.workers[w].reason)
  }

  predicate FailsToWrite(acts: seq<Action>) {
    exists i :: 0 <= i < |acts| && acts[i].Write? && acts[i].result.WriteFailed?
  }

  lemma StillExplained(cfg: Config, calls: seq<Call>, more: seq<Call>, unwritten: bool, also: bool, reason: string)
    requires Explained(cfg, calls, unwritten, reason) && (unwritten ==> also)
    ensures Explained(cfg, calls + more, also, reason)
  {
  }

  lemma MoverExplained(cfg: Config, calls: seq<Call>, unwritten: bool, s: State, a: Action)
    requires Shaped(cfg, s) && Enabled(cfg, s, a) && !a.AddPeer? && InHand(cfg, calls, s.workers[a.w])
    requires Explains(cfg, calls, unwritten, s) && (a.Write? && a.result.WriteFailed? ==> unwritten)
    ensures var t := Apply(cfg, s, a);
            && Explained(cfg, calls, unwritten, t.reason)
            && (t.workers[a.w].Requeueing? ==> Explained(cfg, calls, unwritten, t.workers[a.w].reason))
  {
    hide ScanFrom, HasCapacity, Splice, AttemptLimit;
    if a.Judge? {
      var c :| c in calls && Answered(cfg, c, s.workers[a.w].job, s.workers[a.w].resp);
    }
    if a.Requeue? { assert Explained(cfg, calls, unwritten, s.workers[a.w].reason); }
  }

  lemma {:induction false} ExplainedAlong(cfg: Config, calls: seq<Call>, unwritten: bool, s: State, acts: seq<Action>)
    requires Exec(cfg, s, acts).Some? && forall w :: 0 <= w < |s.workers| ==> InHand(cfg, calls, s.workers[w])
    requires Explains(cfg, calls, unwritten, s)
    ensures Explains(cfg, calls + CallsOf(cfg, s, acts), unwritten || FailsToWrite(acts), Exec(cfg, s, acts).value)
    decreases |acts|
  {
    hide InHand, StepCalls, Explained;
    if acts == [] {
      assert calls + [] == calls;
    } else {
      var a, t := acts[0], Apply(cfg, s, acts[0]);
      var now, also := calls + StepCalls(cfg, s, a), unwritten || (a.Write? && a.result.WriteFailed?);
      ExplainedStep(cfg, calls, unwritten, s, a);
      OneStepInHand(cfg, calls, s, a);
      ExplainedAlong(cfg, now, also, t, acts[1..]);
      assert now + CallsOf(cfg, t, acts[1..]) == calls + CallsOf(cfg, s, acts);
      assert FailsToWrite(acts) <==> (a.Write? && a.result.WriteFailed?) || FailsToWrite(acts[1..]) by {
        assert forall i :: 0 < i < |acts| ==> acts[i] == acts[1..][i - 1];
        assert forall i :: 0 <= i < |acts[1..]| ==> acts[1..][i] == acts[i + 1];
      }
    }
  }

  lemma ExplainedStep(cfg: Config, calls: seq<Call>, unwritten: bool, s: State, a: Action)
    requires Shaped(cfg, s) && Enabled(cfg, s, a)
    requires forall w :: 0 <= w < |s.workers| ==> InHand(cfg, calls, s.workers[w])
    requires Explains(cfg, calls, unwritten, s)
    ensures Explains(cfg, calls + StepCalls(cfg, s, a), unwritten ||
                     (a.Write? && a.result.WriteFailed?), Apply(cfg, s, a))
  {
    hide InHand, StepCalls, Explained;
    var t, also, more := Apply(cfg, s, a), unwritten || (a.Write? && a.result.WriteFailed?), StepCalls(cfg, s, a);
    if a.AddPeer? {
      StillExplained(cfg, calls, more, unwritten, also, s.reason);
    } else {
      assert Explains(cfg, calls, also, s) by {
        forall reason | Explained(cfg, calls, unwritten, reason) ensures Explained(cfg, calls, also, reason) {
          StillExplained(cfg, calls, [], unwritten, also, reason);
          assert calls + [] == calls;
        }
      }
      MoverExplained(cfg, calls, also, s, a);
      StillExplained(cfg, calls, more, also, also, t.reason);
    }
    forall w | 0 <= w < |t.workers| && t.workers[w].Requeueing?
      ensures Explained(cfg, calls + more, also, t.workers[w].reason)
    {
      if !a.AddPeer? && a.w == w {
        StillExplained(cfg, calls, more, also, also, t.workers[w].reason);
      } else {
        OtherKept(cfg, s, w, a);
        StillExplained(cfg, calls, more, unwritten, also, s.workers[w].reason);
      }
    }
  }

  /** THE REASON IS TRUE.  A download that reports that a chunk was not downloaded has asked for
      one in vain, one that reports a checksum has got data that disagree with their digest, and
      one that reports the disk has failed to write. */
  lemma ReasonIsTrue(cfg: Config, ids: seq<string>, order: seq<nat>, states: seq<nat>, staging: seq<byte>,
                     acts: seq<Action>)
    requires Exec(cfg, Initial(cfg, ids, order, states, staging, ""), acts).Some?
    ensures var s := Initial(cfg, ids, order, states, staging, "");
            var reason, calls := Exec(cfg, s, acts).value.reason, CallsOf(cfg, s, acts);
            && (reason == NOT_DOWNLOADED ==> exists c :: c in calls && (!c.resp.success || c.resp.data == []))
            && (reason == BAD_CHECKSUM ==>
                  exists c :: c in calls && c.resp.success && c.resp.chunkSha !in {"", cfg.sha(c.resp.data)})
            && (reason == NOT_WRITTEN ==> FailsToWrite(acts))
  {
    var s := Initial(cfg, ids, order, states, staging, "");
    ExplainedAlong(cfg, [], false, s, acts);
    assert [] + CallsOf(cfg, s, acts) == CallsOf(cfg, s, acts);
  }

  // ---------------------------------------------------------------- good worlds

  /** Peer `g` answers every request for a chunk, whenever it is made, with good data. */
  ghost predicate AlwaysGood(world: World, cfg: Config, g: string) {
    forall t: nat, job: nat :: job < cfg.totalChunks ==>
      Accepted(cfg, world.fetch(t, g, ChunkOffset(cfg, job), ChunkLength(cfg, job)))
  }

  ghost predicate DiskWorks(world: World) {
    forall t: nat, offset: nat, data: seq<byte> :: world.write(t, offset, data).Written?
  }

  ghost predicate PeersArrive(world: World) { exists t: nat :: world.arrive(t).Some? }

  lemma StepInGoodWorld(world: World, cfg: Config, s: State, a: Action, g: string)
    requires Shaped(cfg, s) && Enabled(cfg, s, a) && StepFrom(world, cfg, s, a)
    requires AlwaysGood(world, cfg, g) && DiskWorks(world)
    ensures StepFavours(cfg, PeersArrive(world), s, a, g)
  {
    hide Accepted;
    if a.Fetch? && AsksPeer(s, a.w, g) {
      assert StageShaped(cfg, s, s.workers[a.w]);
      var t: nat :| Called(world, t, StepCalls(cfg, s, a)[0]);
      assert Accepted(cfg, world.fetch(t, g, ChunkOffset(cfg, s.workers[a.w].job),
                                       ChunkLength(cfg, s.workers[a.w].job)));
    }
  }

  lemma {:induction false} RunInGoodWorld(world: World, cfg: Config, s: State, acts: seq<Action>, g: string)
    requires RunFrom(world, cfg, s, acts) && AlwaysGood(world, cfg, g) && DiskWorks(world)
    ensures RunFavours(cfg, PeersArrive(world), s, acts, g)
    decreases |acts|
  {
    hide StepFrom, AlwaysGood, DiskWorks, PeersArrive, StepFavours;
    if acts != [] && Shaped(cfg, s) && Enabled(cfg, s, acts[0]) {
      StepInGoodWorld(world, cfg, s, acts[0], g);
      RunInGoodWorld(world, cfg, Apply(cfg, s, acts[0]), acts[1..], g);
    }
  }

  /** The settings are such that one good peer is enough, with peers arriving if they may; one
      chunk always is. */
  ghost predicate OneIsEnough(world: World, cfg: Config, peerCount: nat) {
    cfg.totalChunks == 1 ||
    GoodPeerSuffices(PeersArrive(world), cfg.totalChunks, peerCount, WorkerCount(cfg, peerCount), PerPeerLimit(cfg))
  }

  /** The disk works, and one of the peers given is good, which is enough. */
  ghost predicate GoodWorld(world: World, cfg: Config, ids: seq<string>) {
    DiskWorks(world) && OneIsEnough(world, cfg, |ids|) && exists g :: g in ids && AlwaysGood(world, cfg, g)
  }

  /** A run in such a world does not fail. */
  lemma GoodWorldSucceeds(world: World, cfg: Config, ids: seq<string>, order: seq<nat>, states: seq<nat>,
                          staging: seq<byte>, acts: seq<Action>)
    requires Started(cfg, ids, order, states) && GoodWorld(world, cfg, ids)
    requires Exec(cfg, Initial(cfg, ids, order, states, staging, ""), acts).Some?
    requires RunFrom(world, cfg, Initial(cfg, ids, order, states, staging, ""), acts)
    ensures !Exec(cfg, Initial(cfg, ids, order, states, staging, ""), acts).value.failure
  {
    hide Exec, RunFrom, AlwaysGood, DiskWorks, Initial, Started, RunFavours;
    var p, w, l := |ids|, WorkerCount(cfg, |ids|), PerPeerLimit(cfg);
    var g :| g in ids && AlwaysGood(world, cfg, g);
    RunInGoodWorld(world, cfg, Initial(cfg, ids, order, states, staging, ""), acts, g);
    if cfg.totalChunks == 1 {
      OneChunkSuffices(p, w, l);
      FixedIsEasier(1, p, w, l);
    }
    assert Setting(cfg, ids, cfg.totalChunks, p, w, l);
  }

  /** The settings describe this file, tiled with a chunk size within the limits. */
  ghost predicate FaithfulSource(cfg: Config, source: seq<byte>) {
    && cfg.hash != "" && cfg.fileSize == |source| < WORD64 && 0 < cfg.chunkSize <= MAX_CHUNK_SIZE
    && Tiles(cfg.fileSize, cfg.chunkSize, cfg.totalChunks)
  }

  /** What a download reports: the verdict, the staging file as it was left, the reason of a
      failure, the peers the swarm knew, and the progress marks. */
  datatype SwarmResult = SwarmResult(ok: bool, file: seq<byte>, reason: string, peers: seq<string>, marks: seq<nat>)

  /** One of the guards at the top of `run_swarm_download` holds. */
  predicate Refused(cfg: Config, providers: seq<string>, states: seq<nat>) {
    cfg.fileSize == 0 || cfg.totalChunks == 0 || |states| != cfg.totalChunks || DistinctPeers(providers) == []
  }

  /** What the caller may rely on: `file` is whatever the peers asked have served. */
  ghost predicate FileDelivered(cfg: Config, calls: seq<Call>, file: seq<byte>) {
    forall source :: CallsServed(cfg, calls, source) && FaithfulSource(cfg, source) ==> file == source
  }

  /** The calls went to these peers, for chunks of the file, and the answers are the world's. */
  ghost predicate CallsMade(world: World, cfg: Config, calls: seq<Call>, peers: seq<string>) {
    forall c :: c in calls ==>
      c.peer in peers && (exists job: nat :: AsksFor(cfg, c, job)) && (exists t: nat :: Called(world, t, c))
  }

  /** The whole of `run_swarm_download`: the guards, the distinct peers, the run of the
      threads, and the verdict.  It always returns.  A success has left the file that the
      peers serve in the staging file; a failure names its reason once the threads have
      been started; only peers among `all` are ever known, and only known peers are asked;
      and it succeeds if one of the providers is good and that is enough. */
  method RunSwarmDownload(cfg: Config, providers: seq<string>, order: seq<nat>, states: seq<nat>, staging: seq<byte>,
                          world: World, ghost all: set<string>)
    returns (r: SwarmResult, ghost calls: seq<Call>)
    requires Permutation(order, cfg.totalChunks)
    requires |staging| == cfg.fileSize
    requires forall id :: id in providers && id != "" ==> id in all
    requires forall t: nat :: world.arrive(t).Some? ==> world.arrive(t).value in all
    ensures Refused(cfg, providers, states) ==> r == SwarmResult(false, staging, "", [], states) && calls == []
    ensures !Refused(cfg, providers, states) ==> r.peers != []
    ensures forall id :: id in r.peers ==> id in all
    ensures CallsMade(world, cfg, calls, r.peers)
    ensures r.ok ==> r.reason == "" && FileDelivered(cfg, calls, r.file)
    ensures !r.ok && !Refused(cfg, providers, states) ==> r.reason in {NOT_DOWNLOADED, BAD_CHECKSUM, NOT_WRITTEN}
    // the reason is true: a call in vain, or a wrong digest
    ensures r.reason == NOT_DOWNLOADED ==> exists c :: c in calls && (!c.resp.success || c.resp.data == [])
    ensures r.reason == BAD_CHECKSUM ==>
      exists c :: c in calls && c.resp.success && c.resp.chunkSha !in {"", cfg.sha(c.resp.data)}
    ensures !Refused(cfg, providers, states) && GoodWorld(world, cfg, DistinctPeers(providers)) ==> r.ok
    ensures |r.marks| == |states|
  {
    hide JobInv, CapInv, TryInv, Exec, FileDelivered, GoodWorld, RunFrom, CallsOf, CallsMade;
    calls := [];
    NoCalls(world, cfg, providers);
    if cfg.fileSize == 0 || |providers| == 0 { return SwarmResult(false, staging, "", [], states), []; }
    if cfg.totalChunks == 0 || |states| != cfg.totalChunks { return SwarmResult(false, staging, "", [], states), []; }
    var ids := DistinctPeers(providers);
    if |ids| == 0 { return SwarmResult(false, staging, "", [], states), []; }
    assert forall i :: 0 <= i < |ids| ==> ids[i] in ids;
    var swarm := new SwarmDownload(cfg, ids, order, states, staging, "");
    StartIsSound(cfg, ids, order, states, staging, all);
    ghost var acts, rounds := swarm.RunWorkers(world, all, |all|);
    calls := swarm.calls;
    assert calls == CallsOf(cfg, Initial(cfg, ids, order, states, staging, ""), acts);
    DownloadIsCorrect(cfg, ids, order, states, staging, world, acts);
    ReasonIsTrue(cfg, ids, order, states, staging, acts);
    JobInvShape(cfg, swarm.Abs());
    var ok := !swarm.failure && swarm.completedJobs == cfg.totalChunks;
    var peers := seq(|swarm.peerStates|, p requires 0 <= p < |swarm.peerStates| reads swarm => swarm.peerStates[p].id);
    r := SwarmResult(ok, swarm.staging, swarm.failureReason, peers, swarm.chunkStates);
    KnownCalls(world, cfg, Initial(cfg, ids, order, states, staging, ""), acts, peers);
  }

  lemma NoCalls(world: World, cfg: Config, providers: seq<string>)
    ensures CallsMade(world, cfg, [], [])
  {
  }

  lemma KnownCalls(world: World, cfg: Config, s: State, acts: seq<Action>, peers: seq<string>)
    requires Exec(cfg, s, acts).Some? && RunFrom(world, cfg, s, acts)
    requires var t := Exec(cfg, s, acts).value;
             |peers| == |t.peers| && forall p :: 0 <= p < |peers| ==> peers[p] == t.peers[p].id
    ensures CallsMade(world, cfg, CallsOf(cfg, s, acts), peers)
  {
    hide AsksFor, Called;
    CallsAreKnown(world, cfg, s, acts);
    hide Exec, RunFrom, CallsOf;
    assert forall id :: id in NamesOf(Exec(cfg, s, acts).value.peers) ==> id in peers;
  }

  lemma StartIsSound(cfg: Config, ids: seq<string>, order: seq<nat>, states: seq<nat>, staging: seq<byte>,
                     all: set<string>)
    requires Started(cfg, ids, order, states) && forall i :: 0 <= i < |ids| ==> ids[i] in all
    ensures var s := Initial(cfg, ids, order, states, staging, "");
            JobInv(cfg, s) && CapInv(cfg, s) && TryInv(cfg, s, |all|)
  {
    InitialJobInv(cfg, ids, order, states, staging, "");
    InitialCapInv(cfg, ids, order, states, staging, "");
    DistinctAtMost(ids, all);
    InitialTryInv(cfg, ids, order, states, staging, "", |all|);
  }

  /** The theorems about runs, put together for a run that has come to its end. */
  lemma DownloadIsCorrect(cfg: Config, ids: seq<string>, order: seq<nat>, states: seq<nat>, staging: seq<byte>,
                          world: World, acts: seq<Action>)
    requires Started(cfg, ids, order, states) && |staging| == cfg.fileSize
    requires Exec(cfg, Initial(cfg, ids, order, states, staging, ""), acts).Some?
    requires AllExited(Exec(cfg, Initial(cfg, ids, order, states, staging, ""), acts).value)
    requires RunFrom(world, cfg, Initial(cfg, ids, order, states, staging, ""), acts)
    ensures var s := Initial(cfg, ids, order, states, staging, "");
            var t := Exec(cfg, s, acts).value;
            && (t.failure <==> t.completed != cfg.totalChunks)
            && (t.failure ==> t.reason in {NOT_DOWNLOADED, BAD_CHECKSUM, NOT_WRITTEN})
            && (!t.failure ==> t.reason == "" && FileDelivered(cfg, CallsOf(cfg, s, acts), t.out))
    ensures GoodWorld(world, cfg, ids) ==>
              !Exec(cfg, Initial(cfg, ids, order, states, staging, ""), acts).value.failure
  {
    hide CallsServed, GoodWorld, RunFrom;
    var s := Initial(cfg, ids, order, states, staging, "");
    var t := Exec(cfg, s, acts).value;
    assert Reachable(cfg, t);
    Verdict(cfg, t);
    ShutdownNeverTheReason(cfg, ids, order, states, staging, acts);
    if !t.failure {
      forall source | CallsServed(cfg, CallsOf(cfg, s, acts), source) && FaithfulSource(cfg, source)
        ensures t.out == source
      {
        CallsServeRun(cfg, s, acts, source);
        ServedRunIsHonest(cfg, s, acts, source);
        Reassembly(cfg, ids, order, states, staging, "", acts, source);
      }
    }
    if GoodWorld(world, cfg, ids) { GoodWorldSucceeds(world, cfg, ids, order, states, staging, acts); }
  }
}
