/** The way of a chunk: tiling and clamping on the asking side (src/MeshCLI.hpp), the
    request handler on the serving side and the response handler back again
    (src/peer_manager.cpp), and the end-to-end theorem over all of it. */
module ChunkPath {
  import opened Wrappers
  import opened Arith
  import Base64
  import opened SwarmState
  import opened SwarmJobs
  import opened SwarmContent

  const MAX_CHUNK_SIZE := 256 * 1024
  const MIN_CHUNK_SIZE := 4096

  // ---------------------------------------------------------------- the serving side

  /** A file a peer shares: its registered size and where it lies on disk. */
  datatype SharedFile = SharedFile(size: nat, path: string)

  datatype Server = Server(shares: map<string, SharedFile>, disk: map<string, seq<byte>>)

  datatype Request = Request(id: string, hash: string, offset: nat, length: nat)

  datatype Reply =
    | ErrorReply(id: string, hash: string, error: string)
    | DataReply(id: string, hash: string, offset: nat, length: nat, chunkSha: string, data: string)

  /** What reading `n` bytes at an offset yields: fewer at the end of the file, none beyond it. */
  function ReadAt(content: seq<byte>, offset: nat, n: nat): seq<byte> {
    if offset >= |content| then []
    else if offset + n <= |content| then content[offset..offset + n]
    else content[offset..]
  }

  /** The length that will be read: a missing length means the maximum, and neither the
      registered size nor the maximum is exceeded. */
  function ServedLength(size: nat, offset: nat, length: nat): nat
    requires offset < size
  {
    var wanted := if length != 0 then length else MAX_CHUNK_SIZE;
    var inside := if wanted <= size - offset then wanted else size - offset;
    if inside <= MAX_CHUNK_SIZE then inside else MAX_CHUNK_SIZE
  }

  /** The `file_chunk_request` branch of `handle_message`. */
  function HandleChunkRequest(server: Server, sha: seq<byte> -> string, req: Request): Option<Reply> {
    if req.id == "" || req.hash == "" then None
    else if req.hash !in server.shares then Some(ErrorReply(req.id, req.hash, "Unknown file hash"))
    else
      var entry := server.shares[req.hash];
      if req.offset >= entry.size then Some(ErrorReply(req.id, req.hash, "Offset beyond file size"))
      else if entry.path !in server.disk then Some(ErrorReply(req.id, req.hash, "Cannot open file"))
      else
        var buffer := ReadAt(server.disk[entry.path], req.offset, ServedLength(entry.size, req.offset, req.length));
        if buffer == [] then Some(ErrorReply(req.id, req.hash, "Failed to read file chunk"))
        else Some(DataReply(req.id, req.hash, req.offset, |buffer|, sha(buffer), Base64.Encode(buffer, false)))
  }

  // ---------------------------------------------------------------- the asking side

  /** The `file_chunk_response` branch: a text that does not decode throws, and the message
      is dropped. */
  function HandleChunkReply(reply: Reply): Option<Response> {
    match reply
    case ErrorReply(_, _, _) => Some(Response(false, [], ""))
    case DataReply(_, _, _, _, chunkSha, data) =>
      match Base64.Decode(data)
      case Ok(bytes) => Some(Response(true, bytes, chunkSha))
      case Err(_) => None
  }

  const NO_RESPONSE := Response(false, [], "")

  /** What `fetch_chunk` may return when it asks this server: the handled reply, or a failure
      because the peer is gone or the time is up. */
  ghost predicate Answers(server: Server, sha: seq<byte> -> string, req: Request, resp: Response) {
    || resp == NO_RESPONSE
    || (HandleChunkRequest(server, sha, req).Some? &&
        HandleChunkReply(HandleChunkRequest(server, sha, req).value) == Some(resp))
  }

  /** The server holds exactly this file under this hash. */
  predicate Serves(server: Server, hash: string, file: seq<byte>) {
    && hash in server.shares
    && server.shares[hash].size == |file|
    && server.shares[hash].path in server.disk
    && server.disk[server.shares[hash].path] == file
  }

  /** The clamp leaves a request inside the file alone exactly when it is at most the
      maximum chunk size. */
  lemma ServedInFullExactly(size: nat, offset: nat, length: nat)
    requires 0 < length && offset + length <= size
    ensures ServedLength(size, offset, length) == length <==> length <= MAX_CHUNK_SIZE
  {
  }

  /** Request, read, encode, decode: the bytes asked for arrive, with their digest. */
  lemma ServedChunkArrives(server: Server, sha: seq<byte> -> string, file: seq<byte>, req: Request)
    requires Serves(server, req.hash, file) && req.id != "" && req.hash != ""
    requires 0 < req.length <= MAX_CHUNK_SIZE && req.offset + req.length <= |file|
    ensures HandleChunkRequest(server, sha, req).Some?
    ensures var chunk := file[req.offset..req.offset + req.length];
            HandleChunkReply(HandleChunkRequest(server, sha, req).value) == Some(Response(true, chunk, sha(chunk)))
  {
    var chunk := file[req.offset..req.offset + req.length];
    ServedInFullExactly(|file|, req.offset, req.length);
    assert ReadAt(file, req.offset, req.length) == chunk != [];
    Base64.DecodeEncode(chunk, false);
  }

  /** Which requests get data, which an error and which no reply at all, for any server; every
      reply carries the id and hash of its request; and the data are the file's bytes from the
      offset on, as many as were asked for (the maximum if no number is given), unless the
      registered size, the file or the maximum ends them earlier. */
  lemma RepliesExactly(server: Server, sha: seq<byte> -> string, req: Request)
    ensures HandleChunkRequest(server, sha, req).None? <==> req.id == "" || req.hash == ""
    ensures HandleChunkRequest(server, sha, req).Some? ==>
              HandleChunkRequest(server, sha, req).value.id == req.id &&
                HandleChunkRequest(server, sha, req).value.hash == req.hash
    ensures DataGiven(server, sha, req) <==>
              req.id != "" && req.hash != "" && req.hash in server.shares &&
              req.offset < server.shares[req.hash].size &&
              server.shares[req.hash].path in server.disk && req.offset < |server.disk[server.shares[req.hash].path]|
    ensures DataGiven(server, sha, req) ==>
              var entry := server.shares[req.hash];
              var reply := HandleChunkRequest(server, sha, req).value;
              Base64.Decode(reply.data).Ok? &&
              var bytes := Base64.Decode(reply.data).value;
              && bytes <= server.disk[entry.path][req.offset..] && 0 < |bytes| <= MAX_CHUNK_SIZE
              && req.offset + |bytes| <= entry.size && (req.length > 0 ==> |bytes| <= req.length)
              && (|bytes| == req.length || |bytes| == MAX_CHUNK_SIZE || req.offset + |bytes| == entry.size ||
                  req.offset + |bytes| == |server.disk[entry.path]|)
              && reply == DataReply(req.id, req.hash, req.offset, |bytes|, sha(bytes), reply.data)
  {
    if DataGiven(server, sha, req) {
      var entry := server.shares[req.hash];
      var buffer := ReadAt(server.disk[entry.path], req.offset, ServedLength(entry.size, req.offset, req.length));
      Base64.DecodeEncode(buffer, false);
    }
  }

  /** A reply is a failure exactly if it is an error, and otherwise has the decoded data and the
      digest as they were sent; data that do not decode are dropped. */
  lemma HandledExactly(reply: Reply, resp: Response)
    ensures HandleChunkReply(reply) == Some(resp) <==>
              if reply.ErrorReply? then !resp.success && resp.data == [] && resp.chunkSha == ""
              else resp.success && Base64.Decode(reply.data) == Ok(resp.data) && resp.chunkSha == reply.chunkSha
  {
  }

  predicate DataGiven(server: Server, sha: seq<byte> -> string, req: Request) {
    HandleChunkRequest(server, sha, req).Some? && HandleChunkRequest(server, sha, req).value.DataReply?
  }

  /** Any answer by a serving peer is a failure or exactly the bytes asked for. */
  lemma AnswersAreHonest(server: Server, sha: seq<byte> -> string, file: seq<byte>, req: Request, resp: Response)
    requires Serves(server, req.hash, file) && req.id != "" && req.hash != ""
    requires 0 < req.length <= MAX_CHUNK_SIZE && req.offset + req.length <= |file|
    requires Answers(server, sha, req, resp)
    ensures resp.success ==> resp.data == file[req.offset..req.offset + req.length] && resp.chunkSha == sha(resp.data)
  {
    ServedChunkArrives(server, sha, file, req);
  }

  // ---------------------------------------------------------------- tiling

  /** The configured chunk size, clamped: the allowed size nearest to the setting. */
  function CurrentChunkSize(setting: nat): (size: nat)
    ensures MIN_CHUNK_SIZE <= size <= MAX_CHUNK_SIZE
    ensures MIN_CHUNK_SIZE <= setting <= MAX_CHUNK_SIZE ==> size == setting
    ensures forall n :: MIN_CHUNK_SIZE <= n <= MAX_CHUNK_SIZE ==> Distance(size, setting) <= Distance(n, setting)
  {
    if setting < MIN_CHUNK_SIZE then MIN_CHUNK_SIZE
    else if setting > MAX_CHUNK_SIZE then MAX_CHUNK_SIZE
    else setting
  }

  function Distance(a: nat, b: nat): nat { if a < b then b - a else a - b }

  /** Ceiling division as written, on 64-bit unsigned values. */
  function TotalChunks(fileSize: nat, chunkSize: nat): nat
    requires chunkSize > 0
  {
    (fileSize + chunkSize - 1) % WORD64 / chunkSize
  }

  /** The chunks cover the file, and none of them is empty. */
  predicate Tiles(fileSize: nat, chunkSize: nat, totalChunks: nat) {
    totalChunks > 0 && (totalChunks - 1) * chunkSize < fileSize <= totalChunks * chunkSize
  }

  /** Ceiling division tiles the file exactly when the sum in it does not overflow. */
  lemma TilingExactly(fileSize: nat, chunkSize: nat)
    requires 0 < fileSize < WORD64 && MIN_CHUNK_SIZE <= chunkSize <= MAX_CHUNK_SIZE
    ensures Tiles(fileSize, chunkSize, TotalChunks(fileSize, chunkSize)) <==> fileSize + chunkSize - 1 < WORD64
  {
    var x := fileSize + chunkSize - 1;
    if x < WORD64 {
      DivModUnique(x, WORD64, 0, x);
      var t := x / chunkSize;
      assert x == t * chunkSize + x % chunkSize;
      assert (t - 1) * chunkSize == t * chunkSize - chunkSize;
      if t <= 0 {
        MulMonotone(t, 0, chunkSize);
        assert false;
      }
    } else {
      DivModUnique(x, WORD64, 1, x - WORD64);
      DivModUnique(x - WORD64, chunkSize, 0, x - WORD64);
    }
  }

  // ---------------------------------------------------------------- end to end

  /** A run in which every fetch is answered by some peer that serves the file, or fails. */
  ghost predicate StepServed(cfg: Config, s: State, a: Action, file: seq<byte>) {
    a.Fetch? && a.w < |s.workers| && s.workers[a.w].Fetching? ==>
      exists server, id: string ::
        Serves(server, cfg.hash, file) && id != "" &&
        Answers(server, cfg.sha, ChunkRequest(cfg, s.workers[a.w].job, id), a.resp)
  }

  /** What the swarm asks for when it fetches a chunk. */
  function ChunkRequest(cfg: Config, job: nat, id: string): Request {
    Request(id, cfg.hash, ChunkOffset(cfg, job), ChunkLength(cfg, job))
  }

  ghost predicate RunServed(cfg: Config, s: State, acts: seq<Action>, file: seq<byte>)
    decreases |acts|
  {
    acts != [] && Shaped(cfg, s) && Enabled(cfg, s, acts[0]) ==>
      StepServed(cfg, s, acts[0], file) && RunServed(cfg, Apply(cfg, s, acts[0]), acts[1..], file)
  }

  lemma ServedStepIsHonest(cfg: Config, s: State, a: Action, file: seq<byte>)
    requires Shaped(cfg, s) && Enabled(cfg, s, a) && StepServed(cfg, s, a, file)
    requires Tiled(cfg, file) && cfg.chunkSize <= MAX_CHUNK_SIZE && cfg.hash != ""
    ensures StepHonest(cfg, s, a, file)
  {
    if a.Fetch? {
      assert StageShaped(cfg, s, s.workers[a.w]);
      var job := s.workers[a.w].job;
      ChunkInside(cfg, file, job);
      var server, id: string :|
        Serves(server, cfg.hash, file) && id != "" && Answers(server, cfg.sha, ChunkRequest(cfg, job, id), a.resp);
      AnswersAreHonest(server, cfg.sha, file, ChunkRequest(cfg, job, id), a.resp);
    }
  }

  lemma {:induction false} ServedRunIsHonest(cfg: Config, s: State, acts: seq<Action>, file: seq<byte>)
    requires Exec(cfg, s, acts).Some? && RunServed(cfg, s, acts, file)
    requires Tiled(cfg, file) && cfg.chunkSize <= MAX_CHUNK_SIZE && cfg.hash != ""
    ensures RunHonest(cfg, s, acts, file)
    decreases |acts|
  {
    if acts != [] {
      ServedStepIsHonest(cfg, s, acts[0], file);
      ServedRunIsHonest(cfg, Apply(cfg, s, acts[0]), acts[1..], file);
    }
  }

  /** END TO END.  A file shorter than 2^64 minus a chunk, tiled with the configured chunk
      size and fetched chunk by chunk from peers that serve it, arrives byte for byte
      whenever the swarm reports success: for every interleaving, every pattern of failed
      requests, every set of serving peers. */
  lemma EndToEnd(cfg: Config, setting: nat, ids: seq<string>, order: seq<nat>, states: seq<nat>, staging: seq<byte>,
                 reason: string, acts: seq<Action>, file: seq<byte>)
    requires cfg.hash != "" && cfg.fileSize == |file| == |staging|
    requires cfg.chunkSize == CurrentChunkSize(setting) && 0 < |file| && |file| + cfg.chunkSize - 1 < WORD64
    requires cfg.totalChunks == TotalChunks(|file|, cfg.chunkSize)
    requires Started(cfg, ids, order, states)
    requires Exec(cfg, Initial(cfg, ids, order, states, staging, reason), acts).Some?
    requires RunServed(cfg, Initial(cfg, ids, order, states, staging, reason), acts, file)
    ensures var t := Exec(cfg, Initial(cfg, ids, order, states, staging, reason), acts).value;
            t.completed == cfg.totalChunks ==> t.out == file
  {
    TilingExactly(|file|, cfg.chunkSize);
    ServedRunIsHonest(cfg, Initial(cfg, ids, order, states, staging, reason), acts, file);
    Reassembly(cfg, ids, order, states, staging, reason, acts, file);
  }
}
