# A verified model of the mesh file-sharing program

The program modelled here is a peer-to-peer file-sharing shell. Peers find each other by
gossip, list each other's shared directories, and fetch files in chunks from many peers at
once. This project models the parts where its correctness is decided, and proves what the
program promises about them, for all inputs, all interleavings and all histories:

* **The swarm** (`swarm_*.dfy`). The worker pool of `run_swarm_download` is a labelled
  transition system: each region guarded by a mutex and each call of a callback is one
  atomic action, and what the callbacks answer, which worker moves and which peers turn up
  are labels. Statements about all sequences of actions are statements about all
  interleavings against all peers. `SwarmRun.SwarmDownload` is the same state as a class
  whose methods are the lambdas of the source, each proved to do what the transition system
  says; its `RunWorkers` is one complete run against an arbitrary outside world, and every
  call of the fetcher is recorded, so that what is proved of runs is said of the calls made.
* **The way of a chunk** (`chunk_path.dfy`, `base64.dfy`): tiling, clamps, the serving
  handler, base64, the response handler, and reassembly, composed into one theorem.
* **Download and publish** (`download.dfy`): attempts, verification, retry with trusted
  peers, and the move into place, over a modelled file system and an unknown hash function.
* **PeerManager** (`dir_index.dfy`, `listing.dfy`, `peer_table.dfy`, `correlation.dfy`,
  `aggregation.dfy`, `gossip*.dfy`) and the links beneath it (`connection.dfy`).
* **The shell's own state** (`registry.dfy`, `watch.dfy`, `meter.dfy`).

`wrappers.dfy`, `arith.dfy`, `sums.dfy`, `filters.dfy` and `finite_sets.dfy` hold what the
others share.
`dafny verify dfyconfig.toml` checks everything.

## What turned out not to hold

Where the code does not meet a natural expectation, the model keeps the code as it is and
the project proves exactly when the expectation is met.

* One good peer does not guarantee a download: rotation and requeueing can keep handing a
  chunk to the others until its attempts are used up. With a fixed list of p peers, n chunks,
  w workers and l requests at a time to a peer, it does exactly if p = 1; or w = 1 and a small
  recursion over the rotation stays below the attempt limit; or no peer can ever be full and
  n(p - 1) is below the limit, or for two workers at most at it
  (`SwarmGoodPeer.GoodPeerSufficesExactly`). Peers that the refresh thread adds during the
  download can make it worse, as they need not be good. With the default settings, which
  include that refresh, a good peer is enough exactly for one chunk, or if it is the only peer
  given and there are at most four chunks (`SwarmGoodPeer.GoodPeerSufficesByDefault`); for all
  settings at once, exactly for one chunk (`SwarmGoodPeer.GoodPeerSufficesAmidArrivals`).
* The two maps of the directory index stay inverse to each other exactly if neither of two
  steps occurs. Unregistering the root's GUID leaves the root path pointing at it, because
  src/peer_manager.cpp:400 skips the erase. And the last region of `ensure_directory_guid`
  (src/peer_manager.cpp:327) looks the path up with an inserting operator: if another thread
  has unregistered the new GUID or bound it elsewhere by then, the path is left mapped to
  the empty text (`DirIndex.AlwaysInverse`, `DirIndex.EnsureCanBreak`).
* A listed directory may carry the GUID of a directory below it; it carries its own exactly
  when nothing is registered below it (`Listing.OwnGuidExactly`).
* A peer that announces itself without an address is never bound by its own announcement,
  and the connection is then bound to whomever it relays first
  (`Gossip.BindsToSenderExactly`).
* If the copy that replaces a failed rename also fails, it may leave a partial file at the
  destination; nothing but the verified file can be there exactly if one of the two succeeds
  (`Download.PublishSafeExactly`). And a file that somebody else puts at the destination
  during an attempt is overwritten: it survives exactly if the rename and the copy both fail
  and the copy leaves nothing else there (`Download.SurvivesExactly`).
* A connection that closes drops the table's entry for its peer even if a later connection has
  taken the entry over. The entry of a live connection is spared exactly if the closing
  connection is the one in the table (`PeerTable.DisconnectSparesExactly`,
  `PeerTable.LateDisconnect`).
* Nothing tells the table that a dial has failed, so the peer stays connecting, and is never
  dialled again, exactly if it neither connects to us nor disconnects
  (`PeerTable.DialledForEverExactly`). Nor are dials under way counted against `max_peers`:
  the limit is kept by every attempt exactly if nobody is being dialled when it starts, or
  the places left suffice for everybody worth dialling
  (`PeerTable.AttemptsStayWithinExactly`).
* A destination that exists is reported as success without looking at its contents if its
  hash is already shared (src/MeshCLI.hpp:1366-1371); `Download.Downloader.DownloadFile`
  states success accordingly.
* The registry's two maps agree in one direction only. The other is lost exactly when a
  record whose path has been taken over is forgotten or moved, and reconciling repairs it
  for every order of the walk exactly when no seen record shares its path
  (`Registry.ForgetKeepsCompleteExactly`, `Registry.ReconcileCompletesExactly`).
* What the slots of the meter count adds up to the file exactly when it has at least as many
  bytes as the bar has slots and its last chunk ends below 2^64 (`Meter.SlotsAddUpExactly`);
  a single slot is counted right for every pattern of chunks exactly when the last chunk it
  touches does (`Meter.FillExactly`).
* The base64 encoder counts in 32 bits and does not return for inputs of 4 GiB or more
  (`Base64.EncodeReturnsExactly`); the ceiling division of the chunk count overflows near
  2^64 (`ChunkPath.TilingExactly`).
* A request can be answered while its hand-over is failing, as answers are matched by id
  alone. A chunk handler may then have run although the caller is told that nothing was
  sent (`Correlation.HandledIssued`); and a peer of a fan-out is then settled twice, which
  happens in no other way (`Aggregation.OnceExactly`). The fan-out fires with some peer
  missing exactly when both notifications of such a peer are among those counted
  (`Aggregation.FiresEarlyExactly`).

## Model

| member | source | states |
|---|---|---|
| SwarmState.ScanFrom | src/swarm_downloader.cpp:131-140 | a slot that the scan returns exists and has room |
| SwarmState.DistinctPeers | src/swarm_downloader.cpp:45-54 | the peers of a swarm are the non-empty provider names, each once |
| SwarmState.DistinctPeersInOrder | src/swarm_downloader.cpp:45-54 | in the order in which they are first named |
| SwarmJobs.InitialJobInv | src/swarm_downloader.cpp:57-103 | the job invariant holds when the threads start, for every shuffled order |
| SwarmJobs.JobInvStep | src/swarm_downloader.cpp:199-295 | every step of every worker, and every arrival of a peer, keeps it |
| SwarmJobs.CompletedMeansIdle | src/swarm_downloader.cpp:280-289 | when all chunks are counted nobody holds a job, none is queued, nothing has failed, and each was written once |
| SwarmJobs.JobConservation | src/swarm_downloader.cpp:199-295 | in every reachable state queued, held and completed chunks are disjoint, the counters are their true numbers, and without a failure they are all chunks; a failure has dropped at least one |
| SwarmJobs.FailureIsFinal | src/swarm_downloader.cpp:212-239 | a failed download stays failed and never counts all chunks; a shutdown without failure means all are written exactly once and nobody is busy |
| SwarmCapacity.ScanFindsCapacity | src/swarm_downloader.cpp:123-140 | the wrap-around scan finds a slot exactly when the wait predicate saw one |
| SwarmCapacity.ScanTakesNext | src/swarm_downloader.cpp:130-138 | rotation: the next peer in turn is chosen if it has room |
| SwarmCapacity.CapInvStep | src/swarm_downloader.cpp:108-151 | each peer's outstanding count is the number of workers fetching from it, through every step |
| SwarmCapacity.CapacityAccounting | src/swarm_downloader.cpp:75-151 | no peer exceeds its limit, the outstanding requests sum to the fetching workers, and the scan succeeds exactly when there is room |
| SwarmCapacity.ShutdownNeverTheReason | src/swarm_downloader.cpp:212-239 | started without a reason, a download reports a real one exactly if it failed, never the shutdown |
| SwarmProgress.DeadlockFree | src/swarm_downloader.cpp:121-151 | in every reachable state with a running worker some worker can move |
| SwarmProgress.PotentialFalls | src/swarm_downloader.cpp:229-295 | every step lowers the measure of the work left |
| SwarmProgress.RunsAreBounded | src/swarm_downloader.cpp:229-262 | with at most m peers a chunk is fetched at most max(3, 2m) times and a run has a bounded number of steps, whatever the callbacks answer |
| SwarmProgress.Verdict | src/swarm_downloader.cpp:310-318 | joined threads mean failure or completeness, not both and not neither; success wrote every chunk once |
| SwarmProgress.SuccessCountsFetches | src/swarm_downloader.cpp:245-262 | in every reachable state in which all chunks are counted, the fetches are one per chunk and one per failed attempt |
| SwarmProgress.FlawlessFetchesOnce | src/swarm_downloader.cpp:229-295 | if every fetch and write succeeds the download does not fail and fetches each chunk exactly once |
| SwarmGoodPeer.OneChunkSucceeds | src/swarm_downloader.cpp:121-142 | a one-chunk file with a good k-th peer and a working disk succeeds within k + 1 fetches, whoever else arrives meanwhile |
| SwarmRotation.TurnIsTaken | src/swarm_downloader.cpp:121-142 | if no peer can ever be full, the peer whose turn it is is always the one chosen |
| SwarmRotation.FewChunksSuffice | src/swarm_downloader.cpp:212-262 | with a fixed list of peers there is no failure with a good one, if none can be full and the turns of the others do not add up to a chunk's attempts |
| SwarmRotation.TwoWorkersSuffice | src/swarm_downloader.cpp:212-262 | with a fixed list and two workers that holds even if those turns add up to exactly the attempts |
| SwarmRotation.OnePeerSuffices | src/swarm_downloader.cpp:212-262 | a single peer that is good is enough for any number of chunks as long as no other arrives |
| SwarmSolo.SoloSuffices | src/swarm_downloader.cpp:229-295 | with a fixed list one worker does not fail with a good peer, if no chunk can use up its attempts as the queue goes round |
| SwarmSolo.ShortSuffices | src/swarm_downloader.cpp:178-262 | one worker does not fail with a good peer whoever arrives, for three chunks, or four if the good peer starts alone |
| SwarmGoodPeer.FullPeerFails | src/swarm_downloader.cpp:121-142 | with more chunks and workers than requests a peer takes, the good peer can be kept busy while a chunk fails elsewhere |
| SwarmGoodPeer.OneWorkerFails | src/swarm_downloader.cpp:229-295 | one worker has a failing run whenever some chunk can use up its attempts |
| SwarmGoodPeer.PairFails | src/swarm_downloader.cpp:212-262 | two workers have one once the turns of the others exceed a chunk's attempts |
| SwarmGoodPeer.ManyWorkersFail | src/swarm_downloader.cpp:212-262 | more workers have one once those turns reach the attempts |
| SwarmGoodPeer.GoodPeerSufficesExactly | src/swarm_downloader.cpp:229-295 | with a fixed list of peers, for given numbers of chunks, peers, workers and requests per peer, a good peer rules out failure exactly under the stated condition |
| SwarmGoodPeer.GoodPeerSufficesAlways | src/swarm_downloader.cpp:229-295 | with a fixed list it does so for all settings exactly for one chunk or one peer |
| SwarmGoodPeer.GoodPeerSufficesUnrefreshed | src/MeshCLI.hpp:131-132 | and with a fixed list and the default numbers too |
| SwarmGoodPeer.GoodPeerSufficesAmidArrivals | src/swarm_downloader.cpp:178-197 | with peers arriving it does so for all settings exactly for one chunk |
| SwarmGoodPeer.GoodPeerSufficesByDefault | src/MeshCLI.hpp:1510-1528 | with the default numbers and the refresh that the shell always supplies, exactly for one chunk, or for one given peer and at most four chunks |
| SwarmContent.Accounting | src/swarm_downloader.cpp:262-277 | the byte count is the sum over the peers, the active-peer count the peers with bytes, and chunk counts match the writes |
| SwarmContent.ChunkInside | src/swarm_downloader.cpp:243-244 | offset and length of every chunk lie inside the file, without wrap-around |
| SwarmContent.ContentStep | src/swarm_downloader.cpp:245-262 | with honest answers every step keeps the written chunks equal to the file's |
| SwarmContent.Reassembly | src/swarm_downloader.cpp:229-295 | honest answers and success mean the staging file is the source, under every interleaving and retry pattern |
| SwarmRun.SwarmDownload.constructor | src/swarm_downloader.cpp:67-106 | the variables start in the initial state of the transition system |
| SwarmRun.SwarmDownload.TakeJob | src/swarm_downloader.cpp:199-210 | the front job and its count, or none when shutting down |
| SwarmRun.SwarmDownload.RequeueJob | src/swarm_downloader.cpp:212-227 | the new queue, flags and reason: back to the end of the queue, or failure and an empty queue |
| SwarmRun.SwarmDownload.AcquirePeerState | src/swarm_downloader.cpp:121-142 | the first peer with room from the rotation index, its count raised and the index moved on |
| SwarmRun.SwarmDownload.ReleasePeerState | src/swarm_downloader.cpp:144-151 | one request fewer for that peer, nothing else |
| SwarmRun.SwarmDownload.AddPeerState | src/swarm_downloader.cpp:108-119 | a new, named peer is appended with empty figures; others are ignored |
| SwarmRun.SwarmDownload.Step | src/swarm_downloader.cpp:229-295 | one step of a worker is an enabled action of the transition system, with the outside world's answer to exactly the call or write that the state of the worker asks for, and the call is recorded |
| SwarmRun.SwarmDownload.Arrive | src/swarm_downloader.cpp:178-197 | a refreshed peer is an enabled arrival or nothing |
| SwarmRun.SwarmDownload.RunWorkers | src/swarm_downloader.cpp:297-304 | starting and joining the threads terminates in a state that a run of the transition system against this world reaches, all workers exited, with the calls of that run, and with every peer known that arrived while some worker moved |
| SwarmRun.AskedIsAcquired | src/swarm_downloader.cpp:230-244 | whatever others do in between, the fetcher is called for the one peer whose count the preceding acquisition has raised, and for the worker's chunk |
| SwarmRun.CallsAreKnown | src/swarm_downloader.cpp:240-244 | in every run only peers of the swarm are asked, for chunks of the file, and the answers are the world's |
| SwarmRun.OnlyCheckedIsWritten | src/swarm_downloader.cpp:245-262 | whatever is answered, what is about to be written for a chunk is the data of a successful answer for that chunk, not empty, and with the digest that came with it, if one did |
| SwarmRun.ReasonIsTrue | src/swarm_downloader.cpp:245-269 | a reported failure to download, to match a checksum or to write has happened |
| SwarmRun.GoodWorldSucceeds | src/swarm_downloader.cpp:229-295 | over the world's answers alone: with a disk that works and one given peer that always answers well, a run does not fail, for one chunk and wherever `GoodPeerSuffices` holds |
| SwarmRun.DownloadIsCorrect | src/swarm_downloader.cpp:297-318 | the theorems about runs, for the final state of a complete one |
| SwarmRun.RunSwarmDownload | src/swarm_downloader.cpp:28-319 | it always returns; success means the file that the peers asked have served is in the staging file, failure names a true reason; only peers of the swarm are asked; and it succeeds with a working disk and one good provider, for one chunk and wherever that is enough |
| ChunkPath.CurrentChunkSize | src/MeshCLI.hpp:2654-2656 | the allowed chunk size nearest to the setting, which is the setting itself if it is allowed |
| ChunkPath.TilingExactly | src/MeshCLI.hpp:1441-1442 | the ceiling division tiles the file exactly when its sum does not overflow 64 bits |
| ChunkPath.ServedInFullExactly | src/peer_manager.cpp:958-966 | the server grants a request inside the file in full exactly up to the maximum chunk size |
| ChunkPath.ServedChunkArrives | src/peer_manager.cpp:909-1042 | request, read, encode, decode yields the bytes asked for and their digest |
| ChunkPath.RepliesExactly | src/peer_manager.cpp:909-1011 | for any server which requests get data, an error or no reply, always under the request's id and hash; data are the file's bytes from the offset, as many as request, registered size, file and maximum allow, with their digest |
| ChunkPath.HandledExactly | src/peer_manager.cpp:1013-1042 | an error reply fails the request, data are handed on decoded with their digest, and data that do not decode are dropped |
| ChunkPath.AnswersAreHonest | src/MeshCLI.hpp:1702-1738 | any answer of a serving peer, time-outs included, is a failure or exactly the bytes asked for |
| ChunkPath.EndToEnd | src/swarm_downloader.cpp:229-295 | tiling, clamps, server, base64, retries and reassembly together: success means the file arrived byte for byte |
| Base64.PosOfCharAt | src/base64.cpp:55-71 | the position of a character undoes the alphabet, in both alphabets |
| Base64.PosOfCharExactly | src/base64.cpp:55-71 | a character has a position exactly if it is the one there in one of the alphabets |
| Base64.Base64Encode | src/base64.cpp:111-160 | below 4 GiB the loop with its 32-bit counter yields the specified encoding |
| Base64.EncodeReturnsExactly | src/base64.cpp:132-157 | the loop's counter, advanced as the loop does, gets past the end exactly for inputs below 4 GiB |
| Base64.InsertLinebreaks | src/base64.cpp:73-89 | inserting in place yields the text cut into lines |
| Base64.Base64Decode | src/base64.cpp:163-241 | the loop yields the specified decoding or its exception |
| Base64.DecodeEncode | src/base64.cpp:111-241 | decoding undoes encoding for all byte strings and both alphabets |
| Base64.EncodeDecode | src/base64.cpp:111-241 | encoding undoes decoding for all texts of whole groups of digits, up to the spelling of the two that differ |
| Base64.DecodesExactly | src/base64.cpp:163-241 | a text decodes exactly if each group has two digits, and digits after them up to a padding character |
| Base64.DecodeUnpadded | src/base64.cpp:203-232 | also after the padding is stripped |
| Base64.DecodeLines | src/base64.cpp:92-105 | also after line breaks of any distance, when they are removed again |
| Base64.LinesAreShort | src/base64.cpp:73-89 | every stretch longer than a line contains a line break |
| Base64.BreaksExactly | src/base64.cpp:73-89 | the breaks are at every (d + 1)-th character and nowhere else, and none ends the text |
| Base64.EncodeLength | src/base64.cpp:113 | the encoding is four characters per started three bytes |
| Base64.EncodeMeaning | src/base64.cpp:135-157 | character k stands for bits 6k to 6k + 5 of the input, then padding, as in section 4 of RFC 4648 |
| Download.SurvivesExactly | src/MeshCLI.hpp:1612-1625 | a file that has appeared at the destination outlives the publication of other content exactly if rename and copy both fail and a failed copy leaves nothing else; and what is there in every case |
| Download.PublishSafeExactly | src/MeshCLI.hpp:1612-1625 | whatever a failed copy leaves behind, the destination is absent or holds exactly the staged bytes, if and only if the rename or the copy succeeds |
| Download.Downloader.VerifyAndPublish | src/MeshCLI.hpp:1591-1630 | mismatch exactly when the hash cannot be computed or differs, otherwise success exactly when rename or copy succeeds; success puts exactly the staged bytes there, and otherwise what the failed move leaves or what stood there remains |
| Download.Downloader.AttemptDownload | src/MeshCLI.hpp:1476-1643 | an attempt publishes only content of the right hash, over whatever has appeared at the destination meanwhile, touches two paths only, asks only its providers and peers that a refresh finds, cannot mismatch if those asked serve the file, and publishes the file if nothing goes wrong |
| Download.Downloader.AttemptSets | src/MeshCLI.hpp:1645-1664 | one provider set, and exactly if some but not all providers are sources of the watch a second one, of those |
| Download.Downloader.RunAttempts | src/MeshCLI.hpp:1666-1681 | which attempts are made, whom they ask (in the second watch sources only), what is then at the destination and in the shares, and that the file arrives if nothing goes wrong |
| Download.TrustedAsked | src/MeshCLI.hpp:2701-2722 | in the trusted attempt only trusted peers are asked, refreshes included |
| Download.CleanPathExactly | src/MeshCLI.hpp:1740-1748 | a clean path has the components that are neither empty nor dots, all of them and in their order, or is the hash |
| Download.SizeKnownExactly | src/MeshCLI.hpp:1426-1438 | a size is known exactly if the primary or a provider names one |
| Download.SettingsAreFaithful | src/MeshCLI.hpp:1440-1442 | the settings describe a file exactly if it has a hash, is not empty and its chunk count does not overflow |
| Download.Downloader.AddConflict | src/MeshCLI.hpp:4026-4050 | a conflict is queued unless ignored or queued already |
| Download.Downloader.DownloadFile | src/MeshCLI.hpp:1349-1700 | exactly when an attempt is made and a second one; a destination that exists is never changed, otherwise what is there afterwards; exactly when it reports success, publishes, shares and queues a conflict; and with working input and output, peers that serve and a good provider it ends in success with exactly the source at the destination, for one chunk and wherever one good peer is enough |
| DirIndex.DirectoryIndex.constructor | src/peer_manager.cpp:93-94 | the index starts with the root alone, both ways |
| DirIndex.DirectoryIndex.GenerateUnused | src/peer_manager.cpp:279-315 | the retry loop ends with a GUID that is not in use |
| DirIndex.DirectoryIndex.RegisterHierarchy | src/peer_manager.cpp:279-315 | the path and its ancestors get GUIDs where they had none; nothing else changes |
| DirIndex.DirectoryIndex.BindDirectoryGuid | src/peer_manager.cpp:376-389 | GUID and path are bound to each other alone |
| DirIndex.DirectoryIndex.RegisterDirectoryWithGuid | src/peer_manager.cpp:363-390 | parents registered, then, after whatever other threads do in between, GUID and path bound |
| DirIndex.DirectoryIndex.UnregisterDirectoryGuid | src/peer_manager.cpp:392-406 | the GUID and its origin are gone, and its path unless it is the root |
| DirIndex.DirectoryIndex.ReadOrInsertGuid | src/peer_manager.cpp:326-327 | the inserting lookup: an absent path is mapped to the empty text |
| DirIndex.DirectoryIndex.EnsureDirectoryGuid | src/peer_manager.cpp:317-328 | three regions with other threads between them: find, register, and the inserting lookup whose value is returned; none for reserved paths |
| DirIndex.RegisteredKeepsInverse | src/peer_manager.cpp:279-315 | registration keeps the maps inverse and free of reserved paths |
| DirIndex.GeneratedGuidsAreFresh | src/peer_manager.cpp:279-315 | new GUIDs were in neither map |
| DirIndex.BindMeaning | src/peer_manager.cpp:363-390 | binding displaces exactly the old path and the old GUID, leaves the origins, and keeps the maps inverse |
| DirIndex.BindingMeaning | src/peer_manager.cpp:363-390 | undisturbed, registering under a given GUID binds path and GUID, registers everything above, and changes nobody else's GUID |
| DirIndex.UnregisterMeaning | src/peer_manager.cpp:392-406 | unregistering takes out exactly the pairs of that GUID and its origin, but for the root's path entry; an unknown GUID changes nothing |
| DirIndex.ReadMeaning | src/peer_manager.cpp:326-327 | the inserting lookup changes nothing but the entry it inserts |
| DirIndex.UnregisterKeepsInverseExactly | src/peer_manager.cpp:392-406 | unregistering keeps the maps inverse exactly when the GUID is not the root's |
| DirIndex.ReadKeepsInverseExactly | src/peer_manager.cpp:326-327 | the inserting lookup keeps the maps inverse exactly when the path is there |
| DirIndex.StepKeepsInverseExactly | src/peer_manager.cpp:279-406 | a region keeps the maps inverse exactly when it is neither of the two failing steps |
| DirIndex.AlwaysInverse | src/peer_manager.cpp:279-406 | along every interleaving of the regions the maps are exact inverses throughout, if and only if neither failing step occurs |
| DirIndex.EnsureCanBreak | src/peer_manager.cpp:317-406 | from every good state, for every new path, an unregistration between the last two regions of ensure_directory_guid breaks them |
| Listing.ListDirectories | src/peer_manager.cpp:521-545 | exactly the children that lead to something registered, each once, with the GUID and origin of the first entry met |
| Listing.FirstAtSupports | src/peer_manager.cpp:521-536 | the entry a listed directory is taken from is the first in the walk at or below it |
| Listing.ListFiles | src/peer_manager.cpp:547-568 | exactly the shared files directly in the directory, each once |
| Listing.WalkedExactly | src/peer_manager.cpp:500-581 | following listings from the root reaches exactly the directories at or above something registered |
| Listing.SharedFilesAreFound | src/peer_manager.cpp:338-361 | once its directory is registered, a shared file's directory is reached |
| Listing.OwnGuidExactly | src/peer_manager.cpp:535-541 | the GUID a directory is listed with is its own in the index, for every order of the walk, exactly when nothing is registered below it |
| PeerTable.Peers.constructor | src/peer_manager.cpp:65-95 | the table starts with ourselves, consistent |
| PeerTable.Peers.AddPeerDiscovered | src/peer_manager.cpp:97-126 | a new peer starts disconnected; a known one keeps its state and gets the new addresses |
| PeerTable.Peers.Connected | src/peer_manager.cpp:129-159 | the connection is the peer's, it is connected and no longer dialled; whether that is news |
| PeerTable.Peers.Disconnected | src/peer_manager.cpp:162-170 | whichever connection closes: no connection, not dialled, disconnected |
| PeerTable.Peers.TryDial | src/peer_manager.cpp:254-272 | a peer is dialled exactly when it is eligible and its port parses: at its local address if that starts with our own IP or it has no other, otherwise at its external one |
| PeerTable.Peers.AttemptConnectMore | src/peer_manager.cpp:236-277 | different, eligible peers are dialled, each at host and port of the address so chosen, no more than the free places, and it stops early only when nobody is left or a port does not parse |
| PeerTable.BestAddrExactly | src/peer_manager.hpp:25-33 | the address of a peer is its local one exactly if that starts with our IP or it has no external one |
| PeerTable.EligibleExactly | src/peer_manager.cpp:254-265 | eligible are exactly the disconnected others, not being dialled, whose address so chosen has a port |
| PeerTable.EventMeaning | src/peer_manager.cpp:97-277 | only its own discovery changes a peer's addresses, a new one gets its name, and no event removes a peer |
| PeerTable.AddressesExactly | src/peer_manager.cpp:97-126 | after any history the addresses kept for a peer are the last that were told |
| PeerTable.EventKeepsConsistent | src/peer_manager.cpp:97-277 | every event keeps: connecting exactly while being dialled, connected exactly with a connection |
| PeerTable.AlwaysConsistent | src/peer_manager.cpp:97-277 | so it holds after every sequence of events |
| PeerTable.NoSecondDial | src/peer_manager.cpp:254-272 | a dialled peer stays connecting, and is not dialled again, until it connects or disconnects |
| PeerTable.DialledForEverExactly | src/connection.cpp:113-138 | it stays so for ever exactly if neither happens, as a failed dial is not reported |
| PeerTable.AttemptsStayWithinExactly | src/peer_manager.cpp:236-277 | attempts keep connected and dialled peers within the limit exactly if nobody is being dialled yet or the places left suffice for all who are eligible |
| PeerTable.DisconnectSparesExactly | src/connection.cpp:24-29 | a closing connection leaves all other entries alone exactly if it is the one entered for its peer, or none is |
| PeerTable.EntryExactly | src/peer_manager.cpp:129-170 | after any history a connection is entered for an id exactly if it was the last to connect as that id and nothing has disconnected the id since |
| PeerTable.LateDisconnect | src/connection.cpp:108-111 | a superseded connection that closes late drops its live successor, and the peer can be dialled again if it has an address |
| Correlation.PendingExactly | src/peer_manager.cpp:1091-1149 | the table holds exactly the requests issued and not yet answered or cancelled, with their handlers |
| Correlation.CalledExactly | src/peer_manager.cpp:1134-1149 | a response runs a handler exactly when it is the first to settle the request issued under its id, and it is that request's handler |
| Correlation.SettledAtMostOnce | src/peer_manager.cpp:1129-1149 | no handler runs twice or after a cancel that returned true, and no cancel succeeds after it ran |
| Correlation.Requests.Issue | src/peer_manager.cpp:1099-1105 | a fresh id with its handler is pending |
| Correlation.Requests.Cancel | src/peer_manager.cpp:1129-1132 | the request is gone, and whether it was there |
| Correlation.Requests.Respond | src/peer_manager.cpp:1134-1149 | the handler, if any, is taken out |
| Correlation.FollowIssued | src/peer_manager.cpp:1099-1132 | whatever other threads do between issue and cancel, the rest of the table is as if the request had not been made, and it is pending exactly if none of them settled it |
| Correlation.HandledIssued | src/peer_manager.cpp:1134-1149 | the handlers they run are those they would have run anyway, and the request's own at the first response that no cancel preceded |
| Correlation.FollowHistory | src/peer_manager.cpp:1091-1149 | such a stretch of events continues the history of the table |
| Correlation.Requests.RequestFileChunk | src/peer_manager.cpp:1091-1127 | an id exactly if the peer is connected and the message handed over; table and handlers run for any events of other threads in between; a request not sent leaves the table as those events alone would |
| Aggregation.FiresAtTheLast | src/peer_manager.cpp:678-692 | whatever notifications come, the handler runs at the one that is as late as there are peers, once, with local items and all lists in order |
| Aggregation.SettledExactly | src/peer_manager.cpp:647-731 | in every run a peer is settled once when it has been asked and nothing of it is pending, and once more exactly if its hand-over failed after its answer |
| Aggregation.OnceExactly | src/peer_manager.cpp:694-731 | no peer is ever settled twice, exactly if no hand-over fails after its request was answered |
| Aggregation.FiresExactly | src/peer_manager.cpp:678-692 | in every run the handler has run exactly if as many notifications are in as there are peers, once, with the lists of the first of them |
| Aggregation.ListsAreAnswers | src/peer_manager.cpp:704-731 | every list notified or on its way was the answer to a pending request to that peer, or is empty for a peer out of reach |
| Aggregation.FiresEarlyExactly | src/peer_manager.cpp:647-731 | when it runs, some peer is missing exactly if a peer settled twice has been notified for twice |
| Aggregation.FiresWhenAllAreDone | src/peer_manager.cpp:647-731 | without such a hand-over no peer completes twice and the handler has run exactly when all have completed |
| Aggregation.FiresInTheEnd | src/peer_manager.cpp:647-731 | once all are asked, nothing is pending and no notification is on its way, all have completed and the handler has run once |
| Aggregation.GuessedAnswerFiresEarly | src/peer_manager.cpp:694-731 | a run in which a forged answer makes the handler run although the second peer was never asked |
| Aggregation.RequestPeerListing | src/peer_manager.cpp:610-637 | issue, hand-over and withdrawal of one request, with other threads at the seams, as steps of a run |
| Aggregation.RequestHashListingAll | src/peer_manager.cpp:647-708 | the loop over the peers is a run of the fan-out, whatever other threads do at its seams, and leaves table, context and pending notifications in its last state |
| Aggregation.AwaitsTheReached | src/peer_manager.cpp:694-705 | if nobody answers meanwhile, as many completions are awaited after the loop as requests got through, and the handler has run exactly if none did |
| Aggregation.AggregateContext.constructor | src/peer_manager.cpp:656-676 | local items first; without peers the handler runs at once |
| Aggregation.AggregateContext.Notify | src/peer_manager.cpp:678-692 | items are appended, and the list is handed out at the last completion only |
| Connection.Sender.constructor | src/connection.cpp:31-45 | our announcement is the first line given to the link, the peer list the second |
| Connection.Sender.Send | src/connection.cpp:75-86 | the line is queued after all others |
| Connection.Sender.WriteDone | src/connection.cpp:88-106 | lines go out one by one in order, and after a failed write none does |
| Connection.LineReader.Receive | src/connection.cpp:47-73 | the lines handled are those of the bytes, however they are cut into segments |
| Connection.LinesOfFrames | src/connection.cpp:75-76 | framed lines are read back as they were written, and an incomplete one is not |
| Connection.Lines | src/connection.cpp:47-73 | no line handled is empty or has a line break |
| Connection.ReceivesInOrder | src/connection.cpp:47-106 | what is handled is a prefix of what was sent, and all that was written in full once it has arrived |
| Connection.AnnouncementComesFirst | src/connection.cpp:31-45 | the first line handled at the other end is the sender's own announcement |
| Gossip.GossipPeer.AddPeerDiscovered | src/peer_manager.cpp:97-126 | the address known for a peer other than ourselves is the latest |
| Gossip.GossipPeer.BroadcastJson | src/peer_manager.cpp:172-195 | one posted broadcast to all connections but the excluded peer's, or none |
| Gossip.GossipPeer.OnConnected | src/peer_manager.cpp:129-159 | a new connection is entered and is sent the peer list |
| Gossip.GossipPeer.HandleMessage | src/peer_manager.cpp:823-869 | the announcement and list branches: new state, new binding, broadcasts and reply |
| Gossip.TargetsExactly | src/peer_manager.cpp:172-181 | a broadcast goes to exactly the connections of the peers other than the excluded one |
| Gossip.AnnouncementIsPassedOn | src/peer_manager.cpp:836-842 | an announcement with id, address and hops left is passed on with exactly that id and address and one hop fewer, to exactly the connections of the peers it is not about; any other is not |
| Gossip.ListIsPassedOn | src/peer_manager.cpp:858-869 | every named entry of a list is passed on likewise, with its own address and three hops, and nothing else is |
| Gossip.LastEntryIsKnown | src/peer_manager.cpp:858-869 | the address known for a peer after a list is that of its last entry there |
| Gossip.NewcomerIsTold | src/peer_manager.cpp:129-159 | a connection is answered exactly when it becomes that of a peer that had another or none, with one list of everybody known at the addresses known |
| Gossip.BindingChangesExactly | src/peer_manager.cpp:840-857 | when a message changes a connection's binding, and to whom |
| Gossip.BoundAlongExactly | src/peer_manager.cpp:830-857 | the bindings that the handler leaves along a connection's stream depend on its messages alone, whatever else the peer does in between |
| Gossip.BindsToSenderExactly | src/peer_manager.cpp:830-857 | a connection whose first message is its remote's own announcement is bound by the handler to that remote, whatever follows, exactly when the remote has an address |
| GossipTable.EventIsViewed | src/peer_manager.cpp:97-277 | every event of the peer table is, for gossip, what its own model takes it for; states, names and dialling do not reach it |
| GossipTable.HistoryIsViewed | src/peer_manager.cpp:97-277 | so the two models of the table agree along every history |
| GossipNet.HandlePosts | src/peer_manager.cpp:834-869 | broadcasts name only peers named in the message, with one hop fewer or three hops |
| GossipNet.SendAllReaches | src/peer_manager.cpp:184-195 | a broadcast arrives at an end once for each time its open mate is a target |
| GossipQuiet.HandlingPays | src/peer_manager.cpp:823-869 | handling a message posts and sends less than the message weighed |
| GossipQuiet.GossipIsBounded | src/peer_manager.cpp:823-869 | with no new connections, deliveries and broadcasts of any run, closings included, are at most the weight of the start, for any hop counts |
| GossipQuiet.NeverStuck | src/peer_manager.cpp:172-195 | a run can stop only when every message to an open end has been delivered |
| GossipBinding.HandleBinds | src/peer_manager.cpp:840-857 | the next message of a faithful connection binds it to its remote or leaves it so bound |
| GossipBinding.BindsTrueIdentity | src/peer_manager.cpp:823-857 | in every run with honest peers, connections opening and closing as it goes, bindings are true, the connection kept for an id is open and leads to it, and no binding ever changes |
| GossipTruth.HandlingStaysTrue | src/peer_manager.cpp:823-869 | a peer that knows true addresses and handles a true message passes on, answers and knows only true ones |
| GossipTruth.AddressesAreTrue | src/peer_manager.cpp:823-869 | in every run with honest peers any announcement, list entry or known address of a peer carries the address it announces itself |
| Registry.DirGuidRegistry.Load | src/MeshCLI.hpp:5021-5069 | the loaded maps agree both ways, duplicates dropped, up to the first unreadable entry |
| Registry.LoadKeepsExactly | src/MeshCLI.hpp:5021-5069 | of entries with one path only the first is looked at, and of those with one GUID the first of these is kept; what record it becomes |
| Registry.LoadStops | src/MeshCLI.hpp:5021-5069 | an unreadable entry ends the loading |
| Registry.DirGuidRegistry.Remember | src/MeshCLI.hpp:5124-5161 | path and GUID are mapped, a displaced record dropped, the old path freed |
| Registry.DirGuidRegistry.Assign | src/MeshCLI.hpp:3855-3925 | exactly when the assignment is allowed, the new state, and whom it displaces |
| Registry.DirGuidRegistry.Forget | src/MeshCLI.hpp:3927-3949 | the record and whatever its path leads to are gone |
| Registry.DirGuidRegistry.Reconcile | src/MeshCLI.hpp:5217-5259 | every record is walked once, is active exactly if it is watched or its path was seen or exists, and the inactive ones are returned |
| Registry.AlwaysAgrees | src/MeshCLI.hpp:3855-5259 | after any history a path leads to an active record of that path, so no GUID has two paths |
| Registry.RememberMeaning | src/MeshCLI.hpp:5124-5161 | path and GUID lead to each other, the record that had the path is gone, the GUID's old path is free, and all else stays |
| Registry.AssignMeaning | src/MeshCLI.hpp:3897-3925 | the same, but the record that had the path becomes inactive |
| Registry.ForgetMeaning | src/MeshCLI.hpp:3927-3949 | record and path are gone, and all else stays |
| Registry.ForgetKeepsCompleteExactly | src/MeshCLI.hpp:3927-3949 | forgetting detaches another active record exactly when that one has taken over the path |
| Registry.AssignKeepsCompleteExactly | src/MeshCLI.hpp:3897-3913 | the same for an assignment to another path |
| Registry.RememberKeepsCompleteExactly | src/MeshCLI.hpp:5144-5159 | the same for a remembered mapping |
| Registry.ReconcileMeaning | src/MeshCLI.hpp:5224-5250 | records are active exactly if seen, and a path leads to the last walked of those that share it, if seen |
| Registry.ReconcileCompletesExactly | src/MeshCLI.hpp:5217-5259 | for every order of the walk both maps agree afterwards, exactly when no seen record shares its path |
| Watch.MinElement | src/MeshCLI.hpp:1985-1988 | the first of the earliest entries |
| Watch.WatchLoop.Pass | src/MeshCLI.hpp:1977-2011 | nothing runs exactly when nothing is due; otherwise the longest overdue watch does, and is put back by its interval |
| Watch.OthersRunOnce | src/MeshCLI.hpp:1977-2011 | while a watch is due, another does not run twice before it |
| Watch.NeverWaitsTwiceExactly | src/MeshCLI.hpp:1999-2001 | that holds exactly for positive intervals, or a zero interval later in the list |
| Watch.DueWatchWaitsForOthersOnce | src/MeshCLI.hpp:1977-2011 | with n watches a due one waits for fewer than n runs |
| Meter.ScaledPositionExact | src/MeshCLI.hpp:2602-2607 | the slot boundary is the exact quotient and does not exceed the size |
| Meter.ScaledPositionFits | src/MeshCLI.hpp:2602-2607 | nothing on the way to it overflows 64 bits |
| Meter.ScaledPositionGrows | src/MeshCLI.hpp:2608-2616 | boundaries do not go back, and with enough bytes every slot has one |
| Meter.FillSlot | src/MeshCLI.hpp:2617-2637 | what the loop over the chunks counts, wrap-around included, and that it is exactly the complete bytes of the slot if its last chunk ends below 2^64 |
| Meter.FillExactly | src/MeshCLI.hpp:2622-2637 | that is so for every pattern of complete chunks exactly if that chunk ends below 2^64 |
| Meter.FormatBar | src/MeshCLI.hpp:2587-2645 | one character per slot, given by what the loop counts there, which is the complete bytes of the slot if its last chunk ends below 2^64 |
| Meter.LevelMeaning | src/MeshCLI.hpp:2638-2644 | which fill each character stands for |
| Meter.SlotsAddUpExactly | src/MeshCLI.hpp:2608-2637 | what the loops of all slots count is the file's complete bytes, for every pattern of chunks, exactly when there are at least as many bytes as slots and the last chunk ends below 2^64 |

## Left out

- Sockets, threads and condition variables: mutex regions are atomic actions, a wait is a guard, and a lost wake-up cannot be expressed; `failure` and `shutting_down`, which the source also reads outside the mutex, are atomic flags.
- JSON, SHA-256, random numbers and clocks: texts and digests are opaque values, the hash is an unknown function, shuffles are any permutation, random names any stream that does not get stuck, times monotone readings.
- The refresh and meter threads: arrivals of peers are actions at any time; the meter callback only reads and is not part of the swarm's state.
- The progress statistics are modelled as present and fresh; with none, or with figures carried over, the counts of `SwarmContent.Accounting` are not kept by the source either.
- The second attempt reuses the vector of progress marks of the first; the marks only feed the meter, so what is complete is told by a history of writes.
- SwarmRun.SwarmDownload.RunWorkers: the class makes one step at a time; that every interleaving behaves well is proved of the transition system.
- Download.Downloader.DownloadFile: absolute paths, directory creation, registration of GUIDs and origins on the way, printing, and changes that others make to the file system meanwhile, other than a file appearing at the destination, are not modelled.
- SwarmGoodPeer.GoodPeerSufficesExactly: for a fixed list of peers; with arriving ones the exact condition is proved for the default settings and for all settings at once, not for each choice of them.
- Download.Downloader.AddConflict: conflict ids and times are left out.
- Normalisation of path texts: paths are sequences of components, and where a text is needed the normalisation is any function.
- Listing.ListDirectories: the final sorting by path is left out; the order of a listing is not part of its contract.
- Correlation.Requests.Issue: the 64-bit counter is unbounded, so ids never repeat.
- Correlation.Requests.Respond: that a response comes from the peer that was asked is not checked by the source either; running the handler is up to the caller.
- Gossip.GossipPeer.HandleMessage: names, external addresses and the dialling at the end of the list branch are in `PeerTable`; other message types are not modelled.
- GossipQuiet.GossipIsBounded: connections may close during the run but none opens, as new ones start new gossip.
- GossipBinding.BindsTrueIdentity: all peers follow the protocol.
- Meter.FormatBar: the fill level is exact; the source computes it in floating point, and the percentage after the bar is left out.
- Registry.DirGuidRegistry.Assign: the saved file, the dirty flag and the index it also updates (modelled in `DirIndex`) are left out.
- Watch.WatchLoop.Pass: what a run does, and edits of the watch list by the user, are left out.
- Conflict and ignore commands, recursive remote walks, the older whole-file transfer, chat, settings and the command line.
