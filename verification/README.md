# go-file: verified model

go-file is a BitTorrent-style client over libp2p. This project models its hard parts in
Dafny and proves what they promise.

* **The download engine.** One epoch of a torrent's event loop, from the picker's creation
  until completion or stop. `Torrents.Torrent` is the object whose handlers update its
  fields in place; each handler is proved to be a step of the transition relation
  `EventLoop.Step`, and every state of every run of that relation is safe. `Engine` holds
  the state, its invariants and the steps handlers share. `Pickers`, `PeerSets`,
  `PieceDownloaders` and `ResourceManagers` are the objects underneath, each with its own
  specification. `Sessions` puts many torrents at one resource manager, `Connections` and
  `DoubleCloses` follow which peers are connected, `Grants` on whose behalf RAM is asked for,
  `Progress` and `Deliveries` what gets through, and `Uploads` what requests read. What the
  loop records and does is also told from the events alone: `PeerRecords` and `Availability`
  (what is known of a peer), `ChokedDownloads`, `Turns` (who is asked for a piece, and what
  comes of it), `Transfers` (what a message does to a download), `Provenance` (where written
  bytes come from) and `Endings` (when a torrent completes and stops).
* **The storage mapping.** `Storage` (sections, reading, writing), `PieceLayout` (pieces
  over files), `Creation` (chunking, hashing, verifying), `PieceLengths` (their size), `CachedPieces` and `UrlJobs` /
  `UrlDownloaders` all speak about the same bytes: the files laid end to end (`Flat`).
* **Fast structures that refine simple ones.** `SegmentTrees` and `Blocklists` (a stabbing
  query against the list of ranges), `Heaps` and `PieceCaches` (an LRU heap against a map),
  `AddrLists` (two indexes against one map), `Bitfields` and `TorrentStats` (packed bytes
  against a sequence of booleans).
* **The MSE handshake.** `Mse` (key exchange, padding, stream cipher), `Handshakes` (the
  synchronisation point and the two encrypted messages), `MseStreams` (the object) and
  `MseAgreement` (both sides together).
* **The peer wire codec.** `Codec` (framing and layouts of BEP 3, section "peer messages",
  and BEP 6) and `PeerWriters` (the queue and the framing).

Where a property does not hold of the code, the code is kept and the exact condition is
proved instead: `Codec.FaithfulExactly` (an AllowedFast message is sent with the id of
Have), `CachedPieces.AnswerExactly` with `CachedPieces.BlocksTooLarge` (the 32-bit end of a cache
block may wrap around), `AddrLists.AddrList.Push` and `AddrLists.SparedExactly` with
`AddrLists.EvictionIsMiscounted` (evictions are charged to the pushing source),
`UrlJobs.WantedExactly` with `UrlJobs.EqualNamesMerge` (files of one name are merged),
`PieceLayout.AcceptedIsUsable` with `PieceLayout.OverflowAccepted` (lengths that overflow),
`Deliveries.HandledExactly` with `Deliveries.PortUnhandled` (the handler panics on Port
messages, whose case is commented out), `Connections.ClosesAgainExactly` with
`DoubleCloses.QueuedTwice` and `DoubleCloses.GoneBeforeHashed` (a channel closed twice),
`Uploads.InsideExactly` and `Uploads.ServedExactly` with `Uploads.BehindThePiece` (the sum
of a request wraps around), `Grants.AskedForConnected` with `Grants.AskedForGone` (RAM asked
for on behalf of a closed peer), `Pickers.RunningExactly` with `Pickers.CancelledCounts` (a
cancelled download goes on counting as stalled), `Handshakes.SyncAfterPad` (a pattern inside the padding
misleads the synchronisation).

What comes from outside is an input: which peers answer a dial, the answers of the RAM
manager as one torrent sees them (`Torrent.ram` logs them; `Sessions.NeverPanics` ties
the logs of all torrents to the manager), private keys, pads and how a transport splits a
read, SHA-1 and RC4 (any functions; SHA-1 yields 20 bytes), the clock, the order in which Go
visits a map, and the bodies HTTP servers deliver.

The comments in the source promise a few things the code does not do. The comment on
`AddrList.Push` says that an address already listed is left alone; the code replaces its
record (internal/addrlist/addrlist.go:70 and 99-104), and so does `AddrLists.AddrList.Insert`.
The comment on `HandshakeIncoming` describes parameters for the initial payload that it does
not have (internal/mse/mse.go:227-233); the payload is what the first reads return.

## Model

| member | source | states |
|---|---|---|
| `EventLoop.EpochSafe` | filechain/torrent_run.go:19-96 | Every state of every run of one epoch, with the queued messages at its beginning and commands to stop, satisfies all invariants: `pieceDownloaders`, `Downloading` and the picker agree, at most one piece is written and exactly then the piece channel is suspended, Done is the bitfield, a done piece has no downloader, RAM is balanced. Two panics are left, whose exact conditions are `Progress.ProgressExactly` and `Connections.ClosesAgainExactly` |
| `Progress.ProgressExactly` | filechain/torrent_run.go:19-96 | In every safe state an event that may come has a step, so that its handler comes to an end, if and only if it is not a Port message |
| `Deliveries.HandledExactly` | filechain/torrent_messagehandler.go:113-360 | Of everything the reader can deliver from a known peer, in every safe state, the handler panics on Port and on nothing else; for a connected peer no channel is closed again either |
| `Deliveries.PortUnhandled` | external/peerconn/peerreader/peerreader.go:227-233 | The input: one frame of seven bytes is read as a Port message, which has no case in the handler |
| `Deliveries.BareFrames` | external/peerconn/peerreader/peerreader.go:135-219 | From the bytes to the event: five bytes with id 0, 1, 2, 3, 14 or 15 are received as Choke, Unchoke, Interested, NotInterested, HaveAll or HaveNone |
| `Deliveries.BlockFrames` | external/peerconn/peerreader/peerreader.go:147-226 | The same for ids 4, 6, 7, 8, 16 and 17, with the numbers they carry |
| `Deliveries.BitfieldFrame` | external/peerconn/peerreader/peerreader.go:155-161 | A bitfield message arrives with its size and, when that fits, its bits |
| `EventLoop.EpochStartSafe` | filechain/torrent_allocation.go:52-79 | The state after the completion check, the replay of the queued messages, the announcers and the first start of downloads is safe |
| `EventLoop.LeadsRun` | filechain/torrent_peer.go:130-138 | That beginning is itself a run of the epoch, so what holds of runs holds of it |
| `EventLoop.StepInv` | filechain/torrent_messagehandler.go:18-111 | Each case of the loop keeps the invariants, and sets a bit only by a successful write of a piece that had none |
| `EventLoop.StepSound` | filechain/torrent_messagehandler.go:18-111 | Each case keeps every downloader collecting blocks of a piece of the torrent, and only whole pieces are written |
| `EventLoop.DoneOnce` | filechain/torrent_write.go:36-43 | In one run no piece is completed twice: "already have the piece" is unreachable |
| `EventLoop.FinishedWriting` | filechain/torrent_messagehandler.go:86-110 | When the last block arrives the piece is neither being written nor done: "piece is already writing" is unreachable |
| `EventLoop.CancelEachInv` | filechain/torrent_write.go:46-53 | After the loop over the requested peers nobody downloads the finished piece, and each of them was cancelled once |
| `EventLoop.UnmarkInv` | filechain/torrent_write.go:12-17 | Ending the write while resuming the channel keeps the invariants |
| `EventLoop.MessageInv` | filechain/torrent_messagehandler.go:113-360 | Every message that the handler gets through keeps the invariants, whether or not it closes its sender |
| `EventLoop.MessageFrame` | filechain/torrent_messagehandler.go:113-360 | No message changes the pieces, the bitfield, the phase of the torrent or a write under way |
| `PeerRecords.FlagsOfRun` | filechain/torrent_messagehandler.go:188-225 | Over every run, told from its events: a known peer counts as choking exactly when its last Choke or Unchoke message was Choke, or it began so and never said Unchoke; the same with its interest; the Fast Extension flag never changes |
| `PeerRecords.PiecesOfRun` | filechain/torrent_messagehandler.go:116-187 | Over every run, told from its events: a known peer has the pieces it announced by Have, Bitfield or HaveAll while there was something to download, and may be asked while choking for those it allowed |
| `PeerRecords.QueueOfRun` | filechain/torrent_messagehandler.go:317-337 | Over every run: the request queue of a peer is that of its first extension handshake, and there is none before it |
| `PeerRecords.StepRecorded` | filechain/torrent_messagehandler.go:113-360 | Each case of the loop takes up in the record of every peer, new ones included, exactly what the event says about it |
| `PeerRecords.InterestExactly` | filechain/torrent_messagehandler.go:362-388 | After an announcement we are interested in the peer exactly when it has a piece that is still missing |
| `Availability.HavingOfRun` | external/piecepicker/piecepicker.go:150-206 | Over every run that begins with empty bitfields: the picker counts a connected peer among those that have a piece exactly when the peer announced it |
| `ChokedDownloads.ChokedOfRun` | filechain/torrent_messagehandler.go:204-220 | Over every run: a download from a peer whose last word is Choke is of a piece it allowed, or the picker counts the peer as choked for it, and then without the Fast Extension no request is out |
| `ChokedDownloads.BegunWhileChoking` | external/piecepicker/piecepicker.go:216-245 | What any step begins for a choking peer is an allowed-fast download |
| `Turns.TurnsTaken` | filechain/torrent_start.go:178-203 | While the torrent downloads nobody is passed over: RAM is requested for the sender of new pieces, of an Unchoke without a download, and of a last block, for the others that downloaded a written piece, and after a choke, a corrupt piece or at the start for every connected peer without a download |
| `Turns.GrantOutcome` | filechain/torrent_start.go:205-231 | With RAM in hand a download begins, of a piece the peer has and that is neither done nor being written, with as many requests as allowed; or the RAM goes back, from an idle unchoked peer only when each piece it has that may be asked once more is still being delivered by somebody |
| `Turns.AskOutcome` | filechain/torrent_start.go:190-203 | Asking is refused for now, begins a download, or gives the RAM back; nothing else changes |
| `Transfers.ReceivedExactly` | filechain/torrent_messagehandler.go:18-111 | A new block goes to its place in the buffer and the others stay; the last one hands the whole piece to the writer, any other joins the done ones, and requests go on to the limit unless the peer chokes an ordinary download |
| `Transfers.ChokedExactly` | filechain/torrent_messagehandler.go:204-220 | After a choke without the Fast Extension nothing is in flight and every block that has not arrived is to be requested again; with it the download stays as it is |
| `Transfers.ResumedExactly` | filechain/torrent_messagehandler.go:188-203 | After an unchoke requests go on to the limit and the peer no longer counts as choked for the piece |
| `Transfers.RejectedExactly` | filechain/torrent_messagehandler.go:263-288 | A rejected block goes back behind those still to be requested |
| `Provenance.WrittenOfRun` | filechain/torrent_messagehandler.go:18-111 | In every state of every run, each block of a piece that is being written was received in a message of this run, from the peer the piece is charged to, for this piece and this place |
| `Endings.PhaseExactly` | filechain/torrent_pieces.go:16-39 | A torrent completes exactly when a written piece was the last one missing, and stops exactly on command, when a write fails, and behind completion when that is asked for |
| `Endings.BitsOfRun` | filechain/torrent_write.go:36-45 | Over every run a piece counts as done exactly when the epoch began with it or a successful write completed it |
| `EventLoop.FinishInv` | filechain/torrent_pieces.go:16-39 | Completion, and stopping after it, keep the invariants: all downloaders are closed and all RAM is given back |
| `Engine.ClosePeerCore` | filechain/torrent_close.go:28-50 | Closing a peer removes its downloader and its place in every picker set, and gives its RAM back |
| `Engine.CloseDownloaderCore` | filechain/torrent_close.go:56-72 | Closing a downloader keeps the structures in agreement and gives back exactly one piece length |
| `Engine.StartedCore` | filechain/torrent_start.go:205-231 | A downloader is started for a peer that had none, on a picked piece, within the duplicate limit; otherwise the RAM goes back |
| `Sessions.BalancedHeld` | filechain/torrent_close.go:69-71 | Between handlers a torrent holds PieceLength times its live downloaders, and it never gave back more than it held |
| `Sessions.NeverPanics` | internal/resourcemanager/resourcemanager.go:104-140 | For any number of torrents and any interleaving, at any moment and in the middle of handlers too: when what the manager has seen of each torrent begins the ledger of a safe state, no panic of the manager was reached and the missing bytes are what the torrents hold |
| `Sessions.SessionNeverPanics` | internal/resourcemanager/resourcemanager.go:104-140 | The same for torrents of which only runs of their event loops are known |
| `Sessions.LedgerGrows` | filechain/torrent_start.go:190-213 | Along a run a ledger only grows, grants that arrive after the torrent stopped included |
| `Sessions.RamConservation` | internal/resourcemanager/resourcemanager.go:104-140 | When all torrents are between handlers, limit minus available is the sum of PieceLength times live downloaders |
| `EventLoop.StoppedInv` | filechain/torrent_stop.go:23-58 | Stopping keeps the invariants and gives all RAM back, whoever is dialled meanwhile |
| `Connections.ClosesAgainExactly` | external/peer/peer.go:134-141 | In an epoch that begins with the queued messages and then hears of connected peers only, a channel is closed again exactly by the second invalid message in one queue, and by a corrupt piece whose source was closed before |
| `Connections.AgainMeansClosed` | filechain/torrent_close.go:28-50 | Over all runs: a channel is closed again exactly when the peer was closed before |
| `Connections.ReplayClosesAgain` | filechain/torrent_peer.go:130-138 | Told from the queues beforehand: the replay closes a channel again exactly when two messages queued for one connected peer are invalid |
| `DoubleCloses.QueuedTwice` | filechain/torrent_peer.go:130-138 | A run of the first kind: Have with an index past the end, queued twice |
| `DoubleCloses.GoneBeforeHashed` | filechain/torrent_write.go:19-33 | A run of the second kind: the peer disconnects while its only block is hashed, and the hash is wrong |
| `Grants.AskedForConnected` | filechain/torrent_start.go:190-203 | When no queued message is invalid, RAM is asked for on behalf of connected peers only, whose doneC is open, and only connected peers ever download |
| `Grants.NotifyPresent` | filechain/torrent_start.go:205-231 | A grant that comes too late for its peer starts nothing |
| `Grants.AskedForGone` | filechain/torrent_peer.go:130-138 | The condition is needed: behind an invalid queued message a valid one asks for RAM on behalf of a closed peer |
| `Connections.GoneMeansClosed` | filechain/torrent_close.go:28-50 | A known peer of a running torrent is no longer connected exactly when it was not connected at the beginning or an earlier case closed it |
| `Connections.StepKeeps` | filechain/torrent_run.go:19-96 | Each case of the loop drops exactly the peers it closes: an offending sender, the source of a corrupt piece, a disconnected peer, and at completion or stop those dismissed |
| `Torrents.Torrent.constructor` | filechain/torrent_allocation.go:40-60 | A torrent at the creation of its picker |
| `Torrents.Torrent.Begin` | filechain/torrent_verification.go:39-89 | Taking over a bitfield marks the same pieces Done; completion is checked, the queues are caught up with and the downloads start, ending in a safe state |
| `Torrents.Torrent.CatchUp` | filechain/torrent_peer.go:130-138 | The nested loops over peers and queues are the replay, one queue after the other, followed by the start of the downloads |
| `Torrents.Torrent.HandlePieceMessage` | filechain/torrent_messagehandler.go:18-111 | The handler is a step of the event loop |
| `Torrents.Torrent.HandlePeerMessage` | filechain/torrent_messagehandler.go:113-360 | The handler panics exactly on a Port message, and is otherwise a step of the event loop, in which every peer's record takes up what the message says and nothing else; a Choke leaves its sender choking and an Unchoke does not |
| `Torrents.Torrent.HandleRequest` | filechain/torrent_messagehandler.go:226-262 | A request is served, rejected, ignored or closes its sender, each exactly when the piece, the 32-bit sum and the choking say so |
| `Torrents.Torrent.HandlePieceWriteDone` | filechain/torrent_write.go:12-76 | The handler is a step of the event loop; it cancels every other downloader of the piece exactly once |
| `Torrents.Torrent.CancelRequested` | filechain/torrent_write.go:46-53 | The loop cancels the original requested peers in order, although its body removes from the slice it ranges over |
| `Torrents.Torrent.HandleRamNotify` | filechain/torrent_run.go:57-58 | A deferred grant is a step, before and after stopping: the downloader starts or the grant is given back |
| `Torrents.Torrent.HandleDisconnected` | filechain/torrent_run.go:85-86 | A disconnect is a step |
| `Torrents.Torrent.StartSinglePieceDownloader` | filechain/torrent_start.go:205-231 | Starts a downloader on the picked piece or releases the RAM; the peer never has one already |
| `Torrents.Torrent.StartPieceDownloaderFor` | filechain/torrent_start.go:190-203 | Asks for RAM first; starts at once, later or not at all |
| `Torrents.Torrent.StartPieceDownloaders` | filechain/torrent_start.go:178-188 | Offers every connected idle peer a piece, in any order |
| `Torrents.Torrent.ClosePieceDownloader` | filechain/torrent_close.go:56-72 | The new state of closing a downloader, which does nothing when it is not open |
| `Torrents.Torrent.ClosePeer` | filechain/torrent_close.go:28-50 | The new state of closing a peer, with any peers dialled instead; closing a channel twice is the subject of `Connections` |
| `Torrents.Torrent.CheckCompletion` | filechain/torrent_pieces.go:16-39 | Completion exactly when every bit is set |
| `Torrents.Torrent.Stop` | filechain/torrent_stop.go:23-58 | Stopping closes every peer and downloader and drops the picker; of the peers dialled meanwhile some may stay connected |
| `Torrents.Torrent.HandleStopCommand` | filechain/torrent_run.go:27-28 | The command to stop is a step, and does nothing to a stopped torrent |
| `Torrents.Torrent.StopPeers` | filechain/torrent_stop.go:115-120 | The loop over a map that grows under it ends, and leaves connected only peers dialled meanwhile |
| `Pickers.FirstIsBest` | external/piecepicker/piecepicker.go:276-300 | The first fitting piece in sorted order has minimal availability |
| `Pickers.PiecePicker.PickFor` | external/piecepicker/piecepicker.go:208-261 | No piece for an idle unchoked peer means that each piece it has with fewer than maxDuplicateDownload requests has a requested peer that is neither snubbed nor choked, and that endgame has not begun. The pick follows the order allowed-fast, rarest, endgame, stalled and is marked as requested. It is not done, not being written, held by the peer and asked from fewer than max(1, maxDuplicateDownload) peers; endgame is entered only when every unfinished piece that is not being written is requested; outside endgame an unchoked peer gets nothing only when it has no unrequested and no stalled piece |
| `Pickers.FoundStalled` | external/piecepicker/piecepicker.go:319-337 | A second peer is asked outside endgame only when at most as many are asked as are snubbed and choked, no unrequested piece is left for it, and no other such piece has fewer snubbed and choked peers |
| `Pickers.FoundNone` | external/piecepicker/piecepicker.go:319-337 | Getting no piece means that everything the peer has is requested, and what may be requested once more is being delivered |
| `Pickers.FoundRarest` | external/piecepicker/piecepicker.go:276-300 | Among unrequested pieces none is had by fewer peers than the one picked |
| `Pickers.FoundEndgame` | external/piecepicker/piecepicker.go:302-317 | In endgame no piece that may be requested once more has fewer running downloads than the one picked |
| `Pickers.FoundFast` | external/piecepicker/piecepicker.go:263-274 | An idle peer gets an allowed-fast piece whenever it has one that nobody is asked for, even while choking, and gets the first one of its list |
| `Pickers.RunningExactly` | external/piecepicker/piecepicker.go:52-64 | The number of running downloads never exceeds the requested peers that are neither snubbed nor choked, and equals them exactly when these two sets are disjoint and hold requested peers only |
| `Pickers.CancelledCounts` | external/piecepicker/piecepicker.go:180-184 | The condition is needed: a choked download that is cancelled goes on counting, and a piece that is being delivered counts as stalled |
| `Pickers.PiecePicker.HandleChoke` | external/piecepicker/piecepicker.go:169-173 | The peer joins the choked set and leaves the snubbed one; everything else stays |
| `Pickers.PiecePicker.HandleUnchoke` | external/piecepicker/piecepicker.go:175-178 | The peer leaves the choked set; everything else stays |
| `Pickers.PiecePicker.PickRarest` | external/piecepicker/piecepicker.go:276-300 | A least available unrequested candidate, or none when there is none |
| `Pickers.PiecePicker.PickEndgame` | external/piecepicker/piecepicker.go:302-317 | A least requested candidate below the duplicate limit |
| `Pickers.PiecePicker.PickStalled` | external/piecepicker/piecepicker.go:319-337 | A least stalled candidate whose downloads are all stalled |
| `Pickers.PiecePicker.PickAllowedFast` | external/piecepicker/piecepicker.go:263-274 | The first unrequested piece of the allowed-fast list |
| `Pickers.PiecePicker.HandleHave` | external/piecepicker/piecepicker.go:150-154 | The peer joins the having set; available stays the number of pieces somebody has |
| `Pickers.PiecePicker.HandleDisconnect` | external/piecepicker/piecepicker.go:186-191 | The peer leaves the having, requested and snubbed sets of every piece; the choked sets keep it |
| `Pickers.PiecePicker.HandleCancelDownload` | external/piecepicker/piecepicker.go:180-184 | Requested and Snubbed lose the peer, Choked does not |
| `Pickers.CountAvailableUpdate` | external/piecepicker/piecepicker.go:193-206 | Changing one having set changes the number of available pieces by that piece alone |
| `Pickers.AvailableCounted` | external/piecepicker/piecepicker.go:193-206 | The counter is the number of pieces that somebody has |
| `PeerSets.RemoveCorrect` | external/peerset/peerset.go:24-33 | Swap-deletion removes exactly one peer and duplicates none |
| `PeerSets.RemovedPrefixStep` | external/peerset/peerset.go:24-33 | While a loop removes, in order, the elements of the slice it ranges over, cell k of the backing array still holds the original k-th element |
| `PeerSets.AddCorrect` | external/peerset/peerset.go:13-21 | Adding keeps the elements distinct and changes nothing else |
| `PeerSets.PeerSet.Remove` | external/peerset/peerset.go:24-33 | The array-backed set removes the peer and keeps the rest |
| `PieceDownloaders.DoneExact` | internal/piecedownloader/piecedownloader.go:120-122 | Done holds exactly when every block arrived, and the buffer is then the first data received for each block, in order |
| `PieceDownloaders.RequestCorrect` | internal/piecedownloader/piecedownloader.go:101-118 | Requesting takes a first part of the remaining blocks into flight and asks for exactly those of them that have not arrived; pending never grows past the queue length, and only that length stops it early |
| `PieceDownloaders.ChokedAsksAgain` | internal/piecedownloader/piecedownloader.go:54-118 | After a choke without the Fast Extension, requesting with a queue as long as the piece asks for every block that has not arrived |
| `PieceDownloaders.ReachableHolds` | internal/piecedownloader/piecedownloader.go:54-118 | After any sequence of operations no block is lost, and each received block is in place |
| `PieceDownloaders.PieceDownloader.GotBlock` | internal/piecedownloader/piecedownloader.go:69-80 | A block received before changes nothing and is a duplicate; another one is copied to its place and joins the done ones, and the error says whether it was requested |
| `PieceDownloaders.PieceDownloader.RequestBlocks` | internal/piecedownloader/piecedownloader.go:101-118 | The loop moves blocks to pending and sends requests as specified |
| `PieceDownloaders.PieceDownloader.Choked` | internal/piecedownloader/piecedownloader.go:54-66 | Unless the download is allowed-fast or the peer has the Fast Extension, nothing is pending afterwards and every block that has not arrived remains; otherwise nothing changes |
| `PieceDownloaders.PieceDownloader.Rejected` | internal/piecedownloader/piecedownloader.go:82-86 | The block is no longer pending and comes last of those that remain |
| `Blocks.FindBlockExact` | internal/piece/piece.go:134-148 | FindBlock accepts exactly the begin and length of the blocks of the piece |
| `Blocks.BlocksTile` | internal/piece/piece.go:101-131 | The blocks follow each other without gap and end with the piece |
| `ResourceManagers.Conservation` | internal/resourcemanager/resourcemanager.go:104-180 | Over every interleaving in which clients release what they hold: no panic, 0 <= available <= limit, the missing bytes are exactly those held, and no pending list is empty |
| `ResourceManagers.LentOut` | internal/resourcemanager/resourcemanager.go:104-140 | With equal objects per client the missing bytes are the sum of size times number |
| `ResourceManagers.GrantedOnce` | internal/resourcemanager/resourcemanager.go:104-180 | Over every run a request that had to wait is granted at most as often as it was made; without cancellations each is granted once or still waiting |
| `ResourceManagers.ResourceManager.Notified` | internal/resourcemanager/resourcemanager.go:118-125 | A grant takes its bytes, counts one object and removes exactly its request |
| `ResourceManagers.ResourceManager.Cancelled` | internal/resourcemanager/resourcemanager.go:126-127 | A cancelled request leaves, and nothing else changes |
| `ResourceManagers.ResourceManager.HandleRequest` | internal/resourcemanager/resourcemanager.go:165-180 | Granted, queued behind the pending requests of its key, or cancelled without a trace |
| `ResourceManagers.ResourceManager.Delete` | internal/resourcemanager/resourcemanager.go:142-151 | Exactly the chosen request leaves: its key keeps the others, other keys keep theirs, and a key disappears exactly with its last request |
| `ResourceManagers.DeleteCorrect` | internal/resourcemanager/resourcemanager.go:142-151 | The swap with the last element removes exactly one request |
| `ResourceManagers.ResourceManager.RandomRequest` | internal/resourcemanager/resourcemanager.go:153-163 | Offers a pending request that fits; never draws from an empty list |
| `PieceLayout.AcceptedIsUsable` | internal/metainfo/info.go:63-100 | What NewInfo accepts can be laid out exactly when no length is negative, the true sum of the lengths is an int64 and the hash string is shorter than 4 GiB; the product may overflow |
| `PieceLayout.OverflowAccepted` | internal/metainfo/info.go:88-100 | Three lengths that sum to 2^64 + 1 are accepted as one byte |
| `PieceLayout.HashPlaceExactly` | internal/metainfo/info.go:296-302 | A hash is looked for at its place exactly when the end of that place fits in 32 bits |
| `PieceLayout.NewPieces` | internal/piece/piece.go:33-98 | Terminates inside the file list; every piece covers its interval of the files, all but the last have full length, and consecutive sections continue a file or begin the next |
| `PieceLayout.CutPiece` | internal/piece/piece.go:67-93 | The sections of one piece tile its interval, zero-length files included |
| `PieceLayout.LayoutTiles` | internal/piece/piece.go:33-98 | The sections of piece i read exactly its interval of the concatenated files |
| `PieceLayout.WriteAll` | internal/filesection/section.go:60-71 | After writes in any order each piece holds the last bytes written to it, and no write disturbs another piece |
| `PieceLayout.ReadPiece` | internal/filesection/section.go:26-56 | Reading inside the piece returns the bytes last written there, crossing the end is refused, and a position behind the end is out of range |
| `Storage.Disk.ReadAt` | internal/filesection/section.go:26-56 | The chained section readers deliver the requested slice or unexpected EOF; behind the last section the list is indexed out of range |
| `Storage.Disk.Write` | internal/filesection/section.go:60-71 | Writing over the sections overwrites one interval of the concatenated files and nothing else |
| `Storage.TilesBytes` | internal/filesection/section.go:26-56 | Sections that tile an interval read as that interval |
| `Storage.FlatUpdate` | internal/filesection/section.go:60-71 | Overwriting part of one file overwrites the same part of the concatenation |
| `Creation.CreateThenVerify` | internal/verifier/verifier.go:38-73 | For any files with content and less than 4 GiB of hashes, the created metadata is accepted and verifying its pieces sets every bit |
| `Creation.NewInfoBytes` | internal/metainfo/info.go:185-295 | Refuses exactly files without content and piece lengths that are no multiple of 16 KiB; without a piece length takes a power of two from 32 KiB to 16 MiB: 32 KiB up to 2000 pieces of it, 16 MiB from 2000 pieces of it, and between them the least that is not below a 2000th of the content |
| `Creation.CreatedIsUsable` | internal/metainfo/info.go:185-295 | Created metadata is accepted and can be laid out exactly when its hash string is shorter than 4 GiB, and hash i is then the hash of the bytes NewPieces gives to piece i |
| `Creation.HashFiles` | internal/metainfo/info.go:220-274 | The chunking loop hashes the concatenated files chunk by chunk, across file boundaries |
| `Creation.HashFile` | internal/metainfo/info.go:234-266 | One file continues the chunk the last file began |
| `Creation.Verify` | internal/verifier/verifier.go:38-73 | Bit i is set exactly when the bytes of piece i have its hash |
| `PieceLengths.NextPowerOfTwoCorrect` | internal/metainfo/info.go:331-342 | The shifts and ors give the least power of two that is not smaller |
| `PieceLengths.CalculatedFits` | internal/metainfo/info.go:323-343 | The calculated piece length is a power of two within the two limits, each exactly where it belongs |
| `Creation.HashesAt` | internal/metainfo/info.go:297-302 | Hash i is found at its place in the string of hashes |
| `PieceCaches.Cache.Get` | internal/piececache/cache.go:103-177 | A hit returns the source value and becomes most recent; a failed or oversized load changes nothing; a loaded value is listed after evicting only least recently used items and no more than needed |
| `PieceCaches.Cache.MakeRoom` | internal/piececache/cache.go:189-194 | Terminates without indexing an empty list; each eviction removes a least recently used item |
| `PieceCaches.Cache.RemoveItem` | internal/piececache/cache.go:196-201 | Exactly one item leaves map, heap and size |
| `PieceCaches.Cache.Expire` | internal/piececache/cache.go:168-174 | An expired item leaves and the rest stays |
| `PieceCaches.Cache.HandleNewItem` | internal/piececache/cache.go:146-177 | The item joins map, heap and size |
| `PieceCaches.Cache.UpdateAccessTime` | internal/piececache/cache.go:179-187 | Only the access time changes and the heap is repaired |
| `PieceCaches.Cache.Swap` | internal/piececache/item.go:27-31 | Swapping keeps every back-index exact |
| `PieceCaches.Cache.Up` | internal/piececache/item.go:23-38 | Sifting up restores the heap order and keeps the back-indices exact |
| `PieceCaches.Cache.Down` | internal/piececache/item.go:23-31 | Sifting down restores the heap order or leaves it to sifting up |
| `PieceCaches.LeastRecent` | internal/piececache/cache.go:189-194 | The head of the list was used no later than any other item |
| `PieceCaches.RoomStep` | internal/piececache/cache.go:189-194 | Removing the head keeps the eviction least-recently-used and minimal |
| `PieceCaches.WeightRemove` | internal/piececache/cache.go:196-201 | Removing a key takes exactly its length off the total |
| `Heaps.UpStep` | internal/piececache/item.go:23-31 | One exchange with the parent moves the only violation up |
| `Heaps.DownStep` | internal/piececache/item.go:23-31 | One exchange with the smaller child moves the only violation down |
| `Heaps.RootIsLeast` | internal/piececache/item.go:23-25 | The root of a heap is a least element |
| `CachedPieces.CachedPiece.ReadAt` | internal/cachedpiece/cachedpiece.go:29-53 | For every positive read size and every 32-bit position, behind the end as well, from the cache or from disk: the bytes, the failure or the panic of `CachedPieces.Answer` |
| `CachedPieces.AnswerExactly` | internal/cachedpiece/cachedpiece.go:29-53 | A read returns what the piece holds, up to the end of the cache block, exactly when it begins inside the piece and the end of that block fits in 32 bits or wraps behind the piece, or the read ends before the wrapped end of an only block |
| `CachedPieces.AnswerOf` | internal/cachedpiece/cachedpiece.go:30-52 | The 32-bit size is the length of the block, reaches behind the piece, or stops at the wrapped end; a block behind the piece is indexed out of range |
| `Uploads.InsideExactly` | filechain/torrent_messagehandler.go:238-242 | A request that passes the 32-bit test lies inside its piece if and only if the true sum of begin and length is below 2^32 |
| `Uploads.RefusedExactly` | filechain/torrent_messagehandler.go:228-234 | As long as the true sum is a 32-bit number exactly the requests beyond the end are refused |
| `Uploads.ServedExactly` | filechain/torrent_messagehandler.go:238-262 | A request that passes the test reads as the bytes asked for if and only if, besides, they lie in one cache block that is kept as far |
| `Uploads.BehindThePiece` | filechain/torrent_messagehandler.go:238-242 | The input: 32 bytes from 16 below 2^32 pass the test and are read out of range |
| `CachedPieces.CachedPiece.ReadBlock` | internal/cachedpiece/cachedpiece.go:29-53 | With whole blocks as the read size, every block of the piece is read exactly if and only if its cache block fits |
| `CachedPieces.AlwaysFits` | internal/cachedpiece/cachedpiece.go:30-35 | Piece length and read size together up to 4 GiB are enough |
| `CachedPieces.BlocksTooLarge` | internal/cachedpiece/cachedpiece.go:30-52 | Inputs that fail, panic and come back empty |
| `CachedPieces.KeyInjective` | internal/cachedpiece/cachedpiece.go:37-40 | Keys of one torrent differ for different pieces and blocks |
| `CachedPieces.NoStraddle` | internal/cachedpiece/cachedpiece.go:30-35 | With whole blocks as the read size no block straddles two cache blocks |
| `SegmentTrees.QueryExact` | internal/blocklist/stree/stree.go:120-132 | A query returns, by id, exactly the added intervals that meet it |
| `SegmentTrees.QueryReturns` | internal/blocklist/stree/stree.go:120-132 | With up to 2^32 intervals it returns exactly the intervals themselves |
| `SegmentTrees.UniqueExactly` | internal/blocklist/stree/stree.go:25-28 | Ids stay distinct exactly up to 2^32 insertions |
| `SegmentTrees.BuiltCorrect` | internal/blocklist/stree/stree.go:40-55 | The built tree stores every interval over its segments and nothing else |
| `SegmentTrees.Dedup` | internal/blocklist/stree/stree.go:83-97 | In place: the distinct values in increasing order |
| `SegmentTrees.Witness` | internal/blocklist/stree/stree.go:57-67 | Whatever meets an interval meets an elementary interval inside it |
| `SegmentTrees.InsertCovers` | internal/blocklist/stree/node.go:12-28 | Inserting covers exactly the leaves inside the interval and changes nothing for the others |
| `SegmentTrees.InsertSound` | internal/blocklist/stree/node.go:12-28 | An interval is stored only at nodes inside it |
| `SegmentTrees.InsertNodesCorrect` | internal/blocklist/stree/stree.go:99-112 | The balanced tree has the given leaves and spans them |
| `SegmentTrees.QueryCollects` | internal/blocklist/stree/node.go:30-43 | The recursion collects what the visited nodes store |
| `SegmentTrees.Stree.Build` | internal/blocklist/stree/stree.go:40-55 | Building keeps the intervals and yields a tree that answers for them |
| `SegmentTrees.Stree.Contains` | internal/blocklist/stree/stree.go:115-118 | A value is contained exactly when some added interval holds it |
| `Blocklists.RangeIsNetwork` | internal/blocklist/blocklist.go:109-125 | The range computed from a rule holds exactly the addresses that have the same quotient by 2^(32 - ones) as the rule (section 3.1 of RFC 4632) |
| `Blocklists.NetworkIsPrefix` | internal/blocklist/blocklist.go:122-123 | Two addresses have the same masked bytes exactly when they have the same quotient by 2^(32 - ones) |
| `Blocklists.MaskingIsBitwise` | internal/blocklist/blocklist.go:122-123 | The arithmetic used for masks is the bitwise AND and OR of the code, byte by byte |
| `Blocklists.LexicographicRange` | internal/blocklist/blocklist.go:51-52 | A range of 32-bit numbers with a pinned prefix is a range of every byte |
| `Blocklists.Blocklist.Reload` | internal/blocklist/blocklist.go:55-102 | New rules, exactly the usable lines, replace the old ones unless reading fails or only unusable lines were found |
| `Blocklists.Blocklist.Blocked` | internal/blocklist/blocklist.go:41-52 | Blocked exactly when the address as a number has the same quotient by 2^(32 - ones) as some loaded rule |
| `UrlJobs.CreateJobs` | internal/urldownloader/job.go:13-48 | The nested loops gather the jobs of the sections of the range |
| `UrlJobs.JobsFetchSections` | internal/urldownloader/job.go:13-48 | When no two files with content are merged, no job is empty or leaves its file, and together they fetch exactly the bytes of the sections |
| `UrlJobs.WantedExactly` | internal/urldownloader/job.go:13-48 | In any layout, empty files included, the loop lists one job per file with content if and only if no two such files have only one name from the one to the other, and the first section is named or begins its file |
| `UrlJobs.MergesCost` | internal/urldownloader/job.go:27-42 | Each merge of two files costs one job |
| `UrlJobs.WantedGood` | internal/urldownloader/job.go:13-48 | One job per file stretch fetches exactly the sections |
| `UrlJobs.NeighboursDiffer` | internal/urldownloader/job.go:28-31 | Different names of neighbouring files are enough for that condition |
| `UrlJobs.EqualNamesMerge` | internal/urldownloader/job.go:28-31 | Neighbours of one name become one request past the end of the first |
| `UrlDownloaders.Download` | internal/urldownloader/urldownloader.go:74-144 | Jobs of a layout, answered in full, are delivered as the pieces of the range one by one, each under its index and with its own bytes, Done on the last alone |
| `UrlDownloaders.URLDownloader.Run` | internal/urldownloader/urldownloader.go:74-144 | Every piece once, in order and with its bytes, Done on the last; on the first incomplete response, the pieces received in full and an error |
| `UrlDownloaders.URLDownloader.ProcessJob` | internal/urldownloader/urldownloader.go:91-135 | One response is cut at piece boundaries |
| `UrlDownloaders.URLDownloader.Take` | internal/urldownloader/urldownloader.go:117-132 | A full buffer is delivered and the next piece begins |
| `UrlDownloaders.URLDownloader.CalcReadSize` | internal/urldownloader/urldownloader.go:146-153 | Reads up to the end of the piece or of the response, whichever is nearer |
| `UrlDownloaders.PartIsPiece` | internal/urldownloader/urldownloader.go:117-132 | What is cut out for piece q is piece q of the torrent |
| `AddrLists.AddrList.Push` | internal/addrlist/addrlist.go:71-122 | Both indexes stay in step, without nils, sorted by time and within the limit; only the oldest addresses go; the counters change as stated and add up to the length; when each source's counter was right, it stays right exactly when only addresses of the pushing source are evicted |
| `AddrLists.PushTallies` | internal/addrlist/addrlist.go:93-118 | That condition, for every source |
| `AddrLists.PushedExactly` | internal/addrlist/addrlist.go:76-107 | What is listed under a priority is the last address of that priority that has a port and is neither own, outside nor blocked, or else what was there before |
| `AddrLists.SparedExactly` | internal/addrlist/addrlist.go:110-118 | The condition before the call: every address of another source has as many older ones as there are too many |
| `AddrLists.RoomOrOneSource` | internal/addrlist/addrlist.go:114-115 | It holds when nothing is too many or all addresses have one source |
| `AddrLists.Drift` | internal/addrlist/addrlist.go:112-118 | Otherwise a counter is off by what its source lost, less what was charged to it |
| `AddrLists.AddrList.Pop` | internal/addrlist/addrlist.go:59-68 | The address of the highest priority leaves and its source is debited; right counters stay right |
| `AddrLists.AddrList.Insert` | internal/addrlist/addrlist.go:92-107 | The address replaces the one of its priority or is appended |
| `AddrLists.AddrList.FilterNils` | internal/addrlist/addrlist.go:124-133 | In place: exactly the records, in their order, with new indices |
| `AddrLists.AddrList.Sort` | internal/addrlist/peeraddr.go:29-45 | A permutation sorted by time, with exact indices |
| `AddrLists.AddrList.RemoveExcessItems` | internal/addrlist/addrlist.go:135-140 | The oldest records leave both indexes |
| `AddrLists.SyncLength` | internal/addrlist/addrlist.go:119-121 | Without nils both indexes have the same length: "not in sync" is unreachable |
| `AddrLists.EvictionIsMiscounted` | internal/addrlist/addrlist.go:114-118 | A run after which two sources have wrong counters |
| `AddrLists.AddrList.Reset` | internal/addrlist/addrlist.go:42-46 | An empty list with right counters |
| `Mse.SharedSecret` | internal/mse/mse.go:134-145 | Both sides compute the same secret |
| `Mse.PaddedKeyRoundTrip` | internal/mse/mse.go:448-457 | A public key is sent as 96 bytes and reads back as the same number |
| `Mse.FirstIsHighest` | internal/mse/mse.go:142-144 | Numbers are read with the highest byte first |
| `Mse.Delivered` | internal/mse/mse.go:374-390 | Bytes encrypted at a position of the key stream decrypt at the same position, whatever follows |
| `MseInstance.OriginalIsValid` | internal/mse/mse.go:48-55 | The modulus and exclusive or of the original meet what is asked of them |
| `Handshakes.ScanExact` | internal/mse/mse.go:401-422 | The scan stops at the first occurrence if it lies within the byte budget |
| `Handshakes.SyncAfterPad` | internal/mse/mse.go:401-422 | Synchronisation lands right behind the padding exactly when the pattern does not occur in it |
| `Handshakes.RequestRoundTrip` | internal/mse/mse.go:174-186 | The request reads back with method and payload, and is read to its end; the refusals are exact |
| `Handshakes.AnswerRoundTrip` | internal/mse/mse.go:342-352 | The answer reads back with its method and is read to its end |
| `Handshakes.SingleMethod` | internal/mse/mse.go:459-459 | isPowerOfTwo accepts single methods only |
| `Handshakes.SharedBit` | internal/mse/mse.go:196-199 | Methods that pass the test share a bit |
| `Handshakes.AcceptedExactly` | internal/mse/mse.go:186-199 | A selection is accepted exactly when it is one single method and was provided; the error says what failed |
| `Handshakes.BitIsShared` | internal/mse/mse.go:324-327 | Methods that share a bit pass the test |
| `MseStreams.XorUncovers` | internal/mse/mse.go:461-469 | The responder recovers the hash the initiator hid |
| `MseStreams.RequestBytes` | internal/mse/mse.go:151-167 | Step 3 byte by byte: which texts are hashed, what hides what, and what is encrypted |
| `MseStreams.AnswerBytes` | internal/mse/mse.go:342-352 | Step 4 byte by byte before encryption |
| `MseStreams.Stream.ReadSync` | internal/mse/mse.go:401-422 | The sliding window is the specified scan and leaves the stream right behind the pattern |
| `MseStreams.Stream.ContinueOutgoing` | internal/mse/mse.go:136-192 | Step 3 as sent, and the positions of both ciphers |
| `MseStreams.Stream.FinishOutgoing` | internal/mse/mse.go:194-227 | Result and state for any bytes of the peer, errors included |
| `MseStreams.Stream.FinishIncoming` | internal/mse/mse.go:271-371 | Result, step 4 and state for any bytes of the peer, errors included |
| `MseStreams.Stream.ReadKey` | internal/mse/mse.go:139-146 | Between 96 and 608 bytes are read and the key is the first 96 |
| `MseAgreement.Handshake` | internal/mse/mse.go:103-372 | For all keys, pads below 512 bytes, payloads and read splits, without a pattern in the padding: same method, payload first; traffic is plain exactly when plain text was selected, and otherwise each direction is encrypted under the hash of its own name, S and the stream key, 1024 bytes and the length of its own handshake text into the key stream |
| `MseAgreement.SameSecret` | internal/mse/mse.go:136-145 | S is the same on both sides |
| `MseAgreement.SecretExactly` | internal/mse/mse.go:134-145 | S is 2^(xy) mod p and a public key is 2^x mod p |
| `MseAgreement.ReceivedAgrees` | internal/mse/mse.go:271-341 | The responder finds and reads exactly the request |
| `MseAgreement.AnsweredAgrees` | internal/mse/mse.go:194-224 | The initiator finds the answer and stops right behind PadD |
| `MseAgreement.Send` | internal/mse/mse.go:94-94 | Written bytes join what the peer has still to read |
| `MseAgreement.Receive` | internal/mse/mse.go:91-91 | Reads return what was written, in order, the initial payload first |
| `Codec.StreamRoundTrip` | external/peerconn/peerreader/peerreader.go:75-264 | Any sequence of frames with keep-alives anywhere is read back message by message |
| `Codec.FaithfulExactly` | external/peerprotocol/messages.go:98-98 | The sequence itself arrives exactly when it contains no AllowedFast message |
| `Codec.FrameRoundTrip` | external/peerconn/peerwriter/peerwriter.go:212-236 | One frame is consumed exactly and yields its message |
| `Codec.BodyRoundTrip` | external/peerprotocol/messages.go:14-146 | Every layout reads back its fields |
| `Codec.FrameBytes` | external/peerprotocol/messageid.go:9-26 | The bytes of each kind of message, lengths and ids included (BEP 3 and BEP 6) |
| `Codec.UnknownSkipped` | external/peerconn/peerreader/peerreader.go:246-253 | A message of an unknown kind is passed over as a whole |
| `Codec.AllowedFastRead` | external/peerconn/peerreader/peerreader.go:220-226 | Id 17 is read as AllowedFast, which this program sends with id 4 |
| `BigEndian.Be32Bytes` | external/peerprotocol/messages.go:22-25 | A number goes out in four bytes, the highest first |
| `Codec.OversizedRequest` | external/peerconn/peerreader/peerreader.go:163-179 | A request above the block size ends the connection |
| `Codec.Run` | external/peerconn/peerreader/peerreader.go:103-264 | The read loop delivers the specified messages and stops for the specified reason |
| `Codec.UsedBound` | external/peerconn/peerreader/peerreader.go:130-256 | No message consumes more than there is |
| `PeerWriters.PeerWriter.QueueMessage` | external/peerconn/peerwriter/peerwriter.go:133-151 | Choking drops waiting blocks; blocks beyond the limit are rejected or dropped; the counter is exact |
| `PeerWriters.PeerWriter.CancelQueuedPieceMessages` | external/peerconn/peerwriter/peerwriter.go:153-162 | Exactly the waiting blocks are removed |
| `PeerWriters.WithoutBlocksExactly` | external/peerconn/peerwriter/peerwriter.go:153-162 | Of any queue exactly the blocks are left out, the rest keeps its order, and the counter counts exactly the blocks |
| `PeerWriters.PeerWriter.CancelRequest` | external/peerconn/peerwriter/peerwriter.go:164-172 | The first matching waiting block is removed |
| `PeerWriters.PeerWriter.WriteNext` | external/peerconn/peerwriter/peerwriter.go:199-257 | The front of the queue goes out as one frame and a block already served is rejected; a failing read ends the writer, a panicking one or a block above MaxBlockSize the process |
| `PeerWriters.WriteFrame` | external/peerconn/peerwriter/peerwriter.go:194-236 | The bytes written are the frame of the message; the array is too short exactly for a block above MaxBlockSize |
| `PeerWriters.ReadBody` | external/peerprotocol/messages.go:22-89 | The fixed layouts as bytes in the buffer |
| `PeerWriters.PutBlock` | external/peerconn/peerwriter/piece.go:20-29 | A block behind its header |
| `PeerWriters.ReadBitfield` | external/peerprotocol/messages.go:68-75 | The bitfield is copied whole, however little room each call has |
| `Bitfields.Bitfield.Count` | internal/bitfield/bitfield.go:112-118 | The table-driven count is the number of set bits |
| `Bitfields.Bitfield.All` | internal/bitfield/bitfield.go:121-123 | True exactly when every bit is set |
| `Bitfields.Bitfield.Set` | internal/bitfield/bitfield.go:72-76 | Exactly bit i changes, and the unused bits stay zero |
| `Bitfields.Bitfield.Clear` | internal/bitfield/bitfield.go:79-83 | Exactly bit i changes, and the unused bits stay zero |
| `Bitfields.Bitfield.Test` | internal/bitfield/bitfield.go:86-90 | The value of bit i |
| `Bitfields.NewBytes` | internal/bitfield/bitfield.go:31-48 | Refuses a wrong length; keeps the bits asked for and clears the rest |
| `Bitfields.TableCountsBits` | internal/bitfield/bitfield.go:92-109 | Each table entry is the number of bits in its index |
| `Bitfields.BitSet` | internal/bitfield/bitfield.go:72-76 | Setting a bit of a byte leaves the others |
| `Bitfields.BitCleared` | internal/bitfield/bitfield.go:79-83 | Clearing a bit of a byte leaves the others |
| `Bitfields.TailCut` | internal/bitfield/bitfield.go:41-43 | Cutting the last byte clears exactly the unused bits |
| `TorrentStats.BytesComplete` | filechain/torrent_stats.go:180-190 | The total length of the pieces held, at most the torrent, all of it exactly when every piece is held; the int64 product may overflow on the way |

## Left out

- Torrents.Torrent.ClosePeer: removing is idempotent in the model; the second closing of a channel, on which the original panics, is not a state of it but is located by `Connections.ClosesAgainExactly`.
- Torrents.Torrent.Stop: a write still in flight across stop and start lies outside the one epoch that is modelled.
- Torrents.Torrent.HandleRequest: whether the peer is choked and was offered the piece are inputs; what else is sent to peers is left out.
- Torrents.Torrent.Begin: the update of interest and the have messages before the completion check are left out.
- Torrents.Torrent.RamRequest: only the two answers are modelled. When the manager finds the cancel channel of a request ready (internal/resourcemanager/resourcemanager.go:178), Request goes on waiting (lines 85-92) and with it the loop; `Grants.AskedForConnected` says when no request with a ready cancel channel is made.
- EventLoop.EpochSafe: snub timers, the unchoker, have-broadcasts (their loop ranges over a map that is never filled) and webseed downloads are not events of the model.
- Sessions.NeverPanics: a torrent whose loop has ended gives nothing back, and takes grants only through cancelled requests of its peers.
- Pickers.PiecePicker.PickFor: picking for webseeds is left out; no caller attaches such downloaders.
- ResourceManagers.ResourceManager.RandomRequest: which request is drawn is arbitrary, not uniformly random.
- PieceDownloaders.PieceDownloader.Choked: the order in which pending blocks return is any order, as for a Go map.
- PieceLayout.NewPieces: what it does with an accepted dictionary that `PieceLayout.AcceptedIsUsable` excludes is left out.
- PieceLayout.AcceptedIsUsable: NewInfo's name checks, duplicate detection and bencoding are left out.
- Creation.CreateThenVerify: the files on disk hold fewer than 2^63 bytes together.
- Storage.Disk.ReadAt: I/O errors of single files are not modelled.
- Creation.Verify: closing the verifier in the middle and its progress reports are left out.
- PieceCaches.Cache.Get: a whole Get is one step; Clear racing a load, concurrent waiters on one item and an old timer firing late are left out. The loader's result is an input, and the map entry goes after the heap entry instead of before it.
- CachedPieces.CachedPiece.ReadAt: keys separate pieces within one torrent only, because the original never fills in the peer id; positions are 32-bit numbers, as those of requests are.
- SegmentTrees.Stree.Build: nodes are values built once and for all; the original updates them in place. Sorting is any sorting.
- Blocklists.Blocklist.Reload: splitting a line into address and prefix length is a library's work and arrives done.
- UrlDownloaders.URLDownloader.Run: End stays fixed; timeouts, status codes and closing appear only as failed or short responses.
- UrlJobs.WantedExactly: names are compared as given, URL escaping is left out.
- AddrLists.AddrList.Push: external addresses, own addresses and the block list are given predicates, priorities a given function, and maxItems is not negative. The btree is a map ordered by priority.
- AddrLists.AddrList.Sort: written as an insertion sort over the same comparison and swap; equal times may come out in another order.
- MseStreams.Stream.ReadSync: after a failure the stream is not described further, as it is closed.
- MseStreams.Stream.FinishIncoming: the tests on method bits are written on the binary digits of numbers; `Handshakes.SingleMethod`, `Handshakes.SharedBit`, `Handshakes.BitIsShared` and `Handshakes.AcceptedExactly` say what they mean. Cryptographic strength is not a subject of the model.
- Codec.StreamRoundTrip: extension payloads are opaque; rate limits, deadlines and the resumption of a slow block are left out.
- PeerWriters.PeerWriter.WriteNext: upload accounting and rate limiting are left out.
- Trackers, DHT, libp2p streams, resumers, RPC, logging and metrics are left out: I/O and foreign libraries.
