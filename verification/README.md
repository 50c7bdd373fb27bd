# A model of the Ares download engine

giFT-Ares (`gift-ares/lib`) downloads files from the Ares network. This project models
the download engine, the schedulers above it and the data structures and byte protocols
below it, and proves what they are for. Line numbers below refer to the C sources.

| file | models |
|---|---|
| `Ordering.dfy`, `Links.dfy`, `Listing.dfy` | stable sorting as a function; the doubly linked list on real `prev` and `next` pointers with its merge sort; lists of records named by numbers |
| `HashTable.dfy` | the chained, growing hash table on real buckets and entries |
| `Bytes.dfy`, `Packets.dfy`, `Files.dfy` | bytes, little-endian numbers, the packet buffer with its read pointer, a file that is written at positions |
| `Chunks.dfy`, `Connections.dfy`, `Engine.dfy`, `Download.dfy`, `DownloadStates.dfy` | one download: chunk list, connections, and every event that changes them |
| `SavedState.dfy` | the state record behind the media part of an incomplete file |
| `DownloadManager.dfy`, `NodeManager.dfy`, `SessionManager.dfy`, `UploadQueue.dfy` | the schedulers |
| `Sha1.dfy`, `Sha1Example.dfy` | streaming SHA-1 and its Ares variant, against FIPS 180-4; the digest of the example message that goes with that standard |
| `Cipher.dfy`, `Envelopes.dfy`, `TransferStream.dfy`, `Framing.dfy` | the munge cipher, the envelopes built on it, a whole encrypted transfer, the session packet stream |

How to read it:

* The C structures of a download point at each other. In the model a chunk is named by its
  start, which never changes while the chunk exists, and a connection by its source. The
  records that the code changes through pointers are entries of a map, and a list of
  pointers is a sequence of names.
* The invariant of a download is `Downloads.Download.Sound`: the chunks tile `[0, size)`,
  the byte counts add up, the bytes counted as received are on disk and are those of the
  file, chunk-to-connection and connection-to-chunk links are inverse to each other, every
  request reaches at least to the end of its chunk, and the connection list holds every
  connection once. Inside a callback it holds up to a `Slack` that says which connection
  is ahead of its chunk. `Valid` adds that the list is sorted and that the limit on
  transfers is kept, and that an active download lacks a byte, so that it cannot have
  missed its end. `Valid(Loose)` allows chunks that are stuck: complete, but still
  attached to the connection whose reply brought the whole body along with its header.
* What the outside world does is a parameter: the clock, which sources can be reached,
  whether a file operation succeeds, what a remote sends. Where a scheduler calls
  something whose outcome is open, the model chooses freely.
* Many small lemmas restate one definition for values. They exist so that the methods can
  hide all definitions and reason with names only.

## Model

| member | source | states |
|---|---|---|
| Links.ListSort | gift-ares/lib/as_list.c:325-411 | for every total preorder and every length the bottom-up merge sort ends, and the list starting at the returned head holds the same links in the order of the stable sort, with all `prev` and `next` pointers consistent |
| Links.SortPass | gift-ares/lib/as_list.c:337-399 | one pass over sorted runs of `insize` leaves sorted runs of twice that, and it counts at most one merge exactly when nothing is left to do |
| Links.PassDoublesBlocks | gift-ares/lib/as_list.c:337-409 | merging neighbouring sorted runs pairwise is sorting runs of double length |
| Ordering.StableSortUnique | gift-ares/lib/as_list.c:305-324 | sorted order and the order within each class of equal elements leave no freedom: there is only one stable sorted arrangement |
| Ordering.StableSortSorts | gift-ares/lib/as_list.c:305-324 | the stable sort is sorted |
| Ordering.StableSortIsStable | gift-ares/lib/as_list.c:305-324 | elements that compare equal keep their order |
| Ordering.StableSortPermutes | gift-ares/lib/as_list.c:305-324 | it holds the same elements equally often |
| Ordering.MergeOfSorts | gift-ares/lib/as_list.c:361-388 | merging two stable sorts, ties from the first, is the stable sort of the whole |
| Links.InsertLinkSorted | gift-ares/lib/as_util.c:127-153 | the link is put before the first one that is not smaller, and the pointers around it are right; in a sorted list this keeps the list sorted |
| Links.InsertLinkAfter | gift-ares/lib/as_util.c:41-59 | the link stands behind the given one, everything else keeps its order |
| Links.UnlinkLink | gift-ares/lib/as_util.c:63-84 | exactly this link is gone and its own pointers are cleared |
| Links.ForeachRemove | gift-ares/lib/as_list.c:236-255 | the links for which the function says so are gone, the others keep their order |
| Links.VerifyIntegrity | gift-ares/lib/as_util.c:158-193 | answers true exactly when every link's neighbours point back at it |
| HashTables.HashTable.Insert | gift-ares/lib/as_hashtable.c:297-344 | afterwards the table stands for the old map with the key set, whether the key was new or replaced and whether the table grew or not; the count goes up only for a new key; the load limit is kept while there is a larger size |
| HashTables.HashTable.Remove | gift-ares/lib/as_hashtable.c:346-377 | gives the value of the key if there is one and leaves the map without it |
| HashTables.HashTable.Search | gift-ares/lib/as_hashtable.c:379-394 | finds exactly what the map holds |
| HashTables.HashTable.Expand | gift-ares/lib/as_hashtable.c:163-200 | every entry moves to the bucket its hash value has in the next prime size; entries, keys and values stay the same |
| HashTables.BucketOfHash | gift-ares/lib/as_hashtable.c:54-62 | every entry is in the bucket of its hash value modulo the number of buckets |
| HashTables.LoadLimitIsLeast | gift-ares/lib/as_hashtable.c:217 | the load limit is the least whole number not below 0.65 times the number of buckets |
| HashTables.MoveBucket | gift-ares/lib/as_hashtable.c:184-191 | one bucket is emptied entry by entry into the new table, no entry is lost or duplicated |
| HashTables.HashTable.Foreach | gift-ares/lib/as_hashtable.c:588-622 | the function is called once for every entry, and exactly the entries for which it says so are gone, also when neighbours in one chain are removed |
| HashTables.AllVisited | gift-ares/lib/as_hashtable.c:588-622 | when all buckets have been visited every key has been, and what is left is the filtered map |
| HashTables.PlacedDrop | gift-ares/lib/as_hashtable.c:360-366 | taking an entry out keeps each of the others once and in its own bucket |
| Chunks.ConsolidateSame | gift-ares/lib/as_download.c:980-1065 | consolidation changes neither the range covered, nor which bytes are received, nor any chunk that is being fetched |
| Chunks.ConsolidateSafe | gift-ares/lib/as_download.c:980-1065 | bytes that lie in complete chunks still do after consolidation |
| Chunks.ConsolidateSplitsHalves | gift-ares/lib/as_download.c:980-1065 | every idle chunk comes out complete or empty |
| Chunks.OnePassNormalizes | gift-ares/lib/as_download.c:980-1065 | without half received idle chunks one pass leaves no two neighbours that could be merged |
| Chunks.OnePassNormalIff | gift-ares/lib/as_download.c:1025-1030 | exactly when one pass is enough: no half received idle chunk stands right behind a complete idle one |
| Chunks.OnePassNotEnough | gift-ares/lib/as_download.c:1025-1030 | a list of three bytes in two chunks that needs two passes |
| Chunks.TwoPassesSuffice | gift-ares/lib/as_download.c:980-1065 | two passes always reach a fixed point |
| Chunks.CompletionNotMissed | gift-ares/lib/as_download.c:1447-1453 | when all chunks are idle and complete one pass leaves a single complete chunk, so the test on the first chunk sees the end of the download |
| Downloads.Download.ConsolidateChunks | gift-ares/lib/as_download.c:980-1065 | the loop over the list, splitting and merging in place, computes `Chunks.Consolidate` |
| Downloads.Download.VerifyChunks | gift-ares/lib/as_download.c:910-972 | succeeds exactly when the list is not empty, tiles the range up to the file size from its own start, and no complete chunk is attached |
| Downloads.Download.VerifyFailsIff | gift-ares/lib/as_download.c:910-972 | under the invariant the check fails exactly when a chunk is stuck |
| Connections.CancelTwice | gift-ares/lib/as_download_conn.c:110-133 | a cancelled request books its bytes and its seconds, at least one, in the statistics; a second cancellation at any later time changes nothing |
| Connections.SpeedIsRate | gift-ares/lib/as_download_conn.c:238-268 | the speeds that are compared are bytes over seconds, rounded down, of past requests and of the running one |
| Connections.DoneBooks | gift-ares/lib/as_download_conn.c:946-966 | a completed request books all its bytes and its time, at least one second, once |
| Connections.RankIsComparison | gift-ares/lib/as_download.c:488-503 | the order of connections is a total preorder |
| Engine.UsedComeLast | gift-ares/lib/as_download.c:1101-1240 | in the sorted list no unused connection comes behind a used one, so stopping at the first used one skips none |
| Engine.RewireOne | gift-ares/lib/as_download.c:704-730 | changing one chunk and its connection together keeps all other links mutually inverse |
| Engine.OneChunkEach | gift-ares/lib/as_download.c:1071-1392 | no two chunks are fetched by the same connection |
| Engine.ReceiveLayout | gift-ares/lib/as_download.c:855-874 | bytes of the file written where a chunk has got to extend its received prefix; tiling, sum and agreement with the file are kept |
| Engine.SplitLayout | gift-ares/lib/as_download.c:1243-1300 | splitting a chunk keeps the partition and every received byte, and bytes in complete chunks stay in complete chunks |
| Engine.SplitWired | gift-ares/lib/as_download.c:1243-1300 | the request of the shortened chunk still reaches to its end, and the new piece is fetched by exactly the connection it was made for |
| Downloads.Download.StopAll | gift-ares/lib/as_download.c:674-700 | every connection is cancelled and lets go of its chunk; the list is sorted again; no byte is lost |
| Downloads.Download.Disassociate | gift-ares/lib/as_download.c:704-730 | chunk and connection let go of each other; a source that failed twice is dropped, any other goes to its sorted place; all other records stay |
| Downloads.Download.InsertConn | gift-ares/lib/as_download.c:508-526 | a connection that is not in the list goes to its sorted place |
| Downloads.Download.CountConns | gift-ares/lib/as_download.c:651-671 | counts the transferring and the connecting connections |
| Downloads.Download.AssignIdle | gift-ares/lib/as_download.c:1101-1160 | idle chunks are given to the fastest unused connections until there are no more chunks, no more eligible connections or no more slots, so that no eligible connection left over is faster than one that was started; the chunk given away has no received byte; only idle, eligible connections are started |
| Downloads.Download.SplitLarge | gift-ares/lib/as_download.c:1163-1300 | while unused connections and attempts are left it goes on halving; if all sources can be reached it ends only when no attempt is left, no eligible unused connection, or no chunk with more than 2 * 131072 bytes to fetch; every cut takes the last half, rounded down, from a chunk with the most left and makes it a new chunk (`Halved`); received bytes stay the same, and no piece made or left has less than AS_DOWNLOAD_MIN_CHUNK_SIZE to fetch |
| Downloads.Download.Endgame | gift-ares/lib/as_download.c:1303-1385 | a connection in use is replaced only by one that is faster by more than 1024 bytes a second, and it was the slowest; if all sources can be reached the loop ends only when no eligible unused connection is left or the fastest such one would not gain that much over any connection that was in use (`NoGain`); the chunk list keeps its shape, no reachable unused source is dropped and, counting replacements too, the attempts never exceed twice the free slots |
| Downloads.Download.StartChunks | gift-ares/lib/as_download.c:1071-1392 | all of that together: invariant and order kept, fastest connections first, replacements only for that gain, cuts only in halves of the largest chunk, attempts at most twice the free slots or nothing changed, no record changed but by beginning a request on an idle eligible connection; and if all sources can be reached, then afterwards no eligible unused connection is left, or the attempts are at twice the free slots, or every chunk is busy or complete, none has more than 2 * 131072 bytes to fetch and no replacement would gain |
| Downloads.Download.Maintain | gift-ares/lib/as_download.c:1400-1469 | keeps the received bytes; a stuck chunk fails the download; otherwise it goes on exactly while a byte is missing, and then the chunks are the consolidated list with its largest ones cut in halves, and everything is started that `StartChunks` says |
| Downloads.Download.Finish | gift-ares/lib/as_download.c:1628-1697 | a download that passes the completion test has the whole file on disk, and after cutting off the record the disk is the file |
| Downloads.Download.WholeFile | gift-ares/lib/as_download.c:1448-1453 | a first chunk with as many bytes as the file means that every byte of the file is on disk |
| Downloads.Download.RequestOver | gift-ares/lib/as_download.c:792-817 | the end of a request books the outcome, frees or drops the connection and changes no other record except by beginning new requests; a chunk of its own that was stuck is free again, and the download fails exactly if another one is stuck or the complete file cannot be verified |
| Downloads.Download.DataCb | gift-ares/lib/as_download.c:828-905 | exactly the bytes the chunk still needs are written, at the right place, and counted; the connection may go on exactly when the chunk is not complete or the request ends with it; a failed write pauses the download |
| Downloads.Download.Body | gift-ares/lib/as_download_conn.c:897-966 | the same for a read from the socket, ending the request when its last byte has come, with the request booked in the statistics |
| Downloads.Download.Accepted | gift-ares/lib/as_download.c:760-787 | the connection transfers from now on exactly when fewer than the limit do, counting itself; otherwise its chunk is free again and nothing is lost; in both cases its failures are forgotten |
| Downloads.Download.Reply | gift-ares/lib/as_download_conn.c:720-880 | a reply is accepted exactly when it names the start that was asked for and there is room; one with another start counts as a failure and drops the source at two; a chunk gets stuck exactly when the body that comes with the header is the whole request and ends with the chunk |
| Downloads.StuckExample | gift-ares/lib/as_download_conn.c:787-800 | that input: every byte has arrived and the download is still active with a stuck chunk |
| Downloads.StuckEnds | gift-ares/lib/as_download.c:1415-1424 | a download of one byte whose source sends it along with the header gets stuck; the next tick of the timer fails it, but if the connection is lost first it finishes |
| Downloads.Download.RunInStep | gift-ares/lib/as_download.c:735-1489 | in any run without such replies nothing is ever stuck, and the download fails only if the complete file cannot be verified |
| Downloads.Download.ConnFailed | gift-ares/lib/as_download_conn.c:573-591 | a lost request changes no received byte; if it was never answered the count of failures is one higher and the source is kept exactly if that is below two, if it was being answered the count is what it was and decides in the same way (`Counted`; while the download is active a source that cannot be reached may be dropped besides); if its chunk was stuck it is free again and the download goes on or ends |
| Downloads.Download.RemoteBusy | gift-ares/lib/as_download_conn.c:829-865 | a 503 reply puts the source off until the given time and clears its failures; until then it is not in use |
| Downloads.Download.AddSource | gift-ares/lib/as_download.c:529-563 | a source is added once, at its sorted place, and used at once while the download is active |
| Downloads.Download.Pause | gift-ares/lib/as_download.c:370-414 | connections are stopped, the chunks are the consolidated list and only complete or empty, the record on disk is that of the new list, and the download is paused even if the record could not be written |
| Downloads.Download.Hold | gift-ares/lib/as_download.c:417-457 | the same with the state of a waiting download; without a record the download is paused instead |
| Downloads.Download.Resume | gift-ares/lib/as_download.c:460-477 | a paused or waiting download becomes active and uses its free slots, or is over if no byte is missing |
| Downloads.Download.Cancel | gift-ares/lib/as_download.c:333-367 | all connections are stopped and the received bytes stay what they were |
| Downloads.Download.Timer | gift-ares/lib/as_download.c:1472-1489 | saves the record and looks for more to do; pauses if saving fails; with a stuck chunk the download fails |
| Downloads.Download.Start | gift-ares/lib/as_download.c:156-246 | a new download has one empty chunk for the whole file and is set going; an empty file is refused |
| Downloads.Download.Restart | gift-ares/lib/as_download.c:251-330 | an image whose record tells the truth is taken up with exactly the bytes it marks as present, paused if it was saved paused |
| Downloads.Download.SavedIsHonest | gift-ares/lib/as_download_state.c:137-210 | a record on disk, however old, marks exactly the bytes that lay in complete chunks when it was written, if and only if no incomplete chunk had a single byte then (and if the record is found, see `RecordFoundIff`); then it tells the truth |
| Downloads.Download.RunSaved | gift-ares/lib/as_download.c:1472-1489 | through any run that follows there is a record on disk until the download has finished, it is the same one if no event saves, and no later record knows less than an earlier one |
| Downloads.TakeUpAgain | gift-ares/lib/as_download.c:251-330 | under those two conditions a new start from what is on disk has exactly the bytes the record marks |
| Downloads.Download.Perform | gift-ares/lib/as_download.c:735-905 | every single event, in any state, keeps the invariant, loses no received byte and takes none out of a complete chunk; data for a transfer is stored as far as it is useful and the calls of user and manager lead to their states; while the download goes on the records change only as `MovesOn` says; a chunk gets stuck only by the replies described under `Reply`; a record is written only by the events that save |
| Downloads.Download.Run | gift-ares/lib/as_download.c:735-1489 | over any run of data, answers of any length, failures, new sources, timer ticks, pauses, resumptions and cancellations the disk agrees with the file on every received byte, the count is the sum over the chunks, an active download without stuck chunks lacks a byte, and a finished download is the file |
| Downloads.Download.RunWatched | gift-ares/lib/as_download.c:735-1489 | a run through any events leaves a trail of states and records in which every step of an active download is one `MovesOn` allows: failures are counted for unanswered requests only, and only idle sources that need not wait are asked |
| Downloads.AskedAtMostTwice | gift-ares/lib/as_download.c:704-730 | on any such trail of an active download a source that never answers is asked at most twice |
| Downloads.PutOffWaits | gift-ares/lib/as_download_conn.c:829-865 | on any such trail a source that was told to wait is not asked before its time |
| SavedState.SaveThenLoad | gift-ares/lib/as_download_state.c:309-477 | what `write_chunks` saves `read_chunks` rebuilds as a partition in which a byte is present exactly when it lay in a complete chunk |
| SavedState.SaveThenLoadIff | gift-ares/lib/as_download_state.c:345-356 | exactly when that works: every incomplete chunk has at least two bytes |
| SavedState.OneByteLoadsComplete | gift-ares/lib/as_download_state.c:342-349 | a file of one byte that is still missing loads as complete |
| SavedState.LastByteFails | gift-ares/lib/as_download_state.c:351-357 | a file of which only the last byte is missing leaves a record that does not load |
| SavedState.LoadIsPartition | gift-ares/lib/as_download_state.c:309-444 | whatever the packet holds, a successful load is a partition of complete or empty chunks, exactly if the media part is not longer than the recorded size |
| SavedState.RecountIsGot | gift-ares/lib/as_download_state.c:67-74 | the recount over complete chunks is the number of bytes the loaded chunks have |
| SavedState.SavedPacketLoads | gift-ares/lib/as_download_state.c:32-210 | the record as a whole loads with the same size and pause flag and exactly the bytes of complete chunks, if and only if every incomplete chunk has at least two bytes |
| SavedState.RecordFoundIff | gift-ares/lib/as_download_state.c:215-305 | exactly when the record just written is the one the backward search finds: it starts within 16 blocks of the end and no later block border carries the magic |
| SavedState.RecordLength | gift-ares/lib/as_download_state.c:283-300 | a record is a whole number of 4096 byte blocks: the magic, the packet, and then 1 to 4096 zeros |
| SavedState.SavedImageLoads | gift-ares/lib/as_download_state.c:32-305 | where the record is found the whole file loads back under that condition, and only then |
| SavedState.WriteChunks | gift-ares/lib/as_download_state.c:446-477 | appends the missing ranges and the terminator to the packet |
| SavedState.ReadChunks | gift-ares/lib/as_download_state.c:309-444 | cuts the ranges out of the big complete chunk, and fails exactly on the packets the specification refuses |
| SavedState.LoadState | gift-ares/lib/as_download_state.c:32-108 | reads sizes, chunks and pause flag of a record as specified |
| SavedState.ReadState | gift-ares/lib/as_download_state.c:215-270 | finds the last record as specified |
| DownloadManager.Manager.StateCb | gift-ares/lib/as_download_man.c:543-602 | the re-entrant callback ends; afterwards at most AS_DOWNLOAD_MAX_ACTIVE downloads are active and none waits while a slot is free; a download that must not become active ends up waiting, or paused if it cannot be saved; only waiting downloads are changed otherwise, from the head of the list on: none comes past one that still waits |
| DownloadManager.Manager.Fill | gift-ares/lib/as_download_man.c:566-585 | the loop fills all free slots although its own count of active downloads goes stale under the calls it makes, and gives them to the waiting downloads in the order of the list |
| DownloadManager.Manager.Resume | gift-ares/lib/as_download.c:460-477 | resuming as the manager sees it: whatever the download then does, the limit holds and no slot is wasted |
| DownloadManager.Manager.Queue | gift-ares/lib/as_download.c:417-457 | putting one download on hold changes no other |
| DownloadManager.Manager.StopAll | gift-ares/lib/as_download_man.c:116-122 | active and paused downloads are put on hold (or paused if they cannot be saved) and nothing is active while the manager is stopped |
| DownloadManager.Manager.ResumeAll | gift-ares/lib/as_download_man.c:123-143 | afterwards the slots are filled again in the order of the list; only waiting downloads have changed |
| DownloadManager.Manager.StartResult | gift-ares/lib/as_download_man.c:154-253 | one download per hash: a known hash gives the existing download, otherwise the new one is listed and indexed, or gone if it could not be put on hold |
| DownloadManager.Manager.RestartFile | gift-ares/lib/as_download_man.c:268-328 | the same for an incomplete file; its hash turns out to be known only after the download has started, and the slot it may have got by then is not handed on, but it got that slot only because nothing was waiting, so the rule still holds |
| DownloadManager.Manager.PauseDownload | gift-ares/lib/as_download_man.c:410-424 | pausing frees a slot for the first that waits, and a waiting download is not resumed by hand |
| DownloadManager.Manager.CancelDownload | gift-ares/lib/as_download_man.c:427-436 | only active, waiting and paused downloads can be cancelled, and the slot goes to the first that waits |
| DownloadManager.Manager.Completes | gift-ares/lib/as_download.c:1628-1697 | a download that completes or fails verification hands its slot on to the first that waits |
| DownloadManager.Manager.RemoveDownload | gift-ares/lib/as_download_man.c:439-470 | only downloads that are over are removed, from list and index together |
| DownloadManager.Manager.Run | gift-ares/lib/as_download_man.c:111-602 | over any run of operations, with any hashes, all of this holds after each |
| NodeManager.NodeMan.Next | gift-ares/lib/as_node_man.c:156-189 | gives a node of maximal weight among those not in use and last tried more than 600 seconds ago, or none exactly when every node is in use or was tried later than that; it is marked as tried now and in use, so it does not come again |
| NodeManager.NodeMan.Put | gift-ares/lib/as_util.c:127-153 | a node is put at its sorted place; index and list hold the same nodes |
| NodeManager.NodeMan.UpdateConnected | gift-ares/lib/as_node_man.c:194-227 | exactly this node's record changes, the list stays sorted |
| NodeManager.NodeMan.UpdateFailed | gift-ares/lib/as_node_man.c:233-279 | the node is free again but its last attempt stays recorded |
| NodeManager.NodeMan.UpdateDisconnected | gift-ares/lib/as_node_man.c:285-332 | the node is free again and was seen now |
| NodeManager.NodeMan.UpdateReported | gift-ares/lib/as_node_man.c:338-396 | a known node has its port, time, weight and count of reports updated and nothing else; an unknown one is added, seen now for the first time, never tried and not in use |
| NodeManager.FirstIsBest | gift-ares/lib/as_node_man.c:162-169 | because of the order the first node that may be tried is the heaviest such node |
| SessionManager.SessMan.Maintain | gift-ares/lib/as_session_man.c:147-252 | afterwards there are at most as many sessions as wanted and no attempts once there are enough; otherwise ten attempts are under way or no node may be tried; superfluous sessions are removed from the front |
| SessionManager.SessMan.FillUp | gift-ares/lib/as_session_man.c:186-239 | the connect loop ends although failed attempts do not count, because each uses up a node that may be tried |
| SessionManager.SessMan.TryNext | gift-ares/lib/as_session_man.c:191-238 | one attempt: the number of nodes that may be tried goes down by one even if the attempt fails |
| SessionManager.SessMan.Established | gift-ares/lib/as_session_man.c:303-349 | a new session is kept exactly when fewer than wanted are there |
| SessionManager.SessMan.AlwaysKept | gift-ares/lib/as_session_man.c:325-337 | between operations that is always so while an attempt is under way |
| SessionManager.SessMan.Disconnected | gift-ares/lib/as_session_man.c:263-277 | exactly this session is gone from the list and the others keep their order, its node is free unless it is already being tried again, and the attempts are filled up |
| SessionManager.SessMan.Failed | gift-ares/lib/as_session_man.c:279-293 | the attempt is gone from the list, the established sessions are untouched, the node is free unless it is already being tried again, and the attempts are filled up |
| SessionManager.SessMan.Connect | gift-ares/lib/as_session_man.c:91-100 | the number of sessions is cut to the new wish at once |
| SessionManager.SessMan.Run | gift-ares/lib/as_session_man.c:91-357 | over any run: no two sessions to one host, the nodes in use are exactly the hosts of sessions, the limits hold |
| UploadQueue.UpMan.Auth | gift-ares/lib/as_upload_man.c:406-498 | answer and queue are those of the specification (what it means is said by `LetInIff`, `StaysIff` and `PlaceNeverGrows`); and exactly when stale entries have just made room for a host that was not waiting, the code removes an entry it has no link to |
| UploadQueue.UpMan.TidyQueue | gift-ares/lib/as_upload_man.c:379-403 | exactly the entries older than 180 seconds are gone (see `StaysIff`) |
| UploadQueue.AnswerIsFair | gift-ares/lib/as_upload_man.c:406-498 | nobody's place grows while it keeps asking in time, the order stays, hosts in the queue are distinct and the answer is the place in the new queue |
| UploadQueue.NoOvertaking | gift-ares/lib/as_upload_man.c:441-494 | a host is let in only if there is room, and past nobody who could not come in as well |
| UploadQueue.PlaceNeverGrows | gift-ares/lib/as_upload_man.c:406-498 | over any run of requests, ends and removals: a waiting host that asks again within 180 seconds each time, while nobody asks later than that after its last request, is let in at some time or still waits, at a place no further back |
| UploadQueue.ExpiredIff | gift-ares/lib/as_upload_man.c:379-403 | a host loses its place exactly when its own entry is stale, that is older than 180 seconds |
| UploadQueue.StaysIff | gift-ares/lib/as_upload_man.c:379-403 | in a queue of distinct hosts a host still waits after tidying exactly if at most 180 seconds have passed since its entry was written |
| UploadQueue.LetInIff | gift-ares/lib/as_upload_man.c:441-497 | exactly when a host without an upload is let in: the uploads and everybody in the queue leave a slot, or the uploads and the place of the host do, where the place counts those before it whose entries are at most 180 seconds old; otherwise the answer is that place |
| UploadQueue.UpMan.Start | gift-ares/lib/as_upload_man.c:117-184 | an upload becomes active exactly when the answer is yes and nothing else stands against it, and otherwise leaves no trace but in the queue |
| UploadQueue.UpMan.Ends | gift-ares/lib/as_upload_man.c:264-290 | one active upload less, counted once |
| UploadQueue.UpMan.RemoveUpload | gift-ares/lib/as_upload_man.c:199-221 | removing an upload keeps the count of active ones exact |
| UploadQueue.UpMan.Run | gift-ares/lib/as_upload_man.c:117-498 | over any run the count and the queue length are exact, the limit holds and each host has at most one active upload |
| UploadQueue.UnlinkedExample | gift-ares/lib/as_upload_man.c:467-491 | a queue of two stale entries is enough for the missing link |
| Sha1.HashPieces | gift-ares/lib/as_sha1.c:356-480 | however a message is cut into updates the result is its hash as defined in sections 5 and 6 of FIPS 180-4 (with the other constants for the Ares variant) |
| Sha1.Context.Update | gift-ares/lib/as_sha1.c:394-429 | digest, buffer and bit count are those of the message so far |
| Sha1.Context.Final | gift-ares/lib/as_sha1.c:434-480 | padding in one or two blocks as in section 5.1.1 of FIPS 180-4, for every message shorter than 2^64 bits |
| Sha1.Context.Transform | gift-ares/lib/as_sha1.c:112-200 | byte swapping, schedule and the unrolled rounds compute section 6.1.2 of FIPS 180-4; also for the Ares constants of lines 251-339 |
| Sha1.RotlMovesBits | gift-ares/lib/as_sha1.c:68-75 | bit i of a word is bit (i + n) mod 32 after `R32` by n, for every n below 32 |
| Sha1.ChChooses | gift-ares/lib/as_sha1.c:61-64 | each bit of `f1` is that of the second or the third word as the first one chooses |
| Sha1.MajIsMajority | gift-ares/lib/as_sha1.c:61-64 | each bit of `f3` is set exactly if it is in at least two of the three words |
| Sha1.ParityIsOdd | gift-ares/lib/as_sha1.c:61-64 | each bit of `f2` is set exactly if it is in one or three of the words |
| Sha1Example.AbcDigest | gift-ares/lib/as_sha1.c:112-200 | the definition gives a9993e36 4706816a ba3e2571 7850c26c 9cd0d89d for the message "abc", as in the examples published with FIPS 180 |
| Sha1.Step | gift-ares/lib/as_sha1.c:88-107 | a macro that updates two of six names in place is one round that moves five values |
| Sha1.Fourth20 | gift-ares/lib/as_sha1.c:183-190 | after the last twenty macro calls the values sit in the names the digest is taken from |
| Sha1.CountCarries | gift-ares/lib/as_sha1.c:400-406 | the two-word bit count with its carry is the length modulo 2^64 |
| Sha1.BlocksConcat | gift-ares/lib/as_sha1.c:423-428 | hashing whole blocks in two goes is hashing them in one |
| Sha1.PadShortest | gift-ares/lib/as_sha1.c:440-463 | the padding is the shortest that reaches a block border |
| Sha1.SwapIsBigEndian | gift-ares/lib/as_sha1.c:129-136 | swapping a word read on a little-endian machine gives the big-endian word |
| Cipher.UnmungeOfMunge | gift-ares/lib/as_crypt.c:219-247 | decryption undoes encryption and both sides end with the same key |
| Cipher.MungeOfUnmunge | gift-ares/lib/as_crypt.c:219-247 | and the other way round |
| Cipher.MungeConcat | gift-ares/lib/as_crypt.c:219-231 | encrypting in pieces with the key carried over is encrypting the whole |
| Cipher.UnmungePrefix | gift-ares/lib/as_crypt.c:233-247 | what has arrived of a text decrypts to what was sent of it |
| Cipher.MungeInPlace | gift-ares/lib/as_crypt.c:219-231 | the loop over the buffer computes `Munge` and its key (see `MungeAt`), and leaves the rest of the buffer alone |
| Cipher.UnmungeInPlace | gift-ares/lib/as_crypt.c:233-247 | the same for `unmunge` (see `UnmungeAt`) |
| Cipher.KeyInClosedForm | gift-ares/lib/as_crypt.c:219-247 | after ciphertext c of n bytes the key is (k * mul^n + the sum over i of c[i] * mul^(n-i) + add * mul^(n-1-i)) mod 65536 |
| Cipher.MungeAt | gift-ares/lib/as_crypt.c:219-231 | byte i of the ciphertext is that of the text xor the key that the ciphertext before it gives, divided by 256 |
| Cipher.UnmungeAt | gift-ares/lib/as_crypt.c:233-247 | byte i of the text is that of the ciphertext xor the same |
| Envelopes.HandshakeExample | gift-ares/lib/as_crypt.c:401-411 | two zero bytes under the key 5d1c become 5d fd and leave the key 678c |
| Envelopes.RequestOpensExactly | gift-ares/lib/as_crypt.c:802-871 | a transfer request opens to its payload, and no strict prefix of it opens at all, for every payload, padding and random bytes |
| Envelopes.RequestLayout | gift-ares/lib/as_crypt.c:802-833 | what is where in a transfer request, with the keys it is encrypted under |
| Envelopes.EncryptTransferRequest | gift-ares/lib/as_crypt.c:802-833 | the packet becomes the envelope of its contents |
| Envelopes.DecryptTransferRequest | gift-ares/lib/as_crypt.c:835-871 | succeeds exactly on the packets that open, with their payload |
| Envelopes.TicksOpen | gift-ares/lib/as_crypt.c:730-800 | the 0x0a field opens to its payload; unlike a request, a part of it opens to a part of the payload |
| Envelopes.PushOpens | gift-ares/lib/as_crypt.c:645-699 | all eight layers of a push request come off again |
| Envelopes.EncryptPush | gift-ares/lib/as_crypt.c:645-671 | the eight calls on overlapping ranges compute the envelope |
| Envelopes.DecryptPush | gift-ares/lib/as_crypt.c:673-699 | the eight calls in reverse compute its opening |
| Envelopes.LoginOpens | gift-ares/lib/as_crypt.c:713-725 | a login string decrypts to itself |
| Envelopes.PacketOpensIff | gift-ares/lib/as_crypt.c:355-398 | a session packet opens to what was sealed, except that an empty one does not open |
| Envelopes.DecryptPacket | gift-ares/lib/as_crypt.c:381-398 | succeeds exactly on packets of three bytes or more |
| Envelopes.ReplyOpens | gift-ares/lib/as_crypt.c:874-929 | of a reply that has arrived in part the text behind the binary header comes out as far as it is there, and nothing before the binary header is complete |
| TransferStream.Send | gift-ares/lib/as_upload.c:905-935 | sent in full, header and blocks of any sizes are the encryption of the whole plaintext under one key chain |
| TransferStream.ShortSend | gift-ares/lib/as_upload.c:905-935 | after a short send the file is rewound and the key is not: the next byte comes out right exactly if the key behind the block and the key behind what was sent have the same high byte |
| TransferStream.ShortSendSpoils | gift-ares/lib/as_upload.c:919-935 | a block of one byte of which nothing could be sent makes the next byte come out wrong |
| TransferStream.PrefixComesOut | gift-ares/lib/as_download_conn.c:593-718 | of any prefix of the stream exactly the part of the body in it comes out, and the receiver's key is the one the sender had at that point |
| TransferStream.Receive | gift-ares/lib/as_download_conn.c:593-966 | however the stream is cut into reads: the body comes out as far as it has arrived, the receiver never gives up on a header that fits, and both keys agree |
| TransferStream.Receiver.ReadHeader | gift-ares/lib/as_download_conn.c:593-718 | decrypting the whole buffer again from the original key each time; gives up exactly when 4096 bytes hold no usable header |
| TransferStream.Receiver.ReadBody | gift-ares/lib/as_download_conn.c:897-945 | body bytes are decrypted with the key carried over |
| TransferStream.HeaderEndPrefix | gift-ares/lib/as_http_header.c:67-92 | the end of the header is found as soon as it has arrived and does not move when more does |
| TransferStream.HeaderEndIs | gift-ares/lib/as_http_header.c:67-92 | the header ends behind the first empty line, and is not found exactly if there is none or a zero byte stands before it |
| Framing.Session.GetPacket | gift-ares/lib/as_session.c:284-349 | after every read, while the session is open, the frames dispatched are exactly the complete frames of all bytes received and the buffer holds the rest; a refused frame is the last one dispatched |
| Framing.EncodeOfFrames | gift-ares/lib/as_session.c:309-344 | frames and rest together are the stream, and the rest holds no complete frame |
| Framing.FramesOfEncode | gift-ares/lib/as_packet.c:390-410 | what was framed is read back, whatever follows |
| Framing.FramesOfPrefix | gift-ares/lib/as_session.c:309-344 | of frames that have arrived in part a prefix has been read, and all once everything is there |
| Framing.FramesGrow | gift-ares/lib/as_session.c:309-344 | cutting the stream anywhere makes no difference |
| Packets.Packet.Header | gift-ares/lib/as_packet.c:390-410 | length and type stand before the body |
| Packets.Packet.Truncate | gift-ares/lib/as_packet.c:75-87 | the unread bytes move to the front, and nothing else is left |
| Packets.Packet.CreateCopy | gift-ares/lib/as_packet.c:30-43 | the copy holds the next unread bytes, which count as read afterwards |
| Packets.Packet.Resize | gift-ares/lib/as_packet.c:89-122 | there is room afterwards and the contents are the same |
| Packets.Packet.GetLE32 | gift-ares/lib/as_packet.c:250-262 | reads four bytes, or gives zero and stays where it is |
| Bytes.LE32RoundTrip | gift-ares/lib/as_packet.c:170-180 | a number written is the number read |
| Bytes.LE32Digits | gift-ares/lib/as_packet.c:170-180 | the bytes written are the digits of the number to the base 256, the least significant first |

## Left out

- Downloads.Download.DataCb: body bytes are those of the file by assumption; a remote that sends other bytes is found out only by the hash, and `hashOf` is an arbitrary function.
- Downloads.Download.Run: a write that fails is modelled as leaving the disk as it was; what a partial write leaves lies behind the received bytes.
- Downloads.Download.Fail: the assertion behind a corrupted chunk list, which stops a debug build, is not modelled; the download fails as in a release build.
- Downloads.Download.Cancel: deleting, renaming and truncating files by name is not modelled; the disk is the contents of the open file.
- Downloads.Download.Restart: requires that the record tells the truth, and with that a media part not longer than the recorded size; hash and sources of the record are parameters, their type-length-value coding is not part of this model.
- Downloads.AskedAtMostTwice: speaks of a download that stays active and of a source that is not found anew; stopping a download ends requests without counting them, so after a pause a source may be asked again.
- Downloads.PutOffWaits: speaks of a download that stays active; stopping a download makes the code forget that a source was told to wait.
- Downloads.Download.Start: file names, and the search for a free one, are not part of this model.
- SavedState.LoadState: sizes are 32 bit numbers, as on the machines the code was written for.
- SavedState.SaveThenLoadIff: ranges of one byte are refused on loading, or end the list when it is byte zero; this is the code's behaviour and the condition says so.
- Chunks.OnePassNormalIff: one pass does not always reach maximal runs; the condition says when.
- DownloadManager.Manager.StateCb: the user's callback is passive: it neither changes nor frees downloads. What a download does after it was resumed is chosen freely between going on and completing.
- DownloadManager.Manager.RestartFile: the hash of the record is a parameter; a failing restart is only the case of a state change that is refused.
- NodeManager.NodeMan.Next: the weight is an arbitrary real number given with each update, because the formula is floating point of no further interest.
- NodeManager.NodeMan.LoadNode: requires a host that is not known; the code does not look.
- SessionManager.SessMan.FillUp: the clock stands still during one call.
- SessionManager.SessMan.Connect: emptying the node cache while sessions are up is not modelled.
- UploadQueue.UpMan.Auth: where the code would remove an entry through a null link, the entry of that host is removed; the contract says exactly when.
- UploadQueue.UpMan.Start: metadata replies, which end an upload that was never active, are not part of the count.
- TransferStream.Send: every block is sent in full; `ShortSend` says what happens otherwise.
- TransferStream.Receiver.ReadHeader: parsing a complete HTTP header is an arbitrary predicate.
- Envelopes.EncryptTransfer0a: the ticks and their hash are parameters, as the receiver ignores them.
- Envelopes.DecryptPacket: the key schedule of a session is an arbitrary function of the packet's seed.
- HashTables.HashTable.Insert: keys are compared by equality; failing allocations and the `realloc` plan are left out, as is `as_hashtable_find`, which never gets past the first entry of a bucket.
- Links.ListSort: the lists of the download engine are sequences sorted with the function that `ListSort` is proved to compute; heap links are used in `Links.dfy` only.
- Sha1.Context.Transform: words are 32 bits on a little-endian machine.
- Framing.Session.GetPacket: compressed packets and the handshake are behind the predicate that says whether a session goes on.
- Sockets, timers, threads, logging, configuration, zlib, Base64, URLs, meta data, searches, shares and the giFT plugin are left out: calls into the outside or simpler code.
