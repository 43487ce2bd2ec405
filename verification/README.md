# Aperture, WHIP and the .NET client: a verified model

The system stores and serves assets. A WHIP node (`whip-server`) keeps assets in append-only data files, searches the
other nodes of its mesh for assets it lacks, and can replicate a whole master by pulling. Aperture is an HTTP front end
that fetches assets from WHIP nodes, caches them and sends them out, whole or in ranges, through a token bucket. A .NET
client talks to WHIP nodes from many threads.

This project models the parts of that system with the most state and the most interleaving, and proves what they are
for. Sockets are first-in first-out streams, and the completion of an asynchronous operation is an event that may come
at any moment. Where an object is changed step by step, the model has three layers: a value that is the object's state
with a function per handler; lemmas about every run of those functions; and a class whose methods follow the control
flow of the code and are proved to change the abstract state exactly as the functions say.

| file | what it models |
|---|---|
| `Fips180.dfy`, `Sha1.dfy` | SHA-1 as FIPS 180-4 defines it, and the streaming implementation that refines it |
| `MeshTransfer.dfy` | asset transfers over one mesh connection |
| `MeshSearch.dfy`, `MeshAnswers.dfy`, `MeshSearchOnce.dfy`, `MeshNode.dfy` | searching the mesh: handlers, what each event tells each search, what runs promise, the objects |
| `MeshLink.dfy` | that the searches' view of a server's transfers is the connection's |
| `PullReplication.dfy` | pull replication, prefix by prefix |
| `WhipClient.dfy` | Aperture's WHIP client, which coalesces requests for one asset |
| `RemoteServer.dfy` | the .NET client's sending threads and receive thread |
| `RequestParser.dfy`, `RequestGrammar.dfy` | the HTTP request parser, and the language it accepts |
| `RequestStream.dfy`, `HttpReply.dfy`, `Connection.dfy` | one HTTP connection: request queue, replies, throttled sending |
| `TokenBucket.dfy` | the bucket that throttles a sender |
| `LruCache.dfy` | the asset cache |
| `DataFile.dfy` | the append-only data file |
| `Utf.dfy`, `AssetWire.dfy`, `Ranges.dfy` | the asset wire format and ranged replies |
| `ByteOrder.dfy`, `Sequences.dfy`, `Wrappers.dfy` | byte order, sequences without repetition, optional values |

Properties that turned out not to hold of the code are stated with the exact condition under which they do, and with an
input or run that shows the failure:

- a `getAsset` on a dead mesh connection runs its callback twice (`MeshTransfer.CallbackRunsOnceIffUp`; the run is
  `MeshTransfer.DeadCallRunsTwice`);
- closing a closed mesh connection again is harmless if and only if no search it still has registered is being fetched
  from another server (`MeshSearchOnce.SecondCloseHarmlessIff`; the run is `MeshSearchOnce.SecondCloseAnswersTwice`),
  and searches are answered exactly once in all runs in which every such close is harmless;
- each queued id is in one place and requested once if and only if the list names no id twice that the node lacks
  (`PullReplication.ListHarmlessIff`); what else a repeated id can do is end the round before its last list
  (`PullReplication.RepeatedIdEndsRoundEarly`);
- the WHIP client writes while requests are queued and reads while callbacks wait if and only if no write or read error
  was handled while `close` does nothing (`WhipClient.DrivenIff`, `WhipClient.OneGetPerTransferIff`), which a caller
  prevents exactly by not asking in the two states in which `close` does nothing (`WhipClient.CallSafeIff`,
  `WhipClient.GuardedCallersStayDriven`; the run is `WhipClient.AskedTooEarlyGetsStuck`). The request handler asks only
  a connected client (aperture/aperture/request_handler.cpp:279);
- `close` on a disconnected or shut down WHIP client leaves callbacks waiting (`WhipClient.CloseEmptiesIffClosable`; a
  client with a callback that waits there is in the same run);
- an append to an existing empty data file returns the invalid position (`DataFile.InvalidIff`; the run is
  `DataFile.TornMagicInvalid`);
- an insertion into the cache evicts too little if and only if the byte count wraps (`LruCache.InsertFitsIff`; the cache
  is in `LruCache.WrappedCountEvictsNothing`);
- a serialised asset fills its buffer if and only if its id has 32 characters (`AssetWire.Serialize`; an id that does not
  is in `AssetWire.ShortIdDoesNotFill`), its id comes back if and only if it is ASCII (`AssetWire.AsciiSurvivesIff`), and
  a name if and only if its surrogates are paired (`Utf.SurvivesIff`; the name is in `Utf.LoneSurrogateLost`).

Two comments in the code disagree with the code and the code is followed: `fetch_ptr` touches its entry whatever its
`touch` argument says, and the header `Range: bytes=-N` is read as the range from 0 to N.

## Model

| member | source | states |
|---|---|---|
| `Sha1Stream.CSHA1.constructor` | aperture/aperture/SHA1.cpp:47-52 | a new object has absorbed the empty message |
| `Sha1Stream.CSHA1.Reset` | aperture/aperture/SHA1.cpp:59-70 | whatever was absorbed before, the object has absorbed the empty message |
| `Sha1Stream.SwapBytesReadsBigEndian` | aperture/aperture/SHA1.cpp:31-35 | the little-endian byte swap reads a word in network order |
| `Sha1Stream.MacroFIsF` | aperture/aperture/SHA1.cpp:41-45 | the logic of the five round macros is the function f of FIPS 180-4 section 4.1.1 in every round |
| `Sha1Stream.NextWordIsScheduled` | aperture/aperture/SHA1.cpp:37-38 | the word computed in the 16-word circular buffer is the word of the 80-word schedule |
| `Sha1Stream.MacroRound` | aperture/aperture/SHA1.cpp:41-103 | a macro on rotating register names is one five-variable round of FIPS 180-4 section 6.1.2, step 3 |
| `Sha1Stream.CSHA1.Transform` | aperture/aperture/SHA1.cpp:72-111 | the state after a block is the FIPS 180-4 compression of the state before, for every state and block |
| `Sha1Stream.CSHA1.LoadBlock` | aperture/aperture/SHA1.cpp:76 | the workspace holds the sixteen words of the block, in the host's byte order |
| `Sha1Stream.CSHA1.RunRound` | aperture/aperture/SHA1.cpp:41-45 | the registers, read in their rotated roles, are one more round of FIPS 180-4, and the circular schedule one word further |
| `Sha1Stream.CSHA1.AddBack` | aperture/aperture/SHA1.cpp:100-105 | the registers are added to the state, word by word, modulo 2^32 |
| `Sha1Stream.CountTracksLength` | aperture/aperture/SHA1.cpp:118-121 | the two-word counter is eight times the bytes absorbed, modulo 2^64, with its carry |
| `Sha1Stream.CSHA1.Update` | aperture/aperture/SHA1.cpp:114-139 | the absorbed message grows by exactly the data; the chain covers the whole blocks and the buffer the bytes past them |
| `Sha1Stream.CSHA1.AddToCount` | aperture/aperture/SHA1.cpp:118-121 | the counter keeps tracking the length, carry included |
| `Sha1Stream.CSHA1.CompleteBlock` | aperture/aperture/SHA1.cpp:126-128 | the carried bytes and the first new ones are compressed as the next block |
| `Sha1Stream.CSHA1.CopyToBuffer` | aperture/aperture/SHA1.cpp:137-138 | the rest of the data is carried, and nothing else of the buffer changes |
| `Sha1Stream.CSHA1.HashWholeBlocks` | aperture/aperture/SHA1.cpp:130-131 | the loop compresses every whole block of the data in order |
| `Sha1Stream.CSHA1.PadWithZeros` | aperture/aperture/SHA1.cpp:191-192 | the padding loop appends exactly the least number of zeros that FIPS 180-4 section 5.1.1 asks for, fewer than 64 |
| `Sha1Stream.CSHA1.CountBytes` | aperture/aperture/SHA1.cpp:184-187 | the eight count bytes are the length field of FIPS 180-4 section 5.1.1: read in network order they are eight times the message length modulo 2^64 |
| `Sha1Stream.CSHA1.StoreDigest` | aperture/aperture/SHA1.cpp:196-197 | the twenty digest bytes, read in network order, are the five state words, and are the SHA-1 of the message that was padded |
| `Sha1Stream.CSHA1.Final` | aperture/aperture/SHA1.cpp:180-207 | the digest is the SHA-1 of the whole absorbed message: its five words in network order are the chain over the padded blocks |
| `Sha1Stream.DigestOfChunks` | aperture/aperture/SHA1.cpp:114-207 | however a message is cut into updates, the digest is the SHA-1 of the whole, with the words of the chain in network order |
| `Fips180.ZeroCountIsLeast` | aperture/aperture/SHA1.cpp:189-192 | the padding length of the specification is the smallest that completes a block |
| `Fips180.BytesOfWord` | aperture/aperture/SHA1.cpp:196-197 | the four digest bytes of a word, read in network order, are the word |
| `Fips180.LengthFieldReads` | aperture/aperture/SHA1.cpp:184-187 | the length field read in network order is the bit length modulo 2^64 |
| `Fips180.KIsRoot` | aperture/aperture/SHA1.cpp:41-45 | each round constant is the integer part of 2^30 times the square root of 2, 3, 5 or 10 |
| `Fips180.InitialCounts` | aperture/aperture/SHA1.cpp:62-66 | the initial words, as bytes in a little-endian memory, count up and down in hexadecimal digits |
| `Fips180.RotationsAreRepeated` | aperture/aperture/SHA1.cpp:22-28 | rotations by 5 and 30 are so many rotations by one |
| `Fips180.RotateOne` | aperture/aperture/SHA1.cpp:22-28 | a rotation to the right by one undoes the rotation to the left |
| `MeshTransfer.RunsKeepInv` | whip-server/whip/MeshServer.cpp:421-656 | every run keeps queues, flags, the write in flight and the fired callbacks consistent |
| `MeshTransfer.TransfersInCallOrder` | whip-server/whip/MeshServer.cpp:421-656 | in every run at most one write is in flight, a read is in flight while the connection is up, every callback gets null or the asset of its own UUID, and while the connection is up the callbacks fired, the callback queue and the transfer queue are the calls in call order |
| `MeshTransfer.LiveConnectionReads` | whip-server/whip/MeshServer.cpp:492-656 | in every run a live connection is reading what the reads so far announce: behind a header its asset or its error text, behind either the next header |
| `MeshTransfer.AnswerFires` | whip-server/whip/MeshServer.cpp:492-656 | the asset read, if it has the UUID asked for, goes to the oldest request sent, and a refusal gives that request null |
| `MeshTransfer.AssetFiredWasRead` | whip-server/whip/MeshServer.cpp:612-656 | in every run a callback that was given an asset was given it by the read of that very asset, when its call was the oldest unanswered one |
| `MeshTransfer.CallbackRunsOnceIffUp` | whip-server/whip/MeshServer.cpp:421-434 | once nothing waits, a callback has run once if and only if its call was made on a live connection, and twice otherwise |
| `MeshTransfer.DeadCallRunsTwice` | whip-server/whip/MeshServer.cpp:421-434 | a run in which the callback of a call on a closed connection runs twice |
| `MeshTransfer.QueuesActAsOne` | whip-server/whip/MeshServer.cpp:436-490 | every step of a live connection leaves the two queues together alone, adds a call at the end or answers the first |
| `MeshTransfer.MeshServerTransfers.CloseConnection` | whip-server/whip/MeshServer.cpp:59-94 | both draining loops: every queued callback gets null, in order, and both queues are empty |
| `MeshTransfer.MeshServerTransfers.SendGetRequest` | whip-server/whip/MeshServer.cpp:436-450 | the call joins the callback queue and its request is the write in flight |
| `MeshTransfer.MeshServerTransfers.CallAsset` | whip-server/whip/MeshServer.cpp:421-434 | the call is sent at once, queued behind a write, or, on a dead connection, posted a null and still queued |
| `MeshTransfer.MeshServerTransfers.OnAfterWriteAssetRequest` | whip-server/whip/MeshServer.cpp:452-476 | a finished write sends the next queued request of a live connection or ends sending; a failed one closes |
| `MeshTransfer.MeshServerTransfers.OnReadResponseHeader` | whip-server/whip/MeshServer.cpp:492-587 | a failed or corrupt header closes, a found one has its asset read next, and a refusal calls the first waiting callback with null if it names its UUID and closes otherwise |
| `MeshTransfer.MeshServerTransfers.OnHandleRequestErrorData` | whip-server/whip/MeshServer.cpp:589-610 | behind the text of a refusal the next header is read; a failure closes |
| `MeshTransfer.MeshServerTransfers.OnReadResponseData` | whip-server/whip/MeshServer.cpp:612-656 | an asset of the first waiting UUID goes to that callback and the next header is read; anything else closes |
| `MeshLink.AnyOrder` | whip-server/whip/MeshServer.cpp:66-94 | null answers to the same transfers leave the same searches in whatever order they are given |
| `MeshLink.TwoDrains` | whip-server/whip/MeshServer.cpp:66-94 | the two draining loops of a close, requests to be sent first, leave what answering all transfers oldest first leaves |
| `MeshLink.StepFollows` | whip-server/whip/MeshServer.cpp:421-656 | every step of a live connection, its close included, is the step that the searches see: a firing with an asset gives its search exactly the data of that asset, one without gives it not found, and no other search is given anything; an asset under another UUID closes |
| `MeshLink.RunsFollow` | whip-server/whip/MeshServer.cpp:421-656 | in every run of a connection the calls a server owes its searches are those sent and then those to be sent, and every full search has been given exactly the data fired for it, in order |
| `MeshSearch.NoSearchWaitsForgotten` | whip-server/whip/AssetSearch.cpp:34-177 | in every run, closes included, a server that a search waits for still has that search registered |
| `MeshSearch.OnSearchResultKeepsListened` | whip-server/whip/AssetSearch.cpp:34-74 | a search result, with all it cancels and starts, leaves no search waiting for a server that forgot it |
| `MeshAnswers.StepGives` | whip-server/whip/AssetSearch.cpp:34-177 | what each event adds to the answers of each search, stated apart from the handlers: a transfer gives its asset to the search that waited longest, a negative report or a timeout not found, a close null once for each transfer owed |
| `MeshAnswers.StartGives` | whip-server/whip/AssetSearch.cpp:104-119 | a new search is answered at once, not found, if and only if there is no server to ask |
| `MeshAnswers.AnswerWasGiven` | whip-server/whip/AssetSearch.cpp:34-177 | in every run each answer of a search was given by one of the events, or by its start with nobody to ask |
| `MeshAnswers.FoundWasBrought` | whip-server/whip/AssetSearch.cpp:34-177 | in every run an asset a search was given was brought by a transfer made for it, from a server that had confirmed it |
| `MeshAnswers.FinishedForGood` | whip-server/whip/AssetSearch.cpp:34-177 | a finished search stays finished, and nothing but its answers can change |
| `MeshSearchOnce.QuietRunsStaySettled` | whip-server/whip/AssetSearch.cpp:34-177 | in every run in which no server is closed again while a search it lists is being fetched, searches and transfers stay settled: answered at most once, active until answered |
| `MeshSearchOnce.AnsweredExactlyOnce` | whip-server/whip/AssetSearch.cpp:34-177 | in such runs, second closes included, a search is answered exactly once, truthfully, and has then left the active searches; an asset it is given is the one brought by the transfer from the server that found it; until then its timer runs or a connected server owes it a transfer |
| `MeshSearchOnce.AssetGivenForGood` | whip-server/whip/AssetSearch.cpp:169-177 | in such runs a transfer that brings an asset ends the full search that waited longest at that server, whose only answer, then and ever after, is that asset; one that brings nothing ends it with not found |
| `MeshSearchOnce.FoundCameFromFinder` | whip-server/whip/AssetSearch.cpp:34-74 | in such runs every asset a search was given came in a transfer from the server that found it, for that search |
| `MeshSearchOnce.NothingPendingNothingUnanswered` | whip-server/whip/AssetSearch.cpp:104-157 | in such runs, when no timer runs and no transfer is owed, every search ever made has been answered exactly once |
| `MeshSearchOnce.SecondCloseHarmlessIff` | whip-server/whip/MeshServer.cpp:96-105 | closing a closed server again is harmless if and only if no search it still lists is being fetched from another server |
| `MeshSearchOnce.SecondCloseAnswersTwice` | whip-server/whip/MeshServer.cpp:96-105 | a run in which a second close answers a search that is then answered again |
| `MeshNode.Node.MarkSearchComplete` | whip-server/whip/MeshStorageBackend.cpp:31-38 | the search, and no other, leaves the active searches |
| `MeshNode.Node.CancelSearch` | whip-server/whip/MeshServer.cpp:407-419 | the server forgets this search and no other |
| `MeshNode.Node.CancelRemaining` | whip-server/whip/AssetSearch.cpp:76-84 | every server still asked forgets the search, and the search waits for none |
| `MeshNode.Node.HandleSearchResult` | whip-server/whip/AssetSearch.cpp:34-74 | the object's new state is the specification's |
| `MeshNode.Node.HandleResponse` | whip-server/whip/MeshServer.cpp:371-387 | every search filed under the UUID is told, in some order, and the UUID is forgotten |
| `MeshNode.Node.Report` | whip-server/whip/MeshServer.cpp:97-105 | the loop tells every search filed under one UUID, each once |
| `MeshNode.Node.DropUuid` | whip-server/whip/MeshServer.cpp:371-387 | the registrations of the searches told are gone, and no others |
| `MeshNode.VisitedAsksTheFit` | whip-server/whip/AssetSearch.cpp:96-119 | the loop over the servers asks exactly the connected and readable ones, once each |
| `MeshNode.Node.BeginSearch` | whip-server/whip/AssetSearch.cpp:104-119 | the new search is active, registered with the servers asked, and timed; with nobody to ask it is answered not found |
| `MeshNode.Node.VisitServers` | whip-server/whip/AssetSearch.cpp:96-119 | the loop registers the search with the fit servers it has visited |
| `MeshNode.Node.InitiateSearch` | whip-server/whip/AssetSearch.cpp:96-102 | the server is asked and has the search registered under its UUID |
| `MeshNode.Node.HandleTimeout` | whip-server/whip/AssetSearch.cpp:137-157 | unless the asset was found, the servers still asked forget the search and it is answered not found |
| `MeshNode.Node.HandleFullAsset` | whip-server/whip/AssetSearch.cpp:169-177 | a search for a full asset is given exactly the asset transferred, or not found if there is none, and the search is complete |
| `MeshNode.Node.CloseServer` | whip-server/whip/MeshServer.cpp:59-105 | the connection goes down, owed transfers are answered null, and every registered search is told not found and stays registered |
| `MeshNode.Node.ReportAll` | whip-server/whip/MeshServer.cpp:97-105 | the nested loop tells every registered search, each once, and leaves the registrations alone |
| `MeshNode.Node.DrainAll` | whip-server/whip/MeshServer.cpp:66-94 | the loops answer the requests to be sent and then those sent, all with null, and leave what the specification leaves |
| `MeshNode.Node.DrainFrom` | whip-server/whip/MeshServer.cpp:66-94 | one draining loop: every call from a position on is answered null, in order |
| `MeshNode.Node.HandleTransfer` | whip-server/whip/MeshServer.cpp:612-644 | the search that has waited longest at the server is given exactly the asset, or not found, and is complete |
| `PullReplication.SplitKeepsText` | whip-server/whip/PullReplicationService.cpp:182-183 | splitting an id list at its commas loses nothing |
| `PullReplication.MissingIsExact` | whip-server/whip/PullReplicationService.cpp:185-190 | the queue made from any list holds exactly its non-empty ids that the node lacks |
| `PullReplication.RunsKeepInv` | whip-server/whip/PullReplicationService.cpp:116-308 | every run in which no list names an id twice that the node lacks keeps step, prefix, queue, progress and requests in flight consistent |
| `PullReplication.ListHarmlessIff` | whip-server/whip/PullReplicationService.cpp:164-205 | a list leaves every queued id in one place and requested once, and the whole service consistent, if and only if it names no id twice that the node lacks |
| `PullReplication.RoundCompletesEveryList` | whip-server/whip/PullReplicationService.cpp:207-224 | on waiting for the next round, every id listed under every prefix up to 0xfff is held or was logged as failed |
| `PullReplication.QueuedIdsInOnePlace` | whip-server/whip/PullReplicationService.cpp:232-308 | each queued id is in exactly one of pending, in progress, stored or failed, and each id in progress has exactly one request out |
| `PullReplication.BatchesBounded` | whip-server/whip/PullReplicationService.cpp:232-265 | in every run with a positive batch size, at most that many ids are in progress, and at most that many requests and writes in flight |
| `PullReplication.BatchIsBounded` | whip-server/whip/PullReplicationService.cpp:238-257 | a batch adds what it may still send, and less only when the queue runs empty |
| `PullReplication.SomethingInFlight` | whip-server/whip/PullReplicationService.cpp:116-308 | until the wait, an answer is always outstanding |
| `PullReplication.RoundEnds` | whip-server/whip/PullReplicationService.cpp:116-308 | every answer but a failed list brings (lists left, pending, in progress) down lexicographically |
| `PullReplication.RepeatedIdEndsRoundEarly` | whip-server/whip/PullReplicationService.cpp:267-308 | a run in which an id listed twice ends the round with the last list still to come |
| `PullReplication.PullReplicationService.ReplicateStep` | whip-server/whip/PullReplicationService.cpp:116-149 | one step of the round, by the state it is in |
| `PullReplication.PullReplicationService.StartRound` | whip-server/whip/PullReplicationService.cpp:119-125 | a round begins at the configured prefix and asks for its list |
| `PullReplication.PullReplicationService.QueueMissing` | whip-server/whip/PullReplicationService.cpp:178-190 | the loop queues exactly the ids the node lacks |
| `PullReplication.PullReplicationService.OnGetStoredAssetIds` | whip-server/whip/PullReplicationService.cpp:164-205 | a list is asked for again, skipped when empty, or queued for what the node lacks |
| `PullReplication.PullReplicationService.RetrieveNextIdList` | whip-server/whip/PullReplicationService.cpp:207-224 | the next prefix is asked for, or the round is over |
| `PullReplication.PullReplicationService.SendBatch` | whip-server/whip/PullReplicationService.cpp:238-257 | the batch loop takes ids off the queue until the batch is full, dropping those that arrived meanwhile |
| `PullReplication.PullReplicationService.RetrieveNextMissingAssetBatch` | whip-server/whip/PullReplicationService.cpp:232-265 | a batch in which nothing was sent moves on to the next list |
| `PullReplication.PullReplicationService.OnAssetRetrieved` | whip-server/whip/PullReplicationService.cpp:267-288 | an asset goes to the store, a failure is settled at once |
| `PullReplication.PullReplicationService.OnAfterAssetStored` | whip-server/whip/PullReplicationService.cpp:295-308 | the id leaves progress with its outcome, and the last of a batch starts the next step |
| `PullReplication.PullReplicationService.FinishId` | whip-server/whip/PullReplicationService.cpp:267-308 | an id that is settled leaves progress, and the last one starts the next step |
| `WhipClient.CallbacksConserved` | aperture/aperture/AssetServer.cpp:41-76 | in every run each registered callback was called once, under its UUID, or is still registered |
| `WhipClient.DrivenIff` | aperture/aperture/AssetServer.cpp:307-405 | in every run a write is out exactly while requests are queued if and only if no write error, and a read exactly while callbacks wait if and only if no read error, was handled while close does nothing since the last close that did something |
| `WhipClient.GuardedCallersStayDriven` | aperture/aperture/AssetServer.cpp:247-287 | without a call in a state in which close does nothing since the last close that did something, both hold |
| `WhipClient.CallSafeIff` | aperture/aperture/AssetServer.cpp:247-287 | the failure of the read behind a call is survived if and only if close would do something when the call is made; otherwise the callback waits with nothing in flight |
| `WhipClient.AskedTooEarlyGetsStuck` | aperture/aperture/AssetServer.cpp:247-325 | a run in which a call before connect leaves a connected client that neither writes nor reads |
| `WhipClient.OneGetPerTransferIff` | aperture/aperture/AssetServer.cpp:247-325 | with a server that answers in order, the unanswered GETs are exactly the UUIDs with waiting callbacks, once each, if and only if no write error was handled while close does nothing since the last close that did something |
| `WhipClient.CalledAtMostOnce` | aperture/aperture/AssetServer.cpp:408-421 | a callback registered once is called at most once, and is registered until then |
| `WhipClient.ResponseAnswers` | aperture/aperture/AssetServer.cpp:339-473 | an asset calls exactly the callbacks waiting for the UUID of its header, in order, each with that asset; an error text or an empty refusal calls them with null |
| `WhipClient.AssetGivenArrived` | aperture/aperture/AssetServer.cpp:408-473 | in every run a callback that was given an asset was given it when that very asset arrived, under the UUID it waited for |
| `WhipClient.DataFollowsHeader` | aperture/aperture/AssetServer.cpp:339-473 | in every run data being read was announced by a header of the same UUID, with no other read between |
| `WhipClient.CloseEmptiesIffClosable` | aperture/aperture/AssetServer.cpp:41-76 | close calls all waiting callbacks with null if and only if the client is neither disconnected nor shut down |
| `WhipClient.AssetServer.CloseConnection` | aperture/aperture/AssetServer.cpp:41-76 | the loops over the pending transfers and the new connection state |
| `WhipClient.AssetServer.CancelTransfers` | aperture/aperture/AssetServer.cpp:41-76 | the loop calls every waiting callback of every UUID with null |
| `WhipClient.AssetServer.RequestAsset` | aperture/aperture/AssetServer.cpp:247-298 | the callback joins the transfer of its UUID; a new transfer queues a GET, written at once if it is alone, and begins a response read if no transfer was waiting |
| `WhipClient.AssetServer.OnWriteAssetRequest` | aperture/aperture/AssetServer.cpp:307-325 | a written request leaves the queue and the next one is written; an error closes |
| `WhipClient.AssetServer.FireAssetRcvdCallbacks` | aperture/aperture/AssetServer.cpp:408-428 | every callback that waited for the UUID, and no other, is called once, in order of registration, with that UUID and that asset; reading goes on while others wait |
| `WhipClient.AssetServer.OnReadResponseHeader` | aperture/aperture/AssetServer.cpp:339-406 | the data of a found asset or of an error text is read next; an empty refusal calls every callback of its UUID, in order, with null; an error or an invalid header closes |
| `WhipClient.AssetServer.OnReadResponseData` | aperture/aperture/AssetServer.cpp:452-473 | an asset goes to every callback of its UUID, in order, and to no other; an error closes |
| `WhipClient.AssetServer.OnHandleRequestErrorData` | aperture/aperture/AssetServer.cpp:430-450 | behind an error text every callback of its UUID, in order, gets null; an error closes |
| `RemoteServer.QueueFollowsTheWire` | whip-dotnet-client/client/RemoteServer.cs:216-268 | in every interleaving the queue of waiters is the unanswered requests in wire order plus at most one unsent, and the receive thread always dequeues the waiter its message answers |
| `RemoteServer.OneGetPerUuid` | whip-dotnet-client/client/RemoteServer.cs:322-348 | at most one GET per UUID is outstanding |
| `RemoteServer.NoWaiterOrphaned` | whip-dotnet-client/client/RemoteServer.cs:184-268 | every answer received is for the waiter's own UUID and is the whole answer of the server to its own request, or to the GET at the head of the list it joined; an unanswered GET is listed behind an outstanding one, and nobody is called twice |
| `RemoteServer.ResponseIsTheAnswer` | whip-dotnet-client/client/RemoteServer.cs:184-268 | in every interleaving the response of a call whose thread sent a request is the whole answer to that request, body included; that of a GET that joined is the whole answer to the GET at the head of its list |
| `RemoteServer.QuietClientHasAnsweredAll` | whip-dotnet-client/client/RemoteServer.cs:184-376 | when nothing is being sent, answered or read, every call has its answer and no list of waiters is left |
| `RemoteServer.RemoteServer.QueueGetWaiter` | whip-dotnet-client/client/RemoteServer.cs:322-348 | the waiter joins the list of its UUID, and a request is needed only for the first |
| `RemoteServer.RemoteServer.BeginRequest` | whip-dotnet-client/client/RemoteServer.cs:355-362 | a call joins the waiters of its UUID or goes on to send |
| `RemoteServer.RemoteServer.EnterSendSync` | whip-dotnet-client/client/RemoteServer.cs:363-364 | the thread holds the send lock |
| `RemoteServer.RemoteServer.EnqueueWaiter` | whip-dotnet-client/client/RemoteServer.cs:355-376 | under the send lock the waiter is enqueued before its request is sent |
| `RemoteServer.RemoteServer.SendAndLeave` | whip-dotnet-client/client/RemoteServer.cs:355-376 | the request goes out behind all earlier ones and the lock is free |
| `RemoteServer.RemoteServer.DequeueTopWaiter` | whip-dotnet-client/client/RemoteServer.cs:216-268 | the oldest waiter is taken for the message at hand |
| `RemoteServer.RemoteServer.ReadMessage` | whip-dotnet-client/client/RemoteServer.cs:223 | the receive thread holds the next message whole, and the messages behind it are still to be read |
| `RemoteServer.RemoteServer.NotifyTopWaiter` | whip-dotnet-client/client/RemoteServer.cs:237-240 | the waiter taken has the message as its answer |
| `RemoteServer.RemoteServer.NotifyGetWaiters` | whip-dotnet-client/client/RemoteServer.cs:242-252 | a GET answers all waiters of the UUID if there are any, and reading goes on |
| `RemoteServer.RemoteServer.CallGetWaiters` | whip-dotnet-client/client/RemoteServer.cs:184-198 | the loop gives the message to every waiter of its UUID and drops their list |
| `RequestParser.Parser.Parse` | aperture/aperture/request_parser.hpp:36-48 | the loop stops right behind the character that decides, or at the end undecided, in the state that the characters read lead to |
| `RequestParser.Parser.Reset` | aperture/aperture/request_parser.cpp:24-27 | the parser expects a method |
| `RequestParser.FeedConcat` | aperture/aperture/request_parser.hpp:36-48 | feeding two pieces is feeding their concatenation |
| `RequestGrammar.AcceptsExactly` | aperture/aperture/request_parser.cpp:29-357 | the parser accepts a text, on its last character, if and only if it is a message of the grammar with continuation lines, and no text has two meanings |
| `RequestGrammar.AcceptedIsMessage` | aperture/aperture/request_parser.cpp:29-328 | an accepted text is a well-formed message and the request built is its meaning |
| `RequestGrammar.MessageAccepted` | aperture/aperture/request_parser.cpp:29-328 | every well-formed message is accepted with its meaning, and not before its last character |
| `RequestGrammar.PrintParse` | aperture/aperture/request_parser.cpp:29-357 | a printed HTTP/1.1 request parses back to itself, ready on the last character and undecided on every proper prefix |
| `RequestStream.AbsorbConcat` | aperture/aperture/connection.cpp:146-179 | what a stream asks for does not depend on where it is cut |
| `RequestStream.AbsorbIsFeed` | aperture/aperture/connection.cpp:146-165 | one call of the parser on the last request is that much of the stream |
| `HttpReply.HeaderBuffers` | aperture/aperture/reply.cpp:132-146 | the gathered buffers spell the status line, the headers and the blank line |
| `HttpReply.ToBuffers` | aperture/aperture/reply.cpp:115-130 | the gathered buffers spell the head and the content |
| `HttpReply.BadRequestLength` | aperture/aperture/reply.cpp:295-303 | the stock 400 reply states the length of its text |
| `Connection.RunsKeepInv` | aperture/aperture/connection.cpp:96-325 | every run keeps queue, parser, flags, pending operation and output in step with the bytes received; no handler takes the front of an empty queue |
| `Connection.OneOperationPending` | aperture/aperture/connection.cpp:54-325 | until it closes, a connection has one pending operation, its flag is down exactly while that is a read, and its queue is complete requests and then one unfinished or bad |
| `Connection.StreamDecides` | aperture/aperture/connection.cpp:96-231 | what was handed to the handler is the beginning of what the bytes ask for; a connection that waits for more or has closed after a reply has handed over exactly that and has answered 400 exactly if the bytes say so |
| `Connection.SplitsDoNotMatter` | aperture/aperture/connection.cpp:137-197 | two connections that get the same bytes in different pieces hand over the same requests and reject alike |
| `Connection.RepliesInOrder` | aperture/aperture/connection.cpp:199-231 | the output is the whole replies to the requests answered, in request order, then a prefix of one more |
| `Connection.AnswersAreTheHandlers` | aperture/aperture/connection.cpp:96-262 | the n-th answer is the n-th reply the handler gave, with a closing header exactly if the request asks for it; invalid data is answered with the stock 400 |
| `Connection.ChunksArePrefix` | aperture/aperture/connection.cpp:264-325 | while chunks go out, the output is the header and the content so far, and no chunk exceeds the burst |
| `Connection.ChunkFitsBucket` | aperture/aperture/connection.cpp:287-288 | in every run a chunk is as long as the burst and the rest of the content allow, and is empty only if the burst is |
| `Connection.ChunkAdvances` | aperture/aperture/connection.cpp:276-325 | a chunk that is out ends the reply or brings the next chunk, or the wait for it, that much nearer; it makes progress if and only if the burst is positive |
| `Connection.ThrottledReplyFinishes` | aperture/aperture/connection.cpp:276-325 | through any waits, as many chunks as the rest is long in bursts finish the reply: the request is then answered and its reply sent to the last byte |
| `Connection.CloserIff` | aperture/aperture/request.hpp:35-48 | a request asks for a close if and only if the first of its Connection headers says close |
| `Connection.HttpConnection.constructor` | aperture/aperture/connection.cpp:54-73 | a new connection has one fresh request and a pending read |
| `Connection.HttpConnection.ProcessNextRequest` | aperture/aperture/connection.cpp:96-135 | the front request is rejected, handed over, or read on |
| `Connection.HttpConnection.ParseAll` | aperture/aperture/connection.cpp:144-179 | the loop leaves the queue that the received bytes lead to, and a read is begun if nothing is ready |
| `Connection.HttpConnection.ParseOne` | aperture/aperture/connection.cpp:148-165 | one call of the parser completes, spoils or extends the last request, and a complete one is followed by a new one |
| `Connection.HttpConnection.HandleRead` | aperture/aperture/connection.cpp:137-197 | the new state is the specification's for the bytes read, or for a read that failed |
| `Connection.HttpConnection.FrontHeaderValue` | aperture/aperture/request.hpp:35-48 | the first header of the name, or nothing |
| `Connection.HttpConnection.ReplyReady` | aperture/aperture/connection.cpp:233-262 | the reply is closed off if the request asks for it and is written whole or, with a bucket, header first |
| `Connection.HttpConnection.HandleWrite` | aperture/aperture/connection.cpp:199-231 | the request is finished and the next one processed, or the connection closed; an error stops the connection with a beginning of the reply out |
| `Connection.HttpConnection.FinishRequest` | aperture/aperture/connection.cpp:201-226 | the front request leaves the queue, and the connection closes or goes on |
| `Connection.HttpConnection.TrySendNextChunk` | aperture/aperture/connection.cpp:276-303 | the reply is finished, or a chunk is written, or its tokens are waited for |
| `Connection.HttpConnection.HandleChunkWrite` | aperture/aperture/connection.cpp:313-325 | what went out is counted and the next chunk tried; an error stops the connection |
| `Connection.HttpConnection.HandleHeaderWrite` | aperture/aperture/connection.cpp:264-274 | the header is out and the first chunk is tried; an error stops the connection |
| `Connection.HttpConnection.OnTokenWait` | aperture/aperture/connection.cpp:305-311 | the chunk is tried again, unless the connection was stopped |
| `Connection.HttpConnection.Stop` | aperture/aperture/connection.cpp:186-230 | the connection is closed, nothing is pending, and what got out is a beginning of what was being written |
| `TokenBucket.TokensBounded` | aperture/aperture/TokenBucket.cpp:9-48 | in every run the tokens never exceed the burst |
| `TokenBucket.WindowBound` | aperture/aperture/TokenBucket.cpp:23-48 | in every run and every window of T milliseconds at most the burst and T times the rate is removed |
| `TokenBucket.BandwidthBound` | aperture/aperture/TokenBucket.cpp:9-48 | in S seconds a bucket lets out at most a burst and S times its bandwidth, counted as 1000 at least |
| `TokenBucket.GrantedIff` | aperture/aperture/TokenBucket.cpp:23-48 | a request within the burst is granted if and only if the tokens and the idle time cover it |
| `TokenBucket.RetriesSucceed` | aperture/aperture/connection.cpp:287-302 | refused k times, at least a millisecond apart, a sole sender has gained k times the rate, so that retries end |
| `TokenBucket.Throttle.constructor` | aperture/aperture/TokenBucket.cpp:9-17 | the bucket starts full, with a rate of at least one |
| `TokenBucket.Throttle.DripNow` | aperture/aperture/TokenBucket.cpp:35-48 | whole milliseconds since the last drip add their tokens, up to the burst |
| `TokenBucket.Throttle.RemoveTokens` | aperture/aperture/TokenBucket.cpp:23-33 | the tokens are taken if and only if they are there after the drip |
| `LruCache.FitIsLongest` | aperture/aperture/lru_cache.h:209-215 | the reference eviction keeps a beginning of the list that fits, and every longer one does not |
| `LruCache.InsertFitsIff` | aperture/aperture/lru_cache.h:192-216 | insertion leaves exactly the longest most recently used beginning that fits if and only if the total fits 64 bits |
| `LruCache.WrappedCountEvictsNothing` | aperture/aperture/lru_cache.h:209-215 | a full cache of the largest size that keeps everything when the byte count wraps |
| `LruCache.TooBigEmpties` | aperture/aperture/lru_cache.h:209-215 | an item that is too big for the cache empties it |
| `LruCache.ListInOrderOfUse` | aperture/aperture/lru_cache.h:124-263 | after any operations the list is in order of last use, without a key twice, and holds what was last inserted under each key |
| `LruCache.FetchReturnsLastInserted` | aperture/aperture/lru_cache.h:163-185 | after any operations a key is found if and only if the list has it, with the data last inserted under it |
| `LruCache.FoundUntilRemoved` | aperture/aperture/lru_cache.h:124-216 | an item that fits is found right after its insertion, and is not after its removal or a clear |
| `LruCache.TouchKeepsEntries` | aperture/aperture/lru_cache.h:234-240 | using a key brings its entry to the front and drops nothing |
| `LruCache.SizeBounded` | aperture/aperture/AssetSizeCalculator.h:22-34 | without 64-bit overflow the charges never exceed the limit |
| `LruCache.Calculator.OnAdd` | aperture/aperture/AssetSizeCalculator.h:22-25 | the count grows by the item and its overhead, modulo 2^64 |
| `LruCache.Calculator.OnRemove` | aperture/aperture/AssetSizeCalculator.h:27-30 | the count shrinks by the same, modulo 2^64 |
| `LruCache.Cache.ClearAll` | aperture/aperture/lru_cache.h:124-129 | list, index and count are empty together |
| `LruCache.Cache.Exists` | aperture/aperture/lru_cache.h:135-138 | the index answers for the list |
| `LruCache.Cache.RemoveKey` | aperture/aperture/lru_cache.h:143-148 | the entry of the key, and no other, is gone |
| `LruCache.Cache.TouchKey` | aperture/aperture/lru_cache.h:234-240 | the entry goes to the front, and the index still finds every node |
| `LruCache.Cache.RemoveAt` | aperture/aperture/lru_cache.h:246-263 | node, index entry and charge go together |
| `LruCache.Cache.FetchNode` | aperture/aperture/lru_cache.h:163-169 | the node of the key or null; the entry is touched whatever was asked |
| `LruCache.Cache.FetchCopy` | aperture/aperture/lru_cache.h:176-185 | the data of the key or nothing; the entry is touched only if asked |
| `LruCache.Cache.Evict` | aperture/aperture/lru_cache.h:209-215 | the loop ends, never takes the last element of an empty list, and leaves what the specification leaves |
| `LruCache.Cache.InsertItem` | aperture/aperture/lru_cache.h:192-216 | an old entry of the key is replaced, the new one is at the front, and the rest is evicted as specified |
| `LruCache.Cache.PushFront` | aperture/aperture/lru_cache.h:199-207 | the new entry is first in the list, in the index and in the count |
| `LruCache.Cache.GetAllKeys` | aperture/aperture/lru_cache.h:221-227 | the keys in list order |
| `DataFile.PositionsReadBack` | whip-server/whip/DataFile.cpp:41-93 | after any attempts, torn at any byte, every position ever returned reads back its asset, and records lie one behind the other without overlap |
| `DataFile.WriteThenRead` | whip-server/whip/DataFile.cpp:64-93 | a finished write reads back at the position it returned, which is where the file ended |
| `DataFile.InvalidIff` | whip-server/whip/DataFile.cpp:66-79 | a write returns the invalid position if and only if the file existed and was empty |
| `DataFile.PositionsValid` | whip-server/whip/VFSCommon.h:7 | starting without a file, no position is invalid as long as no attempt leaves the file empty |
| `DataFile.PositionsPastMagic` | whip-server/whip/DataFile.cpp:71-79 | once the magic word is whole every position is past it |
| `DataFile.TornMagicInvalid` | whip-server/whip/DataFile.cpp:66-79 | an attempt that dies before its first byte makes the next one return the invalid position |
| `DataFile.Store.WriteNewAsset` | whip-server/whip/DataFile.cpp:64-93 | bytes on disk and result for any amount of space left, a size beyond 32 bits included |
| `DataFile.Store.WriteRecord` | whip-server/whip/DataFile.cpp:83-89 | the size in network order and the contents, as far as there is room |
| `DataFile.Store.GetAssetAtPosition` | whip-server/whip/DataFile.cpp:41-62 | the record at the position, or an error for a short read |
| `Utf.LimitByteLength` | whip-dotnet-client/client/Util.cs:88-99 | the longest beginning whose UTF-8 encoding fits, or the empty string |
| `Utf.DecodeUtf8` | whip-dotnet-client/client/Asset.cs:141-160 | decoding an encoded string gives it back with its lone surrogates replaced |
| `Utf.SurvivesIff` | whip-dotnet-client/client/Asset.cs:141-160 | a string survives encoding and decoding if and only if its surrogates are paired |
| `Utf.LoneSurrogateLost` | whip-dotnet-client/client/Asset.cs:141-160 | a high surrogate alone comes back as U+FFFD |
| `AssetWire.FixedHasNoDash` | whip-dotnet-client/client/Util.cs:19-22 | a fixed id has no dash left |
| `AssetWire.FixUuidKeepsRest` | whip-dotnet-client/client/Util.cs:19-22 | a fixed id is exactly the characters that are not dashes, each from its place in the id |
| `AssetWire.KeptInOrder` | whip-dotnet-client/client/Util.cs:19-22 | those places are all the places without a dash, in order |
| `AssetWire.AsciiSurvivesIff` | whip-dotnet-client/client/Util.cs:29-49 | an id survives its encoding if and only if it is ASCII |
| `AssetWire.NumbersRoundTrip` | whip-dotnet-client/client/Util.cs:57-70 | a 32-bit number is written in network order and read back, sign included |
| `AssetWire.AppendableByteArray.AppendByte` | whip-dotnet-client/client/AppendableByteArray.cs:41-44 | the byte goes behind what was written, or the array is full and keeps its bytes; the position advances in both cases |
| `AssetWire.AppendableByteArray.Append` | whip-dotnet-client/client/AppendableByteArray.cs:50-57 | the bytes go behind what was written, or they do not fit and nothing changes |
| `AssetWire.AppendableByteArray.GetSubarray` | whip-dotnet-client/client/AppendableByteArray.cs:111-117 | the bytes asked for, or an error past the end |
| `AssetWire.Serialize` | whip-dotnet-client/client/Asset.cs:178-217 | for every asset it succeeds if and only if texts, id and total size fit; the bytes are the layout, and fill the buffer if and only if the id has 32 characters |
| `AssetWire.Fill` | whip-dotnet-client/client/Asset.cs:201-214 | the appends succeed exactly if the layout fits, and leave exactly the layout |
| `AssetWire.ShortIdDoesNotFill` | whip-dotnet-client/client/Asset.cs:197-201 | an id of one character leaves 31 bytes of the buffer unwritten |
| `AssetWire.LayoutReadsBack` | whip-dotnet-client/client/Asset.cs:128-176 | reading a serialised asset with an id of 32 characters gives the same fields |
| `AssetWire.BuiltRoundTrip` | whip-dotnet-client/client/Asset.cs:111-217 | every asset the public constructor builds with a 32-character id round-trips, its id if and only if it is ASCII, its texts up to lone surrogates, and the C++ reader finds its payload |
| `AssetWire.Build` | whip-dotnet-client/client/Asset.cs:111-122 | the built asset is the given one with its id fixed and its texts cut to the longest that fit |
| `AssetWire.Transmit` | whip-dotnet-client/client/Asset.cs:111-217 | building, serialising and deserialising gives every field back for a 32-character ASCII id, and fails exactly when an id or size is too long |
| `AssetWire.ReadersAgree` | aperture/aperture/Asset.cpp:58-75 | on any bytes the .NET reader takes, the C++ reader finds the same payload, unless the size has its sign bit set |
| `AssetWire.PayloadFound` | aperture/aperture/Asset.cpp:58-75 | the C++ reader finds exactly the payload, up to the end, in what the .NET writer wrote |
| `Ranges.RangesReadBack` | aperture/aperture/request_handler.cpp:704-745 | ranges written out in decimal are read back, open ends included, and numbers beyond 32 bits refused |
| `Ranges.ShapedIsRead` | aperture/aperture/request_handler.cpp:704-745 | a header of two texts around one dash is the range its numbers name; a missing start is 0 and a missing end the largest number |
| `Ranges.UnshapedIsRefused` | aperture/aperture/request_handler.cpp:704-745 | a header is refused as no range if and only if it does not have that shape |
| `Ranges.ContentRangeReadsBack` | aperture/aperture/request_handler.cpp:889-897 | the three numbers of a Content-Range header are read back from its text |
| `Ranges.SliceIsTheRange` | aperture/aperture/Asset.cpp:93-129 | a slice is non-empty and in bounds, and, unless it is the whole object, exactly the bytes of the range that exist |
| `Ranges.Adjust` | aperture/aperture/Asset.cpp:103-119 | clamping and resetting give the first and last byte of the slice, for every object of the size |
| `Ranges.CopyMesh` | aperture/aperture/Asset.cpp:93-129 | any mesh asset appends the bytes of the adjusted range or fails as the code does; a well-formed one exactly that slice of its payload |
| `Ranges.CopyCloud` | aperture/aperture/CloudFilesAsset.cpp:44-71 | a cloud asset appends exactly the same slice of its data |
| `Ranges.CopyWholeMesh` | aperture/aperture/Asset.cpp:77-91 | the whole payload is copied if and only if it lies inside the asset; the other outcomes, with an end computed in 32 bits, are told apart |
| `Ranges.WellFormedCopies` | aperture/aperture/Asset.cpp:77-129 | what a well-formed asset gives out is the slice and the payload, and only such an asset gives out a whole |
| `Ranges.BuiltIsServed` | aperture/aperture/Asset.cpp:58-91 | what the .NET client built is the object the front end serves |
| `Ranges.FindRange` | aperture/aperture/request_handler.cpp:864-873 | the last Range header counts, and the first that cannot be read is an error |
| `Ranges.Describe` | aperture/aperture/request_handler.cpp:879-919 | a reply is partial exactly if the content is shorter than the object; its Content-Length reads as the length of the content, and its Content-Range as the first byte, the clamped last byte and the size |
| `Ranges.ReplyFits` | aperture/aperture/request_handler.cpp:875-919 | the reply to the slice of an object, read by its headers, is the one its range calls for |
| `Ranges.SendResponse` | aperture/aperture/request_handler.cpp:860-920 | for any asset an unreadable range or a failed copy is thrown and what was copied is described; for a usable one a 206 is sent exactly for a proper part: its Content-Range reads as some bytes of the object and its size, the body is exactly those bytes, and Content-Length reads as its length; otherwise the whole object is sent |

## Left out

- Connecting, the challenge and response that authenticates a connection, heartbeats and safe-kill bookkeeping: a connection is up, or goes down.
- Sockets, timers, Boost.Asio, curl, SQLite, protobuf, JSON, logging, settings and statistics: foreign code, present only as events, streams, clock readings and parameters.
- What is assumed of them: an operation completes once; a cancelled timer does not run its handler; completions that arrive after a close carry an error; callbacks do not call back into the object that fires them; the ASCII encoding of the .NET library replaces each UTF-16 unit outside ASCII by one question mark.
- Storage behind the replication service is not part of this model: a successful store is taken to have entered the id into the existence index.
- `VFSBackend`, `VFSDatabase`, `AssetCache`, `DatabaseSet` and `ExistenceIndex`: thin layers that would add only easy members.
- `CloudFilesGetWorker` and `RackspaceAuthorizer`: network clients.
- Cap administration and the decoding of query strings and URLs in the request handler.
- `HashFile`, hash reports, status texts, the stress and clone tools, chrysalis and PhysX.
- Locks other than the .NET client's send lock: a handler is one step; the mutexes around the cache and the mesh maps are not modelled.
- Errors in the .NET client: reconnecting and freeing all waiters after a socket error, and giving up after a timeout.
- Sha1Stream.CSHA1.Update: asks that the buffered bytes and the data together stay below 2^32, because the code adds them in 32 bits.
- MeshSearchOnce.AnsweredExactlyOnce: leaves out the runs in which a server is closed again while a search it lists is being fetched, in which it is false, and answers that arrive over a closed connection.
- PullReplication.RunsKeepInv: covers a master that stays connected and the same, and lists that name no id twice that the node lacks, without which it is false. The hexadecimal text of a prefix is not modelled.
- WhipClient.OneGetPerTransferIff: asks for a server that answers requests in order, and only requests that were written.
- MeshLink.RunsFollow: follows one connection until its close; calls on a closed connection, and the null callbacks posted for them, are left to MeshTransfer.CallbackRunsOnceIffUp.
- MeshNode.Node.HandleTransfer: takes a transfer as answered; which response answers it, and the close on another UUID, is in MeshLink.StepFollows.
- Connection.RunsKeepInv: ends with the close of the connection; a handler that completes after it is not followed. A read that succeeds brings at least one byte. Version numbers are unbounded.
- Connection.StreamDecides: a connection closed by an error has handed over a beginning of what the bytes ask for, and no more is claimed of it.
- TokenBucket.WindowBound: counts a window in whole milliseconds, which is how the bucket counts; token counts are unbounded.
- TokenBucket.RetriesSucceed: for a sender that has the bucket to itself; other senders can starve it.
- DataFile.Store.WriteNewAsset: one writer at a time; a file is its bytes.
- Utf.DecodeUtf8: bytes that are no encoding of a string are not decoded; the library replaces them.
- AssetWire.AppendableByteArray.Append: the overloads with an offset and a length, and reading from a socket, are not modelled.
- Ranges.CopyWholeMesh: a read past the end of an asset is an outcome of its own, of which nothing more is said.
- Suffix ranges in the sense of RFC 7233: only header and body are claimed to agree.
