# Verification of the continuous data protection system

The system saves files continuously and without storing the same data twice. A client cuts each file into blocks, names
every block by its SHA256 hash and posts a record of the file that lists these hashes. The server answers
with the hashes whose blocks it does not have, and only those blocks travel. What cannot be posted is kept
in a local table of the client and posted later; the files already saved are remembered in a cache, so that
they are not saved again. Two server threads store records and blocks from two queues. The restore program
asks for the blocks of a record in batches and writes them one after the other.

This project models that system in Dafny and proves what it is for: that whatever is lost, given up,
repeated, or restarted, a file the client considers saved can be restored, byte for byte. Where that is false,
because an integer of the code is too narrow, it says exactly when.

Run `dafny verify dfyconfig.toml` in this directory.

## The modules

| file | what it holds |
|---|---|
| `Blocks.dfy` | blocks, hashes, what is assumed of SHA256 and zlib, what restoring a hash list gives |
| `BlockLists.dfy` | the needed list of the server; looking blocks up and grouping them into requests |
| `ByteCounter.dfy` | how those requests are cut by a counter of 32 bits, and exactly when that loses no block |
| `Offline.dfy` | the client's local tables: store and forward over any run, and the class of operations |
| `Protocol.dfy` | the whole system as a state machine: clients, server threads, queues, stores, tables |
| `ProtocolSafety.dfy` | what every step of that machine keeps, and what follows for every run |
| `Settling.dfy` | from every state the server and the reconnection threads alone can bring the system to rest |
| `Handlers.dfy` | the server's handlers and its data thread over the block store, which grows between two lookups |
| `SavePaths.dfy` | the code of one client saving one file, small or big, and its reconnection pass, against that server |
| `EndToEnd.dfy` | saving through that code, then restoring, through the metadata file and the listing too: the bytes that come back |
| `Refinement.dfy` | each way that code saves a file, and each reconnection pass, is a run of the machine; so saving is safe if no block is dropped |
| `Overflow.dfy` | a file that is cached and lost because the counter of bytes overflowed |
| `Restore.dfy` | the restore loop, the server's answer to it, and the sizes involved |
| `Base64.dfy`, `Numbers.dfy` | base64 (section 4 of RFC 4648), printed numbers, integer widths, quotients |
| `Records.dfy`, `MetaReader.dfy`, `MetaFile.dfy`, `MetaFileLoss.dfy` | a line of a metadata file, the buffered reader of such files, the round trip, and exactly when it fails |
| `Messages.dfy` | the messages as JSON values, encoded and decoded |
| `Hashs.dfy`, `FileBackend.dfy` | order and hexadecimal form of hashes; the tree of directories and files that stores blocks |
| `LatestFilter.dfy` | the filter that splices a doubly linked list in place |
| `GrowBuffers.dfy`, `Multipart.dfy` | the ring of blocks used as a queue of characters; an upload in parts |
| `Transport.dfy` | the callbacks a request and its answer go through |

## What is assumed

* SHA256, compression and uncompression are three functions in a value of type `Blocks.Library`. The facts
  used about them are hypotheses of the lemmas that need them: `CollisionFree` (no two different blocks
  that were actually read have the same hash) and `ZlibSound` (uncompressing gives the text back, and a
  compressed text is not empty, without which the test `bytes > 0` before the last request could drop it).
* Every post can be answered, or be given up by the client while the server does or does not handle it; what becomes
  of the k-th post of a client, and which restore requests are delivered, is an input of the methods and the same
  results hold for any choice. An answer that arrives means that the server handled the request, which is four
  gigabytes long at most (`Transport.Comm.PostUrl`).
* The names of files, links, owners and groups are UTF-8. The JSON printer refuses other text
  (`libcdpfgl/packing.c:419-430`): such a record is neither posted nor kept in a row, though the file enters the
  cache. Writing the local database succeeds, whatever the length of a row.
* Reading files succeeds (a big file that cannot be opened is recorded without blocks and cached all the
  same, `client/client.c:1072-1088`), the hostname is set, memory does not run out, and the server is not restarted.

## Findings

* The bytes of a request are counted in a 32-bit integer (`client/client.c:511`), and what is left at the end is sent
  only if the count is positive (`client/client.c:565`). With a send buffer of `limit` bytes and blocks of at most m
  bytes, every list of blocks goes out whole exactly if limit + m is at most 2^31 (`ByteCounter.AllSentIff`).
  Otherwise blocks can be dropped: with the greatest buffer and two gigabytes of new blocks none is sent, no row is
  saved, and the file enters the cache (`Overflow.EqualBlocksAreDropped`, `Overflow.CachedFileIsLost`). Dropping does
  no harm exactly if every block of the file is durable all the same (`ProtocolSafety.DropIsHarmlessIff`).
* The server counts the bytes of an answer to the restore program in a 32-bit integer and keeps only so many
  (`server/server.c:469`, `server/server.c:514`). An answer is whole exactly if it is shorter than four gigabytes
  (`Restore.ServedIsAllIff`); of nine blocks of half a gigabyte only the last comes back
  (`Restore.NineBlocksServeOne`). With block size times hashes per request below 2^32 none is too long
  (`Restore.RequestsFit`), which the adaptive sizes stay far below (`Restore.AnswersFit`).
* The group number of a file is lost on its way: the message carries the user number in its place
  (`libcdpfgl/packing.c:388`). `Messages.MetaReadBackIff` says exactly when a record arrives unchanged.
* The metadata file of a host reads back, for every query, exactly if each record in it has no comma in its owner and
  group and quotes there that balance in the way `MetaFile.Readable` says (`MetaFileLoss.ReadsBackWholeIff`). A
  newline there does no harm. A comma shifts the columns, and a piece too short for its quotes is then read past its
  end (`libcdpfgl/libcdpfgl.c:594`): the listing is not only incomplete but undefined. One record with unbalanced
  quotes hides every ordinary record stored after it (`MetaFileLoss.UnbalancedHidesTheRest`).
* The configuration accepts 1 to 5 directory levels, but the directories are made for 2 to 4 levels only;
  with 1 or 5 no block can be stored (`FileBackend.Backend.constructor`).
* Should libcurl read a request on after the first piece of its answer has come in, the end of the request
  could go out twice, since both directions share one position (`Transport.LateReadsAreHarmlessIff`).
* The record of a small file goes out before its blocks. A client restarted in between leaves a record posted whose
  blocks nobody has exactly if some block of that file is neither durable nor still owed by another client in the
  same position (`ProtocolSafety.RestartIsHarmlessIff`). The server can have handled that record by then
  (`ProtocolSafety.RestartCanLoseBlocks`). Restarts at any other moment, in the middle of a big file for one, lose
  nothing (`ProtocolSafety.OtherRestartsLoseNothing`). The file is then not in the cache and is saved again.
* A restore request that fails leaves a hole in the file, and the loop goes on (`restore/restore.c:497-518`):
  `Restore.DeliveredIsAllIff` says when the file is whole all the same.
* The small-file path writes the cache whatever became of its posts, since the result it tests is never
  assigned (`client/client.c:836`, `client/client.c:879`). That is harmless: what was not posted waits in a
  row (`SavePaths.Client.SaveOneFile`).
* The row numbers of the local table must never be reused: `Offline.ReusedIdHidesRow` shows the run that
  would hide a new row for ever with a plain primary key.
* The parts of an upload are counted in an `int`, which must reach one more than their number: `Multipart.UploadParts`
  says from which length on the loop cannot end or data is missing.
* The text that closes an upload is printed line by line into 256 characters but taken over with the length it would
  have had, so that a longer line is read past the end (`server/minio_interface.c:2670-2684`). The text is right
  exactly if every line fits (`Multipart.UploadManager.WriteClosingText`); a tag of 204 characters is too long
  (`Multipart.LongTagIsTooLong`).

## Model

| member | source | states |
|---|---|---|
| ProtocolSafety.CachedFilesCanBeRestored | client/client.c:1078-1088 | over every run of any number of clients, with losses and restarts anywhere, in which the counter of bytes drops no block that nobody else has: once nothing is queued or waiting, each file in any client's cache has a stored record, and restoring it gives the bytes the client read |
| ProtocolSafety.CachedFilesAreSafe | libcdpfgl/database.c:459-490 | in every state such a run reaches, a file in a client's cache has its record and all its blocks on the server or in rows still to post, so skipping it loses nothing |
| ProtocolSafety.ReferencedBlocksAreNotLost | client/client.c:366-410 | in every state such a run reaches without a restart that loses blocks, each block a queued or stored record refers to is stored, queued, in a waiting row, or still to be sent by the client that saves a small file with it |
| ProtocolSafety.DropIsHarmlessIff | client/client.c:565-577 | dropping the rest of an answer, as an overflowed counter makes the client do, keeps the invariant if and only if every block read of the file is durable without it |
| ProtocolSafety.DropNeedsOverflow | client/client.c:565-577 | blocks are dropped only when those still to send are two gigabytes or more |
| ProtocolSafety.RestartIsHarmlessIff | client/client.c:832-888 | a restart leaves no record with a lost block if and only if the client is not between the record and the last block of a small file, or each block of that file is durable or owed by another such client |
| ProtocolSafety.OtherRestartsLoseNothing | client/client.c:974-1093 | runs whose restarts all fall outside that stretch, in the middle of a big file for one, lose no blocks |
| ProtocolSafety.RestartCanLoseBlocks | client/client.c:832-888 | for any file of one block a run of one client, restarted between posting the record and sending the block, after which the server has the record and nobody has the block |
| ProtocolSafety.LookupsNeverMiss | client/client.c:422-450 | in every reachable state a client finds among its blocks each one it is asked for, in requests of any size |
| ProtocolSafety.StepKeepsInv | server/server.c:1360-1394 | the invariant of the protocol is kept by each step of each thread, in particular by popping a block and storing it, but for a step that drops a block nobody else has |
| ProtocolSafety.RunKeepsInv | client/client.c:1285-1314 | and so by every run, reconnection passes included |
| ProtocolSafety.NeededIsEnough | server/server.c:845-869 | when the answer to a question arrives, each hash asked about is in it or its block is on the server, although the store changed since |
| ProtocolSafety.AnsweredDataIsOnServer | server/server.c:1011-1095 | the blocks of an answered data request are stored or on their way to the store |
| ProtocolSafety.RepostAnsweredKeepsInv | libcdpfgl/database.c:683-706 | recording an answered row as transmitted keeps the invariant and everything durable: what the row holds is on the server by then |
| ProtocolSafety.StepKeepsNoDangling | client/client.c:941-965 | each step, but a restart that loses blocks or a drop of a block nobody else has, leaves no record that refers to a lost block |
| Settling.CanSettle | client/client.c:1285-1314 | from every state some run of server and reconnection threads alone leads to a state where nothing is queued or waiting, with the same caches |
| Settling.CachedFilesComeBack | libcdpfgl/database.c:786-816 | so from every reachable state the system can get to one in which each file now in any cache can be restored as it was read, without any client saving again |
| Protocol.BlocksOf | client/client.c:187-262 | the blocks of a file are named by the hashes of what was read, in file order |
| Protocol.BlocksArePacked | libcdpfgl/hashs.c:242-270 | each block of a file has the hash and the length of its read, and holds it compressed if the client is told to compress, as it is otherwise |
| Blocks.NewHashData | libcdpfgl/hashs.c:242-270 | the compression is the one asked for, the data is the text compressed with it, the length the uncompressed one |
| Blocks.RestoreGivesFileBack | server/server.c:459-536 | restoring the hashes of a file gives its bytes, whichever client stored the blocks first and however compressed |
| Blocks.NewHashDataIsGenuine | libcdpfgl/hashs.c:242-270 | a block made from what was read uncompresses to it, carries its hash and is not empty |
| BlockLists.NeededOrder | server/file_backend.c:369-397 | the needed list keeps the order in which the request first names the hashes, although the store grows between lookups |
| BlockLists.NeededIff | server/file_backend.c:349-402 | a hash is in the needed list if and only if one of its lookups does not find it |
| BlockLists.NeededOnce | server/file_backend.c:369-397 | the needed list has no hash twice |
| Handlers.ServerStruct.BuildNeededHashList | server/file_backend.c:349-402 | the loop that prepends and then reverses builds that list, while the data thread stores any number of blocks between two lookups |
| Handlers.ReplyIsExact | server/server.c:845-869 | what a reply asks for was not stored when the question came, what it does not ask for is stored when it leaves; each hash once and in order |
| BlockLists.HashDataIsInList | libcdpfgl/hashs.c:509-532 | finds a hash exactly when it is in the list |
| BlockLists.AnswersIffSubMultiset | client/client.c:422-450 | no lookup misses if and only if the hashes asked for are a sub-multiset of those at hand |
| BlockLists.TakenIsWhatWasAsked | client/client.c:501-589 | the blocks sent are those asked for, in the order asked |
| BlockLists.TakenAndLeft | client/client.c:501-589 | the blocks sent and the blocks left over are together the blocks there were |
| BlockLists.BothAnswersAreFound | client/client.c:399-403 | the server's answer and the whole list a client falls back to both meet the condition above |
| BlockLists.TakenInParts | client/client.c:501-589 | and the parts take the same blocks in the same order |
| ByteCounter.AllSentIff | client/client.c:501-589 | for every send buffer and every block length: all lists of blocks of that length or less are sent whole if and only if buffer and block together are 2^31 bytes at most |
| ByteCounter.RequestsAndRest | client/client.c:530-577 | whatever overflows, the requests and what is dropped are together the blocks asked for, in order, none twice |
| ByteCounter.AllIsSent | client/client.c:530-577 | while the counter is wide enough nothing is dropped, and the requests reach the limit with their last block and not before |
| ByteCounter.OverflowDropsAll | client/client.c:552-577 | a list that first reaches the limit between 2^31 and 2^32 bytes is dropped as a whole |
| Overflow.EqualBlocksAreDropped | client/client.c:511 | with the greatest send buffer, blocks of one size that make up two gigabytes go nowhere |
| Overflow.CachedFileIsLost | client/client.c:974-1093 | a run of one client after which such a file is in its cache and its record on the server, while no block is durable |
| BlockLists.PartsAnswer | client/client.c:501-589 | an answer can be consumed in parts, whatever the parts |
| Offline.StoreAndForward | libcdpfgl/database.c:611-816 | over any run of saves, acknowledgements, deletions and crashes: the rows waiting are exactly those saved and not recorded as transmitted, unchanged, and a row that is gone was acknowledged |
| Offline.NewRowIsPending | libcdpfgl/database.c:432-436 | a row saved at any point of any run is selected by the next pass, whatever old numbers `transmited` holds |
| Offline.ReusedIdHidesRow | libcdpfgl/database.c:432-436 | with reused row numbers there is a run after which a new row is never selected |
| Offline.Database.SaveBuffer | libcdpfgl/database.c:611-630 | the new row gets a number found in neither table, so it joins the rows that wait, none of which changes |
| Offline.Database.IsThereBuffersToTransmit | libcdpfgl/database.c:640-671 | true exactly when a row is still to post |
| SavePaths.Client.TransmitRow | libcdpfgl/database.c:683-706 | posts one row as the next post of the client: if it arrives its blocks or its record are queued, and it stops waiting exactly if it was answered |
| SavePaths.RowIsPosted | libcdpfgl/database.c:683-706 | whatever becomes of that post, no block and no record that was kept is lost, and only genuine blocks travel if that was so before |
| Offline.Database.DeleteTransmitedBuffers | libcdpfgl/database.c:763-775 | deletes the rows recorded as transmitted and no other; what waits stays the same |
| SavePaths.Client.TransmitBuffers | libcdpfgl/database.c:786-816 | for any fates of the posts: each waiting row is posted once and no other, the rows given up are exactly those that still wait, those answered are recorded and deleted, what arrived is queued in the order posted and nothing else, and everything kept before is kept |
| Offline.Database.IsFileInCache | libcdpfgl/database.c:459-490 | counting the rows that agree in nine columns gives true exactly for the files in the cache |
| Refinement.SmallFileIsARun | client/client.c:832-888 | every outcome of the code that saves a small file, whatever becomes of each post, whatever the server stores between two lookups and whatever is dropped, is a run of the protocol machine that ends with the same records, rows, blocks queued and blocks stored, and the file in the cache; it drops blocks only if the code does |
| Refinement.BigFileIsARun | client/client.c:974-1093 | the same for the streaming path, whatever the flushes, with the store growing from one question to the next |
| Refinement.PassIsARun | libcdpfgl/database.c:786-816 | every outcome of a reconnection pass, whatever becomes of each post, is a run of the protocol machine that ends with the same records, rows, blocks queued and blocks stored |
| Refinement.SmallFileIsSafe | client/client.c:832-888 | from any reachable state, if nothing is dropped, such a run leads to a reachable one in which the file is in the cache and its record and blocks are on the server or in waiting rows |
| Refinement.BigFileIsSafe | client/client.c:974-1093 | the same for the streaming path |
| Refinement.FlushIsDone | client/client.c:941-965 | the machine can do what one flush does: ask while blocks are stored, send the batches, and read on |
| Refinement.BatchesAreSent | client/client.c:501-589 | the machine can send any list of batches with any fates, and the blocks queued and the rows end as the code's do |
| Refinement.QuestionIsHandled | server/server.c:845-980 | looking hashes up one at a time, with any number of blocks stored in between, ends with exactly the needed list of those lookups |
| Refinement.DataIsHandled | server/server.c:1049-1095 | queueing blocks one at a time ends with all of them queued, in order |
| Refinement.BlocksAreFiled | server/server.c:1360-1394 | the data thread of the machine can get as far in its queue as it likes |
| EndToEnd.SaveListThenRestore | client/client.c:1107-1167 | the whole way, small or big: save, repost, file, store the record beside others, list it, and restore from the listed record with the number of hashes its size calls for: the bytes read come back if no row waits, each request is delivered, the counter of bytes was wide enough and no answer has four gigabytes; if every post is answered no row waits, and something is restored if and only if no row waits and each request is delivered |
| EndToEnd.SaveAndFile | client/client.c:1107-1167 | a row waits after a reconnection pass if and only if a post of that pass was given up; if none waits the server has the record, and it has every byte of the file if nothing was dropped, which the sizes of blocks and buffer can exclude |
| EndToEnd.SaveThenRestore | restore/restore.c:474-526 | then, for any number of hashes per request and any network, the bytes restored are the bytes read exactly if no request leaves a hole, by not being delivered or by asking for four gigabytes; no row waits if every post is answered |
| SavePaths.Client.SaveOneFile | client/client.c:1107-1167 | a file in the cache costs nothing; any other ends in the cache, its record queued or in a waiting row, each block stored, queued, in a waiting row, or dropped by the counter of bytes, which happens only if that is too narrow. Below 134217728 bytes it goes through memory with its record first, otherwise it is streamed with its record last and marked so; no row is saved if every post is answered; what is queued or saved is blocks of this file, compressed as the client is told, and its record |
| EndToEnd.SavedFileComesBack | server/server.c:1360-1394 | once nothing waits and the queue is filed, restoring the hash list of a file whose blocks were kept gives its bytes, if none but genuine blocks were ever queued |
| SavePaths.SmallFileAdds | client/client.c:832-888 | whatever becomes of the posts, the small path queues and saves none but blocks of the file and its record, which says that the data was not sent, and changes no other row |
| SavePaths.BigFileAdds | client/client.c:974-1093 | the same for the streaming path, whose record says that the data was sent |
| SavePaths.SmallFileKeeps | client/client.c:832-888 | whatever becomes of the posts, the small path leaves the record queued or waiting and each block stored, queued, waiting or dropped |
| SavePaths.BigFileKeeps | client/client.c:974-1093 | the same for the streaming path, and there the blocks are kept already when the record is posted |
| SavePaths.Client.ProcessSmallFile | client/client.c:832-888 | posts the record, sends the blocks asked for, cut as the counter says, and leaves every block of the file stored, queued, waiting or dropped, and the file in the cache |
| SavePaths.Client.ProcessBigFile | client/client.c:974-1093 | the streaming path posts the same record as the small path would for the same reads, hands every block over in exactly one flush, flushes as soon as the limit is reached, and keeps every block but those dropped |
| SavePaths.Client.SendAllData | client/client.c:501-589 | sends the blocks asked for in requests cut by a counter of 32 bits and leaves the rest of the list; with the counter wide enough all are sent, in requests that reach the limit with their last block and not before |
| SavePaths.Client.SendData | client/client.c:601-665 | the same, one block to a request |
| SavePaths.Client.SendBlocks | client/client.c:459-489 | the blocks reach the queue, or a row, or both, never neither |
| SavePaths.Client.SendMetaData | client/client.c:366-410 | a record given up is kept in a row and answered by the whole hash list |
| SavePaths.Client.StreamBlocks | client/client.c:1015-1064 | the names kept, reversed, are the hashes of the reads in file order; the flushes, in file order, are the blocks, and are cut at the limit |
| SavePaths.PostedRecordIsKept | client/client.c:390-403 | a record whose post was given up is still in a row after any further posts |
| SavePaths.Client.SendHashArray | client/client.c:901-938 | a question given up is answered by the whole hash list |
| SavePaths.Client.LetsSendAllThatNow | client/client.c:941-965 | keeps the names of the blocks of a flush in order and leaves every block of it stored, queued, waiting or dropped, none dropped if the counter is wide enough |
| SavePaths.Client.FindHashInList | client/client.c:422-450 | finds the first block of a given name |
| SavePaths.Client.CalculateHashDataList | client/client.c:187-262 | the blocks of a file, in file order, whatever the reads |
| SavePaths.SentIsKept | client/client.c:501-589 | through any list of posts with any outcomes, what was stored, queued or waiting stays so, and what the posts carried becomes so |
| SavePaths.AskedBlocksAreKept | client/client.c:941-965 | whether or not the server answered and whatever it stored meanwhile, each block of a list it was asked about ends stored, queued or waiting, or was dropped |
| Handlers.FilingKeeps | server/server.c:1360-1394 | filing a genuine queue keeps the store genuine, and the store then has the names it had and those of the queue |
| Handlers.ServerStruct.AnswerMetaPost | server/server.c:882-926 | queues the record and answers the needed list, or nothing if the data was sent before |
| Handlers.ServerStruct.AnswerHashArrayPost | server/server.c:938-977 | answers the needed list |
| Handlers.ServerStruct.AnswerDataPost | server/server.c:1049-1095 | queues every block of a request, in order |
| Handlers.ServerStruct.DataThread | server/server.c:1360-1394 | empties the queue into the files of the store, each block under its own name |
| Handlers.ServerStruct.StoreOne | server/server.c:1360-1394 | one turn of that thread: the files of the store then stand for one more block of those ever queued |
| Restore.RestoreDataToStream | restore/restore.c:474-526 | asks for the hash list in consecutive batches of any size, all of it whatever the network delivers, and writes what the requests delivered bring, in order; that is the whole file if and only if none leaves a hole |
| Restore.DeliveredIsAllIff | restore/restore.c:489-524 | what is delivered is the whole file if and only if each request that has data succeeds and has less than four gigabytes of it |
| Restore.ServedIsAllIff | server/server.c:469-514 | what the server puts together under a 32-bit length is the whole data if and only if that is shorter than four gigabytes |
| Restore.NineBlocksServeOne | server/server.c:469-514 | a request for nine blocks of half a gigabyte is answered by the last one alone |
| Restore.RequestsFit | libcdpfgl/files.c:928-959 | no request is too long if block size times hashes per request is below 2^32 |
| Restore.PartitionCount | restore/restore.c:489-524 | the number of requests is the rounded-up quotient of hashes and batch size |
| Restore.AnswersFit | server/server.c:469-514 | with the adaptive block size no answer carries more than 4194304 bytes, so its 32-bit length cannot overflow |
| Restore.AdaptiveBlocks | client/client.c:777-823 | the adaptive block size keeps a file below 128 megabytes within 64, 128, 512 or 1024 blocks, and gives a bigger one 512 or more |
| Restore.SizesFit | libcdpfgl/files.c:928-959 | the promised number of blocks is the least possible for each class of sizes, and a restore request names a whole file below one megabyte, two megabytes of a bigger one and four from eight megabytes on |
| Restore.OneRequestIsEnough | libcdpfgl/files.c:928-959 | a file of less than one megabyte is restored by one request |
| Restore.GetDataFromListOfHashs | server/server.c:459-536 | answers the data of the stored blocks a header names, one after the other, with the cuts its 32-bit length makes, and nothing if there is none |
| Restore.BatchIsAnswered | libcdpfgl/hashs.c:366-409 | a batch written into a header, answered by the server and decoded gives what the server puts together for its hashes |
| Restore.HashExtract.ConvertMaxHashs | libcdpfgl/hashs.c:366-409 | writes the first hashes that are left into a header and advances past exactly those |
| Restore.Options.CalculateFileBlocksize | client/client.c:777-823 | for an adaptive client a restore request names four megabytes at most, a file has the number of blocks the comments promise, and the buffer of a file of 64 megabytes or more is 16 of its blocks |
| Base64.DecodeEncode | libcdpfgl/hashs.c:464-497 | decoding base64 inverts encoding |
| Base64.EncodeAlphabet | libcdpfgl/hashs.c:300-333 | encoded text holds no quote, comma, space or newline |
| Base64.TestVectors | libcdpfgl/hashs.c:300-333 | the test vectors of RFC 4648 and the two signs of the alphabet |
| Numbers.ScanPrintInt | libcdpfgl/libcdpfgl.c:612-623 | an unsigned 32-bit number printed as a signed one is read back as itself |
| Numbers.ScanPrintUint64 | libcdpfgl/libcdpfgl.c:631-641 | an unsigned 64-bit number is read back as itself |
| Records.LineRoundTrip | server/file_backend.c:734-825 | a printed record is parsed back with every field and its ordered hash list if and only if its name and date match the query and its owner, group, user and group numbers are those of the query, for owners and groups without comma |
| Records.HashListRoundTrip | libcdpfgl/hashs.c:464-497 | a comma-separated hash list is read back in order |
| Records.ConvertHashList | libcdpfgl/hashs.c:300-333 | the loop writes the quoted hashes, comma separated; NULL for none |
| Records.MakeHashList | libcdpfgl/hashs.c:464-497 | the loop that prepends and then reverses reads such a list |
| MetaReader.GetFileList | server/file_backend.c:835-866 | for every way of cutting the file into non-empty buffers: the selected records of exactly its ended lines, latest first, each of which matches the query in name, date, owner, group and both numbers, whatever the file holds; the loop terminates |
| MetaReader.MetaBuffer.ExtractOneLine | server/file_backend.c:645-722 | returns the text up to the first newline outside quotes after twelve unquoted commas, across any number of buffers, and leaves what follows |
| MetaReader.MetaBuffer.ReadOneBuffer | server/file_backend.c:616-631 | moves any positive number of characters from the file to the buffer, none only at its end |
| MetaReader.RunAppend | server/file_backend.c:645-722 | counting quotes and commas over a text in pieces is counting them over the whole |
| MetaFile.FileRoundTrip | server/file_backend.c:60-149 | any readable records stored for a host are listed back, all fields and hash lists as stored, latest first; an unfinished record at the end is not |
| MetaFile.ListedIff | server/file_backend.c:734-825 | for readable records, a record is listed if and only if it was stored and matches the query in name, date, owner, group, user number and group number |
| MetaFileLoss.ReadsBackWholeIff | server/file_backend.c:60-149 | the file of a host lists, for every query, exactly the stored records that match, latest first, if and only if every record has no comma in owner and group and quotes there that let the reader find its newline |
| MetaFileLoss.UnbalancedHidesTheRest | server/file_backend.c:645-722 | after a record with unbalanced quotes no ordinary record is listed any more, for any query |
| MetaFile.ReadsBackIff | server/file_backend.c:94-123 | the same condition, for the file of one record and any query that matches it |
| MetaFile.StoreThenList | server/file_backend.c:835-866 | storing a queue of records of any hosts through the metadata thread onto existing files, then listing one host through the buffered reader, gives exactly the records that pass the six tests of the query, latest first |
| MetaFile.MetaFiles.StoreSmeta | server/file_backend.c:60-149 | appends one line to the file of the host and touches no other |
| MetaFile.MetaFiles.MetaDataThread | server/server.c:1313-1352 | for a queue of records of any hosts, each host's file grows by the lines of its own records, in the order they were queued |
| Messages.MetaReadBack | libcdpfgl/unpacking.c:353-389 | the server gets the record that was sent, but for the group number |
| Messages.MetaReadBackIff | libcdpfgl/packing.c:365-401 | a record arrives unchanged if and only if its group number equals its user number |
| Messages.BlockReadBack | libcdpfgl/unpacking.c:436-488 | a block arrives with its hash, data, compression and lengths |
| Messages.BlocksReadBack | libcdpfgl/unpacking.c:304-343 | the blocks of a request arrive in order |
| Messages.HashesReadBack | libcdpfgl/packing.c:220-244 | a hash list arrives in order |
| Messages.ConvertHashListToJson | libcdpfgl/packing.c:220-244 | the loop builds the array of encoded hashes |
| Messages.ExtractHashes | libcdpfgl/unpacking.c:304-343 | the loop that prepends and then reverses decodes the array in order |
| Messages.ExtractBlocks | libcdpfgl/unpacking.c:304-343 | the same for whole blocks |
| Hashs.HashOrderIsTotal | libcdpfgl/hashs.c:41-89 | the comparison of hashes is a total order, zero only for equal hashes, NULL last |
| Hashs.LexDecides | libcdpfgl/hashs.c:41-89 | the first byte that differs decides which comes first, and a text that ends before it comes first |
| Hashs.CompareTwoHashs | libcdpfgl/hashs.c:41-89 | the byte loop is negative exactly if the first byte that differs is smaller, zero exactly for equal hashes, and puts NULL last |
| Hashs.UnhexHex | libcdpfgl/hashs.c:190-208 | reading the hexadecimal form of a hash gives the hash |
| Hashs.HexUnhexIff | libcdpfgl/hashs.c:125-181 | a 64-character name comes back unchanged if and only if it is lower-case hexadecimal |
| Hashs.HashToString | libcdpfgl/hashs.c:97-116 | the loop writes the hexadecimal form |
| Hashs.StringToHash | libcdpfgl/hashs.c:190-208 | the loop reads 64 characters, taking any other character for zero |
| FileBackend.FilesAreDistinct | server/file_backend.c:159-171 | different hashes have different files, and no ".meta" file is the file of a block |
| FileBackend.TreeIsComplete | server/file_backend.c:425-459 | the tree has no directory twice and has the directory of every hash |
| FileBackend.PathOfNumber | server/file_backend.c:425-459 | the inner loop writes the base-256 digits of a number as a path, most significant first |
| FileBackend.TreeDirsAreDistinct | server/file_backend.c:425-459 | different numbers give different directories |
| FileBackend.DirIsInTree | libcdpfgl/hashs.c:426-451 | the directory of a hash is the one numbered by its first octets |
| FileBackend.MakePathFromHash | libcdpfgl/hashs.c:426-451 | one directory for each of the first octets; NULL for too many levels |
| FileBackend.StoringRepresents | server/file_backend.c:239-338 | writing the two files of a block stores it and leaves every other block as it was |
| FileBackend.Backend.constructor | server/file_backend.c:482-571 | every hash has its directory if and only if the level is 2, 3 or 4; a configured level outside 1 to 5 gives 2, where every block can be stored |
| FileBackend.Backend.MakeAllSubdirectories | server/file_backend.c:415-472 | creates each directory of the tree once, for levels 2 to 4, and none otherwise |
| FileBackend.Backend.StoreData | server/file_backend.c:274-338 | the files then stand for the old blocks and the new one, if its directory exists |
| FileBackend.Backend.RetrieveData | server/file_backend.c:965-1035 | gives the block stored under a hexadecimal name, with its compression and length, or nothing |
| FileBackend.RetrieveByUrl | server/server.c:669-692 | whatever name a request for a single block gives, the answer is the stored block of that name or nothing |
| FileBackend.Backend.Exists | server/file_backend.c:369-397 | true exactly for the hashes stored |
| FileBackend.RetrieveByHash | server/server.c:486-490 | what was stored under a binary hash is found through its hexadecimal form |
| LatestFilter.LatestsOfSorted | libcdpfgl/files.c:147-218 | of a sorted list exactly one version of each file is kept, in order, at least as recent as all others of the file |
| LatestFilter.ComparisonIsPreorder | libcdpfgl/files.c:662-712 | the comparison is a total preorder, equal exactly for the same key and date, NULL last |
| LatestFilter.ComparisonDecides | libcdpfgl/files.c:662-712 | what comes first: the smaller key at the first difference, the shorter key, of one file the older version, and anything before NULL |
| LatestFilter.KeepLatests | libcdpfgl/files.c:147-218 | the loop, on any list, terminates and leaves a well-linked list of what the filter keeps, made of its own nodes |
| LatestFilter.RemoveLink | libcdpfgl/files.c:147-218 | takes one node out and leaves the others linked in both directions |
| GrowBuffers.GrowBuffer.Append | server/minio_interface.c:484-524 | appends all the text, across blocks; all blocks but the last are full |
| GrowBuffers.GrowBuffer.Read | server/minio_interface.c:527-559 | takes text from the front, exactly as much as asked for or as the first block holds if that is less, and drops an empty block from the ring |
| GrowBuffers.GrowBuffer.AddBlock | server/minio_interface.c:484-524 | links a new block in at the end of the ring |
| GrowBuffers.GrowBuffer.DropFirst | server/minio_interface.c:527-559 | unlinks the first block and leaves a well-linked ring |
| Multipart.UploadParts | server/minio_interface.c:2531-2668 | the parts cut up the object, in the least number, and the loop ends, if and only if their number is less than the greatest int; beyond, the loop counter overflows or data is missing |
| Multipart.TotalSeq | server/minio_interface.c:2541-2542 | the part count, with the wrap of 64 and the truncation to 32 bits; zero where the sum wraps |
| Multipart.UploadManager.WriteClosingText | server/minio_interface.c:2670-2684 | the closing text is right if and only if each part line has less than 256 characters; a reader then gets every tag back, numbered from 1, for tags without markup; `remaining` is its length if and only if that is an int |
| Multipart.ClosingTextRead | server/minio_interface.c:2670-2684 | reading the elements of the closing text one after the other gives the list of tags with the numbers 1 to n |
| Multipart.AllShortIff | server/minio_interface.c:2674-2681 | a part line fits if and only if its number and its tag have 204 characters at most between them |
| Multipart.LongTagIsTooLong | server/minio_interface.c:2674-2681 | a tag of 204 characters or more makes its line too long |
| Multipart.UploadManager.MultipartPutXmlCallback | server/minio_interface.c:2296-2309 | hands out the next characters, at least one while any remain, and keeps `remaining` equal to what is left |
| Multipart.UploadManager.Transfer | server/minio_interface.c:2296-2309 | asked with any buffer sizes, hands out the whole text and ends with nothing remaining |
| Transport.Comm.PostUrl | libcdpfgl/communique.c:376-434 | the server gets the text to send and the client its answer, whatever the pieces, although both directions share one position |
| Transport.Comm.SendBody | libcdpfgl/communique.c:205-237 | reads of any sizes hand out the whole request |
| Transport.Comm.ReceiveAnswer | libcdpfgl/communique.c:166-191 | up to 2^32 pieces of an answer are put together in order |
| Transport.Comm.ReadData | libcdpfgl/communique.c:205-237 | while a request goes out, what was handed out so far is its beginning, and a call hands out nothing only if all of it was or nothing was wanted |
| Transport.Comm.WriteData | libcdpfgl/communique.c:166-191 | from its first piece on an answer is in the buffer as it came in, whatever buffer and position were before |
| Transport.LateReadsAreHarmlessIff | libcdpfgl/communique.c:166-237 | after a first piece of answer, calls in any order hand out nothing more of the request if and only if each read comes when as much was answered as there was to send, or wants nothing; and then the answer is all its pieces |
| Transport.ProcessPostRequest | server/server.c:1193-1247 | the body handed to the handlers is the text received, whatever the pieces, and fits the buffer of the announced length, or of 8388608 bytes if none or more than four gigabytes is announced |

## Left out

- The MongoDB backend and the data path of the MinIO backend: thin calls into libraries this project knows nothing of.
- GLib, libcurl, libmicrohttpd, SQLite, Jansson, zlib and libs3 themselves: only the facts named above are used. In particular the text of a JSON message is not modelled, only its value.
- File system events, signals, options, clocks, statistics and debug output: they do not touch what is saved.
- Failures that abandon a file or a block (read errors, compression errors, partial writes) and restarts of the server, whose queues are in memory: success is assumed.
- Memory: allocation never fails and nothing is freed, except where a list or a ring loses a node.
- The bodies of requests in `Protocol.dfy` and `SavePaths.dfy` are values; that their JSON forms carry them is in `Messages.dfy`, and the group number it loses is therefore not lost in the protocol model.
- Handlers.ServerStruct.constructor: a backend with 2, 3 or 4 directory levels; with 1 or 5 no block can be stored, as `FileBackend.Backend.constructor` says.
- Handlers.ServerStruct.DataThreadRuns: comes between two lookups, where it can be observed; the other clients of the server and its metadata thread are in `Protocol.dfy`.
- Restore.GetDataFromListOfHashs: the answer is the base64 text of the data without the JSON object around it, and names that do not decode to 32 bytes are skipped, where the code would read past their end.
- Records.ExtractFromLine: a line of less than thirteen columns is refused, and a substring shorter than its quotes is empty, where the code would read out of bounds.
- Offline.Database.IsThereBuffersToTransmit: counts without the limit of an int, which takes two thousand million rows to reach.
- MetaReader.MetaBuffer.ExtractOneLine: commas are counted without the limit of an int; the buffer is a value of the reader that each read overwrites from the front, not a shared array; the text holds no NUL.
- GrowBuffers.GrowBuffer.Append: not after a partial read of the last block, which the layout of a block does not support and the code never does; the array inside a block is a value of fixed length.
- Multipart.UploadParts: an upload that is resumed, a part that is refused, and the retry loops around each request.
- Hashs.StringToHash: a name of less than 64 characters, which the code would read past; its caller checks the length before.
- FileBackend.Backend.RetrieveData: names that are not 64 lower-case hexadecimal digits; `FileBackend.RetrieveByUrl` and `FileBackend.RetrieveByHash`, its callers, give it no other.
- Multipart.UploadManager.WriteClosingText: a part line of two gigabytes or more, for which snprintf fails.
- Transport.ProcessPostRequest: a body longer than its announced length, which libmicrohttpd does not hand over and the code would write past the end of its buffer.
- Transport.Comm.PostUrl: a request of more than four gigabytes, for which the server would fall back to a buffer of 8388608 bytes.
- FileBackend.Backend.constructor: a data directory made earlier with another level.
- Sorting the list before the filter: g_list_sort is taken to return a sorted list.
- Deciding which files to save, and setting attributes on restored files.
