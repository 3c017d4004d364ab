/**
 Saving a file and restoring it, through the code of the client, of the server and of the restore program:
 what comes back is what was read.
 */
module EndToEnd {
  import opened Blocks
  import opened BlockLists
  import opened ByteCounter
  import opened Offline
  import opened Protocol
  import opened Handlers
  import opened SavePaths
  import opened Records
  import opened MetaFile
  import opened MetaFileLoss
  import opened Restore

  /**
   Once nothing waits at the client and the queue is filed, restoring the hash list a save path recorded
   gives the bytes read: whatever the reads, the limits, the compression and the blocks that were there.
   */
  lemma SavedFileComesBack(lib: Library, raws: set<seq<byte>>, first: map<Hash, HashData>, log: seq<HashData>,
                           table: Table<Request>, chunks: seq<seq<byte>>)
    requires CollisionFree(lib, raws) && GenuineStore(lib, raws, first) && Carries(lib, raws, log, table)
    requires SetOf(chunks) <= raws
    requires AllKept(first, log, table, HashesOf(lib, chunks)) && table.Pending() == {}
    ensures Restored(lib, Filed(first, log), HashesOf(lib, chunks)) == Concat(chunks)
  {
    FilingKeeps(lib, raws, first, log);
    var hashes := HashesOf(lib, chunks);
    forall h | h in hashes ensures h in Filed(first, log) {
      assert Kept(first, log, table, h) && !RowHolds(table, h);
    }
    forall r | r in chunks ensures r in raws && lib.sha256(r) in Filed(first, log) {
      assert r in SetOf(chunks);
      var i :| 0 <= i < |chunks| && chunks[i] == r;
      assert hashes[i] in hashes;
    }
    RestoreGivesFileBack(lib, raws, Filed(first, log), chunks);
  }

  /** The server can give every byte of the file. */
  ghost predicate Arrived(lib: Library, raws: set<seq<byte>>, server: ServerStruct, chunks: seq<seq<byte>>)
    reads server, server.backend
  {
    && GenuineStore(lib, raws, server.backend.blocks)
    && Restored(lib, server.backend.blocks, HashesOf(lib, chunks)) == Concat(chunks)
  }

  /** save_one_file on a file that is not in the cache. */
  method Save(client: SavePaths.Client, server: ServerStruct, key: FileKey, blocksize: nat, chunks: seq<seq<byte>>,
              ghost raws: set<seq<byte>>)
      returns (ghost dropped: seq<HashData>)
    requires ZlibSound(client.lib)
    requires (forall k :: 0 <= k < |chunks| ==> |chunks[k]| > 0) && SetOf(chunks) <= raws
    requires server.Valid() && client.db.Model().IdsUsed() && key !in client.db.Cached()
    requires Carries(client.lib, raws, server.log, client.db.Model())
    modifies client`posts, server, server.backend, client.db
    ensures server.Valid() && old(client.posts) <= client.posts
    ensures CounterHolds(BlocksOf(client.lib, chunks, client.cmptype), client.buffersize) ==> dropped == []
    ensures dropped == [] ==> AllKept(server.first, server.log, client.db.Model(), HashesOf(client.lib, chunks))
    ensures RecordKept(server.metaQueue, client.db.Model(), Record(client.host, key, HashesOf(client.lib, chunks)))
    ensures Carries(client.lib, raws, server.log, client.db.Model())
  {
    ghost var hashes := HashesOf(client.lib, chunks);
    ghost var a := client.Now(server);
    ghost var way := client.SaveOneFile(server, key, blocksize, chunks);
    dropped := way.Dropped();
    BlocksAreGenuine(client.lib, raws, chunks, client.cmptype);
    AddsCarries(client.lib, raws, BlocksOf(client.lib, chunks, client.cmptype), Record(client.host, key, hashes),
                key.size >= 134217728, a, client.Now(server));
  }

  /** And one reconnection pass. */
  method SaveAndPass(client: SavePaths.Client, server: ServerStruct, key: FileKey, blocksize: nat,
                     chunks: seq<seq<byte>>, ghost raws: set<seq<byte>>)
      returns (waiting: bool, ghost dropped: seq<HashData>, ghost pass: nat)
    requires ZlibSound(client.lib)
    requires (forall k :: 0 <= k < |chunks| ==> |chunks[k]| > 0) && SetOf(chunks) <= raws
    requires server.Valid() && client.db.Model().IdsUsed() && key !in client.db.Cached()
    requires Carries(client.lib, raws, server.log, client.db.Model())
    modifies client`posts, server, server.backend, client.db
    ensures server.Valid() && (waiting <==> client.db.Model().Pending() != {})
    ensures old(client.posts) <= pass <= client.posts
    ensures waiting <==> !AllAnswered(client.fateOf, pass, client.posts)
    ensures CounterHolds(BlocksOf(client.lib, chunks, client.cmptype), client.buffersize) ==> dropped == []
    ensures dropped == [] ==> AllKept(server.first, server.log, client.db.Model(), HashesOf(client.lib, chunks))
    ensures RecordKept(server.metaQueue, client.db.Model(), Record(client.host, key, HashesOf(client.lib, chunks)))
    ensures Carries(client.lib, raws, server.log, client.db.Model())
  {
    dropped := Save(client, server, key, blocksize, chunks, raws);
    pass := client.posts;
    var order := client.TransmitBuffers(server);
    NoneWaits(order, client.db.Model().Pending(), client.fateOf, pass);
    waiting := client.db.IsThereBuffersToTransmit();
  }

  /**
   The same, and data_thread. A row waits after the pass exactly if one of its posts, which are those from the
   `pass`-th on, was given up. If none waits, the server has the record; if besides the counter of bytes was wide
   enough for the blocks of the file and the send buffer, the server can give the file back.
   */
  method SaveAndFile(client: SavePaths.Client, server: ServerStruct, key: FileKey, blocksize: nat,
                     chunks: seq<seq<byte>>, ghost raws: set<seq<byte>>)
      returns (waiting: bool, ghost dropped: seq<HashData>, ghost pass: nat)
    requires ZlibSound(client.lib) && CollisionFree(client.lib, raws)
    requires (forall k :: 0 <= k < |chunks| ==> |chunks[k]| > 0) && SetOf(chunks) <= raws
    requires server.Valid() && client.db.Model().IdsUsed() && key !in client.db.Cached()
    requires GenuineStore(client.lib, raws, server.first)
    requires Carries(client.lib, raws, server.log, client.db.Model())
    modifies client`posts, server, server.backend, client.db
    ensures server.Valid() && (waiting <==> client.db.Model().Pending() != {})
    ensures old(client.posts) <= pass <= client.posts
    ensures waiting <==> !AllAnswered(client.fateOf, pass, client.posts)
    ensures CounterHolds(BlocksOf(client.lib, chunks, client.cmptype), client.buffersize) ==> dropped == []
    ensures !waiting ==> Record(client.host, key, HashesOf(client.lib, chunks)) in server.metaQueue
    ensures !waiting && dropped == [] ==> Arrived(client.lib, raws, server, chunks)
  {
    waiting, dropped, pass := SaveAndPass(client, server, key, blocksize, chunks, raws);
    ghost var table := client.db.Model();
    server.DataThread();
    WholePrefix(server.log);
    if !waiting {
      assert !RowHoldsRecord(table, Record(client.host, key, HashesOf(client.lib, chunks)));
      if dropped == [] {
        SavedFileComesBack(client.lib, raws, server.first, server.log, table, chunks);
        FilingKeeps(client.lib, raws, server.first, server.log);
      }
    }
  }

  lemma NoneWaits(order: seq<nat>, pending: set<nat>, fateOf: nat -> Fate, pass: nat)
    requires forall id :: id in pending <==>
               exists k :: 0 <= k < |order| && order[k] == id && Fates(fateOf, pass, |order|)[k].GivenUp?
    ensures pending == {} <==> AllAnswered(fateOf, pass, pass + |order|)
  {
    if AllAnswered(fateOf, pass, pass + |order|) {
      assert forall k :: 0 <= k < |order| ==> order[k] !in pending || fateOf(pass + k).Acknowledged?;
    } else {
      var q :| pass <= q < pass + |order| && fateOf(q).GivenUp?;
      var k := q - pass;
      assert order[k] in pending;
    }
  }

  /** No restore request names four gigabytes: the file was read in small blocks, or the requests are short. */
  ghost predicate SmallRequests(chunks: seq<seq<byte>>, blocksize: nat, max: nat) {
    (forall k :: 0 <= k < |chunks| ==> |chunks[k]| <= blocksize) && blocksize * max < 0x1_0000_0000
  }

  /** Then only a failed request can leave a hole. */
  lemma OnlyFailuresLeaveHoles(lib: Library, raws: set<seq<byte>>, blocks: map<Hash, HashData>,
                               chunks: seq<seq<byte>>, blocksize: nat, requests: seq<seq<Hash>>, ok: seq<bool>,
                               max: nat)
    requires CollisionFree(lib, raws) && GenuineStore(lib, raws, blocks) && SetOf(chunks) <= raws
    requires SmallRequests(chunks, blocksize, max) && Partition(requests, HashesOf(lib, chunks), max)
    requires |ok| == |requests| && forall k :: 0 <= k < |requests| ==> ok[k]
    ensures NoHole(lib, blocks, requests, ok)
  {
    assert forall k :: 0 <= k < |chunks| ==> chunks[k] in SetOf(chunks);
    RequestsFit(lib, raws, blocks, chunks, requests, max, blocksize);
  }

  /**
   The same, then restore_data_to_stream on the hash list of the record. Small or big, in blocks and requests of
   any size, compressed or not, with posts lost on the way: if no row waits and nothing was dropped, the bytes
   restored are the bytes read exactly if no restore request leaves a hole; and none does if all are delivered and
   small. No row waits if every post is answered.
   */
  method SaveThenRestore(client: SavePaths.Client, server: ServerStruct, key: FileKey, blocksize: nat,
                         chunks: seq<seq<byte>>, max: nat, delivers: nat -> bool, ghost raws: set<seq<byte>>)
      returns (waiting: bool, stream: seq<byte>, requests: seq<seq<Hash>>, ok: seq<bool>, ghost dropped: seq<HashData>)
    requires ZlibSound(client.lib) && CollisionFree(client.lib, raws)
    requires (forall k :: 0 <= k < |chunks| ==> |chunks[k]| > 0) && SetOf(chunks) <= raws && max > 0
    requires server.Valid() && client.db.Model().IdsUsed() && key !in client.db.Cached()
    requires GenuineStore(client.lib, raws, server.first)
    requires Carries(client.lib, raws, server.log, client.db.Model())
    modifies client`posts, server, server.backend, client.db
    ensures server.Valid() && (waiting <==> client.db.Model().Pending() != {})
    ensures AllAnswered(client.fateOf, old(client.posts), client.posts) ==> !waiting
    ensures |ok| == |requests| && Partition(requests, HashesOf(client.lib, chunks), max)
    ensures forall k :: 0 <= k < |ok| ==> ok[k] == delivers(k)
    ensures CounterHolds(BlocksOf(client.lib, chunks, client.cmptype), client.buffersize) ==> dropped == []
    ensures !waiting ==> Record(client.host, key, HashesOf(client.lib, chunks)) in server.metaQueue
    ensures !waiting && dropped == [] ==>
      && (stream == Concat(chunks) <==> NoHole(client.lib, server.backend.blocks, requests, ok))
      && (SmallRequests(chunks, blocksize, max) && (forall k :: 0 <= k < |ok| ==> ok[k]) ==> stream == Concat(chunks))
  {
    ghost var pass;
    waiting, dropped, pass := SaveAndFile(client, server, key, blocksize, chunks, raws);
    stream, requests, ok :=
      RestoreDataToStream(client.lib, server.backend, HashesOf(client.lib, chunks), max, delivers);
    if && !waiting && dropped == [] && SmallRequests(chunks, blocksize, max)
       && forall k :: 0 <= k < |ok| ==> ok[k] {
      OnlyFailuresLeaveHoles(client.lib, raws, server.backend.blocks, chunks, blocksize, requests, ok, max);
    }
  }

  // ---------- through the metadata file and the listing ----------

  /** The records of a queue as the metadata thread gets them: with their host's name and all their fields. */
  function Described(describe: Record -> Queued, queue: seq<Record>): (r: seq<Queued>)
    ensures |r| == |queue|
    ensures forall i :: 0 <= i < |queue| ==> r[i] == describe(queue[i])
  {
    seq(|queue|, i requires 0 <= i < |queue| => describe(queue[i]))
  }

  /** The other fields do not change the hash list, and the record can be read back from the file. */
  ghost predicate Describes(describe: Record -> Queued) {
    forall rec: Record :: describe(rec).meta.hashes == rec.hashes && Storable([describe(rec).meta])
  }

  lemma {:induction false} OfHostHas(queue: seq<Queued>, host: string, i: nat)
    requires i < |queue| && queue[i].host == host
    ensures queue[i].meta in OfHost(queue, host)
    decreases |queue|
  {
    if i < |queue| - 1 {
      OfHostHas(queue[..|queue| - 1], host, i);
    }
  }

  lemma {:induction false} DescribedAreStorable(describe: Record -> Queued, queue: seq<Record>, host: string)
    requires Describes(describe)
    ensures Storable(OfHost(Described(describe, queue), host))
    decreases |queue|
  {
    if queue != [] {
      var n := |queue| - 1;
      DescribedAreStorable(describe, queue[..n], host);
      assert Described(describe, queue)[..n] == Described(describe, queue[..n]);
      var m := describe(queue[n]).meta;
      assert Storable([m]) && [m][0] == m;
    }
  }

  /** A queued record that matches is listed. */
  lemma QueuedIsListed(describe: Record -> Queued, queue: seq<Record>, rec: Record, before: seq<Meta>, host: string,
                       q: Query)
    requires rec in queue && describe(rec).host == host && Matches(q, describe(rec).meta)
    ensures describe(rec).meta in Reverse(Wanted(before + OfHost(Described(describe, queue), host), q))
  {
    var i :| 0 <= i < |queue| && queue[i] == rec;
    var found := OfHost(Described(describe, queue), host);
    OfHostHas(Described(describe, queue), host, i);
    var k :| 0 <= k < |found| && found[k] == describe(rec).meta;
    var records := before + found;
    assert records[|before| + k] == describe(rec).meta;
    WantedIsListed(records, q, |before| + k);
    SameElements(Wanted(records, q));
  }

  /** The metadata thread stores the queue of records beside those the host's file holds, and the server lists them. */
  method StoreAndList(server: ServerStruct, meta: MetaFiles, describe: Record -> Queued, ghost rec: Record,
                      host: string, q: Query, ghost before: seq<Meta>)
      returns (fileList: seq<Meta>)
    requires Describes(describe) && Storable(before) && Content(meta.files, host) == FileText(before)
    requires describe(rec).host == host && Matches(q, describe(rec).meta)
    modifies meta
    ensures rec in server.metaQueue ==> describe(rec).meta in fileList
  {
    DescribedAreStorable(describe, server.metaQueue, host);
    fileList := StoreThenList(meta, host, before, Described(describe, server.metaQueue), q);
    if rec in server.metaQueue {
      QueuedIsListed(describe, server.metaQueue, rec, before, host, q);
    }
  }

  /**
   The whole way: the file is saved, the metadata thread stores its record beside those the host's file holds,
   the server lists the file for a query, and the restore program asks for the hashes of the listed record, as
   many at a time as it finds right for the size in it. For records that can be read back, and under the same
   conditions, the bytes restored are the bytes read; in particular if every post is answered and every restore
   request delivered, and buffer and blocks are small enough for the two counters of 32 bits.
   */
  method SaveListThenRestore(client: SavePaths.Client, server: ServerStruct, meta: MetaFiles, key: FileKey,
                             blocksize: nat, chunks: seq<seq<byte>>, describe: Record -> Queued, q: Query,
                             delivers: nat -> bool, ghost before: seq<Meta>, ghost raws: set<seq<byte>>)
      returns (waiting: bool, ok: seq<bool>, back: Option<seq<byte>>, ghost dropped: seq<HashData>)
    requires ZlibSound(client.lib) && CollisionFree(client.lib, raws)
    requires (forall k :: 0 <= k < |chunks| ==> |chunks[k]| > 0) && SetOf(chunks) <= raws
    requires server.Valid() && client.db.Model().IdsUsed() && key !in client.db.Cached()
    requires GenuineStore(client.lib, raws, server.first)
    requires Carries(client.lib, raws, server.log, client.db.Model())
    requires Describes(describe) && Storable(before)
    requires var wanted := describe(Record(client.host, key, HashesOf(client.lib, chunks)));
      Content(meta.files, wanted.host) == FileText(before) && Matches(q, wanted.meta)
    modifies client`posts, server, server.backend, client.db, meta
    ensures CounterHolds(BlocksOf(client.lib, chunks, client.cmptype), client.buffersize) ==> dropped == []
    ensures waiting <==> client.db.Model().Pending() != {}
    ensures AllAnswered(client.fateOf, old(client.posts), client.posts) ==> !waiting
    ensures back.None? <==> waiting || exists k :: 0 <= k < |ok| && !delivers(k)
    ensures var max := MaxNumberOfHashs(describe(Record(client.host, key, HashesOf(client.lib, chunks))).meta.size);
      && |ok| == (if waiting then 0 else (|chunks| + max - 1) / max)
      && (back.Some? && dropped == [] && SmallRequests(chunks, blocksize, max) ==> back.value == Concat(chunks))
  {
    var rec := Record(client.host, key, HashesOf(client.lib, chunks));
    var wanted := describe(rec);
    ghost var pass;
    waiting, dropped, pass := SaveAndFile(client, server, key, blocksize, chunks, raws);
    var fileList := StoreAndList(server, meta, describe, rec, wanted.host, q, before);
    ok, back := [], None;
    if !waiting {
      var k :| 0 <= k < |fileList| && fileList[k] == wanted.meta;
      var max := MaxNumberOfHashs(fileList[k].size);
      ok, back := RestoreListed(client.lib, raws, server, fileList[k], chunks, blocksize, dropped, delivers, max);
    }
  }

  /** The restore of one listed record; None if a request is not delivered. */
  method RestoreListed(lib: Library, ghost raws: set<seq<byte>>, server: ServerStruct, m: Meta,
                       ghost chunks: seq<seq<byte>>, ghost blocksize: nat, ghost dropped: seq<HashData>,
                       delivers: nat -> bool, max: nat)
      returns (ok: seq<bool>, back: Option<seq<byte>>)
    requires server.Valid() && CollisionFree(lib, raws) && SetOf(chunks) <= raws
    requires m.hashes == HashesOf(lib, chunks) && max == MaxNumberOfHashs(m.size)
    requires dropped == [] ==> Arrived(lib, raws, server, chunks)
    ensures |ok| == (|chunks| + max - 1) / max
    ensures back.None? <==> exists k :: 0 <= k < |ok| && !delivers(k)
    ensures back.Some? && dropped == [] && SmallRequests(chunks, blocksize, max) ==> back.value == Concat(chunks)
  {
    var hashes: seq<Hash> := m.hashes;
    var stream, requests;
    stream, requests, ok := RestoreDataToStream(lib, server.backend, hashes, max, delivers);
    PartitionCount(requests, hashes, max);
    back := if false in ok then None else Some(stream);
    if back.Some? && dropped == [] && SmallRequests(chunks, blocksize, max) {
      OnlyFailuresLeaveHoles(lib, raws, server.backend.blocks, chunks, blocksize, requests, ok, max);
    }
  }
}
