/**
 The server's side: the handlers of the three kinds of post, the thread that stores blocks from their
 queue, and the store itself.

 That thread runs between any two lookups of a handler. So the blocks that were ever queued are kept as a
 log, in which the thread gets on: what a lookup sees depends on how far it got, and nothing else does.
 */
module Handlers {
  import opened Blocks
  import opened BlockLists
  import opened Protocol
  import opened FileBackend

  // ---------- filing ----------

  /** The store after filing a queue of blocks, each under its own name. */
  function Filed(blocks: map<Hash, HashData>, queue: seq<HashData>): map<Hash, HashData>
    decreases |queue|
  {
    if queue == [] then blocks
    else var n := |queue| - 1; Filed(blocks, queue[..n])[queue[n].hash := queue[n]]
  }

  lemma FiledOneMore(blocks: map<Hash, HashData>, log: seq<HashData>, n: nat)
    requires n < |log|
    ensures Filed(blocks, log[..n + 1]) == Filed(blocks, log[..n])[log[n].hash := log[n]]
  {
    assert log[..n + 1][..n] == log[..n];
  }

  lemma {:induction false} FiledInParts(blocks: map<Hash, HashData>, first: seq<HashData>, rest: seq<HashData>)
    ensures Filed(blocks, first + rest) == Filed(Filed(blocks, first), rest)
    decreases |rest|
  {
    if rest == [] {
      assert first + rest == first;
    } else {
      var n := |rest| - 1;
      FiledInParts(blocks, first, rest[..n]);
      assert (first + rest)[..|first| + n] == first + rest[..n];
    }
  }

  /** A name is in the store if it was before, or was filed. */
  lemma {:induction false} FiledNames(blocks: map<Hash, HashData>, queue: seq<HashData>, h: Hash)
    ensures h in Filed(blocks, queue) <==> h in blocks || h in Hashes(queue)
    decreases |queue|
  {
    if queue != [] {
      var n := |queue| - 1;
      FiledNames(blocks, queue[..n], h);
      assert Hashes(queue) == Hashes(queue[..n]) + [queue[n].hash];
    }
  }

  lemma {:induction false} FilingKeeps(
      lib: Library, raws: set<seq<byte>>, blocks: map<Hash, HashData>, queue: seq<HashData>)
    requires GenuineStore(lib, raws, blocks) && AllGenuine(lib, raws, queue)
    ensures GenuineStore(lib, raws, Filed(blocks, queue))
    ensures forall h :: h in Filed(blocks, queue) <==> h in blocks || h in Hashes(queue)
    decreases |queue|
  {
    forall h ensures h in Filed(blocks, queue) <==> h in blocks || h in Hashes(queue) {
      FiledNames(blocks, queue, h);
    }
    if queue != [] {
      FilingKeeps(lib, raws, blocks, queue[..|queue| - 1]);
    }
  }

  // ---------- looking up while the store grows ----------

  /** The k-th lookup of a question is made when looks[k] blocks of the log are filed. */
  ghost predicate Lookups(looks: seq<nat>, log: seq<HashData>, before: nat, after: nat) {
    && before <= after
    && (forall k :: 0 <= k < |looks| ==> before <= looks[k] <= after && looks[k] <= |log|)
    && (forall j, k :: 0 <= j < k < |looks| ==> looks[j] <= looks[k])
  }

  /** What the store has at each of those lookups. */
  function Found(first: map<Hash, HashData>, log: seq<HashData>, looks: seq<nat>): (r: seq<set<Hash>>)
    requires forall k :: 0 <= k < |looks| ==> looks[k] <= |log|
    ensures |r| == |looks|
  {
    seq(|looks|, k requires 0 <= k < |looks| => Filed(first, log[..looks[k]]).Keys)
  }

  lemma FoundOneMore(first: map<Hash, HashData>, log: seq<HashData>, looks: seq<nat>, before: nat, after: nat, n: nat)
    requires Lookups(looks, log, before, after) && after <= n <= |log|
    ensures Lookups(looks + [n], log, before, n)
    ensures Found(first, log, looks + [n]) == Found(first, log, looks) + [Filed(first, log[..n]).Keys]
  {
  }

  lemma FiledStays(first: map<Hash, HashData>, log: seq<HashData>, m: nat, n: nat, h: Hash)
    requires m <= n <= |log| && h in Filed(first, log[..m])
    ensures h in Filed(first, log[..n])
  {
    assert log[..n] == log[..m] + log[m..n];
    FiledInParts(first, log[..m], log[m..n]);
    FiledNames(Filed(first, log[..m]), log[m..n], h);
  }

  /** What was found once is found again. */
  lemma FoundGrows(first: map<Hash, HashData>, log: seq<HashData>, looks: seq<nat>, before: nat, after: nat)
    requires Lookups(looks, log, before, after)
    ensures Growing(Found(first, log, looks))
  {
    forall j, k | 0 <= j <= k < |looks| ensures Found(first, log, looks)[j] <= Found(first, log, looks)[k] {
      forall h | h in Filed(first, log[..looks[j]]) ensures h in Filed(first, log[..looks[k]]) {
        FiledStays(first, log, looks[j], looks[k], h);
      }
    }
  }

  /** The answer to a question whose hashes were looked up in this way. */
  ghost predicate Replies(first: map<Hash, HashData>, log: seq<HashData>, looks: seq<nat>, asks: seq<Hash>,
                          needed: seq<Hash>)
    requires forall k :: 0 <= k < |looks| ==> looks[k] <= |log|
  {
    |looks| == |asks| && needed == Needed(Found(first, log, looks), asks)
  }

  /**
   A reply, made while the store grew: no hash twice and in the order of the question; what it asks for was not
   stored when the question came, and what it does not ask for is stored when it leaves.
   */
  lemma ReplyIsExact(first: map<Hash, HashData>, log: seq<HashData>, looks: seq<nat>, before: nat, after: nat,
                     asks: seq<Hash>, needed: seq<Hash>)
    requires after <= |log| && Lookups(looks, log, before, after) && Replies(first, log, looks, asks, needed)
    ensures NoDuplicates(needed) && InOrder(asks, needed)
    ensures forall h :: h in needed ==> h in asks && h !in Filed(first, log[..before])
    ensures forall h :: h in asks && h !in needed ==> h in Filed(first, log[..after])
  {
    var stored := Found(first, log, looks);
    NeededOnce(stored, asks);
    FoundGrows(first, log, looks, before, after);
    NeededOrder(stored, asks);
    forall h | h in needed ensures h !in Filed(first, log[..before]) {
      NeededIff(stored, asks, h);
      var k :| 0 <= k < |asks| && asks[k] == h && h !in stored[k];
      if h in Filed(first, log[..before]) {
        FiledStays(first, log, before, looks[k], h);
      }
    }
    forall h | h in asks && h !in needed ensures h in Filed(first, log[..after]) {
      NeededIff(stored, asks, h);
      var k :| 0 <= k < |asks| && asks[k] == h;
      assert h in stored[k];
      FiledStays(first, log, looks[k], after, h);
    }
  }

  /** The reply grows by a hash that is not found and not yet in the list, which is kept newest first. */
  lemma OneMoreReply(first: map<Hash, HashData>, log: seq<HashData>, looks: seq<nat>, asks: seq<Hash>,
                     needed: seq<Hash>, before: nat, after: nat, n: nat, h: Hash)
    requires Lookups(looks, log, before, after) && after <= n <= |log|
    requires Replies(first, log, looks, asks, Reverse(needed))
    ensures Lookups(looks + [n], log, before, n)
    ensures Replies(first, log, looks + [n], asks + [h],
                    Reverse(if h in Filed(first, log[..n]) || h in needed then needed else [h] + needed))
  {
    FoundOneMore(first, log, looks, before, after, n);
    NeededOneMore(Found(first, log, looks), asks, Filed(first, log[..n]).Keys, h);
    SameElements(needed);
    assert Reverse([h] + needed) == Reverse(needed) + [h];
  }

  /** A request whose connection is handled leaves its record in a queue. */
  function RecordsOf(r: Request): seq<Record> {
    if r.MetaPost? then [r.rec] else []
  }

  // ---------- the server ----------

  /** server_struct_t with the file backend; `first` is what the store had when the server was started. */
  class ServerStruct {
    const backend: Backend
    var metaQueue: seq<Record>
    var dataQueue: seq<HashData>
    ghost const first: map<Hash, HashData>
    ghost var log: seq<HashData>
    ghost var filed: nat

    ghost predicate Valid()
      reads this, backend
    {
      && backend.Valid() && 2 <= backend.level <= 4 && backend.dirs == Tree(backend.base, backend.level)
      && filed <= |log| && dataQueue == log[filed..]
      && backend.blocks == Filed(first, log[..filed])
    }

    constructor (backend: Backend)
      requires backend.Valid() && 2 <= backend.level <= 4 && backend.dirs == Tree(backend.base, backend.level)
      ensures Valid() && this.backend == backend && metaQueue == [] && log == [] && first == backend.blocks
    {
      this.backend, metaQueue, dataQueue := backend, [], [];
      first, log, filed := backend.blocks, [], 0;
    }

    /** One turn of data_thread. */
    method StoreOne()
      requires Valid() && dataQueue != []
      modifies this`dataQueue, this`filed, backend`files, backend`blocks
      ensures Valid() && filed == old(filed) + 1
    {
      var b := dataQueue[0];
      dataQueue := dataQueue[1..];
      TreeIsComplete(backend.base, backend.level);
      FiledOneMore(first, log, filed);
      backend.StoreData(b);
      filed := filed + 1;
    }

    /** data_thread, for as long as it is its turn. */
    method DataThreadRuns()
      requires Valid()
      modifies this`dataQueue, this`filed, backend`files, backend`blocks
      ensures Valid() && old(filed) <= filed
    {
      var turns: nat := *;
      while turns > 0 && dataQueue != []
        invariant Valid() && old(filed) <= filed
        decreases turns
      {
        StoreOne();
        turns := turns - 1;
      }
    }

    /** data_thread, until its queue is empty. */
    method DataThread()
      requires Valid()
      modifies this`dataQueue, this`filed, backend`files, backend`blocks
      ensures Valid() && dataQueue == [] && filed == |log|
      ensures backend.blocks == Filed(old(backend.blocks), old(dataQueue))
    {
      while dataQueue != []
        invariant Valid()
        decreases |log| - filed
      {
        StoreOne();
      }
      assert log[..old(filed)] + log[old(filed)..] == log && log[..filed] == log;
      FiledInParts(first, log[..old(filed)], log[old(filed)..]);
    }

    /** One turn of the loop of file_build_needed_hash_list, before which the data thread may run. */
    method LookUp(h: Hash, needed: seq<Hash>, ghost looks: seq<nat>, ghost asks: seq<Hash>, ghost start: nat)
        returns (needed': seq<Hash>, ghost looks': seq<nat>)
      requires Valid() && Lookups(looks, log, start, filed) && Replies(first, log, looks, asks, Reverse(needed))
      modifies this`dataQueue, this`filed, backend`files, backend`blocks
      ensures Valid() && old(filed) <= filed && Lookups(looks', log, start, filed)
      ensures Replies(first, log, looks', asks + [h], Reverse(needed'))
    {
      DataThreadRuns();
      var stored := backend.Exists(h);
      var inList := HashDataIsInList(h, needed);
      needed', looks' := needed, looks + [filed];
      if !stored && !inList {
        needed' := [h] + needed;
      }
      OneMoreReply(first, log, looks, asks, needed, start, old(filed), filed, h);
    }

    /** file_build_needed_hash_list: prepends while it walks the request, then reverses. */
    method BuildNeededHashList(hashes: seq<Hash>) returns (needed: seq<Hash>, ghost looks: seq<nat>)
      requires Valid()
      modifies this`dataQueue, this`filed, backend`files, backend`blocks
      ensures Valid() && Lookups(looks, log, old(filed), filed) && Replies(first, log, looks, hashes, needed)
    {
      var head := 0;
      needed, looks := [], [];
      while head < |hashes|
        invariant 0 <= head <= |hashes| && Valid() && Lookups(looks, log, old(filed), filed)
        invariant Replies(first, log, looks, hashes[..head], Reverse(needed))
      {
        needed, looks := LookUp(hashes[head], needed, looks, hashes[..head], old(filed));
        OneMore(hashes, head);
        head := head + 1;
      }
      WholePrefix(hashes);
      needed := Reverse(needed);
    }

    /** answer_meta_json_post_request */
    method AnswerMetaPost(rec: Record, dataSent: bool) returns (needed: seq<Hash>, ghost looks: seq<nat>)
      requires Valid()
      modifies this`metaQueue, this`dataQueue, this`filed, backend`files, backend`blocks
      ensures Valid() && metaQueue == old(metaQueue) + [rec]
      ensures Lookups(looks, log, old(filed), filed)
      ensures Replies(first, log, looks, Asks(MetaPost(rec, dataSent)), needed)
    {
      needed, looks := [], [];
      if !dataSent {
        needed, looks := BuildNeededHashList(rec.hashes);
      }
      metaQueue := metaQueue + [rec];
    }

    /** answer_hash_array_post_request */
    method AnswerHashArrayPost(hashes: seq<Hash>) returns (needed: seq<Hash>, ghost looks: seq<nat>)
      requires Valid()
      modifies this`dataQueue, this`filed, backend`files, backend`blocks
      ensures Valid() && Lookups(looks, log, old(filed), filed) && Replies(first, log, looks, hashes, needed)
    {
      needed, looks := BuildNeededHashList(hashes);
    }

    /** answer_data_post_request and answer_data_array_post_request */
    method AnswerDataPost(received: seq<HashData>)
      requires Valid()
      modifies this`dataQueue, this`log
      ensures Valid() && dataQueue == old(dataQueue) + received && log == old(log) + received
    {
      var i := 0;
      while i < |received|
        invariant 0 <= i <= |received|
        invariant Valid() && dataQueue == old(dataQueue) + received[..i] && log == old(log) + received[..i]
      {
        assert received[..i + 1] == received[..i] + [received[i]];
        assert (log + [received[i]])[..filed] == log[..filed];
        dataQueue, log := dataQueue + [received[i]], log + [received[i]];
        i := i + 1;
      }
      assert received[..i] == received;
    }

    /** A request of any kind, as a row of a client's table holds it. */
    method AnswerPost(r: Request)
      requires Valid()
      modifies this`metaQueue, this`dataQueue, this`log, this`filed, backend`files, backend`blocks
      ensures Valid() && old(filed) <= filed
      ensures metaQueue == old(metaQueue) + RecordsOf(r) && log == old(log) + Load(r)
    {
      match r
      case MetaPost(rec, dataSent) => var needed, looks := AnswerMetaPost(rec, dataSent);
      case HashPost(hashes) => var needed, looks := AnswerHashArrayPost(hashes);
      case DataPost(blocks) => AnswerDataPost(blocks);
    }
  }
}
