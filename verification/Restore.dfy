/**
 Restoring a file: the hash list of its record goes out in batches, the server answers each batch with
 the bytes of its blocks, and the answers are written one after the other. A request can fail: the loop
 then goes on with the next one.
 */
module Restore {
  import opened Blocks
  import opened Base64
  import opened Numbers
  import opened Records
  import opened FileBackend

  // ---------- sizes ----------

  const CLIENT_MIN_BUFFER := 1048576

  /** The block size an adaptive client uses for a file. */
  function AdaptiveBlocksize(size: nat): nat {
    if size < 32768 then 512
    else if size < 262144 then 2048
    else if size < 1048576 then 8192
    else if size < 8388608 then 16384
    else if size < 67108864 then 65536
    else if size < 134217728 then 131072
    else 262144
  }

  /** The greatest number of blocks the adaptive block size leaves a file of less than 128 megabytes. */
  function MostBlocks(size: nat): nat {
    if size < 32768 then 64
    else if size < 1048576 then 128
    else if size < 8388608 then 512
    else 1024
  }

  /** Read in full blocks, a file has no more blocks than that; a bigger one has 512 or more. */
  lemma AdaptiveBlocks(size: nat, count: nat)
    requires size > 0 && (count - 1) * AdaptiveBlocksize(size) < size <= count * AdaptiveBlocksize(size)
    ensures if size < 134217728 then count <= MostBlocks(size) else count >= 512
  {
    var b := AdaptiveBlocksize(size);
    if size < 134217728 {
      if count > MostBlocks(size) {
        Scaled(MostBlocks(size), count - 1, b);
      }
    } else if count < 512 {
      Scaled(count, 511, b);
    }
  }

  /** calculate_max_number_of_hashs: how many hashes a restore request names. */
  function MaxNumberOfHashs(size: nat): nat {
    if size < 32768 then 64
    else if size < 262144 then 128
    else if size < 1048576 then 128
    else if size < 8388608 then 128
    else if size < 67108864 then 64
    else if size < 134217728 then 32
    else 16
  }

  /** The sizes at which the block size changes: the next one above a size, below 128 megabytes. */
  function NextThreshold(size: nat): nat
    requires size < 134217728
  {
    if size < 32768 then 32768
    else if size < 262144 then 262144
    else if size < 1048576 then 1048576
    else if size < 8388608 then 8388608
    else if size < 67108864 then 67108864
    else 134217728
  }

  /**
   The number of blocks promised is the least that can be: the biggest file of its class has that many. One request
   asks for a whole file of less than one megabyte; for a bigger one it asks for two megabytes, and for four from
   eight megabytes on.
   */
  lemma SizesFit(size: nat)
    ensures size < 134217728 ==> MostBlocks(size) * AdaptiveBlocksize(size) == NextThreshold(size)
    ensures MaxNumberOfHashs(size) * AdaptiveBlocksize(size)
            == if size < 1048576 then NextThreshold(size) else if size < 8388608 then 2097152 else 4194304
  {
  }

  /** So a file of less than one megabyte, read in full blocks, is restored by one request. */
  lemma OneRequestIsEnough(size: nat, count: nat)
    requires 0 < size < 1048576 && (count - 1) * AdaptiveBlocksize(size) < size <= count * AdaptiveBlocksize(size)
    ensures count <= MaxNumberOfHashs(size)
  {
    if count > MaxNumberOfHashs(size) {
      Scaled(MaxNumberOfHashs(size), count - 1, AdaptiveBlocksize(size));
    }
  }

  class Options {
    var adaptive: bool
    var blocksize: nat
    var buffersize: int

    /**
     calculate_file_blocksize: also widens the send buffer, for good, once a very big file is met. For an
     adaptive client a restore request then names blocks of four megabytes at most, a file below 128 megabytes
     has a bounded number of blocks, and the buffer of a file above 64 megabytes holds 16 of its blocks.
     */
    method CalculateFileBlocksize(size: nat) returns (blocksize: nat)
      modifies this`buffersize
      ensures adaptive ==> blocksize * MaxNumberOfHashs(size) <= 4194304
      ensures adaptive && size >= 67108864 ==> buffersize == 16 * blocksize
      ensures adaptive && size > 0 ==> forall count :: (count - 1) * blocksize < size <= count * blocksize
                                         ==> if size < 134217728 then count <= MostBlocks(size) else count >= 512
      ensures blocksize == if adaptive then AdaptiveBlocksize(size) else this.blocksize
      ensures buffersize == if !adaptive || size < 67108864 then old(buffersize)
                            else if size < 134217728 then 2 * CLIENT_MIN_BUFFER else 4 * CLIENT_MIN_BUFFER
    {
      if !adaptive {
        return this.blocksize;
      }
      if size < 67108864 {
        return AdaptiveBlocksize(size);
      } else if size < 134217728 {
        buffersize := CLIENT_MIN_BUFFER * 2;
        return 131072;
      } else {
        buffersize := CLIENT_MIN_BUFFER * 4;
        return 262144;
      }
    }
  }

  // ---------- the server's answer ----------

  /** The body of an answer: NULL when there is no data at all. */
  function Body(data: seq<byte>): Option<string> {
    if data == [] then None else Some(Encode(data))
  }

  /** What an unsigned 32-bit length leaves of a text. */
  function Cut32(text: seq<byte>): seq<byte> {
    text[..|text| % 0x1_0000_0000]
  }

  /** The data of a list of decoded names, most of which should be hashes, as the server puts it together. */
  function ServedBytes(lib: Library, blocks: map<Hash, HashData>, names: seq<seq<byte>>): seq<byte> {
    if names == [] then []
    else
      var n := |names| - 1;
      var before := ServedBytes(lib, blocks, names[..n]);
      if |names[n]| != HASH_LEN then before
      else var h: Hash := names[n]; if h in blocks then Cut32(before + Uncompress(lib, blocks[h])) else before
  }

  lemma ServedOneMore(lib: Library, blocks: map<Hash, HashData>, names: seq<seq<byte>>, i: nat)
    requires i < |names|
    ensures var before := ServedBytes(lib, blocks, names[..i]);
      ServedBytes(lib, blocks, names[..i + 1]) ==
        if |names[i]| != HASH_LEN then before
        else var h: Hash := names[i]; if h in blocks then Cut32(before + Uncompress(lib, blocks[h])) else before
  {
    assert names[..i + 1][..i] == names[..i];
  }

  lemma CutOfBoth(buffer: seq<byte>, size: uint32, data: seq<byte>)
    requires size <= |buffer|
    ensures var n := (size + |data|) % 0x1_0000_0000;
      n <= |buffer[..size] + data| && (buffer[..size] + data)[..n] == Cut32(buffer[..size] + data)
  {
  }

  /** A turn of its loop: the data of the next block, if it is there, goes behind what is kept. */
  method ServeOne(lib: Library, backend: Backend, name: seq<byte>, buffer: seq<byte>, size: uint32)
      returns (buffer': seq<byte>, size': uint32)
    requires backend.Valid() && size <= |buffer|
    ensures size' <= |buffer'|
    ensures buffer'[..size'] ==
      if |name| != HASH_LEN then buffer[..size]
      else var h: Hash := name;
           if h in backend.blocks then Cut32(buffer[..size] + Uncompress(lib, backend.blocks[h])) else buffer[..size]
  {
    buffer', size' := buffer, size;
    if |name| == HASH_LEN {
      var hash: Hash := name;
      var block := RetrieveByHash(backend, hash);
      if block.Some? {
        var data := Uncompress(lib, block.value);
        CutOfBoth(buffer, size, data);
        buffer' := buffer[..size] + data;
        size' := (size + |data|) % 0x1_0000_0000;
      }
    }
  }

  /**
   get_data_from_a_list_of_hashs, on the value of the X-Get-Hash-Array header. The length of what is gathered is
   an unsigned 32-bit integer; only so much of it is kept when the next block comes, and goes out in the end.
   */
  method GetDataFromListOfHashs(lib: Library, backend: Backend, header: Option<string>)
      returns (answer: Option<string>)
    requires backend.Valid()
    ensures answer == Body(ServedBytes(lib, backend.blocks, Named(header)))
  {
    var list := MakeHashList(header);
    var buffer: seq<byte>, size: uint32 := [], 0;
    var i := 0;
    while i < |list|
      invariant 0 <= i <= |list| && size <= |buffer|
      invariant buffer[..size] == ServedBytes(lib, backend.blocks, list[..i])
    {
      ServedOneMore(lib, backend.blocks, list, i);
      buffer, size := ServeOne(lib, backend, list[i], buffer, size);
      i := i + 1;
    }
    WholePrefix(list);
    answer := if size == 0 then None else Some(Encode(buffer[..size]));
  }

  /** What the server puts together is the whole data exactly if that is shorter than four gigabytes. */
  lemma {:induction false} ServedIsAllIff(lib: Library, blocks: map<Hash, HashData>, hashes: seq<Hash>)
    ensures var served, all := ServedBytes(lib, blocks, hashes), Restored(lib, blocks, hashes);
      && |served| == |all| % 0x1_0000_0000
      && (served == all <==> |all| < 0x1_0000_0000)
  {
    if hashes != [] {
      var n := |hashes| - 1;
      var before, all := ServedBytes(lib, blocks, hashes[..n]), Restored(lib, blocks, hashes[..n]);
      ServedIsAllIff(lib, blocks, hashes[..n]);
      OneMore(hashes, n);
      WholePrefix(hashes);
      RestoredAppend(lib, blocks, hashes[..n], [hashes[n]]);
      var data := if hashes[n] in blocks then Uncompress(lib, blocks[hashes[n]]) else [];
      assert [hashes[n]][1..] == [];
      assert Restored(lib, blocks, [hashes[n]]) == data + Restored(lib, blocks, []);
      CutAdds(before, all, data);
    }
  }

  lemma CutAdds(before: seq<byte>, all: seq<byte>, data: seq<byte>)
    requires |before| == |all| % 0x1_0000_0000 && (before == all <==> |all| < 0x1_0000_0000)
    ensures |Cut32(before + data)| == |all + data| % 0x1_0000_0000
    ensures Cut32(before + data) == all + data <==> |all + data| < 0x1_0000_0000
    ensures data == [] ==> Cut32(before + data) == before
  {
    var k := |all| / 0x1_0000_0000;
    assert |all| == k * 0x1_0000_0000 + |before|;
    assert |all| + |data| == k * 0x1_0000_0000 + (|before| + |data|);
    assert (k * 0x1_0000_0000 + (|before| + |data|)) % 0x1_0000_0000 == (|before| + |data|) % 0x1_0000_0000;
    if |all + data| < 0x1_0000_0000 {
      WholePrefix(before + data);
    }
    if data == [] {
      assert before + data == before;
      WholePrefix(before);
    }
  }

  /** With blocks of half a gigabyte, a request that names nine of them is answered by the last one alone. */
  lemma NineBlocksServeOne(lib: Library, blocks: map<Hash, HashData>, hashes: seq<Hash>)
    requires |hashes| == 9
    requires forall h :: h in hashes ==> h in blocks && |Uncompress(lib, blocks[h])| == 0x2000_0000
    ensures ServedBytes(lib, blocks, hashes) == Uncompress(lib, blocks[hashes[8]])
  {
    EightServeNothing(lib, blocks, hashes[..8]);
    WholePrefix(hashes);
    ServedOneMore(lib, blocks, hashes, 8);
    assert hashes[8] in hashes;
    var last := Uncompress(lib, blocks[hashes[8]]);
    WholePrefix(last);
    assert [] + last == last;
  }

  lemma EightServeNothing(lib: Library, blocks: map<Hash, HashData>, hashes: seq<Hash>)
    requires |hashes| == 8
    requires forall h :: h in hashes ==> h in blocks && |Uncompress(lib, blocks[h])| == 0x2000_0000
    ensures ServedBytes(lib, blocks, hashes) == []
  {
    EqualBlocks(lib, blocks, hashes, 0x2000_0000);
    ServedIsAllIff(lib, blocks, hashes);
  }

  lemma {:induction false} EqualBlocks(lib: Library, blocks: map<Hash, HashData>, hashes: seq<Hash>, size: nat)
    requires forall h :: h in hashes ==> h in blocks && |Uncompress(lib, blocks[h])| == size
    ensures |Restored(lib, blocks, hashes)| == |hashes| * size
  {
    if hashes != [] {
      assert hashes[0] in hashes;
      EqualBlocks(lib, blocks, hashes[1..], size);
      assert |hashes| * size == |hashes[1..]| * size + size;
    }
  }

  function Received(answer: Option<string>): seq<byte> {
    if answer.None? then [] else Decode(answer.value)
  }

  /** A header written from some hashes is answered by what the server puts together for them. */
  lemma BatchIsAnswered(lib: Library, blocks: map<Hash, HashData>, batch: seq<Hash>)
    requires batch != []
    ensures var header := Some(Join(QuotedHashes(batch)));
      Received(Body(ServedBytes(lib, blocks, Named(header)))) == ServedBytes(lib, blocks, batch)
  {
    HashListRoundTrip(batch, "");
    assert "" + Join(QuotedHashes(batch)) == Join(QuotedHashes(batch));
    DecodeEncode(ServedBytes(lib, blocks, batch));
  }

  // ---------- the restore program ----------

  /** hash_extract_t: the hashes that have not been asked for yet. */
  class HashExtract {
    var hashList: seq<Hash>

    constructor (hashList: seq<Hash>)
      ensures this.hashList == hashList
    {
      this.hashList := hashList;
    }

    /** convert_max_hashs_from_hash_list_to_gchar */
    method ConvertMaxHashs(max: nat) returns (header: Option<string>)
      modifies this
      ensures var n := if max < |old(hashList)| then max else |old(hashList)|;
        && hashList == old(hashList)[n..]
        && header == if n == 0 then None else Some(Join(QuotedHashes(old(hashList)[..n])))
    {
      var head, i := 0, 0;
      header := None;
      while head < |hashList| && i < max
        invariant hashList == old(hashList)
        invariant 0 <= head == i <= |hashList| && i <= max
        invariant header == if head == 0 then None else Some(Join(QuotedHashes(hashList[..head])))
      {
        var item := Quoted(Encode(hashList[head]));
        if header.None? {
          assert QuotedHashes(hashList[..1]) == [item];
          header := Some(item);
        } else {
          JoinSnoc(QuotedHashes(hashList[..head]), item);
          assert QuotedHashes(hashList[..head + 1]) == QuotedHashes(hashList[..head]) + [item];
          header := Some(header.value + ", " + item);
        }
        i := i + 1;
        head := head + 1;
      }
      hashList := hashList[head..];
    }
  }

  /** Requests of max hashes each, but for a last one that may be shorter. */
  ghost predicate Partition(requests: seq<seq<Hash>>, hashes: seq<Hash>, max: nat) {
    && Concat(requests) == hashes
    && (forall k :: 0 <= k < |requests| - 1 ==> |requests[k]| == max)
    && (requests != [] ==> 0 < |requests[|requests| - 1]| <= max)
  }

  lemma {:induction false} PartitionSize(requests: seq<seq<Hash>>, hashes: seq<Hash>, max: nat)
    requires Partition(requests, hashes, max) && requests != []
    ensures (|requests| - 1) * max < |hashes| <= |requests| * max
  {
    var rest := requests[1..];
    assert hashes == requests[0] + Concat(rest);
    if rest != [] {
      PartitionSize(rest, Concat(rest), max);
      assert |requests| * max == |rest| * max + max;
      assert (|requests| - 1) * max == (|rest| - 1) * max + max;
    }
  }

  /** As few requests as the limit allows: the rounded-up quotient. */
  lemma PartitionCount(requests: seq<seq<Hash>>, hashes: seq<Hash>, max: nat)
    requires Partition(requests, hashes, max) && max > 0
    ensures |requests| == (|hashes| + max - 1) / max
  {
    if requests != [] {
      PartitionSize(requests, hashes, max);
      assert (|requests| + 1) * max == |requests| * max + max;
      assert |requests| * max == (|requests| - 1) * max + max;
    }
    QuotientIs(|hashes| + max - 1, max, |requests|);
  }

  /** What the requests that succeeded brought, in order. */
  function Delivered(lib: Library, blocks: map<Hash, HashData>, requests: seq<seq<Hash>>, ok: seq<bool>): seq<byte>
    requires |ok| == |requests|
    decreases |requests|
  {
    if requests == [] then []
    else
      var n := |requests| - 1;
      Delivered(lib, blocks, requests[..n], ok[..n]) + if ok[n] then ServedBytes(lib, blocks, requests[n]) else []
  }

  /** A request leaves a hole if it fails or its data has four gigabytes or more, unless there is no data. */
  ghost predicate Delivers(lib: Library, blocks: map<Hash, HashData>, request: seq<Hash>, ok: bool) {
    var data := Restored(lib, blocks, request);
    data == [] || (ok && |data| < 0x1_0000_0000)
  }

  ghost predicate NoHole(lib: Library, blocks: map<Hash, HashData>, requests: seq<seq<Hash>>, ok: seq<bool>)
    requires |ok| == |requests|
  {
    forall k :: 0 <= k < |requests| ==> Delivers(lib, blocks, requests[k], ok[k])
  }

  lemma NoHoleBeforeOrLast(lib: Library, blocks: map<Hash, HashData>, requests: seq<seq<Hash>>, ok: seq<bool>)
    requires |ok| == |requests| > 0
    ensures var n := |requests| - 1;
      NoHole(lib, blocks, requests, ok) <==>
        NoHole(lib, blocks, requests[..n], ok[..n]) && Delivers(lib, blocks, requests[n], ok[n])
  {
    var n := |requests| - 1;
    assert forall k :: 0 <= k < n ==> requests[..n][k] == requests[k] && ok[..n][k] == ok[k];
  }

  /** What one request brings. */
  lemma PieceIsAllIff(lib: Library, blocks: map<Hash, HashData>, request: seq<Hash>, ok: bool)
    ensures var piece := if ok then ServedBytes(lib, blocks, request) else [];
      var data := Restored(lib, blocks, request);
      && |piece| <= |data| && (|piece| == |data| ==> piece == data)
      && (piece == data <==> Delivers(lib, blocks, request, ok))
  {
    ServedIsAllIff(lib, blocks, request);
    var data := Restored(lib, blocks, request);
    assert |data| < 0x1_0000_0000 ==> |data| % 0x1_0000_0000 == |data|;
    assert |data| >= 0x1_0000_0000 ==> |data| % 0x1_0000_0000 < |data|;
  }

  /** What is delivered is the whole exactly if no request leaves a hole. */
  lemma {:induction false} DeliveredIsAllIff(
      lib: Library, blocks: map<Hash, HashData>, requests: seq<seq<Hash>>, ok: seq<bool>)
    requires |ok| == |requests|
    ensures var delivered, all := Delivered(lib, blocks, requests, ok), Restored(lib, blocks, Concat(requests));
      && |delivered| <= |all|
      && (delivered == all <==> NoHole(lib, blocks, requests, ok))
    decreases |requests|
  {
    if requests != [] {
      var n := |requests| - 1;
      var last := Restored(lib, blocks, requests[n]);
      var before := Restored(lib, blocks, Concat(requests[..n]));
      DeliveredIsAllIff(lib, blocks, requests[..n], ok[..n]);
      NoHoleBeforeOrLast(lib, blocks, requests, ok);
      OneMore(requests, n);
      WholePrefix(requests);
      ConcatOneMore(requests[..n], requests[n]);
      RestoredAppend(lib, blocks, Concat(requests[..n]), requests[n]);
      PieceIsAllIff(lib, blocks, requests[n], ok[n]);
      SameOrShorter(Delivered(lib, blocks, requests[..n], ok[..n]), before,
                    if ok[n] then ServedBytes(lib, blocks, requests[n]) else [], last);
    }
  }

  lemma SameOrShorter<T>(delivered: seq<T>, before: seq<T>, piece: seq<T>, last: seq<T>)
    requires |delivered| <= |before| && |piece| <= |last|
    ensures delivered + piece == before + last <==> delivered == before && piece == last
  {
    if delivered + piece == before + last {
      assert |delivered| == |before|;
      assert delivered == (delivered + piece)[..|delivered|] && before == (before + last)[..|before|];
      assert piece == (delivered + piece)[|delivered|..] && last == (before + last)[|before|..];
    }
  }

  /** Between two requests: what was asked for, what is left to ask for, what was written. */
  ghost predicate Midway(lib: Library, blocks: map<Hash, HashData>, hashes: seq<Hash>, max: nat,
                         requests: seq<seq<Hash>>, ok: seq<bool>, rest: seq<Hash>, stream: seq<byte>)
  {
    && |ok| == |requests| && Concat(requests) + rest == hashes
    && stream == Delivered(lib, blocks, requests, ok)
    && forall k :: 0 <= k < |requests| ==>
         0 < |requests[k]| <= max && (|requests[k]| == max || (k == |requests| - 1 && rest == []))
  }

  lemma OneMoreBatch(lib: Library, blocks: map<Hash, HashData>, hashes: seq<Hash>, max: nat,
                     requests: seq<seq<Hash>>, ok: seq<bool>, rest: seq<Hash>, stream: seq<byte>, success: bool)
    requires Midway(lib, blocks, hashes, max, requests, ok, rest, stream) && rest != [] && max > 0
    ensures var n := if max < |rest| then max else |rest|;
      var header := Some(Join(QuotedHashes(rest[..n])));
      var answer := Received(if success then Body(ServedBytes(lib, blocks, Named(header))) else None);
      Midway(lib, blocks, hashes, max, requests + [rest[..n]], ok + [success], rest[n..], stream + answer)
  {
    var n := if max < |rest| then max else |rest|;
    var done, batch := Concat(requests), rest[..n];
    var requests' := requests + [batch];
    ConcatOneMore(requests, batch);
    assert (done + batch) + rest[n..] == hashes by {
      assert rest == batch + rest[n..];
      Associative(done, batch, rest[n..]);
    }
    BatchIsAnswered(lib, blocks, batch);
    assert requests'[..|requests|] == requests && (ok + [success])[..|ok|] == ok;
    assert forall k :: 0 <= k < |requests'| ==>
      0 < |requests'[k]| <= max && (|requests'[k]| == max || (k == |requests'| - 1 && rest[n..] == []));
  }

  /** The k-th request succeeded if the network delivered it. */
  ghost predicate AsDelivered(ok: seq<bool>, delivers: nat -> bool) {
    forall k :: 0 <= k < |ok| ==> ok[k] == delivers(k)
  }

  lemma OneMoreDelivered(ok: seq<bool>, delivers: nat -> bool)
    requires AsDelivered(ok, delivers)
    ensures AsDelivered(ok + [delivers(|ok|)], delivers)
  {
  }

  /** get_url, for a request that the network delivers or not: what is in the buffer after it. */
  method GetUrl(lib: Library, backend: Backend, header: Option<string>, delivered: bool)
      returns (answer: Option<string>)
    requires backend.Valid()
    ensures answer == if delivered then Body(ServedBytes(lib, backend.blocks, Named(header))) else None
  {
    answer := None;
    if delivered {
      answer := GetDataFromListOfHashs(lib, backend, header);
    }
  }

  /**
   restore_data_to_stream, with the list of requests it made and which of them succeeded: the k-th does if the
   network delivers it, for any network. What it writes is what those brought, and that is the whole file exactly
   if none leaves a hole.
   */
  method RestoreDataToStream(lib: Library, backend: Backend, hashes: seq<Hash>, max: nat, delivers: nat -> bool)
      returns (stream: seq<byte>, requests: seq<seq<Hash>>, ok: seq<bool>)
    requires max > 0 && backend.Valid()
    ensures Partition(requests, hashes, max) && |ok| == |requests|
    ensures forall k :: 0 <= k < |ok| ==> ok[k] == delivers(k)
    ensures stream == Delivered(lib, backend.blocks, requests, ok)
    ensures stream == Restored(lib, backend.blocks, hashes) <==> NoHole(lib, backend.blocks, requests, ok)
  {
    var extract := new HashExtract(hashes);
    stream, requests, ok := [], [], [];
    while extract.hashList != []
      invariant Midway(lib, backend.blocks, hashes, max, requests, ok, extract.hashList, stream)
      invariant AsDelivered(ok, delivers)
      decreases |extract.hashList|
    {
      var n := if max < |extract.hashList| then max else |extract.hashList|;
      var success := delivers(|ok|);
      OneMoreBatch(lib, backend.blocks, hashes, max, requests, ok, extract.hashList, stream, success);
      OneMoreDelivered(ok, delivers);
      requests, ok := requests + [extract.hashList[..n]], ok + [success];
      var header := extract.ConvertMaxHashs(max);
      var answer := GetUrl(lib, backend, header, success);
      if answer.Some? {
        stream := stream + Decode(answer.value);
      }
    }
    assert Concat(requests) + [] == Concat(requests);
    DeliveredIsAllIff(lib, backend.blocks, requests, ok);
  }

  // ---------- how big an answer gets ----------

  lemma {:induction false} RestoredAtMost(
      lib: Library, blocks: map<Hash, HashData>, hashes: seq<Hash>, limit: nat)
    requires forall h :: h in hashes && h in blocks ==> |Uncompress(lib, blocks[h])| <= limit
    ensures |Restored(lib, blocks, hashes)| <= |hashes| * limit
  {
    if hashes != [] {
      assert hashes[0] in hashes;
      RestoredAtMost(lib, blocks, hashes[1..], limit);
      assert |hashes| * limit == |hashes[1..]| * limit + limit;
    }
  }

  /** Any of the hashes of a file: in a genuine store they stand for blocks no longer than those of the file. */
  lemma RestoredBound(lib: Library, raws: set<seq<byte>>, blocks: map<Hash, HashData>, chunks: seq<seq<byte>>,
                      hashes: seq<Hash>, limit: nat)
    requires CollisionFree(lib, raws) && GenuineStore(lib, raws, blocks)
    requires forall k :: 0 <= k < |chunks| ==> chunks[k] in raws && |chunks[k]| <= limit
    requires forall h :: h in hashes ==> h in HashesOf(lib, chunks)
    ensures |Restored(lib, blocks, hashes)| <= |hashes| * limit
  {
    forall h | h in hashes && h in blocks ensures |Uncompress(lib, blocks[h])| <= limit {
      var i :| 0 <= i < |chunks| && HashesOf(lib, chunks)[i] == h;
      assert lib.sha256(Uncompress(lib, blocks[h])) == lib.sha256(chunks[i]);
    }
    RestoredAtMost(lib, blocks, hashes, limit);
  }

  /** No request has four gigabytes of data if the block size and the number of hashes it names are small. */
  lemma RequestsFit(lib: Library, raws: set<seq<byte>>, blocks: map<Hash, HashData>, chunks: seq<seq<byte>>,
                    requests: seq<seq<Hash>>, max: nat, limit: nat)
    requires CollisionFree(lib, raws) && GenuineStore(lib, raws, blocks)
    requires forall k :: 0 <= k < |chunks| ==> chunks[k] in raws && |chunks[k]| <= limit
    requires Partition(requests, HashesOf(lib, chunks), max) && limit * max < 0x1_0000_0000
    ensures forall k :: 0 <= k < |requests| ==> |Restored(lib, blocks, requests[k])| < 0x1_0000_0000
  {
    forall k | 0 <= k < |requests| ensures |Restored(lib, blocks, requests[k])| < 0x1_0000_0000 {
      InConcat(requests, k);
      RestoredBound(lib, raws, blocks, chunks, requests[k], limit);
      if limit > 0 {
        Scaled(|requests[k]|, max, limit);
      }
    }
  }

  lemma {:induction false} InConcat<T>(parts: seq<seq<T>>, k: nat)
    requires k < |parts|
    ensures forall x :: x in parts[k] ==> x in Concat(parts)
  {
    if k > 0 {
      InConcat(parts[1..], k - 1);
    }
  }

  /**
   With the adaptive block size no answer to a restore request carries more than four megabytes of
   data, whoever stored the blocks first, so the server's 32-bit length cannot overflow.
   */
  lemma AnswersFit(lib: Library, raws: set<seq<byte>>, blocks: map<Hash, HashData>, chunks: seq<seq<byte>>, size: nat)
    requires CollisionFree(lib, raws) && GenuineStore(lib, raws, blocks)
    requires forall k :: 0 <= k < |chunks| ==> chunks[k] in raws && |chunks[k]| <= AdaptiveBlocksize(size)
    requires |chunks| <= MaxNumberOfHashs(size)
    ensures |Restored(lib, blocks, HashesOf(lib, chunks))| <= 4194304
  {
    var limit := AdaptiveBlocksize(size);
    RestoredBound(lib, raws, blocks, chunks, HashesOf(lib, chunks), limit);
    assert |chunks| * limit <= MaxNumberOfHashs(size) * limit;
  }
}
