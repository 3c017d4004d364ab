/**
 How the blocks a client sends are grouped into requests: by a counter of bytes, a 32-bit integer, that is
 compared with the size of the send buffer. Where it overflows, blocks are neither sent nor kept.
 */
module ByteCounter {
  import opened Blocks
  import opened BlockLists
  import opened Numbers

  /** In the loop of send_all_data_to_server: the requests made, the blocks of the next one, its count of bytes. */
  datatype Grouping = Grouping(batches: seq<seq<HashData>>, open: seq<HashData>, bytes: int)

  /** A request is sent as soon as the counter reaches the limit. */
  function Close(g: Grouping, limit: int): Grouping {
    if g.bytes >= limit then Grouping(g.batches + [g.open], [], 0) else g
  }

  /** One more block. */
  function Add(g: Grouping, b: HashData, limit: int): Grouping {
    Close(Grouping(g.batches, g.open + [b], ToInt(g.bytes + |b.data|)), limit)
  }

  function Group(blocks: seq<HashData>, limit: int): Grouping {
    if blocks == [] then Grouping([], [], 0)
    else Add(Group(blocks[..|blocks| - 1], limit), blocks[|blocks| - 1], limit)
  }

  /** After the loop: what is left goes out if the counter is positive. */
  function Requests(g: Grouping): seq<seq<HashData>> {
    if g.bytes > 0 then g.batches + [g.open] else g.batches
  }

  /** What is left and does not go out, in no request and no row. */
  function Dropped(g: Grouping): seq<HashData> {
    if g.bytes > 0 then [] else g.open
  }

  lemma GroupOneMore(blocks: seq<HashData>, b: HashData, limit: int)
    ensures Group(blocks + [b], limit) == Add(Group(blocks, limit), b, limit)
  {
    assert (blocks + [b])[..|blocks|] == blocks;
  }

  ghost predicate NoEmptyBlock(list: seq<HashData>) {
    forall k :: 0 <= k < |list| ==> list[k].data != [] && list[k].uncmplen > 0
  }

  /** The count of bytes of a list of blocks, as the counter has it. */
  function Counter(list: seq<HashData>): int {
    ToInt(Weight(list))
  }

  lemma WeightOneMore(blocks: seq<HashData>, b: HashData)
    ensures Weight(blocks + [b]) == Weight(blocks) + |b.data|
  {
    assert (blocks + [b])[..|blocks|] == blocks;
  }

  lemma {:induction false} WeightAppend(a: seq<HashData>, b: seq<HashData>)
    ensures Weight(a + b) == Weight(a) + Weight(b)
    decreases |b|
  {
    if b == [] {
      assert a + b == a;
    } else {
      var n := |b| - 1;
      WeightAppend(a, b[..n]);
      Associative(a, b[..n], [b[n]]);
      OneMore(b, n);
      WholePrefix(b);
      WeightOneMore(a + b[..n], b[n]);
    }
  }

  lemma AddKeepsBlocks(g: Grouping, b: HashData, limit: int, done: seq<HashData>)
    requires Concat(g.batches) + g.open == done
    ensures var g' := Add(g, b, limit); Concat(g'.batches) + g'.open == done + [b]
  {
    Associative(Concat(g.batches), g.open, [b]);
    ConcatOneMore(g.batches, g.open + [b]);
  }

  lemma {:induction false} GroupHasAll(blocks: seq<HashData>, limit: int)
    ensures var g := Group(blocks, limit); Concat(g.batches) + g.open == blocks
    decreases |blocks|
  {
    if blocks != [] {
      var n := |blocks| - 1;
      GroupHasAll(blocks[..n], limit);
      AddKeepsBlocks(Group(blocks[..n], limit), blocks[n], limit, blocks[..n]);
      OneMore(blocks, n);
      WholePrefix(blocks);
    }
  }

  lemma AddCounts(g: Grouping, b: HashData, limit: int)
    requires g.bytes == Counter(g.open)
    ensures Add(g, b, limit).bytes == Counter(Add(g, b, limit).open)
  {
    WeightOneMore(g.open, b);
    ToIntAdds(Weight(g.open), |b.data|);
  }

  lemma {:induction false} GroupCounts(blocks: seq<HashData>, limit: int)
    ensures var g := Group(blocks, limit); g.bytes == Counter(g.open)
    decreases |blocks|
  {
    if blocks != [] {
      GroupCounts(blocks[..|blocks| - 1], limit);
      AddCounts(Group(blocks[..|blocks| - 1], limit), blocks[|blocks| - 1], limit);
    }
  }

  /** Whatever the sizes: no block is sent twice, none is out of order, and the rest is what is dropped. */
  lemma RequestsAndRest(blocks: seq<HashData>, limit: int)
    ensures var g := Group(blocks, limit); Concat(Requests(g)) + Dropped(g) == blocks
  {
    var g := Group(blocks, limit);
    GroupHasAll(blocks, limit);
    ConcatOneMore(g.batches, g.open);
  }

  /** No request is empty, and what is dropped counts as nothing or less. */
  lemma {:induction false} RequestsNotEmpty(blocks: seq<HashData>, limit: int)
    ensures var g := Group(blocks, limit);
      && (forall k :: 0 <= k < |Requests(g)| ==> Requests(g)[k] != [])
      && (forall k :: 0 <= k < |g.batches| ==> g.batches[k] != [])
      && Counter(Dropped(g)) <= 0
    decreases |blocks|
  {
    GroupCounts(blocks, limit);
    if blocks != [] {
      RequestsNotEmpty(blocks[..|blocks| - 1], limit);
    }
  }

  /** The counter of 32 bits is wide enough, because the blocks are few or they and the limit are small. */
  ghost predicate CounterHolds(blocks: seq<HashData>, limit: int) {
    && limit >= 1
    && (Weight(blocks) < 0x8000_0000 || forall k :: 0 <= k < |blocks| ==> limit + |blocks[k].data| <= 0x8000_0000)
  }

  /** In the middle, while the counter was wide enough. */
  ghost predicate CutWell(g: Grouping, limit: int) {
    && g.bytes == Weight(g.open) && (g.open != [] ==> 0 < g.bytes < limit)
    && AllFull(g.batches, limit)
  }

  ghost predicate AllFull(batches: seq<seq<HashData>>, limit: int) {
    forall k :: 0 <= k < |batches| ==> FullBatch(batches[k], limit)
  }

  lemma CounterHeld(blocks: seq<HashData>, limit: int)
    requires blocks != [] && CounterHolds(blocks, limit)
    ensures CounterHolds(blocks[..|blocks| - 1], limit)
  {
    assert forall k :: 0 <= k < |blocks| - 1 ==> blocks[..|blocks| - 1][k] == blocks[k];
  }

  lemma {:induction false} StaysCutWell(blocks: seq<HashData>, limit: int)
    requires CounterHolds(blocks, limit) && NoEmptyBlock(blocks)
    ensures CutWell(Group(blocks, limit), limit)
    decreases |blocks|
  {
    if blocks != [] {
      var n := |blocks| - 1;
      CounterHeld(blocks, limit);
      StaysCutWell(blocks[..n], limit);
      AddsWell(blocks, Group(blocks[..n], limit), limit);
    }
  }

  lemma AddsWell(blocks: seq<HashData>, g: Grouping, limit: int)
    requires blocks != [] && CounterHolds(blocks, limit) && NoEmptyBlock(blocks)
    requires g == Group(blocks[..|blocks| - 1], limit) && CutWell(g, limit)
    ensures CutWell(Add(g, blocks[|blocks| - 1], limit), limit)
  {
    var b := blocks[|blocks| - 1];
    OpenIsPart(blocks[..|blocks| - 1], limit);
    StillInRange(blocks, g, limit);
    WeightOneMore(g.open, b);
    assert (g.open + [b])[..|g.open|] == g.open;
  }

  lemma OpenIsPart(blocks: seq<HashData>, limit: int)
    ensures Weight(Group(blocks, limit).open) <= Weight(blocks)
  {
    var g := Group(blocks, limit);
    GroupHasAll(blocks, limit);
    WeightAppend(Concat(g.batches), g.open);
  }

  lemma StillInRange(blocks: seq<HashData>, g: Grouping, limit: int)
    requires blocks != [] && CounterHolds(blocks, limit) && CutWell(g, limit)
    requires Weight(g.open) <= Weight(blocks[..|blocks| - 1])
    ensures g.bytes + |blocks[|blocks| - 1].data| < 0x8000_0000
  {
  }

  /** Then every block goes out, in requests that reach the limit with their last block and not before. */
  lemma AllIsSent(blocks: seq<HashData>, limit: int)
    requires CounterHolds(blocks, limit) && NoEmptyBlock(blocks)
    ensures var g := Group(blocks, limit); Dropped(g) == [] && Batching(Requests(g), blocks, limit)
  {
    var g := Group(blocks, limit);
    StaysCutWell(blocks, limit);
    RequestsAndRest(blocks, limit);
    assert Concat(Requests(g)) + [] == Concat(Requests(g));
  }

  /** A list that first reaches the limit where the counter is negative, or zero again, is dropped as a whole. */
  lemma OverflowDropsAll(blocks: seq<HashData>, limit: int)
    requires 1 <= limit < 0x8000_0000 && blocks != []
    requires Weight(blocks[..|blocks| - 1]) < limit && 0x8000_0000 <= Weight(blocks) <= 0x1_0000_0000
    ensures Requests(Group(blocks, limit)) == [] && Dropped(Group(blocks, limit)) == blocks
  {
    var n := |blocks| - 1;
    BelowTheLimit(blocks[..n], limit);
    OneMore(blocks, n);
    WholePrefix(blocks);
    WeightOneMore(blocks[..n], blocks[n]);
  }

  lemma {:induction false} BelowTheLimit(blocks: seq<HashData>, limit: int)
    requires Weight(blocks) < limit < 0x8000_0000
    ensures Group(blocks, limit) == Grouping([], blocks, Weight(blocks))
    decreases |blocks|
  {
    if blocks != [] {
      BelowTheLimit(blocks[..|blocks| - 1], limit);
      OneMore(blocks, |blocks| - 1);
      WholePrefix(blocks);
    }
  }

  ghost predicate SentWhole(blocks: seq<HashData>, limit: int) {
    Dropped(Group(blocks, limit)) == []
  }

  ghost predicate Sized(blocks: seq<HashData>, m: nat) {
    forall k :: 0 <= k < |blocks| ==> 0 < |blocks[k].data| <= m && blocks[k].uncmplen > 0
  }

  /** n blocks of one byte, and one of m bytes. */
  function Units(n: nat, m: nat): (blocks: seq<HashData>)
    ensures |blocks| == n + 1
  {
    var one: Hash, other: Hash := seq(HASH_LEN, _ => 0), seq(HASH_LEN, _ => 1);
    seq(n, _ => HashData(one, [0], NoCompression, 1)) + [HashData(other, seq(m, _ => 0), NoCompression, m + 1)]
  }

  lemma {:induction false} WeightOfUnits(blocks: seq<HashData>)
    requires forall k :: 0 <= k < |blocks| ==> |blocks[k].data| == 1
    ensures Weight(blocks) == |blocks|
    decreases |blocks|
  {
    if blocks != [] {
      WeightOfUnits(blocks[..|blocks| - 1]);
    }
  }

  /**
   When the code hands every block over: for a send buffer of `limit` bytes and stored blocks of at most m
   bytes each, all lists of blocks go out whole if and only if limit and m add up to at most 2^31.
   */
  lemma AllSentIff(limit: int, m: nat)
    requires 1 <= limit < 0x8000_0000 && m < 0x8000_0000
    ensures (forall blocks :: Sized(blocks, m) ==> SentWhole(blocks, limit)) <==> limit + m <= 0x8000_0000
  {
    if limit + m <= 0x8000_0000 {
      forall blocks | Sized(blocks, m) ensures SentWhole(blocks, limit) {
        AllIsSent(blocks, limit);
      }
    } else {
      var last := 0x8000_0000 - (limit - 1);
      var blocks := Units(limit - 1, last);
      assert blocks[..limit - 1] == blocks[..|blocks| - 1];
      WeightOfUnits(blocks[..limit - 1]);
      OverflowDropsAll(blocks, limit);
      assert Sized(blocks, m) && !SentWhole(blocks, limit);
    }
  }

  // ---------- which lists the counter holds for ----------

  lemma WeightWithout(list: seq<HashData>, i: nat)
    requires i < |list|
    ensures Weight(list) == Weight(Without(list, i)) + |list[i].data|
  {
    OneMore(list, i);
    assert list == list[..i + 1] + list[i + 1..];
    WeightAppend(list[..i + 1], list[i + 1..]);
    WeightOneMore(list[..i], list[i]);
    WeightAppend(list[..i], list[i + 1..]);
  }

  lemma {:induction false} TakenWeighsLess(list: seq<HashData>, todo: seq<Hash>)
    requires Answers(list, todo)
    ensures Weight(Taken(list, todo)) <= Weight(list)
    decreases |todo|
  {
    if todo != [] {
      var i := First(list, todo[0]);
      TakenHead(list, todo);
      TakenWeighsLess(Without(list, i), todo[1..]);
      WeightWithout(list, i);
      WeightAppend([list[i]], Taken(Without(list, i), todo[1..]));
      WeightOneMore([], list[i]);
      assert [] + [list[i]] == [list[i]];
    }
  }

  /** What is asked for of a list is no heavier than the list. */
  lemma TakenHolds(list: seq<HashData>, todo: seq<Hash>, limit: int)
    requires Answers(list, todo) && CounterHolds(list, limit) && NoEmptyBlock(list)
    ensures CounterHolds(Taken(list, todo), limit) && NoEmptyBlock(Taken(list, todo))
  {
    var taken := Taken(list, todo);
    TakenWeighsLess(list, todo);
    TakenAreListed(list, todo);
    forall k | 0 <= k < |taken| ensures taken[k].data != [] && taken[k].uncmplen > 0 {
      var i := FoundAt(list, taken[k]);
    }
    if Weight(list) >= 0x8000_0000 {
      forall k | 0 <= k < |taken| ensures limit + |taken[k].data| <= 0x8000_0000 {
        var i := FoundAt(list, taken[k]);
      }
    }
  }

  lemma FoundAt(list: seq<HashData>, b: HashData) returns (i: nat)
    requires b in list
    ensures i < |list| && list[i] == b
  {
    i :| 0 <= i < |list| && list[i] == b;
  }

  lemma {:induction false} WeightReverse(list: seq<HashData>)
    ensures Weight(Reverse(list)) == Weight(list)
    decreases |list|
  {
    if list == [] {
      assert Reverse(list) == [];
    } else {
      var n := |list| - 1;
      WeightReverse(list[..n]);
      assert Reverse(list) == [list[n]] + Reverse(list[..n]);
      WeightAppend([list[n]], Reverse(list[..n]));
      WeightOneMore([], list[n]);
      assert [] + [list[n]] == [list[n]];
    }
  }

  /** The last blocks read, newest first, are no heavier than all of them. */
  lemma LastReadHolds(done: seq<HashData>, before: seq<HashData>, list: seq<HashData>, limit: int)
    requires CounterHolds(done, limit) && done == before + Reverse(list)
    ensures CounterHolds(list, limit)
  {
    WeightAppend(before, Reverse(list));
    WeightReverse(list);
    assert forall k :: 0 <= k < |list| ==> done[|before| + (|list| - 1 - k)] == list[k];
  }

  lemma FirstReadHolds(all: seq<HashData>, i: nat, limit: int)
    requires CounterHolds(all, limit) && i <= |all|
    ensures CounterHolds(all[..i], limit)
  {
    assert all == all[..i] + all[i..];
    WeightAppend(all[..i], all[i..]);
  }
}
