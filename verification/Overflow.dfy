/**
 A file that is lost without any failure: the send buffer has its greatest size, the blocks of one flush are
 two gigabytes, the counter of bytes turns negative with the last of them, and nothing is sent. The record
 goes out all the same, and the file enters the cache.
 */
module Overflow {
  import opened Blocks
  import opened BlockLists
  import opened ByteCounter
  import opened Offline
  import opened Protocol
  import opened Handlers
  import opened SavePaths
  import opened Refinement
  import Safety = ProtocolSafety

  const GREATEST_BUFFERSIZE := 0x7FFF_FFFF

  lemma {:induction false} WeightOfEqual(blocks: seq<HashData>, size: nat)
    requires forall k :: 0 <= k < |blocks| ==> |blocks[k].data| == size
    ensures Weight(blocks) == |blocks| * size
    decreases |blocks|
  {
    if blocks != [] {
      var n := |blocks| - 1;
      WeightOfEqual(blocks[..n], size);
      assert |blocks| * size == n * size + size;
    }
  }

  /** Blocks of one size that make up two gigabytes, 131072 blocks of 16384 bytes for one: none is sent. */
  lemma EqualBlocksAreDropped(blocks: seq<HashData>, size: nat)
    requires size > 1 && |blocks| * size == 0x8000_0000
    requires forall k :: 0 <= k < |blocks| ==> |blocks[k].data| == size
    ensures Requests(Group(blocks, GREATEST_BUFFERSIZE)) == []
    ensures Dropped(Group(blocks, GREATEST_BUFFERSIZE)) == blocks
  {
    var n := |blocks| - 1;
    WeightOfEqual(blocks, size);
    WeightOfEqual(blocks[..n], size);
    assert |blocks| * size == n * size + size;
    OverflowDropsAll(blocks, GREATEST_BUFFERSIZE);
  }

  lemma {:induction false} WholeListIsTaken(list: seq<HashData>)
    ensures Answers(list, Hashes(list)) && Taken(list, Hashes(list)) == list
  {
    WholeListAnswers(list);
    if list != [] {
      WholeListIsTaken(list[1..]);
      TakenHead(list, Hashes(list));
      assert Without(list, 0) == list[1..] && Hashes(list)[1..] == Hashes(list[1..]);
      assert First(list, Hashes(list)[0]) == 0;
    }
  }

  // ---------- one client, one file ----------

  function Empty(): Table<Request> {
    Table(map[], {}, 0)
  }

  function AtStart(): View {
    View(Idle, Empty(), map[], [], map[], [], 0)
  }

  /** The one flush of a file of two blocks, the newest block first. */
  function TwoBlocks(lib: Library, a: seq<byte>, b: seq<byte>): seq<HashData> {
    [NewHashData(lib, b, NoCompression), NewHashData(lib, a, NoCompression)]
  }

  /** The server answers that it needs both, and nothing is sent. */
  function NothingSent(list: seq<HashData>): AskFate {
    AskFate([0, 0], true, [], [], list)
  }

  lemma BothAreNeeded(list: seq<HashData>)
    requires |list| == 2 && list[0].hash != list[1].hash
    ensures Needed([{}, {}], Hashes(list)) == Hashes(list)
  {
    var hashes, stored: seq<set<Hash>>, none: seq<set<Hash>> := Hashes(list), [{}], [];
    NeededOneMore(none, [], {}, hashes[0]);
    NeededOneMore(stored, [hashes[0]], {}, hashes[1]);
    assert none + [{}] == stored && stored + [{}] == [{}, {}];
    assert [] + [hashes[0]] == [hashes[0]] && [hashes[0]] + [hashes[1]] == hashes;
  }

  lemma NothingIsFound()
    ensures Found(map[], [], [0, 0]) == [{}, {}]
  {
    var first: map<Hash, HashData>, none: seq<HashData> := map[], [];
    assert none[..0] == none && Filed(first, none) == first;
    var found := Found(first, none, [0, 0]);
    assert found[0] == {} && found[1] == {};
  }

  lemma FlushSendsNothing(list: seq<HashData>)
    requires |list| == 2 && list[0].hash != list[1].hash
    requires |list[0].data| == 0x4000_0000 && |list[1].data| == 0x4000_0000
    ensures var p := Progress([], 0, Empty()); AskedAndSent(map[], list, NothingSent(list), p, p)
  {
    NothingIsFound();
    BothAreNeeded(list);
    WeightOfEqual(list, 0x4000_0000);
    AllIsDropped([{}, {}], list);
    assert Lookups([0, 0], [], 0, 0);
    assert Posted([], Empty(), [], [], [], Empty());
  }

  lemma AllIsDropped(stored: seq<set<Hash>>, list: seq<HashData>)
    requires |stored| == |list| && Needed(stored, Hashes(list)) == Hashes(list) && Weight(list) == 0x8000_0000
    ensures AnswerSent(stored, list, true, [], list)
  {
    WholeListIsTaken(list);
    assert Concat<HashData>([]) + list == list;
  }

  lemma OneFlush(lib: Library, a: seq<byte>, b: seq<byte>)
    requires |a| == 0x4000_0000 && |b| == 0x4000_0000
    ensures Flushing([TwoBlocks(lib, a, b)], BlocksOf(lib, [a, b], NoCompression), GREATEST_BUFFERSIZE)
  {
    var list, blocks := TwoBlocks(lib, a, b), BlocksOf(lib, [a, b], NoCompression);
    var flushes := [list];
    assert flushes[..0] == [] && InFileOrder(flushes[..0]) == [];
    assert Reverse(list) == blocks;
    assert InFileOrder(flushes) == [] + Reverse(list);
    assert list[1..] == [NewHashData(lib, a, NoCompression)];
    assert RawWeight(list[1..]) == |a| + RawWeight(list[1..][1..]);
  }

  lemma SavedWithoutBlocks(lib: Library, key: FileKey, a: seq<byte>, b: seq<byte>)
    requires |a| == 0x4000_0000 && |b| == 0x4000_0000 && lib.sha256(a) != lib.sha256(b)
    ensures var rec := Record(0, key, HashesOf(lib, [a, b]));
      var p := Progress([], 0, Empty());
      BigFileOutcome(map[], [TwoBlocks(lib, a, b)], [NothingSent(TwoBlocks(lib, a, b))], rec, Acknowledged,
                     [], p, [rec], p)
  {
    var list, p := TwoBlocks(lib, a, b), Progress([], 0, Empty());
    FlushSendsNothing(list);
    assert FlushesDone(map[], [], [], p, p);
    FlushDone(map[], [], [], p, p, list, NothingSent(list), p);
    var none: seq<seq<HashData>>, nothing: seq<AskFate> := [], [];
    assert none + [list] == [list] && nothing + [NothingSent(list)] == [NothingSent(list)];
  }

  lemma {:induction false} RunKeepsClients(lib: Library, s: State, steps: seq<Step>, s': State)
    requires Run(lib, s, steps, s')
    ensures |s'.clients| == |s.clients|
    decreases |steps|
  {
    if steps != [] {
      RunKeepsClients(lib, Apply(lib, s, steps[0]), steps[1..], s');
    }
  }

  /** What the code leaves: a record and a cached file, but no block. */
  function Lost(lib: Library, key: FileKey, a: seq<byte>, b: seq<byte>): View {
    AtStart().(records := [Record(0, key, HashesOf(lib, [a, b]))], cache := map[key := [a, b]])
  }

  lemma LostIsReached(lib: Library, key: FileKey, a: seq<byte>, b: seq<byte>) returns (s: State)
    requires |a| == 0x4000_0000 && |b| == 0x4000_0000 && lib.sha256(a) != lib.sha256(b)
    ensures Leads(lib, Start(1), s, false) && At(s, 0, Lost(lib, key, a, b))
  {
    var v, list := AtStart(), TwoBlocks(lib, a, b);
    var rec, p := Record(0, key, HashesOf(lib, [a, b])), Progress([], 0, Empty());
    assert At(Start(1), 0, v);
    OneFlush(lib, a, b);
    SavedWithoutBlocks(lib, key, a, b);
    s := BigFileIsARun(lib, Start(1), 0, v, key, [a, b], NoCompression, GREATEST_BUFFERSIZE, Acknowledged,
                       [list], [NothingSent(list)], [rec], p);
    assert WithProgress(v, p) == v;
  }

  /**
   What the code does with such a file is a run of the machine after which the client has the file in its cache
   and the server its record, while nobody has a block of it: no post failed and nobody restarted.
   */
  lemma CachedFileIsLost(lib: Library, key: FileKey, a: seq<byte>, b: seq<byte>)
    requires |a| == 0x4000_0000 && |b| == 0x4000_0000 && lib.sha256(a) != lib.sha256(b)
    ensures exists steps: seq<Step>, s: State ::
      && Run(lib, Start(1), steps, s)
      && |s.clients| == 1 && key in s.clients[0].cache && s.clients[0].cache[key] == [a, b]
      && Safety.RecordOnServer(s.server, Record(0, key, HashesOf(lib, [a, b])))
      && forall h :: !Safety.Durable(s, h)
  {
    var s := LostIsReached(lib, key, a, b);
    var steps :| Run(lib, Start(1), steps, s);
    RunKeepsClients(lib, Start(1), steps, s);
    NothingIsDurable(s, Lost(lib, key, a, b));
    RecordIsThere(s, Lost(lib, key, a, b));
  }

  lemma RecordIsThere(s: State, v: View)
    requires At(s, 0, v) && v.records != []
    ensures Safety.RecordOnServer(s.server, v.records[0])
  {
    var sv := s.server;
    assert v.records[0] in sv.metaStore + sv.metaHand + sv.metaQueue;
  }

  lemma NothingIsDurable(s: State, v: View)
    requires At(s, 0, v) && |s.clients| == 1 && v.log == [] && v.first == map[] && v.db == Empty()
    ensures forall h :: !Safety.Durable(s, h)
  {
    assert s.server.dataHand + s.server.dataQueue == [];
    assert s.server.dataHand == [] && s.server.dataQueue == [];
  }
}
