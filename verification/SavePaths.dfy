/**
 One client saving one file to the server: the in-memory path for small files, the streaming path for
 big ones, and what each leaves on the server and in the client's database; and the pass that posts again
 what was kept there.

 Every post may be given up by the client, whether or not the server handled it: what becomes of the k-th post
 of a client is fixed from outside, for any k and any choice. The server stores blocks meanwhile.
 */
module SavePaths {
  import opened Blocks
  import opened BlockLists
  import opened ByteCounter
  import opened Numbers
  import opened Offline
  import opened Protocol
  import opened Handlers

  /** How a post ended for the client. */
  datatype Fate = Acknowledged | GivenUp(handled: bool) {
    /** The server handled the request. */
    predicate Arrived() {
      Acknowledged? || handled
    }
  }

  /** What becomes of n posts, from the p-th on. */
  function Fates(fateOf: nat -> Fate, p: nat, n: nat): (r: seq<Fate>)
    ensures |r| == n && forall k :: 0 <= k < n ==> r[k] == fateOf(p + k)
  {
    seq(n, k requires 0 <= k < n => fateOf(p + k))
  }

  lemma OneMoreFateOf(fateOf: nat -> Fate, p: nat, n: nat)
    ensures Fates(fateOf, p, n + 1) == Fates(fateOf, p, n) + [fateOf(p + n)]
  {
  }

  ghost predicate AllAnswered(fateOf: nat -> Fate, p: nat, q: nat) {
    forall k :: p <= k < q ==> fateOf(k).Acknowledged?
  }

  // ---------- what a list of posts leaves behind ----------

  /** The log of the blocks queued, after these posts. */
  function LogAfter(log: seq<HashData>, batches: seq<seq<HashData>>, fates: seq<Fate>): seq<HashData>
    requires |fates| == |batches|
    decreases |batches|
  {
    if batches == [] then log
    else
      var n := |batches| - 1;
      var before := LogAfter(log, batches[..n], fates[..n]);
      if fates[n].Arrived() then before + batches[n] else before
  }

  function TableAfter(table: Table<Request>, batches: seq<seq<HashData>>, fates: seq<Fate>): Table<Request>
    requires |fates| == |batches|
    decreases |batches|
  {
    if batches == [] then table
    else
      var n := |batches| - 1;
      var before := TableAfter(table, batches[..n], fates[..n]);
      if fates[n].Acknowledged? then before else before.Save(DataPost(batches[n]))
  }

  /** The posts, in order, took the log and the table from their first to their last value. */
  ghost predicate Posted(log: seq<HashData>, table: Table<Request>, batches: seq<seq<HashData>>, fates: seq<Fate>,
                         log': seq<HashData>, table': Table<Request>)
  {
    && |fates| == |batches|
    && log' == LogAfter(log, batches, fates)
    && table' == TableAfter(table, batches, fates)
  }

  lemma PostedOneMore(log: seq<HashData>, table: Table<Request>, batches: seq<seq<HashData>>, fates: seq<Fate>,
                      l: seq<HashData>, t: Table<Request>, batch: seq<HashData>, fate: Fate)
    requires Posted(log, table, batches, fates, l, t)
    ensures Posted(log, table, batches + [batch], fates + [fate],
                   l + (if fate.Arrived() then batch else []),
                   if fate.Acknowledged? then t else t.Save(DataPost(batch)))
  {
    var n := |batches|;
    assert (batches + [batch])[..n] == batches && (fates + [fate])[..n] == fates;
  }

  // ---------- the client ----------

  /** Where a save stands: the log of the server, how much of it is stored, and the table of the client. */
  datatype Progress = Progress(log: seq<HashData>, filed: nat, table: Table<Request>)

  /**
   What became of a question: when each hash was looked up, whether the answer arrived, the posts it led to,
   and the blocks that went nowhere because the counter of bytes had overflowed.
   */
  datatype AskFate = AskFate(looks: seq<nat>, answered: bool, batches: seq<seq<HashData>>, fates: seq<Fate>,
                             dropped: seq<HashData>)

  /** The hashes a client works from: those the server needs, or all of them if it did not answer. */
  function Asked(stored: seq<set<Hash>>, list: seq<HashData>, answered: bool): seq<Hash>
    requires |stored| == |list|
  {
    if answered then Needed(stored, Hashes(list)) else Hashes(list)
  }

  /** The batches carry the blocks of the list that are asked for, but for those that are dropped. */
  ghost predicate AnswerSent(stored: seq<set<Hash>>, list: seq<HashData>, answered: bool,
                             batches: seq<seq<HashData>>, dropped: seq<HashData>)
    requires |stored| == |list|
  {
    var asked := Asked(stored, list, answered);
    Answers(list, asked) && Concat(batches) + dropped == Taken(list, asked) && NoneEmpty(batches)
    && Counter(dropped) <= 0
  }

  ghost predicate NoneEmpty(batches: seq<seq<HashData>>) {
    forall k :: 0 <= k < |batches| ==> batches[k] != []
  }

  ghost predicate Singles(batches: seq<seq<HashData>>) {
    forall k :: 0 <= k < |batches| ==> |batches[k]| == 1
  }

  /** The requests are cut as the counter says. */
  ghost predicate Cut(o: AskFate, taken: seq<HashData>, limit: int) {
    o.batches == Requests(Group(taken, limit)) && o.dropped == Dropped(Group(taken, limit))
  }

  /** One request to a block. */
  ghost predicate OneByOne(o: AskFate, taken: seq<HashData>) {
    Singles(o.batches) && o.dropped == [] && Concat(o.batches) == taken
  }

  /** However the blocks are grouped, what answers a question was sent, but for what is dropped. */
  lemma AnswerIsSent(first: map<Hash, HashData>, list: seq<HashData>, asked: seq<Hash>, o: AskFate, a: Progress,
                     b: Progress, limit: int)
    requires |o.looks| == |list| && Lookups(o.looks, a.log, a.filed, b.filed) && b.filed <= |b.log|
    requires asked == Asked(Found(first, a.log, o.looks), list, o.answered) && Answers(list, asked)
    requires OneByOne(o, Taken(list, asked)) || Cut(o, Taken(list, asked), limit)
    requires Posted(a.log, a.table, o.batches, o.fates, b.log, b.table) && a.table.IdsUsed()
    ensures AskedAndSent(first, list, o, a, b) && b.table.IdsUsed()
    ensures Concat(o.batches) + o.dropped == Taken(list, asked)
  {
    RowsStay(a.table, o.batches, o.fates);
    var taken := Taken(list, asked);
    if OneByOne(o, taken) {
      assert Concat(o.batches) + [] == taken;
    } else {
      RequestsAndRest(taken, limit);
      RequestsNotEmpty(taken, limit);
    }
  }

  /** The server was asked about a list of blocks, and those it needs were posted. */
  ghost predicate AskedAndSent(first: map<Hash, HashData>, list: seq<HashData>, o: AskFate, a: Progress, b: Progress) {
    && |o.looks| == |list| && Lookups(o.looks, a.log, a.filed, b.filed) && b.filed <= |b.log|
    && AnswerSent(Found(first, a.log, o.looks), list, o.answered, o.batches, o.dropped)
    && Posted(a.log, a.table, o.batches, o.fates, b.log, b.table)
  }

  /** The question was the p-th post of the client, and the posts it led to came next. */
  ghost predicate Follows(o: AskFate, fateOf: nat -> Fate, p: nat) {
    o.answered == fateOf(p).Acknowledged? && o.fates == Fates(fateOf, p + 1, |o.fates|)
  }

  lemma NextFollow(o: AskFate, fateOf: nat -> Fate, p: nat, q: nat)
    requires q == p + 1 && o.answered == fateOf(p).Acknowledged? && o.fates == Fates(fateOf, q, |o.fates|)
    ensures Follows(o, fateOf, p)
  {
  }

  /** And they were cut as the counter says. */
  ghost predicate WellCut(o: AskFate, limit: int) {
    Cut(o, Concat(o.batches) + o.dropped, limit)
  }

  /** A file shorter than a block is sent one block to a request, any other as the counter says. */
  ghost predicate SentAs(o: AskFate, oneBlock: bool, limit: int) {
    if oneBlock then Singles(o.batches) && o.dropped == [] else WellCut(o, limit)
  }

  /** How many posts a list of flushes took. */
  function PostsOf(outcomes: seq<AskFate>): nat {
    if outcomes == [] then 0 else PostsOf(outcomes[..|outcomes| - 1]) + 1 + |outcomes[|outcomes| - 1].fates|
  }

  /** They were the posts of the client from the p-th on. */
  ghost predicate AllFollow(outcomes: seq<AskFate>, fateOf: nat -> Fate, p: nat, limit: int) {
    outcomes != [] ==>
      var before, last := outcomes[..|outcomes| - 1], outcomes[|outcomes| - 1];
      && AllFollow(before, fateOf, p, limit)
      && Follows(last, fateOf, p + PostsOf(before)) && WellCut(last, limit)
  }

  lemma OneMoreFollows(outcomes: seq<AskFate>, o: AskFate, fateOf: nat -> Fate, p: nat, q: nat, limit: int)
    requires AllFollow(outcomes, fateOf, p, limit) && q == p + PostsOf(outcomes)
    requires Follows(o, fateOf, q) && WellCut(o, limit)
    ensures AllFollow(outcomes + [o], fateOf, p, limit)
    ensures PostsOf(outcomes + [o]) == PostsOf(outcomes) + 1 + |o.fates|
  {
    assert (outcomes + [o])[..|outcomes|] == outcomes;
  }

  /** What saving a small file may leave: its record posted, then the blocks asked for, each post with its fate. */
  ghost predicate SmallFileOutcome(first: map<Hash, HashData>, list: seq<HashData>, rec: Record, fate: Fate,
                                   o: AskFate, metaQueue: seq<Record>, a: Progress,
                                   metaQueue': seq<Record>, b: Progress)
  {
    && metaQueue' == metaQueue + (if fate.Arrived() then [rec] else [])
    && o.answered == fate.Acknowledged?
    && AskedAndSent(first, list, o, MetaSaved(a, rec, false, fate), b)
  }

  /** A record given up is saved in a row. */
  function MetaSaved(a: Progress, rec: Record, dataSent: bool, fate: Fate): Progress {
    if fate.Acknowledged? then a else a.(table := a.table.Save(MetaPost(rec, dataSent)))
  }

  /** All that was dropped while the flushes were handed over. */
  function DroppedOf(outcomes: seq<AskFate>): seq<HashData> {
    if outcomes == [] then [] else DroppedOf(outcomes[..|outcomes| - 1]) + outcomes[|outcomes| - 1].dropped
  }

  /** Each flush was asked about and posted, one after the other. */
  ghost predicate FlushesDone(first: map<Hash, HashData>, flushes: seq<seq<HashData>>, outcomes: seq<AskFate>,
                              a: Progress, b: Progress)
    decreases |flushes|
  {
    && |outcomes| == |flushes|
    && if flushes == [] then b == a
       else
         var n := |flushes| - 1;
         exists m :: FlushesDone(first, flushes[..n], outcomes[..n], a, m)
                     && AskedAndSent(first, flushes[n], outcomes[n], m, b)
  }

  lemma FlushDone(first: map<Hash, HashData>, flushes: seq<seq<HashData>>, outcomes: seq<AskFate>,
                  a: Progress, m: Progress, list: seq<HashData>, o: AskFate, b: Progress)
    requires FlushesDone(first, flushes, outcomes, a, m) && AskedAndSent(first, list, o, m, b)
    ensures FlushesDone(first, flushes + [list], outcomes + [o], a, b)
    ensures DroppedOf(outcomes + [o]) == DroppedOf(outcomes) + o.dropped
  {
    var n, flushes', outcomes' := |flushes|, flushes + [list], outcomes + [o];
    assert flushes'[..n] == flushes && outcomes'[..n] == outcomes;
    assert FlushesDone(first, flushes'[..n], outcomes'[..n], a, m);
    assert AskedAndSent(first, flushes'[n], outcomes'[n], m, b);
  }

  /** All that matters of a client and the server here. */
  datatype Point = Point(queue: seq<Record>, at: Progress, posts: nat)

  /** A list of blocks was flushed: asked about, and posted as the client's next posts. */
  ghost predicate Flushed(first: map<Hash, HashData>, list: seq<HashData>, o: AskFate, fateOf: nat -> Fate, limit: int,
                          x: Point, y: Point)
  {
    && AskedAndSent(first, list, o, x.at, y.at) && Follows(o, fateOf, x.posts) && WellCut(o, limit)
    && y.posts == x.posts + 1 + |o.fates| && y.queue == x.queue
  }

  lemma AskedIsFlushed(first: map<Hash, HashData>, list: seq<HashData>, asked: seq<Hash>, o: AskFate,
                       fateOf: nat -> Fate, limit: int, x: Point, q: nat, y: Point)
    requires q == x.posts + 1 && o.answered == fateOf(x.posts).Acknowledged?
    requires o.fates == Fates(fateOf, q, |o.fates|) && y.posts == q + |o.fates| && y.queue == x.queue
    requires |o.looks| == |list| && Lookups(o.looks, x.at.log, x.at.filed, y.at.filed) && y.at.filed <= |y.at.log|
    requires asked == Asked(Found(first, x.at.log, o.looks), list, o.answered) && Answers(list, asked)
    requires Cut(o, Taken(list, asked), limit) && x.at.table.IdsUsed()
    requires Posted(x.at.log, x.at.table, o.batches, o.fates, y.at.log, y.at.table)
    ensures Flushed(first, list, o, fateOf, limit, x, y) && y.at.table.IdsUsed()
  {
    AnswerIsSent(first, list, asked, o, x.at, y.at, limit);
  }

  /** So was a list of lists. */
  ghost predicate AllFlushedSince(first: map<Hash, HashData>, flushes: seq<seq<HashData>>, outcomes: seq<AskFate>,
                                  fateOf: nat -> Fate, limit: int, x: Point, y: Point)
  {
    && FlushesDone(first, flushes, outcomes, x.at, y.at) && AllFollow(outcomes, fateOf, x.posts, limit)
    && y.posts == x.posts + PostsOf(outcomes) && y.queue == x.queue
  }

  lemma OneMoreFlushed(first: map<Hash, HashData>, flushes: seq<seq<HashData>>, outcomes: seq<AskFate>,
                       fateOf: nat -> Fate, limit: int, x: Point, y: Point, list: seq<HashData>, o: AskFate, z: Point)
    requires AllFlushedSince(first, flushes, outcomes, fateOf, limit, x, y)
    requires Flushed(first, list, o, fateOf, limit, y, z)
    ensures AllFlushedSince(first, flushes + [list], outcomes + [o], fateOf, limit, x, z)
  {
    FlushDone(first, flushes, outcomes, x.at, y.at, list, o, z.at);
    OneMoreFollows(outcomes, o, fateOf, x.posts, y.posts, limit);
  }

  /** What saving a big file may leave: its blocks posted flush by flush, then its record. */
  ghost predicate BigFileOutcome(first: map<Hash, HashData>, flushes: seq<seq<HashData>>, outcomes: seq<AskFate>,
                                 rec: Record, fate: Fate, metaQueue: seq<Record>, a: Progress,
                                 metaQueue': seq<Record>, b: Progress)
  {
    && metaQueue' == metaQueue + (if fate.Arrived() then [rec] else [])
    && exists m :: FlushesDone(first, flushes, outcomes, a, m)
                   && b == MetaSaved(m, rec, true, fate).(filed := b.filed) && m.filed <= b.filed <= |b.log|
  }

  /** How a file was saved. */
  datatype Way =
    | Skipped
    | InMemory(fate: Fate, o: AskFate)
    | Streamed(fate: Fate, flushes: seq<seq<HashData>>, outcomes: seq<AskFate>) {

    /** The blocks that went nowhere because the counter of bytes had overflowed. */
    ghost function Dropped(): seq<HashData> {
      match this
      case Skipped => []
      case InMemory(_, o) => o.dropped
      case Streamed(_, _, outcomes) => DroppedOf(outcomes)
    }
  }

  /** A file of these blocks was saved in this way, and its posts had the fates they were to have. */
  ghost predicate Took(way: Way, first: map<Hash, HashData>, list: seq<HashData>, rec: Record, fateOf: nat -> Fate,
                       limit: int, x: Point, y: Point)
  {
    match way
    case Skipped => y == x
    case InMemory(fate, o) =>
      && SmallFileOutcome(first, list, rec, fate, o, x.queue, x.at, y.queue, y.at)
      && fate == fateOf(x.posts) && Follows(o, fateOf, x.posts) && y.posts == x.posts + 1 + |o.fates|
    case Streamed(fate, flushes, outcomes) =>
      && BigFileOutcome(first, flushes, outcomes, rec, fate, x.queue, x.at, y.queue, y.at)
      && Flushing(flushes, list, limit) && AllFollow(outcomes, fateOf, x.posts, limit)
      && y.posts == x.posts + PostsOf(outcomes) + 1 && fate == fateOf(y.posts - 1)
  }

  /** The record posted, then the blocks sent. */
  lemma SmallIsTaken(fate: Fate, o: AskFate, first: map<Hash, HashData>, list: seq<HashData>, rec: Record,
                     fateOf: nat -> Fate, limit: int, x: Point, y: Point, z: Point)
    requires fate == fateOf(x.posts) && y.posts == x.posts + 1
    requires y.queue == x.queue + if fate.Arrived() then [rec] else []
    requires o.answered == fate.Acknowledged? && AskedAndSent(first, list, o, MetaSaved(x.at, rec, false, fate), z.at)
    requires o.fates == Fates(fateOf, y.posts, |o.fates|) && z.posts == y.posts + |o.fates| && z.queue == y.queue
    ensures Took(InMemory(fate, o), first, list, rec, fateOf, limit, x, z)
  {
    NextFollow(o, fateOf, x.posts, y.posts);
  }

  /** All blocks flushed, then the record posted. */
  lemma StreamIsTaken(fate: Fate, flushes: seq<seq<HashData>>, outcomes: seq<AskFate>, first: map<Hash, HashData>,
                      list: seq<HashData>, rec: Record, fateOf: nat -> Fate, limit: int, x: Point, y: Point, z: Point)
    requires AllFlushedSince(first, flushes, outcomes, fateOf, limit, x, y) && Flushing(flushes, list, limit)
    requires fate == fateOf(y.posts) && z.posts == y.posts + 1
    requires z.queue == y.queue + if fate.Arrived() then [rec] else []
    requires z.at == MetaSaved(y.at, rec, true, fate).(filed := z.at.filed) && y.at.filed <= z.at.filed <= |z.at.log|
    ensures Took(Streamed(fate, flushes, outcomes), first, list, rec, fateOf, limit, x, z)
  {
  }

  const CLIENT_SMALL_FILE_SIZE := 134217728

  /** main_struct_t of a client. What becomes of its posts is `fateOf`; `posts` says how many it has made. */
  class Client {
    const lib: Library
    const host: nat
    const db: Database<Request>
    const fateOf: nat -> Fate
    const cmptype: Compression
    var posts: nat
    var buffersize: int

    constructor (lib: Library, host: nat, fateOf: nat -> Fate, buffersize: int, cmptype: Compression)
      ensures this.lib == lib && this.host == host && this.fateOf == fateOf && posts == 0
      ensures this.buffersize == buffersize && this.cmptype == cmptype
      ensures fresh(db) && db.Model() == Table(map[], {}, 0) && db.Cached() == {}
    {
      this.lib, this.host, this.fateOf, this.buffersize, this.cmptype := lib, host, fateOf, buffersize, cmptype;
      posts := 0;
      db := new Database();
    }

    /** post_url, as far as the client is concerned. */
    method Post() returns (fate: Fate)
      modifies this`posts
      ensures fate == fateOf(old(posts)) && posts == old(posts) + 1
    {
      fate := fateOf(posts);
      posts := posts + 1;
    }

    /** These were the last posts of the client. */
    ghost predicate Latest(fates: seq<Fate>)
      reads this
    {
      |fates| <= posts && fates == Fates(fateOf, posts - |fates|, |fates|)
    }

    /** Where this client and the server stand. */
    ghost function Now(server: ServerStruct): Progress
      reads server, db
    {
      Progress(server.log, server.filed, db.Model())
    }

    /** Where this client and the server stand, with the records queued and the posts made. */
    ghost function Where(server: ServerStruct): Point
      reads this, server, db
    {
      Point(server.metaQueue, Now(server), posts)
    }

    /** insert_array_in_root_and_send, and the post in send_data_to_server. */
    method SendBlocks(server: ServerStruct, batch: seq<HashData>) returns (fate: Fate)
      requires server.Valid()
      modifies this`posts, server`dataQueue, server`log, db`buffers, db`last
      ensures fate == fateOf(old(posts)) && posts == old(posts) + 1
      ensures server.Valid() && server.log == old(server.log) + if fate.Arrived() then batch else []
      ensures db.Model() == if fate.Acknowledged? then old(db.Model()) else old(db.Model()).Save(DataPost(batch))
    {
      fate := Post();
      if fate.Arrived() {
        server.AnswerDataPost(batch);
      }
      if fate.GivenUp? {
        db.SaveBuffer(DataPost(batch));
      }
    }

    /** SendBlocks as one more of a list of posts. */
    method SendOneMore(server: ServerStruct, batches: seq<seq<HashData>>, fates: seq<Fate>, batch: seq<HashData>,
                       ghost log: seq<HashData>, ghost table: Table<Request>)
        returns (batches': seq<seq<HashData>>, fates': seq<Fate>)
      requires server.Valid() && Posted(log, table, batches, fates, server.log, db.Model()) && Latest(fates)
      modifies this`posts, server`dataQueue, server`log, db`buffers, db`last
      ensures batches' == batches + [batch] && Concat(batches') == Concat(batches) + batch
      ensures server.Valid() && Posted(log, table, batches', fates', server.log, db.Model())
      ensures Latest(fates') && posts - |fates'| == old(posts) - |fates|
    {
      ghost var l, t := server.log, db.Model();
      var fate := SendBlocks(server, batch);
      PostedOneMore(log, table, batches, fates, l, t, batch, fate);
      OneMoreFateOf(fateOf, posts - 1 - |fates|, |fates|);
      ConcatOneMore(batches, batch);
      batches', fates' := batches + [batch], fates + [fate];
    }

    /** find_hash_in_list; the position of the element, |list| for NULL. */
    method FindHashInList(list: seq<HashData>, hash: Hash) returns (i: nat)
      ensures i == First(list, hash)
    {
      i := 0;
      while i < |list| && list[i].hash != hash
        invariant 0 <= i <= |list|
        invariant First(list, hash) == i + First(list[i..], hash)
      {
        assert list[i..][1..] == list[i + 1..];
        i := i + 1;
      }
    }

    /** In the loop of send_all_data_to_server: a request is sent as soon as it reaches the limit. */
    method SendIfFull(server: ServerStruct, batches: seq<seq<HashData>>, fates: seq<Fate>, batch: seq<HashData>,
                      bytes: int, limit: int, ghost log: seq<HashData>, ghost table: Table<Request>)
        returns (batches': seq<seq<HashData>>, fates': seq<Fate>, batch': seq<HashData>, bytes': int)
      requires server.Valid() && Posted(log, table, batches, fates, server.log, db.Model()) && Latest(fates)
      modifies this`posts, server`dataQueue, server`log, db`buffers, db`last
      ensures server.Valid() && Posted(log, table, batches', fates', server.log, db.Model())
      ensures Latest(fates') && posts - |fates'| == old(posts) - |fates|
      ensures Grouping(batches', batch', bytes') == Close(Grouping(batches, batch, bytes), limit)
    {
      batches', fates', batch', bytes' := batches, fates, batch, bytes;
      if bytes >= limit {
        batches', fates' := SendOneMore(server, batches, fates, batch, log, table);
        batch', bytes' := [], 0;
      }
    }

    /** One turn of that loop: the next block asked for joins the request under way, and is counted. */
    method SendNext(server: ServerStruct, left: seq<HashData>, todo: seq<Hash>, batches: seq<seq<HashData>>,
                    fates: seq<Fate>, batch: seq<HashData>, bytes: int, limit: int, ghost all: seq<HashData>,
                    ghost rest: seq<HashData>, ghost done: seq<HashData>, ghost log: seq<HashData>,
                    ghost table: Table<Request>)
        returns (left': seq<HashData>, batches': seq<seq<HashData>>, fates': seq<Fate>,
                 batch': seq<HashData>, bytes': int, ghost done': seq<HashData>)
      requires todo != [] && Consuming(all, rest, left, todo, done)
      requires Group(done, limit) == Grouping(batches, batch, bytes)
      requires server.Valid() && Posted(log, table, batches, fates, server.log, db.Model()) && Latest(fates)
      modifies this`posts, server`dataQueue, server`log, db`buffers, db`last
      ensures Consuming(all, rest, left', todo[1..], done')
      ensures Group(done', limit) == Grouping(batches', batch', bytes')
      ensures server.Valid() && Posted(log, table, batches', fates', server.log, db.Model())
      ensures Latest(fates') && posts - |fates'| == old(posts) - |fates|
    {
      var iter := FindHashInList(left, todo[0]);
      NextIsGrouped(all, rest, left, todo, done, batches, batch, bytes, limit);
      var found := left[iter];
      left' := Without(left, iter);
      done' := done + [found];
      batches', fates', batch', bytes' :=
        SendIfFull(server, batches, fates, batch + [found], ToInt(bytes + |found.data|), limit, log, table);
    }

    /** That loop, to its end. */
    method SendInLoop(server: ServerStruct, hashDataList: seq<HashData>, needed: seq<Hash>)
        returns (left: seq<HashData>, batches: seq<seq<HashData>>, fates: seq<Fate>, batch: seq<HashData>, bytes: int)
      requires server.Valid() && Answers(hashDataList, needed)
      modifies this`posts, server`dataQueue, server`log, db`buffers, db`last
      ensures left == Left(hashDataList, needed)
      ensures Group(Taken(hashDataList, needed), buffersize) == Grouping(batches, batch, bytes)
      ensures server.Valid() && Posted(old(server.log), old(db.Model()), batches, fates, server.log, db.Model())
      ensures Latest(fates) && posts == old(posts) + |fates|
    {
      ghost var log, table := server.log, db.Model();
      ghost var all, rest := Taken(hashDataList, needed), Left(hashDataList, needed);
      var limit, todo := buffersize, needed;
      ghost var done: seq<HashData> := [];
      left, batches, fates, batch, bytes := hashDataList, [], [], [], 0;
      while todo != []
        invariant Consuming(all, rest, left, todo, done)
        invariant Group(done, limit) == Grouping(batches, batch, bytes)
        invariant server.Valid() && Posted(log, table, batches, fates, server.log, db.Model())
        invariant Latest(fates) && posts == old(posts) + |fates|
        decreases |todo|
      {
        left, batches, fates, batch, bytes, done :=
          SendNext(server, left, todo, batches, fates, batch, bytes, limit, all, rest, done, log, table);
        todo := todo[1..];
      }
      AllConsumed(all, rest, left, done);
    }

    /** After it: what is left goes out if the counter is positive. */
    method SendLast(server: ServerStruct, batches: seq<seq<HashData>>, fates: seq<Fate>, batch: seq<HashData>,
                    bytes: int, ghost log: seq<HashData>, ghost table: Table<Request>)
        returns (batches': seq<seq<HashData>>, fates': seq<Fate>)
      requires server.Valid() && Posted(log, table, batches, fates, server.log, db.Model()) && Latest(fates)
      modifies this`posts, server`dataQueue, server`log, db`buffers, db`last
      ensures server.Valid() && Posted(log, table, batches', fates', server.log, db.Model())
      ensures Latest(fates') && posts - |fates'| == old(posts) - |fates|
      ensures batches' == Requests(Grouping(batches, batch, bytes))
    {
      batches', fates' := batches, fates;
      if bytes > 0 {
        batches', fates' := SendOneMore(server, batches, fates, batch, log, table);
      }
    }

    /**
     send_all_data_to_server, on a decoded answer: the requests are cut as the counter of 32 bits says, and what
     is left goes out only if that is positive in the end.
     */
    method SendAllData(server: ServerStruct, hashDataList: seq<HashData>, needed: seq<Hash>)
        returns (left: seq<HashData>, batches: seq<seq<HashData>>, fates: seq<Fate>, ghost dropped: seq<HashData>)
      requires server.Valid() && Answers(hashDataList, needed)
      modifies this`posts, server`dataQueue, server`log, db`buffers, db`last
      ensures left == Left(hashDataList, needed)
      ensures batches == Requests(Group(Taken(hashDataList, needed), buffersize))
      ensures dropped == Dropped(Group(Taken(hashDataList, needed), buffersize))
      ensures NoEmptyBlock(hashDataList) && CounterHolds(hashDataList, buffersize) ==>
        dropped == [] && Batching(batches, Taken(hashDataList, needed), buffersize)
      ensures server.Valid() && Posted(old(server.log), old(db.Model()), batches, fates, server.log, db.Model())
      ensures fates == Fates(fateOf, old(posts), |batches|) && posts == old(posts) + |batches|
    {
      var batch, bytes;
      left, batches, fates, batch, bytes := SendInLoop(server, hashDataList, needed);
      batches, fates := SendLast(server, batches, fates, batch, bytes, old(server.log), old(db.Model()));
      dropped := Dropped(Group(Taken(hashDataList, needed), buffersize));
      AllAskedIsSent(hashDataList, needed, buffersize);
    }

    /** send_data_to_server: the same, one block to a request. */
    method SendData(server: ServerStruct, hashDataList: seq<HashData>, needed: seq<Hash>)
        returns (left: seq<HashData>, batches: seq<seq<HashData>>, fates: seq<Fate>)
      requires server.Valid() && Answers(hashDataList, needed)
      modifies this`posts, server`dataQueue, server`log, db`buffers, db`last
      ensures left == Left(hashDataList, needed)
      ensures Concat(batches) == Taken(hashDataList, needed) && Singles(batches)
      ensures server.Valid() && Posted(old(server.log), old(db.Model()), batches, fates, server.log, db.Model())
      ensures fates == Fates(fateOf, old(posts), |batches|) && posts == old(posts) + |batches|
    {
      ghost var log, table := server.log, db.Model();
      ghost var all, rest := Taken(hashDataList, needed), Left(hashDataList, needed);
      var todo := needed;
      left, batches, fates := hashDataList, [], [];
      while todo != []
        invariant Consuming(all, rest, left, todo, Concat(batches))
        invariant Singles(batches)
        invariant server.Valid() && Posted(log, table, batches, fates, server.log, db.Model())
        invariant Latest(fates) && posts == old(posts) + |fates|
        decreases |todo|
      {
        var iter := FindHashInList(left, todo[0]);
        var found := left[iter];
        LookedUp(all, rest, left, todo, Concat(batches));
        batches, fates := SendOneMore(server, batches, fates, [found], log, table);
        left, todo := Without(left, iter), todo[1..];
      }
    }

    /** calculate_hash_data_list_for_file: `chunks` is what each read returns until the end of the file. */
    method CalculateHashDataList(chunks: seq<seq<byte>>) returns (list: seq<HashData>)
      ensures list == BlocksOf(lib, chunks, cmptype)
    {
      list := [];
      var i := 0;
      while i < |chunks|
        invariant 0 <= i <= |chunks|
        invariant |list| == i && forall k :: 0 <= k < i ==> list[k] == NewHashData(lib, chunks[i - 1 - k], cmptype)
      {
        list := [NewHashData(lib, chunks[i], cmptype)] + list;
        i := i + 1;
      }
      list := Reverse(list);
    }

    /** send_meta_data_to_server; a post given up is kept in the database and answered by the whole list. */
    method SendMetaData(server: ServerStruct, key: FileKey, hashes: seq<Hash>, dataSent: bool)
        returns (answer: seq<Hash>, fate: Fate, ghost looks: seq<nat>)
      requires server.Valid()
      modifies this`posts, server`metaQueue, server`dataQueue, server`filed
      modifies server.backend`files, server.backend`blocks, db`buffers, db`last
      ensures fate == fateOf(old(posts)) && posts == old(posts) + 1
      ensures server.Valid() && Lookups(looks, server.log, old(server.filed), server.filed)
      ensures var rec := Record(host, key, hashes);
        && server.metaQueue == old(server.metaQueue) + (if fate.Arrived() then [rec] else [])
        && Now(server) == MetaSaved(old(Now(server)), rec, dataSent, fate).(filed := server.filed)
      ensures |looks| == if dataSent then 0 else |hashes|
      ensures fate.GivenUp? ==> answer == hashes
      ensures fate.Acknowledged? ==>
        Replies(server.first, server.log, looks, if dataSent then [] else hashes, answer)
    {
      var rec := Record(host, key, hashes);
      fate := Post();
      answer := hashes;
      ghost var filed := server.filed;
      looks := seq(if dataSent then 0 else |hashes|, _ => filed);
      if fate.Arrived() {
        var needed;
        needed, looks := server.AnswerMetaPost(rec, dataSent);
        answer := if fate.Acknowledged? then needed else hashes;
      }
      if fate.GivenUp? {
        db.SaveBuffer(MetaPost(rec, dataSent));
      }
    }

    /** In process_small_file_not_in_cache, once the record was posted: a file of one block, or of several. */
    method SendSmallFile(server: ServerStruct, list: seq<HashData>, asked: seq<Hash>, oneBlock: bool,
                         ghost looks: seq<nat>, ghost answered: bool, ghost a: Progress)
        returns (ghost o: AskFate)
      requires server.Valid() && db.Model().IdsUsed()
      requires a == Now(server).(filed := a.filed) && |looks| == |list|
      requires Lookups(looks, a.log, a.filed, server.filed)
      requires asked == Asked(Found(server.first, a.log, looks), list, answered)
      modifies this`posts, server`dataQueue, server`log, db`buffers, db`last
      ensures server.Valid() && db.Model().IdsUsed()
      ensures o.fates == Fates(fateOf, old(posts), |o.fates|) && posts == old(posts) + |o.fates|
      ensures o.answered == answered && AskedAndSent(server.first, list, o, a, Now(server))
      ensures SentAs(o, oneBlock, buffersize)
    {
      BothAnswersAreFound(Found(server.first, a.log, looks), list);
      var left, batches, fates;
      ghost var dropped := [];
      if oneBlock {
        left, batches, fates := SendData(server, list, asked);
      } else {
        left, batches, fates, dropped := SendAllData(server, list, asked);
      }
      o := AskFate(looks, answered, batches, fates, dropped);
      AnswerIsSent(server.first, list, asked, o, a, Now(server), buffersize);
    }

    /** The steps of process_small_file_not_in_cache. */
    method PostAndSend(server: ServerStruct, key: FileKey, oneBlock: bool, chunks: seq<seq<byte>>)
        returns (fate: Fate, ghost o: AskFate)
      requires server.Valid() && db.Model().IdsUsed()
      modifies this`posts, server`metaQueue, server`dataQueue, server`log, server`filed
      modifies server.backend`files, server.backend`blocks, db
      ensures server.Valid() && db.Model().IdsUsed() && db.Cached() == old(db.Cached()) + {key}
      ensures Took(InMemory(fate, o), server.first, BlocksOf(lib, chunks, cmptype),
                   Record(host, key, HashesOf(lib, chunks)), fateOf, buffersize, old(Where(server)), Where(server))
      ensures SentAs(o, oneBlock, buffersize)
    {
      var list := CalculateHashDataList(chunks);
      var answer;
      ghost var looks, x := [], Where(server);
      answer, fate, looks := SendMetaData(server, key, Hashes(list), false);
      ghost var a, y := MetaSaved(x.at, Record(host, key, Hashes(list)), false, fate), Where(server);
      o := SendSmallFile(server, list, answer, oneBlock, looks, fate.Acknowledged?, a);
      db.SaveMetaData(key);
      SmallIsTaken(fate, o, server.first, list, Record(host, key, Hashes(list)), fateOf, buffersize, x, y,
                   Where(server));
    }

    /** process_small_file_not_in_cache */
    method ProcessSmallFile(server: ServerStruct, key: FileKey, size: nat, blocksize: nat, chunks: seq<seq<byte>>)
        returns (fate: Fate, ghost o: AskFate)
      requires ZlibSound(lib) && forall k :: 0 <= k < |chunks| ==> |chunks[k]| > 0
      requires server.Valid() && db.Model().IdsUsed()
      modifies this`posts, server`metaQueue, server`dataQueue, server`log, server`filed
      modifies server.backend`files, server.backend`blocks, db
      ensures server.Valid() && db.Model().IdsUsed() && db.Cached() == old(db.Cached()) + {key}
      ensures Took(InMemory(fate, o), server.first, BlocksOf(lib, chunks, cmptype),
                   Record(host, key, HashesOf(lib, chunks)), fateOf, buffersize, old(Where(server)), Where(server))
      ensures SentAs(o, size < blocksize, buffersize)
      ensures CounterHolds(BlocksOf(lib, chunks, cmptype), buffersize) ==> o.dropped == []
      ensures AllKeptBut(server.first, server.log, db.Model(), HashesOf(lib, chunks), o.dropped)
    {
      fate, o := PostAndSend(server, key, size < blocksize, chunks);
      ghost var list, rec := BlocksOf(lib, chunks, cmptype), Record(host, key, HashesOf(lib, chunks));
      BlocksAreNotEmpty(lib, chunks, cmptype);
      if size >= blocksize && CounterHolds(list, buffersize) {
        FlushDropsNothing(server.first, list, o, buffersize, MetaSaved(old(Now(server)), rec, false, fate),
                          Now(server));
      }
      WayKeeps(InMemory(fate, o), server.first, list, rec, fateOf, buffersize, old(Where(server)), Where(server));
    }

    /** send_hash_array_to_server: a post given up is answered by the whole list. */
    method SendHashArray(server: ServerStruct, list: seq<HashData>)
        returns (answer: seq<Hash>, answered: bool, ghost looks: seq<nat>)
      requires server.Valid()
      modifies this`posts, server`dataQueue, server`filed, server.backend`files, server.backend`blocks
      ensures answered == fateOf(old(posts)).Acknowledged? && posts == old(posts) + 1
      ensures server.Valid() && Lookups(looks, server.log, old(server.filed), server.filed) && |looks| == |list|
      ensures answer == Asked(Found(server.first, server.log, looks), list, answered)
    {
      var fate := Post();
      answered, answer := fate.Acknowledged?, Hashes(list);
      ghost var filed := server.filed;
      looks := seq(|list|, _ => filed);
      if fate.Arrived() {
        var needed;
        needed, looks := server.AnswerHashArrayPost(Hashes(list));
        answer := if answered then needed else Hashes(list);
      }
    }

    /** The question lets_send_all_that_now asks, and the blocks it then sends. */
    method AskAndSend(server: ServerStruct, list: seq<HashData>) returns (ghost o: AskFate)
      requires server.Valid() && db.Model().IdsUsed()
      modifies this`posts, server`dataQueue, server`log, server`filed
      modifies server.backend`files, server.backend`blocks, db`buffers, db`last
      ensures server.Valid() && db.Model().IdsUsed()
      ensures Flushed(server.first, list, o, fateOf, buffersize, old(Where(server)), Where(server))
    {
      ghost var x := Where(server);
      var asked, answered;
      ghost var looks;
      asked, answered, looks := SendHashArray(server, list);
      BothAnswersAreFound(Found(server.first, server.log, looks), list);
      var left, batches, fates;
      ghost var dropped, q := [], posts;
      left, batches, fates, dropped := SendAllData(server, list, asked);
      o := AskFate(looks, answered, batches, fates, dropped);
      AskedIsFlushed(server.first, list, asked, o, fateOf, buffersize, x, q, Where(server));
    }

    /** lets_send_all_that_now: keeps the names of the blocks, then sends those the server needs. */
    method LetsSendAllThatNow(server: ServerStruct, list: seq<HashData>, saved: seq<Hash>)
        returns (saved': seq<Hash>, ghost o: AskFate)
      requires server.Valid() && NoEmptyBlock(list) && db.Model().IdsUsed()
      modifies this`posts, server`dataQueue, server`log, server`filed
      modifies server.backend`files, server.backend`blocks, db`buffers, db`last
      ensures server.Valid() && db.Model().IdsUsed()
      ensures saved' == Hashes(list) + saved
      ensures Flushed(server.first, list, o, fateOf, buffersize, old(Where(server)), Where(server))
      ensures CounterHolds(list, buffersize) ==> o.dropped == []
      ensures forall h :: Kept(server.first, old(server.log), old(db.Model()), h)
                          ==> Kept(server.first, server.log, db.Model(), h)
      ensures AllKeptBut(server.first, server.log, db.Model(), Hashes(list), o.dropped)
    {
      saved' := Hashes(list) + saved;
      o := AskAndSend(server, list);
      if CounterHolds(list, buffersize) {
        FlushDropsNothing(server.first, list, o, buffersize, old(Now(server)), Now(server));
      }
      AskedBlocksAreKept(server.first, list, o, old(Now(server)), Now(server));
    }

    /** LetsSendAllThatNow as one more of a list of flushes. */
    method FlushOneMore(server: ServerStruct, list: seq<HashData>, saved: seq<Hash>, flushes: seq<seq<HashData>>,
                        ghost outcomes: seq<AskFate>, ghost done: seq<HashData>, ghost start: Point)
        returns (saved': seq<Hash>, flushes': seq<seq<HashData>>, ghost outcomes': seq<AskFate>)
      requires server.Valid() && db.Model().IdsUsed() && NoEmptyBlock(list) && Streaming(flushes, list, saved, done)
      requires AllFlushedSince(server.first, flushes, outcomes, fateOf, buffersize, start, Where(server))
      modifies this`posts, server`dataQueue, server`log, server`filed
      modifies server.backend`files, server.backend`blocks, db`buffers, db`last
      ensures flushes' == flushes + [list] && Streaming(flushes', [], saved', done)
      ensures server.Valid() && db.Model().IdsUsed()
      ensures AllFlushedSince(server.first, flushes', outcomes', fateOf, buffersize, start, Where(server))
    {
      ghost var o, before := AskFate([], false, [], [], []), Where(server);
      FlushedOneMore(flushes, list, saved, done);
      saved', o := LetsSendAllThatNow(server, list, saved);
      OneMoreFlushed(server.first, flushes, outcomes, fateOf, buffersize, start, before, list, o, Where(server));
      flushes', outcomes' := flushes + [list], outcomes + [o];
    }

    /** In the reading loop: the list is flushed as soon as it reaches the limit. */
    method FlushIfFull(server: ServerStruct, list: seq<HashData>, readBytes: int, saved: seq<Hash>,
                       flushes: seq<seq<HashData>>, ghost outcomes: seq<AskFate>,
                       ghost done: seq<HashData>, ghost start: Point)
        returns (list': seq<HashData>, readBytes': int, saved': seq<Hash>,
                 flushes': seq<seq<HashData>>, ghost outcomes': seq<AskFate>)
      requires server.Valid() && db.Model().IdsUsed() && NoEmptyBlock(list) && Streaming(flushes, list, saved, done)
      requires list != [] && readBytes == RawWeight(list) && (|list| == 1 || RawWeight(list[1..]) < buffersize)
      requires AllFlushed(flushes, buffersize)
      requires AllFlushedSince(server.first, flushes, outcomes, fateOf, buffersize, start, Where(server))
      modifies this`posts, server`dataQueue, server`log, server`filed
      modifies server.backend`files, server.backend`blocks, db`buffers, db`last
      ensures server.Valid() && db.Model().IdsUsed() && NoEmptyBlock(list') && Streaming(flushes', list', saved', done)
      ensures readBytes' == RawWeight(list') && (list' == [] || readBytes' < buffersize)
      ensures AllFlushed(flushes', buffersize)
      ensures AllFlushedSince(server.first, flushes', outcomes', fateOf, buffersize, start, Where(server))
    {
      list', readBytes', saved', flushes', outcomes' := list, readBytes, saved, flushes, outcomes;
      if readBytes >= buffersize {
        saved', flushes', outcomes' := FlushOneMore(server, list, saved, flushes, outcomes, done, start);
        list', readBytes' := [], 0;
      }
    }

    /** In the middle of a file: i of its blocks are read. */
    ghost predicate Midway(server: ServerStruct, all: seq<HashData>, i: nat, list: seq<HashData>, readBytes: int,
                           saved: seq<Hash>, flushes: seq<seq<HashData>>, outcomes: seq<AskFate>, start: Point)
      reads this, server, server.backend, db
    {
      && i <= |all| && server.Valid() && db.Model().IdsUsed()
      && Streaming(flushes, list, saved, all[..i]) && NoEmptyBlock(list)
      && readBytes == RawWeight(list) && (list == [] || readBytes < buffersize)
      && AllFlushed(flushes, buffersize)
      && AllFlushedSince(server.first, flushes, outcomes, fateOf, buffersize, start, Where(server))
    }

    /** One turn of the reading loop. */
    method ReadOne(server: ServerStruct, chunk: seq<byte>, list: seq<HashData>, readBytes: int, saved: seq<Hash>,
                   flushes: seq<seq<HashData>>, ghost outcomes: seq<AskFate>,
                   ghost all: seq<HashData>, ghost i: nat, ghost start: Point)
        returns (list': seq<HashData>, readBytes': int, saved': seq<Hash>,
                 flushes': seq<seq<HashData>>, ghost outcomes': seq<AskFate>)
      requires Midway(server, all, i, list, readBytes, saved, flushes, outcomes, start) && NoEmptyBlock(all)
      requires i < |all| && all[i] == NewHashData(lib, chunk, cmptype)
      modifies this`posts, server`dataQueue, server`log, server`filed
      modifies server.backend`files, server.backend`blocks, db`buffers, db`last
      ensures Midway(server, all, i + 1, list', readBytes', saved', flushes', outcomes', start)
    {
      var b := NewHashData(lib, chunk, cmptype);
      ReadOneMore(flushes, list, saved, all, i);
      ListedOneMore(list, b);
      list', readBytes', saved', flushes', outcomes' :=
        FlushIfFull(server, [b] + list, readBytes + |chunk|, saved, flushes, outcomes, all[..i + 1], start);
    }

    /** The reading loop of process_big_file_not_in_cache. */
    method ReadAll(server: ServerStruct, chunks: seq<seq<byte>>, ghost all: seq<HashData>)
        returns (list: seq<HashData>, readBytes: int, saved: seq<Hash>, flushes: seq<seq<HashData>>,
                 ghost outcomes: seq<AskFate>)
      requires server.Valid() && db.Model().IdsUsed()
      requires all == BlocksOf(lib, chunks, cmptype) && NoEmptyBlock(all)
      modifies this`posts, server`dataQueue, server`log, server`filed
      modifies server.backend`files, server.backend`blocks, db`buffers, db`last
      ensures Midway(server, all, |all|, list, readBytes, saved, flushes, outcomes, old(Where(server)))
    {
      list, readBytes, saved, flushes, outcomes := [], 0, [], [], [];
      var i := 0;
      while i < |chunks|
        invariant 0 <= i <= |chunks|
        invariant Midway(server, all, i, list, readBytes, saved, flushes, outcomes, old(Where(server)))
      {
        list, readBytes, saved, flushes, outcomes :=
          ReadOne(server, chunks[i], list, readBytes, saved, flushes, outcomes, all, i, old(Where(server)));
        i := i + 1;
      }
    }

    /** The reading loop and the flush of what is left after it. */
    method StreamBlocks(server: ServerStruct, chunks: seq<seq<byte>>)
        returns (saved: seq<Hash>, flushes: seq<seq<HashData>>, ghost outcomes: seq<AskFate>)
      requires ZlibSound(lib) && forall k :: 0 <= k < |chunks| ==> |chunks[k]| > 0
      requires server.Valid() && db.Model().IdsUsed()
      modifies this`posts, server`dataQueue, server`log, server`filed
      modifies server.backend`files, server.backend`blocks, db`buffers, db`last
      ensures Reverse(saved) == HashesOf(lib, chunks)
      ensures AllFlushedSince(server.first, flushes, outcomes, fateOf, buffersize, old(Where(server)), Where(server))
      ensures Flushing(flushes, BlocksOf(lib, chunks, cmptype), buffersize)
      ensures server.Valid() && db.Model().IdsUsed()
    {
      BlocksAreNotEmpty(lib, chunks, cmptype);
      ghost var all := BlocksOf(lib, chunks, cmptype);
      var list, readBytes;
      list, readBytes, saved, flushes, outcomes := ReadAll(server, chunks, all);
      saved, flushes, outcomes :=
        FlushRest(server, list, readBytes, saved, flushes, outcomes, all, old(Where(server)));
    }

    /** After the reading loop: what did not reach the limit. */
    method FlushRest(server: ServerStruct, list: seq<HashData>, readBytes: int, saved: seq<Hash>,
                     flushes: seq<seq<HashData>>, ghost outcomes: seq<AskFate>,
                     ghost all: seq<HashData>, ghost start: Point)
        returns (saved': seq<Hash>, flushes': seq<seq<HashData>>, ghost outcomes': seq<AskFate>)
      requires Midway(server, all, |all|, list, readBytes, saved, flushes, outcomes, start)
      modifies this`posts, server`dataQueue, server`log, server`filed
      modifies server.backend`files, server.backend`blocks, db`buffers, db`last
      ensures Reverse(saved') == Hashes(all) && Flushing(flushes', all, buffersize)
      ensures AllFlushedSince(server.first, flushes', outcomes', fateOf, buffersize, start, Where(server))
      ensures server.Valid() && db.Model().IdsUsed()
    {
      WholePrefix(all);
      saved', flushes', outcomes' := saved, flushes, outcomes;
      if readBytes > 0 {
        saved', flushes', outcomes' := FlushOneMore(server, list, saved, flushes, outcomes, all, start);
      } else {
        RawWeightPositive(list);
      }
      AllStreamed(flushes', saved', all);
    }

    /** The end of process_big_file_not_in_cache, once every block was handed over. */
    method EndBigFile(server: ServerStruct, key: FileKey, saved: seq<Hash>) returns (fate: Fate)
      requires server.Valid() && db.Model().IdsUsed()
      modifies this`posts, server`metaQueue, server`dataQueue, server`filed
      modifies server.backend`files, server.backend`blocks, db
      ensures fate == fateOf(old(posts)) && posts == old(posts) + 1
      ensures server.Valid() && db.Model().IdsUsed() && db.Cached() == old(db.Cached()) + {key}
      ensures var rec := Record(host, key, Reverse(saved));
        && server.metaQueue == old(server.metaQueue) + (if fate.Arrived() then [rec] else [])
        && Now(server) == MetaSaved(old(Now(server)), rec, true, fate).(filed := server.filed)
        && old(server.filed) <= server.filed
    {
      var answer;
      ghost var looks;
      answer, fate, looks := SendMetaData(server, key, Reverse(saved), true);
      db.SaveMetaData(key);
    }

    /** process_big_file_not_in_cache; `flushes` are the lists handed over, the newest block first in each. */
    method ProcessBigFile(server: ServerStruct, key: FileKey, chunks: seq<seq<byte>>)
        returns (fate: Fate, flushes: seq<seq<HashData>>, ghost outcomes: seq<AskFate>)
      requires ZlibSound(lib) && forall k :: 0 <= k < |chunks| ==> |chunks[k]| > 0
      requires server.Valid() && db.Model().IdsUsed()
      modifies this`posts, server`metaQueue, server`dataQueue, server`log, server`filed
      modifies server.backend`files, server.backend`blocks, db
      ensures server.Valid() && db.Model().IdsUsed() && db.Cached() == old(db.Cached()) + {key}
      ensures Took(Streamed(fate, flushes, outcomes), server.first, BlocksOf(lib, chunks, cmptype),
                   Record(host, key, HashesOf(lib, chunks)), fateOf, buffersize, old(Where(server)), Where(server))
      ensures RecordKept(server.metaQueue, db.Model(), Record(host, key, HashesOf(lib, chunks)))
      ensures CounterHolds(BlocksOf(lib, chunks, cmptype), buffersize) ==> DroppedOf(outcomes) == []
      ensures AllKeptBut(server.first, server.log, db.Model(), HashesOf(lib, chunks), DroppedOf(outcomes))
    {
      fate, flushes, outcomes := StreamAndPost(server, key, chunks);
      ghost var list, rec := BlocksOf(lib, chunks, cmptype), Record(host, key, HashesOf(lib, chunks));
      BlocksAreNotEmpty(lib, chunks, cmptype);
      StreamDropsNothing(fate, flushes, outcomes, server.first, list, rec, fateOf, buffersize, old(Where(server)),
                         Where(server));
      WayKeeps(Streamed(fate, flushes, outcomes), server.first, list, rec, fateOf, buffersize, old(Where(server)),
               Where(server));
    }

    /** The steps of it. */
    method StreamAndPost(server: ServerStruct, key: FileKey, chunks: seq<seq<byte>>)
        returns (fate: Fate, flushes: seq<seq<HashData>>, ghost outcomes: seq<AskFate>)
      requires ZlibSound(lib) && forall k :: 0 <= k < |chunks| ==> |chunks[k]| > 0
      requires server.Valid() && db.Model().IdsUsed()
      modifies this`posts, server`metaQueue, server`dataQueue, server`log, server`filed
      modifies server.backend`files, server.backend`blocks, db
      ensures server.Valid() && db.Model().IdsUsed() && db.Cached() == old(db.Cached()) + {key}
      ensures Took(Streamed(fate, flushes, outcomes), server.first, BlocksOf(lib, chunks, cmptype),
                   Record(host, key, HashesOf(lib, chunks)), fateOf, buffersize, old(Where(server)), Where(server))
    {
      var saved;
      saved, flushes, outcomes := StreamBlocks(server, chunks);
      ghost var y := Where(server);
      fate := EndBigFile(server, key, saved);
      StreamIsTaken(fate, flushes, outcomes, server.first, BlocksOf(lib, chunks, cmptype),
                    Record(host, key, Reverse(saved)), fateOf, buffersize, old(Where(server)), y, Where(server));
    }

    /** save_one_file for a file that is not in the cache: the way it takes. */
    method SaveNewFile(server: ServerStruct, key: FileKey, blocksize: nat, chunks: seq<seq<byte>>)
        returns (ghost way: Way)
      requires ZlibSound(lib) && forall k :: 0 <= k < |chunks| ==> |chunks[k]| > 0
      requires server.Valid() && db.Model().IdsUsed()
      modifies this`posts, server`metaQueue, server`dataQueue, server`log, server`filed
      modifies server.backend`files, server.backend`blocks, db
      ensures server.Valid() && db.Model().IdsUsed() && db.Cached() == old(db.Cached()) + {key}
      ensures if key.size < 134217728 then way.InMemory? && SentAs(way.o, key.size < blocksize, buffersize)
              else way.Streamed?
      ensures Took(way, server.first, BlocksOf(lib, chunks, cmptype), Record(host, key, HashesOf(lib, chunks)),
                   fateOf, buffersize, old(Where(server)), Where(server))
      ensures CounterHolds(BlocksOf(lib, chunks, cmptype), buffersize) ==> way.Dropped() == []
    {
      if key.size < CLIENT_SMALL_FILE_SIZE {
        var fate;
        ghost var o;
        fate, o := ProcessSmallFile(server, key, key.size, blocksize, chunks);
        way := InMemory(fate, o);
      } else {
        var fate, flushes;
        ghost var outcomes;
        fate, flushes, outcomes := ProcessBigFile(server, key, chunks);
        way := Streamed(fate, flushes, outcomes);
      }
    }

    /**
     save_one_file, on a file that is not excluded. A file in the cache costs nothing; any other is then in
     the cache, its record is queued or in a waiting row, and each of its blocks is in the store, in the
     queue or in a waiting row, but for those dropped because the counter of bytes overflowed. A file of less than
     128 megabytes goes the way through memory, its record first; a bigger one is streamed, its record last. No row
     is saved if every post is answered, and what is queued or saved is the file's own.
     */
    method SaveOneFile(server: ServerStruct, key: FileKey, blocksize: nat, chunks: seq<seq<byte>>)
        returns (ghost way: Way)
      requires ZlibSound(lib) && forall k :: 0 <= k < |chunks| ==> |chunks[k]| > 0
      requires server.Valid() && db.Model().IdsUsed()
      modifies this`posts, server`metaQueue, server`dataQueue, server`log, server`filed
      modifies server.backend`files, server.backend`blocks, db
      ensures server.Valid() && db.Model().IdsUsed() && db.Cached() == old(db.Cached()) + {key}
      ensures key in old(db.Cached()) ==>
        way.Skipped? && unchanged(this, server, server.backend) && db.Model() == old(db.Model())
      ensures key !in old(db.Cached()) ==>
        && (if key.size < 134217728 then way.InMemory? && SentAs(way.o, key.size < blocksize, buffersize)
            else way.Streamed?)
        && Took(way, server.first, BlocksOf(lib, chunks, cmptype), Record(host, key, HashesOf(lib, chunks)),
                fateOf, buffersize, old(Where(server)), Where(server))
        && AllKeptBut(server.first, server.log, db.Model(), HashesOf(lib, chunks), way.Dropped())
        && AllKeptBut(server.backend.blocks, server.dataQueue, db.Model(), HashesOf(lib, chunks), way.Dropped())
        && RecordKept(server.metaQueue, db.Model(), Record(host, key, HashesOf(lib, chunks)))
      ensures CounterHolds(BlocksOf(lib, chunks, cmptype), buffersize) ==> way.Dropped() == []
      ensures AllAnswered(fateOf, old(posts), posts) ==> db.Model() == old(db.Model())
      ensures Adds(BlocksOf(lib, chunks, cmptype),
                   MetaPost(Record(host, key, HashesOf(lib, chunks)), key.size >= 134217728),
                   old(Now(server)), Now(server))
    {
      way := Skipped;
      var inCache := db.IsFileInCache(key);
      if inCache {
        assert old(db.Cached()) + {key} == old(db.Cached());
      } else {
        way := SaveNewFile(server, key, blocksize, chunks);
        ghost var list, rec := BlocksOf(lib, chunks, cmptype), Record(host, key, HashesOf(lib, chunks));
        WayKeeps(way, server.first, list, rec, fateOf, buffersize, old(Where(server)), Where(server));
        WayAdds(way, server.first, list, rec, fateOf, buffersize, old(Where(server)), Where(server));
        WaySavesNothing(way, server.first, list, rec, fateOf, buffersize, old(Where(server)), Where(server));
        FilingKeepsKept(server.first, server.log, server.filed, db.Model());
      }
    }

    // ---------- the reconnection pass ----------

    /** transmit_callback: posts one row again, and records it as transmitted if that was answered. */
    method TransmitRow(server: ServerStruct, id: nat) returns (fate: Fate)
      requires server.Valid() && id in db.buffers
      modifies this`posts, server`metaQueue, server`dataQueue, server`log, server`filed
      modifies server.backend`files, server.backend`blocks, db`transmited
      ensures fate == fateOf(old(posts)) && posts == old(posts) + 1
      ensures server.Valid() && old(server.filed) <= server.filed
      ensures server.log == old(server.log) + if fate.Arrived() then Load(db.buffers[id]) else []
      ensures server.metaQueue == old(server.metaQueue) + if fate.Arrived() then RecordsOf(db.buffers[id]) else []
      ensures db.Model() == if fate.Acknowledged? then old(db.Model()).Mark(id) else old(db.Model())
    {
      fate := Post();
      if fate.Arrived() {
        server.AnswerPost(db.buffers[id]);
      }
      if fate.Acknowledged? {
        db.MarkTransmited(id);
      }
    }

    /**
     db_transmit_buffers: one pass over the waiting rows, in any order, then the deletion. Each row is posted once;
     those whose post was given up are what still waits, what arrived is queued and nothing else is, and nothing
     that was kept, block or record, is lost.
     */
    method TransmitBuffers(server: ServerStruct) returns (order: seq<nat>)
      requires server.Valid()
      modifies this`posts, server`metaQueue, server`dataQueue, server`log, server`filed
      modifies server.backend`files, server.backend`blocks, db`buffers, db`transmited
      ensures server.Valid() && PassDone(lib, server.first, order, fateOf, old(Where(server)), Where(server))
    {
      ghost var start := Where(server);
      order := TransmitRows(server);
      ghost var before := Where(server);
      db.DeleteTransmitedBuffers();
      PassEnds(lib, server.first, order, fateOf, start, before, Where(server));
    }

    /** Its first query: each waiting row is posted. */
    method TransmitRows(server: ServerStruct) returns (order: seq<nat>)
      requires server.Valid()
      modifies this`posts, server`metaQueue, server`dataQueue, server`log, server`filed
      modifies server.backend`files, server.backend`blocks, db`transmited
      ensures server.Valid() && Passing(lib, server.first, order, fateOf, {}, old(Where(server)), Where(server))
    {
      ghost var start := Where(server);
      var todo := db.buffers.Keys - db.transmited;
      order := [];
      while todo != {}
        invariant server.Valid() && Passing(lib, server.first, order, fateOf, todo, start, Where(server))
        decreases todo
      {
        var id :| id in todo;
        order := TransmitNext(server, order, todo, id, start);
        todo := todo - {id};
      }
    }

    /** TransmitRow as one more of a pass. */
    method TransmitNext(server: ServerStruct, order: seq<nat>, ghost todo: set<nat>, id: nat, ghost start: Point)
        returns (order': seq<nat>)
      requires server.Valid() && Passing(lib, server.first, order, fateOf, todo, start, Where(server)) && id in todo
      modifies this`posts, server`metaQueue, server`dataQueue, server`log, server`filed
      modifies server.backend`files, server.backend`blocks, db`transmited
      ensures server.Valid() && Passing(lib, server.first, order', fateOf, todo - {id}, start, Where(server))
    {
      ghost var before := Where(server);
      var fate := TransmitRow(server, id);
      OneMorePassed(lib, server.first, order, fateOf, todo, start, before, id, fate, Where(server));
      order' := order + [id];
    }
  }

  // ---------- what a pass over the rows leaves behind ----------

  /** The post of this row was answered. */
  ghost predicate RowAnswered(order: seq<nat>, fates: seq<Fate>, id: nat)
    requires |fates| == |order|
  {
    exists k :: 0 <= k < |order| && order[k] == id && fates[k].Acknowledged?
  }

  /** The blocks of those rows that arrived. */
  function BlocksArrived(rows: map<nat, Request>, order: seq<nat>, fates: seq<Fate>): seq<HashData>
    requires |fates| == |order|
  {
    if order == [] then []
    else
      var n := |order| - 1;
      BlocksArrived(rows, order[..n], fates[..n])
      + if fates[n].Arrived() && order[n] in rows then Load(rows[order[n]]) else []
  }

  /** The records among them. */
  function RecordsArrived(rows: map<nat, Request>, order: seq<nat>, fates: seq<Fate>): seq<Record>
    requires |fates| == |order|
  {
    if order == [] then []
    else
      var n := |order| - 1;
      RecordsArrived(rows, order[..n], fates[..n])
      + if fates[n].Arrived() && order[n] in rows then RecordsOf(rows[order[n]]) else []
  }

  /** Of these rows those not in `todo` were posted, each once, in this order. */
  ghost predicate Listed(order: seq<nat>, todo: set<nat>, rows: set<nat>) {
    NoDuplicates(order) && todo <= rows && forall id :: id in order <==> id in rows && id !in todo
  }

  lemma OneMoreListed(order: seq<nat>, todo: set<nat>, rows: set<nat>, id: nat)
    requires Listed(order, todo, rows) && id in todo
    ensures Listed(order + [id], todo - {id}, rows) && id !in order
  {
  }

  /** What arrived of these rows was queued, in this order, and nothing else was. */
  ghost predicate HasQueued(order: seq<nat>, fates: seq<Fate>, x: Point, y: Point)
    requires |fates| == |order|
  {
    && y.at.log == x.at.log + BlocksArrived(x.at.table.buffers, order, fates)
    && y.queue == x.queue + RecordsArrived(x.at.table.buffers, order, fates)
  }

  lemma OneMoreQueued(order: seq<nat>, fates: seq<Fate>, x: Point, y: Point, id: nat, fate: Fate, z: Point)
    requires |fates| == |order| && HasQueued(order, fates, x, y) && id in x.at.table.buffers
    requires z.at.log == y.at.log + if fate.Arrived() then Load(x.at.table.buffers[id]) else []
    requires z.queue == y.queue + if fate.Arrived() then RecordsOf(x.at.table.buffers[id]) else []
    ensures HasQueued(order + [id], fates + [fate], x, z)
  {
    var rows := x.at.table.buffers;
    OneMoreArrived(rows, order, fates, id, fate);
    Associative(x.at.log, BlocksArrived(rows, order, fates), if fate.Arrived() then Load(rows[id]) else []);
    Associative(x.queue, RecordsArrived(rows, order, fates), if fate.Arrived() then RecordsOf(rows[id]) else []);
  }

  /** In the middle of a pass that began at x: `order` was posted, `todo` was not. */
  ghost predicate Passing(lib: Library, first: map<Hash, HashData>, order: seq<nat>, fateOf: nat -> Fate,
                          todo: set<nat>, x: Point, y: Point)
  {
    var table, table', fates := x.at.table, y.at.table, Fates(fateOf, x.posts, |order|);
    && table'.buffers == table.buffers && table'.last == table.last
    && x.at.filed <= y.at.filed <= |y.at.log|
    && y.posts == x.posts + |order| && Listed(order, todo, table.Pending())
    && (forall id :: id in table'.transmited <==> id in table.transmited || RowAnswered(order, fates, id))
    && HasQueued(order, fates, x, y)
    && PassKeeps(lib, first, x, y)
  }

  /**
   A whole pass: each waiting row was posted once, in this order; the rows whose posts were answered are recorded as
   transmitted and gone, those whose posts were given up still wait; what arrived was queued, in that order, and
   nothing else; and what was kept is kept.
   */
  ghost predicate PassDone(lib: Library, first: map<Hash, HashData>, order: seq<nat>, fateOf: nat -> Fate,
                           x: Point, y: Point)
  {
    var table, table' := x.at.table, y.at.table;
    var fates := Fates(fateOf, x.posts, |order|);
    && NoDuplicates(order) && (forall id :: id in order <==> id in table.Pending()) && y.posts == x.posts + |order|
    && (forall id :: id in table'.transmited <==> id in table.transmited || RowAnswered(order, fates, id))
    && (forall id :: id in table'.Pending() <==> exists k :: 0 <= k < |order| && order[k] == id && fates[k].GivenUp?)
    && table'.buffers == table.buffers - table'.transmited && table'.last == table.last
    && x.at.filed <= y.at.filed <= |y.at.log|
    && HasQueued(order, fates, x, y)
    && PassKeeps(lib, first, x, y)
  }

  lemma PassEnds(lib: Library, first: map<Hash, HashData>, order: seq<nat>, fateOf: nat -> Fate, x: Point, y: Point,
                 z: Point)
    requires Passing(lib, first, order, fateOf, {}, x, y)
    requires z == y.(at := y.at.(table := y.at.table.(buffers := y.at.table.buffers - y.at.table.transmited)))
    ensures PassDone(lib, first, order, fateOf, x, z)
  {
    var fates := Fates(fateOf, x.posts, |order|);
    OnlyPendingRowsMatter(lib, first, x, y, z);
    forall id
      ensures id in z.at.table.Pending() <==> exists k :: 0 <= k < |order| && order[k] == id && fates[k].GivenUp?
    {
      StillWaitsIff(order, fates, id);
    }
  }

  /** A row is posted once, so its post is answered or given up. */
  lemma StillWaitsIff(order: seq<nat>, fates: seq<Fate>, id: nat)
    requires |fates| == |order| && NoDuplicates(order)
    ensures id in order && !RowAnswered(order, fates, id)
            <==> exists k :: 0 <= k < |order| && order[k] == id && fates[k].GivenUp?
  {
  }

  lemma OneMorePassed(lib: Library, first: map<Hash, HashData>, order: seq<nat>, fateOf: nat -> Fate, todo: set<nat>,
                      x: Point, y: Point, id: nat, fate: Fate, z: Point)
    requires Passing(lib, first, order, fateOf, todo, x, y) && id in todo
    requires fate == fateOf(y.posts) && z.posts == y.posts + 1
    requires z.at.log == y.at.log + if fate.Arrived() then Load(y.at.table.buffers[id]) else []
    requires z.queue == y.queue + if fate.Arrived() then RecordsOf(y.at.table.buffers[id]) else []
    requires z.at.table == if fate.Acknowledged? then y.at.table.Mark(id) else y.at.table
    requires y.at.filed <= z.at.filed <= |z.at.log|
    ensures Passing(lib, first, order + [id], fateOf, todo - {id}, x, z)
  {
    var fates := Fates(fateOf, x.posts, |order|);
    OneMoreFateOf(fateOf, x.posts, |order|);
    OneMoreListed(order, todo, x.at.table.Pending(), id);
    RowIsPosted(lib, first, y, id, fate, z);
    PassKeepsOn(lib, first, x, y, z);
    OneMoreFate(order, fates, id, fate);
    OneMoreQueued(order, fates, x, y, id, fate, z);
  }

  lemma OneMoreArrived(rows: map<nat, Request>, order: seq<nat>, fates: seq<Fate>, id: nat, fate: Fate)
    requires |fates| == |order| && id in rows
    ensures BlocksArrived(rows, order + [id], fates + [fate])
            == BlocksArrived(rows, order, fates) + if fate.Arrived() then Load(rows[id]) else []
    ensures RecordsArrived(rows, order + [id], fates + [fate])
            == RecordsArrived(rows, order, fates) + if fate.Arrived() then RecordsOf(rows[id]) else []
  {
    assert (order + [id])[..|order|] == order && (fates + [fate])[..|order|] == fates;
  }

  lemma OneMoreFate(order: seq<nat>, fates: seq<Fate>, id: nat, fate: Fate)
    requires |fates| == |order| && id !in order
    ensures forall x :: RowAnswered(order + [id], fates + [fate], x) <==>
                        RowAnswered(order, fates, x) || (x == id && fate.Acknowledged?)
  {
    var order', fates' := order + [id], fates + [fate];
    forall x | RowAnswered(order, fates, x) ensures RowAnswered(order', fates', x) {
      var k :| 0 <= k < |order| && order[k] == x && fates[k].Acknowledged?;
      assert order'[k] == x && fates'[k].Acknowledged?;
    }
    assert order'[|order|] == id && fates'[|order|] == fate;
  }

  /** A row still to post stays one through any list of posts. */
  lemma {:induction false} RowsStay(table: Table<Request>, batches: seq<seq<HashData>>, fates: seq<Fate>)
    requires |fates| == |batches| && table.IdsUsed()
    ensures var t := TableAfter(table, batches, fates);
      t.IdsUsed() && forall id :: id in table.Pending() ==> id in t.Pending() && t.buffers[id] == table.buffers[id]
    decreases |batches|
  {
    if batches != [] {
      var n := |batches| - 1;
      RowsStay(table, batches[..n], fates[..n]);
    }
  }

  lemma SaveKeeps(blocks: map<Hash, HashData>, q: seq<HashData>, t: Table<Request>, m: Request)
    requires t.IdsUsed()
    ensures t.Save(m).IdsUsed()
    ensures forall h :: Kept(blocks, q, t, h) ==> Kept(blocks, q, t.Save(m), h)
  {
    var t' := t.Save(m);
    assert forall id :: id in t.Pending() ==> id in t'.Pending() && t'.buffers[id] == t.buffers[id];
  }

  /** The streaming path: blocks flushed, blocks listed and names kept, against the blocks read so far. */
  ghost predicate Streaming(flushes: seq<seq<HashData>>, list: seq<HashData>, saved: seq<Hash>, done: seq<HashData>) {
    InFileOrder(flushes) + Reverse(list) == done && Reverse(saved) == Hashes(InFileOrder(flushes))
  }

  lemma ReadOneMore(flushes: seq<seq<HashData>>, list: seq<HashData>, saved: seq<Hash>, all: seq<HashData>, i: nat)
    requires i < |all| && Streaming(flushes, list, saved, all[..i])
    ensures Streaming(flushes, [all[i]] + list, saved, all[..i + 1])
  {
    var b := all[i];
    assert Reverse([b] + list) == Reverse(list) + [b];
    Associative(InFileOrder(flushes), Reverse(list), [b]);
    assert all[..i + 1] == all[..i] + [b];
  }

  lemma ListedOneMore(list: seq<HashData>, b: HashData)
    requires NoEmptyBlock(list) && b.data != [] && b.uncmplen > 0
    ensures NoEmptyBlock([b] + list) && RawWeight([b] + list) == b.uncmplen + RawWeight(list)
    ensures ([b] + list)[1..] == list
  {
  }

  lemma FlushedOneMore(flushes: seq<seq<HashData>>, list: seq<HashData>, saved: seq<Hash>, done: seq<HashData>)
    requires Streaming(flushes, list, saved, done)
    ensures Streaming(flushes + [list], [], Hashes(list) + saved, done)
  {
    assert (flushes + [list])[..|flushes|] == flushes;
    assert Reverse(Hashes(list) + saved) == Reverse(saved) + Reverse(Hashes(list));
    assert Reverse(Hashes(list)) == Hashes(Reverse(list));
  }

  lemma AllStreamed(flushes: seq<seq<HashData>>, saved: seq<Hash>, all: seq<HashData>)
    requires Streaming(flushes, [], saved, all)
    ensures InFileOrder(flushes) == all && Reverse(saved) == Hashes(all)
  {
    assert Reverse<HashData>([]) == [];
  }

  lemma RawWeightPositive(list: seq<HashData>)
    requires NoEmptyBlock(list) && RawWeight(list) <= 0
    ensures list == []
  {
  }

  /** A block of this name is in the store, in the data queue or in a row still to post. */
  ghost predicate Kept(blocks: map<Hash, HashData>, queue: seq<HashData>, table: Table<Request>, h: Hash) {
    || h in blocks
    || h in Hashes(queue)
    || RowHolds(table, h)
  }

  ghost predicate AllKept(blocks: map<Hash, HashData>, queue: seq<HashData>, table: Table<Request>, hashes: seq<Hash>) {
    forall h :: h in hashes ==> Kept(blocks, queue, table, h)
  }

  /** All of them, but for the names of blocks that were dropped. */
  ghost predicate AllKeptBut(blocks: map<Hash, HashData>, queue: seq<HashData>, table: Table<Request>,
                             hashes: seq<Hash>, dropped: seq<HashData>)
  {
    forall h :: h in hashes ==> Kept(blocks, queue, table, h) || h in Hashes(dropped)
  }

  lemma BlocksAreNotEmpty(lib: Library, chunks: seq<seq<byte>>, cmptype: Compression)
    requires ZlibSound(lib) && forall k :: 0 <= k < |chunks| ==> |chunks[k]| > 0
    ensures NoEmptyBlock(BlocksOf(lib, chunks, cmptype))
  {
    forall i | 0 <= i < |chunks|
      ensures BlocksOf(lib, chunks, cmptype)[i].data != [] && BlocksOf(lib, chunks, cmptype)[i].uncmplen > 0
    {
      NewHashDataIsGenuine(lib, {chunks[i]}, chunks[i], cmptype);
    }
  }

  /** The record is queued or in a row still to post. */
  ghost predicate RecordKept(queue: seq<Record>, table: Table<Request>, rec: Record) {
    rec in queue || RowHoldsRecord(table, rec)
  }

  /** After the record was posted, and then the blocks: the record is kept. */
  lemma PostedRecordIsKept(queue: seq<Record>, queue': seq<Record>, table: Table<Request>, rec: Record, sent: bool,
                           fate: Fate, batches: seq<seq<HashData>>, fates: seq<Fate>)
    requires |fates| == |batches| && table.IdsUsed()
    requires queue' == queue + if fate.Arrived() then [rec] else []
    ensures var before := if fate.Acknowledged? then table else table.Save(MetaPost(rec, sent));
      RecordKept(queue', TableAfter(before, batches, fates), rec)
  {
    var before := if fate.Acknowledged? then table else table.Save(MetaPost(rec, sent));
    RowsStay(before, batches, fates);
    if fate.Arrived() {
      assert queue'[|queue|] == rec;
    } else {
      var t := TableAfter(before, batches, fates);
      assert before.last in before.Pending() && IsMeta(t.buffers[before.last], rec);
    }
  }

  /** What was kept stays kept through any list of posts, and what the posts carried is kept. */
  lemma {:induction false} SentIsKept(queue: seq<HashData>, table: Table<Request>, batches: seq<seq<HashData>>,
                                      fates: seq<Fate>, blocks: map<Hash, HashData>)
    requires |fates| == |batches| && table.IdsUsed()
    ensures var q, t := LogAfter(queue, batches, fates), TableAfter(table, batches, fates);
      && t.IdsUsed()
      && (forall h :: Kept(blocks, queue, table, h) ==> Kept(blocks, q, t, h))
      && AllKept(blocks, q, t, Hashes(Concat(batches)))
    decreases |batches|
  {
    if batches != [] {
      var n := |batches| - 1;
      var init, last := batches[..n], batches[n];
      SentIsKept(queue, table, init, fates[..n], blocks);
      var q, t := LogAfter(queue, init, fates[..n]), TableAfter(table, init, fates[..n]);
      var q', t' := LogAfter(queue, batches, fates), TableAfter(table, batches, fates);
      OnePostKeeps(q, t, last, fates[n], q', t', blocks);
      assert batches == init + [last];
      ConcatOneMore(init, last);
      assert Hashes(Concat(batches)) == Hashes(Concat(init)) + Hashes(last);
    }
  }

  lemma OnePostKeeps(q: seq<HashData>, t: Table<Request>, batch: seq<HashData>, fate: Fate,
                     q': seq<HashData>, t': Table<Request>, blocks: map<Hash, HashData>)
    requires t.IdsUsed()
    requires q' == if fate.Arrived() then q + batch else q
    requires t' == if fate.Acknowledged? then t else t.Save(DataPost(batch))
    ensures t'.IdsUsed()
    ensures forall h :: Kept(blocks, q, t, h) ==> Kept(blocks, q', t', h)
    ensures AllKept(blocks, q', t', Hashes(batch))
  {
    assert Hashes(q + batch) == Hashes(q) + Hashes(batch);
    assert forall id :: id in t.Pending() ==> id in t'.Pending() && t'.buffers[id] == t.buffers[id];
    if fate.GivenUp? {
      assert t'.last in t'.Pending() && Load(t'.buffers[t'.last]) == batch;
    }
  }

  // ---------- what a question and the posts it leads to keep ----------

  /** A hash that is not asked for was found by its lookup. */
  lemma NotNeededIsThere(first: map<Hash, HashData>, log: seq<HashData>, looks: seq<nat>, before: nat, after: nat,
                         asks: seq<Hash>, h: Hash)
    requires |looks| == |asks| && Lookups(looks, log, before, after)
    requires h in asks && h !in Needed(Found(first, log, looks), asks)
    ensures h in first || h in Hashes(log)
  {
    var stored := Found(first, log, looks);
    NeededIff(stored, asks, h);
    var k :| 0 <= k < |asks| && asks[k] == h;
    assert h in stored[k];
    FiledNames(first, log[..looks[k]], h);
    assert Hashes(log)[..looks[k]] == Hashes(log[..looks[k]]);
  }

  lemma NamesSent(list: seq<HashData>, asked: seq<Hash>, batches: seq<seq<HashData>>, dropped: seq<HashData>)
    requires Answers(list, asked) && Concat(batches) + dropped == Taken(list, asked)
    ensures asked == Hashes(Concat(batches)) + Hashes(dropped)
  {
    TakenIsWhatWasAsked(list, asked);
    assert Hashes(Concat(batches) + dropped) == Hashes(Concat(batches)) + Hashes(dropped);
  }

  /** Whatever becomes of the posts, each block asked about is kept then or dropped; what was kept before stays kept. */
  lemma AskedBlocksAreKept(first: map<Hash, HashData>, list: seq<HashData>, o: AskFate, a: Progress, b: Progress)
    requires AskedAndSent(first, list, o, a, b) && a.table.IdsUsed()
    ensures b.table.IdsUsed()
    ensures forall h :: Kept(first, a.log, a.table, h) ==> Kept(first, b.log, b.table, h)
    ensures AllKeptBut(first, b.log, b.table, Hashes(list), o.dropped)
  {
    var asked := Asked(Found(first, a.log, o.looks), list, o.answered);
    SentIsKept(a.log, a.table, o.batches, o.fates, first);
    NamesSent(list, asked, o.batches, o.dropped);
    forall h | h in Hashes(list) ensures Kept(first, b.log, b.table, h) || h in Hashes(o.dropped) {
      if h !in asked {
        NotNeededIsThere(first, a.log, o.looks, a.filed, b.filed, Hashes(list), h);
        assert Kept(first, a.log, a.table, h);
      }
    }
  }

  /** After one more list of blocks, which has the newest first. */
  lemma KeptButMore(first: map<Hash, HashData>, l: seq<HashData>, t: Table<Request>, l': seq<HashData>,
                    t': Table<Request>, done: seq<HashData>, before: seq<HashData>, list: seq<HashData>,
                    dropped: seq<HashData>)
    requires AllKeptBut(first, l, t, Hashes(done), before) && AllKeptBut(first, l', t', Hashes(list), dropped)
    requires forall h :: Kept(first, l, t, h) ==> Kept(first, l', t', h)
    ensures AllKeptBut(first, l', t', Hashes(done + Reverse(list)), before + dropped)
  {
    assert Hashes(before + dropped) == Hashes(before) + Hashes(dropped);
    assert Hashes(done + Reverse(list)) == Hashes(done) + Hashes(Reverse(list));
    assert Hashes(Reverse(list)) == Reverse(Hashes(list));
    SameElements(Hashes(list));
  }

  /** Filing moves blocks from the queue to the store: what is kept does not change. */
  lemma FilingKeepsKept(first: map<Hash, HashData>, log: seq<HashData>, filed: nat, table: Table<Request>)
    requires filed <= |log|
    ensures forall h :: Kept(first, log, table, h) <==> Kept(Filed(first, log[..filed]), log[filed..], table, h)
  {
    assert Hashes(log) == Hashes(log[..filed]) + Hashes(log[filed..]);
    forall h ensures Kept(first, log, table, h) <==> Kept(Filed(first, log[..filed]), log[filed..], table, h) {
      FiledNames(first, log[..filed], h);
    }
  }

  // ---------- what reposting keeps ----------

  /** What was kept, blocks and records, is kept still. */
  ghost predicate NothingLost(first: map<Hash, HashData>, log: seq<HashData>, queue: seq<Record>,
                              table: Table<Request>, log': seq<HashData>, queue': seq<Record>, table': Table<Request>)
  {
    && (forall h :: Kept(first, log, table, h) ==> Kept(first, log', table', h))
    && (forall rec :: RecordKept(queue, table, rec) ==> RecordKept(queue', table', rec))
  }

  /** Nothing that was kept is lost, and if only genuine blocks were queued and saved, that stays so. */
  ghost predicate PassKeeps(lib: Library, first: map<Hash, HashData>, x: Point, y: Point) {
    && NothingLost(first, x.at.log, x.queue, x.at.table, y.at.log, y.queue, y.at.table)
    && forall raws :: Carries(lib, raws, x.at.log, x.at.table) ==> Carries(lib, raws, y.at.log, y.at.table)
  }

  lemma PassKeepsOn(lib: Library, first: map<Hash, HashData>, x: Point, y: Point, z: Point)
    requires PassKeeps(lib, first, x, y) && PassKeeps(lib, first, y, z)
    ensures PassKeeps(lib, first, x, z)
  {
  }

  /** A row posted again, with any fate. */
  lemma RowIsPosted(lib: Library, first: map<Hash, HashData>, x: Point, id: nat, fate: Fate, y: Point)
    requires id in x.at.table.Pending()
    requires y.at.log == x.at.log + if fate.Arrived() then Load(x.at.table.buffers[id]) else []
    requires y.queue == x.queue + if fate.Arrived() then RecordsOf(x.at.table.buffers[id]) else []
    requires y.at.table == if fate.Acknowledged? then x.at.table.Mark(id) else x.at.table
    ensures PassKeeps(lib, first, x, y)
  {
    var log, table, table' := x.at.log, x.at.table, y.at.table;
    var r := table.buffers[id];
    assert Hashes(log + Load(r)) == Hashes(log) + Hashes(Load(r));
    assert log + [] == log;
    forall h | Kept(first, log, table, h) && RowHolds(table, h) ensures Kept(first, y.at.log, table', h) {
      var k :| k in table.Pending() && h in Hashes(Load(table.buffers[k]));
      assert k != id ==> k in table'.Pending();
    }
    forall rec | RecordKept(x.queue, table, rec) && RowHoldsRecord(table, rec)
      ensures RecordKept(y.queue, table', rec)
    {
      var k :| k in table.Pending() && IsMeta(table.buffers[k], rec);
      assert k != id ==> k in table'.Pending();
      assert k == id ==> RecordsOf(r) == [rec];
    }
  }

  /** Rows that do not wait can go. */
  lemma OnlyPendingRowsMatter(lib: Library, first: map<Hash, HashData>, x: Point, y: Point, z: Point)
    requires PassKeeps(lib, first, x, y) && z.at.log == y.at.log && z.queue == y.queue
    requires z.at.table.Pending() == y.at.table.Pending()
    requires forall id :: id in z.at.table.buffers ==>
      id in y.at.table.buffers && z.at.table.buffers[id] == y.at.table.buffers[id]
    ensures PassKeeps(lib, first, x, z)
  {
    var table, table' := y.at.table, z.at.table;
    forall h | RowHolds(table, h) ensures RowHolds(table', h) {
      var k :| k in table.Pending() && h in Hashes(Load(table.buffers[k]));
      assert k in table'.Pending();
    }
    forall rec | RowHoldsRecord(table, rec) ensures RowHoldsRecord(table', rec) {
      var k :| k in table.Pending() && IsMeta(table.buffers[k], rec);
      assert k in table'.Pending();
    }
    PassKeepsOn(lib, first, x, y, z);
  }

  // ---------- what saving a file adds ----------

  /** The record of the file, or some of its blocks. */
  ghost predicate IsOf(blocks: seq<HashData>, meta: Request, r: Request) {
    r == meta || (r.DataPost? && forall x :: x in r.blocks ==> x in blocks)
  }

  /** Only these blocks were queued since, only rows of these blocks or this record were saved; no other row changed. */
  ghost predicate Adds(blocks: seq<HashData>, meta: Request, a: Progress, b: Progress) {
    && a.log <= b.log && (forall k :: |a.log| <= k < |b.log| ==> b.log[k] in blocks)
    && b.table.transmited == a.table.transmited
    && (forall id :: id in a.table.buffers ==>
          id in b.table.buffers && b.table.buffers[id] == a.table.buffers[id])
    && (forall id :: id in b.table.buffers && id !in a.table.buffers ==> IsOf(blocks, meta, b.table.buffers[id]))
  }

  lemma AddsThen(blocks: seq<HashData>, meta: Request, a: Progress, m: Progress, b: Progress)
    requires Adds(blocks, meta, a, m) && Adds(blocks, meta, m, b)
    ensures Adds(blocks, meta, a, b)
  {
  }

  lemma SaveAdds(blocks: seq<HashData>, meta: Request, a: Progress, r: Request)
    requires a.table.IdsUsed() && IsOf(blocks, meta, r)
    ensures Adds(blocks, meta, a, a.(table := a.table.Save(r))) && a.table.Save(r).IdsUsed()
  {
  }

  lemma PostAdds(blocks: seq<HashData>, meta: Request, a: Progress, batch: seq<HashData>, fate: Fate)
    requires a.table.IdsUsed() && forall x :: x in batch ==> x in blocks
    ensures var table := if fate.Acknowledged? then a.table else a.table.Save(DataPost(batch));
      && table.IdsUsed()
      && Adds(blocks, meta, a, Progress(if fate.Arrived() then a.log + batch else a.log, a.filed, table))
  {
    if fate.GivenUp? {
      SaveAdds(blocks, meta, a, DataPost(batch));
    }
  }

  lemma {:induction false} PostsAdd(blocks: seq<HashData>, meta: Request, a: Progress, batches: seq<seq<HashData>>,
                                    fates: seq<Fate>)
    requires |fates| == |batches| && a.table.IdsUsed() && forall x :: x in Concat(batches) ==> x in blocks
    ensures TableAfter(a.table, batches, fates).IdsUsed()
    ensures Adds(blocks, meta, a,
                 Progress(LogAfter(a.log, batches, fates), a.filed, TableAfter(a.table, batches, fates)))
    decreases |batches|
  {
    if batches != [] {
      var n := |batches| - 1;
      OneMore(batches, n);
      WholePrefix(batches);
      ConcatOneMore(batches[..n], batches[n]);
      PostsAdd(blocks, meta, a, batches[..n], fates[..n]);
      var m := Progress(LogAfter(a.log, batches[..n], fates[..n]), a.filed,
                        TableAfter(a.table, batches[..n], fates[..n]));
      PostAdds(blocks, meta, m, batches[n], fates[n]);
      AddsThen(blocks, meta, a, m,
               Progress(LogAfter(a.log, batches, fates), a.filed, TableAfter(a.table, batches, fates)));
    }
  }

  lemma AskedAndSentAdds(blocks: seq<HashData>, meta: Request, first: map<Hash, HashData>, list: seq<HashData>,
                         o: AskFate, a: Progress, b: Progress)
    requires AskedAndSent(first, list, o, a, b) && a.table.IdsUsed() && forall x :: x in list ==> x in blocks
    ensures Adds(blocks, meta, a, b) && b.table.IdsUsed()
  {
    var asked := Asked(Found(first, a.log, o.looks), list, o.answered);
    TakenAreListed(list, asked);
    assert forall x :: x in Concat(o.batches) ==> x in Taken(list, asked);
    PostsAdd(blocks, meta, a, o.batches, o.fates);
  }

  /** What saving a file leaves, whatever becomes of the posts: the small path. */
  lemma SmallFileAdds(first: map<Hash, HashData>, list: seq<HashData>, rec: Record, fate: Fate, o: AskFate,
                      queue: seq<Record>, a: Progress, queue': seq<Record>, b: Progress)
    requires SmallFileOutcome(first, list, rec, fate, o, queue, a, queue', b) && a.table.IdsUsed()
    ensures Adds(list, MetaPost(rec, false), a, b)
  {
    var meta, m := MetaPost(rec, false), MetaSaved(a, rec, false, fate);
    SaveAdds(list, meta, a, meta);
    AskedAndSentAdds(list, meta, first, list, o, m, b);
    AddsThen(list, meta, a, m, b);
  }

  lemma {:induction false} FlushesAdd(blocks: seq<HashData>, meta: Request, first: map<Hash, HashData>,
                                      flushes: seq<seq<HashData>>, outcomes: seq<AskFate>, a: Progress, b: Progress)
    requires FlushesDone(first, flushes, outcomes, a, b) && a.table.IdsUsed()
    requires forall x :: x in InFileOrder(flushes) ==> x in blocks
    ensures Adds(blocks, meta, a, b) && b.table.IdsUsed()
    decreases |flushes|
  {
    if flushes != [] {
      var n := |flushes| - 1;
      var m :| FlushesDone(first, flushes[..n], outcomes[..n], a, m)
               && AskedAndSent(first, flushes[n], outcomes[n], m, b);
      SameElements(flushes[n]);
      FlushesAdd(blocks, meta, first, flushes[..n], outcomes[..n], a, m);
      AskedAndSentAdds(blocks, meta, first, flushes[n], outcomes[n], m, b);
      AddsThen(blocks, meta, a, m, b);
    }
  }

  /** And the streaming path. */
  lemma BigFileAdds(first: map<Hash, HashData>, flushes: seq<seq<HashData>>, outcomes: seq<AskFate>, rec: Record,
                    fate: Fate, queue: seq<Record>, a: Progress, queue': seq<Record>, b: Progress)
    requires BigFileOutcome(first, flushes, outcomes, rec, fate, queue, a, queue', b) && a.table.IdsUsed()
    ensures Adds(InFileOrder(flushes), MetaPost(rec, true), a, b)
  {
    var blocks, meta := InFileOrder(flushes), MetaPost(rec, true);
    var m :| FlushesDone(first, flushes, outcomes, a, m) && b == MetaSaved(m, rec, true, fate).(filed := b.filed)
             && m.filed <= b.filed <= |b.log|;
    FlushesAdd(blocks, meta, first, flushes, outcomes, a, m);
    SaveAdds(blocks, meta, m, meta);
    AddsThen(blocks, meta, a, m, b);
  }

  // ---------- what saving a file keeps ----------

  /** The small path: the record and the blocks, but for what is dropped. */
  lemma SmallFileKeeps(first: map<Hash, HashData>, list: seq<HashData>, rec: Record, fate: Fate, o: AskFate,
                       queue: seq<Record>, a: Progress, queue': seq<Record>, b: Progress)
    requires SmallFileOutcome(first, list, rec, fate, o, queue, a, queue', b) && a.table.IdsUsed()
    ensures AllKeptBut(first, b.log, b.table, Hashes(list), o.dropped) && RecordKept(queue', b.table, rec)
  {
    SaveAdds(list, MetaPost(rec, false), a, MetaPost(rec, false));
    AskedBlocksAreKept(first, list, o, MetaSaved(a, rec, false, fate), b);
    PostedRecordIsKept(queue, queue', a.table, rec, false, fate, o.batches, o.fates);
  }

  lemma {:induction false} FlushesKeep(first: map<Hash, HashData>, flushes: seq<seq<HashData>>,
                                       outcomes: seq<AskFate>, a: Progress, b: Progress)
    requires FlushesDone(first, flushes, outcomes, a, b) && a.table.IdsUsed()
    ensures AllKeptBut(first, b.log, b.table, Hashes(InFileOrder(flushes)), DroppedOf(outcomes)) && b.table.IdsUsed()
    decreases |flushes|
  {
    if flushes != [] {
      var n := |flushes| - 1;
      var m :| FlushesDone(first, flushes[..n], outcomes[..n], a, m)
               && AskedAndSent(first, flushes[n], outcomes[n], m, b);
      FlushesKeep(first, flushes[..n], outcomes[..n], a, m);
      AskedBlocksAreKept(first, flushes[n], outcomes[n], m, b);
      KeptButMore(first, m.log, m.table, b.log, b.table, InFileOrder(flushes[..n]), DroppedOf(outcomes[..n]),
                  flushes[n], outcomes[n].dropped);
    }
  }

  /** The streaming path: the same, and the blocks are kept already when the record is posted. */
  lemma BigFileKeeps(first: map<Hash, HashData>, flushes: seq<seq<HashData>>, outcomes: seq<AskFate>, rec: Record,
                     fate: Fate, queue: seq<Record>, a: Progress, queue': seq<Record>, b: Progress)
    requires BigFileOutcome(first, flushes, outcomes, rec, fate, queue, a, queue', b) && a.table.IdsUsed()
    ensures exists m: Progress ::
      && AllKeptBut(first, m.log, m.table, Hashes(InFileOrder(flushes)), DroppedOf(outcomes))
      && m.table.IdsUsed() && b == MetaSaved(m, rec, true, fate).(filed := b.filed)
    ensures AllKeptBut(first, b.log, b.table, Hashes(InFileOrder(flushes)), DroppedOf(outcomes))
    ensures RecordKept(queue', b.table, rec)
  {
    var m :| FlushesDone(first, flushes, outcomes, a, m) && b == MetaSaved(m, rec, true, fate).(filed := b.filed)
             && m.filed <= b.filed <= |b.log|;
    FlushesKeep(first, flushes, outcomes, a, m);
    SaveKeeps(first, m.log, m.table, MetaPost(rec, true));
    PostedRecordIsKept(queue, queue', m.table, rec, true, fate, [], []);
  }

  // ---------- nothing dropped, nothing failed ----------

  lemma FlushDropsNothing(first: map<Hash, HashData>, list: seq<HashData>, o: AskFate, limit: int,
                          a: Progress, b: Progress)
    requires AskedAndSent(first, list, o, a, b) && WellCut(o, limit)
    requires NoEmptyBlock(list) && CounterHolds(list, limit)
    ensures o.dropped == []
  {
    AllAskedIsSent(list, Asked(Found(first, a.log, o.looks), list, o.answered), limit);
  }

  /** What holds of the blocks read holds of those read before the last flush, and of those in it. */
  lemma FlushHolds(before: seq<HashData>, last: seq<HashData>, limit: int)
    requires var all := before + Reverse(last); NoEmptyBlock(all) && CounterHolds(all, limit)
    ensures NoEmptyBlock(before) && CounterHolds(before, limit)
    ensures NoEmptyBlock(last) && CounterHolds(last, limit)
  {
    var all := before + Reverse(last);
    assert before == all[..|before|] && forall k :: 0 <= k < |last| ==> last[k] == all[|all| - 1 - k];
    FirstReadHolds(all, |before|, limit);
    LastReadHolds(all, before, last, limit);
  }

  lemma {:induction false} FlushesDropNothing(first: map<Hash, HashData>, flushes: seq<seq<HashData>>,
                                              outcomes: seq<AskFate>, a: Progress, b: Progress,
                                              fateOf: nat -> Fate, p: nat, limit: int)
    requires FlushesDone(first, flushes, outcomes, a, b) && AllFollow(outcomes, fateOf, p, limit)
    requires NoEmptyBlock(InFileOrder(flushes)) && CounterHolds(InFileOrder(flushes), limit)
    ensures DroppedOf(outcomes) == []
    decreases |flushes|
  {
    if flushes != [] {
      var n := |flushes| - 1;
      var m :| FlushesDone(first, flushes[..n], outcomes[..n], a, m)
               && AskedAndSent(first, flushes[n], outcomes[n], m, b);
      FlushHolds(InFileOrder(flushes[..n]), flushes[n], limit);
      FlushesDropNothing(first, flushes[..n], outcomes[..n], a, m, fateOf, p, limit);
      FlushDropsNothing(first, flushes[n], outcomes[n], limit, m, b);
    }
  }

  lemma StreamDropsNothing(fate: Fate, flushes: seq<seq<HashData>>, outcomes: seq<AskFate>,
                           first: map<Hash, HashData>, list: seq<HashData>, rec: Record, fateOf: nat -> Fate,
                           limit: int, x: Point, y: Point)
    requires Took(Streamed(fate, flushes, outcomes), first, list, rec, fateOf, limit, x, y) && NoEmptyBlock(list)
    ensures CounterHolds(list, limit) ==> DroppedOf(outcomes) == []
  {
    var m :| FlushesDone(first, flushes, outcomes, x.at, m)
             && y.at == MetaSaved(m, rec, true, fate).(filed := y.at.filed) && m.filed <= y.at.filed <= |y.at.log|;
    if CounterHolds(list, limit) {
      FlushesDropNothing(first, flushes, outcomes, x.at, m, fateOf, x.posts, limit);
    }
  }

  lemma {:induction false} NoRowSaved(table: Table<Request>, batches: seq<seq<HashData>>, fates: seq<Fate>)
    requires |fates| == |batches| && forall k :: 0 <= k < |fates| ==> fates[k].Acknowledged?
    ensures TableAfter(table, batches, fates) == table
    decreases |batches|
  {
    if batches != [] {
      NoRowSaved(table, batches[..|batches| - 1], fates[..|batches| - 1]);
    }
  }

  lemma {:induction false} NoFlushSaves(first: map<Hash, HashData>, flushes: seq<seq<HashData>>,
                                        outcomes: seq<AskFate>, a: Progress, b: Progress, fateOf: nat -> Fate, p: nat,
                                        limit: int)
    requires FlushesDone(first, flushes, outcomes, a, b) && AllFollow(outcomes, fateOf, p, limit)
    requires AllAnswered(fateOf, p, p + PostsOf(outcomes))
    ensures b.table == a.table
    decreases |flushes|
  {
    if flushes != [] {
      var n := |flushes| - 1;
      var m :| FlushesDone(first, flushes[..n], outcomes[..n], a, m)
               && AskedAndSent(first, flushes[n], outcomes[n], m, b);
      NoFlushSaves(first, flushes[..n], outcomes[..n], a, m, fateOf, p, limit);
      NoRowSaved(m.table, outcomes[n].batches, outcomes[n].fates);
    }
  }

  // ---------- either way ----------

  /** The record and the blocks are kept, but for what was dropped. */
  lemma WayKeeps(way: Way, first: map<Hash, HashData>, list: seq<HashData>, rec: Record, fateOf: nat -> Fate,
                 limit: int, x: Point, y: Point)
    requires Took(way, first, list, rec, fateOf, limit, x, y) && !way.Skipped? && x.at.table.IdsUsed()
    ensures AllKeptBut(first, y.at.log, y.at.table, Hashes(list), way.Dropped())
    ensures RecordKept(y.queue, y.at.table, rec)
  {
    match way
    case InMemory(fate, o) => SmallFileKeeps(first, list, rec, fate, o, x.queue, x.at, y.queue, y.at);
    case Streamed(fate, flushes, outcomes) =>
      BigFileKeeps(first, flushes, outcomes, rec, fate, x.queue, x.at, y.queue, y.at);
  }

  /** Only the blocks of the file and its record are queued or saved. */
  lemma WayAdds(way: Way, first: map<Hash, HashData>, list: seq<HashData>, rec: Record, fateOf: nat -> Fate,
                limit: int, x: Point, y: Point)
    requires Took(way, first, list, rec, fateOf, limit, x, y) && !way.Skipped? && x.at.table.IdsUsed()
    ensures Adds(list, MetaPost(rec, way.Streamed?), x.at, y.at)
  {
    match way
    case InMemory(fate, o) => SmallFileAdds(first, list, rec, fate, o, x.queue, x.at, y.queue, y.at);
    case Streamed(fate, flushes, outcomes) =>
      BigFileAdds(first, flushes, outcomes, rec, fate, x.queue, x.at, y.queue, y.at);
  }

  /** No row is saved if every post is answered. */
  lemma WaySavesNothing(way: Way, first: map<Hash, HashData>, list: seq<HashData>, rec: Record, fateOf: nat -> Fate,
                        limit: int, x: Point, y: Point)
    requires Took(way, first, list, rec, fateOf, limit, x, y)
    ensures AllAnswered(fateOf, x.posts, y.posts) ==> y.at.table == x.at.table
  {
    if AllAnswered(fateOf, x.posts, y.posts) {
      match way
      case Skipped =>
      case InMemory(fate, o) => NoRowSaved(x.at.table, o.batches, o.fates);
      case Streamed(fate, flushes, outcomes) =>
        var m :| FlushesDone(first, flushes, outcomes, x.at, m)
                 && y.at == MetaSaved(m, rec, true, fate).(filed := y.at.filed) && m.filed <= y.at.filed <= |y.at.log|;
        NoFlushSaves(first, flushes, outcomes, x.at, m, fateOf, x.posts, limit);
    }
  }

  // ---------- only genuine blocks travel ----------

  /** Every block that was queued, or waits in a row, carries one of `raws` under its own name. */
  ghost predicate Carries(lib: Library, raws: set<seq<byte>>, log: seq<HashData>, table: Table<Request>) {
    && AllGenuine(lib, raws, log)
    && forall id :: id in table.buffers ==> AllGenuine(lib, raws, Load(table.buffers[id]))
  }

  lemma AddsCarries(lib: Library, raws: set<seq<byte>>, blocks: seq<HashData>, rec: Record, sent: bool,
                    a: Progress, b: Progress)
    requires Adds(blocks, MetaPost(rec, sent), a, b) && AllGenuine(lib, raws, blocks)
    requires Carries(lib, raws, a.log, a.table)
    ensures Carries(lib, raws, b.log, b.table)
  {
    forall x | x in b.log ensures Genuine(lib, raws, x) {
      var k :| 0 <= k < |b.log| && b.log[k] == x;
      assert k < |a.log| ==> x == a.log[k];
    }
  }

  lemma BlocksAreGenuine(lib: Library, raws: set<seq<byte>>, chunks: seq<seq<byte>>, cmptype: Compression)
    requires ZlibSound(lib) && SetOf(chunks) <= raws
    ensures AllGenuine(lib, raws, BlocksOf(lib, chunks, cmptype))
  {
    forall b | b in BlocksOf(lib, chunks, cmptype) ensures Genuine(lib, raws, b) {
      var i :| 0 <= i < |chunks| && BlocksOf(lib, chunks, cmptype)[i] == b;
      assert chunks[i] in SetOf(chunks);
      NewHashDataIsGenuine(lib, raws, chunks[i], cmptype);
    }
  }

  /** The blocks of a list of flushes in the order they were read. */
  function InFileOrder(flushes: seq<seq<HashData>>): seq<HashData> {
    if flushes == [] then []
    else InFileOrder(flushes[..|flushes| - 1]) + Reverse(flushes[|flushes| - 1])
  }

  /** The bytes read for a list whose newest block is first. */
  function RawWeight(list: seq<HashData>): nat {
    if list == [] then 0 else list[0].uncmplen + RawWeight(list[1..])
  }

  /** A flush made when, and as soon as, the limit was reached. */
  ghost predicate FullFlush(list: seq<HashData>, limit: int) {
    list != [] && RawWeight(list) >= limit && (|list| == 1 || RawWeight(list[1..]) < limit)
  }

  ghost predicate AllFlushed(flushes: seq<seq<HashData>>, limit: int) {
    forall k :: 0 <= k < |flushes| ==> FullFlush(flushes[k], limit)
  }

  /** Every block is in exactly one flush, in file order, and the flushes are cut at the limit. */
  ghost predicate Flushing(flushes: seq<seq<HashData>>, blocks: seq<HashData>, limit: int) {
    && InFileOrder(flushes) == blocks
    && (forall k :: 0 <= k < |flushes| - 1 ==> FullFlush(flushes[k], limit))
    && (flushes != [] ==>
          var last := flushes[|flushes| - 1]; last != [] && (FullFlush(last, limit) || RawWeight(last) < limit))
  }

  /** With a counter wide enough for the list nothing that is asked for is dropped. */
  lemma AllAskedIsSent(list: seq<HashData>, asked: seq<Hash>, limit: int)
    requires Answers(list, asked)
    ensures NoEmptyBlock(list) && CounterHolds(list, limit) ==>
      var g := Group(Taken(list, asked), limit);
      Dropped(g) == [] && Batching(Requests(g), Taken(list, asked), limit)
  {
    if NoEmptyBlock(list) && CounterHolds(list, limit) {
      TakenHolds(list, asked, limit);
      AllIsSent(Taken(list, asked), limit);
    }
  }

  /** In the middle of consuming an answer: sent so far, left over in the end. */
  ghost predicate Consuming(all: seq<HashData>, rest: seq<HashData>, left: seq<HashData>, todo: seq<Hash>,
                            sent: seq<HashData>)
  {
    Answers(left, todo) && Left(left, todo) == rest && sent + Taken(left, todo) == all
  }

  /** One lookup: the block found is the next of those the answer takes. */
  lemma LookedUp(all: seq<HashData>, rest: seq<HashData>, left: seq<HashData>, todo: seq<Hash>, sent: seq<HashData>)
    requires Consuming(all, rest, left, todo, sent) && todo != []
    ensures var i := First(left, todo[0]);
      i < |left| && Consuming(all, rest, Without(left, i), todo[1..], sent + [left[i]])
  {
    TakenHead(left, todo);
    var i := First(left, todo[0]);
    Associative(sent, [left[i]], Taken(Without(left, i), todo[1..]));
  }

  /** The same, with the grouping of what was sent. */
  lemma NextIsGrouped(all: seq<HashData>, rest: seq<HashData>, left: seq<HashData>, todo: seq<Hash>,
                      done: seq<HashData>, batches: seq<seq<HashData>>, batch: seq<HashData>, bytes: int, limit: int)
    requires Consuming(all, rest, left, todo, done) && todo != []
    requires Group(done, limit) == Grouping(batches, batch, bytes)
    ensures var i := First(left, todo[0]);
      && i < |left| && Consuming(all, rest, Without(left, i), todo[1..], done + [left[i]])
      && Group(done + [left[i]], limit)
         == Close(Grouping(batches, batch + [left[i]], ToInt(bytes + |left[i].data|)), limit)
  {
    LookedUp(all, rest, left, todo, done);
    GroupOneMore(done, left[First(left, todo[0])], limit);
  }

  lemma AllConsumed(all: seq<HashData>, rest: seq<HashData>, left: seq<HashData>, sent: seq<HashData>)
    requires Consuming(all, rest, left, [], sent)
    ensures sent == all && left == rest
  {
    assert sent + [] == sent;
  }
}
