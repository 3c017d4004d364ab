/**
 The save protocol: any number of clients, each with a saving thread and a reconnection thread, and a
 server that answers each connection in a thread of its own and stores from two queues.

 A step is what one thread does between two points where another can run. Every post may be answered,
 or be given up by the client at any moment; the server may go on handling a request that the client
 has given up, or never see it (it is then simply never scheduled). When the client flushes and how it
 groups blocks into requests is left open, which covers every buffer size; ByteCounter and SavePaths say
 exactly what the code chooses. Where its counter of bytes is not positive after the last block, the rest of
 an answer goes nowhere: that is a step too. Server restarts, read errors and a client without hostname are
 not steps of this machine.
 */
module Protocol {
  import opened Blocks
  import opened BlockLists
  import opened ByteCounter
  import opened Offline

  // ---------- state ----------

  /** server_meta_data_t: the host is the number of the client that sent it. */
  datatype Record = Record(host: nat, key: FileKey, hashes: seq<Hash>)

  datatype Request =
    | MetaPost(rec: Record, dataSent: bool)   // /Meta.json
    | HashPost(hashes: seq<Hash>)             // /Hash_Array.json
    | DataPost(blocks: seq<HashData>)         // /Data.json (one block) or /Data_Array.json

  /** A server thread at work on a request: the hashes it looked up or the blocks it queued so far. */
  datatype Handler = Handler(request: Request, progress: nat, needed: seq<Hash>, done: bool)

  /** `metaHand` and `dataHand` hold what a thread has popped from its queue and not stored yet. */
  datatype Server = Server(
    handlers: seq<Handler>,
    metaQueue: seq<Record>, metaHand: seq<Record>, metaStore: seq<Record>,
    dataQueue: seq<HashData>, dataHand: seq<HashData>, blocks: map<Hash, HashData>)

  /** The file being saved and the chunks read from it so far. */
  datatype Job = Job(key: FileKey, big: bool, chunks: seq<seq<byte>>)

  datatype Saver =
    | Idle
    | Reading(job: Job, list: seq<HashData>, saved: seq<Hash>)
    | Asking(job: Job, list: seq<HashData>, saved: seq<Hash>, req: nat)
    | Sending(job: Job, list: seq<HashData>, saved: seq<Hash>, todo: seq<Hash>)
    | Pushing(job: Job, list: seq<HashData>, saved: seq<Hash>, todo: seq<Hash>, req: nat)
    | PostingMeta(job: Job, list: seq<HashData>, req: nat)
    | Caching(job: Job)

  datatype Relay = Resting | Reposting(id: nat, req: nat)

  /** The cache maps a key to the chunks the client had read: only the keys exist in the program. */
  datatype Client = Client(saver: Saver, relay: Relay, db: Table<Request>, cache: map<FileKey, seq<seq<byte>>>)

  /** `seen`, every block any client has ever read, is history. */
  datatype State = State(clients: seq<Client>, server: Server, seen: set<seq<byte>>)

  function Start(n: nat): State {
    State(seq(n, _ => Client(Idle, Resting, Table(map[], {}, 0), map[])),
          Server([], [], [], [], [], [], map[]), {})
  }

  function RecordOf(lib: Library, c: nat, job: Job): Record {
    Record(c, job.key, HashesOf(lib, job.chunks))
  }

  function BlocksOf(lib: Library, chunks: seq<seq<byte>>, cmptype: Compression): (r: seq<HashData>)
    ensures |r| == |chunks|
    ensures Hashes(r) == HashesOf(lib, chunks)
  {
    seq(|chunks|, i requires 0 <= i < |chunks| => NewHashData(lib, chunks[i], cmptype))
  }

  /** Each block of a file is made from its read, compressed if and only if the client is told to. */
  lemma BlocksArePacked(lib: Library, chunks: seq<seq<byte>>, cmptype: Compression)
    ensures forall i :: 0 <= i < |chunks| ==> Packs(lib, chunks[i], cmptype, BlocksOf(lib, chunks, cmptype)[i])
  {
  }

  function SetOf<T>(s: seq<T>): set<T> {
    set x | x in s
  }

  function Load(r: Request): seq<HashData> {
    if r.DataPost? then r.blocks else []
  }

  /** A row still to post carries the block. */
  ghost predicate RowHolds(t: Table<Request>, h: Hash) {
    exists id :: id in t.Pending() && h in Hashes(Load(t.buffers[id]))
  }

  ghost predicate IsMeta(r: Request, rec: Record) {
    r.MetaPost? && r.rec == rec
  }

  /** A row still to post is the record. */
  ghost predicate RowHoldsRecord(t: Table<Request>, rec: Record) {
    exists id :: id in t.Pending() && IsMeta(t.buffers[id], rec)
  }

  // ---------- the saving thread ----------

  datatype SaverStep =
    | StartSmall(key: FileKey, chunks: seq<seq<byte>>, cmptype: Compression)
    | StartBig(key: FileKey)
    | ReadChunk(raw: seq<byte>, cmptype: Compression)
    | Flush
    | HashsAnswered
    | HashsLost
    | SendBatch(n: nat)
    | DataAnswered
    | DataLost
    | DropRest                  // the counter of bytes is not positive after the last block
    | AnswerUsedUp
    | EndOfFile
    | MetaAnswered
    | MetaLost
    | WriteCache

  /** What a saver step does: a row saved, a request posted, blocks read, the cache. */
  datatype Effect = Effect(saver: Saver, row: Option<Request>, post: Option<Request>,
                           read: set<seq<byte>>, cache: map<FileKey, seq<seq<byte>>>)

  /** A step that only moves the thread on. */
  function GoesTo(cache: map<FileKey, seq<seq<byte>>>, next: Saver): Effect {
    Effect(next, None, None, {}, cache)
  }

  ghost predicate Answered(s: State, req: nat) {
    req < |s.server.handlers| && s.server.handlers[req].done
  }

  ghost predicate SaverCan(s: State, c: nat, step: SaverStep) {
    && c < |s.clients|
    && var saver := s.clients[c].saver;
    match step
    case StartSmall(key, chunks, _) =>
      saver.Idle? && key !in s.clients[c].cache && forall raw :: raw in chunks ==> raw != []
    case StartBig(key) => saver.Idle? && key !in s.clients[c].cache
    case ReadChunk(raw, _) => saver.Reading? && raw != []
    case Flush => saver.Reading? && saver.list != []
    case HashsAnswered => saver.Asking? && Answered(s, saver.req)
    case HashsLost => saver.Asking?
    case SendBatch(n) =>
      saver.Sending? && 1 <= n <= |saver.todo| && Answers(saver.list, saver.todo[..n])
    case DataAnswered => saver.Pushing? && Answered(s, saver.req)
    case DataLost => saver.Pushing? && saver.req < |s.server.handlers|
    case DropRest =>
      saver.Sending? && saver.todo != [] && Answers(saver.list, saver.todo)
      && Counter(Taken(saver.list, saver.todo)) <= 0
    case AnswerUsedUp => saver.Sending? && saver.todo == []
    case EndOfFile => saver.Reading? && saver.list == []
    case MetaAnswered => saver.PostingMeta? && Answered(s, saver.req)
    case MetaLost => saver.PostingMeta? && saver.req < |s.server.handlers|
    case WriteCache => saver.Caching?
  }

  ghost function SaverDoes(lib: Library, s: State, c: nat, step: SaverStep): Effect
    requires SaverCan(s, c, step)
  {
    var Client(saver, _, _, cache) := s.clients[c];
    var handlers := s.server.handlers;
    match step
    case StartSmall(key, chunks, cmptype) =>
      var job := Job(key, false, chunks);
      Effect(PostingMeta(job, BlocksOf(lib, chunks, cmptype), |handlers|),
             None, Some(MetaPost(RecordOf(lib, c, job), false)), SetOf(chunks), cache)
    case StartBig(key) => GoesTo(cache, Reading(Job(key, true, []), [], []))
    case ReadChunk(raw, cmptype) =>
      var job := saver.job.(chunks := saver.job.chunks + [raw]);
      Effect(Reading(job, [NewHashData(lib, raw, cmptype)] + saver.list, saver.saved), None, None, {raw}, cache)
    case Flush =>
      Effect(Asking(saver.job, saver.list, Hashes(saver.list) + saver.saved, |handlers|),
             None, Some(HashPost(Hashes(saver.list))), {}, cache)
    case HashsAnswered => GoesTo(cache, Sending(saver.job, saver.list, saver.saved, handlers[saver.req].needed))
    case HashsLost => GoesTo(cache, Sending(saver.job, saver.list, saver.saved, Hashes(saver.list)))
    case SendBatch(n) =>
      Effect(Pushing(saver.job, Left(saver.list, saver.todo[..n]), saver.saved, saver.todo[n..], |handlers|),
             None, Some(DataPost(Taken(saver.list, saver.todo[..n]))), {}, cache)
    case DataAnswered => GoesTo(cache, Sending(saver.job, saver.list, saver.saved, saver.todo))
    case DataLost =>
      Effect(Sending(saver.job, saver.list, saver.saved, saver.todo),
             Some(handlers[saver.req].request), None, {}, cache)
    case DropRest => GoesTo(cache, Sending(saver.job, Left(saver.list, saver.todo), saver.saved, []))
    case AnswerUsedUp =>
      GoesTo(cache, if saver.job.big then Reading(saver.job, [], saver.saved) else Caching(saver.job))
    case EndOfFile =>
      Effect(PostingMeta(saver.job, [], |handlers|),
             None, Some(MetaPost(Record(c, saver.job.key, Reverse(saver.saved)), true)), {}, cache)
    case MetaAnswered =>
      GoesTo(cache, if saver.job.big then Caching(saver.job)
                    else Sending(saver.job, saver.list, [], handlers[saver.req].needed))
    case MetaLost =>
      Effect(if saver.job.big then Caching(saver.job) else Sending(saver.job, saver.list, [], Hashes(saver.list)),
             Some(handlers[saver.req].request), None, {}, cache)
    case WriteCache => Effect(Idle, None, None, {}, cache[saver.job.key := saver.job.chunks])
  }

  ghost function Perform(s: State, c: nat, e: Effect): State
    requires c < |s.clients|
  {
    var cl := s.clients[c];
    var db := if e.row.Some? then cl.db.Save(e.row.value) else cl.db;
    var handlers := s.server.handlers + if e.post.Some? then [Handler(e.post.value, 0, [], false)] else [];
    State(s.clients[c := Client(e.saver, cl.relay, db, e.cache)], s.server.(handlers := handlers), s.seen + e.read)
  }

  // ---------- everything else ----------

  datatype Step =
    | Save(c: nat, step: SaverStep)
    | Repost(c: nat, id: nat)
    | RepostAnswered(c: nat)
    | RepostLost(c: nat)
    | DeleteRow(c: nat, id: nat)
    | LookUpHash(i: nat)
    | QueueBlock(i: nat)
    | Answer(i: nat)
    | PopMeta
    | StoreMeta
    | PopData
    | StoreData
    | Restart(c: nat)

  /** The hashes a request asks about. */
  function Asks(r: Request): seq<Hash> {
    match r
    case MetaPost(rec, dataSent) => if dataSent then [] else rec.hashes
    case HashPost(hashes) => hashes
    case DataPost(_) => []
  }

  ghost predicate Enabled(s: State, step: Step) {
    var sv := s.server;
    match step
    case Save(c, st) => SaverCan(s, c, st)
    case Repost(c, id) => c < |s.clients| && s.clients[c].relay.Resting? && id in s.clients[c].db.Pending()
    case RepostAnswered(c) =>
      c < |s.clients| && s.clients[c].relay.Reposting? && Answered(s, s.clients[c].relay.req)
    case RepostLost(c) => c < |s.clients| && s.clients[c].relay.Reposting?
    case DeleteRow(c, id) =>
      c < |s.clients| && id in s.clients[c].db.transmited && id in s.clients[c].db.buffers
    case LookUpHash(i) => i < |sv.handlers| && sv.handlers[i].progress < |Asks(sv.handlers[i].request)|
    case QueueBlock(i) => i < |sv.handlers| && sv.handlers[i].progress < |Load(sv.handlers[i].request)|
    case Answer(i) =>
      && i < |sv.handlers| && !sv.handlers[i].done
      && sv.handlers[i].progress == |Asks(sv.handlers[i].request)| + |Load(sv.handlers[i].request)|
    case PopMeta => sv.metaHand == [] && sv.metaQueue != []
    case StoreMeta => sv.metaHand != []
    case PopData => sv.dataHand == [] && sv.dataQueue != []
    case StoreData => sv.dataHand != []
    case Restart(c) => c < |s.clients|
  }

  ghost function WithClient(s: State, c: nat, cl: Client): State
    requires c < |s.clients|
  {
    s.(clients := s.clients[c := cl])
  }

  ghost function WithHandler(sv: Server, i: nat, h: Handler): Server
    requires i < |sv.handlers|
  {
    sv.(handlers := sv.handlers[i := h])
  }

  ghost function Apply(lib: Library, s: State, step: Step): State
    requires Enabled(s, step)
  {
    var sv := s.server;
    match step
    case Save(c, st) => Perform(s, c, SaverDoes(lib, s, c, st))
    case Repost(c, id) =>
      var cl := s.clients[c];
      WithClient(s, c, cl.(relay := Reposting(id, |sv.handlers|)))
        .(server := sv.(handlers := sv.handlers + [Handler(cl.db.buffers[id], 0, [], false)]))
    case RepostAnswered(c) =>
      var cl := s.clients[c];
      WithClient(s, c, cl.(relay := Resting, db := cl.db.Mark(cl.relay.id)))
    case RepostLost(c) => WithClient(s, c, s.clients[c].(relay := Resting))
    case DeleteRow(c, id) => WithClient(s, c, s.clients[c].(db := s.clients[c].db.Delete(id)))
    case LookUpHash(i) =>
      var hd := sv.handlers[i];
      var h := Asks(hd.request)[hd.progress];
      var needed := if h in sv.blocks || h in hd.needed then hd.needed else hd.needed + [h];
      s.(server := WithHandler(sv, i, hd.(progress := hd.progress + 1, needed := needed)))
    case QueueBlock(i) =>
      var hd := sv.handlers[i];
      var b := Load(hd.request)[hd.progress];
      s.(server := WithHandler(sv, i, hd.(progress := hd.progress + 1)).(dataQueue := sv.dataQueue + [b]))
    case Answer(i) =>
      var hd := sv.handlers[i];
      var queue := if hd.request.MetaPost? then sv.metaQueue + [hd.request.rec] else sv.metaQueue;
      s.(server := WithHandler(sv, i, hd.(done := true)).(metaQueue := queue))
    case PopMeta => s.(server := sv.(metaQueue := sv.metaQueue[1..], metaHand := [sv.metaQueue[0]]))
    case StoreMeta => s.(server := sv.(metaStore := sv.metaStore + [sv.metaHand[0]], metaHand := sv.metaHand[1..]))
    case PopData => s.(server := sv.(dataQueue := sv.dataQueue[1..], dataHand := [sv.dataQueue[0]]))
    case StoreData =>
      s.(server := sv.(blocks := sv.blocks[sv.dataHand[0].hash := sv.dataHand[0]], dataHand := sv.dataHand[1..]))
    case Restart(c) => WithClient(s, c, s.clients[c].(saver := Idle, relay := Resting))
  }

  ghost predicate Run(lib: Library, s: State, steps: seq<Step>, s': State)
    decreases |steps|
  {
    if steps == [] then s == s'
    else Enabled(s, steps[0]) && Run(lib, Apply(lib, s, steps[0]), steps[1..], s')
  }

  lemma {:induction false} RunThen(lib: Library, s: State, first: seq<Step>, m: State, rest: seq<Step>, s': State)
    requires Run(lib, s, first, m) && Run(lib, m, rest, s')
    ensures Run(lib, s, first + rest, s')
    decreases |first|
  {
    if first == [] {
      assert first + rest == rest;
    } else {
      assert (first + rest)[1..] == first[1..] + rest;
      RunThen(lib, Apply(lib, s, first[0]), first[1..], m, rest, s');
    }
  }

  /** Blocks are dropped. */
  predicate Drops(step: Step) {
    step.Save? && step.step.DropRest?
  }

  ghost predicate Dropless(steps: seq<Step>) {
    forall k :: 0 <= k < |steps| ==> !Drops(steps[k])
  }

  /** Some run leads from one state to the other, without dropping any block if that is asked for. */
  ghost predicate Leads(lib: Library, s: State, s': State, dropless: bool) {
    exists steps :: Run(lib, s, steps, s') && (dropless ==> Dropless(steps))
  }

  ghost predicate Reaches(lib: Library, s: State, s': State) {
    Leads(lib, s, s', true)
  }

  lemma ReachesItself(lib: Library, s: State)
    ensures Reaches(lib, s, s)
  {
    assert Run(lib, s, [], s);
  }

  lemma LeadsThen(lib: Library, s: State, m: State, s': State, before: bool, after: bool)
    requires Leads(lib, s, m, before) && Leads(lib, m, s', after)
    ensures Leads(lib, s, s', before && after)
  {
    var first :| Run(lib, s, first, m) && (before ==> Dropless(first));
    var rest :| Run(lib, m, rest, s') && (after ==> Dropless(rest));
    RunThen(lib, s, first, m, rest, s');
    assert before && after ==> Dropless(first + rest);
  }

  lemma ReachesThen(lib: Library, s: State, m: State, s': State)
    requires Reaches(lib, s, m) && Reaches(lib, m, s')
    ensures Reaches(lib, s, s')
  {
    LeadsThen(lib, s, m, s', true, true);
  }

  lemma StepLeads(lib: Library, s: State, step: Step)
    requires Enabled(s, step)
    ensures Leads(lib, s, Apply(lib, s, step), !Drops(step))
  {
    assert [step][1..] == [];
    assert Run(lib, s, [step], Apply(lib, s, step));
    assert !Drops(step) ==> Dropless([step]);
  }

  lemma StepReaches(lib: Library, s: State, step: Step)
    requires Enabled(s, step) && !Drops(step)
    ensures Reaches(lib, s, Apply(lib, s, step))
  {
    StepLeads(lib, s, step);
  }
}
