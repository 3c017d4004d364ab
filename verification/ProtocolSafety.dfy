/**
 What every step of the save protocol keeps, and what follows for whole runs.
 */
module ProtocolSafety {
  import opened Blocks
  import opened BlockLists
  import opened ByteCounter
  import opened Offline
  import opened Protocol

  // ---------- where a block or a record can be ----------

  /** The server holds the block, stored or on its way to the store. */
  ghost predicate OnServer(sv: Server, h: Hash) {
    h in sv.blocks || h in Hashes(sv.dataQueue) || h in Hashes(sv.dataHand)
  }

  ghost predicate RecordOnServer(sv: Server, rec: Record) {
    rec in sv.metaStore || rec in sv.metaQueue || rec in sv.metaHand
  }

  /** Safe against any client restart: on the server or in a row still to post. */
  ghost predicate Durable(s: State, h: Hash) {
    OnServer(s.server, h) || exists c :: 0 <= c < |s.clients| && RowHolds(s.clients[c].db, h)
  }

  ghost predicate RecordDurable(s: State, rec: Record) {
    RecordOnServer(s.server, rec) || exists c :: 0 <= c < |s.clients| && RowHoldsRecord(s.clients[c].db, rec)
  }

  ghost predicate AllDurable(s: State, hashes: seq<Hash>) {
    forall h :: h in hashes ==> Durable(s, h)
  }

  // ---------- nothing durable is ever given up ----------

  /** s' keeps everything durable in s, and the server threads of s. */
  ghost predicate Grows(s: State, s': State) {
    && |s'.clients| == |s.clients|
    && s.seen <= s'.seen
    && s.server.blocks.Keys <= s'.server.blocks.Keys
    && (forall h :: OnServer(s.server, h) ==> OnServer(s'.server, h))
    && (forall rec :: RecordOnServer(s.server, rec) ==> RecordOnServer(s'.server, rec))
    && (forall h :: Durable(s, h) ==> Durable(s', h))
    && (forall rec :: RecordDurable(s, rec) ==> RecordDurable(s', rec))
    && |s.server.handlers| <= |s'.server.handlers|
    && (forall i :: 0 <= i < |s.server.handlers| ==> s'.server.handlers[i].request == s.server.handlers[i].request)
  }

  /** Rows may leave a client's waiting rows only towards the server. */
  ghost predicate RowsKept(cl: Client, cl': Client, sv': Server) {
    && (forall h :: RowHolds(cl.db, h) ==> RowHolds(cl'.db, h) || OnServer(sv', h))
    && (forall rec :: RowHoldsRecord(cl.db, rec) ==> RowHoldsRecord(cl'.db, rec) || RecordOnServer(sv', rec))
  }

  ghost predicate ServerGrows(sv: Server, sv': Server) {
    && sv.blocks.Keys <= sv'.blocks.Keys
    && (forall h :: OnServer(sv, h) ==> OnServer(sv', h))
    && (forall rec :: RecordOnServer(sv, rec) ==> RecordOnServer(sv', rec))
    && |sv.handlers| <= |sv'.handlers|
    && (forall i :: 0 <= i < |sv.handlers| ==> sv'.handlers[i].request == sv.handlers[i].request)
  }

  lemma GrowsFrom(s: State, s': State)
    requires |s'.clients| == |s.clients| && s.seen <= s'.seen && ServerGrows(s.server, s'.server)
    requires forall c :: 0 <= c < |s.clients| ==> RowsKept(s.clients[c], s'.clients[c], s'.server)
    ensures Grows(s, s')
  {
    forall h | Durable(s, h) ensures Durable(s', h) {
      if !OnServer(s.server, h) {
        var c :| 0 <= c < |s.clients| && RowHolds(s.clients[c].db, h);
        assert RowsKept(s.clients[c], s'.clients[c], s'.server);
      }
    }
    forall rec | RecordDurable(s, rec) ensures RecordDurable(s', rec) {
      if !RecordOnServer(s.server, rec) {
        var c :| 0 <= c < |s.clients| && RowHoldsRecord(s.clients[c].db, rec);
        assert RowsKept(s.clients[c], s'.clients[c], s'.server);
      }
    }
  }

  lemma SavedRowIsHeld(cl: Client, cl': Client, r: Request, sv: Server)
    requires cl.db.IdsUsed() && cl'.db == cl.db.Save(r)
    ensures RowsKept(cl, cl', sv)
    ensures forall h :: h in Hashes(Load(r)) ==> RowHolds(cl'.db, h)
    ensures r.MetaPost? ==> RowHoldsRecord(cl'.db, r.rec)
  {
    var id := cl.db.last + 1;
    assert id in cl'.db.Pending() && cl'.db.buffers[id] == r;
    forall h | RowHolds(cl.db, h) ensures RowHolds(cl'.db, h) {
      var k :| k in cl.db.Pending() && h in Hashes(Load(cl.db.buffers[k]));
      assert k in cl'.db.Pending() && cl'.db.buffers[k] == cl.db.buffers[k];
    }
    forall rec | RowHoldsRecord(cl.db, rec) ensures RowHoldsRecord(cl'.db, rec) {
      var k :| k in cl.db.Pending() && IsMeta(cl.db.buffers[k], rec);
      assert k in cl'.db.Pending() && cl'.db.buffers[k] == cl.db.buffers[k];
    }
  }

  lemma MarkedRowIsOnServer(cl: Client, cl': Client, id: nat, sv: Server)
    requires id in cl.db.Pending() && cl'.db == cl.db.Mark(id)
    requires forall h :: h in Hashes(Load(cl.db.buffers[id])) ==> OnServer(sv, h)
    requires forall rec :: IsMeta(cl.db.buffers[id], rec) ==> RecordOnServer(sv, rec)
    ensures RowsKept(cl, cl', sv)
  {
    forall h | RowHolds(cl.db, h) && !OnServer(sv, h) ensures RowHolds(cl'.db, h) {
      var k :| k in cl.db.Pending() && h in Hashes(Load(cl.db.buffers[k]));
      assert k in cl'.db.Pending();
    }
    forall rec | RowHoldsRecord(cl.db, rec) && !RecordOnServer(sv, rec) ensures RowHoldsRecord(cl'.db, rec) {
      var k :| k in cl.db.Pending() && IsMeta(cl.db.buffers[k], rec);
      assert k in cl'.db.Pending();
    }
  }

  lemma SamePendingRows(cl: Client, cl': Client, sv: Server)
    requires cl'.db.Pending() == cl.db.Pending()
    requires forall id :: id in cl.db.Pending() ==> cl'.db.buffers[id] == cl.db.buffers[id]
    ensures RowsKept(cl, cl', sv)
  {
    forall h | RowHolds(cl.db, h) ensures RowHolds(cl'.db, h) {
      var k :| k in cl.db.Pending() && h in Hashes(Load(cl.db.buffers[k]));
      assert k in cl'.db.Pending();
    }
    forall rec | RowHoldsRecord(cl.db, rec) ensures RowHoldsRecord(cl'.db, rec) {
      var k :| k in cl.db.Pending() && IsMeta(cl.db.buffers[k], rec);
      assert k in cl'.db.Pending();
    }
  }

  // ---------- the invariant ----------

  /** A server thread answers truthfully and acknowledges only what it has queued. */
  ghost predicate HandlerOk(lib: Library, s: State, hd: Handler) {
    var asks, load := Asks(hd.request), Load(hd.request);
    && hd.progress <= |asks| + |load|
    && NoDuplicates(hd.needed)
    && (forall h :: h in hd.needed ==> h in asks)
    && (forall k :: 0 <= k < hd.progress && k < |asks| ==> asks[k] in hd.needed || asks[k] in s.server.blocks)
    && (forall k :: 0 <= k < hd.progress && k < |load| ==> OnServer(s.server, load[k].hash))
    && AllGenuine(lib, s.seen, load)
    && (hd.done ==>
          && hd.progress == |asks| + |load|
          && (hd.request.MetaPost? ==> RecordOnServer(s.server, hd.request.rec)))
  }

  /** The client's request r went out under number req. */
  ghost predicate Sent(s: State, req: nat, r: Request) {
    req < |s.server.handlers| && s.server.handlers[req].request == r
  }

  ghost predicate Pushed(s: State, req: nat) {
    req < |s.server.handlers| && s.server.handlers[req].request.DataPost?
  }

  /** What the saving thread has still to hand over. */
  ghost function Owes(s: State, saver: Saver): seq<Hash> {
    match saver
    case Idle => []
    case Reading(_, list, _) => Hashes(list)
    case Asking(_, list, _, _) => Hashes(list)
    case Sending(_, _, _, todo) => todo
    case Pushing(_, _, _, todo, req) =>
      (if Pushed(s, req) then Hashes(s.server.handlers[req].request.blocks) else []) + todo
    case PostingMeta(_, list, _) => Hashes(list)
    case Caching(_) => []
  }

  /** Every block read for the file so far is durable or still to be handed over by this thread. */
  ghost predicate Accounted(lib: Library, s: State, saver: Saver, job: Job) {
    forall h :: h in HashesOf(lib, job.chunks) ==> Durable(s, h) || h in Owes(s, saver)
  }

  /** What a thread has still to hand over are blocks of its file. */
  ghost predicate OwesOwnBlocks(lib: Library, s: State, saver: Saver, job: Job) {
    !job.big ==> forall h :: h in Owes(s, saver) ==> h in HashesOf(lib, job.chunks)
  }

  ghost predicate SaverOk(lib: Library, s: State, c: nat, saver: Saver) {
    match saver
    case Idle => true
    case Reading(job, list, saved) =>
      && job.big && SetOf(job.chunks) <= s.seen && AllGenuine(lib, s.seen, list)
      && HashesOf(lib, job.chunks) == Reverse(Hashes(list) + saved)
      && Accounted(lib, s, saver, job)
    case Asking(job, list, saved, req) =>
      && job.big && SetOf(job.chunks) <= s.seen && AllGenuine(lib, s.seen, list)
      && HashesOf(lib, job.chunks) == Reverse(saved)
      && Accounted(lib, s, saver, job)
      && Sent(s, req, HashPost(Hashes(list)))
    case Sending(job, list, saved, todo) =>
      && SetOf(job.chunks) <= s.seen && AllGenuine(lib, s.seen, list)
      && (if job.big then HashesOf(lib, job.chunks) == Reverse(saved) else RecordDurable(s, RecordOf(lib, c, job)))
      && Accounted(lib, s, saver, job) && OwesOwnBlocks(lib, s, saver, job)
      && Answers(list, todo)
    case Pushing(job, list, saved, todo, req) =>
      && SetOf(job.chunks) <= s.seen && AllGenuine(lib, s.seen, list)
      && (if job.big then HashesOf(lib, job.chunks) == Reverse(saved) else RecordDurable(s, RecordOf(lib, c, job)))
      && Accounted(lib, s, saver, job) && OwesOwnBlocks(lib, s, saver, job)
      && Answers(list, todo)
      && Pushed(s, req)
    case PostingMeta(job, list, req) =>
      && SetOf(job.chunks) <= s.seen && AllGenuine(lib, s.seen, list)
      && (if job.big then list == [] else Hashes(list) == HashesOf(lib, job.chunks))
      && Accounted(lib, s, saver, job)
      && Sent(s, req, MetaPost(RecordOf(lib, c, job), job.big))
    case Caching(job) =>
      && SetOf(job.chunks) <= s.seen
      && Accounted(lib, s, saver, job)
      && RecordDurable(s, RecordOf(lib, c, job))
  }

  ghost predicate RelayOk(s: State, cl: Client) {
    cl.relay.Reposting? ==>
      cl.relay.id in cl.db.Pending() && Sent(s, cl.relay.req, cl.db.buffers[cl.relay.id])
  }

  ghost predicate TableOk(lib: Library, s: State, cl: Client) {
    && cl.db.IdsUsed()
    && forall id :: id in cl.db.buffers ==> AllGenuine(lib, s.seen, Load(cl.db.buffers[id]))
  }

  /** A cached file: its record and every one of its blocks are durable. */
  ghost predicate CachedOk(lib: Library, s: State, c: nat, key: FileKey, chunks: seq<seq<byte>>) {
    && SetOf(chunks) <= s.seen
    && RecordDurable(s, Record(c, key, HashesOf(lib, chunks)))
    && AllDurable(s, HashesOf(lib, chunks))
  }

  ghost predicate CacheOk(lib: Library, s: State, c: nat, cl: Client) {
    forall key :: key in cl.cache ==> CachedOk(lib, s, c, key, cl.cache[key])
  }

  ghost predicate ClientOk(lib: Library, s: State, c: nat, cl: Client) {
    SaverOk(lib, s, c, cl.saver) && RelayOk(s, cl) && TableOk(lib, s, cl) && CacheOk(lib, s, c, cl)
  }

  ghost predicate StoreOk(lib: Library, s: State) {
    && AllGenuine(lib, s.seen, s.server.dataQueue)
    && AllGenuine(lib, s.seen, s.server.dataHand)
    && GenuineStore(lib, s.seen, s.server.blocks)
  }

  ghost predicate Inv(lib: Library, s: State) {
    && StoreOk(lib, s)
    && (forall i :: 0 <= i < |s.server.handlers| ==> HandlerOk(lib, s, s.server.handlers[i]))
    && (forall c :: 0 <= c < |s.clients| ==> ClientOk(lib, s, c, s.clients[c]))
  }

  // ---------- what a growing state keeps for everyone else ----------

  lemma HandlerStays(lib: Library, s: State, s': State, hd: Handler)
    requires Grows(s, s') && HandlerOk(lib, s, hd)
    ensures HandlerOk(lib, s', hd)
  {
  }

  lemma OwesStays(s: State, s': State, saver: Saver)
    requires Grows(s, s') && (saver.Pushing? ==> Pushed(s, saver.req))
    ensures Owes(s', saver) == Owes(s, saver)
  {
  }

  lemma ClientStays(lib: Library, s: State, s': State, c: nat, cl: Client)
    requires Grows(s, s') && ClientOk(lib, s, c, cl)
    ensures ClientOk(lib, s', c, cl)
  {
    OwesStays(s, s', cl.saver);
    CachedStays(lib, s, s', c, cl);
  }

  // ---------- the steps of the saving thread ----------

  lemma SaverGrows(lib: Library, s: State, c: nat, st: SaverStep)
    requires Inv(lib, s) && SaverCan(s, c, st)
    ensures Grows(s, Perform(s, c, SaverDoes(lib, s, c, st)))
  {
    var e := SaverDoes(lib, s, c, st);
    var s' := Perform(s, c, e);
    assert ClientOk(lib, s, c, s.clients[c]);
    forall d | 0 <= d < |s.clients| ensures RowsKept(s.clients[d], s'.clients[d], s'.server) {
      if d == c && e.row.Some? {
        SavedRowIsHeld(s.clients[c], s'.clients[c], e.row.value, s'.server);
      } else {
        SamePendingRows(s.clients[d], s'.clients[d], s'.server);
      }
    }
    GrowsFrom(s, s');
  }

  /** The saver step and the state it leads to, from a state that satisfies the invariant. */
  ghost predicate SaverMoves(lib: Library, s: State, c: nat, st: SaverStep, s': State) {
    && ZlibSound(lib) && SaverCan(s, c, st) && !st.DropRest?
    && s' == Perform(s, c, SaverDoes(lib, s, c, st))
    && Grows(s, s')
    && SaverOk(lib, s, c, s.clients[c].saver) && TableOk(lib, s, s.clients[c])
  }

  lemma StartSmallOk(lib: Library, s: State, c: nat, st: SaverStep, s': State)
    requires SaverMoves(lib, s, c, st, s') && st.StartSmall?
    ensures SaverOk(lib, s', c, s'.clients[c].saver)
  {
    var list := BlocksOf(lib, st.chunks, st.cmptype);
    forall b | b in list ensures Genuine(lib, s'.seen, b) {
      var i :| 0 <= i < |list| && list[i] == b;
      assert st.chunks[i] in SetOf(st.chunks);
      NewHashDataIsGenuine(lib, s'.seen, st.chunks[i], st.cmptype);
    }
  }

  lemma ReadChunkNames(lib: Library, chunks: seq<seq<byte>>, raw: seq<byte>,
                       b: HashData, list: seq<HashData>, saved: seq<Hash>)
    requires HashesOf(lib, chunks) == Reverse(Hashes(list) + saved) && b.hash == lib.sha256(raw)
    ensures HashesOf(lib, chunks + [raw]) == HashesOf(lib, chunks) + [b.hash]
    ensures Hashes([b] + list) == [b.hash] + Hashes(list)
    ensures HashesOf(lib, chunks + [raw]) == Reverse(Hashes([b] + list) + saved)
  {
    assert Hashes([b] + list) + saved == [b.hash] + (Hashes(list) + saved);
  }

  /** The state of a reading thread after one more chunk, told without the step. */
  lemma ReadingOn(lib: Library, s: State, s': State, c: nat, saver: Saver, saver': Saver, raw: seq<byte>, b: HashData)
    requires Grows(s, s') && SaverOk(lib, s, c, saver) && saver.Reading?
    requires saver' == Reading(saver.job.(chunks := saver.job.chunks + [raw]), [b] + saver.list, saver.saved)
    requires raw in s'.seen && b.hash == lib.sha256(raw) && Genuine(lib, s'.seen, b)
    ensures SaverOk(lib, s', c, saver')
  {
    ReadChunkNames(lib, saver.job.chunks, raw, b, saver.list, saver.saved);
    forall h | h in HashesOf(lib, saver'.job.chunks) ensures Durable(s', h) || h in Owes(s', saver') {
      assert h == b.hash || h in HashesOf(lib, saver.job.chunks);
    }
  }

  lemma ReadChunkOk(lib: Library, s: State, c: nat, st: SaverStep, s': State)
    requires SaverMoves(lib, s, c, st, s') && st.ReadChunk?
    ensures SaverOk(lib, s', c, s'.clients[c].saver)
  {
    NewHashDataIsGenuine(lib, s'.seen, st.raw, st.cmptype);
    ReadingOn(lib, s, s', c, s.clients[c].saver, s'.clients[c].saver, st.raw, NewHashData(lib, st.raw, st.cmptype));
  }

  lemma NothingListed(saved: seq<Hash>)
    ensures Hashes([]) + saved == saved
  {
  }

  lemma FlushOk(lib: Library, s: State, c: nat, st: SaverStep, s': State)
    requires SaverMoves(lib, s, c, st, s') && st.Flush?
    ensures SaverOk(lib, s', c, s'.clients[c].saver)
  {
  }

  /** The answer of a finished lookup: the hashes left out are in the store. */
  lemma NeededIsEnough(lib: Library, s: State, req: nat, list: seq<HashData>)
    requires Inv(lib, s) && Answered(s, req) && Asks(s.server.handlers[req].request) == Hashes(list)
    ensures var needed := s.server.handlers[req].needed;
      && Answers(list, needed)
      && (forall h :: h in needed ==> h in Hashes(list))
      && forall h :: h in Hashes(list) ==> h in needed || h in s.server.blocks
  {
    var hd := s.server.handlers[req];
    assert HandlerOk(lib, s, hd);
    SelectionAnswers(list, hd.needed);
    forall h | h in Hashes(list) ensures h in hd.needed || h in s.server.blocks {
      var k :| 0 <= k < |Hashes(list)| && Hashes(list)[k] == h;
      assert Asks(hd.request)[k] == h;
    }
  }

  lemma HashsAnsweredOk(lib: Library, s: State, c: nat, st: SaverStep, s': State)
    requires SaverMoves(lib, s, c, st, s') && st.HashsAnswered? && Inv(lib, s)
    ensures SaverOk(lib, s', c, s'.clients[c].saver)
  {
    var saver := s.clients[c].saver;
    NeededIsEnough(lib, s, saver.req, saver.list);
  }

  lemma HashsLostOk(lib: Library, s: State, c: nat, st: SaverStep, s': State)
    requires SaverMoves(lib, s, c, st, s') && st.HashsLost?
    ensures SaverOk(lib, s', c, s'.clients[c].saver)
  {
    WholeListAnswers(s.clients[c].saver.list);
  }

  /** Consuming the first n hashes of an answer leaves a list that answers the rest. */
  lemma RestAnswers(list: seq<HashData>, todo: seq<Hash>, n: nat)
    requires n <= |todo| && Answers(list, todo)
    ensures Answers(list, todo[..n])
    ensures Answers(Left(list, todo[..n]), todo[n..])
    ensures Hashes(Taken(list, todo[..n])) + todo[n..] == todo
    ensures forall b :: b in Taken(list, todo[..n]) || b in Left(list, todo[..n]) ==> b in list
  {
    assert todo == todo[..n] + todo[n..];
    PartsAnswer(list, todo[..n], todo[n..]);
    TakenIsWhatWasAsked(list, todo[..n]);
    TakenAreListed(list, todo[..n]);
  }

  lemma BatchOnItsWay(lib: Library, s: State, s': State, c: nat, saver: Saver, saver': Saver)
    requires Grows(s, s') && SaverOk(lib, s, c, saver) && saver.Sending?
    requires saver'.Pushing? && saver'.job == saver.job && saver'.saved == saver.saved
    requires Pushed(s', saver'.req) && Owes(s', saver') == saver.todo
    requires Answers(saver'.list, saver'.todo) && forall b :: b in saver'.list ==> b in saver.list
    ensures SaverOk(lib, s', c, saver')
  {
  }

  lemma SendBatchOk(lib: Library, s: State, c: nat, st: SaverStep, s': State)
    requires SaverMoves(lib, s, c, st, s') && st.SendBatch?
    ensures SaverOk(lib, s', c, s'.clients[c].saver)
  {
    var saver, saver' := s.clients[c].saver, s'.clients[c].saver;
    RestAnswers(saver.list, saver.todo, st.n);
    BatchOnItsWay(lib, s, s', c, saver, saver');
  }

  /** Once a data post is answered, its blocks are on the server. */
  lemma AnsweredDataIsOnServer(lib: Library, s: State, req: nat)
    requires Inv(lib, s) && Answered(s, req)
    ensures forall h :: h in Hashes(Load(s.server.handlers[req].request)) ==> OnServer(s.server, h)
  {
    var hd := s.server.handlers[req];
    assert HandlerOk(lib, s, hd);
    forall h | h in Hashes(Load(hd.request)) ensures OnServer(s.server, h) {
      var k :| 0 <= k < |Load(hd.request)| && Hashes(Load(hd.request))[k] == h;
    }
  }

  lemma DataAnsweredOk(lib: Library, s: State, c: nat, st: SaverStep, s': State)
    requires SaverMoves(lib, s, c, st, s') && st.DataAnswered? && Inv(lib, s)
    ensures SaverOk(lib, s', c, s'.clients[c].saver)
  {
    AnsweredDataIsOnServer(lib, s, s.clients[c].saver.req);
  }

  lemma RowSavedIsDurable(s: State, c: nat, e: Effect)
    requires c < |s.clients| && s.clients[c].db.IdsUsed() && e.row.Some?
    ensures AllDurable(Perform(s, c, e), Hashes(Load(e.row.value)))
    ensures e.row.value.MetaPost? ==> RecordDurable(Perform(s, c, e), e.row.value.rec)
  {
    var s' := Perform(s, c, e);
    SavedRowIsHeld(s.clients[c], s'.clients[c], e.row.value, s'.server);
  }

  lemma DataLostOk(lib: Library, s: State, c: nat, st: SaverStep, s': State)
    requires SaverMoves(lib, s, c, st, s') && st.DataLost?
    ensures SaverOk(lib, s', c, s'.clients[c].saver)
  {
    RowSavedIsDurable(s, c, SaverDoes(lib, s, c, st));
  }

  lemma AnswerUsedUpOk(lib: Library, s: State, c: nat, st: SaverStep, s': State)
    requires SaverMoves(lib, s, c, st, s') && st.AnswerUsedUp?
    ensures SaverOk(lib, s', c, s'.clients[c].saver)
  {
    NothingListed(s.clients[c].saver.saved);
  }

  lemma EndOfFileOk(lib: Library, s: State, c: nat, st: SaverStep, s': State)
    requires SaverMoves(lib, s, c, st, s') && st.EndOfFile?
    ensures SaverOk(lib, s', c, s'.clients[c].saver)
  {
    NothingListed(s.clients[c].saver.saved);
  }

  lemma MetaAnsweredOk(lib: Library, s: State, c: nat, st: SaverStep, s': State)
    requires SaverMoves(lib, s, c, st, s') && st.MetaAnswered? && Inv(lib, s)
    ensures SaverOk(lib, s', c, s'.clients[c].saver)
  {
    var saver := s.clients[c].saver;
    assert HandlerOk(lib, s, s.server.handlers[saver.req]);
    if !saver.job.big {
      NeededIsEnough(lib, s, saver.req, saver.list);
    }
  }

  lemma MetaLostOk(lib: Library, s: State, c: nat, st: SaverStep, s': State)
    requires SaverMoves(lib, s, c, st, s') && st.MetaLost?
    ensures SaverOk(lib, s', c, s'.clients[c].saver)
  {
    WholeListAnswers(s.clients[c].saver.list);
    RowSavedIsDurable(s, c, SaverDoes(lib, s, c, st));
  }

  lemma SaverStepOk(lib: Library, s: State, c: nat, st: SaverStep, s': State)
    requires SaverMoves(lib, s, c, st, s') && Inv(lib, s)
    ensures SaverOk(lib, s', c, s'.clients[c].saver)
  {
    match st
    case StartSmall(_, _, _) => StartSmallOk(lib, s, c, st, s');
    case StartBig(_) =>
    case ReadChunk(_, _) => ReadChunkOk(lib, s, c, st, s');
    case Flush => FlushOk(lib, s, c, st, s');
    case HashsAnswered => HashsAnsweredOk(lib, s, c, st, s');
    case HashsLost => HashsLostOk(lib, s, c, st, s');
    case SendBatch(_) => SendBatchOk(lib, s, c, st, s');
    case DataAnswered => DataAnsweredOk(lib, s, c, st, s');
    case DataLost => DataLostOk(lib, s, c, st, s');
    case AnswerUsedUp => AnswerUsedUpOk(lib, s, c, st, s');
    case EndOfFile => EndOfFileOk(lib, s, c, st, s');
    case MetaAnswered => MetaAnsweredOk(lib, s, c, st, s');
    case MetaLost => MetaLostOk(lib, s, c, st, s');
    case WriteCache =>
    case DropRest => assert false;
  }

  lemma SaverKeepsTables(lib: Library, s: State, c: nat, st: SaverStep, s': State)
    requires SaverMoves(lib, s, c, st, s') && RelayOk(s, s.clients[c])
    requires var e := SaverDoes(lib, s, c, st); e.row.Some? ==> AllGenuine(lib, s.seen, Load(e.row.value))
    ensures RelayOk(s', s'.clients[c]) && TableOk(lib, s', s'.clients[c])
  {
  }

  lemma SavedRowIsGenuine(lib: Library, s: State, c: nat, st: SaverStep)
    requires Inv(lib, s) && SaverCan(s, c, st)
    ensures var e := SaverDoes(lib, s, c, st); e.row.Some? ==> AllGenuine(lib, s.seen, Load(e.row.value))
  {
    if st.DataLost? || st.MetaLost? {
      assert HandlerOk(lib, s, s.server.handlers[s.clients[c].saver.req]);
    }
  }

  lemma CachedStays(lib: Library, s: State, s': State, c: nat, cl: Client)
    requires Grows(s, s') && CacheOk(lib, s, c, cl)
    ensures CacheOk(lib, s', c, cl)
  {
    forall key | key in cl.cache ensures CachedOk(lib, s', c, key, cl.cache[key]) {
      assert CachedOk(lib, s, c, key, cl.cache[key]);
    }
  }

  /** Only the last step adds to the cache, and by then the file is safe. */
  lemma NowCached(lib: Library, s: State, s': State, c: nat, job: Job)
    requires Grows(s, s') && SaverOk(lib, s, c, Caching(job))
    ensures CachedOk(lib, s', c, job.key, job.chunks)
  {
    assert Owes(s, Caching(job)) == [];
  }

  lemma SaverKeepsCache(lib: Library, s: State, c: nat, st: SaverStep, s': State)
    requires SaverMoves(lib, s, c, st, s') && CacheOk(lib, s, c, s.clients[c])
    ensures CacheOk(lib, s', c, s'.clients[c])
  {
    CachedStays(lib, s, s', c, s.clients[c]);
    if st.WriteCache? {
      NowCached(lib, s, s', c, s.clients[c].saver.job);
    } else {
      assert s'.clients[c].cache == s.clients[c].cache;
    }
  }

  lemma SaverKeepsHandlers(lib: Library, s: State, c: nat, st: SaverStep, s': State)
    requires SaverMoves(lib, s, c, st, s') && Inv(lib, s)
    ensures forall i :: 0 <= i < |s'.server.handlers| ==> HandlerOk(lib, s', s'.server.handlers[i])
  {
    var n := |s.server.handlers|;
    forall i | 0 <= i < |s'.server.handlers| ensures HandlerOk(lib, s', s'.server.handlers[i]) {
      if i < n {
        HandlerStays(lib, s, s', s.server.handlers[i]);
      } else if st.StartSmall? {
      } else if st.SendBatch? {
        TakenAreListed(s.clients[c].saver.list, s.clients[c].saver.todo[..st.n]);
      }
    }
  }

  lemma SaveKeepsInv(lib: Library, s: State, c: nat, st: SaverStep)
    requires ZlibSound(lib) && Inv(lib, s) && SaverCan(s, c, st) && !st.DropRest?
    ensures var s' := Perform(s, c, SaverDoes(lib, s, c, st)); Inv(lib, s') && Grows(s, s')
  {
    var s' := Perform(s, c, SaverDoes(lib, s, c, st));
    assert ClientOk(lib, s, c, s.clients[c]);
    SaverGrows(lib, s, c, st);
    SaverStepOk(lib, s, c, st, s');
    SavedRowIsGenuine(lib, s, c, st);
    SaverKeepsTables(lib, s, c, st, s');
    SaverKeepsCache(lib, s, c, st, s');
    SaverKeepsHandlers(lib, s, c, st, s');
    forall d | 0 <= d < |s'.clients| ensures ClientOk(lib, s', d, s'.clients[d]) {
      if d != c {
        ClientStays(lib, s, s', d, s.clients[d]);
      }
    }
  }

  // ---------- the other steps ----------

  /** Steps that leave every thread and table of the clients alone. */
  lemma ServerStepKeepsInv(lib: Library, s: State, s': State)
    requires Inv(lib, s) && s'.clients == s.clients && s'.seen == s.seen
    requires ServerGrows(s.server, s'.server) && StoreOk(lib, s')
    requires Grows(s, s') ==>
      forall i :: 0 <= i < |s'.server.handlers| ==>
        || (i < |s.server.handlers| && s'.server.handlers[i] == s.server.handlers[i])
        || HandlerOk(lib, s', s'.server.handlers[i])
    ensures Inv(lib, s') && Grows(s, s')
  {
    forall c | 0 <= c < |s.clients| ensures RowsKept(s.clients[c], s'.clients[c], s'.server) {
      SamePendingRows(s.clients[c], s'.clients[c], s'.server);
    }
    GrowsFrom(s, s');
    forall i | 0 <= i < |s'.server.handlers| ensures HandlerOk(lib, s', s'.server.handlers[i]) {
      if i < |s.server.handlers| && s'.server.handlers[i] == s.server.handlers[i] {
        HandlerStays(lib, s, s', s.server.handlers[i]);
      }
    }
    forall c | 0 <= c < |s'.clients| ensures ClientOk(lib, s', c, s'.clients[c]) {
      ClientStays(lib, s, s', c, s.clients[c]);
    }
  }

  lemma LookUpKeepsInv(lib: Library, s: State, i: nat)
    requires Inv(lib, s) && Enabled(s, LookUpHash(i))
    ensures var s' := Apply(lib, s, LookUpHash(i)); Inv(lib, s') && Grows(s, s')
  {
    var s' := Apply(lib, s, LookUpHash(i));
    assert HandlerOk(lib, s, s.server.handlers[i]);
    ServerStepKeepsInv(lib, s, s');
  }

  lemma QueueBlockKeepsInv(lib: Library, s: State, i: nat)
    requires Inv(lib, s) && Enabled(s, QueueBlock(i))
    ensures var s' := Apply(lib, s, QueueBlock(i)); Inv(lib, s') && Grows(s, s')
  {
    var s' := Apply(lib, s, QueueBlock(i));
    var hd := s.server.handlers[i];
    assert HandlerOk(lib, s, hd);
    var b := Load(hd.request)[hd.progress];
    assert Hashes(s'.server.dataQueue) == Hashes(s.server.dataQueue) + [b.hash];
    ServerStepKeepsInv(lib, s, s');
  }

  lemma AnswerKeepsInv(lib: Library, s: State, i: nat)
    requires Inv(lib, s) && Enabled(s, Answer(i))
    ensures var s' := Apply(lib, s, Answer(i)); Inv(lib, s') && Grows(s, s')
  {
    assert HandlerOk(lib, s, s.server.handlers[i]);
    ServerStepKeepsInv(lib, s, Apply(lib, s, Answer(i)));
  }

  lemma StoreStepKeepsInv(lib: Library, s: State, step: Step)
    requires Inv(lib, s) && Enabled(s, step)
    requires step.PopMeta? || step.StoreMeta? || step.PopData? || step.StoreData?
    ensures var s' := Apply(lib, s, step); Inv(lib, s') && Grows(s, s')
  {
    var s' := Apply(lib, s, step);
    var sv, sv' := s.server, s'.server;
    if step.PopMeta? {
      assert sv.metaQueue == [sv.metaQueue[0]] + sv'.metaQueue;
    } else if step.StoreMeta? {
      assert sv.metaHand == [sv.metaHand[0]] + sv'.metaHand;
    } else if step.PopData? {
      assert Hashes(sv.dataQueue) == [sv.dataQueue[0].hash] + Hashes(sv'.dataQueue);
      assert Hashes(sv'.dataHand) == [sv.dataQueue[0].hash];
    } else {
      assert Hashes(sv.dataHand) == [sv.dataHand[0].hash] + Hashes(sv'.dataHand);
    }
    ServerStepKeepsInv(lib, s, s');
  }

  /** Steps that change one client besides its saving thread, and may post a request. */
  lemma ClientStepKeepsInv(lib: Library, s: State, c: nat, s': State)
    requires Inv(lib, s) && c < |s.clients| == |s'.clients| && s'.seen == s.seen
    requires s' == WithClient(s, c, s'.clients[c]).(server := s.server.(handlers := s'.server.handlers))
    requires s.server.handlers <= s'.server.handlers
    requires RowsKept(s.clients[c], s'.clients[c], s'.server)
    requires Grows(s, s') ==> ClientOk(lib, s', c, s'.clients[c])
    requires Grows(s, s') ==>
      forall i :: |s.server.handlers| <= i < |s'.server.handlers| ==> HandlerOk(lib, s', s'.server.handlers[i])
    ensures Inv(lib, s') && Grows(s, s')
  {
    forall d | 0 <= d < |s.clients| ensures RowsKept(s.clients[d], s'.clients[d], s'.server) {
      if d != c {
        SamePendingRows(s.clients[d], s'.clients[d], s'.server);
      }
    }
    GrowsFrom(s, s');
    forall i | 0 <= i < |s'.server.handlers| ensures HandlerOk(lib, s', s'.server.handlers[i]) {
      if i < |s.server.handlers| {
        HandlerStays(lib, s, s', s.server.handlers[i]);
      }
    }
    forall d | 0 <= d < |s'.clients| ensures ClientOk(lib, s', d, s'.clients[d]) {
      if d != c {
        ClientStays(lib, s, s', d, s.clients[d]);
      }
    }
  }

  lemma RepostKeepsInv(lib: Library, s: State, c: nat, id: nat)
    requires Inv(lib, s) && Enabled(s, Repost(c, id))
    ensures var s' := Apply(lib, s, Repost(c, id)); Inv(lib, s') && Grows(s, s')
  {
    var s' := Apply(lib, s, Repost(c, id));
    assert ClientOk(lib, s, c, s.clients[c]);
    SamePendingRows(s.clients[c], s'.clients[c], s'.server);
    if Grows(s, s') {
      ClientStays(lib, s, s', c, s.clients[c]);
    }
    ClientStepKeepsInv(lib, s, c, s');
  }

  lemma RepostAnsweredKeepsInv(lib: Library, s: State, c: nat)
    requires Inv(lib, s) && Enabled(s, RepostAnswered(c))
    ensures var s' := Apply(lib, s, RepostAnswered(c)); Inv(lib, s') && Grows(s, s')
  {
    var s' := Apply(lib, s, RepostAnswered(c));
    var cl := s.clients[c];
    assert ClientOk(lib, s, c, cl);
    AnsweredDataIsOnServer(lib, s, cl.relay.req);
    assert HandlerOk(lib, s, s.server.handlers[cl.relay.req]);
    MarkedRowIsOnServer(cl, s'.clients[c], cl.relay.id, s'.server);
    if Grows(s, s') {
      ClientStays(lib, s, s', c, cl);
    }
    ClientStepKeepsInv(lib, s, c, s');
  }

  lemma DeleteRowKeepsInv(lib: Library, s: State, c: nat, id: nat)
    requires Inv(lib, s) && Enabled(s, DeleteRow(c, id))
    ensures var s' := Apply(lib, s, DeleteRow(c, id)); Inv(lib, s') && Grows(s, s')
  {
    var s' := Apply(lib, s, DeleteRow(c, id));
    assert ClientOk(lib, s, c, s.clients[c]);
    assert s'.clients[c].db.Pending() == s.clients[c].db.Pending();
    SamePendingRows(s.clients[c], s'.clients[c], s'.server);
    if Grows(s, s') {
      ClientStays(lib, s, s', c, s.clients[c]);
    }
    ClientStepKeepsInv(lib, s, c, s');
  }

  lemma ThreadsStopKeepsInv(lib: Library, s: State, c: nat, step: Step)
    requires Inv(lib, s) && Enabled(s, step) && (step == Restart(c) || step == RepostLost(c))
    ensures var s' := Apply(lib, s, step); Inv(lib, s') && Grows(s, s')
  {
    var s' := Apply(lib, s, step);
    assert ClientOk(lib, s, c, s.clients[c]);
    SamePendingRows(s.clients[c], s'.clients[c], s'.server);
    if Grows(s, s') {
      ClientStays(lib, s, s', c, s.clients[c]);
    }
    ClientStepKeepsInv(lib, s, c, s');
  }

  /** A client without its rest: what matters of the state after dropping. */
  lemma DropChangesOneThread(lib: Library, s: State, c: nat)
    requires Enabled(s, Save(c, DropRest))
    ensures var s' := Apply(lib, s, Save(c, DropRest));
      var Sending(job, list, saved, todo) := s.clients[c].saver;
      && s' == WithClient(s, c, s.clients[c].(saver := Sending(job, Left(list, todo), saved, [])))
      && s'.server == s.server && s'.seen == s.seen
      && forall h :: Durable(s', h) <==> Durable(s, h)
  {
    var s' := Apply(lib, s, Save(c, DropRest));
    var Sending(job, list, saved, todo) := s.clients[c].saver;
    assert s.server.handlers + [] == s.server.handlers && s.seen + {} == s.seen;
    assert s' == WithClient(s, c, s.clients[c].(saver := Sending(job, Left(list, todo), saved, [])));
    assert forall d :: 0 <= d < |s.clients| ==> s'.clients[d].db == s.clients[d].db;
  }

  /** Blocks of the file being saved are dropped, and not all blocks of it are durable without them. */
  ghost predicate LosesRest(lib: Library, s: State, step: Step) {
    Enabled(s, step) && Drops(step) && !AllDurable(s, HashesOf(lib, s.clients[step.c].saver.job.chunks))
  }

  lemma HarmlessDropKeepsInv(lib: Library, s: State, c: nat)
    requires Inv(lib, s) && Enabled(s, Save(c, DropRest))
    requires AllDurable(s, HashesOf(lib, s.clients[c].saver.job.chunks))
    ensures var s' := Apply(lib, s, Save(c, DropRest)); Inv(lib, s') && Grows(s, s')
  {
    var s' := Apply(lib, s, Save(c, DropRest));
    DropChangesOneThread(lib, s, c);
    assert ClientOk(lib, s, c, s.clients[c]);
    TakenAreListed(s.clients[c].saver.list, s.clients[c].saver.todo);
    SamePendingRows(s.clients[c], s'.clients[c], s'.server);
    if Grows(s, s') {
      ClientStays(lib, s, s', c, s.clients[c]);
    }
    ClientStepKeepsInv(lib, s, c, s');
  }

  /**
   Exactly when it does no harm that blocks are dropped: every block read of the file so far is durable
   without them.
   */
  lemma DropIsHarmlessIff(lib: Library, s: State, c: nat)
    requires Inv(lib, s) && Enabled(s, Save(c, DropRest))
    ensures Inv(lib, Apply(lib, s, Save(c, DropRest)))
      <==> AllDurable(s, HashesOf(lib, s.clients[c].saver.job.chunks))
  {
    var s' := Apply(lib, s, Save(c, DropRest));
    DropChangesOneThread(lib, s, c);
    if AllDurable(s, HashesOf(lib, s.clients[c].saver.job.chunks)) {
      HarmlessDropKeepsInv(lib, s, c);
    }
    if Inv(lib, s') {
      assert ClientOk(lib, s', c, s'.clients[c]);
    }
  }

  /** Blocks are dropped only when those still to send are two gigabytes or more. */
  lemma DropNeedsOverflow(s: State, c: nat)
    requires Enabled(s, Save(c, DropRest)) && NoEmptyBlock(s.clients[c].saver.list)
    ensures var saver := s.clients[c].saver; Weight(Taken(saver.list, saver.todo)) >= 0x8000_0000
  {
    var saver := s.clients[c].saver;
    var rest := Taken(saver.list, saver.todo);
    TakenIsWhatWasAsked(saver.list, saver.todo);
    TakenAreListed(saver.list, saver.todo);
    var last := rest[|rest| - 1];
    assert last in rest;
    var k :| 0 <= k < |saver.list| && saver.list[k] == last;
    assert Weight(rest) >= |last.data| > 0;
  }

  /** Every step, but one that drops blocks nobody else has, keeps the invariant and everything durable. */
  lemma StepKeepsInv(lib: Library, s: State, step: Step)
    requires ZlibSound(lib) && Inv(lib, s) && Enabled(s, step) && !LosesRest(lib, s, step)
    ensures var s' := Apply(lib, s, step); Inv(lib, s') && Grows(s, s')
  {
    match step
    case Save(c, st) =>
      if st.DropRest? {
        HarmlessDropKeepsInv(lib, s, c);
      } else {
        SaveKeepsInv(lib, s, c, st);
      }
    case Repost(c, id) => RepostKeepsInv(lib, s, c, id);
    case RepostAnswered(c) => RepostAnsweredKeepsInv(lib, s, c);
    case RepostLost(c) => ThreadsStopKeepsInv(lib, s, c, step);
    case DeleteRow(c, id) => DeleteRowKeepsInv(lib, s, c, id);
    case LookUpHash(i) => LookUpKeepsInv(lib, s, i);
    case QueueBlock(i) => QueueBlockKeepsInv(lib, s, i);
    case Answer(i) => AnswerKeepsInv(lib, s, i);
    case Restart(c) => ThreadsStopKeepsInv(lib, s, c, step);
    case _ => StoreStepKeepsInv(lib, s, step);
  }

  /** A run in which no block is dropped that nobody else has. */
  ghost predicate NoRestLost(lib: Library, s: State, steps: seq<Step>)
    decreases |steps|
  {
    steps != [] && Enabled(s, steps[0]) ==>
      !LosesRest(lib, s, steps[0]) && NoRestLost(lib, Apply(lib, s, steps[0]), steps[1..])
  }

  lemma {:induction false} DroplessLosesNoRest(lib: Library, s: State, steps: seq<Step>)
    requires Dropless(steps)
    ensures NoRestLost(lib, s, steps)
    decreases |steps|
  {
    if steps != [] && Enabled(s, steps[0]) {
      DroplessLosesNoRest(lib, Apply(lib, s, steps[0]), steps[1..]);
    }
  }

  lemma {:induction false} NoRestLostThen(
      lib: Library, s: State, first: seq<Step>, m: State, rest: seq<Step>)
    requires Run(lib, s, first, m) && NoRestLost(lib, s, first) && NoRestLost(lib, m, rest)
    ensures NoRestLost(lib, s, first + rest)
    decreases |first|
  {
    if first == [] {
      assert first + rest == rest;
    } else {
      assert (first + rest)[1..] == first[1..] + rest;
      NoRestLostThen(lib, Apply(lib, s, first[0]), first[1..], m, rest);
    }
  }

  lemma {:induction false} RunKeepsInv(lib: Library, s: State, steps: seq<Step>, s': State)
    requires ZlibSound(lib) && Inv(lib, s) && Run(lib, s, steps, s') && NoRestLost(lib, s, steps)
    ensures Inv(lib, s')
    decreases |steps|
  {
    if steps != [] {
      StepKeepsInv(lib, s, steps[0]);
      RunKeepsInv(lib, Apply(lib, s, steps[0]), steps[1..], s');
    }
  }

  // ---------- whole runs ----------

  lemma StartOk(lib: Library, n: nat)
    ensures Inv(lib, Start(n))
    ensures forall rec :: !Known(Start(n), rec)
  {
    var s := Start(n);
    assert |s.clients| == n && s.server.handlers == [];
    assert forall c :: 0 <= c < n ==> s.clients[c].db.buffers == map[];
  }

  /**
   Reached from the start by a run in which no block is dropped that nobody else has; AllSentIff of ByteCounter
   says for which sizes no block is ever dropped.
   */
  ghost predicate Reachable(lib: Library, n: nat, steps: seq<Step>, s: State) {
    Run(lib, Start(n), steps, s) && NoRestLost(lib, Start(n), steps)
  }

  /** What is reachable stays so through steps that drop nothing. */
  lemma ReachableThen(lib: Library, n: nat, steps: seq<Step>, s: State, more: seq<Step>, s': State)
    requires Reachable(lib, n, steps, s) && Run(lib, s, more, s') && Dropless(more)
    ensures Reachable(lib, n, steps + more, s')
  {
    RunThen(lib, Start(n), steps, s, more, s');
    DroplessLosesNoRest(lib, s, more);
    NoRestLostThen(lib, Start(n), steps, s, more);
  }

  lemma ReachableInv(lib: Library, n: nat, steps: seq<Step>, s: State)
    requires ZlibSound(lib) && Reachable(lib, n, steps, s)
    ensures Inv(lib, s)
  {
    StartOk(lib, n);
    RunKeepsInv(lib, Start(n), steps, s);
  }

  /**
   In every reachable state, whatever was posted, lost or restarted: a file in a client's cache has its
   record and all its blocks on the server or in the client's waiting rows. Skipping it loses nothing.
   */
  lemma CachedFilesAreSafe(lib: Library, n: nat, steps: seq<Step>, s: State, c: nat, key: FileKey)
    requires ZlibSound(lib) && Reachable(lib, n, steps, s)
    requires c < |s.clients| && key in s.clients[c].cache
    ensures var hashes := HashesOf(lib, s.clients[c].cache[key]);
      RecordDurable(s, Record(c, key, hashes)) && AllDurable(s, hashes)
  {
    ReachableInv(lib, n, steps, s);
    assert ClientOk(lib, s, c, s.clients[c]);
    assert CachedOk(lib, s, c, key, s.clients[c].cache[key]);
  }

  /** In every reachable state a client finds each block it is asked for. */
  lemma LookupsNeverMiss(lib: Library, n: nat, steps: seq<Step>, s: State, c: nat)
    requires ZlibSound(lib) && Reachable(lib, n, steps, s)
    requires c < |s.clients| && s.clients[c].saver.Sending?
    ensures Answers(s.clients[c].saver.list, s.clients[c].saver.todo)
    ensures forall k :: 1 <= k <= |s.clients[c].saver.todo| ==> SaverCan(s, c, SendBatch(k))
  {
    ReachableInv(lib, n, steps, s);
    assert ClientOk(lib, s, c, s.clients[c]);
    var saver := s.clients[c].saver;
    forall k | 1 <= k <= |saver.todo| ensures SaverCan(s, c, SendBatch(k)) {
      RestAnswers(saver.list, saver.todo, k);
    }
  }

  /** Nothing is on its way any more. */
  ghost predicate Settled(s: State) {
    && s.server.metaQueue == [] && s.server.metaHand == []
    && s.server.dataQueue == [] && s.server.dataHand == []
    && forall c :: 0 <= c < |s.clients| ==> s.clients[c].db.Pending() == {}
  }

  lemma SettledMeansStored(s: State)
    requires Settled(s)
    ensures forall h :: Durable(s, h) ==> h in s.server.blocks
    ensures forall rec :: RecordDurable(s, rec) ==> rec in s.server.metaStore
  {
    assert forall c, h :: 0 <= c < |s.clients| ==> !RowHolds(s.clients[c].db, h);
    assert forall c, rec :: 0 <= c < |s.clients| ==> !RowHoldsRecord(s.clients[c].db, rec);
  }

  /**
   The point of the whole system: once queues and waiting rows are empty, every file in any client's
   cache has a stored record, and restoring that record gives the bytes the client had read, however
   many clients, losses, restarts and shared blocks the run had. Two different blocks read by any client
   must not have the same hash.
   */
  lemma CachedFilesCanBeRestored(lib: Library, n: nat, steps: seq<Step>, s: State, c: nat, key: FileKey)
    requires ZlibSound(lib) && Reachable(lib, n, steps, s) && Settled(s) && CollisionFree(lib, s.seen)
    requires c < |s.clients| && key in s.clients[c].cache
    ensures var chunks := s.clients[c].cache[key];
      exists rec :: rec in s.server.metaStore && rec.host == c && rec.key == key
                    && Restored(lib, s.server.blocks, rec.hashes) == Concat(chunks)
  {
    var chunks := s.clients[c].cache[key];
    var rec := Record(c, key, HashesOf(lib, chunks));
    assert rec in s.server.metaStore && (forall h :: h in rec.hashes ==> h in s.server.blocks) by {
      CachedFilesAreSafe(lib, n, steps, s, c, key);
      SettledMeansStored(s);
    }
    assert SetOf(chunks) <= s.seen && GenuineStore(lib, s.seen, s.server.blocks) by {
      ReachableInv(lib, n, steps, s);
      assert ClientOk(lib, s, c, s.clients[c]) && CachedOk(lib, s, c, key, chunks);
    }
    forall r | r in chunks ensures r in s.seen && lib.sha256(r) in s.server.blocks {
      assert r in SetOf(chunks);
      var i :| 0 <= i < |chunks| && chunks[i] == r;
      assert rec.hashes[i] == lib.sha256(r);
    }
    RestoreGivesFileBack(lib, s.seen, s.server.blocks, chunks);
  }

  // ---------- which restarts lose blocks that a record refers to ----------

  /** The record of a small file goes out before its blocks: from then on its thread must still send them. */
  ghost predicate Liable(saver: Saver) {
    (saver.PostingMeta? || saver.Sending? || saver.Pushing?) && !saver.job.big
  }

  ghost predicate OwedBy(s: State, c: nat, h: Hash) {
    c < |s.clients| && Liable(s.clients[c].saver) && h in Owes(s, s.clients[c].saver)
  }

  /** Durable, or in the hands of a thread that has posted a record that refers to it. */
  ghost predicate Covered(s: State, h: Hash) {
    Durable(s, h) || exists c :: OwedBy(s, c, h)
  }

  /** The same without the thread of client c. */
  ghost predicate CoveredElsewhere(s: State, c: nat, h: Hash) {
    Durable(s, h) || exists d :: d != c && OwedBy(s, d, h)
  }

  /** A record that has left a client's memory: on the server, in a server thread or in a row. */
  ghost predicate Known(s: State, rec: Record) {
    || RecordOnServer(s.server, rec)
    || (exists i :: 0 <= i < |s.server.handlers| && IsMeta(s.server.handlers[i].request, rec))
    || (exists c, id :: 0 <= c < |s.clients| && id in s.clients[c].db.buffers
                        && IsMeta(s.clients[c].db.buffers[id], rec))
  }

  ghost predicate NoDangling(s: State) {
    forall rec, h :: Known(s, rec) && h in rec.hashes ==> Covered(s, h)
  }

  /** Client c restarts between the record and the last block of a small file that has a block nobody else has. */
  ghost predicate LosesBlocks(lib: Library, s: State, step: Step) {
    && step.Restart? && step.c < |s.clients| && Liable(s.clients[step.c].saver)
    && exists h :: h in HashesOf(lib, s.clients[step.c].saver.job.chunks) && !CoveredElsewhere(s, step.c, h)
  }

  ghost predicate NoLoss(lib: Library, s: State, steps: seq<Step>)
    decreases |steps|
  {
    steps != [] && Enabled(s, steps[0]) ==>
      !LosesBlocks(lib, s, steps[0]) && NoLoss(lib, Apply(lib, s, steps[0]), steps[1..])
  }

  lemma BatchIsStillOwed(lib: Library, s: State, c: nat, st: SaverStep)
    requires SaverCan(s, c, st) && st.SendBatch? && Answers(s.clients[c].saver.list, s.clients[c].saver.todo)
    ensures var s' := Perform(s, c, SaverDoes(lib, s, c, st));
      Owes(s', s'.clients[c].saver) == Owes(s, s.clients[c].saver)
  {
    var Sending(job, list, saved, todo) := s.clients[c].saver;
    RestAnswers(list, todo, st.n);
    var s' := Perform(s, c, SaverDoes(lib, s, c, st));
    var req := |s.server.handlers|;
    assert s'.server.handlers[req].request == DataPost(Taken(list, todo[..st.n]));
    assert s'.clients[c].saver == Pushing(job, Left(list, todo[..st.n]), saved, todo[st.n..], req);
  }

  /** Durable, or owed still. */
  ghost predicate StillCovered(s: State, c: nat, h: Hash) {
    Durable(s, h) || OwedBy(s, c, h)
  }

  lemma MetaAnswerCoversDebts(lib: Library, s: State, c: nat, st: SaverStep, s': State, h: Hash)
    requires SaverMoves(lib, s, c, st, s') && Inv(lib, s) && OwedBy(s, c, h) && st.MetaAnswered?
    ensures StillCovered(s', c, h)
  {
    var saver := s.clients[c].saver;
    NeededIsEnough(lib, s, saver.req, saver.list);
    assert h in s.server.handlers[saver.req].needed || OnServer(s.server, h);
  }

  lemma DataPostCoversDebts(lib: Library, s: State, c: nat, st: SaverStep, s': State, h: Hash)
    requires SaverMoves(lib, s, c, st, s') && Inv(lib, s) && OwedBy(s, c, h)
    requires st.DataAnswered? || st.DataLost?
    ensures StillCovered(s', c, h)
  {
    if st.DataAnswered? {
      AnsweredDataIsOnServer(lib, s, s.clients[c].saver.req);
    } else {
      RowSavedIsDurable(s, c, SaverDoes(lib, s, c, st));
    }
  }

  /** What the thread of a small file owed before a step is durable after it or owed still. */
  lemma DebtsAreKept(lib: Library, s: State, c: nat, st: SaverStep, s': State, h: Hash)
    requires SaverMoves(lib, s, c, st, s') && Inv(lib, s) && OwedBy(s, c, h)
    ensures StillCovered(s', c, h)
  {
    if st.SendBatch? {
      BatchIsStillOwed(lib, s, c, st);
    } else if st.MetaAnswered? {
      MetaAnswerCoversDebts(lib, s, c, st, s', h);
    } else if st.DataAnswered? || st.DataLost? {
      DataPostCoversDebts(lib, s, c, st, s', h);
    }
  }

  /** Only its own restart makes a thread forget what it owes. */
  lemma DebtStays(lib: Library, s: State, step: Step, s': State, d: nat, h: Hash)
    requires ZlibSound(lib) && Inv(lib, s) && Enabled(s, step) && !LosesRest(lib, s, step)
    requires s' == Apply(lib, s, step) && Grows(s, s')
    requires OwedBy(s, d, h) && step != Restart(d)
    ensures StillCovered(s', d, h)
  {
    assert ClientOk(lib, s, d, s.clients[d]);
    if step == Save(d, DropRest) {
      DropChangesOneThread(lib, s, d);
      assert h in HashesOf(lib, s.clients[d].saver.job.chunks);
    } else if step.Save? && step.c == d {
      DebtsAreKept(lib, s, d, step.step, s', h);
    } else {
      assert s'.clients[d].saver == s.clients[d].saver;
      OwesStays(s, s', s.clients[d].saver);
    }
  }

  /** A block that is covered has someone, other than a client that restarts now, who covers it. */
  lemma SomeoneElseOwes(lib: Library, s: State, step: Step, h: Hash) returns (d: nat)
    requires Inv(lib, s) && Enabled(s, step) && !LosesBlocks(lib, s, step)
    requires Covered(s, h) && !Durable(s, h)
    ensures OwedBy(s, d, h) && step != Restart(d)
  {
    d :| OwedBy(s, d, h);
    if step == Restart(d) {
      assert ClientOk(lib, s, d, s.clients[d]);
      assert h in HashesOf(lib, s.clients[d].saver.job.chunks);
      assert CoveredElsewhere(s, d, h);
      var e :| e != d && OwedBy(s, e, h);
      d := e;
    }
  }

  /** A record becomes known only when a saving thread posts it. */
  lemma NewRecordWasPosted(lib: Library, s: State, step: Step, rec: Record)
    requires Enabled(s, step) && Known(Apply(lib, s, step), rec) && !Known(s, rec)
    ensures step.Save? && var e := SaverDoes(lib, s, step.c, step.step);
      e.post.Some? && IsMeta(e.post.value, rec)
  {
    var s' := Apply(lib, s, step);
    if exists i :: 0 <= i < |s'.server.handlers| && IsMeta(s'.server.handlers[i].request, rec) {
      var i :| 0 <= i < |s'.server.handlers| && IsMeta(s'.server.handlers[i].request, rec);
      assert i < |s.server.handlers| ==> s'.server.handlers[i].request == s.server.handlers[i].request;
    }
  }

  /** And then its hashes are accounted for: with a small file as debts, with a big one they are durable. */
  lemma PostedRecordIsCovered(lib: Library, s: State, c: nat, st: SaverStep, s': State, rec: Record)
    requires SaverMoves(lib, s, c, st, s') && SaverOk(lib, s', c, s'.clients[c].saver)
    requires var e := SaverDoes(lib, s, c, st); e.post.Some? && IsMeta(e.post.value, rec)
    ensures forall h :: h in rec.hashes ==> Covered(s', h)
  {
    var saver' := s'.clients[c].saver;
    assert saver'.PostingMeta? && rec == RecordOf(lib, c, saver'.job);
    forall h | h in rec.hashes ensures Covered(s', h) {
      assert Durable(s', h) || h in Owes(s', saver');
      assert !Durable(s', h) ==> OwedBy(s', c, h);
    }
  }

  lemma StepKeepsNoDangling(lib: Library, s: State, step: Step)
    requires ZlibSound(lib) && Inv(lib, s) && NoDangling(s) && Enabled(s, step) && !LosesBlocks(lib, s, step)
    requires !LosesRest(lib, s, step)
    ensures NoDangling(Apply(lib, s, step))
  {
    var s' := Apply(lib, s, step);
    StepKeepsInv(lib, s, step);
    forall rec, h | Known(s', rec) && h in rec.hashes ensures Covered(s', h) {
      if Known(s, rec) {
        if !Durable(s, h) {
          var d := SomeoneElseOwes(lib, s, step, h);
          DebtStays(lib, s, step, s', d, h);
        }
      } else {
        NewRecordWasPosted(lib, s, step, rec);
        assert ClientOk(lib, s, step.c, s.clients[step.c]) && ClientOk(lib, s', step.c, s'.clients[step.c]);
        PostedRecordIsCovered(lib, s, step.c, step.step, s', rec);
      }
    }
  }

  /** The record of a small file is known from the moment it is posted. */
  lemma RecordIsKnown(lib: Library, s: State, c: nat)
    requires Inv(lib, s) && c < |s.clients| && Liable(s.clients[c].saver)
    ensures Known(s, RecordOf(lib, c, s.clients[c].saver.job))
  {
    var saver := s.clients[c].saver;
    var rec := RecordOf(lib, c, saver.job);
    assert ClientOk(lib, s, c, s.clients[c]);
    if saver.PostingMeta? {
      assert IsMeta(s.server.handlers[saver.req].request, rec);
    } else if !RecordOnServer(s.server, rec) {
      var d :| 0 <= d < |s.clients| && RowHoldsRecord(s.clients[d].db, rec);
      var id :| id in s.clients[d].db.Pending() && IsMeta(s.clients[d].db.buffers[id], rec);
    }
  }

  /**
   Exactly when a restart keeps every referenced block: the client is not between the record and the last
   block of a small file, or every block of that file is durable or still owed by another such client.
   */
  lemma RestartIsHarmlessIff(lib: Library, s: State, c: nat)
    requires ZlibSound(lib) && Inv(lib, s) && NoDangling(s) && c < |s.clients|
    ensures NoDangling(Apply(lib, s, Restart(c))) <==>
      (Liable(s.clients[c].saver) ==>
        forall h :: h in HashesOf(lib, s.clients[c].saver.job.chunks) ==> CoveredElsewhere(s, c, h))
  {
    var s' := Apply(lib, s, Restart(c));
    if !LosesBlocks(lib, s, Restart(c)) {
      StepKeepsNoDangling(lib, s, Restart(c));
    } else {
      var h :| h in HashesOf(lib, s.clients[c].saver.job.chunks) && !CoveredElsewhere(s, c, h);
      RecordIsKnown(lib, s, c);
      var rec := RecordOf(lib, c, s.clients[c].saver.job);
      RestartKeepsRows(lib, s, c);
      assert Known(s', rec);
      assert !Durable(s', h);
      forall d | OwedBy(s', d, h) ensures false {
        assert d != c && OwedBy(s, d, h);
      }
      assert !Covered(s', h);
    }
  }

  /** A restart changes neither the server nor any row. */
  lemma RestartKeepsRows(lib: Library, s: State, c: nat)
    requires c < |s.clients|
    ensures var s' := Apply(lib, s, Restart(c));
      && s'.server == s.server && |s'.clients| == |s.clients|
      && (forall d :: 0 <= d < |s.clients| ==> s'.clients[d].db == s.clients[d].db)
      && (forall h :: Durable(s', h) <==> Durable(s, h))
      && (forall rec :: Known(s', rec) <==> Known(s, rec))
  {
    var s' := Apply(lib, s, Restart(c));
    assert forall d :: 0 <= d < |s.clients| ==> s'.clients[d].db == s.clients[d].db;
  }

  lemma {:induction false} RunKeepsNoDangling(lib: Library, s: State, steps: seq<Step>, s': State)
    requires ZlibSound(lib) && Inv(lib, s) && NoDangling(s) && Run(lib, s, steps, s') && NoLoss(lib, s, steps)
    requires NoRestLost(lib, s, steps)
    ensures NoDangling(s')
    decreases |steps|
  {
    if steps != [] {
      StepKeepsInv(lib, s, steps[0]);
      StepKeepsNoDangling(lib, s, steps[0]);
      RunKeepsNoDangling(lib, Apply(lib, s, steps[0]), steps[1..], s');
    }
  }

  /**
   In every state reached by a run in which no restart loses blocks, each block that any record refers to,
   queued or stored, is in the store or the data queue, in a row still to post, or still to be sent by the
   client that saves a small file with it.
   */
  lemma ReferencedBlocksAreNotLost(lib: Library, n: nat, steps: seq<Step>, s: State, rec: Record, h: Hash)
    requires ZlibSound(lib) && Reachable(lib, n, steps, s) && NoLoss(lib, Start(n), steps)
    requires RecordOnServer(s.server, rec) && h in rec.hashes
    ensures Covered(s, h)
  {
    StartOk(lib, n);
    RunKeepsNoDangling(lib, Start(n), steps, s);
  }

  /** No client restarts between the record and the last block of a small file. */
  ghost predicate NoRestartWhileLiable(lib: Library, s: State, steps: seq<Step>)
    decreases |steps|
  {
    steps != [] && Enabled(s, steps[0]) ==>
      && (steps[0].Restart? ==> !Liable(s.clients[steps[0].c].saver))
      && NoRestartWhileLiable(lib, Apply(lib, s, steps[0]), steps[1..])
  }

  /** Restarts at any other moment, in the middle of a big file for one, lose nothing. */
  lemma {:induction false} OtherRestartsLoseNothing(lib: Library, s: State, steps: seq<Step>)
    requires NoRestartWhileLiable(lib, s, steps)
    ensures NoLoss(lib, s, steps)
    decreases |steps|
  {
    if steps != [] && Enabled(s, steps[0]) {
      OtherRestartsLoseNothing(lib, Apply(lib, s, steps[0]), steps[1..]);
    }
  }

  /** One client, and one request that it made. */
  function Alone(saver: Saver, hd: Handler, metaQueue: seq<Record>, seen: set<seq<byte>>): State {
    State([Client(saver, Resting, Table(map[], {}, 0), map[])],
          Server([hd], metaQueue, [], [], [], [], map[]), seen)
  }

  lemma FirstRecordIsPosted(lib: Library, key: FileKey, raw: seq<byte>)
    requires raw != []
    ensures var rec := Record(0, key, [lib.sha256(raw)]);
      var saver := PostingMeta(Job(key, false, [raw]), BlocksOf(lib, [raw], NoCompression), 0);
      Reaches(lib, Start(1), Alone(saver, Handler(MetaPost(rec, false), 0, [], false), [], {raw}))
  {
    var step := Save(0, StartSmall(key, [raw], NoCompression));
    var rec := Record(0, key, [lib.sha256(raw)]);
    var saver := PostingMeta(Job(key, false, [raw]), BlocksOf(lib, [raw], NoCompression), 0);
    assert HashesOf(lib, [raw]) == rec.hashes && SetOf([raw]) == {raw};
    StepReaches(lib, Start(1), step);
    var s := Apply(lib, Start(1), step);
    assert s.server.handlers == [Handler(MetaPost(rec, false), 0, [], false)];
    assert s.clients == [Client(saver, Resting, Table(map[], {}, 0), map[])];
    assert s.seen == {raw};
  }

  lemma OneHashIsLookedUp(lib: Library, saver: Saver, rec: Record, seen: set<seq<byte>>)
    requires |rec.hashes| == 1
    ensures Reaches(lib, Alone(saver, Handler(MetaPost(rec, false), 0, [], false), [], seen),
                    Alone(saver, Handler(MetaPost(rec, false), 1, rec.hashes, false), [], seen))
  {
    var s := Alone(saver, Handler(MetaPost(rec, false), 0, [], false), [], seen);
    StepReaches(lib, s, LookUpHash(0));
    var needed: seq<Hash> := [];
    assert needed + [rec.hashes[0]] == rec.hashes;
    assert Apply(lib, s, LookUpHash(0)).server.handlers == [Handler(MetaPost(rec, false), 1, rec.hashes, false)];
  }

  lemma RecordIsAnswered(lib: Library, saver: Saver, rec: Record, seen: set<seq<byte>>)
    requires |rec.hashes| == 1
    ensures Reaches(lib, Alone(saver, Handler(MetaPost(rec, false), 1, rec.hashes, false), [], seen),
                    Alone(saver, Handler(MetaPost(rec, false), 1, rec.hashes, true), [rec], seen))
  {
    var s := Alone(saver, Handler(MetaPost(rec, false), 1, rec.hashes, false), [], seen);
    StepReaches(lib, s, Answer(0));
    assert Apply(lib, s, Answer(0)).server.handlers == [Handler(MetaPost(rec, false), 1, rec.hashes, true)];
    assert Apply(lib, s, Answer(0)).server.metaQueue == [rec];
  }

  lemma ClientRestarts(lib: Library, saver: Saver, hd: Handler, metaQueue: seq<Record>, seen: set<seq<byte>>)
    ensures Reaches(lib, Alone(saver, hd, metaQueue, seen), Alone(Idle, hd, metaQueue, seen))
  {
    var s := Alone(saver, hd, metaQueue, seen);
    StepReaches(lib, s, Restart(0));
    assert Apply(lib, s, Restart(0)).clients == [Client(Idle, Resting, Table(map[], {}, 0), map[])];
  }

  lemma NobodyHas(rec: Record, seen: set<seq<byte>>, h: Hash)
    ensures var s := Alone(Idle, Handler(MetaPost(rec, false), 1, rec.hashes, true), [rec], seen);
      RecordOnServer(s.server, rec) && !Covered(s, h)
  {
    var s := Alone(Idle, Handler(MetaPost(rec, false), 1, rec.hashes, true), [rec], seen);
    assert s.clients == [Client(Idle, Resting, Table(map[], {}, 0), map[])];
  }

  /**
   A restart between the record and the blocks of a small file can lose them: the server has the record,
   and nobody has its block any more. (The file is not in the cache, so it will be saved again.)
   */
  lemma RestartCanLoseBlocks(lib: Library, key: FileKey, raw: seq<byte>)
    requires raw != []
    ensures exists steps: seq<Step>, s: State ::
      && Reachable(lib, 1, steps, s)
      && RecordOnServer(s.server, Record(0, key, [lib.sha256(raw)]))
      && !Covered(s, lib.sha256(raw))
  {
    var rec, h := Record(0, key, [lib.sha256(raw)]), lib.sha256(raw);
    var saver := PostingMeta(Job(key, false, [raw]), BlocksOf(lib, [raw], NoCompression), 0);
    var s1 := Alone(saver, Handler(MetaPost(rec, false), 0, [], false), [], {raw});
    var s2 := Alone(saver, Handler(MetaPost(rec, false), 1, rec.hashes, false), [], {raw});
    var s3 := Alone(saver, Handler(MetaPost(rec, false), 1, rec.hashes, true), [rec], {raw});
    var s4 := Alone(Idle, Handler(MetaPost(rec, false), 1, rec.hashes, true), [rec], {raw});
    FirstRecordIsPosted(lib, key, raw);
    OneHashIsLookedUp(lib, saver, rec, {raw});
    ReachesThen(lib, Start(1), s1, s2);
    RecordIsAnswered(lib, saver, rec, {raw});
    ReachesThen(lib, Start(1), s2, s3);
    ClientRestarts(lib, saver, s3.server.handlers[0], [rec], {raw});
    ReachesThen(lib, Start(1), s3, s4);
    var steps :| Run(lib, Start(1), steps, s4) && Dropless(steps);
    DroplessLosesNoRest(lib, Start(1), steps);
    assert Reachable(lib, 1, steps, s4);
    NobodyHas(rec, {raw}, h);
  }
}
