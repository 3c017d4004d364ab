/**
 What the code of a client does is what the protocol machine can do: each way of saving a small or a big
 file that SavePaths allows, while the server stores blocks between any two lookups, is a run of the machine.
 So what ProtocolSafety proves of reachable states holds after it.
 */
module Refinement {
  import opened Blocks
  import opened BlockLists
  import opened ByteCounter
  import opened Offline
  import opened Protocol
  import opened Handlers
  import opened SavePaths
  import Safety = ProtocolSafety

  /**
   What matters of a client and the server: the records that reached the server, the store at some time, the
   blocks queued since then, and how many of these are stored.
   */
  datatype View = View(saver: Saver, db: Table<Request>, cache: map<FileKey, seq<seq<byte>>>, records: seq<Record>,
                       first: map<Hash, HashData>, log: seq<HashData>, filed: nat)

  ghost predicate At(s: State, c: nat, v: View) {
    && c < |s.clients|
    && s.clients[c].saver == v.saver && s.clients[c].db == v.db && s.clients[c].cache == v.cache
    && Stands(s.server, v)
  }

  ghost predicate Stands(sv: Protocol.Server, v: View) {
    && sv.metaStore + sv.metaHand + sv.metaQueue == v.records
    && v.filed <= |v.log|
    && sv.blocks == Filed(v.first, v.log[..v.filed])
    && sv.dataHand + sv.dataQueue == v.log[v.filed..]
  }

  function ProgressOf(v: View): Progress {
    Progress(v.log, v.filed, v.db)
  }

  function WithProgress(v: View, p: Progress): View {
    v.(log := p.log, filed := p.filed, db := p.table)
  }

  // ---------- the data thread ----------

  lemma BlockIsStored(lib: Library, s: State, c: nat, v: View)
    requires At(s, c, v) && s.server.dataHand != []
    ensures Enabled(s, StoreData)
    ensures var s' := Apply(lib, s, StoreData);
      At(s', c, v.(filed := v.filed + 1)) && s'.server.handlers == s.server.handlers && s'.clients == s.clients
  {
    var hand, queue := s.server.dataHand, s.server.dataQueue;
    FirstOfRest(v.log, v.filed, hand, queue);
    FiledOneMore(v.first, v.log, v.filed);
  }

  lemma FirstOfRest<T>(log: seq<T>, n: nat, hand: seq<T>, queue: seq<T>)
    requires n <= |log| && hand + queue == log[n..] && hand != []
    ensures n < |log| && hand[0] == log[n] && hand[1..] + queue == log[n + 1..]
  {
    assert hand[0] == (hand + queue)[0];
    assert hand[1..] + queue == (hand + queue)[1..];
  }

  lemma BlockIsPopped(lib: Library, s: State, c: nat, v: View)
    requires At(s, c, v) && s.server.dataHand == [] && s.server.dataQueue != []
    ensures Enabled(s, PopData)
    ensures var s' := Apply(lib, s, PopData);
      At(s', c, v) && s'.server.handlers == s.server.handlers && s'.server.dataHand != [] && s'.clients == s.clients
  {
    var queue := s.server.dataQueue;
    assert [queue[0]] + queue[1..] == queue && [] + queue == queue;
  }

  lemma BlockIsFiled(lib: Library, s: State, c: nat, v: View) returns (s': State)
    requires At(s, c, v) && v.filed < |v.log|
    ensures Reaches(lib, s, s') && At(s', c, v.(filed := v.filed + 1))
    ensures s'.server.handlers == s.server.handlers && s'.clients == s.clients
  {
    var s1 := s;
    if s.server.dataHand == [] {
      assert s.server.dataQueue != [] by {
        assert |s.server.dataHand + s.server.dataQueue| == |v.log[v.filed..]|;
      }
      BlockIsPopped(lib, s, c, v);
      s1 := Apply(lib, s, PopData);
      StepReaches(lib, s, PopData);
    } else {
      ReachesItself(lib, s);
    }
    BlockIsStored(lib, s1, c, v);
    s' := Apply(lib, s1, StoreData);
    StepReaches(lib, s1, StoreData);
    ReachesThen(lib, s, s1, s');
  }

  /** The data thread gets on in its queue. */
  lemma {:induction false} BlocksAreFiled(lib: Library, s: State, c: nat, v: View, n: nat) returns (s': State)
    requires At(s, c, v) && v.filed <= n <= |v.log|
    ensures Reaches(lib, s, s') && At(s', c, v.(filed := n))
    ensures s'.server.handlers == s.server.handlers && s'.clients == s.clients
    decreases n - v.filed
  {
    if v.filed == n {
      s' := s;
      ReachesItself(lib, s);
    } else {
      var s1 := BlockIsFiled(lib, s, c, v);
      s' := BlocksAreFiled(lib, s1, c, v.(filed := v.filed + 1), n);
      ReachesThen(lib, s, s1, s');
    }
  }

  // ---------- the server handles a request ----------

  /** The thread of a data request has queued some of its blocks. */
  ghost predicate Queueing(s: State, i: nat, batch: seq<HashData>) {
    && i < |s.server.handlers| && !s.server.handlers[i].done
    && s.server.handlers[i].request == DataPost(batch) && s.server.handlers[i].progress <= |batch|
  }

  lemma LogGoesOn(sv: Protocol.Server, sv': Protocol.Server, v: View, more: seq<HashData>)
    requires Stands(sv, v) && sv'.(handlers := sv.handlers) == sv.(dataQueue := sv.dataQueue + more)
    ensures Stands(sv', v.(log := v.log + more))
  {
    assert (v.log + more)[..v.filed] == v.log[..v.filed];
    assert (v.log + more)[v.filed..] == v.log[v.filed..] + more;
    Associative(sv.dataHand, sv.dataQueue, more);
  }

  lemma OneBlockQueued(lib: Library, s: State, c: nat, v: View, i: nat, batch: seq<HashData>)
    requires At(s, c, v) && Queueing(s, i, batch) && s.server.handlers[i].progress < |batch|
    ensures Enabled(s, QueueBlock(i))
    ensures var s1 := Apply(lib, s, QueueBlock(i));
      && Queueing(s1, i, batch) && s1.server.handlers[i].progress == s.server.handlers[i].progress + 1
      && |s1.server.handlers| == |s.server.handlers|
      && At(s1, c, v.(log := v.log + [batch[s.server.handlers[i].progress]])) && s1.clients == s.clients
  {
    var s1 := Apply(lib, s, QueueBlock(i));
    LogGoesOn(s.server, s1.server, v, [batch[s.server.handlers[i].progress]]);
  }

  lemma RestOfQueue<T>(queue: seq<T>, batch: seq<T>, p: nat)
    requires p < |batch|
    ensures (queue + [batch[p]]) + batch[p + 1..] == queue + batch[p..]
  {
  }

  /** The thread of a data request queues its blocks and answers. */
  lemma {:induction false} DataIsHandled(lib: Library, s: State, c: nat, v: View, i: nat, batch: seq<HashData>)
      returns (s': State)
    requires At(s, c, v) && Queueing(s, i, batch)
    ensures Reaches(lib, s, s') && |s'.server.handlers| == |s.server.handlers|
    ensures s'.server.handlers[i].done && s'.server.handlers[i].request == DataPost(batch)
    ensures At(s', c, v.(log := v.log + batch[s.server.handlers[i].progress..])) && s'.clients == s.clients
    decreases |batch| - s.server.handlers[i].progress
  {
    var p := s.server.handlers[i].progress;
    if p == |batch| {
      s' := Apply(lib, s, Answer(i));
      StepReaches(lib, s, Answer(i));
      assert v.log + batch[p..] == v.log;
    } else {
      OneBlockQueued(lib, s, c, v, i, batch);
      var s1 := Apply(lib, s, QueueBlock(i));
      s' := DataIsHandled(lib, s1, c, v.(log := v.log + [batch[p]]), i, batch);
      StepReaches(lib, s, QueueBlock(i));
      ReachesThen(lib, s, s1, s');
      RestOfQueue(v.log, batch, p);
    }
  }

  /** The thread of a question, or of a record, has looked up the first hashes of it. */
  ghost predicate HasLookedUp(hd: Handler, v: View, looks: seq<nat>, r: Request)
    requires forall k :: 0 <= k < |looks| ==> looks[k] <= |v.log|
  {
    && !hd.done && hd.request == r && hd.progress <= |Asks(r)| == |looks|
    && hd.needed == Needed(Found(v.first, v.log, looks[..hd.progress]), Asks(r)[..hd.progress])
  }

  /** And looks up the others later. */
  ghost predicate LookingUp(s: State, i: nat, v: View, looks: seq<nat>, r: Request, after: nat) {
    && i < |s.server.handlers| && !r.DataPost?
    && Lookups(looks, v.log, 0, after) && v.filed <= after
    && HasLookedUp(s.server.handlers[i], v, looks, r)
    && forall k :: s.server.handlers[i].progress <= k < |looks| ==> v.filed <= looks[k]
  }

  lemma OneLookUp(lib: Library, s: State, c: nat, v: View, i: nat, looks: seq<nat>, r: Request, after: nat)
    requires At(s, c, v) && LookingUp(s, i, v, looks, r, after) && s.server.handlers[i].progress < |Asks(r)|
    requires v.filed == looks[s.server.handlers[i].progress]
    ensures Enabled(s, LookUpHash(i))
    ensures var s1 := Apply(lib, s, LookUpHash(i));
      && At(s1, c, v) && LookingUp(s1, i, v, looks, r, after)
      && s1.server.handlers[i].progress == s.server.handlers[i].progress + 1
      && |s1.server.handlers| == |s.server.handlers| && s1.clients == s.clients
  {
    var hd := s.server.handlers[i];
    LookedUpOneMore(hd, v, looks, r);
    var h := Asks(r)[hd.progress];
    var needed := if h in s.server.blocks || h in hd.needed then hd.needed else hd.needed + [h];
    var s1 := Apply(lib, s, LookUpHash(i));
    assert s1 == s.(server := WithHandler(s.server, i, hd.(progress := hd.progress + 1, needed := needed)));
  }

  lemma LookedUpOneMore(hd: Handler, v: View, looks: seq<nat>, r: Request)
    requires forall k :: 0 <= k < |looks| ==> looks[k] <= |v.log|
    requires HasLookedUp(hd, v, looks, r) && hd.progress < |looks| && v.filed == looks[hd.progress]
    ensures var h := Asks(r)[hd.progress];
      HasLookedUp(hd.(progress := hd.progress + 1,
                      needed := if h in Filed(v.first, v.log[..v.filed]) || h in hd.needed then hd.needed
                                else hd.needed + [h]), v, looks, r)
  {
    var p := hd.progress;
    OneMore(looks, p);
    OneMore(Asks(r), p);
    FoundSnoc(v.first, v.log, looks[..p], looks[p]);
    NeededOneMore(Found(v.first, v.log, looks[..p]), Asks(r)[..p], Filed(v.first, v.log[..v.filed]).Keys, Asks(r)[p]);
  }

  lemma FoundSnoc(first: map<Hash, HashData>, log: seq<HashData>, looks: seq<nat>, n: nat)
    requires (forall k :: 0 <= k < |looks| ==> looks[k] <= |log|) && n <= |log|
    ensures forall k :: 0 <= k < |looks| + 1 ==> (looks + [n])[k] <= |log|
    ensures Found(first, log, looks + [n]) == Found(first, log, looks) + [Filed(first, log[..n]).Keys]
  {
  }

  /** Blocks are stored, then the next hash is looked up. */
  lemma NextLookUp(lib: Library, s: State, c: nat, v: View, i: nat, looks: seq<nat>, r: Request, after: nat)
      returns (s': State)
    requires At(s, c, v) && LookingUp(s, i, v, looks, r, after) && s.server.handlers[i].progress < |Asks(r)|
    ensures Reaches(lib, s, s') && |s'.server.handlers| == |s.server.handlers| && s'.clients == s.clients
    ensures var p := s.server.handlers[i].progress; var v' := v.(filed := looks[p]);
      && v.filed <= looks[p] <= after
      && At(s', c, v') && LookingUp(s', i, v', looks, r, after) && s'.server.handlers[i].progress == p + 1
  {
    var p := s.server.handlers[i].progress;
    var s1 := BlocksAreFiled(lib, s, c, v, looks[p]);
    OneLookUp(lib, s1, c, v.(filed := looks[p]), i, looks, r, after);
    s' := Apply(lib, s1, LookUpHash(i));
    StepReaches(lib, s1, LookUpHash(i));
    ReachesThen(lib, s, s1, s');
  }

  lemma QuestionIsAnswered(lib: Library, s: State, c: nat, v: View, i: nat, looks: seq<nat>, r: Request, after: nat)
    requires At(s, c, v) && LookingUp(s, i, v, looks, r, after) && s.server.handlers[i].progress == |Asks(r)|
    ensures Enabled(s, Answer(i))
    ensures var s' := Apply(lib, s, Answer(i));
      && |s'.server.handlers| == |s.server.handlers|
      && s'.server.handlers[i] == Handler(r, |Asks(r)|, Needed(Found(v.first, v.log, looks), Asks(r)), true)
      && At(s', c, v.(records := v.records + RecordsOf(r))) && s'.clients == s.clients
  {
    WholePrefix(looks);
    WholePrefix(Asks(r));
    Associative(s.server.metaStore + s.server.metaHand, s.server.metaQueue, RecordsOf(r));
    assert v.records + [] == v.records;
  }

  /** The thread looks the hashes up while blocks are stored, answers those that are needed, and queues a record. */
  lemma {:induction false} QuestionIsHandled(lib: Library, s: State, c: nat, v: View, i: nat, looks: seq<nat>,
                                             r: Request, after: nat)
      returns (s': State, filed: nat)
    requires At(s, c, v) && LookingUp(s, i, v, looks, r, after)
    ensures Reaches(lib, s, s') && |s'.server.handlers| == |s.server.handlers| && s'.clients == s.clients
    ensures s'.server.handlers[i] == Handler(r, |Asks(r)|, Needed(Found(v.first, v.log, looks), Asks(r)), true)
    ensures v.filed <= filed <= after && At(s', c, v.(records := v.records + RecordsOf(r), filed := filed))
    decreases |Asks(r)| - s.server.handlers[i].progress
  {
    var p := s.server.handlers[i].progress;
    if p == |Asks(r)| {
      QuestionIsAnswered(lib, s, c, v, i, looks, r, after);
      s', filed := Apply(lib, s, Answer(i)), v.filed;
      StepReaches(lib, s, Answer(i));
    } else {
      var s1 := NextLookUp(lib, s, c, v, i, looks, r, after);
      s', filed := QuestionIsHandled(lib, s1, c, v.(filed := looks[p]), i, looks, r, after);
      ReachesThen(lib, s, s1, s');
    }
  }

  // ---------- the client sends blocks ----------

  /** The client can be asked for n blocks in one request. */
  ghost predicate CanSend(v: View, n: nat) {
    v.saver.Sending? && n <= |v.saver.todo| && Answers(v.saver.list, v.saver.todo[..n])
  }

  ghost function AfterSending(v: View, n: nat, db: Table<Request>, log: seq<HashData>): View
    requires CanSend(v, n)
  {
    var Sending(job, list, saved, todo) := v.saver;
    v.(saver := Sending(job, Left(list, todo[..n]), saved, todo[n..]), db := db, log := log)
  }

  /** What one request of n blocks does. */
  ghost function AfterBatch(v: View, n: nat, fate: Fate): View
    requires CanSend(v, n)
  {
    var batch := Taken(v.saver.list, v.saver.todo[..n]);
    AfterSending(v, n,
      if fate.Acknowledged? then v.db else v.db.Save(DataPost(batch)),
      if fate.Arrived() then v.log + batch else v.log)
  }

  /** What a list of requests does that carry the first m blocks asked for. */
  ghost function AfterBatches(v: View, m: nat, batches: seq<seq<HashData>>, fates: seq<Fate>): View
    requires CanSend(v, m) && |fates| == |batches|
  {
    AfterSending(v, m, TableAfter(v.db, batches, fates), LogAfter(v.log, batches, fates))
  }

  /** One request of blocks, and what becomes of it. */
  lemma BatchIsSent(lib: Library, s: State, c: nat, v: View, n: nat, fate: Fate) returns (s': State)
    requires At(s, c, v) && n > 0 && CanSend(v, n)
    ensures Reaches(lib, s, s') && At(s', c, AfterBatch(v, n, fate))
  {
    var Sending(job, list, saved, todo) := v.saver;
    var batch, i := Taken(list, todo[..n]), |s.server.handlers|;
    var send := Save(c, SendBatch(n));
    var s1 := Apply(lib, s, send);
    StepReaches(lib, s, send);
    var v1 := v.(saver := Pushing(job, Left(list, todo[..n]), saved, todo[n..], i));
    var s2, v2 := s1, v1;
    if fate.Arrived() {
      s2 := DataIsHandled(lib, s1, c, v1, i, batch);
      assert batch[0..] == batch;
      v2 := v1.(log := v.log + batch);
      ReachesThen(lib, s, s1, s2);
    }
    var end := Save(c, if fate.Acknowledged? then DataAnswered else DataLost);
    s' := Apply(lib, s2, end);
    StepReaches(lib, s2, end);
    ReachesThen(lib, s, s2, s');
  }

  /** The last of some requests comes after the others. */
  lemma LastBatchIsNext(v: View, m: nat, batches: seq<seq<HashData>>, fates: seq<Fate>) returns (m': nat)
    requires CanSend(v, m) && |fates| == |batches| > 0
    requires Concat(batches) == Taken(v.saver.list, v.saver.todo[..m])
    ensures var k := |batches| - 1; var n := |batches[k]|;
      && m' + n == m && CanSend(v, m') && Concat(batches[..k]) == Taken(v.saver.list, v.saver.todo[..m'])
      && var before := AfterBatches(v, m', batches[..k], fates[..k]);
         CanSend(before, n) && AfterBatch(before, n, fates[k]) == AfterBatches(v, m, batches, fates)
  {
    m' := SplitLast(v.saver.list, v.saver.todo, m, batches);
    SliceParts(v.saver.todo, m', m);
    OneMoreBatchSent(v, m, m', batches, fates);
  }

  lemma OneMoreBatchSent(v: View, m: nat, m': nat, batches: seq<seq<HashData>>, fates: seq<Fate>)
    requires CanSend(v, m) && CanSend(v, m') && |fates| == |batches| > 0
    requires var k := |batches| - 1;
      && m' + |batches[k]| == m
      && var list := Left(v.saver.list, v.saver.todo[..m']);
         && Answers(list, v.saver.todo[m'..][..m - m']) && batches[k] == Taken(list, v.saver.todo[m'..][..m - m'])
         && Left(v.saver.list, v.saver.todo[..m]) == Left(list, v.saver.todo[m'..][..m - m'])
         && v.saver.todo[m'..][m - m'..] == v.saver.todo[m..]
    ensures var k := |batches| - 1;
      var before := AfterBatches(v, m', batches[..k], fates[..k]);
      CanSend(before, m - m') && AfterBatch(before, m - m', fates[k]) == AfterBatches(v, m, batches, fates)
  {
  }

  lemma SliceParts<T>(s: seq<T>, a: nat, b: nat)
    requires a <= b <= |s|
    ensures s[a..][..b - a] == s[a..b] && s[a..][b - a..] == s[b..]
  {
  }

  /** Where the last request begins. */
  lemma SplitLast(list: seq<HashData>, todo: seq<Hash>, m: nat, batches: seq<seq<HashData>>) returns (m': nat)
    requires m <= |todo| && Answers(list, todo[..m]) && batches != []
    requires Concat(batches) == Taken(list, todo[..m])
    ensures var k := |batches| - 1; var last := batches[k];
      && m' + |last| == m
      && Answers(list, todo[..m']) && Answers(Left(list, todo[..m']), todo[m'..m])
      && Concat(batches[..k]) == Taken(list, todo[..m'])
      && last == Taken(Left(list, todo[..m']), todo[m'..m])
      && Left(list, todo[..m]) == Left(Left(list, todo[..m']), todo[m'..m])
  {
    var k := |batches| - 1;
    var last := batches[k];
    assert batches == batches[..k] + [last];
    ConcatOneMore(batches[..k], last);
    TakenIsWhatWasAsked(list, todo[..m]);
    m' := m - |last|;
    assert todo[..m] == todo[..m'] + todo[m'..m];
    PartsAnswer(list, todo[..m'], todo[m'..m]);
    TakenInParts(list, todo[..m'], todo[m'..m]);
    TakenIsWhatWasAsked(list, todo[..m']);
    SameParts(Concat(batches[..k]), last, Taken(list, todo[..m']), Taken(Left(list, todo[..m']), todo[m'..m]));
  }

  lemma SameParts<T>(a: seq<T>, b: seq<T>, c: seq<T>, d: seq<T>)
    requires a + b == c + d && |a| == |c|
    ensures a == c && b == d
  {
    assert a == (a + b)[..|a|] && c == (c + d)[..|a|];
    assert b == (a + b)[|a|..] && d == (c + d)[|a|..];
  }

  /** A list of requests, with any fates. */
  lemma {:induction false} BatchesAreSent(lib: Library, s: State, c: nat, v: View, m: nat,
                                          batches: seq<seq<HashData>>, fates: seq<Fate>)
      returns (s': State)
    requires At(s, c, v) && |fates| == |batches| && CanSend(v, m)
    requires Concat(batches) == Taken(v.saver.list, v.saver.todo[..m]) && NoneEmpty(batches)
    ensures Reaches(lib, s, s') && At(s', c, AfterBatches(v, m, batches, fates))
    decreases |batches|
  {
    if batches == [] {
      s' := s;
      ReachesItself(lib, s);
      TakenIsWhatWasAsked(v.saver.list, v.saver.todo[..m]);
      assert m == 0 && v.saver.todo[0..] == v.saver.todo;
    } else {
      var k := |batches| - 1;
      var m' := LastBatchIsNext(v, m, batches, fates);
      var s1 := BatchesAreSent(lib, s, c, v, m', batches[..k], fates[..k]);
      s' := BatchIsSent(lib, s1, c, AfterBatches(v, m', batches[..k], fates[..k]), |batches[k]|, fates[k]);
      ReachesThen(lib, s, s1, s');
    }
  }

  // ---------- a question, and the posts it leads to ----------

  /** The first of the blocks an answer takes, and those left to take after them. */
  lemma FirstAreTaken(list: seq<HashData>, todo: seq<Hash>, sent: seq<HashData>, rest: seq<HashData>)
    requires Answers(list, todo) && sent + rest == Taken(list, todo)
    ensures var m := |sent|;
      && m <= |todo| && Answers(list, todo[..m]) && Taken(list, todo[..m]) == sent
      && Answers(Left(list, todo[..m]), todo[m..]) && Taken(Left(list, todo[..m]), todo[m..]) == rest
      && (rest == [] <==> todo[m..] == [])
  {
    var m := |sent|;
    TakenIsWhatWasAsked(list, todo);
    assert |todo| == |sent| + |rest|;
    assert todo == todo[..m] + todo[m..];
    PartsAnswer(list, todo[..m], todo[m..]);
    TakenInParts(list, todo[..m], todo[m..]);
    TakenIsWhatWasAsked(list, todo[..m]);
    SameParts(sent, rest, Taken(list, todo[..m]), Taken(Left(list, todo[..m]), todo[m..]));
  }

  /** The end of sending: what is left goes nowhere, if anything is left. */
  lemma RestIsDropped(lib: Library, s: State, c: nat, v: View) returns (s': State)
    requires At(s, c, v) && v.saver.Sending? && Answers(v.saver.list, v.saver.todo)
    requires Counter(Taken(v.saver.list, v.saver.todo)) <= 0
    ensures Leads(lib, s, s', v.saver.todo == [])
    ensures var Sending(job, list, saved, todo) := v.saver;
      At(s', c, v.(saver := Sending(job, Left(list, todo), saved, [])))
  {
    if v.saver.todo == [] {
      s' := s;
      ReachesItself(lib, s);
    } else {
      var drop := Save(c, DropRest);
      s' := Apply(lib, s, drop);
      StepLeads(lib, s, drop);
    }
  }

  /** All that is asked for is sent, but for what is dropped, and the data thread gets on. */
  lemma AnswerIsUsedUp(lib: Library, s: State, c: nat, v: View, o: AskFate, a: Progress, b: Progress)
      returns (s': State)
    requires v.saver.Sending? && AskedAndSent(v.first, v.saver.list, o, a, b)
    requires At(s, c, v) && v.log == a.log && v.db == a.table && v.filed <= b.filed
    requires v.saver.todo == Asked(Found(v.first, a.log, o.looks), v.saver.list, o.answered)
    ensures Leads(lib, s, s', o.dropped == [])
    ensures var Sending(job, list, saved, todo) := v.saver;
      At(s', c, WithProgress(v, b).(saver := if job.big then Reading(job, [], saved) else Caching(job)))
  {
    var Sending(job, list, saved, todo) := v.saver;
    var m := |Concat(o.batches)|;
    FirstAreTaken(list, todo, Concat(o.batches), o.dropped);
    var s1 := BatchesAreSent(lib, s, c, v, m, o.batches, o.fates);
    var v1 := AfterBatches(v, m, o.batches, o.fates);
    var s2 := RestIsDropped(lib, s1, c, v1);
    LeadsThen(lib, s, s1, s2, true, o.dropped == []);
    var v2 := v1.(saver := Sending(job, Left(v1.saver.list, v1.saver.todo), saved, []));
    var s3 := AnswerEnds(lib, s2, c, v2, b.filed);
    LeadsThen(lib, s, s2, s3, o.dropped == [], true);
    s' := s3;
  }

  lemma AnswerEnds(lib: Library, s: State, c: nat, v: View, after: nat) returns (s': State)
    requires At(s, c, v) && v.saver.Sending? && v.saver.todo == [] && v.filed <= after <= |v.log|
    ensures Reaches(lib, s, s')
    ensures var Sending(job, list, saved, todo) := v.saver;
      At(s', c, v.(filed := after, saver := if job.big then Reading(job, [], saved) else Caching(job)))
  {
    var Sending(job, list, saved, todo) := v.saver;
    var s1 := Apply(lib, s, Save(c, AnswerUsedUp));
    StepReaches(lib, s, Save(c, AnswerUsedUp));
    s' := BlocksAreFiled(lib, s1, c, v.(saver := if job.big then Reading(job, [], saved) else Caching(job)), after);
    ReachesThen(lib, s, s1, s');
  }

  // ---------- a small file ----------

  lemma FileIsCached(lib: Library, s: State, c: nat, v: View) returns (s': State)
    requires At(s, c, v) && v.saver.Caching?
    ensures Reaches(lib, s, s')
    ensures At(s', c, v.(saver := Idle, cache := v.cache[v.saver.job.key := v.saver.job.chunks]))
  {
    s' := Apply(lib, s, Save(c, WriteCache));
    StepReaches(lib, s, Save(c, WriteCache));
  }

  /** A record is posted, with these lookups if it arrives, and the client gets an answer or gives up. */
  lemma RecordIsHandled(lib: Library, s: State, c: nat, v: View, rec: Record, looks: seq<nat>, dataSent: bool,
                        fate: Fate, after: nat)
      returns (s': State, filed: nat)
    requires At(s, c, v) && v.saver.PostingMeta? && v.saver.req < |s.server.handlers|
    requires s.server.handlers[v.saver.req] == Handler(MetaPost(rec, dataSent), 0, [], false)
    requires |looks| == |Asks(MetaPost(rec, dataSent))| && Lookups(looks, v.log, v.filed, after)
    ensures Reaches(lib, s, s') && v.filed <= filed <= after
    ensures |s'.server.handlers| == |s.server.handlers|
    ensures s'.server.handlers[v.saver.req].request == MetaPost(rec, dataSent)
    ensures fate.Acknowledged? ==>
      && s'.server.handlers[v.saver.req].done
      && s'.server.handlers[v.saver.req].needed
         == Needed(Found(v.first, v.log, looks), Asks(MetaPost(rec, dataSent)))
    ensures At(s', c, v.(records := v.records + if fate.Arrived() then [rec] else [], filed := filed))
  {
    var r := MetaPost(rec, dataSent);
    if fate.Arrived() {
      assert looks[..0] == [] && Asks(r)[..0] == [];
      s', filed := QuestionIsHandled(lib, s, c, v, v.saver.req, looks, r, after);
    } else {
      s', filed := s, v.filed;
      ReachesItself(lib, s);
      assert v.records + [] == v.records;
    }
  }

  /** The record of a small file is posted, and the client goes on with the answer or without. */
  lemma RecordIsPosted(lib: Library, s: State, c: nat, v: View, key: FileKey, chunks: seq<seq<byte>>,
                       cmptype: Compression, fate: Fate, looks: seq<nat>, after: nat)
      returns (s': State, filed: nat)
    requires At(s, c, v) && v.saver.Idle? && key !in v.cache
    requires forall raw :: raw in chunks ==> raw != []
    requires |looks| == |chunks| && Lookups(looks, v.log, v.filed, after)
    ensures Reaches(lib, s, s') && v.filed <= filed <= after
    ensures var job, list := Job(key, false, chunks), BlocksOf(lib, chunks, cmptype);
      var rec := RecordOf(lib, c, job);
      At(s', c, v.(saver := Sending(job, list, [], Asked(Found(v.first, v.log, looks), list, fate.Acknowledged?)),
                   db := MetaSaved(ProgressOf(v), rec, false, fate).table,
                   records := v.records + (if fate.Arrived() then [rec] else []), filed := filed))
  {
    var job, list, i := Job(key, false, chunks), BlocksOf(lib, chunks, cmptype), |s.server.handlers|;
    var rec := RecordOf(lib, c, job);
    var post := Save(c, StartSmall(key, chunks, cmptype));
    var s1 := Apply(lib, s, post);
    StepReaches(lib, s, post);
    var v1 := v.(saver := PostingMeta(job, list, i));
    var s2;
    s2, filed := RecordIsHandled(lib, s1, c, v1, rec, looks, false, fate, after);
    ReachesThen(lib, s, s1, s2);
    var end := Save(c, if fate.Acknowledged? then MetaAnswered else MetaLost);
    s' := Apply(lib, s2, end);
    StepReaches(lib, s2, end);
    ReachesThen(lib, s, s2, s');
  }

  /**
   Every outcome of saving a small file is one the machine has: from a state where the client is idle it
   reaches a state with the same records, rows, blocks queued and stored, in which the file is in the cache.
   */
  lemma SmallFileIsARun(lib: Library, s: State, c: nat, v: View, key: FileKey, chunks: seq<seq<byte>>,
                        cmptype: Compression, fate: Fate, o: AskFate, records: seq<Record>, b: Progress)
      returns (s': State)
    requires At(s, c, v) && v.saver.Idle? && key !in v.cache
    requires forall raw :: raw in chunks ==> raw != []
    requires SmallFileOutcome(v.first, BlocksOf(lib, chunks, cmptype), Record(c, key, HashesOf(lib, chunks)),
                              fate, o, v.records, ProgressOf(v), records, b)
    ensures Leads(lib, s, s', o.dropped == [])
    ensures At(s', c, WithProgress(v, b).(records := records, cache := v.cache[key := chunks]))
  {
    var job, list := Job(key, false, chunks), BlocksOf(lib, chunks, cmptype);
    var a := MetaSaved(ProgressOf(v), Record(c, key, HashesOf(lib, chunks)), false, fate);
    var s1, filed := RecordIsPosted(lib, s, c, v, key, chunks, cmptype, fate, o.looks, b.filed);
    var v1 := v.(saver := Sending(job, list, [], Asked(Found(v.first, v.log, o.looks), list, o.answered)),
                 db := a.table, records := records, filed := filed);
    var s2 := AnswerIsUsedUp(lib, s1, c, v1, o, a, b);
    LeadsThen(lib, s, s1, s2, true, o.dropped == []);
    s' := FileIsCached(lib, s2, c, WithProgress(v1, b).(saver := Caching(job)));
    LeadsThen(lib, s, s2, s', o.dropped == [], true);
  }

  // ---------- a big file ----------

  lemma BlocksSnoc(lib: Library, chunks: seq<seq<byte>>, cmptype: Compression)
    requires chunks != []
    ensures var n := |chunks| - 1;
      && chunks == chunks[..n] + [chunks[n]]
      && Reverse(BlocksOf(lib, chunks, cmptype))
         == [NewHashData(lib, chunks[n], cmptype)] + Reverse(BlocksOf(lib, chunks[..n], cmptype))
  {
    var n := |chunks| - 1;
    var all, init := Reverse(BlocksOf(lib, chunks, cmptype)), Reverse(BlocksOf(lib, chunks[..n], cmptype));
    forall i | 0 <= i < n ensures all[i + 1] == init[i] {
      assert init[i] == BlocksOf(lib, chunks[..n], cmptype)[n - 1 - i];
    }
    assert all[0] == NewHashData(lib, chunks[n], cmptype);
  }

  /** Chunks are read. */
  lemma {:induction false} ChunksAreRead(lib: Library, s: State, c: nat, v: View, chunks: seq<seq<byte>>,
                                         cmptype: Compression)
      returns (s': State)
    requires At(s, c, v) && v.saver.Reading?
    requires forall k :: 0 <= k < |chunks| ==> chunks[k] != []
    ensures Reaches(lib, s, s')
    ensures var Reading(job, list, saved) := v.saver;
      At(s', c, v.(saver := Reading(job.(chunks := job.chunks + chunks),
                                    Reverse(BlocksOf(lib, chunks, cmptype)) + list, saved)))
    decreases |chunks|
  {
    var Reading(job, list, saved) := v.saver;
    if chunks == [] {
      s' := s;
      ReachesItself(lib, s);
      assert job.chunks + chunks == job.chunks && Reverse(BlocksOf(lib, chunks, cmptype)) + list == list;
    } else {
      var n := |chunks| - 1;
      BlocksSnoc(lib, chunks, cmptype);
      var s1 := ChunksAreRead(lib, s, c, v, chunks[..n], cmptype);
      var read := Save(c, ReadChunk(chunks[n], cmptype));
      s' := Apply(lib, s1, read);
      StepReaches(lib, s1, read);
      ReachesThen(lib, s, s1, s');
      Associative(job.chunks, chunks[..n], [chunks[n]]);
      Associative([NewHashData(lib, chunks[n], cmptype)], Reverse(BlocksOf(lib, chunks[..n], cmptype)), list);
    }
  }

  /** The server is asked about a list of blocks, and answers or not. */
  lemma ListIsAsked(lib: Library, s: State, c: nat, v: View, looks: seq<nat>, answered: bool, after: nat)
      returns (s': State, filed: nat)
    requires At(s, c, v) && v.saver.Reading? && v.saver.list != []
    requires |looks| == |v.saver.list| && Lookups(looks, v.log, v.filed, after)
    ensures Reaches(lib, s, s') && v.filed <= filed <= after
    ensures var Reading(job, list, saved) := v.saver;
      At(s', c, v.(saver := Sending(job, list, Hashes(list) + saved,
                                    Asked(Found(v.first, v.log, looks), list, answered)), filed := filed))
  {
    var Reading(job, list, saved) := v.saver;
    var i, r := |s.server.handlers|, HashPost(Hashes(list));
    var s1 := Apply(lib, s, Save(c, Flush));
    StepReaches(lib, s, Save(c, Flush));
    var v1 := v.(saver := Asking(job, list, Hashes(list) + saved, i));
    var s2 := s1;
    filed := v.filed;
    if answered {
      assert looks[..0] == [] && Asks(r)[..0] == [] && v.records + [] == v.records;
      s2, filed := QuestionIsHandled(lib, s1, c, v1, i, looks, r, after);
      ReachesThen(lib, s, s1, s2);
    }
    var end := Save(c, if answered then HashsAnswered else HashsLost);
    s' := Apply(lib, s2, end);
    StepReaches(lib, s2, end);
    ReachesThen(lib, s, s2, s');
  }

  /** One flush. */
  lemma FlushIsDone(lib: Library, s: State, c: nat, v: View, o: AskFate, b: Progress) returns (s': State)
    requires At(s, c, v) && v.saver.Reading? && v.saver.list != [] && v.saver.job.big
    requires AskedAndSent(v.first, v.saver.list, o, ProgressOf(v), b)
    ensures Leads(lib, s, s', o.dropped == [])
    ensures var Reading(job, list, saved) := v.saver;
      At(s', c, WithProgress(v, b).(saver := Reading(job, [], Hashes(list) + saved)))
  {
    var Reading(job, list, saved) := v.saver;
    var s1, filed := ListIsAsked(lib, s, c, v, o.looks, o.answered, b.filed);
    var v1 := v.(saver := Sending(job, list, Hashes(list) + saved,
                                  Asked(Found(v.first, v.log, o.looks), list, o.answered)), filed := filed);
    s' := AnswerIsUsedUp(lib, s1, c, v1, o, ProgressOf(v), b);
    LeadsThen(lib, s, s1, s', true, o.dropped == []);
  }

  /** Where the chunks of the last flush begin. */
  lemma LastFlush(lib: Library, chunks: seq<seq<byte>>, cmptype: Compression, flushes: seq<seq<HashData>>)
      returns (n: nat)
    requires flushes != [] && InFileOrder(flushes) == BlocksOf(lib, chunks, cmptype)
    ensures var k := |flushes| - 1;
      && n + |flushes[k]| == |chunks|
      && InFileOrder(flushes[..k]) == BlocksOf(lib, chunks[..n], cmptype)
      && flushes[k] == Reverse(BlocksOf(lib, chunks[n..], cmptype))
  {
    var k := |flushes| - 1;
    n := |chunks| - |flushes[k]|;
    var all, last := BlocksOf(lib, chunks, cmptype), Reverse(flushes[k]);
    assert BlocksOf(lib, chunks[..n], cmptype) == all[..n] && BlocksOf(lib, chunks[n..], cmptype) == all[n..];
    SameParts(InFileOrder(flushes[..k]), last, all[..n], all[n..]);
    assert Reverse(last) == flushes[k];
  }

  lemma NamesOfLastFlush(lib: Library, chunks: seq<seq<byte>>, n: nat, list: seq<HashData>, saved: seq<Hash>,
                         cmptype: Compression)
    requires n <= |chunks| && list == Reverse(BlocksOf(lib, chunks[n..], cmptype))
    requires Reverse(saved) == HashesOf(lib, chunks[..n])
    ensures Reverse(Hashes(list) + saved) == HashesOf(lib, chunks)
  {
    var names := Hashes(list) + saved;
    assert |names| == |chunks|;
    forall i | 0 <= i < |chunks| ensures Reverse(names)[i] == lib.sha256(chunks[i]) {
      if i < n {
        assert Reverse(names)[i] == Reverse(saved)[i];
      } else {
        assert Reverse(names)[i] == list[|chunks| - 1 - i].hash;
      }
    }
  }

  /** The chunks of one flush are read, and flushed. */
  lemma OneMoreFlush(lib: Library, s: State, c: nat, v: View, key: FileKey, chunks: seq<seq<byte>>, n: nat,
                     saved: seq<Hash>, cmptype: Compression, list: seq<HashData>, o: AskFate, b: Progress)
      returns (s': State)
    requires At(s, c, v) && n <= |chunks| && v.saver == Reading(Job(key, true, chunks[..n]), [], saved)
    requires forall k :: 0 <= k < |chunks| ==> chunks[k] != []
    requires list != [] && list == Reverse(BlocksOf(lib, chunks[n..], cmptype))
    requires AskedAndSent(v.first, list, o, ProgressOf(v), b)
    ensures Leads(lib, s, s', o.dropped == [])
    ensures At(s', c, WithProgress(v, b).(saver := Reading(Job(key, true, chunks), [], Hashes(list) + saved)))
  {
    var s1 := ChunksAreRead(lib, s, c, v, chunks[n..], cmptype);
    assert chunks[..n] + chunks[n..] == chunks && list + [] == list;
    s' := FlushIsDone(lib, s1, c, v.(saver := Reading(Job(key, true, chunks), list, saved)), o, b);
    LeadsThen(lib, s, s1, s', true, o.dropped == []);
  }

  lemma BeforeLastFlush(first: map<Hash, HashData>, flushes: seq<seq<HashData>>, outcomes: seq<AskFate>,
                        a: Progress, b: Progress) returns (m: Progress)
    requires FlushesDone(first, flushes, outcomes, a, b) && flushes != [] && NoneEmpty(flushes)
    ensures |outcomes| == |flushes|
    ensures var k := |flushes| - 1;
      && FlushesDone(first, flushes[..k], outcomes[..k], a, m) && NoneEmpty(flushes[..k])
      && AskedAndSent(first, flushes[k], outcomes[k], m, b) && flushes[k] != []
  {
    var k := |flushes| - 1;
    m :| FlushesDone(first, flushes[..k], outcomes[..k], a, m) && AskedAndSent(first, flushes[k], outcomes[k], m, b);
  }

  /** The chunks are read and flushed. */
  lemma {:induction false} FlushesAreDone(lib: Library, s: State, c: nat, v: View, key: FileKey,
                                          chunks: seq<seq<byte>>, cmptype: Compression,
                                          flushes: seq<seq<HashData>>, outcomes: seq<AskFate>, b: Progress)
      returns (s': State, saved: seq<Hash>)
    requires At(s, c, v) && v.saver == Reading(Job(key, true, []), [], [])
    requires forall k :: 0 <= k < |chunks| ==> chunks[k] != []
    requires InFileOrder(flushes) == BlocksOf(lib, chunks, cmptype) && NoneEmpty(flushes)
    requires FlushesDone(v.first, flushes, outcomes, ProgressOf(v), b)
    ensures Leads(lib, s, s', DroppedOf(outcomes) == []) && Reverse(saved) == HashesOf(lib, chunks)
    ensures At(s', c, WithProgress(v, b).(saver := Reading(Job(key, true, chunks), [], saved)))
    decreases |flushes|
  {
    if flushes == [] {
      s', saved := s, [];
      ReachesItself(lib, s);
      assert BlocksOf(lib, chunks, cmptype) == [] && chunks == [];
    } else {
      var k := |flushes| - 1;
      var m := BeforeLastFlush(v.first, flushes, outcomes, ProgressOf(v), b);
      var n := LastFlush(lib, chunks, cmptype, flushes);
      var s1, before := FlushesAreDone(lib, s, c, v, key, chunks[..n], cmptype, flushes[..k], outcomes[..k], m);
      var v1 := WithProgress(v, m).(saver := Reading(Job(key, true, chunks[..n]), [], before));
      s' := OneMoreFlush(lib, s1, c, v1, key, chunks, n, before, cmptype, flushes[k], outcomes[k], b);
      LeadsThen(lib, s, s1, s', DroppedOf(outcomes[..k]) == [], outcomes[k].dropped == []);
      saved := Hashes(flushes[k]) + before;
      NamesOfLastFlush(lib, chunks, n, flushes[k], before, cmptype);
    }
  }

  /** The record is posted after the blocks. */
  lemma LastRecordIsPosted(lib: Library, s: State, c: nat, v: View, fate: Fate, after: nat) returns (s': State)
    requires At(s, c, v) && v.saver.Reading? && v.saver.list == [] && v.saver.job.big
    requires v.filed <= after <= |v.log|
    ensures Reaches(lib, s, s')
    ensures var Reading(job, list, saved) := v.saver;
      var rec := Record(c, job.key, Reverse(saved));
      At(s', c, v.(saver := Caching(job), db := MetaSaved(ProgressOf(v), rec, true, fate).table,
                   records := v.records + (if fate.Arrived() then [rec] else []), filed := after))
  {
    var Reading(job, list, saved) := v.saver;
    var i, rec := |s.server.handlers|, Record(c, job.key, Reverse(saved));
    var s1 := Apply(lib, s, Save(c, EndOfFile));
    StepReaches(lib, s, Save(c, EndOfFile));
    var v1 := v.(saver := PostingMeta(job, [], i));
    var s2, filed := RecordIsHandled(lib, s1, c, v1, rec, [], true, fate, after);
    ReachesThen(lib, s, s1, s2);
    var end := Save(c, if fate.Acknowledged? then MetaAnswered else MetaLost);
    var s3 := Apply(lib, s2, end);
    StepReaches(lib, s2, end);
    ReachesThen(lib, s, s2, s3);
    var v3 := v.(saver := Caching(job), db := MetaSaved(ProgressOf(v), rec, true, fate).table,
                 records := v.records + (if fate.Arrived() then [rec] else []), filed := filed);
    s' := BlocksAreFiled(lib, s3, c, v3, after);
    ReachesThen(lib, s, s3, s');
  }

  lemma BigFileEnds(lib: Library, s: State, c: nat, v: View, fate: Fate, after: nat) returns (s': State)
    requires At(s, c, v) && v.saver.Reading? && v.saver.list == [] && v.saver.job.big
    requires v.filed <= after <= |v.log|
    ensures Reaches(lib, s, s')
    ensures var Reading(job, list, saved) := v.saver;
      var rec := Record(c, job.key, Reverse(saved));
      At(s', c, v.(saver := Idle, cache := v.cache[job.key := job.chunks],
                   db := MetaSaved(ProgressOf(v), rec, true, fate).table,
                   records := v.records + (if fate.Arrived() then [rec] else []), filed := after))
  {
    var Reading(job, list, saved) := v.saver;
    var rec := Record(c, job.key, Reverse(saved));
    var s1 := LastRecordIsPosted(lib, s, c, v, fate, after);
    s' := FileIsCached(lib, s1, c, v.(saver := Caching(job), db := MetaSaved(ProgressOf(v), rec, true, fate).table,
                                      records := v.records + (if fate.Arrived() then [rec] else []), filed := after));
    ReachesThen(lib, s, s1, s');
  }

  /** What saving a big file has done before its record is posted. */
  lemma BeforeRecord(first: map<Hash, HashData>, flushes: seq<seq<HashData>>, outcomes: seq<AskFate>, rec: Record,
                     fate: Fate, queue: seq<Record>, a: Progress, queue': seq<Record>, b: Progress)
      returns (m: Progress)
    requires BigFileOutcome(first, flushes, outcomes, rec, fate, queue, a, queue', b)
    ensures FlushesDone(first, flushes, outcomes, a, m)
    ensures b == MetaSaved(m, rec, true, fate).(filed := b.filed) && m.filed <= b.filed <= |m.log|
    ensures queue' == queue + if fate.Arrived() then [rec] else []
  {
    m :| FlushesDone(first, flushes, outcomes, a, m)
         && b == MetaSaved(m, rec, true, fate).(filed := b.filed) && m.filed <= b.filed <= |b.log|;
  }

  lemma NoFlushIsEmpty(flushes: seq<seq<HashData>>, blocks: seq<HashData>, limit: int)
    requires Flushing(flushes, blocks, limit)
    ensures NoneEmpty(flushes) && InFileOrder(flushes) == blocks
  {
  }

  /** Every outcome of saving a big file is one the machine has, in the same way. */
  lemma BigFileIsARun(lib: Library, s: State, c: nat, v: View, key: FileKey, chunks: seq<seq<byte>>,
                      cmptype: Compression, limit: int, fate: Fate, flushes: seq<seq<HashData>>,
                      outcomes: seq<AskFate>, records: seq<Record>, b: Progress)
      returns (s': State)
    requires At(s, c, v) && v.saver.Idle? && key !in v.cache
    requires forall k :: 0 <= k < |chunks| ==> chunks[k] != []
    requires Flushing(flushes, BlocksOf(lib, chunks, cmptype), limit)
    requires BigFileOutcome(v.first, flushes, outcomes, Record(c, key, HashesOf(lib, chunks)), fate,
                            v.records, ProgressOf(v), records, b)
    ensures Leads(lib, s, s', DroppedOf(outcomes) == [])
    ensures At(s', c, WithProgress(v, b).(records := records, cache := v.cache[key := chunks]))
  {
    NoFlushIsEmpty(flushes, BlocksOf(lib, chunks, cmptype), limit);
    var m := BeforeRecord(v.first, flushes, outcomes, Record(c, key, HashesOf(lib, chunks)), fate,
                          v.records, ProgressOf(v), records, b);
    var s1 := Apply(lib, s, Save(c, StartBig(key)));
    StepReaches(lib, s, Save(c, StartBig(key)));
    var v1 := v.(saver := Reading(Job(key, true, []), [], []));
    var s2, saved := FlushesAreDone(lib, s1, c, v1, key, chunks, cmptype, flushes, outcomes, m);
    LeadsThen(lib, s, s1, s2, true, DroppedOf(outcomes) == []);
    var v2 := WithProgress(v1, m).(saver := Reading(Job(key, true, chunks), [], saved));
    s' := BigFileEnds(lib, s2, c, v2, fate, b.filed);
    LeadsThen(lib, s, s2, s', DroppedOf(outcomes) == [], true);
  }

  // ---------- a reconnection pass ----------

  /** The reconnection thread of the client is not in the middle of a post. */
  ghost predicate AtRest(s: State, c: nat, v: View) {
    At(s, c, v) && s.clients[c].relay.Resting?
  }

  /** What one row posted again does. */
  function AfterRow(v: View, id: nat, fate: Fate): View
    requires id in v.db.buffers
  {
    var r := v.db.buffers[id];
    v.(db := if fate.Acknowledged? then v.db.Mark(id) else v.db,
       log := v.log + if fate.Arrived() then Load(r) else [],
       records := v.records + if fate.Arrived() then RecordsOf(r) else [])
  }

  /** A row that arrives is handled: the hashes it asks about are looked up, its blocks or its record are queued. */
  lemma RowIsHandled(lib: Library, s: State, c: nat, v: View, i: nat, r: Request) returns (s': State)
    requires At(s, c, v) && i < |s.server.handlers| && s.server.handlers[i] == Handler(r, 0, [], false)
    ensures Reaches(lib, s, s') && s'.clients == s.clients
    ensures i < |s'.server.handlers| && s'.server.handlers[i].done
    ensures At(s', c, v.(log := v.log + Load(r), records := v.records + RecordsOf(r)))
  {
    if r.DataPost? {
      s' := DataIsHandled(lib, s, c, v, i, r.blocks);
      assert r.blocks[0..] == r.blocks && v.records + [] == v.records;
    } else {
      var looks := seq(|Asks(r)|, _ => v.filed);
      assert looks[..0] == [] && Asks(r)[..0] == [];
      var filed;
      s', filed := QuestionIsHandled(lib, s, c, v, i, looks, r, v.filed);
      assert v.log + [] == v.log;
    }
  }

  lemma RowIsReposted(lib: Library, s: State, c: nat, v: View, id: nat, fate: Fate) returns (s': State)
    requires AtRest(s, c, v) && id in v.db.Pending()
    ensures Reaches(lib, s, s') && AtRest(s', c, AfterRow(v, id, fate))
  {
    var r, i := v.db.buffers[id], |s.server.handlers|;
    var s1 := Apply(lib, s, Repost(c, id));
    StepReaches(lib, s, Repost(c, id));
    var s2 := s1;
    if fate.Arrived() {
      s2 := RowIsHandled(lib, s1, c, v, i, r);
      ReachesThen(lib, s, s1, s2);
    } else {
      assert v.log + [] == v.log && v.records + [] == v.records;
    }
    var end := if fate.Acknowledged? then RepostAnswered(c) else RepostLost(c);
    s' := Apply(lib, s2, end);
    StepReaches(lib, s2, end);
    ReachesThen(lib, s, s2, s');
  }

  /** The rows of a pass, one after the other. */
  function AfterRows(v: View, order: seq<nat>, fates: seq<Fate>): View
    requires |fates| == |order| && forall id :: id in order ==> id in v.db.buffers
    ensures AfterRows(v, order, fates).db.buffers == v.db.buffers
    decreases |order|
  {
    if order == [] then v
    else var n := |order| - 1; AfterRow(AfterRows(v, order[..n], fates[..n]), order[n], fates[n])
  }

  /** The rows not posted yet still wait. */
  lemma {:induction false} RestStillWaits(v: View, order: seq<nat>, fates: seq<Fate>, id: nat)
    requires |fates| == |order| && (forall k :: k in order ==> k in v.db.buffers) && id !in order
    ensures id in AfterRows(v, order, fates).db.transmited <==> id in v.db.transmited
    decreases |order|
  {
    if order != [] {
      var n := |order| - 1;
      RestStillWaits(v, order[..n], fates[..n], id);
    }
  }

  lemma {:induction false} RowsAreReposted(lib: Library, s: State, c: nat, v: View, order: seq<nat>, fates: seq<Fate>)
      returns (s': State)
    requires AtRest(s, c, v) && |fates| == |order| && NoDuplicates(order)
    requires forall id :: id in order ==> id in v.db.buffers && id in v.db.Pending()
    ensures Reaches(lib, s, s') && AtRest(s', c, AfterRows(v, order, fates))
    decreases |order|
  {
    if order == [] {
      s' := s;
      ReachesItself(lib, s);
    } else {
      var n := |order| - 1;
      var s1 := RowsAreReposted(lib, s, c, v, order[..n], fates[..n]);
      RestStillWaits(v, order[..n], fates[..n], order[n]);
      s' := RowIsReposted(lib, s1, c, AfterRows(v, order[..n], fates[..n]), order[n], fates[n]);
      ReachesThen(lib, s, s1, s');
    }
  }

  /** Rows recorded as transmitted are deleted, one after the other. */
  lemma {:induction false} RowsAreDeleted(lib: Library, s: State, c: nat, v: View, gone: set<nat>) returns (s': State)
    requires AtRest(s, c, v) && gone <= v.db.transmited && gone <= v.db.buffers.Keys
    ensures Reaches(lib, s, s') && AtRest(s', c, v.(db := v.db.(buffers := v.db.buffers - gone)))
    decreases gone
  {
    if id :| id in gone {
      var s1 := Apply(lib, s, DeleteRow(c, id));
      StepReaches(lib, s, DeleteRow(c, id));
      var v1 := v.(db := v.db.Delete(id));
      s' := RowsAreDeleted(lib, s1, c, v1, gone - {id});
      ReachesThen(lib, s, s1, s');
      assert (v.db.buffers - {id}) - (gone - {id}) == v.db.buffers - gone;
    } else {
      s' := s;
      ReachesItself(lib, s);
      assert v.db.buffers - gone == v.db.buffers;
    }
  }

  /** The rows posted one by one leave what the code says of the whole pass. */
  lemma {:induction false} RowsAddUp(v: View, order: seq<nat>, fates: seq<Fate>)
    requires |fates| == |order| && forall id :: id in order ==> id in v.db.buffers
    ensures var w := AfterRows(v, order, fates);
      && w == v.(db := w.db, log := w.log, records := w.records) && w.db == v.db.(transmited := w.db.transmited)
      && w.log == v.log + BlocksArrived(v.db.buffers, order, fates)
      && w.records == v.records + RecordsArrived(v.db.buffers, order, fates)
      && forall id :: id in w.db.transmited <==> id in v.db.transmited || RowAnswered(order, fates, id)
    decreases |order|
  {
    if order == [] {
      assert v.log + [] == v.log && v.records + [] == v.records;
    } else {
      var n, rows := |order| - 1, v.db.buffers;
      var order', fates' := order[..n], fates[..n];
      RowsAddUp(v, order', fates');
      var r := rows[order[n]];
      Associative(v.log, BlocksArrived(rows, order', fates'), if fates[n].Arrived() then Load(r) else []);
      Associative(v.records, RecordsArrived(rows, order', fates'), if fates[n].Arrived() then RecordsOf(r) else []);
      LastAnswered(order, fates);
    }
  }

  lemma LastAnswered(order: seq<nat>, fates: seq<Fate>)
    requires |fates| == |order| > 0
    ensures var n := |order| - 1;
      forall id :: RowAnswered(order, fates, id) <==>
                   RowAnswered(order[..n], fates[..n], id) || (id == order[n] && fates[n].Acknowledged?)
  {
    var n := |order| - 1;
    forall id | RowAnswered(order[..n], fates[..n], id) ensures RowAnswered(order, fates, id) {
      var k :| 0 <= k < n && order[..n][k] == id && fates[..n][k].Acknowledged?;
      assert order[k] == id && fates[k].Acknowledged?;
    }
    forall id | RowAnswered(order, fates, id) && !(id == order[n] && fates[n].Acknowledged?)
      ensures RowAnswered(order[..n], fates[..n], id)
    {
      var k :| 0 <= k < |order| && order[k] == id && fates[k].Acknowledged?;
      assert order[..n][k] == id && fates[..n][k].Acknowledged?;
    }
  }

  /**
   Every outcome of a reconnection pass is one the machine has: it reaches a state with the same records, rows,
   blocks queued and stored.
   */
  lemma PassIsARun(lib: Library, s: State, c: nat, v: View, order: seq<nat>, fateOf: nat -> Fate, x: Point, y: Point)
      returns (s': State)
    requires AtRest(s, c, v) && x.queue == v.records && x.at == ProgressOf(v)
    requires PassDone(lib, v.first, order, fateOf, x, y)
    ensures Reaches(lib, s, s') && AtRest(s', c, WithProgress(v, y.at).(records := y.queue))
  {
    var fates := Fates(fateOf, x.posts, |order|);
    var s1 := RowsAreReposted(lib, s, c, v, order, fates);
    RowsAddUp(v, order, fates);
    var w := AfterRows(v, order, fates);
    assert w.db.transmited == y.at.table.transmited;
    var gone := w.db.transmited * w.db.buffers.Keys;
    var s2 := RowsAreDeleted(lib, s1, c, w, gone);
    ReachesThen(lib, s, s1, s2);
    assert w.db.buffers - gone == y.at.table.buffers;
    var w2 := w.(db := y.at.table);
    s' := BlocksAreFiled(lib, s2, c, w2, y.at.filed);
    ReachesThen(lib, s, s2, s');
  }

  // ---------- so it is safe ----------

  /** The file is in the cache, its record and all its blocks on the server or in waiting rows. */
  ghost predicate SavedSafely(lib: Library, s: State, c: nat, key: FileKey, chunks: seq<seq<byte>>) {
    && c < |s.clients| && key in s.clients[c].cache && s.clients[c].cache[key] == chunks
    && Safety.RecordDurable(s, Record(c, key, HashesOf(lib, chunks)))
    && Safety.AllDurable(s, HashesOf(lib, chunks))
  }

  /** A reachable state in which the file is saved safely, and everything else is as the code leaves it. */
  ghost predicate EndsSafely(lib: Library, n: nat, s: State, c: nat, key: FileKey, chunks: seq<seq<byte>>, v: View) {
    (exists steps :: Safety.Reachable(lib, n, steps, s)) && SavedSafely(lib, s, c, key, chunks) && At(s, c, v)
  }

  lemma CachedIsSafe(lib: Library, n: nat, steps: seq<Step>, s: State, s': State, c: nat, v: View, key: FileKey)
    requires ZlibSound(lib) && Safety.Reachable(lib, n, steps, s) && Reaches(lib, s, s')
    requires At(s', c, v) && key in v.cache
    ensures EndsSafely(lib, n, s', c, key, v.cache[key], v)
  {
    var more :| Run(lib, s, more, s') && Dropless(more);
    Safety.ReachableThen(lib, n, steps, s, more, s');
    Safety.CachedFilesAreSafe(lib, n, steps + more, s', c, key);
  }

  /** Whatever ran before, a small file saved by the code, with any outcome that drops no block, is safe. */
  lemma SmallFileIsSafe(lib: Library, n: nat, steps: seq<Step>, s: State, c: nat, v: View, key: FileKey,
                        chunks: seq<seq<byte>>, cmptype: Compression, fate: Fate, o: AskFate, records: seq<Record>,
                        b: Progress)
    requires ZlibSound(lib) && Safety.Reachable(lib, n, steps, s) && o.dropped == []
    requires At(s, c, v) && v.saver.Idle? && key !in v.cache
    requires forall raw :: raw in chunks ==> raw != []
    requires SmallFileOutcome(v.first, BlocksOf(lib, chunks, cmptype), Record(c, key, HashesOf(lib, chunks)),
                              fate, o, v.records, ProgressOf(v), records, b)
    ensures var v' := WithProgress(v, b).(records := records, cache := v.cache[key := chunks]);
      exists s' :: Reaches(lib, s, s') && EndsSafely(lib, n, s', c, key, chunks, v')
  {
    var s' := SmallFileIsARun(lib, s, c, v, key, chunks, cmptype, fate, o, records, b);
    CachedIsSafe(lib, n, steps, s, s', c,
                 WithProgress(v, b).(records := records, cache := v.cache[key := chunks]), key);
  }

  /** And so is a big file. */
  lemma BigFileIsSafe(lib: Library, n: nat, steps: seq<Step>, s: State, c: nat, v: View, key: FileKey,
                      chunks: seq<seq<byte>>, cmptype: Compression, limit: int, fate: Fate,
                      flushes: seq<seq<HashData>>, outcomes: seq<AskFate>, records: seq<Record>, b: Progress)
    requires ZlibSound(lib) && Safety.Reachable(lib, n, steps, s) && DroppedOf(outcomes) == []
    requires At(s, c, v) && v.saver.Idle? && key !in v.cache
    requires forall k :: 0 <= k < |chunks| ==> chunks[k] != []
    requires Flushing(flushes, BlocksOf(lib, chunks, cmptype), limit)
    requires BigFileOutcome(v.first, flushes, outcomes, Record(c, key, HashesOf(lib, chunks)), fate,
                            v.records, ProgressOf(v), records, b)
    ensures var v' := WithProgress(v, b).(records := records, cache := v.cache[key := chunks]);
      exists s' :: Reaches(lib, s, s') && EndsSafely(lib, n, s', c, key, chunks, v')
  {
    var s' := BigFileIsARun(lib, s, c, v, key, chunks, cmptype, limit, fate, flushes, outcomes, records, b);
    CachedIsSafe(lib, n, steps, s, s', c,
                 WithProgress(v, b).(records := records, cache := v.cache[key := chunks]), key);
  }
}
