/**
 From every state the system can settle without the clients doing anything new: the reconnection threads post
 the rows that wait, the server handles the posts, and its two threads empty their queues. So every file in a
 cache can be restored in the end.
 */
module Settling {
  import opened Blocks
  import opened Offline
  import opened Protocol
  import opened ProtocolSafety

  /** A step of a server thread or of a reconnection thread. */
  predicate Quiet(step: Step) {
    !step.Save? && !step.Restart?
  }

  ghost predicate AllQuiet(steps: seq<Step>) {
    forall k :: 0 <= k < |steps| ==> Quiet(steps[k])
  }

  /** Quiet steps lead from one state to the other; they read no file and touch no cache and no saving thread. */
  ghost predicate Settles(lib: Library, s: State, s': State) {
    && (exists steps :: Run(lib, s, steps, s') && AllQuiet(steps))
    && SameFiles(s, s')
  }

  ghost predicate SameFiles(s: State, s': State) {
    && s'.seen == s.seen && |s'.clients| == |s.clients|
    && forall c :: 0 <= c < |s.clients| ==>
         s'.clients[c].cache == s.clients[c].cache && s'.clients[c].saver == s.clients[c].saver
  }

  lemma SettlesItself(lib: Library, s: State)
    ensures Settles(lib, s, s)
  {
    var none: seq<Step> := [];
    assert Run(lib, s, none, s) && AllQuiet(none);
  }

  lemma SettlesThen(lib: Library, s: State, m: State, s': State)
    requires Settles(lib, s, m) && Settles(lib, m, s')
    ensures Settles(lib, s, s')
  {
    var first :| Run(lib, s, first, m) && AllQuiet(first);
    var rest :| Run(lib, m, rest, s') && AllQuiet(rest);
    RunThen(lib, s, first, m, rest, s');
    assert AllQuiet(first + rest);
  }

  lemma QuietStep(lib: Library, s: State, step: Step)
    requires Enabled(s, step) && Quiet(step)
    ensures Settles(lib, s, Apply(lib, s, step))
  {
    var steps := [step];
    assert steps[1..] == [] && Run(lib, s, steps, Apply(lib, s, step));
    assert AllQuiet(steps);
  }

  // ---------- the server handles a request ----------

  /** What a thread does with a request: look its hashes up or queue its blocks, then answer. */
  lemma OneMoreStep(lib: Library, s: State, i: nat) returns (s': State)
    requires i < |s.server.handlers| && !s.server.handlers[i].done
    requires var hd := s.server.handlers[i]; hd.progress < |Asks(hd.request)| + |Load(hd.request)|
    ensures Settles(lib, s, s') && s'.clients == s.clients && |s'.server.handlers| == |s.server.handlers|
    ensures var hd, hd' := s.server.handlers[i], s'.server.handlers[i];
      hd'.request == hd.request && hd'.progress == hd.progress + 1 && !hd'.done
  {
    var hd := s.server.handlers[i];
    var step := if hd.progress < |Asks(hd.request)| then LookUpHash(i) else QueueBlock(i);
    QuietStep(lib, s, step);
    s' := Apply(lib, s, step);
  }

  lemma {:induction false} RequestIsAnswered(lib: Library, s: State, i: nat) returns (s': State)
    requires i < |s.server.handlers| && !s.server.handlers[i].done
    requires var hd := s.server.handlers[i]; hd.progress <= |Asks(hd.request)| + |Load(hd.request)|
    ensures Settles(lib, s, s') && s'.clients == s.clients && Answered(s', i)
    decreases var hd := s.server.handlers[i]; |Asks(hd.request)| + |Load(hd.request)| - hd.progress
  {
    var hd := s.server.handlers[i];
    if hd.progress == |Asks(hd.request)| + |Load(hd.request)| {
      QuietStep(lib, s, Answer(i));
      s' := Apply(lib, s, Answer(i));
    } else {
      var s1 := OneMoreStep(lib, s, i);
      s' := RequestIsAnswered(lib, s1, i);
      SettlesThen(lib, s, s1, s');
    }
  }

  // ---------- the rows that wait are posted ----------

  /** A reconnection thread that waits for an answer gives up. */
  lemma RelayRests(lib: Library, s: State, c: nat) returns (s': State)
    requires c < |s.clients|
    ensures Settles(lib, s, s') && s'.clients == s.clients[c := s.clients[c].(relay := Resting)]
  {
    if s.clients[c].relay.Resting? {
      s' := s;
      SettlesItself(lib, s);
    } else {
      QuietStep(lib, s, RepostLost(c));
      s' := Apply(lib, s, RepostLost(c));
    }
  }

  lemma RowIsReposted(lib: Library, s: State, c: nat, id: nat) returns (s': State)
    requires c < |s.clients| && s.clients[c].relay.Resting? && id in s.clients[c].db.Pending()
    ensures Settles(lib, s, s') && s'.clients == s.clients[c := s.clients[c].(db := s.clients[c].db.Mark(id))]
  {
    var i := |s.server.handlers|;
    var s1 := Apply(lib, s, Repost(c, id));
    QuietStep(lib, s, Repost(c, id));
    var s2 := RequestIsAnswered(lib, s1, i);
    SettlesThen(lib, s, s1, s2);
    QuietStep(lib, s2, RepostAnswered(c));
    s' := Apply(lib, s2, RepostAnswered(c));
    SettlesThen(lib, s, s2, s');
  }

  lemma {:induction false} RowsAreReposted(lib: Library, s: State, c: nat) returns (s': State)
    requires c < |s.clients| && s.clients[c].relay.Resting?
    ensures Settles(lib, s, s') && s'.clients[c].db.Pending() == {}
    ensures forall d :: 0 <= d < |s.clients| && d != c ==> s'.clients[d] == s.clients[d]
    decreases s.clients[c].db.Pending()
  {
    if s.clients[c].db.Pending() == {} {
      s' := s;
      SettlesItself(lib, s);
    } else {
      var id :| id in s.clients[c].db.Pending();
      var s1 := RowIsReposted(lib, s, c, id);
      assert s1.clients[c].db.Pending() == s.clients[c].db.Pending() - {id};
      s' := RowsAreReposted(lib, s1, c);
      SettlesThen(lib, s, s1, s');
    }
  }

  /** The first clients have nothing to post any more. */
  lemma {:induction false} AllRowsAreReposted(lib: Library, s: State, k: nat) returns (s': State)
    requires k <= |s.clients|
    ensures Settles(lib, s, s')
    ensures forall c :: 0 <= c < k ==> s'.clients[c].db.Pending() == {}
  {
    if k == 0 {
      s' := s;
      SettlesItself(lib, s);
    } else {
      var s1 := AllRowsAreReposted(lib, s, k - 1);
      var s2 := RelayRests(lib, s1, k - 1);
      s' := RowsAreReposted(lib, s2, k - 1);
      SettlesThen(lib, s1, s2, s');
      SettlesThen(lib, s, s1, s');
    }
  }

  // ---------- the queues are emptied ----------

  lemma {:induction false} BlocksAreStored(lib: Library, s: State) returns (s': State)
    ensures Settles(lib, s, s') && s'.clients == s.clients
    ensures s'.server.dataQueue == [] && s'.server.dataHand == []
    decreases 2 * |s.server.dataQueue| + |s.server.dataHand|
  {
    if s.server.dataQueue == [] && s.server.dataHand == [] {
      s' := s;
      SettlesItself(lib, s);
    } else {
      var step := if s.server.dataHand == [] then PopData else StoreData;
      QuietStep(lib, s, step);
      s' := BlocksAreStored(lib, Apply(lib, s, step));
      SettlesThen(lib, s, Apply(lib, s, step), s');
    }
  }

  lemma {:induction false} RecordsAreStored(lib: Library, s: State) returns (s': State)
    ensures Settles(lib, s, s') && s'.clients == s.clients
    ensures s'.server.metaQueue == [] && s'.server.metaHand == []
    ensures s'.server.dataQueue == s.server.dataQueue && s'.server.dataHand == s.server.dataHand
    decreases 2 * |s.server.metaQueue| + |s.server.metaHand|
  {
    if s.server.metaQueue == [] && s.server.metaHand == [] {
      s' := s;
      SettlesItself(lib, s);
    } else {
      var step := if s.server.metaHand == [] then PopMeta else StoreMeta;
      QuietStep(lib, s, step);
      s' := RecordsAreStored(lib, Apply(lib, s, step));
      SettlesThen(lib, s, Apply(lib, s, step), s');
    }
  }

  /** From every state, server and reconnection threads alone can bring everything to rest, with the same caches. */
  lemma CanSettle(lib: Library, s: State)
    ensures exists s' :: Settles(lib, s, s') && Settled(s')
  {
    var s1 := AllRowsAreReposted(lib, s, |s.clients|);
    var s2 := BlocksAreStored(lib, s1);
    var s' := RecordsAreStored(lib, s2);
    SettlesThen(lib, s1, s2, s');
    SettlesThen(lib, s, s1, s');
  }

  /** Some stored record of this file gives these chunks when it is restored. */
  ghost predicate ComesBack(lib: Library, sv: Server, c: nat, key: FileKey, chunks: seq<seq<byte>>) {
    exists rec :: rec in sv.metaStore && rec.host == c && rec.key == key
                  && Restored(lib, sv.blocks, rec.hashes) == Concat(chunks)
  }

  /** Every file that is in some client's cache in s can be restored in s' as it was read. */
  ghost predicate AllComeBack(lib: Library, s: State, s': State) {
    forall c, key :: 0 <= c < |s.clients| && key in s.clients[c].cache ==>
      ComesBack(lib, s'.server, c, key, s.clients[c].cache[key])
  }

  /**
   Whatever happened so far: without any client saving anything again, the system can get to a state in which
   every file that is now in some client's cache can be restored as it was read.
   */
  lemma CachedFilesComeBack(lib: Library, n: nat, steps: seq<Step>, s: State)
    requires ZlibSound(lib) && Reachable(lib, n, steps, s) && CollisionFree(lib, s.seen)
    ensures exists s' :: Settles(lib, s, s') && AllComeBack(lib, s, s')
  {
    CanSettle(lib, s);
    var s' :| Settles(lib, s, s') && Settled(s');
    var more :| Run(lib, s, more, s') && AllQuiet(more);
    ReachableThen(lib, n, steps, s, more, s');
    forall c, key | 0 <= c < |s.clients| && key in s.clients[c].cache
      ensures ComesBack(lib, s'.server, c, key, s.clients[c].cache[key])
    {
      CachedFilesCanBeRestored(lib, n, steps + more, s', c, key);
    }
    assert AllComeBack(lib, s, s');
  }
}
