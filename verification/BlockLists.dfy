/**
 The lists of blocks the client and the server exchange: which hashes the server asks for, how the
 client looks the blocks up for that answer, and how it groups them into requests.
 */
module BlockLists {
  import opened Blocks

  ghost predicate NoDuplicates<T>(s: seq<T>) {
    forall i, j :: 0 <= i < j < |s| ==> s[i] != s[j]
  }

  /** Some occurrence of a in s comes before every occurrence of b. */
  ghost predicate StartsBefore<T>(s: seq<T>, a: T, b: T) {
    exists p: nat :: p < |s| && s[p] == a && b !in s[..p + 1]
  }

  // ---------- the needed list (server side) ----------

  /**
   The hashes the server answers: those its lookup does not find, each once. The store can grow between two
   lookups: stored[k] is what it has at the k-th.
   */
  function Needed(stored: seq<set<Hash>>, hashes: seq<Hash>): (r: seq<Hash>)
    requires |stored| == |hashes|
    ensures forall h :: h in r ==> h in hashes
    decreases |hashes|
  {
    if hashes == [] then []
    else
      var n := |hashes| - 1;
      var before := Needed(stored[..n], hashes[..n]);
      if hashes[n] in stored[n] || hashes[n] in before then before else before + [hashes[n]]
  }

  /** Some lookup of the hash does not find it. */
  ghost predicate Missing(stored: seq<set<Hash>>, hashes: seq<Hash>, h: Hash)
    requires |stored| == |hashes|
  {
    exists k :: 0 <= k < |hashes| && hashes[k] == h && h !in stored[k]
  }

  lemma NeededOneMore(stored: seq<set<Hash>>, hashes: seq<Hash>, now: set<Hash>, h: Hash)
    requires |stored| == |hashes|
    ensures var before := Needed(stored, hashes);
      Needed(stored + [now], hashes + [h]) == if h in now || h in before then before else before + [h]
  {
    var n := |hashes|;
    assert (stored + [now])[..n] == stored && (hashes + [h])[..n] == hashes;
  }

  lemma MissingInOrBefore(stored: seq<set<Hash>>, hashes: seq<Hash>, h: Hash)
    requires |stored| == |hashes| > 0
    ensures var n := |hashes| - 1;
      Missing(stored, hashes, h) <==> Missing(stored[..n], hashes[..n], h) || (hashes[n] == h && h !in stored[n])
  {
    var n := |hashes| - 1;
    assert forall k :: 0 <= k < n ==> hashes[..n][k] == hashes[k] && stored[..n][k] == stored[k];
    if Missing(stored, hashes, h) && !(hashes[n] == h && h !in stored[n]) {
      var k :| 0 <= k < |hashes| && hashes[k] == h && h !in stored[k];
      assert hashes[..n][k] == h;
    }
  }

  /** The answer is exactly what some lookup did not find. */
  lemma {:induction false} NeededIff(stored: seq<set<Hash>>, hashes: seq<Hash>, h: Hash)
    requires |stored| == |hashes|
    ensures h in Needed(stored, hashes) <==> Missing(stored, hashes, h)
    decreases |hashes|
  {
    if hashes != [] {
      var n := |hashes| - 1;
      NeededIff(stored[..n], hashes[..n], h);
      MissingInOrBefore(stored, hashes, h);
    }
  }

  /** No hash is answered twice. */
  lemma {:induction false} NeededOnce(stored: seq<set<Hash>>, hashes: seq<Hash>)
    requires |stored| == |hashes|
    ensures NoDuplicates(Needed(stored, hashes))
    decreases |hashes|
  {
    if hashes != [] {
      NeededOnce(stored[..|hashes| - 1], hashes[..|hashes| - 1]);
    }
  }

  /** Nothing leaves the store. */
  ghost predicate Growing(stored: seq<set<Hash>>) {
    forall j, k :: 0 <= j <= k < |stored| ==> stored[j] <= stored[k]
  }

  /** A hash that a later lookup does not find, and that is not in the answer, was not asked about before. */
  lemma NewlyMissed(stored: seq<set<Hash>>, hashes: seq<Hash>, n: nat)
    requires |stored| == |hashes| && n < |hashes| && Growing(stored)
    requires hashes[n] !in stored[n] && hashes[n] !in Needed(stored[..n], hashes[..n])
    ensures hashes[n] !in hashes[..n]
  {
    NeededIff(stored[..n], hashes[..n], hashes[n]);
    forall k | 0 <= k < n ensures hashes[..n][k] != hashes[n] {
      assert stored[k] <= stored[n] && stored[..n][k] == stored[k];
    }
  }

  lemma StillBefore<T>(init: seq<T>, h: T, a: T, b: T)
    requires StartsBefore(init, a, b) || (a in init && b !in init)
    ensures StartsBefore(init + [h], a, b)
  {
    var p: nat :| p < |init| && init[p] == a && b !in init[..p + 1];
    assert (init + [h])[..p + 1] == init[..p + 1];
  }

  /** r names elements of s in the order in which s first names them. */
  ghost predicate InOrder<T>(s: seq<T>, r: seq<T>) {
    forall i, j :: 0 <= i < j < |r| ==> StartsBefore(s, r[i], r[j])
  }

  lemma InOrderStill<T>(s: seq<T>, h: T, r: seq<T>)
    requires InOrder(s, r)
    ensures InOrder(s + [h], r)
  {
    forall i, j | 0 <= i < j < |r| ensures StartsBefore(s + [h], r[i], r[j]) {
      StillBefore(s, h, r[i], r[j]);
    }
  }

  lemma InOrderOneMore<T>(s: seq<T>, h: T, r: seq<T>)
    requires InOrder(s, r) && h !in s && forall k :: 0 <= k < |r| ==> r[k] in s
    ensures InOrder(s + [h], r + [h])
  {
    var r' := r + [h];
    forall i, j | 0 <= i < j < |r'| ensures StartsBefore(s + [h], r'[i], r'[j]) {
      assert r'[i] == r[i];
      assert j < |r| ==> r'[j] == r[j];
      StillBefore(s, h, r[i], r'[j]);
    }
  }

  /** The answer keeps the order in which the request first names the hashes. */
  lemma {:induction false} NeededOrder(stored: seq<set<Hash>>, hashes: seq<Hash>)
    requires |stored| == |hashes| && Growing(stored)
    ensures InOrder(hashes, Needed(stored, hashes))
    decreases |hashes|
  {
    if hashes != [] {
      var n := |hashes| - 1;
      var before := Needed(stored[..n], hashes[..n]);
      NeededOrder(stored[..n], hashes[..n]);
      OneMore(hashes, n);
      WholePrefix(hashes);
      if hashes[n] in stored[n] || hashes[n] in before {
        InOrderStill(hashes[..n], hashes[n], before);
      } else {
        NewlyMissed(stored, hashes, n);
        assert forall k :: 0 <= k < |before| ==> before[k] in before;
        InOrderOneMore(hashes[..n], hashes[n], before);
      }
    }
  }

  /** hash_data_is_in_list */
  method HashDataIsInList(h: Hash, needed: seq<Hash>) returns (found: bool)
    ensures found <==> h in needed
  {
    var i := 0;
    found := false;
    while i < |needed| && !found
      invariant 0 <= i <= |needed|
      invariant found ==> h in needed
      invariant !found ==> h !in needed[..i]
      decreases |needed| - i, !found
    {
      if needed[i] == h {
        found := true;
      } else {
        i := i + 1;
      }
    }
  }

  lemma SameElements<T>(s: seq<T>)
    ensures forall x :: x in s <==> x in Reverse(s)
    ensures multiset(Reverse(s)) == multiset(s)
  {
    forall x | x in s ensures x in Reverse(s) {
      var i :| 0 <= i < |s| && s[i] == x;
      assert Reverse(s)[|s| - 1 - i] == x;
    }
    if s != [] {
      SameElements(s[1..]);
      assert Reverse(s) == Reverse(s[1..]) + [s[0]];
      assert s == [s[0]] + s[1..];
    }
  }

  // ---------- looking blocks up (client side) ----------

  /** Position of the first block named h, or |list|. */
  function First(list: seq<HashData>, h: Hash): (r: nat)
    ensures r <= |list|
    ensures r < |list| ==> list[r].hash == h
    ensures forall k :: 0 <= k < r ==> list[k].hash != h
  {
    if list == [] || list[0].hash == h then 0 else 1 + First(list[1..], h)
  }

  function Without<T>(list: seq<T>, i: nat): seq<T>
    requires i < |list|
  {
    list[..i] + list[i + 1..]
  }

  /** Each lookup finds a block: the client does not run into a missing element. */
  ghost predicate Answers(list: seq<HashData>, todo: seq<Hash>)
    decreases |todo|
  {
    todo == []
    || (First(list, todo[0]) < |list| && Answers(Without(list, First(list, todo[0])), todo[1..]))
  }

  /** The blocks sent for an answer: for each hash in turn, the first block of that name still listed. */
  ghost function Taken(list: seq<HashData>, todo: seq<Hash>): seq<HashData>
    requires Answers(list, todo)
    decreases |todo|
  {
    if todo == [] then []
    else var i := First(list, todo[0]); [list[i]] + Taken(Without(list, i), todo[1..])
  }

  /** The blocks left over. */
  ghost function Left(list: seq<HashData>, todo: seq<Hash>): seq<HashData>
    requires Answers(list, todo)
    decreases |todo|
  {
    if todo == [] then list else Left(Without(list, First(list, todo[0])), todo[1..])
  }

  lemma WithoutMultiset<T>(s: seq<T>, i: nat)
    requires i < |s|
    ensures multiset(s) == multiset(Without(s, i)) + multiset{s[i]}
  {
    assert s == s[..i] + [s[i]] + s[i + 1..];
    assert multiset(s) == multiset(s[..i]) + multiset{s[i]} + multiset(s[i + 1..]);
  }

  lemma HeadMultiset<T>(s: seq<T>)
    requires s != []
    ensures multiset(s) == multiset{s[0]} + multiset(s[1..])
  {
    assert s == [s[0]] + s[1..];
  }

  lemma WithoutNames(list: seq<HashData>, i: nat)
    requires i < |list|
    ensures Hashes(Without(list, i)) == Without(Hashes(list), i)
  {
  }

  lemma SubMultisetStep<T>(s: seq<T>, todo: seq<T>, i: nat)
    requires i < |s| && todo != [] && s[i] == todo[0]
    ensures multiset(todo) <= multiset(s) <==> multiset(todo[1..]) <= multiset(Without(s, i))
  {
    HeadMultiset(todo);
    WithoutMultiset(s, i);
    if multiset(todo) <= multiset(s) {
      forall x ensures multiset(todo[1..])[x] <= multiset(Without(s, i))[x] {
        assert multiset(todo)[x] <= multiset(s)[x];
      }
    }
  }

  /** No lookup misses exactly when the hashes asked for are a sub-multiset of those at hand. */
  lemma {:induction false} AnswersIffSubMultiset(list: seq<HashData>, todo: seq<Hash>)
    ensures Answers(list, todo) <==> multiset(todo) <= multiset(Hashes(list))
    decreases |todo|
  {
    if todo != [] {
      var i, h := First(list, todo[0]), todo[0];
      if i < |list| {
        AnswersIffSubMultiset(Without(list, i), todo[1..]);
        WithoutNames(list, i);
        SubMultisetStep(Hashes(list), todo, i);
      } else {
        HeadMultiset(todo);
        assert h !in Hashes(list);
        assert multiset(todo)[h] > 0;
      }
    }
  }

  /** The blocks sent are the blocks asked for, in the order asked. */
  lemma {:induction false} TakenIsWhatWasAsked(list: seq<HashData>, todo: seq<Hash>)
    requires Answers(list, todo)
    ensures Hashes(Taken(list, todo)) == todo
    decreases |todo|
  {
    if todo != [] {
      TakenIsWhatWasAsked(Without(list, First(list, todo[0])), todo[1..]);
    }
  }

  /** What is sent and what is left make up the list: no block is lost or doubled. */
  lemma {:induction false} TakenAndLeft(list: seq<HashData>, todo: seq<Hash>)
    requires Answers(list, todo)
    ensures multiset(list) == multiset(Taken(list, todo)) + multiset(Left(list, todo))
    decreases |todo|
  {
    if todo != [] {
      var i := First(list, todo[0]);
      TakenAndLeft(Without(list, i), todo[1..]);
      WithoutMultiset(list, i);
      HeadMultiset(Taken(list, todo));
      assert Taken(list, todo)[1..] == Taken(Without(list, i), todo[1..]);
    }
  }

  lemma {:induction false} TakenAreListed(list: seq<HashData>, todo: seq<Hash>)
    requires Answers(list, todo)
    ensures forall b :: b in Taken(list, todo) || b in Left(list, todo) ==> b in list
    decreases |todo|
  {
    if todo != [] {
      var i := First(list, todo[0]);
      var less := Without(list, i);
      TakenAreListed(less, todo[1..]);
      assert forall b :: b in less ==> b in list;
      assert Taken(list, todo) == [list[i]] + Taken(less, todo[1..]);
      assert Left(list, todo) == Left(less, todo[1..]);
    }
  }

  /** An answer can be consumed in parts. */
  lemma {:induction false} PartsAnswer(list: seq<HashData>, first: seq<Hash>, rest: seq<Hash>)
    requires Answers(list, first + rest)
    ensures Answers(list, first) && Answers(Left(list, first), rest)
    ensures Left(list, first + rest) == Left(Left(list, first), rest)
    decreases |first|
  {
    var all := first + rest;
    if first == [] {
      assert all == rest;
    } else {
      assert all[0] == first[0] && all[1..] == first[1..] + rest;
      PartsAnswer(Without(list, First(list, first[0])), first[1..], rest);
    }
  }

  lemma TakenHead(left: seq<HashData>, todo: seq<Hash>)
    requires Answers(left, todo) && todo != []
    ensures var i := First(left, todo[0]);
      && i < |left| && Answers(Without(left, i), todo[1..])
      && Taken(left, todo) == [left[i]] + Taken(Without(left, i), todo[1..])
      && Left(left, todo) == Left(Without(left, i), todo[1..])
  {
  }

  lemma {:induction false} TakenInParts(list: seq<HashData>, first: seq<Hash>, rest: seq<Hash>)
    requires Answers(list, first + rest) && Answers(list, first) && Answers(Left(list, first), rest)
    ensures Taken(list, first + rest) == Taken(list, first) + Taken(Left(list, first), rest)
    decreases |first|
  {
    var all := first + rest;
    if first == [] {
      assert all == rest;
    } else {
      HeadOfConcat(first, rest);
      TakenHead(list, all);
      TakenHead(list, first);
      var i := First(list, first[0]);
      var less := Without(list, i);
      TakenInParts(less, first[1..], rest);
      Associative([list[i]], Taken(less, first[1..]), Taken(Left(less, first[1..]), rest));
    }
  }

  lemma HeadOfConcat<T>(first: seq<T>, rest: seq<T>)
    requires first != []
    ensures (first + rest)[0] == first[0] && (first + rest)[1..] == first[1..] + rest
  {
  }

  /** A duplicate-free answer made of listed hashes is found. */
  lemma {:induction false} SelectionAnswers(list: seq<HashData>, todo: seq<Hash>)
    requires NoDuplicates(todo) && forall h :: h in todo ==> h in Hashes(list)
    ensures Answers(list, todo)
    decreases |todo|
  {
    if todo != [] {
      var i := First(list, todo[0]);
      assert todo[0] in Hashes(list);
      var rest := Without(list, i);
      forall h | h in todo[1..] ensures h in Hashes(rest) {
        assert h in todo && h != todo[0];
        var k :| 0 <= k < |list| && list[k].hash == h;
        assert Hashes(rest)[if k < i then k else k - 1] == h;
      }
      SelectionAnswers(rest, todo[1..]);
    }
  }

  lemma {:induction false} WholeListAnswers(list: seq<HashData>)
    ensures Answers(list, Hashes(list))
  {
    if list != [] {
      assert First(list, Hashes(list)[0]) == 0;
      assert Without(list, 0) == list[1..];
      assert Hashes(list)[1..] == Hashes(list[1..]);
      WholeListAnswers(list[1..]);
    }
  }

  /** Both answers a client can work from are found: the server's, and its own whole list. */
  lemma BothAnswersAreFound(stored: seq<set<Hash>>, list: seq<HashData>)
    requires |stored| == |list|
    ensures Answers(list, Needed(stored, Hashes(list)))
    ensures Answers(list, Hashes(list))
  {
    NeededOnce(stored, Hashes(list));
    SelectionAnswers(list, Needed(stored, Hashes(list)));
    WholeListAnswers(list);
  }

  // ---------- grouping blocks into requests ----------

  function Weight(blocks: seq<HashData>): nat {
    if blocks == [] then 0 else Weight(blocks[..|blocks| - 1]) + |blocks[|blocks| - 1].data|
  }

  /** A request that reached the limit with its last block and not before. */
  ghost predicate FullBatch(batch: seq<HashData>, limit: int) {
    && batch != []
    && Weight(batch) >= limit
    && (Weight(batch[..|batch| - 1]) < limit || |batch| == 1)
  }

  /** The last request: what is left when the answer is used up. */
  ghost predicate LastBatch(batch: seq<HashData>, limit: int) {
    batch != [] && (FullBatch(batch, limit) || Weight(batch) < limit)
  }

  ghost predicate Batching(batches: seq<seq<HashData>>, blocks: seq<HashData>, limit: int) {
    && Concat(batches) == blocks
    && (forall k :: 0 <= k < |batches| - 1 ==> FullBatch(batches[k], limit))
    && (batches != [] ==> LastBatch(batches[|batches| - 1], limit))
  }
}
