/**
 The "latest versions only" filter: it walks a doubly linked list sorted by name and date and takes out,
 in place, every version that is not the latest of its file.
 */
module LatestFilter {
  import opened Blocks
  import opened BlockLists
  import opened Hashs
  import opened Records

  /** g_utf8_collate_key_for_filename: any function from names to keys that strcmp then compares. */
  type Collation = CString -> seq<byte>

  function Key(collate: Collation, m: Meta): seq<byte> {
    collate(m.name)
  }

  // ---------- the order of the list ----------

  /** compare_meta_data_t */
  function CompareMetaData(collate: Collation, a: Option<Meta>, b: Option<Meta>): int {
    match (a, b)
    case (Some(x), Some(y)) =>
      var value := Lex(Key(collate, x), Key(collate, y));
      if value != 0 then value else if x.mtime < y.mtime then -1 else if x.mtime > y.mtime then 1 else 0
    case (None, None) => 0
    case (None, Some(_)) => 1
    case (Some(_), None) => -1
  }

  /** A total preorder: two versions are equal in it when they have the same key and the same date. */
  lemma ComparisonIsPreorder(collate: Collation, a: Option<Meta>, b: Option<Meta>, c: Option<Meta>)
    ensures CompareMetaData(collate, b, a) == -CompareMetaData(collate, a, b)
    ensures CompareMetaData(collate, a, b) <= 0 && CompareMetaData(collate, b, c) <= 0
            ==> CompareMetaData(collate, a, c) <= 0
    ensures CompareMetaData(collate, a, b) == 0 <==>
            (a.None? && b.None?)
            || (a.Some? && b.Some? && Key(collate, a.value) == Key(collate, b.value) && a.value.mtime == b.value.mtime)
  {
    if a.Some? && b.Some? {
      var x, y := Key(collate, a.value), Key(collate, b.value);
      LexIsOrder(x, y);
      if c.Some? {
        var z := Key(collate, c.value);
        LexIsOrder(y, z);
        LexIsOrder(x, z);
        if Lex(x, y) <= 0 && Lex(y, z) <= 0 {
          LexTransitive(x, y, z);
          LexBack(x, y, z);
        }
      }
    }
  }

  /** What comes first: the smaller key at the first difference, the shorter key, the older version, and not NULL. */
  lemma ComparisonDecides(collate: Collation, a: Meta, b: Meta, k: nat)
    ensures var x, y := Key(collate, a), Key(collate, b);
      && (k <= |x| && k <= |y| && x[..k] == y[..k] && (if k < |x| && k < |y| then x[k] < y[k] else |x| < |y|)
          ==> CompareMetaData(collate, Some(a), Some(b)) < 0)
      && (x == y && a.mtime < b.mtime ==> CompareMetaData(collate, Some(a), Some(b)) < 0)
    ensures CompareMetaData(collate, Some(a), None) < 0
  {
    var x, y := Key(collate, a), Key(collate, b);
    LexIsOrder(x, y);
    if k <= |x| && k <= |y| && x[..k] == y[..k] {
      LexDecides(x, y, k);
    }
  }

  /** Between two equal keys there is nothing else. */
  lemma LexBack(x: seq<byte>, y: seq<byte>, z: seq<byte>)
    requires Lex(x, y) <= 0 && Lex(y, z) <= 0
    ensures Lex(x, z) == 0 ==> x == y == z
  {
    LexIsOrder(x, y);
    LexIsOrder(x, z);
    LexIsOrder(y, z);
  }

  ghost predicate Sorted(collate: Collation, s: seq<Meta>) {
    forall i, j :: 0 <= i < j < |s| ==> CompareMetaData(collate, Some(s[i]), Some(s[j])) <= 0
  }

  // ---------- what the filter keeps ----------

  /** What is left of any list, sorted or not. */
  function Latests(collate: Collation, s: seq<Meta>): seq<Meta>
    decreases |s|
  {
    if |s| < 2 then s
    else if Key(collate, s[0]) != Key(collate, s[1]) then [s[0]] + Latests(collate, s[1..])
    else if s[0].mtime < s[1].mtime then Latests(collate, s[1..])
    else Latests(collate, [s[0]] + s[2..])
  }

  /** k is a version of the same file as m, and not an older one. */
  ghost predicate Supersedes(collate: Collation, k: Meta, m: Meta) {
    Key(collate, k) == Key(collate, m) && m.mtime <= k.mtime
  }

  ghost predicate Superseded(collate: Collation, kept: seq<Meta>, m: Meta) {
    exists j :: 0 <= j < |kept| && Supersedes(collate, kept[j], m)
  }

  ghost predicate AllSuperseded(collate: Collation, kept: seq<Meta>, s: seq<Meta>) {
    forall i {:trigger Superseded(collate, kept, s[i])} :: 0 <= i < |s| ==> Superseded(collate, kept, s[i])
  }

  ghost predicate Among(kept: seq<Meta>, s: seq<Meta>) {
    forall k {:trigger kept[k] in s} :: 0 <= k < |kept| ==> kept[k] in s
  }

  /** One version of each file, the files still in order. */
  ghost predicate OnePerKey(collate: Collation, kept: seq<Meta>) {
    forall i, j :: 0 <= i < j < |kept| ==> Lex(Key(collate, kept[i]), Key(collate, kept[j])) < 0
  }

  /**
   Of a sorted list the filter keeps exactly one version of each file, still in order, and it is a
   version at least as recent as every other one of the file.
   */
  lemma {:induction false} LatestsOfSorted(collate: Collation, s: seq<Meta>)
    requires Sorted(collate, s)
    ensures var kept := Latests(collate, s);
      && OnePerKey(collate, kept)
      && AllSuperseded(collate, kept, s)
      && Among(kept, s)
    decreases |s|
  {
    var kept := Latests(collate, s);
    if |s| < 2 {
      assert forall i :: 0 <= i < |s| ==> Supersedes(collate, kept[i], s[i]);
    } else if Key(collate, s[0]) != Key(collate, s[1]) {
      LatestsOfSorted(collate, s[1..]);
      KeptAsIs(collate, s, Latests(collate, s[1..]));
    } else {
      var gone := if s[0].mtime < s[1].mtime then 0 else 1;
      var less := Without(s, gone);
      WithoutOneOfTwo(collate, s, gone);
      LatestsOfSorted(collate, less);
      OneGone(collate, s, gone, kept);
    }
  }

  lemma WithoutOneOfTwo(collate: Collation, s: seq<Meta>, gone: nat)
    requires Sorted(collate, s) && |s| >= 2 && gone < 2
    ensures Without(s, gone) == if gone == 0 then s[1..] else [s[0]] + s[2..]
    ensures Sorted(collate, Without(s, gone))
  {
  }

  /** The first version stays, for the file of the second is another one. */
  lemma KeptAsIs(collate: Collation, s: seq<Meta>, rest: seq<Meta>)
    requires Sorted(collate, s) && |s| >= 2 && Key(collate, s[0]) != Key(collate, s[1])
    requires OnePerKey(collate, rest)
    requires AllSuperseded(collate, rest, s[1..]) && Among(rest, s[1..])
    ensures var kept := [s[0]] + rest;
      && OnePerKey(collate, kept)
      && AllSuperseded(collate, kept, s)
      && Among(kept, s)
  {
    var kept := [s[0]] + rest;
    FirstIsBefore(collate, s, rest);
    MoreSuperseded(collate, s, rest);
    assert forall i, j :: 0 <= i < j < |kept| ==> Lex(Key(collate, kept[i]), Key(collate, kept[j])) < 0;
    forall k | 1 <= k < |kept| ensures kept[k] in s {
      assert rest[k - 1] in s[1..];
    }
  }

  lemma MoreSuperseded(collate: Collation, s: seq<Meta>, rest: seq<Meta>)
    requires s != [] && AllSuperseded(collate, rest, s[1..])
    ensures AllSuperseded(collate, [s[0]] + rest, s)
  {
    var kept := [s[0]] + rest;
    assert Supersedes(collate, kept[0], s[0]);
    forall i | 1 <= i < |s| ensures Superseded(collate, kept, s[i]) {
      assert s[i] == s[1..][i - 1] && Superseded(collate, rest, s[1..][i - 1]);
      var j :| 0 <= j < |rest| && Supersedes(collate, rest[j], s[i]);
      assert kept[j + 1] == rest[j];
    }
  }

  lemma FirstIsBefore(collate: Collation, s: seq<Meta>, rest: seq<Meta>)
    requires Sorted(collate, s) && |s| >= 2 && Key(collate, s[0]) != Key(collate, s[1])
    requires Among(rest, s[1..])
    ensures forall j :: 0 <= j < |rest| ==> Lex(Key(collate, s[0]), Key(collate, rest[j])) < 0
  {
    forall j | 0 <= j < |rest| ensures Lex(Key(collate, s[0]), Key(collate, rest[j])) < 0 {
      assert rest[j] in s[1..];
      var i :| 0 <= i < |s[1..]| && s[1..][i] == rest[j];
      KeyJumps(collate, s, i + 1);
    }
  }

  /** One of the first two versions goes: whatever supersedes the other one supersedes it too. */
  lemma OneGone(collate: Collation, s: seq<Meta>, gone: nat, kept: seq<Meta>)
    requires |s| >= 2 && Key(collate, s[0]) == Key(collate, s[1])
    requires gone == if s[0].mtime < s[1].mtime then 0 else 1
    requires AllSuperseded(collate, kept, Without(s, gone)) && Among(kept, Without(s, gone))
    ensures AllSuperseded(collate, kept, s) && Among(kept, s)
  {
    var less := Without(s, gone);
    forall i | 0 <= i < |s| ensures Superseded(collate, kept, s[i]) {
      var i' := if i == gone then 1 - gone else i;
      var k := if i' < gone then i' else i' - 1;
      assert s[i'] == less[k] && Superseded(collate, kept, less[k]);
      var j :| 0 <= j < |kept| && Supersedes(collate, kept[j], s[i']);
      assert Supersedes(collate, kept[j], s[i]);
    }
    forall k | 0 <= k < |kept| ensures kept[k] in s {
      assert kept[k] in less;
    }
  }

  /** In a sorted list, a key that differs from the next one is smaller than all that follow. */
  lemma KeyJumps(collate: Collation, s: seq<Meta>, i: nat)
    requires Sorted(collate, s) && 1 <= i < |s| && Key(collate, s[0]) != Key(collate, s[1])
    ensures Lex(Key(collate, s[0]), Key(collate, s[i])) < 0
  {
    var x, y, z := Key(collate, s[0]), Key(collate, s[1]), Key(collate, s[i]);
    assert CompareMetaData(collate, Some(s[0]), Some(s[1])) <= 0;
    assert i > 1 ==> CompareMetaData(collate, Some(s[1]), Some(s[i])) <= 0;
    LexIsOrder(x, y);
    LexIsOrder(y, z);
    LexIsOrder(x, z);
    LexTransitive(x, y, z);
    LexBack(x, y, z);
  }

  // ---------- the list in memory ----------

  /** GList */
  class Node {
    var prev: Node?
    var next: Node?
    const data: Meta

    constructor (data: Meta)
      ensures this.data == data && prev == null && next == null
    {
      this.data := data;
      prev, next := null, null;
    }
  }

  function At(nodes: seq<Node>, i: int): Node? {
    if 0 <= i < |nodes| then nodes[i] else null
  }

  ghost predicate LinksAt(nodes: seq<Node>, i: nat)
    requires i < |nodes|
    reads nodes
  {
    nodes[i].prev == At(nodes, i - 1) && nodes[i].next == At(nodes, i + 1)
  }

  /** The nodes form one list, linked in both directions. */
  ghost predicate Linked(nodes: seq<Node>)
    reads nodes
  {
    NoDuplicates(nodes) && forall i {:trigger LinksAt(nodes, i)} :: 0 <= i < |nodes| ==> LinksAt(nodes, i)
  }

  function Contents(nodes: seq<Node>): (s: seq<Meta>)
    ensures |s| == |nodes| && forall i :: 0 <= i < |nodes| ==> s[i] == nodes[i].data
  {
    seq(|nodes|, i requires 0 <= i < |nodes| => nodes[i].data)
  }

  ghost predicate Within(nodes: seq<Node>, repr: set<Node>) {
    forall i :: 0 <= i < |nodes| ==> nodes[i] in repr
  }

  /** g_list_remove_link: unlinks the i-th node; answers `list`, or what follows when `list` itself goes. */
  method RemoveLink(list: Node, link: Node, ghost nodes: seq<Node>, ghost i: nat, ghost repr: set<Node>)
      returns (r: Node?)
    requires Linked(nodes) && i < |nodes| && nodes[i] == link && Within(nodes, repr)
    modifies repr
    ensures Linked(Without(nodes, i))
    ensures r == if link == list then At(nodes, i + 1) else list
    ensures link.prev == null && link.next == null
  {
    r := list;
    assert LinksAt(nodes, i);
    if link.prev != null {
      assert LinksAt(nodes, i - 1);
      if link.prev.next == link {
        link.prev.next := link.next;
      }
    }
    if link.next != null {
      assert old(LinksAt(nodes, i + 1));
      if link.next.prev == link {
        link.next.prev := link.prev;
      }
    }
    if link == list {
      r := list.next;
    }
    link.next := null;
    link.prev := null;
    ghost var less := Without(nodes, i);
    forall k | 0 <= k < |less| ensures LinksAt(less, k) {
      assert old(LinksAt(nodes, if k < i then k else k + 1));
    }
  }

  /** The older of two neighbours, the second when they are of the same date, leaves the list. */
  method RemoveOlder(head: Node, fileList: Node, next: Node, ghost nodes: seq<Node>, ghost k: nat,
                     ghost repr: set<Node>)
      returns (head': Node?, cursor: Node, ghost less: seq<Node>)
    requires Linked(nodes) && k + 1 < |nodes| && Within(nodes, repr)
    requires head == nodes[0] && fileList == nodes[k] && next == nodes[k + 1]
    modifies repr
    ensures var i := if fileList.data.mtime < next.data.mtime then k else k + 1;
      less == Without(nodes, i) && Contents(less) == Without(Contents(nodes), i)
    ensures Linked(less) && head' == At(less, 0) && cursor == At(less, k)
  {
    head' := head;
    if fileList.data.mtime < next.data.mtime {
      if fileList == head {
        head' := RemoveLink(fileList, fileList, nodes, k, repr);
      } else {
        var unused := RemoveLink(fileList, fileList, nodes, k, repr);
      }
      cursor, less := next, Without(nodes, k);
    } else {
      var unused := RemoveLink(fileList, next, nodes, k + 1, repr);
      cursor, less := fileList, Without(nodes, k + 1);
    }
  }

  /** The next field of the k-th node, and what g_list_next answers. */
  method NextOf(node: Node, ghost nodes: seq<Node>, ghost k: nat) returns (next: Node?)
    requires Linked(nodes) && k < |nodes| && node == nodes[k]
    ensures next == At(nodes, k + 1)
  {
    assert LinksAt(nodes, k);
    next := node.next;
  }

  /** keep_latests_meta_data_t_in_list */
  method KeepLatests(collate: Collation, list: Node?, ghost nodes: seq<Node>, ghost repr: set<Node>)
      returns (head: Node?, ghost kept: seq<Node>)
    requires Linked(nodes) && list == At(nodes, 0) && Within(nodes, repr)
    modifies repr
    ensures Linked(kept) && head == At(kept, 0)
    ensures Contents(kept) == Latests(collate, Contents(nodes))
    ensures Within(kept, repr)
  {
    var fileList := list;
    ghost var k := 0;
    head, kept := list, nodes;
    while fileList != null
      invariant Linked(kept) && head == At(kept, 0)
      invariant Within(kept, repr)
      invariant 0 <= k <= |kept| && fileList == At(kept, k)
      invariant Midway(collate, Contents(kept), k, Contents(nodes))
      decreases |kept| - k
    {
      Visit(collate, Contents(kept), k, Contents(nodes));
      var next := NextOf(fileList, kept, k);
      if next != null && Key(collate, fileList.data) == Key(collate, next.data) {
        head, fileList, kept := RemoveOlder(head, fileList, next, kept, k, repr);
      } else {
        fileList := next;
        k := k + 1;
      }
    }
    Done(collate, Contents(kept), k, Contents(nodes));
  }

  /** The first k elements are done with. */
  ghost predicate Midway(collate: Collation, s: seq<Meta>, k: nat, whole: seq<Meta>) {
    k <= |s| && s[..k] + Latests(collate, s[k..]) == Latests(collate, whole)
  }

  lemma Done(collate: Collation, s: seq<Meta>, k: nat, whole: seq<Meta>)
    requires Midway(collate, s, k, whole) && k == |s|
    ensures s == Latests(collate, whole)
  {
    assert s[..k] == s;
  }

  /** What one turn of the loop does to the contents. */
  lemma Visit(collate: Collation, s: seq<Meta>, k: nat, whole: seq<Meta>)
    requires k < |s| && Midway(collate, s, k, whole)
    ensures k + 1 == |s| || Key(collate, s[k]) != Key(collate, s[k + 1]) ==> Midway(collate, s, k + 1, whole)
    ensures k + 1 < |s| && Key(collate, s[k]) == Key(collate, s[k + 1]) ==>
      Midway(collate, Without(s, if s[k].mtime < s[k + 1].mtime then k else k + 1), k, whole)
  {
    Slices(s, k);
    if k + 1 == |s| || Key(collate, s[k]) != Key(collate, s[k + 1]) {
      assert Latests(collate, s[k..]) == [s[k]] + Latests(collate, s[k + 1..]);
      Associative(s[..k], [s[k]], Latests(collate, s[k + 1..]));
    } else if s[k].mtime < s[k + 1].mtime {
      assert Latests(collate, s[k..]) == Latests(collate, s[k + 1..]);
    } else {
      assert Latests(collate, s[k..]) == Latests(collate, [s[k]] + s[k + 2..]);
    }
  }

  /** The slices at the cursor, and those of the list without one of the two nodes there. */
  lemma Slices<T>(s: seq<T>, k: nat)
    requires k < |s|
    ensures s[k..][0] == s[k] && s[k..][1..] == s[k + 1..] && s[..k + 1] == s[..k] + [s[k]]
    ensures Without(s, k)[..k] == s[..k] && Without(s, k)[k..] == s[k + 1..]
    ensures k + 1 < |s| ==>
      && s[k..][1] == s[k + 1] && s[k..][2..] == s[k + 2..]
      && Without(s, k + 1)[..k] == s[..k] && Without(s, k + 1)[k..] == [s[k]] + s[k + 2..]
  {
  }
}
