/**
 The client's local database: requests that could not be posted wait in `buffers`, the ids of those
 posted since are recorded in `transmited`, and `files` remembers the files already saved.
 Each operation is one transaction; a crash can fall between two transactions.
 */
module Offline {
  import opened Blocks

  /** The columns of `files` that are compared to decide whether a file is in the cache. */
  datatype FileKey = FileKey(inode: nat, name: seq<byte>, fileType: nat, uid: nat, gid: nat,
                             ctime: nat, mtime: nat, mode: nat, size: nat)

  /** `last` is SQLite's AUTOINCREMENT counter of the buffers table. */
  datatype Table<M> = Table(buffers: map<nat, M>, transmited: set<nat>, last: nat) {

    /** The rows a reconnection pass selects. */
    function Pending(): set<nat> {
      buffers.Keys - transmited
    }

    function Save(m: M): Table<M> {
      Table(buffers[last + 1 := m], transmited, last + 1)
    }

    function Mark(id: nat): Table<M> {
      Table(buffers, transmited + {id}, last)
    }

    function Delete(id: nat): Table<M> {
      Table(buffers - {id}, transmited, last)
    }

    /** No id above the counter was ever handed out. */
    ghost predicate IdsUsed() {
      && (forall id :: id in buffers ==> id <= last)
      && (forall id :: id in transmited ==> id <= last)
    }
  }

  // ---------- whole runs ----------

  /** A table together with its history: every row ever saved, every id the server acknowledged. */
  datatype Ledger<M> = Ledger(table: Table<M>, saved: map<nat, M>, acked: set<nat>)

  datatype Event<M> =
    | SaveRow(m: M)
    | Acknowledge(id: nat)      // post_url returned CURLE_OK for this row
    | MarkRow(id: nat)          // INSERT INTO transmited
    | DropRow(id: nat)        // DELETE FROM buffers
    | Crash                     // what is in the tables stays there

  predicate Possible<M>(l: Ledger<M>, e: Event<M>) {
    match e
    case SaveRow(_) => true
    case Acknowledge(id) => id in l.table.Pending()
    case MarkRow(id) => id in l.acked
    case DropRow(id) => id in l.table.transmited && id in l.table.buffers
    case Crash => true
  }

  function Happen<M>(l: Ledger<M>, e: Event<M>): Ledger<M> {
    match e
    case SaveRow(m) => Ledger(l.table.Save(m), l.saved[l.table.last + 1 := m], l.acked)
    case Acknowledge(id) => l.(acked := l.acked + {id})
    case MarkRow(id) => l.(table := l.table.Mark(id))
    case DropRow(id) => l.(table := l.table.Delete(id))
    case Crash => l
  }

  ghost predicate LedgerRun<M>(l: Ledger<M>, events: seq<Event<M>>, l': Ledger<M>)
    decreases |events|
  {
    if events == [] then l == l'
    else Possible(l, events[0]) && LedgerRun(Happen(l, events[0]), events[1..], l')
  }

  function NewLedger<M>(): Ledger<M> {
    Ledger(Table(map[], {}, 0), map[], {})
  }

  ghost predicate Consistent<M>(l: Ledger<M>) {
    && l.table.IdsUsed()
    && (forall id :: id in l.saved ==> id <= l.table.last)
    && l.acked <= l.saved.Keys
    && l.table.transmited <= l.acked
    && (forall id :: id in l.table.buffers ==> id in l.saved && l.table.buffers[id] == l.saved[id])
    && (forall id :: id in l.saved && id !in l.table.buffers ==> id in l.table.transmited)
  }

  lemma EventKeepsConsistent<M>(l: Ledger<M>, e: Event<M>)
    requires Consistent(l) && Possible(l, e)
    ensures Consistent(Happen(l, e))
  {
  }

  /**
   Store and forward, over any run from empty tables: the rows waiting are exactly the rows saved and
   not recorded as transmitted, with their own contents, and a row that is gone was acknowledged.
   */
  lemma {:induction false} StoreAndForward<M>(events: seq<Event<M>>, l': Ledger<M>)
    requires LedgerRun(NewLedger(), events, l')
    ensures l'.table.Pending() == l'.saved.Keys - l'.table.transmited
    ensures forall id :: id in l'.table.Pending() ==> l'.table.buffers[id] == l'.saved[id]
    ensures l'.saved.Keys - l'.table.buffers.Keys <= l'.acked
    ensures l'.saved.Keys - l'.acked <= l'.table.Pending()
  {
    RunKeepsConsistent(NewLedger(), events, l');
  }

  lemma {:induction false} RunKeepsConsistent<M>(l: Ledger<M>, events: seq<Event<M>>, l': Ledger<M>)
    requires Consistent(l) && LedgerRun(l, events, l')
    ensures Consistent(l')
    decreases |events|
  {
    if events != [] {
      EventKeepsConsistent(l, events[0]);
      RunKeepsConsistent(Happen(l, events[0]), events[1..], l');
    }
  }

  /** A row saved at any point of any run is selected by the next pass, whatever `transmited` holds. */
  lemma NewRowIsPending<M>(events: seq<Event<M>>, l: Ledger<M>, m: M)
    requires LedgerRun(NewLedger(), events, l)
    ensures var t := l.table.Save(m);
      && t.Pending() == l.table.Pending() + {t.last}
      && t.last !in l.table.Pending()
      && t.buffers[t.last] == m
  {
    RunKeepsConsistent(NewLedger(), events, l);
  }

  /** What a plain INTEGER PRIMARY KEY does instead: one above the greatest id still in the table. */
  function SaveReusing<M>(t: Table<M>, id: nat, m: M): Table<M>
    requires id !in t.buffers && forall k :: k in t.buffers ==> k < id
    requires id == 0 || id == 1 || id - 1 in t.buffers
  {
    t.(buffers := t.buffers[id := m])
  }

  /** With reused ids the old entry in `transmited` hides the new row from every pass. */
  lemma ReusedIdHidesRow<M>(m: M, n: M)
    ensures exists events: seq<Event<M>>, l: Ledger<M> ::
      && LedgerRun(NewLedger(), events, l)
      && l.table.buffers == map[]
      && SaveReusing(l.table, 1, n).Pending() == {}
      && l.table.Save(n).Pending() == {2}
  {
    var l0: Ledger<M> := NewLedger();
    var l1 := Happen(l0, SaveRow(m));
    var l2 := Happen(l1, Acknowledge(1));
    var l3 := Happen(l2, MarkRow(1));
    var l4 := Happen(l3, DropRow(1));
    var e4: seq<Event<M>> := [];
    var e3 := [DropRow(1)] + e4;
    var e2 := [MarkRow(1)] + e3;
    var e1 := [Acknowledge(1)] + e2;
    var e0 := [SaveRow(m)] + e1;
    assert LedgerRun(l3, e3, l4) by { assert e3[1..] == e4; }
    assert LedgerRun(l2, e2, l4) by { assert e2[1..] == e3; }
    assert LedgerRun(l1, e1, l4) by { assert e1[1..] == e2; }
    assert LedgerRun(l0, e0, l4) by { assert e0[1..] == e1; }
    assert l4.table.buffers == map[];
    assert l4.table.transmited == {1};
  }

  // ---------- the operations ----------

  class Database<M> {
    var buffers: map<nat, M>
    var transmited: set<nat>
    var last: nat
    var files: seq<FileKey>

    ghost function Model(): Table<M>
      reads this
    {
      Table(buffers, transmited, last)
    }

    /** The files in the cache. */
    ghost function Cached(): set<FileKey>
      reads this
    {
      set k | k in files
    }

    constructor ()
      ensures Model() == Table(map[], {}, 0) && Cached() == {}
    {
      buffers, transmited, last, files := map[], {}, 0, [];
    }

    /**
     db_save_buffer: the row gets a number that is in neither table, so it joins the rows that wait and
     the next row can be saved in the same way.
     */
    method SaveBuffer(m: M)
      modifies this`buffers, this`last
      ensures Model() == old(Model()).Save(m)
      ensures old(Model()).IdsUsed() ==>
        && last !in old(buffers) && last !in transmited
        && Model().IdsUsed() && Model().Pending() == old(Model()).Pending() + {last}
        && Stays(old(Model()), Model(), old(Model()).Pending())
    {
      last := last + 1;
      buffers := buffers[last := m];
    }

    /** db_is_there_buffers_to_transmit: counts the rows of buffers whose id is not in transmited. */
    method IsThereBuffersToTransmit() returns (yes: bool)
      ensures yes <==> Model().Pending() != {}
    {
      var rows := 0;
      var todo := buffers.Keys;
      while todo != {}
        invariant todo <= buffers.Keys && rows >= 0
        invariant rows == 0 <==> (buffers.Keys - todo) - transmited == {}
        decreases todo
      {
        var id :| id in todo;
        ghost var before := (buffers.Keys - todo) - transmited;
        todo := todo - {id};
        if id !in transmited {
          rows := rows + 1;
          assert id in (buffers.Keys - todo) - transmited;
        } else {
          assert (buffers.Keys - todo) - transmited == before;
        }
      }
      yes := rows > 0;
    }

    /** The end of transmit_callback: this row, and no other, stops waiting. */
    method MarkTransmited(id: nat)
      modifies this`transmited
      ensures Model() == old(Model()).Mark(id)
      ensures Model().Pending() == old(Model()).Pending() - {id}
    {
      transmited := transmited + {id};
    }

    /** delete_transmited_buffers: no row that waits is deleted. */
    method DeleteTransmitedBuffers()
      modifies this`buffers
      ensures buffers == old(buffers) - transmited
      ensures Model().Pending() == old(Model()).Pending()
    {
      var rows := transmited * buffers.Keys;
      ghost var gone := {};
      while rows != {}
        invariant rows + gone == transmited * old(buffers.Keys)
        invariant buffers == old(buffers) - gone
        decreases rows
      {
        var id :| id in rows;
        buffers := buffers - {id};
        rows := rows - {id};
        gone := gone + {id};
      }
      assert old(buffers) - gone == old(buffers) - transmited;
    }

    /** is_file_in_cache: counts the rows that agree with the file in all nine columns. */
    method IsFileInCache(k: FileKey) returns (yes: bool)
      ensures yes <==> k in Cached()
    {
      var rows := 0;
      var i := 0;
      while i < |files|
        invariant 0 <= i <= |files| && rows >= 0
        invariant rows > 0 <==> k in files[..i]
      {
        var f := files[i];
        if && f.inode == k.inode && f.name == k.name && f.fileType == k.fileType && f.uid == k.uid && f.gid == k.gid
           && f.ctime == k.ctime && f.mtime == k.mtime && f.mode == k.mode && f.size == k.size {
          rows := rows + 1;
        }
        assert files[..i + 1] == files[..i] + [f];
        i := i + 1;
      }
      assert files[..i] == files;
      yes := rows > 0;
    }

    /** db_save_meta_data */
    method SaveMetaData(k: FileKey)
      modifies this`files
      ensures Cached() == old(Cached()) + {k}
    {
      files := files + [k];
    }
  }

  /** These rows still wait, with the same contents. */
  ghost predicate Stays<M>(t: Table<M>, t': Table<M>, ids: set<nat>) {
    forall id :: id in ids && id in t.buffers ==> id in t'.Pending() && t'.buffers[id] == t.buffers[id]
  }
}
