/**
 A growing buffer: a ring of fixed-size blocks to which text is appended at the back and from which it
 is read at the front.
 */
module GrowBuffers {
  import opened Blocks
  import opened BlockLists

  /** sizeof(buf->data) */
  const CAPACITY := 64 * 1024

  /** growbuffer; the array embedded in the structure is a value of that length. */
  class Block {
    var size: int
    var start: int
    var data: string
    var prev: Block
    var next: Block

    constructor ()
      ensures size == start == 0 && |data| == CAPACITY == 65536 && prev == next == this
    {
      size, start, data := 0, 0, seq(CAPACITY, _ => '\0');
      prev, next := this, this;
    }
  }

  /** What a growbuffer ** points to; `ring` are the blocks from the first, `texts` what each holds. */
  class GrowBuffer {
    var gb: Block?
    ghost var ring: seq<Block>
    ghost var texts: seq<string>
    ghost var repr: set<object>

    constructor ()
      ensures Valid() && Ready() && Text() == "" && fresh(repr)
    {
      gb, ring, texts := null, [], [];
      repr := {this};
    }

    ghost function Text(): string
      reads this
    {
      Concat(texts)
    }

    /** The ring is linked in both directions; only its first block was read from, all but the last are full. */
    ghost predicate BlockOk(i: nat)
      requires i < |ring| == |texts|
      reads this, ring
    {
      var b := ring[i];
      && b.next == ring[if i == |ring| - 1 then 0 else i + 1]
      && b.prev == ring[if i == 0 then |ring| - 1 else i - 1]
      && |b.data| == CAPACITY
      && 0 <= b.start <= b.start + b.size <= CAPACITY
      && texts[i] == b.data[b.start..b.start + b.size]
      && (i < |ring| - 1 ==> b.start + b.size == CAPACITY)
      && (i > 0 ==> b.start == 0)
    }

    ghost predicate Linked()
      reads this, ring
    {
      && this in repr && (forall i :: 0 <= i < |ring| ==> ring[i] in repr)
      && |texts| == |ring|
      && NoDuplicates(ring)
      && gb == (if ring == [] then null else ring[0])
      && forall i {:trigger BlockOk(i)} :: 0 <= i < |ring| ==> BlockOk(i)
    }

    ghost predicate Valid()
      reads this, ring
    {
      Linked() && forall i :: 0 <= i < |texts| ==> texts[i] != ""
    }

    /** Nothing was read from the last block, which is where the next append writes. */
    ghost predicate Ready()
      reads this, ring
    {
      ring == [] || ring[|ring| - 1].start == 0
    }

    /** The new block of growbuffer_append, linked in after the last one. */
    method AddBlock() returns (buf: Block)
      requires Linked() && (ring == [] || ring[|ring| - 1].start + ring[|ring| - 1].size == CAPACITY)
      modifies repr
      ensures Linked() && fresh(repr - old(repr)) && buf.start == buf.size == 0
      ensures ring == old(ring) + [buf] && texts == old(texts) + [""]
    {
      buf := new Block();
      if gb != null {
        ghost var n := |ring|;
        assert BlockOk(0) && BlockOk(n - 1);
        buf.prev := gb.prev;
        buf.next := gb;
        gb.prev.next := buf;
        gb.prev := buf;
      } else {
        gb := buf;
      }
      ring, texts, repr := ring + [buf], texts + [""], repr + {buf};
      forall i | 0 <= i < |ring| ensures BlockOk(i) {
        if i < |old(ring)| {
          assert old(BlockOk(i)) && ring[i] == old(ring)[i] && ring[i] != buf;
        }
      }
    }

    /** The copy of growbuffer_append: as much as fits in the last block. */
    method Fill(buf: Block, data: string) returns (toCopy: nat)
      requires Linked() && Ready() && ring != [] && buf == ring[|ring| - 1] && buf.size < CAPACITY
      requires forall i :: 0 <= i < |texts| - 1 ==> texts[i] != ""
      requires data != ""
      modifies this`texts, buf
      ensures Valid() && Ready()
      ensures 0 < toCopy <= |data| && Text() == old(Text()) + data[..toCopy]
    {
      ghost var n := |ring| - 1;
      assert BlockOk(n);
      toCopy := CAPACITY - buf.size;
      if toCopy > |data| {
        toCopy := |data|;
      }
      ghost var more := texts[n] + data[..toCopy];
      buf.data := buf.data[..buf.size] + data[..toCopy] + buf.data[buf.size + toCopy..];
      buf.size := buf.size + toCopy;
      texts := texts[..n] + [more];
      forall i | 0 <= i < |ring| ensures BlockOk(i) {
        assert old(BlockOk(i));
      }
      ConcatOneMore(texts[..n], more);
      ConcatOneMore(texts[..n], old(texts)[n]);
      assert old(texts) == texts[..n] + [old(texts)[n]];
    }

    /** The start of a turn of growbuffer_append: the last block, or a new one when that is full. */
    method BlockToFill() returns (buf: Block)
      requires Valid() && Ready()
      modifies repr
      ensures Linked() && Ready() && fresh(repr - old(repr)) && Text() == old(Text())
      ensures ring != [] && buf == ring[|ring| - 1] && buf in repr && buf.size < CAPACITY
      ensures forall i :: 0 <= i < |texts| - 1 ==> texts[i] != ""
    {
      if gb != null {
        assert BlockOk(0) && BlockOk(|ring| - 1);
        if gb.prev.size < CAPACITY {
          return gb.prev;
        }
      }
      ConcatOneMore(texts, "");
      buf := AddBlock();
    }

    /** One turn of growbuffer_append. */
    method AppendSome(data: string) returns (toCopy: nat)
      requires Valid() && Ready() && data != ""
      modifies repr
      ensures Valid() && Ready() && fresh(repr - old(repr))
      ensures 0 < toCopy <= |data| && Text() == old(Text()) + data[..toCopy]
    {
      var buf := BlockToFill();
      toCopy := Fill(buf, data);
    }

    /** growbuffer_append, when memory does not run out: all the text goes to the back. */
    method Append(data: string) returns (length: nat)
      requires Valid() && Ready()
      modifies repr
      ensures Valid() && Ready() && fresh(repr - old(repr)) && length == |data|
      ensures Text() == old(Text()) + data
    {
      var done := 0;
      while done < |data|
        invariant 0 <= done <= |data|
        invariant Valid() && Ready() && Text() == old(Text()) + data[..done]
        invariant fresh(repr - old(repr))
      {
        var toCopy := AppendSome(data[done..]);
        NextSlice(data, done, toCopy, old(Text()));
        done := done + toCopy;
      }
      length := |data|;
    }

    /** growbuffer_read: as many characters as asked for, or as the first block holds if that is less. */
    method Read(amt: nat) returns (text: string)
      requires Valid()
      modifies repr
      ensures Valid() && repr == old(repr)
      ensures old(Text()) == text + Text()
      ensures |text| == if old(gb) == null then 0 else if amt < old(|texts[0]|) then amt else old(|texts[0]|)
      ensures old(gb) != null && amt > 0 ==> text != ""
    {
      if gb == null {
        return "";
      }
      var buf := gb;
      assert BlockOk(0);
      var amtReturn := if buf.size > amt then amt else buf.size;
      text := TakeFirst(buf, amtReturn);
      FirstAndRest(old(texts), text, texts[0]);
      if buf.size == 0 {
        DropFirst(buf);
      }
    }

    /** The copy of growbuffer_read. */
    method TakeFirst(buf: Block, amtReturn: nat) returns (text: string)
      requires Linked() && gb == buf && amtReturn <= buf.size
      modifies this`texts, buf
      ensures Linked() && |text| == amtReturn && buf.size == old(buf.size) - amtReturn == |texts[0]|
      ensures texts[1..] == old(texts)[1..] && text + texts[0] == old(texts)[0]
    {
      assert BlockOk(0);
      text := buf.data[buf.start..buf.start + amtReturn];
      texts := [texts[0][amtReturn..]] + texts[1..];
      buf.start := buf.start + amtReturn;
      buf.size := buf.size - amtReturn;
      forall i | 0 <= i < |ring| ensures BlockOk(i) {
        assert old(BlockOk(i));
      }
    }

    /** The end of growbuffer_read, when the first block is used up. */
    method DropFirst(buf: Block)
      requires Linked() && gb == buf && texts[0] == "" && forall i :: 1 <= i < |texts| ==> texts[i] != ""
      modifies repr
      ensures Valid() && repr == old(repr) && texts == old(texts)[1..]
    {
      assert BlockOk(0);
      if buf.next == buf {
        gb := null;
      } else {
        assert BlockOk(|ring| - 1) && BlockOk(1);
        gb := buf.next;
        buf.prev.next := buf.next;
        buf.next.prev := buf.prev;
      }
      ring, texts := ring[1..], texts[1..];
      forall i | 0 <= i < |ring| ensures BlockOk(i) {
        assert old(BlockOk(i + 1));
      }
    }
  }

  lemma NextSlice(data: string, done: nat, n: nat, before: string)
    requires done + n <= |data|
    ensures (before + data[..done]) + data[done..][..n] == before + data[..done + n]
  {
  }

  lemma FirstAndRest(texts: seq<string>, text: string, rest: string)
    requires texts != [] && text + rest == texts[0]
    ensures Concat(texts) == text + (rest + Concat(texts[1..]))
  {
    assert texts[0] + Concat(texts[1..]) == text + (rest + Concat(texts[1..]));
  }
}
