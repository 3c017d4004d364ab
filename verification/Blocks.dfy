/**
 Blocks of file data and their names.

 A file is cut into blocks, a block is named by its SHA256 hash and may travel and be stored
 compressed. SHA256 and zlib are not modelled: they are the three functions of a Library value,
 and every fact about them that a proof uses is an explicit hypothesis on that value.
 */
module Blocks {

  const HASH_LEN := 32

  datatype Option<T> = None | Some(value: T)

  type byte = b: int | 0 <= b < 256

  type Hash = h: seq<byte> | |h| == HASH_LEN witness seq(HASH_LEN, _ => 0)

  datatype Compression = NoCompression | Zlib

  /** hash_data_t; its `read` field is always |data|. */
  datatype HashData = HashData(hash: Hash, data: seq<byte>, cmptype: Compression, uncmplen: nat)

  datatype Library = Library(
    sha256: seq<byte> -> Hash,
    deflate: seq<byte> -> seq<byte>,
    inflate: (seq<byte>, nat) -> seq<byte>)

  /** What zlib promises: uncompressing gives the text back, and a compressed text is not empty. */
  ghost predicate ZlibSound(lib: Library) {
    forall raw: seq<byte> {:trigger lib.deflate(raw)} ::
      lib.inflate(lib.deflate(raw), |raw|) == raw && lib.deflate(raw) != []
  }

  /** No two different blocks of `raws` have the same hash. */
  ghost predicate CollisionFree(lib: Library, raws: set<seq<byte>>) {
    forall a, b :: a in raws && b in raws && lib.sha256(a) == lib.sha256(b) ==> a == b
  }

  /** The block is what was read, under its hash and length, compressed if and only if that is asked for. */
  ghost predicate Packs(lib: Library, raw: seq<byte>, cmptype: Compression, b: HashData) {
    && b.hash == lib.sha256(raw) && b.cmptype == cmptype && b.uncmplen == |raw|
    && (cmptype == NoCompression ==> b.data == raw)
    && (cmptype == Zlib ==> b.data == lib.deflate(raw))
  }

  /** new_hash_data_t, on a block read from a file and its hash. */
  function NewHashData(lib: Library, raw: seq<byte>, cmptype: Compression): (b: HashData)
    ensures Packs(lib, raw, cmptype, b)
  {
    HashData(lib.sha256(raw), if cmptype == Zlib then lib.deflate(raw) else raw, cmptype, |raw|)
  }

  /** What the server hands out for a block: its data, uncompressed if need be. */
  function Uncompress(lib: Library, b: HashData): seq<byte> {
    if b.cmptype == NoCompression then b.data else lib.inflate(b.data, b.uncmplen)
  }

  /** b carries one of the blocks of `raws` under that block's own name. */
  ghost predicate Genuine(lib: Library, raws: set<seq<byte>>, b: HashData) {
    Uncompress(lib, b) in raws && b.hash == lib.sha256(Uncompress(lib, b))
  }

  ghost predicate AllGenuine(lib: Library, raws: set<seq<byte>>, list: seq<HashData>) {
    forall b :: b in list ==> Genuine(lib, raws, b)
  }

  lemma NewHashDataIsGenuine(lib: Library, raws: set<seq<byte>>, raw: seq<byte>, cmptype: Compression)
    requires ZlibSound(lib) && raw in raws
    ensures Genuine(lib, raws, NewHashData(lib, raw, cmptype))
    ensures Uncompress(lib, NewHashData(lib, raw, cmptype)) == raw
    ensures raw != [] ==> NewHashData(lib, raw, cmptype).data != []
  {
    assert lib.inflate(lib.deflate(raw), |raw|) == raw;
  }

  function Hashes(list: seq<HashData>): (r: seq<Hash>)
    ensures |r| == |list|
    ensures forall i :: 0 <= i < |list| ==> r[i] == list[i].hash
  {
    seq(|list|, i requires 0 <= i < |list| => list[i].hash)
  }

  /** The names of the blocks of a file, in file order. */
  function HashesOf(lib: Library, raws: seq<seq<byte>>): (r: seq<Hash>)
    ensures |r| == |raws|
    ensures forall i :: 0 <= i < |raws| ==> r[i] == lib.sha256(raws[i])
  {
    seq(|raws|, i requires 0 <= i < |raws| => lib.sha256(raws[i]))
  }

  function Concat<T>(parts: seq<seq<T>>): seq<T> {
    if parts == [] then [] else parts[0] + Concat(parts[1..])
  }

  lemma {:induction false} ConcatAppend<T>(a: seq<seq<T>>, b: seq<seq<T>>)
    ensures Concat(a + b) == Concat(a) + Concat(b)
  {
    if a == [] {
      assert a + b == b;
    } else {
      assert (a + b)[1..] == a[1..] + b;
      ConcatAppend(a[1..], b);
    }
  }

  lemma ConcatOneMore<T>(parts: seq<seq<T>>, part: seq<T>)
    ensures Concat(parts + [part]) == Concat(parts) + part
  {
    ConcatAppend(parts, [part]);
    assert Concat([part]) == part + Concat([]);
  }

  lemma Associative<T>(a: seq<T>, b: seq<T>, c: seq<T>)
    ensures a + (b + c) == (a + b) + c
  {
  }

  lemma OneMore<T>(s: seq<T>, k: nat)
    requires k < |s|
    ensures s[..k] + [s[k]] == s[..k + 1]
  {
  }

  lemma WholePrefix<T>(s: seq<T>)
    ensures s[..|s|] == s
  {
  }

  function Reverse<T>(s: seq<T>): (r: seq<T>)
    ensures |r| == |s|
    ensures forall i :: 0 <= i < |s| ==> r[i] == s[|s| - 1 - i]
  {
    seq(|s|, i requires 0 <= i < |s| => s[|s| - 1 - i])
  }

  /** What g_strndup takes of a buffer: nothing from the first `stop` on. */
  function UpTo<T(==)>(s: seq<T>, stop: T): (r: seq<T>)
    ensures stop !in r
  {
    if s == [] || s[0] == stop then [] else [s[0]] + UpTo(s[1..], stop)
  }

  lemma {:induction false} NothingToCut<T>(s: seq<T>, stop: T)
    requires forall k :: 0 <= k < |s| ==> s[k] != stop
    ensures UpTo(s, stop) == s
  {
    if s != [] {
      NothingToCut(s[1..], stop);
    }
  }

  /** What the restore program gets for a list of hashes: blocks that are not stored are skipped. */
  function Restored(lib: Library, blocks: map<Hash, HashData>, hashes: seq<Hash>): seq<byte> {
    if hashes == [] then []
    else
      (if hashes[0] in blocks then Uncompress(lib, blocks[hashes[0]]) else [])
      + Restored(lib, blocks, hashes[1..])
  }

  lemma {:induction false} RestoredAppend(lib: Library, blocks: map<Hash, HashData>, a: seq<Hash>, b: seq<Hash>)
    ensures Restored(lib, blocks, a + b) == Restored(lib, blocks, a) + Restored(lib, blocks, b)
  {
    if a == [] {
      assert a + b == b;
    } else {
      assert (a + b)[1..] == a[1..] + b;
      RestoredAppend(lib, blocks, a[1..], b);
    }
  }

  /** Every stored block is a genuine block, filed under its own name. */
  ghost predicate GenuineStore(lib: Library, raws: set<seq<byte>>, blocks: map<Hash, HashData>) {
    forall h :: h in blocks ==> blocks[h].hash == h && Genuine(lib, raws, blocks[h])
  }

  /** Restoring the hash list of a file gives the bytes of the file. */
  lemma {:induction false} RestoreGivesFileBack(
      lib: Library, raws: set<seq<byte>>, blocks: map<Hash, HashData>, chunks: seq<seq<byte>>)
    requires CollisionFree(lib, raws) && GenuineStore(lib, raws, blocks)
    requires forall r :: r in chunks ==> r in raws && lib.sha256(r) in blocks
    ensures Restored(lib, blocks, HashesOf(lib, chunks)) == Concat(chunks)
  {
    if chunks != [] {
      assert HashesOf(lib, chunks)[1..] == HashesOf(lib, chunks[1..]);
      RestoreGivesFileBack(lib, raws, blocks, chunks[1..]);
      var b := blocks[lib.sha256(chunks[0])];
      assert chunks[0] in chunks;
      assert lib.sha256(Uncompress(lib, b)) == lib.sha256(chunks[0]);
    }
  }
}
