/**
 The block store on a file system: a tree of directories named by the first octets of a hash, in which
 each block is a file named by the rest of it, beside a ".meta" file.
 */
module FileBackend {
  import opened Blocks
  import opened Numbers
  import opened Hashs

  const FILE_BACKEND_LEVEL := 2

  // ---------- names ----------

  /** g_build_filename, on parts without slashes at the joint. */
  function Under(path: string, name: string): string {
    path + "/" + name
  }

  function DirOf(base: string, hash: Hash, level: nat): (path: string)
    requires level <= HASH_LEN
    ensures |path| == |base| + 3 * level
  {
    if level == 0 then base else Under(DirOf(base, hash, level - 1), Octet(hash[level - 1]))
  }

  function FileOf(base: string, hash: Hash, level: nat): (path: string)
    requires level < HASH_LEN
    ensures |path| == |base| + level + 65
  {
    Under(DirOf(base, hash, level), Hex(hash)[2 * level..])
  }

  function MetaOf(file: string): string {
    file + ".meta"
  }

  /** make_path_from_hash */
  method MakePathFromHash(path: string, hash: Hash, level: nat) returns (r: Option<string>)
    ensures r == if level < HASH_LEN then Some(DirOf(path, hash, level)) else None
  {
    if level >= HASH_LEN {
      return None;
    }
    var oldPath := path;
    for i := 0 to level
      invariant oldPath == DirOf(path, hash, i)
    {
      var octet := Octet(hash[i]);
      oldPath := Under(oldPath, octet);
    }
    return Some(oldPath);
  }

  /** build_filename_from_hash */
  function BuildFilename(path: string, hexHash: string, level: nat): string
    requires 2 * level <= |hexHash|
  {
    Under(path, hexHash[2 * level..])
  }

  lemma {:induction false} DirTellsOctets(base: string, a: Hash, b: Hash, level: nat)
    requires level <= HASH_LEN && DirOf(base, a, level) == DirOf(base, b, level)
    ensures a[..level] == b[..level]
  {
    if level > 0 {
      var x, y := DirOf(base, a, level), DirOf(base, b, level);
      var n := |base| + 3 * level;
      assert DirOf(base, a, level - 1) == x[..n - 3] && DirOf(base, b, level - 1) == y[..n - 3];
      DirTellsOctets(base, a, b, level - 1);
      assert x[n - 2..] == Octet(a[level - 1]) && y[n - 2..] == Octet(b[level - 1]);
      SameOctet(a[level - 1], b[level - 1]);
      assert a[..level] == a[..level - 1] + [a[level - 1]] && b[..level] == b[..level - 1] + [b[level - 1]];
    }
  }

  lemma SameOctet(a: byte, b: byte)
    requires Octet(a) == Octet(b)
    ensures a == b
  {
    assert Octet(a)[0] == Octet(b)[0] && Octet(a)[1] == Octet(b)[1];
    ValueOfDigit(a / 16);
    ValueOfDigit(b / 16);
    ValueOfDigit(a % 16);
    ValueOfDigit(b % 16);
  }

  /** Different hashes get different files, and no ".meta" file is the file of another block. */
  lemma FilesAreDistinct(base: string, a: Hash, b: Hash, level: nat)
    requires level < HASH_LEN
    ensures FileOf(base, a, level) == FileOf(base, b, level) <==> a == b
    ensures MetaOf(FileOf(base, a, level)) == MetaOf(FileOf(base, b, level)) <==> a == b
    ensures MetaOf(FileOf(base, a, level)) != FileOf(base, b, level)
  {
    var x, y := FileOf(base, a, level), FileOf(base, b, level);
    assert x == MetaOf(x)[..|x|] && y == MetaOf(y)[..|y|];
    if x == y {
      var n := |base| + 3 * level;
      assert DirOf(base, a, level) == x[..n] && DirOf(base, b, level) == y[..n];
      DirTellsOctets(base, a, b, level);
      assert Hex(a)[2 * level..] == x[n + 1..] && Hex(b)[2 * level..] == y[n + 1..];
      forall i | 0 <= i < HASH_LEN ensures a[i] == b[i] {
        if i < level {
          assert a[i] == a[..level][i] && b[i] == b[..level][i];
        } else {
          var j := 2 * (i - level);
          assert Hex(a)[2 * i] == x[n + 1..][j] && Hex(a)[2 * i + 1] == x[n + 1..][j + 1];
          assert Hex(b)[2 * i] == y[n + 1..][j] && Hex(b)[2 * i + 1] == y[n + 1..][j + 1];
          SameOctet(a[i], b[i]);
        }
      }
      assert a == b;
    }
  }

  // ---------- the tree of directories ----------

  function Pow256(n: nat): (p: nat)
    ensures p > 0
  {
    if n == 0 then 1 else 256 * Pow256(n - 1)
  }

  /** The octets of the base-256 number i, each followed by a slash, the most significant first. */
  function Slashed(i: nat, level: nat): string {
    if level == 0 then "" else Slashed(i / 256, level - 1) + Octet(i % 256) + "/"
  }

  /** The i-th directory of the tree. */
  function TreeDir(base: string, i: nat, level: nat): string {
    if level == 0 then base else Under(TreeDir(base, i / 256, level - 1), Octet(i % 256))
  }

  lemma {:induction false} SlashedIsTreeDir(base: string, i: nat, level: nat)
    ensures base + "/" + Slashed(i, level) == TreeDir(base, i, level) + "/"
  {
    if level > 0 {
      SlashedIsTreeDir(base, i / 256, level - 1);
      var before := Slashed(i / 256, level - 1);
      assert base + "/" + (before + Octet(i % 256) + "/") == (base + "/" + before) + (Octet(i % 256) + "/");
    }
  }

  /** i without its p last octets. */
  function Shifted(i: nat, p: nat): nat {
    if p == 0 then i else Shifted(i, p - 1) / 256
  }

  lemma {:induction false} ShiftedIsQuotient(i: nat, p: nat)
    ensures i / Pow256(p) == Shifted(i, p)
  {
    if p > 0 {
      ShiftedIsQuotient(i, p - 1);
      QuotientOfQuotient(i, Pow256(p - 1), 256);
      assert Pow256(p) == Pow256(p - 1) * 256;
    }
  }

  /** The path of the i-th directory below `base`, built as make_all_subdirectories builds it. */
  method PathOfNumber(base: string, i: nat, level: nat) returns (path: string)
    requires level > 0 && i < Pow256(level)
    ensures path == TreeDir(base, i, level)
  {
    var text := "";
    var p: int := level - 1;
    assert Shifted(i, level) == 0 by {
      ShiftedIsQuotient(i, level);
      QuotientIs(i, Pow256(level), 0);
    }
    while p >= 0
      invariant -1 <= p < level
      invariant text == Slashed(Shifted(i, p + 1), level - (p + 1))
    {
      ShiftedIsQuotient(i, p);
      var number := i / Pow256(p);
      if number > 255 {
        number := number % 256;
      }
      assert number == Shifted(i, p) % 256;
      text := text + Octet(number) + "/";
      p := p - 1;
    }
    SlashedIsTreeDir(base, i, level);
    assert (base + "/" + text)[..|base + "/" + text| - 1] == TreeDir(base, i, level);
    path := Under(base, text[..|text| - 1]);
  }

  /** The number whose octets are the first ones of a hash. */
  function Number(hash: Hash, level: nat): (n: nat)
    requires level <= HASH_LEN
    ensures n < Pow256(level)
  {
    if level == 0 then 0 else Number(hash, level - 1) * 256 + hash[level - 1]
  }

  /** The directory of a hash is one of the tree. */
  lemma {:induction false} DirIsInTree(base: string, hash: Hash, level: nat)
    requires level <= HASH_LEN
    ensures DirOf(base, hash, level) == TreeDir(base, Number(hash, level), level)
  {
    if level > 0 {
      DirIsInTree(base, hash, level - 1);
      var n := Number(hash, level - 1) * 256 + hash[level - 1];
      assert n / 256 == Number(hash, level - 1) && n % 256 == hash[level - 1];
    }
  }

  lemma {:induction false} TreeDirLength(base: string, i: nat, level: nat)
    ensures |TreeDir(base, i, level)| == |base| + 3 * level
  {
    if level > 0 {
      TreeDirLength(base, i / 256, level - 1);
    }
  }

  /** No directory of the tree is made twice. */
  lemma {:induction false} TreeDirsAreDistinct(base: string, i: nat, j: nat, level: nat)
    requires i < Pow256(level) && j < Pow256(level) && TreeDir(base, i, level) == TreeDir(base, j, level)
    ensures i == j
  {
    if level > 0 {
      var x, y := TreeDir(base, i, level), TreeDir(base, j, level);
      var n := |base| + 3 * (level - 1);
      TreeDirLength(base, i / 256, level - 1);
      TreeDirLength(base, j / 256, level - 1);
      assert TreeDir(base, i / 256, level - 1) == x[..n] && TreeDir(base, j / 256, level - 1) == y[..n];
      assert Octet(i % 256) == x[n + 1..] && Octet(j % 256) == y[n + 1..];
      SameOctet(i % 256, j % 256);
      TreeDirsAreDistinct(base, i / 256, j / 256, level - 1);
    }
  }

  /** The tree: every directory of it once. */
  function Tree(base: string, level: nat): (dirs: seq<string>)
    ensures |dirs| == Pow256(level)
    ensures forall i :: 0 <= i < |dirs| ==> dirs[i] == TreeDir(base, i, level)
  {
    seq(Pow256(level), i requires 0 <= i < Pow256(level) => TreeDir(base, i, level))
  }

  /** The tree has no directory twice, and has the directory of every hash. */
  lemma TreeIsComplete(base: string, level: nat)
    requires level <= HASH_LEN
    ensures var dirs := Tree(base, level);
      && (forall i, j :: 0 <= i < j < |dirs| ==> dirs[i] != dirs[j])
      && (forall hash: Hash :: DirOf(base, hash, level) in dirs)
  {
    var dirs := Tree(base, level);
    forall i, j | 0 <= i < j < |dirs| ensures dirs[i] != dirs[j] {
      if dirs[i] == dirs[j] {
        TreeDirsAreDistinct(base, i, j, level);
      }
    }
    forall hash: Hash ensures DirOf(base, hash, level) in dirs {
      DirIsInTree(base, hash, level);
      assert dirs[Number(hash, level)] == DirOf(base, hash, level);
    }
  }

  // ---------- the backend ----------

  datatype File = BlockFile(data: seq<byte>) | MetaFile(cmptype: Compression, uncmplen: nat)

  /** The files hold exactly these blocks: one file each, and its ".meta" file. */
  ghost predicate Represents(base: string, level: nat, files: map<string, File>, blocks: map<Hash, HashData>)
    requires level < HASH_LEN
  {
    && (forall h: Hash :: h in blocks <==> FileOf(base, h, level) in files)
    && (forall h: Hash :: h in blocks ==> FilesHold(base, level, files, h, blocks[h]))
  }

  ghost predicate FilesHold(base: string, level: nat, files: map<string, File>, h: Hash, b: HashData)
    requires level < HASH_LEN
  {
    var file := FileOf(base, h, level);
    && file in files && files[file] == BlockFile(b.data)
    && MetaOf(file) in files && files[MetaOf(file)] == MetaFile(b.cmptype, b.uncmplen)
    && b.hash == h
  }

  /** Writing the two files of a block stores it and leaves every other block as it was. */
  lemma StoringRepresents(base: string, level: nat, files: map<string, File>, blocks: map<Hash, HashData>,
                          b: HashData, files': map<string, File>)
    requires level < HASH_LEN && Represents(base, level, files, blocks)
    requires var file := FileOf(base, b.hash, level);
      files' == files[MetaOf(file) := MetaFile(b.cmptype, b.uncmplen)][file := BlockFile(b.data)]
    ensures Represents(base, level, files', blocks[b.hash := b])
  {
    var blocks' := blocks[b.hash := b];
    forall h: Hash
      ensures h in blocks' <==> FileOf(base, h, level) in files'
      ensures h in blocks' ==> FilesHold(base, level, files', h, blocks'[h])
    {
      FilesAreDistinct(base, h, b.hash, level);
      FilesAreDistinct(base, b.hash, h, level);
      assert h in blocks && h != b.hash ==> FilesHold(base, level, files, h, blocks[h]);
    }
  }

  /** file_backend_t with the file system below its data directory; `blocks` is what it stands for. */
  class Backend {
    const base: string
    const level: nat
    var dirs: seq<string>
    var files: map<string, File>
    ghost var blocks: map<Hash, HashData>

    ghost predicate Valid()
      reads this
    {
      level < HASH_LEN && Represents(base, level, files, blocks)
    }

    /** The directory a block goes to exists. */
    predicate Writable(h: Hash)
      requires level < HASH_LEN
      reads this
    {
      DirOf(base, h, level) in dirs
    }

    /**
     file_init_backend, in an empty data directory. The configuration takes levels 1 to 5, but the
     directories are made for 2 to 4 only; with the others no block can be stored.
     */
    constructor (base: string, configured: int)
      ensures Valid() && blocks == map[] && this.base == base
      ensures level == if 0 < configured < 6 then configured else FILE_BACKEND_LEVEL
      ensures dirs == if 1 < level < 5 then Tree(base, level) else []
      ensures forall h: Hash :: Writable(h) <==> 2 <= level <= 4
      ensures configured <= 0 || configured > 5 ==> level == 2 && forall h: Hash :: Writable(h)
    {
      this.base := base;
      level := if 0 < configured < 6 then configured else FILE_BACKEND_LEVEL;
      dirs, files, blocks := [], map[], map[];
      new;
      MakeAllSubdirectories();
      TreeIsComplete(base, level);
    }

    /** make_all_subdirectories */
    method MakeAllSubdirectories()
      modifies this`dirs
      ensures dirs == old(dirs) + if 1 < level < 5 then Tree(base, level) else []
    {
      if 1 < level < 5 {
        var total := Pow256(level);
        var i := 0;
        while i < total
          invariant 0 <= i <= total
          invariant dirs == old(dirs) + Tree(base, level)[..i]
        {
          var path := PathOfNumber(base, i, level);
          dirs := dirs + [path];
          assert Tree(base, level)[..i + 1] == Tree(base, level)[..i] + [path];
          i := i + 1;
        }
        assert Tree(base, level)[..total] == Tree(base, level);
      }
    }

    /** file_store_data: without its directory nothing is stored. */
    method StoreData(b: HashData)
      requires Valid()
      modifies this`files, this`blocks
      ensures Valid()
      ensures blocks == if Writable(b.hash) then old(blocks)[b.hash := b] else old(blocks)
    {
      var path := MakePathFromHash(base, b.hash, level);
      var hexHash := HashToString(b.hash);
      var filename := BuildFilename(path.value, hexHash, level);
      if path.value in dirs {
        files := files[MetaOf(filename) := MetaFile(b.cmptype, b.uncmplen)];
        files := files[filename := BlockFile(b.data)];
        StoringRepresents(base, level, old(files), blocks, b, files);
        blocks := blocks[b.hash := b];
      }
    }

    /** The test file_build_needed_hash_list makes. */
    method Exists(h: Hash) returns (yes: bool)
      requires Valid()
      ensures yes <==> h in blocks
    {
      var path := MakePathFromHash(base, h, level);
      var hexHash := HashToString(h);
      yes := BuildFilename(path.value, hexHash, level) in files;
    }

    /** file_retrieve_data, by the hexadecimal name of a block: its callers give it no other names. */
    method RetrieveData(hexHash: string) returns (b: Option<HashData>)
      requires Valid() && |hexHash| == HASH_LEN * 2 && IsHex(hexHash)
      ensures b == if Unhex(hexHash) in blocks then Some(blocks[Unhex(hexHash)]) else None
    {
      var hash := StringToHash(hexHash);
      HexUnhexIff(hexHash);
      var path := MakePathFromHash(base, hash, level);
      var filename := BuildFilename(path.value, hexHash, level);
      if filename in files {
        var cmptype, uncmplen := NoCompression, 0;
        if MetaOf(filename) in files && files[MetaOf(filename)].MetaFile? {
          cmptype, uncmplen := files[MetaOf(filename)].cmptype, files[MetaOf(filename)].uncmplen;
        }
        assert FilesHold(base, level, files, hash, blocks[hash]);
        return Some(HashData(hash, files[filename].data, cmptype, uncmplen));
      } else {
        return None;
      }
    }
  }

  /** Naming a block by its binary hash, as restoring does, finds what was stored under that hash. */
  method RetrieveByHash(backend: Backend, hash: Hash) returns (b: Option<HashData>)
    requires backend.Valid()
    ensures b == if hash in backend.blocks then Some(backend.blocks[hash]) else None
  {
    var hexHash := HashToString(hash);
    UnhexHex(hash);
    HexUnhexIff(hexHash);
    b := backend.RetrieveData(hexHash);
  }

  /**
   A request for a single block: its name is cut after 64 characters, and at the first character that is not
   lower-case hexadecimal. Whatever was asked for, the answer is a stored block or nothing.
   */
  method RetrieveByUrl(backend: Backend, name: string) returns (b: Option<HashData>)
    requires backend.Valid()
    ensures b == if |name| < HASH_LEN * 2 || !IsHex(name[..HASH_LEN * 2]) then None
                 else var hash := Unhex(name[..HASH_LEN * 2]);
                      if hash in backend.blocks then Some(backend.blocks[hash]) else None
  {
    var len := 0;
    while len < |name| && len < HASH_LEN * 2 && IsHexDigit(name[len])
      invariant len <= |name| && len <= HASH_LEN * 2 && IsHex(name[..len])
    {
      len := len + 1;
    }
    if len == HASH_LEN * 2 {
      b := backend.RetrieveData(name[..len]);
    } else {
      assert |name| >= HASH_LEN * 2 ==> name[..HASH_LEN * 2][len] == name[len];
      b := None;
    }
  }
}
