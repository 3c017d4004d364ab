/**
 The lines of a metadata file: what file_store_smeta prints for a file and what extract_from_line
 reads from a line.
 */
module Records {
  import opened Blocks
  import opened Base64
  import opened Numbers

  /** A C string: no NUL in it. */
  type CString = s: seq<byte> | 0 !in s

  /** meta_data_t, as far as it is stored. The hashes are binary. */
  datatype Meta = Meta(
    fileType: uint8, inode: uint64, mode: uint32, atime: uint64, ctime: uint64, mtime: uint64, size: uint64,
    owner: string, group: string, uid: uint32, gid: uint32, name: CString, link: CString, hashes: seq<seq<byte>>)

  // ---------- printing ----------

  function Quoted(s: string): string {
    "\"" + s + "\""
  }

  function Join(columns: seq<string>): string
    requires columns != []
  {
    if |columns| == 1 then columns[0] else columns[0] + ", " + Join(columns[1..])
  }

  function QuotedHashes(hashes: seq<seq<byte>>): (r: seq<string>)
    ensures |r| == |hashes|
    ensures forall k :: 0 <= k < |hashes| ==> r[k] == Quoted(Encode(hashes[k]))
  {
    seq(|hashes|, k requires 0 <= k < |hashes| => Quoted(Encode(hashes[k])))
  }

  /** convert_hash_data_list_to_gchar, and the header of a restore request; NULL for an empty list. */
  method ConvertHashList(hashes: seq<seq<byte>>) returns (list: Option<string>)
    ensures list == if hashes == [] then None else Some(Join(QuotedHashes(hashes)))
  {
    list := None;
    var head := 0;
    while head < |hashes|
      invariant 0 <= head <= |hashes|
      invariant list == if head == 0 then None else Some(Join(QuotedHashes(hashes[..head])))
    {
      var base64 := Encode(hashes[head]);
      if list.None? {
        list := Some(Quoted(base64));
        assert QuotedHashes(hashes[..1]) == [Quoted(base64)];
      } else {
        JoinSnoc(QuotedHashes(hashes[..head]), Quoted(base64));
        assert QuotedHashes(hashes[..head + 1]) == QuotedHashes(hashes[..head]) + [Quoted(base64)];
        list := Some(list.value + ", " + Quoted(base64));
      }
      head := head + 1;
    }
    assert hashes[..head] == hashes;
  }

  lemma {:induction false} JoinSnoc(columns: seq<string>, last: string)
    requires columns != []
    ensures Join(columns + [last]) == Join(columns) + ", " + last
  {
    if |columns| == 1 {
      assert (columns + [last])[1..] == [last];
    } else {
      assert (columns + [last])[1..] == columns[1..] + [last];
      JoinSnoc(columns[1..], last);
    }
  }

  /** The thirteen columns every record has. */
  function Columns(m: Meta): (r: seq<string>)
    ensures |r| == 13
  {
    [PrintInt(m.fileType), Digits(m.inode), PrintInt(m.mode), Digits(m.atime), Digits(m.ctime), Digits(m.mtime),
     Digits(m.size), Quoted(m.owner), Quoted(m.group), PrintInt(m.uid), PrintInt(m.gid),
     Quoted(Encode(m.name)), Quoted(Encode(m.link))]
  }

  function HashColumn(m: Meta): seq<string> {
    if m.hashes == [] then [] else [Join(QuotedHashes(m.hashes))]
  }

  /** What file_store_smeta appends to the file of the host, without the newline that ends it. */
  function Line(m: Meta): string {
    Join(Columns(m) + HashColumn(m))
  }

  // ---------- parsing ----------

  /** g_strsplit(s, ",", max), with the beginning of the current piece already read. */
  function Split(piece: string, s: string, max: nat): (r: seq<string>)
    requires max > 0
    ensures 0 < |r| <= max
    decreases |s|
  {
    if max == 1 || s == "" then [piece + s]
    else if s[0] == ',' then [piece] + Split("", s[1..], max - 1)
    else Split(piece + [s[0]], s[1..], max)
  }

  /** get_substring_from_string(string, FALSE): drops the leading space and the two quotes. */
  function Substring(s: string): string {
    if |s| < 3 then "" else s[2..|s| - 1]
  }

  /** One item of a hash list: spaces and quotes off, decoded. */
  function HashOfItem(item: string): seq<byte> {
    var t := SkipSpaces(item);
    if |t| < 2 then [] else Decode(t[1..|t| - 1])
  }

  function HashesOfItems(items: seq<string>): (r: seq<seq<byte>>)
    ensures |r| == |items|
    ensures forall k :: 0 <= k < |items| ==> r[k] == HashOfItem(items[k])
  {
    seq(|items|, k requires 0 <= k < |items| => HashOfItem(items[k]))
  }

  /** g_strsplit(s, ",", -1): an empty string has no piece. */
  function Pieces(s: string): seq<string> {
    if s == "" then [] else Split("", s, |s| + 1)
  }

  /** What a comma-separated list names; a NULL string names nothing. */
  function Named(list: Option<string>): seq<seq<byte>> {
    if list.None? then [] else HashesOfItems(Pieces(list.value))
  }

  /** make_hash_data_list_from_string: prepends, then reverses. */
  method MakeHashList(list: Option<string>) returns (hashes: seq<seq<byte>>)
    ensures hashes == Named(list)
  {
    hashes := [];
    if list.Some? {
      var items := Pieces(list.value);
      var i := 0;
      while i < |items|
        invariant 0 <= i <= |items|
        invariant Reverse(hashes) == HashesOfItems(items[..i])
      {
        ghost var before := hashes;
        hashes := [HashOfItem(items[i])] + hashes;
        assert Reverse(hashes) == Reverse(before) + [HashOfItem(items[i])];
        i := i + 1;
      }
      hashes := Reverse(hashes);
      assert items[..i] == items;
    }
  }

  /** A query as extract_from_line uses it: the regular expression and the dates are predicates. */
  datatype Query = Query(uid: uint32, gid: uint32, owner: string, group: string,
                         nameMatches: CString -> bool, dateMatches: uint64 -> bool)

  predicate Matches(q: Query, m: Meta) {
    && q.nameMatches(m.name) && q.dateMatches(m.mtime)
    && m.owner == q.owner && m.group == q.group && m.uid == q.uid && m.gid == q.gid
  }

  /** The record in the columns of a split line. */
  function FromColumns(params: seq<string>): Meta
    requires |params| >= 13
  {
    Meta(ScanUint(params[0]) % 256, ScanUint64(params[1]), ScanUint(params[2]), ScanUint64(params[3]),
         ScanUint64(params[4]), ScanUint64(params[5]), ScanUint64(params[6]),
         Substring(params[7]), Substring(params[8]), ScanUint(params[9]), ScanUint(params[10]),
         UpTo(Decode(Substring(params[11])), 0), UpTo(Decode(Substring(params[12])), 0),
         Named(if |params| == 13 then None else Some(params[13])))
  }

  /** extract_from_line */
  function ExtractFromLine(line: string, q: Query): (r: Option<Meta>)
    ensures |line| <= 16 ==> r == None
  {
    var params := Split("", line, 14);
    if |line| <= 16 || |params| < 13 then None
    else var m := FromColumns(params); if Matches(q, m) then Some(m) else None
  }

  // ---------- round trip ----------

  predicate CommaFree(s: string) {
    forall k :: 0 <= k < |s| ==> s[k] != ','
  }

  /** What splitting makes of joined columns: each after the first keeps the space of ", ". */
  function Parts(before: string, columns: seq<string>): (r: seq<string>)
    ensures |r| == |columns|
    ensures forall k :: 0 <= k < |columns| ==> r[k] == (if k == 0 then before else " ") + columns[k]
    decreases |columns|
  {
    if columns == [] then [] else [before + columns[0]] + Parts(" ", columns[1..])
  }

  lemma {:induction false} SplitColumn(piece: string, a: string, rest: string, max: nat)
    requires CommaFree(a) && max > 1
    ensures Split(piece, a + "," + rest, max) == [piece + a] + Split("", rest, max - 1)
    decreases |a|
  {
    var s := a + "," + rest;
    if a == "" {
      assert s[1..] == rest && piece + a == piece;
    } else {
      assert s[1..] == a[1..] + "," + rest;
      SplitColumn(piece + [a[0]], a[1..], rest, max);
      assert piece + [a[0]] + a[1..] == piece + a;
    }
  }

  lemma {:induction false} SplitLast(piece: string, a: string, max: nat)
    requires max > 0 && (CommaFree(a) || max == 1)
    ensures Split(piece, a, max) == [piece + a]
    decreases |a|
  {
    if a != "" && max > 1 {
      SplitLast(piece + [a[0]], a[1..], max);
      assert piece + [a[0]] + a[1..] == piece + a;
    }
  }

  lemma Regroup(before: string, column: string, rest: string)
    ensures before + (column + ", " + rest) == (before + column) + "," + (" " + rest)
  {
  }

  lemma {:induction false} SplitJoin(before: string, columns: seq<string>, max: nat)
    requires CommaFree(before) && 0 < |columns| <= max
    requires forall k :: 0 <= k < |columns| - 1 ==> CommaFree(columns[k])
    requires CommaFree(columns[|columns| - 1]) || |columns| == max
    ensures Split("", before + Join(columns), max) == Parts(before, columns)
    decreases |columns|
  {
    var first := before + columns[0];
    assert "" + first == first;
    if |columns| == 1 {
      SplitLast("", first, max);
    } else {
      var rest := columns[1..];
      SplitJoin(" ", rest, max - 1);
      Regroup(before, columns[0], Join(rest));
      SplitColumn("", first, " " + Join(rest), max);
    }
  }

  lemma ItemDecodes(h: seq<byte>)
    ensures HashOfItem(Quoted(Encode(h))) == h && HashOfItem(" " + Quoted(Encode(h))) == h
  {
    var t := Quoted(Encode(h));
    assert SkipSpaces(t) == t;
    assert (" " + t)[1..] == t;
    assert SkipSpaces(" " + t) == t;
    assert t[1..|t| - 1] == Encode(h);
    DecodeEncode(h);
  }

  lemma {:induction false} EncodedIsCommaFree(s: seq<byte>)
    ensures CommaFree(Encode(s)) && CommaFree(Quoted(Encode(s)))
  {
    EncodeAlphabet(s);
  }

  lemma ItemsDecode(hashes: seq<seq<byte>>, before: string)
    requires before == "" || before == " "
    ensures HashesOfItems(Parts(before, QuotedHashes(hashes))) == hashes
  {
    forall k | 0 <= k < |hashes| ensures HashOfItem(Parts(before, QuotedHashes(hashes))[k]) == hashes[k] {
      var item := Quoted(Encode(hashes[k]));
      assert "" + item == item;
      ItemDecodes(hashes[k]);
    }
  }

  /** A hash list, whole or after the space of its column, decodes to the hashes in order. */
  lemma HashListRoundTrip(hashes: seq<seq<byte>>, before: string)
    requires hashes != [] && (before == "" || before == " ")
    ensures Named(Some(before + Join(QuotedHashes(hashes)))) == hashes
  {
    var items := QuotedHashes(hashes);
    var max := |before + Join(items)| + 1;
    forall k | 0 <= k < |items| ensures CommaFree(items[k]) {
      EncodedIsCommaFree(hashes[k]);
    }
    assert |items| <= max by { JoinIsLong(items); }
    assert Split("", before + Join(items), max) == Parts(before, items) by { SplitJoin(before, items, max); }
    ItemsDecode(hashes, before);
  }

  lemma {:induction false} JoinIsLong(columns: seq<string>)
    requires columns != [] && forall k :: 0 <= k < |columns| ==> columns[k] != []
    ensures |Join(columns)| >= |columns|
  {
    if |columns| > 1 {
      JoinIsLong(columns[1..]);
    }
  }

  lemma NameRoundTrip(name: CString)
    ensures UpTo(Decode(Substring(" " + Quoted(Encode(name)))), 0) == name
  {
    SubstringOfQuoted(Encode(name));
    DecodeEncode(name);
    NothingToCut(name, 0);
  }

  lemma SubstringOfQuoted(s: string)
    ensures Substring(" " + Quoted(s)) == s
  {
    assert " " + Quoted(s) == " \"" + s + "\"";
  }

  lemma ColumnsAreCommaFree(m: Meta)
    requires CommaFree(m.owner) && CommaFree(m.group)
    ensures forall k :: 0 <= k < 13 ==> CommaFree(Columns(m)[k])
  {
    EncodedIsCommaFree(m.name);
    EncodedIsCommaFree(m.link);
    PrintIntChars(m.fileType);
    PrintIntChars(m.mode);
    PrintIntChars(m.uid);
    PrintIntChars(m.gid);
  }

  /** The columns of a printed line, as the parser sees them. */
  lemma LineColumns(m: Meta)
    requires CommaFree(m.owner) && CommaFree(m.group)
    ensures Split("", Line(m), 14) == Parts("", Columns(m) + HashColumn(m))
  {
    var columns := Columns(m) + HashColumn(m);
    ColumnsAreCommaFree(m);
    assert forall k :: 0 <= k < 13 ==> columns[k] == Columns(m)[k];
    SplitJoin("", columns, 14);
    assert "" + Join(columns) == Join(columns);
  }

  lemma {:induction false} JoinLength(columns: seq<string>)
    requires columns != []
    ensures |Join(columns)| >= 2 * (|columns| - 1)
  {
    if |columns| > 1 {
      JoinLength(columns[1..]);
    }
  }

  lemma SpacedUint64(n: uint64)
    ensures ScanUint64(" " + Digits(n)) == n
  {
    ScanPrintUint64(n);
  }

  lemma SpacedUint(u: uint32)
    ensures ScanUint(" " + PrintInt(u)) == u
  {
    ScanPrintInt(u);
  }

  /** Every column but the first is read with the space before it. */
  lemma SpacedColumns(m: Meta, columns: seq<string>, n: nat)
    requires 0 < n <= 13 && n <= |columns| && forall k :: 0 <= k < n ==> columns[k] == Columns(m)[k]
    ensures var params := Parts("", columns);
      params[0] == Columns(m)[0] && forall k :: 1 <= k < n ==> params[k] == " " + Columns(m)[k]
  {
    assert "" + columns[0] == columns[0];
  }

  /** The columns that hold numbers, but for the first as they stand after a comma. */
  ghost predicate HasNumbers(params: seq<string>, m: Meta)
    requires |params| >= 13
  {
    && params[0] == PrintInt(m.fileType) && params[1] == " " + Digits(m.inode)
    && params[2] == " " + PrintInt(m.mode) && params[3] == " " + Digits(m.atime)
    && params[4] == " " + Digits(m.ctime) && params[5] == " " + Digits(m.mtime)
    && params[6] == " " + Digits(m.size)
    && params[9] == " " + PrintInt(m.uid) && params[10] == " " + PrintInt(m.gid)
  }

  lemma SpacedNumbers(m: Meta, columns: seq<string>)
    requires |columns| >= 13 && forall k :: 0 <= k < 12 ==> columns[k] == Columns(m)[k]
    ensures HasNumbers(Parts("", columns), m)
  {
    var params, printed := Parts("", columns), Columns(m);
    SpacedColumns(m, columns, 12);
    assert params[1] == " " + printed[1] && params[2] == " " + printed[2] && params[3] == " " + printed[3];
    assert params[4] == " " + printed[4] && params[5] == " " + printed[5] && params[6] == " " + printed[6];
    assert params[9] == " " + printed[9] && params[10] == " " + printed[10];
  }

  lemma NumbersRoundTrip(m: Meta, params: seq<string>)
    requires |params| >= 13 && HasNumbers(params, m)
    ensures var r := FromColumns(params);
      r == m.(owner := r.owner, group := r.group, name := r.name, link := r.link, hashes := r.hashes)
  {
    assert ScanUint(params[0]) % 256 == m.fileType by { ScanPrintInt(m.fileType); }
    assert ScanUint64(params[1]) == m.inode by { SpacedUint64(m.inode); }
    assert ScanUint(params[2]) == m.mode by { SpacedUint(m.mode); }
    assert ScanUint64(params[3]) == m.atime by { SpacedUint64(m.atime); }
    assert ScanUint64(params[4]) == m.ctime by { SpacedUint64(m.ctime); }
    assert ScanUint64(params[5]) == m.mtime by { SpacedUint64(m.mtime); }
    assert ScanUint64(params[6]) == m.size by { SpacedUint64(m.size); }
    assert ScanUint(params[9]) == m.uid by { SpacedUint(m.uid); }
    assert ScanUint(params[10]) == m.gid by { SpacedUint(m.gid); }
  }

  lemma StringsRoundTrip(m: Meta, params: seq<string>)
    requires |params| >= 13
    requires params[7] == " " + Quoted(m.owner) && params[8] == " " + Quoted(m.group)
    requires params[11] == " " + Quoted(Encode(m.name)) && params[12] == " " + Quoted(Encode(m.link))
    ensures var r := FromColumns(params);
      r.owner == m.owner && r.group == m.group && r.name == m.name && r.link == m.link
  {
    SubstringOfQuoted(m.owner);
    SubstringOfQuoted(m.group);
    NameRoundTrip(m.name);
    NameRoundTrip(m.link);
  }

  lemma HashesRoundTrip(m: Meta, params: seq<string>)
    requires |params| == 13 + |HashColumn(m)|
    requires m.hashes != [] ==> params[13] == " " + HashColumn(m)[0]
    ensures FromColumns(params).hashes == m.hashes
  {
    if m.hashes != [] {
      HashListRoundTrip(m.hashes, " ");
    }
  }

  /** The columns read back as the record they were printed from. */
  lemma ColumnsRoundTrip(m: Meta)
    ensures FromColumns(Parts("", Columns(m) + HashColumn(m))) == m
  {
    var columns := Columns(m) + HashColumn(m);
    var params := Parts("", columns);
    SpacedColumns(m, columns, 13);
    assert m.hashes != [] ==> params[13] == " " + HashColumn(m)[0];
    SpacedNumbers(m, columns);
    NumbersRoundTrip(m, params);
    StringsRoundTrip(m, params);
    HashesRoundTrip(m, params);
  }

  /** A line reads back as the record it was printed from, if that passes the six tests of the query. */
  lemma LineRoundTrip(m: Meta, q: Query)
    requires CommaFree(m.owner) && CommaFree(m.group)
    ensures ExtractFromLine(Line(m), q)
            == if && q.nameMatches(m.name) && q.dateMatches(m.mtime) && m.owner == q.owner && m.group == q.group
                  && m.uid == q.uid && m.gid == q.gid then Some(m) else None
  {
    assert FromColumns(Split("", Line(m), 14)) == m && |Split("", Line(m), 14)| >= 13 by {
      LineColumns(m);
      ColumnsRoundTrip(m);
    }
    assert |Line(m)| > 16 by { JoinLength(Columns(m) + HashColumn(m)); }
  }
}
