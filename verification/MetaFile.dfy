/**
 A metadata file written by file_store_smeta and read back by the line reader: which records survive,
 exactly, and that whole files of them do.
 */
module MetaFile {
  import opened Blocks
  import BlockLists
  import opened Base64
  import opened Numbers
  import opened Records
  import opened MetaReader

  /** The file of a host after file_store_smeta was called on each record in turn. */
  function FileText(records: seq<Meta>): string {
    if records == [] then "" else Line(records[0]) + "\n" + FileText(records[1..])
  }

  predicate OddQuotes(s: string) {
    s != "" && (s[0] == '"') != OddQuotes(s[1..])
  }

  /**
   When the reader finds the newline of a record: an owner and a group with an even number of quotes
   each, or an odd number each and at least one hash to make up for the comma between them.
   */
  predicate NewlineFound(m: Meta) {
    OddQuotes(m.owner) == OddQuotes(m.group) && (OddQuotes(m.owner) ==> m.hashes != [])
  }

  /** The records that can be read back. */
  predicate Readable(m: Meta) {
    CommaFree(m.owner) && CommaFree(m.group) && NewlineFound(m)
  }

  lemma {:induction false} RunCommaFree(s: string, st: Scan)
    requires CommaFree(s)
    ensures Run(s, st) == Scan(st.commas, st.inString != OddQuotes(s))
    ensures st.commas < 12 || (forall k :: 0 <= k < |s| ==> s[k] != '\n') ==> Open(s, st)
  {
    if s != "" {
      RunCommaFree(s[1..], Next(st, s[0]));
    }
  }

  lemma {:induction false} OddQuotesOfQuoted(s: string)
    ensures OddQuotes(Quoted(s)) == OddQuotes(s)
  {
    OddQuotesAppend("\"" + s, "\"");
    OddQuotesAppend("\"", s);
    assert OddQuotes("\"");
    assert Quoted(s) == ("\"" + s) + "\"";
  }

  lemma {:induction false} OddQuotesAppend(a: string, b: string)
    ensures OddQuotes(a + b) == (OddQuotes(a) != OddQuotes(b))
  {
    if a == "" {
      assert a + b == b;
    } else {
      assert (a + b)[1..] == a[1..] + b;
      OddQuotesAppend(a[1..], b);
    }
  }

  lemma {:induction false} NoQuotes(s: string)
    requires forall k :: 0 <= k < |s| ==> s[k] != '"'
    ensures !OddQuotes(s)
  {
    if s != "" {
      NoQuotes(s[1..]);
    }
  }

  /** A column that neither ends the line nor leaves the reader inside quotes. */
  predicate Plain(s: string) {
    CommaFree(s) && !OddQuotes(s) && forall k :: 0 <= k < |s| ==> s[k] != '\n'
  }

  lemma EncodedIsPlain(s: seq<byte>)
    ensures Plain(Quoted(Encode(s)))
  {
    EncodeAlphabet(s);
    NoQuotes(Encode(s));
    OddQuotesOfQuoted(Encode(s));
    EncodedIsCommaFree(s);
  }

  lemma NumberIsPlain(s: string)
    requires forall k :: 0 <= k < |s| ==> IsDigit(s[k]) || s[k] == '-'
    ensures Plain(s)
  {
    NoQuotes(s);
  }

  /** Passing plain columns: outside quotes every separator counts, inside none does. */
  lemma {:induction false} RunPlain(columns: seq<string>, st: Scan)
    requires columns != [] && forall k :: 0 <= k < |columns| ==> Plain(columns[k])
    ensures Run(Join(columns), st) == if st.inString then st else st.(commas := st.commas + |columns| - 1)
    ensures Open(Join(columns), st)
  {
    RunCommaFree(columns[0], st);
    if |columns| > 1 {
      var rest := columns[1..];
      RunSeparator(columns[0], Join(rest), st);
      RunPlain(rest, AfterSeparator(st));
    }
  }

  function AfterSeparator(st: Scan): Scan {
    if st.inString then st else st.(commas := st.commas + 1)
  }

  /** One column, the separator, and what follows. */
  lemma RunSeparator(column: string, rest: string, st: Scan)
    requires Open(column, st)
    ensures var st' := AfterSeparator(Run(column, st));
      && Run(column + ", " + rest, st) == Run(rest, st')
      && Open(column + ", " + rest, st) == Open(rest, st')
  {
    RunAppend(column + ", ", rest, st);
    RunAppend(column, ", ", st);
    var after := Run(column, st);
    var st' := Next(after, ',');
    assert ", "[1..] == " " && " "[1..] == "";
    assert Run(" ", st') == st' && Open(" ", st');
    assert Run(", ", after) == st' && Open(", ", after);
  }

  lemma {:induction false} JoinAppend(a: seq<string>, b: seq<string>)
    requires a != [] && b != []
    ensures Join(a + b) == Join(a) + ", " + Join(b)
  {
    if |a| == 1 {
      assert (a + b)[1..] == b;
    } else {
      assert (a + b)[1..] == a[1..] + b;
      JoinAppend(a[1..], b);
    }
  }

  /** The columns after the group: numbers, names and hashes. */
  function LastColumns(m: Meta): seq<string> {
    Columns(m)[9..] + QuotedHashes(m.hashes)
  }

  /** The line around the two columns that are written as they are. */
  lemma LineShape(m: Meta)
    ensures Line(m) == Join(Columns(m)[..7]) + ", " +
      (Quoted(m.owner) + ", " + (Quoted(m.group) + ", " + Join(LastColumns(m))))
  {
    var first, middle, last := Columns(m)[..7], [Quoted(m.owner), Quoted(m.group)], Columns(m)[9..];
    var items := QuotedHashes(m.hashes);
    var end := last + HashColumn(m);
    assert Columns(m) + HashColumn(m) == first + (middle + end);
    if items != [] {
      JoinAppend(last, items);
      JoinAppend(last, HashColumn(m));
    } else {
      assert last + items == last;
    }
    assert Join(end) == Join(LastColumns(m));
    JoinAppend(first, middle + end);
    assert (middle + end)[1..] == [Quoted(m.group)] + end && ([Quoted(m.group)] + end)[1..] == end;
  }

  lemma OtherColumnsArePlain(m: Meta)
    ensures forall k :: 0 <= k < 7 ==> Plain(Columns(m)[..7][k])
    ensures forall k :: 0 <= k < |LastColumns(m)| ==> Plain(LastColumns(m)[k])
  {
    PrintIntChars(m.fileType);
    PrintIntChars(m.mode);
    PrintIntChars(m.uid);
    PrintIntChars(m.gid);
    forall k | 0 <= k < 7 ensures Plain(Columns(m)[k]) {
      NumberIsPlain(Columns(m)[k]);
    }
    forall k | 0 <= k < |LastColumns(m)| ensures Plain(LastColumns(m)[k]) {
      if k < 2 {
        NumberIsPlain(Columns(m)[9 + k]);
      } else {
        EncodedIsPlain(if k == 2 then m.name else if k == 3 then m.link else m.hashes[k - 4]);
      }
    }
  }

  /** The line in four parts, of which only the owner and the group are free. */
  lemma RunParts(first: string, owner: string, group: string, last: string, more: nat)
    requires Run(first, START) == Scan(6, false) && Open(first, START)
    requires CommaFree(owner) && CommaFree(group)
    requires var c := if OddQuotes(owner) then 7 else 8;
      var st := AfterSeparator(Scan(c, OddQuotes(owner) != OddQuotes(group)));
      Open(last, st) && Run(last, st) == if st.inString then st else st.(commas := st.commas + more)
    ensures var text := first + ", " + (owner + ", " + (group + ", " + last));
      && Open(text, START)
      && var end := Run(text, START);
      && end.inString == (OddQuotes(owner) != OddQuotes(group))
      && (!end.inString ==> end.commas == (if OddQuotes(owner) then 8 else 9) + more)
  {
    var text2 := group + ", " + last;
    var text1 := owner + ", " + text2;
    RunSeparator(first, text1, START);
    var st1 := Scan(7, false);
    RunCommaFree(owner, st1);
    RunSeparator(owner, text2, st1);
    var st2 := AfterSeparator(Scan(7, OddQuotes(owner)));
    RunCommaFree(group, st2);
    RunSeparator(group, last, st2);
  }

  /** What the reader has counted at the end of a line, all cases. */
  lemma RunLine(m: Meta)
    requires CommaFree(m.owner) && CommaFree(m.group)
    ensures Open(Line(m), START)
    ensures var end := Run(Line(m), START);
      && end.inString == (OddQuotes(m.owner) != OddQuotes(m.group))
      && (!end.inString ==> end.commas == (if OddQuotes(m.owner) then 11 else 12) + |m.hashes|)
  {
    var first, last := Columns(m)[..7], LastColumns(m);
    LineShape(m);
    OtherColumnsArePlain(m);
    OddQuotesOfQuoted(m.owner);
    OddQuotesOfQuoted(m.group);
    RunPlain(first, START);
    var c := if OddQuotes(m.owner) then 7 else 8;
    RunPlain(last, AfterSeparator(Scan(c, OddQuotes(m.owner) != OddQuotes(m.group))));
    RunParts(Join(first), Quoted(m.owner), Quoted(m.group), Join(last), |last| - 1);
  }

  /** A line that is found is cut off; one that is not found leaves the reader going. */
  lemma FirstLine(m: Meta, rest: string)
    requires CommaFree(m.owner) && CommaFree(m.group)
    ensures NewlineFound(m) ==> Lines(Line(m) + "\n" + rest) == [Line(m)] + Lines(rest)
    ensures !NewlineFound(m) ==> Lines(Line(m) + "\n") == []
  {
    RunLine(m);
    var end := Run(Line(m), START);
    var text := Line(m) + "\n" + rest;
    assert text == Line(m) + ("\n" + rest);
    RunAppend(Line(m), "\n" + rest, START);
    RunAppend(Line(m), "\n", START);
    if NewlineFound(m) {
      assert LineLength("\n" + rest, end) == 0;
      assert text[..|Line(m)|] == Line(m) && text[|Line(m)| + 1..] == rest;
    } else {
      assert "\n"[1..] == "";
      assert LineLength("\n", end) == 1;
    }
  }

  /** Readable records at the beginning of a file are one line each; the reader goes on after them. */
  lemma {:induction false} LinesOfFile(records: seq<Meta>, tail: string)
    requires forall k :: 0 <= k < |records| ==> Readable(records[k])
    ensures Lines(FileText(records) + tail) == LinesOf(records) + Lines(tail)
  {
    if records == [] {
      assert FileText(records) + tail == tail;
      assert LinesOf(records) + Lines(tail) == Lines(tail);
    } else {
      var line, rest := Line(records[0]), FileText(records[1..]);
      assert (line + "\n" + rest) + tail == line + "\n" + (rest + tail);
      FirstLine(records[0], rest + tail);
      LinesOfFile(records[1..], tail);
      assert [line] + (LinesOf(records[1..]) + Lines(tail)) == ([line] + LinesOf(records[1..])) + Lines(tail);
    }
  }

  function LinesOf(records: seq<Meta>): seq<string> {
    if records == [] then [] else [Line(records[0])] + LinesOf(records[1..])
  }

  /** The records of a list that a query wants, in order. */
  function Wanted(records: seq<Meta>, q: Query): seq<Meta> {
    if records == [] then []
    else (if Matches(q, records[0]) then [records[0]] else []) + Wanted(records[1..], q)
  }

  lemma {:induction false} SelectedAppend(a: seq<string>, b: seq<string>, parse: string -> Option<Meta>)
    ensures Selected(a + b, parse) == Selected(a, parse) + Selected(b, parse)
    decreases |b|
  {
    if b == [] {
      assert a + b == a;
    } else {
      var init := b[..|b| - 1];
      assert (a + b)[..|a + b| - 1] == a + init;
      SelectedAppend(a, init, parse);
    }
  }

  lemma {:induction false} SelectedLines(records: seq<Meta>, q: Query, parse: string -> Option<Meta>)
    requires forall k :: 0 <= k < |records| ==>
      parse(Line(records[k])) == if Matches(q, records[k]) then Some(records[k]) else None
    ensures Selected(LinesOf(records), parse) == Wanted(records, q)
  {
    if records != [] {
      var line, rest := Line(records[0]), records[1..];
      SelectedLines(rest, q, parse);
      SelectedAppend([line], LinesOf(rest), parse);
      assert Selected([line], parse) == if Matches(q, records[0]) then [records[0]] else [] by {
        assert Selected([line][..0], parse) == [];
      }
    }
  }

  /**
   Store and read back: whatever records were appended to a host's file, a query gets exactly those it
   matches, every field and every hash list as stored, latest record first. A record still being written
   at the end of the file is not returned.
   */
  lemma FileRoundTrip(records: seq<Meta>, tail: string, q: Query)
    requires forall k :: 0 <= k < |records| ==> Readable(records[k])
    requires Open(tail, START)
    ensures Answer(FileText(records) + tail, q) == Reverse(Wanted(records, q))
  {
    LinesOfFile(records, tail);
    assert LinesOf(records) + Lines(tail) == LinesOf(records);
    ReadableLines(records, q);
  }

  lemma WholeFileRoundTrip(records: seq<Meta>, q: Query)
    requires forall k :: 0 <= k < |records| ==> Readable(records[k])
    ensures Answer(FileText(records), q) == Reverse(Wanted(records, q))
  {
    FileRoundTrip(records, "", q);
    assert FileText(records) + "" == FileText(records);
  }

  lemma {:induction false} WantedIff(records: seq<Meta>, q: Query, m: Meta)
    ensures m in Wanted(records, q) <==>
      && m in records && q.nameMatches(m.name) && q.dateMatches(m.mtime)
      && m.owner == q.owner && m.group == q.group && m.uid == q.uid && m.gid == q.gid
  {
    if records != [] {
      WantedIff(records[1..], q, m);
    }
  }

  /** A record is listed for a query exactly if it was stored and passes the six tests of the query. */
  lemma ListedIff(records: seq<Meta>, q: Query, m: Meta)
    requires forall k :: 0 <= k < |records| ==> Readable(records[k])
    ensures m in Answer(FileText(records), q) <==>
      && m in records && q.nameMatches(m.name) && q.dateMatches(m.mtime)
      && m.owner == q.owner && m.group == q.group && m.uid == q.uid && m.gid == q.gid
  {
    WholeFileRoundTrip(records, q);
    WantedIff(records, q, m);
    BlockLists.SameElements(Wanted(records, q));
  }

  lemma ReadableLines(records: seq<Meta>, q: Query)
    requires forall k :: 0 <= k < |records| ==> Readable(records[k])
    ensures Selected(LinesOf(records), Parser(q)) == Wanted(records, q)
  {
    var parse := Parser(q);
    forall k | 0 <= k < |records|
      ensures parse(Line(records[k])) == if Matches(q, records[k]) then Some(records[k]) else None
    {
      LineRoundTrip(records[k], q);
    }
    SelectedLines(records, q, parse);
  }

  lemma {:induction false} PiecesAreCommaFree(piece: string, s: string, max: nat, k: nat)
    requires max > 0 && CommaFree(piece)
    requires k < |Split(piece, s, max)| && k < max - 1
    ensures CommaFree(Split(piece, s, max)[k])
    decreases |s|
  {
    if max == 1 || s == "" {
    } else if s[0] == ',' {
      if k > 0 {
        PiecesAreCommaFree("", s[1..], max - 1, k - 1);
      }
    } else {
      PiecesAreCommaFree(piece + [s[0]], s[1..], max, k);
    }
  }

  /** Whatever the line, the owner and the group read from it hold no comma. */
  lemma NoCommaReadBack(line: string, q: Query)
    ensures ExtractFromLine(line, q).Some? ==>
      CommaFree(ExtractFromLine(line, q).value.owner) && CommaFree(ExtractFromLine(line, q).value.group)
  {
    var params := Split("", line, 14);
    if |params| >= 13 {
      PiecesAreCommaFree("", line, 14, 7);
      PiecesAreCommaFree("", line, 14, 8);
    }
  }

  lemma {:induction false} NothingWithCommaSelected(lines: seq<string>, q: Query, m: Meta)
    requires m in Selected(lines, Parser(q))
    ensures CommaFree(m.owner) && CommaFree(m.group)
  {
    if lines != [] {
      NoCommaReadBack(lines[|lines| - 1], q);
      if m in Selected(lines[..|lines| - 1], Parser(q)) {
        NothingWithCommaSelected(lines[..|lines| - 1], q, m);
      }
    }
  }

  /**
   A stored record reads back, for a query that matches it, if and only if its owner and group hold no
   comma and the quotes in them let the reader find its newline. (A newline in them does no harm.)
   */
  lemma ReadsBackIff(m: Meta, q: Query)
    requires Matches(q, m)
    ensures Answer(FileText([m]), q) == [m] <==> Readable(m)
  {
    assert FileText([m]) == Line(m) + "\n" + "";
    assert FileText([m]) == Line(m) + "\n";
    if Readable(m) {
      assert Lines("") == [];
      FileRoundTrip([m], "", q);
      assert FileText([m]) + "" == FileText([m]);
      assert Wanted([m], q) == [m];
    } else if CommaFree(m.owner) && CommaFree(m.group) {
      FirstLine(m, "");
    } else if Answer(FileText([m]), q) == [m] {
      assert Answer(FileText([m]), q)[0] in Selected(Lines(FileText([m])), Parser(q));
      NothingWithCommaSelected(Lines(FileText([m])), q, m);
      assert false;
    }
  }

  // ---------- the operation that stores ----------

  lemma {:induction false} FileTextAppend(a: seq<Meta>, b: seq<Meta>)
    ensures FileText(a + b) == FileText(a) + FileText(b)
  {
    if a == [] {
      assert a + b == b;
    } else {
      assert (a + b)[1..] == a[1..] + b;
      FileTextAppend(a[1..], b);
      Associative(Line(a[0]) + "\n", FileText(a[1..]), FileText(b));
    }
  }

  /** server_meta_data_t, as it waits in the queue. */
  datatype Queued = Queued(host: string, meta: Meta)

  /** The records of one host in a queue, in order. */
  function OfHost(queue: seq<Queued>, host: string): seq<Meta> {
    if queue == [] then []
    else
      var n := |queue| - 1;
      OfHost(queue[..n], host) + if queue[n].host == host then [queue[n].meta] else []
  }

  function Content(files: map<string, string>, host: string): string {
    if host in files then files[host] else ""
  }

  /** The metadata directory of the file backend: one file per host. */
  class MetaFiles {
    var files: map<string, string>

    constructor ()
      ensures files == map[]
    {
      files := map[];
    }

    /** file_store_smeta; the file of a new host is created by the append. */
    method StoreSmeta(host: string, m: Meta)
      modifies this
      ensures files == old(files)[host := Content(old(files), host) + (Line(m) + "\n")]
    {
      var hashList := ConvertHashList(m.hashes);
      var buffer := "";
      if hashList.Some? {
        JoinSnoc(Columns(m), hashList.value);
        buffer := Join(Columns(m)) + ", " + hashList.value + "\n";
      } else {
        assert Columns(m) + HashColumn(m) == Columns(m);
        buffer := Join(Columns(m)) + "\n";
      }
      files := files[host := Content(files, host) + buffer];
    }

    /** meta_data_thread: pops the records and stores them in the order they were queued. */
    method MetaDataThread(queue: seq<Queued>)
      modifies this
      ensures forall host :: Content(files, host) == Content(old(files), host) + FileText(OfHost(queue, host))
    {
      var i := 0;
      while i < |queue|
        invariant 0 <= i <= |queue|
        invariant forall host ::
          Content(files, host) == Content(old(files), host) + FileText(OfHost(queue[..i], host))
      {
        ghost var before := files;
        StoreSmeta(queue[i].host, queue[i].meta);
        forall host
          ensures Content(files, host) == Content(old(files), host) + FileText(OfHost(queue[..i + 1], host))
        {
          OneMoreStored(queue, i, host, Content(old(files), host));
          assert host != queue[i].host ==> Content(files, host) == Content(before, host);
        }
        i := i + 1;
      }
      WholePrefix(queue);
    }
  }

  lemma OneMoreStored(queue: seq<Queued>, i: nat, host: string, before: string)
    requires i < |queue|
    ensures before + FileText(OfHost(queue[..i + 1], host)) ==
      (before + FileText(OfHost(queue[..i], host)))
      + if queue[i].host == host then Line(queue[i].meta) + "\n" else ""
  {
    var stored, m := OfHost(queue[..i], host), queue[i].meta;
    OfHostSnoc(queue, i, host);
    if queue[i].host == host {
      FileTextAppend(stored, [m]);
      FileTextOne(m);
      Associative(before, FileText(stored), Line(m) + "\n");
    }
  }

  lemma OfHostSnoc(queue: seq<Queued>, i: nat, host: string)
    requires i < |queue|
    ensures OfHost(queue[..i + 1], host)
      == if queue[i].host == host then OfHost(queue[..i], host) + [queue[i].meta] else OfHost(queue[..i], host)
  {
    assert queue[..i + 1][..i] == queue[..i];
  }

  lemma FileTextOne(m: Meta)
    ensures FileText([m]) == Line(m) + "\n"
  {
    assert (Line(m) + "\n") + "" == Line(m) + "\n";
  }

  // ---------- storing and listing ----------

  lemma {:induction false} JoinNulFree(columns: seq<string>)
    requires columns != [] && forall k :: 0 <= k < |columns| ==> NulFree(columns[k])
    ensures NulFree(Join(columns))
  {
    if |columns| > 1 {
      JoinNulFree(columns[1..]);
    }
  }

  lemma EncodedNulFree(s: seq<byte>)
    ensures NulFree(Quoted(Encode(s)))
  {
    EncodeAlphabet(s);
  }

  lemma ColumnsNulFree(m: Meta)
    requires NulFree(m.owner) && NulFree(m.group)
    ensures forall k :: 0 <= k < 13 ==> NulFree(Columns(m)[k])
  {
    EncodedNulFree(m.name);
    EncodedNulFree(m.link);
    PrintIntChars(m.fileType);
    PrintIntChars(m.mode);
    PrintIntChars(m.uid);
    PrintIntChars(m.gid);
  }

  lemma HashColumnNulFree(m: Meta)
    ensures forall k :: 0 <= k < |HashColumn(m)| ==> NulFree(HashColumn(m)[k])
  {
    var items := QuotedHashes(m.hashes);
    forall k | 0 <= k < |items| ensures NulFree(items[k]) {
      EncodedNulFree(m.hashes[k]);
    }
    if items != [] {
      JoinNulFree(items);
    }
  }

  lemma LineNulFree(m: Meta)
    requires NulFree(m.owner) && NulFree(m.group)
    ensures NulFree(Line(m))
  {
    ColumnsNulFree(m);
    HashColumnNulFree(m);
    var columns := Columns(m) + HashColumn(m);
    forall k | 0 <= k < |columns| ensures NulFree(columns[k]) {
      assert columns[k] == if k < 13 then Columns(m)[k] else HashColumn(m)[k - 13];
    }
    JoinNulFree(columns);
  }

  lemma {:induction false} FileTextNulFree(records: seq<Meta>)
    requires forall k :: 0 <= k < |records| ==> NulFree(records[k].owner) && NulFree(records[k].group)
    ensures NulFree(FileText(records))
  {
    if records != [] {
      LineNulFree(records[0]);
      FileTextNulFree(records[1..]);
    }
  }

  ghost predicate Storable(records: seq<Meta>) {
    forall k :: 0 <= k < |records| ==> Readable(records[k]) && NulFree(records[k].owner) && NulFree(records[k].group)
  }

  /**
   The two ends together: what the metadata thread stores for a host, whatever else is in the queue and
   whatever the host's file held before, is what the server lists for it.
   */
  method StoreThenList(meta: MetaFiles, host: string, ghost before: seq<Meta>, queue: seq<Queued>, q: Query)
      returns (fileList: seq<Meta>)
    requires Content(meta.files, host) == FileText(before)
    requires Storable(before + OfHost(queue, host))
    modifies meta
    ensures fileList == Reverse(Wanted(before + OfHost(queue, host), q))
    ensures forall m :: m in fileList <==>
      && m in before + OfHost(queue, host) && q.nameMatches(m.name) && q.dateMatches(m.mtime)
      && m.owner == q.owner && m.group == q.group && m.uid == q.uid && m.gid == q.gid
  {
    ghost var records := before + OfHost(queue, host);
    meta.MetaDataThread(queue);
    FileTextAppend(before, OfHost(queue, host));
    FileTextNulFree(records);
    fileList := GetFileList(Content(meta.files, host), q);
    WholeFileRoundTrip(records, q);
    forall m ensures m in fileList <==>
      && m in records && q.nameMatches(m.name) && q.dateMatches(m.mtime)
      && m.owner == q.owner && m.group == q.group && m.uid == q.uid && m.gid == q.gid
    {
      ListedIff(records, q, m);
    }
  }
}
