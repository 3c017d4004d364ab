/**
 Which metadata files read back whole: exactly those all of whose records are readable. A record that is
 not is lost, and one with unbalanced quotes takes the records after it with it.
 */
module MetaFileLoss {
  import opened Blocks
  import BlockLists
  import opened Base64
  import opened Numbers
  import opened Records
  import opened MetaReader
  import opened MetaFile

  /** Every query gets exactly the records it matches. */
  ghost predicate ReadsBackWhole(records: seq<Meta>) {
    forall q :: Answer(FileText(records), q) == Reverse(Wanted(records, q))
  }

  /** The query for the user and group of a record, any name and date. */
  function QueryFor(m: Meta): Query {
    Query(m.uid, m.gid, m.owner, m.group, _ => true, _ => true)
  }

  // ---------- commas in an owner or a group ----------

  lemma {:induction false} WantedIsListed(records: seq<Meta>, q: Query, k: nat)
    requires k < |records| && Matches(q, records[k])
    ensures records[k] in Wanted(records, q)
  {
    if k > 0 {
      WantedIsListed(records[1..], q, k - 1);
    }
  }

  lemma CommaIsLost(records: seq<Meta>, k: nat)
    requires k < |records| && !(CommaFree(records[k].owner) && CommaFree(records[k].group))
    ensures var q := QueryFor(records[k]); Answer(FileText(records), q) != Reverse(Wanted(records, q))
  {
    var q, text := QueryFor(records[k]), FileText(records);
    var answer, wanted := Answer(text, q), Reverse(Wanted(records, q));
    WantedIsListed(records, q, k);
    BlockLists.SameElements(Wanted(records, q));
    if answer == wanted {
      BlockLists.SameElements(Selected(Lines(text), Parser(q)));
      NothingWithCommaSelected(Lines(text), q, records[k]);
      assert false;
    }
  }

  // ---------- a line whose newline is passed over ----------

  lemma {:induction false} EndsAtNewline(s: string, st: Scan)
    requires !Open(s, st)
    ensures s[LineLength(s, st)] == '\n'
  {
    if s != "" && !Ends(Next(st, s[0]), s[0]) {
      EndsAtNewline(s[1..], Next(st, s[0]));
    }
  }

  /** The first column of what follows, and the rest of it. */
  lemma NextRecordStarts(rest: seq<Meta>) returns (c: string, more: string)
    requires rest != []
    ensures FileText(rest) == c + ", " + more
    ensures CommaFree(c) && forall k :: 0 <= k < |c| ==> c[k] != '\n'
  {
    var m := rest[0];
    c := PrintInt(m.fileType);
    PrintIntChars(m.fileType);
    var columns := Columns(m) + HashColumn(m);
    assert columns[0] == c;
    var tail := Join(columns[1..]);
    more := tail + "\n" + FileText(rest[1..]);
    assert (c + ", " + tail) + "\n" + FileText(rest[1..]) == c + ", " + (tail + "\n" + FileText(rest[1..]));
  }

  /** If the reader finds an end at all, it has read past the first comma of the next record. */
  lemma MergedLine(bad: Meta, rest: seq<Meta>)
    requires CommaFree(bad.owner) && CommaFree(bad.group) && !NewlineFound(bad)
    ensures var text := Line(bad) + "\n" + FileText(rest);
      Lines(text) != [] ==> exists c, z :: CommaFree(c) && Lines(text)[0] == Line(bad) + "\n" + (c + ", " + z)
  {
    var text, first, tail := Line(bad) + "\n" + FileText(rest), Line(bad) + "\n", FileText(rest);
    var n := LineLength(text, START);
    if n < |text| {
      FirstLine(bad, "");
      assert Open(first, START);
      RunAppend(first, tail, START);
      var st := Run(first, START);
      var k := LineLength(tail, st);
      assert n == |first| + k;
      assert rest != [];
      var c, more := NextRecordStarts(rest);
      EndsAtNewline(tail, st);
      PastFirstComma(tail, c, more, k);
      MergedText(first, tail, k);
      assert Lines(text)[0] == first + (c + ", " + more[..k - |c| - 2]);
    }
  }

  lemma PastFirstComma(tail: string, c: string, more: string, k: nat)
    requires tail == c + ", " + more && k < |tail| && tail[k] == '\n'
    requires forall i :: 0 <= i < |c| ==> c[i] != '\n'
    ensures k >= |c| + 2 && tail[..k] == c + ", " + more[..k - |c| - 2]
  {
    assert tail[|c|] == ',' && tail[|c| + 1] == ' ';
    assert forall i :: 0 <= i < |c| ==> tail[i] == c[i];
  }

  lemma MergedText(first: string, tail: string, k: nat)
    requires k <= |tail|
    ensures (first + tail)[..|first| + k] == first + tail[..k]
  {
  }

  // ---------- what such a line is read as ----------

  function Commas(s: string): nat {
    if s == "" then 0 else (if s[0] == ',' then 1 else 0) + Commas(s[1..])
  }

  lemma {:induction false} CommasAppend(a: string, b: string)
    ensures Commas(a + b) == Commas(a) + Commas(b)
  {
    if a == "" {
      assert a + b == b;
    } else {
      assert (a + b)[1..] == a[1..] + b;
      CommasAppend(a[1..], b);
    }
  }

  lemma {:induction false} PieceCount(piece: string, s: string, max: nat)
    requires max > Commas(s)
    ensures |Split(piece, s, max)| == Commas(s) + 1
    decreases |s|
  {
    if max > 1 && s != "" {
      if s[0] == ',' {
        PieceCount("", s[1..], max - 1);
      } else {
        PieceCount(piece + [s[0]], s[1..], max);
      }
    }
  }

  lemma {:induction false} FewCommas(s: string)
    ensures Commas(s) <= |s|
  {
    if s != "" {
      FewCommas(s[1..]);
    }
  }

  /** A list names one more hash than it has commas. */
  lemma NamedCount(list: string)
    requires list != ""
    ensures |Named(Some(list))| == Commas(list) + 1
  {
    FewCommas(list);
    PieceCount("", list, |list| + 1);
  }

  /** The columns of the merged line: as printed, up to the name; then something longer. */
  lemma MergedColumns(bad: Meta, c: string, z: string) returns (columns: seq<string>)
    requires CommaFree(bad.owner) && CommaFree(bad.group) && CommaFree(c)
    ensures |columns| == 14 && forall k :: 0 <= k < 12 ==> columns[k] == Columns(bad)[k]
    ensures Split("", Line(bad) + "\n" + (c + ", " + z), 14) == Parts("", columns)
    ensures |Named(Some(" " + columns[13]))| > |bad.hashes|
  {
    if bad.hashes == [] {
      columns := MergedWithoutHashes(bad, c, z);
    } else {
      columns := MergedWithHashes(bad, c, z);
    }
    SplitJoin("", columns, 14);
    assert "" + Join(columns) == Join(columns);
  }

  /** Without hashes the beginning of the next record lands in the link, and the rest of it in the hashes. */
  lemma MergedWithoutHashes(bad: Meta, c: string, z: string) returns (columns: seq<string>)
    requires CommaFree(bad.owner) && CommaFree(bad.group) && CommaFree(c) && bad.hashes == []
    ensures |columns| == 14 && (forall k :: 0 <= k < 12 ==> columns[k] == Columns(bad)[k])
    ensures forall k :: 0 <= k < 13 ==> CommaFree(columns[k])
    ensures Join(columns) == Line(bad) + "\n" + (c + ", " + z)
    ensures |Named(Some(" " + columns[13]))| > 0
  {
    var printed := Columns(bad);
    ColumnsAreCommaFree(bad);
    assert printed + HashColumn(bad) == printed;
    columns := printed[..12] + [printed[12] + ("\n" + c), z];
    JoinTwo(printed, "\n" + c, z);
    assert (Join(printed) + ("\n" + c)) + ", " + z == Join(printed) + "\n" + (c + ", " + z);
    NamedCount(" " + z);
  }

  /** With hashes the whole next record lands in them. */
  lemma MergedWithHashes(bad: Meta, c: string, z: string) returns (columns: seq<string>)
    requires CommaFree(bad.owner) && CommaFree(bad.group) && CommaFree(c) && bad.hashes != []
    ensures |columns| == 14 && (forall k :: 0 <= k < 12 ==> columns[k] == Columns(bad)[k])
    ensures forall k :: 0 <= k < 13 ==> CommaFree(columns[k])
    ensures Join(columns) == Line(bad) + "\n" + (c + ", " + z)
    ensures |Named(Some(" " + columns[13]))| > |bad.hashes|
  {
    var printed, list, x := Columns(bad), HashColumn(bad)[0], c + ", " + z;
    ColumnsAreCommaFree(bad);
    columns := printed + [list + "\n" + x];
    JoinSnoc(printed, list);
    JoinSnoc(printed, list + "\n" + x);
    assert Join(printed) + ", " + (list + "\n" + x) == (Join(printed) + ", " + list) + "\n" + x;
    HashListRoundTrip(bad.hashes, " ");
    NamedCount(" " + list);
    NamedCount(" " + columns[13]);
    MoreCommas(list, c, z);
  }

  lemma MoreCommas(list: string, c: string, z: string)
    ensures Commas(" " + (list + "\n" + (c + ", " + z))) > Commas(" " + list)
  {
    var x := c + ", " + z;
    assert " " + (list + "\n" + x) == (" " + list) + ("\n" + x);
    CommasAppend(" " + list, "\n" + x);
    assert "\n" + x == ("\n" + c) + ("," + (" " + z));
    CommasAppend("\n" + c, "," + (" " + z));
  }

  /** Lengthening the last column and adding one. */
  lemma JoinTwo(columns: seq<string>, more: string, next: string)
    requires |columns| == 13
    ensures Join(columns[..12] + [columns[12] + more, next]) == (Join(columns) + more) + ", " + next
  {
    var init, last := columns[..12], columns[12];
    assert columns == init + [last];
    JoinSnoc(init, last);
    JoinSnoc(init, last + more);
    var longer := init + [last + more];
    JoinSnoc(longer, next);
    assert init + [last + more, next] == longer + [next];
    assert Join(init) + ", " + (last + more) == (Join(init) + ", " + last) + more;
  }

  /** The merged line is read as a record of the same user, group and name, with more hashes. */
  lemma MergedRecord(bad: Meta, c: string, z: string)
    requires CommaFree(bad.owner) && CommaFree(bad.group) && CommaFree(c)
    ensures var r := ExtractFromLine(Line(bad) + "\n" + (c + ", " + z), QueryFor(bad));
      r.Some? && r.value != bad
  {
    var line := Line(bad) + "\n" + (c + ", " + z);
    var columns := MergedColumns(bad, c, z);
    SameKey(bad, columns);
    assert |line| > 16 by { JoinLength(Columns(bad) + HashColumn(bad)); }
  }

  /** A line with the columns of a record up to its name is read as a record of its user, group and name. */
  lemma SameKey(m: Meta, columns: seq<string>)
    requires |columns| == 14 && forall k :: 0 <= k < 12 ==> columns[k] == Columns(m)[k]
    ensures var r := FromColumns(Parts("", columns));
      && Matches(QueryFor(m), r) && r.hashes == Named(Some(" " + columns[13]))
  {
    var params := Parts("", columns);
    SpacedColumns(m, columns, 12);
    SpacedNumbers(m, columns);
    NumbersRoundTrip(m, params);
    SubstringOfQuoted(m.owner);
    SubstringOfQuoted(m.group);
  }

  // ---------- the first record that is not readable ----------

  lemma {:induction false} WantedAppend(a: seq<Meta>, b: seq<Meta>, q: Query)
    ensures Wanted(a + b, q) == Wanted(a, q) + Wanted(b, q)
  {
    if a == [] {
      assert a + b == b;
    } else {
      assert (a + b)[1..] == a[1..] + b;
      WantedAppend(a[1..], b, q);
    }
  }

  lemma {:induction false} FirstSelected(lines: seq<string>, parse: string -> Option<Meta>)
    requires lines != [] && parse(lines[0]).Some?
    ensures Selected(lines, parse) != [] && Selected(lines, parse)[0] == parse(lines[0]).value
  {
    if |lines| > 1 {
      FirstSelected(lines[..|lines| - 1], parse);
    } else {
      assert Selected(lines[..0], parse) == [];
    }
  }

  /** What is selected after the readable records does not begin with the unreadable one. */
  lemma NotSelected(bad: Meta, rest: seq<Meta>)
    requires CommaFree(bad.owner) && CommaFree(bad.group) && !NewlineFound(bad)
    ensures var found := Selected(Lines(Line(bad) + "\n" + FileText(rest)), Parser(QueryFor(bad)));
      found == [] || found[0] != bad
  {
    var lines := Lines(Line(bad) + "\n" + FileText(rest));
    MergedLine(bad, rest);
    if lines != [] {
      var c, z :| CommaFree(c) && lines[0] == Line(bad) + "\n" + (c + ", " + z);
      MergedRecord(bad, c, z);
      FirstSelected(lines, Parser(QueryFor(bad)));
    }
  }

  lemma ReverseTwice<T>(s: seq<T>)
    ensures Reverse(Reverse(s)) == s
  {
  }

  lemma NotTheSame<T>(a: seq<T>, found: seq<T>, x: T, rest: seq<T>)
    requires found == [] || found[0] != x
    ensures Reverse(a + found) != Reverse(a + ([x] + rest))
  {
    ReverseTwice(a + found);
    ReverseTwice(a + ([x] + rest));
    var s, t := a + found, a + ([x] + rest);
    assert t[|a|] == x;
    if found != [] {
      assert s[|a|] == found[0];
    }
  }

  lemma PassedOverIsLost(before: seq<Meta>, bad: Meta, rest: seq<Meta>)
    requires forall k :: 0 <= k < |before| ==> Readable(before[k])
    requires CommaFree(bad.owner) && CommaFree(bad.group) && !NewlineFound(bad)
    ensures var records, q := before + ([bad] + rest), QueryFor(bad);
      Answer(FileText(records), q) != Reverse(Wanted(records, q))
  {
    var q, tail := QueryFor(bad), Line(bad) + "\n" + FileText(rest);
    var records := before + ([bad] + rest);
    FileTextAppend(before, [bad] + rest);
    assert ([bad] + rest)[1..] == rest;
    LinesOfFile(before, tail);
    SelectedAppend(LinesOf(before), Lines(tail), Parser(q));
    ReadableLines(before, q);
    WantedAppend(before, [bad] + rest, q);
    NotSelected(bad, rest);
    NotTheSame(Wanted(before, q), Selected(Lines(tail), Parser(q)), bad, Wanted(rest, q));
  }

  /**
   A host's file reads back, for every query, exactly the records it matches if and only if every record in
   it is readable: no comma in an owner or group, and quotes that let the reader find each newline.
   */
  lemma ReadsBackWholeIff(records: seq<Meta>)
    ensures ReadsBackWhole(records) <==> forall k :: 0 <= k < |records| ==> Readable(records[k])
  {
    if k :| 0 <= k < |records| && !(CommaFree(records[k].owner) && CommaFree(records[k].group)) {
      CommaIsLost(records, k);
    } else if j :| 0 <= j < |records| && !Readable(records[j]) {
      var k := FirstUnreadable(records, j);
      assert records == records[..k] + ([records[k]] + records[k + 1..]);
      PassedOverIsLost(records[..k], records[k], records[k + 1..]);
    } else {
      forall q ensures Answer(FileText(records), q) == Reverse(Wanted(records, q)) {
        WholeFileRoundTrip(records, q);
      }
    }
  }

  lemma {:induction false} FirstUnreadable(records: seq<Meta>, j: nat) returns (k: nat)
    requires j < |records| && !Readable(records[j])
    ensures k < |records| && !Readable(records[k]) && forall i :: 0 <= i < k ==> Readable(records[i])
    decreases j
  {
    k := j;
    if i :| 0 <= i < j && !Readable(records[i]) {
      k := FirstUnreadable(records, i);
    }
  }

  // ---------- what an unbalanced record takes with it ----------

  /** An ordinary record: no quote, comma or newline in its owner and group. */
  ghost predicate Ordinary(m: Meta) {
    Plain(Quoted(m.owner)) && Plain(Quoted(m.group))
  }

  lemma OrdinaryLineIsPassedOver(m: Meta, st: Scan)
    requires Ordinary(m) && st.inString
    ensures Open(Line(m) + "\n", st) && Run(Line(m) + "\n", st) == st
  {
    OtherColumnsArePlain(m);
    LineShape(m);
    var columns := Columns(m)[..7] + ([Quoted(m.owner), Quoted(m.group)] + LastColumns(m));
    JoinAppend(Columns(m)[..7], [Quoted(m.owner), Quoted(m.group)] + LastColumns(m));
    JoinOfTwo(Quoted(m.owner), Quoted(m.group), LastColumns(m));
    RunPlain(columns, st);
    RunAppend(Line(m), "\n", st);
    assert "\n"[1..] == "";
  }

  lemma JoinOfTwo(a: string, b: string, rest: seq<string>)
    requires rest != []
    ensures Join([a, b] + rest) == a + ", " + (b + ", " + Join(rest))
  {
    assert ([a, b] + rest)[1..] == [b] + rest && ([b] + rest)[1..] == rest;
  }

  lemma {:induction false} OrdinaryFileIsPassedOver(records: seq<Meta>, st: Scan)
    requires st.inString && forall k :: 0 <= k < |records| ==> Ordinary(records[k])
    ensures Open(FileText(records), st)
  {
    if records != [] {
      OrdinaryLineIsPassedOver(records[0], st);
      OrdinaryFileIsPassedOver(records[1..], st);
      RunAppend(Line(records[0]) + "\n", FileText(records[1..]), st);
    }
  }

  /**
   A record with unbalanced quotes in its owner and group, and every ordinary record stored after it, is
   listed for no query at all: the file answers as if it ended before that record.
   */
  lemma UnbalancedHidesTheRest(before: seq<Meta>, bad: Meta, rest: seq<Meta>, q: Query)
    requires forall k :: 0 <= k < |before| ==> Readable(before[k])
    requires CommaFree(bad.owner) && CommaFree(bad.group) && OddQuotes(bad.owner) != OddQuotes(bad.group)
    requires forall k :: 0 <= k < |rest| ==> Ordinary(rest[k])
    ensures Answer(FileText(before + ([bad] + rest)), q) == Reverse(Wanted(before, q))
  {
    var first, tail := Line(bad) + "\n", FileText(rest);
    FileTextAppend(before, [bad] + rest);
    assert ([bad] + rest)[1..] == rest;
    RunLine(bad);
    RunAppend(Line(bad), "\n", START);
    FirstLine(bad, "");
    OrdinaryFileIsPassedOver(rest, Run(first, START));
    RunAppend(first, tail, START);
    FileRoundTrip(before, first + tail, q);
  }
}
