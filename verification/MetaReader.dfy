/**
 Reading a metadata file back: the buffer-at-a-time reader that cuts the file into lines, and the list
 of records the server answers a query with.
 */
module MetaReader {
  import opened Blocks
  import opened Base64
  import opened Numbers
  import opened Records

  const FILE_BACKEND_BUFFER_SIZE := 65536

  // ---------- lines of a text ----------

  /** What the reader counts along a line: commas outside quotes, and whether it is inside quotes. */
  datatype Scan = Scan(commas: nat, inString: bool)

  const START := Scan(0, false)

  function Next(st: Scan, c: char): Scan {
    if c == '"' then st.(inString := !st.inString)
    else if c == ',' && !st.inString then st.(commas := st.commas + 1)
    else st
  }

  predicate Ends(st: Scan, c: char) {
    c == '\n' && !st.inString && st.commas >= 12
  }

  /** Where the line that starts here ends: the position of its newline, or |s| if it has none. */
  function LineLength(s: string, st: Scan): (n: nat)
    ensures n <= |s|
  {
    if s == "" || Ends(Next(st, s[0]), s[0]) then 0 else 1 + LineLength(s[1..], Next(st, s[0]))
  }

  /** The counts after all of s. */
  function Run(s: string, st: Scan): Scan {
    if s == "" then st else Run(s[1..], Next(st, s[0]))
  }

  /** No line ends within s. */
  predicate Open(s: string, st: Scan) {
    LineLength(s, st) == |s|
  }

  lemma {:induction false} RunAppend(a: string, b: string, st: Scan)
    ensures Run(a + b, st) == Run(b, Run(a, st))
    ensures LineLength(a + b, st) == if Open(a, st) then |a| + LineLength(b, Run(a, st)) else LineLength(a, st)
  {
    if a == "" {
      assert a + b == b;
    } else {
      assert (a + b)[1..] == a[1..] + b;
      RunAppend(a[1..], b, Next(st, a[0]));
    }
  }

  /** The lines of a text that are ended; what follows the last of them is not a line. */
  function Lines(s: string): seq<string>
    decreases |s|
  {
    var n := LineLength(s, START);
    if n == |s| then [] else [s[..n]] + Lines(s[n + 1..])
  }

  /** The records a parser gets from a list of lines, in the order of the lines. */
  function Selected(lines: seq<string>, parse: string -> Option<Meta>): seq<Meta> {
    if lines == [] then []
    else
      var before := Selected(lines[..|lines| - 1], parse);
      match parse(lines[|lines| - 1])
      case Some(m) => before + [m]
      case None => before
  }

  function Parser(q: Query): string -> Option<Meta> {
    line => ExtractFromLine(line, q)
  }

  /** The answer to a query on a file: latest record first. */
  function Answer(text: string, q: Query): seq<Meta> {
    Reverse(Selected(Lines(text), Parser(q)))
  }

  // ---------- the reader ----------

  ghost predicate NulFree(s: string) {
    forall k :: 0 <= k < |s| ==> s[k] != '\0'
  }

  /** buffer_t; `stream` is the part of the file that has not been read yet. */
  class MetaBuffer {
    var buf: seq<char>
    var size: nat
    var pos: nat
    var stream: string

    /** Between two lines: what was read is in the buffer, or the end of the file was met. */
    ghost predicate Valid()
      reads this
    {
      && |buf| == FILE_BACKEND_BUFFER_SIZE + 1
      && size <= FILE_BACKEND_BUFFER_SIZE
      && (if size == 0 then stream == "" else pos <= size)
    }

    /** The text still to be cut into lines. */
    ghost function Unread(): string
      requires Valid()
      reads this
    {
      if size == 0 then "" else buf[pos..size] + stream
    }

    /** init_buffer_structure */
    constructor (text: string)
      ensures |buf| == FILE_BACKEND_BUFFER_SIZE + 1 && size == 0 && pos == 0 && stream == text
    {
      buf := seq(FILE_BACKEND_BUFFER_SIZE + 1, _ => '\0');
      size, pos, stream := 0, 0, text;
    }

    /**
     read_one_buffer: a read overwrites the beginning of the buffer with any positive number of bytes
     that fits, until the file is used up.
     */
    method ReadOneBuffer()
      requires |buf| == FILE_BACKEND_BUFFER_SIZE + 1
      modifies this
      ensures Valid() && pos == 0
      ensures size == 0 <==> old(stream) == ""
      ensures buf[..size] + stream == old(stream) && size <= 65536 < |buf|
    {
      pos := 0;
      if stream == "" {
        size := 0;
      } else {
        var n: nat :| 1 <= n <= |stream| && n <= FILE_BACKEND_BUFFER_SIZE;
        buf := stream[..n] + buf[n..];
        size := n;
        stream := stream[n..];
      }
    }

    /** The passes of extract_one_line_from_buffer's loop over what is left of this buffer. */
    method ScanBuffer(from: nat, before: Scan) returns (i: nat, st: Scan, end: bool)
      requires Valid() && from <= size
      ensures i <= size && i - from == LineLength(buf[from..size], before)
      ensures end <==> i < size
      ensures !end ==> st == Run(buf[from..size], before)
    {
      ghost var s := buf[from..size];
      i, end := from, false;
      var commas, inString := before.commas, before.inString;
      while !end && i < size
        invariant from <= i <= size
        invariant end ==> i < size && Ends(Next(Scan(commas, inString), s[i - from]), s[i - from])
        invariant LineLength(s, before) == (i - from) + LineLength(s[i - from..], Scan(commas, inString))
        invariant Run(s, before) == Run(s[i - from..], Scan(commas, inString))
        decreases !end, size - i
      {
        assert s[i - from..][1..] == s[i + 1 - from..];
        if buf[i] == '"' {
          inString := !inString;
        } else if buf[i] == ',' && !inString {
          commas := commas + 1;
        }
        if buf[i] == '\n' && !inString && commas >= 12 {
          end := true;
        } else {
          i := i + 1;
        }
      }
      st := Scan(commas, inString);
    }

    /** The line goes on in the next buffer: keeps what this one holds of it and reads on. */
    method NextBuffer(whole: string, i: nat, ghost text: string) returns (longer: string)
      requires Valid() && size > 0 && i == size
      requires NulFree(text) && text == whole + (buf[pos..size] + stream)
      modifies this
      ensures Valid() && pos == 0 && (size == 0 <==> old(stream) == "")
      ensures longer == whole + old(buf[pos..size]) && text == longer + old(stream)
      ensures buf[..size] + stream == old(stream)
    {
      NulFreePart(text, whole, buf[pos..size], stream);
      longer := whole + UpTo(buf[pos..i], '\0');
      ReadOneBuffer();
    }

    /** The line ends at i, or the file has ended: the last piece, and the position after the newline. */
    method TakeLine(whole: string, i: nat, ghost text: string, ghost n: nat) returns (line: string)
      requires Valid() && NulFree(text) && n == |whole| + (i - pos)
      requires if size == 0 then i == pos == 0 && text == whole
               else pos <= i < size && text == whole + (buf[pos..size] + stream)
      modifies this`pos
      ensures Valid() && n <= |text| && line == text[..n] && (n == |text| <==> size == 0)
      ensures Unread() == if n == |text| then "" else text[n + 1..]
    {
      if size > 0 {
        LineDone(text, whole, buf, pos, i, size, stream, n);
      }
      line := whole + UpTo(buf[pos..i], '\0');
      pos := i + 1;
    }

    /** extract_one_line_from_buffer; not called again once the end of the file was met. */
    method ExtractOneLine() returns (line: string)
      requires Valid() && NulFree(Unread()) && (size == 0 ==> pos == 0)
      modifies this
      ensures Valid()
      ensures var text := old(Unread()); var n := LineLength(text, START);
        && line == text[..n]
        && if n == |text| then size == 0 && Unread() == "" else size > 0 && Unread() == text[n + 1..]
    {
      ghost var text, rest := Unread(), Unread();
      ghost var n := LineLength(text, START);
      var whole, i, st, end := "", pos, START, false;
      while !end && size != 0
        invariant Valid() && rest == if size == 0 then "" else buf[pos..size] + stream
        invariant !end ==> i == pos && (size == 0 ==> pos == 0) && n == |whole| + LineLength(rest, st)
        invariant text == whole + rest
        invariant end ==> pos <= i < size && n == |whole| + (i - pos)
        decreases !end, size != 0, |stream|
      {
        RunAppend(buf[pos..size], stream, st);
        i, st, end := ScanBuffer(pos, st);
        if !end {
          rest := stream;
          whole := NextBuffer(whole, i, text);
          i := 0;
        }
      }
      line := TakeLine(whole, i, text, n);
    }
  }

  /** A line that ends at i of the buffer: the line, and the text after its newline. */
  lemma LineDone(text: string, whole: string, buf: string, lo: nat, i: nat, hi: nat, stream: string, n: nat)
    requires lo <= i < hi <= |buf| && n == |whole| + (i - lo)
    requires NulFree(text) && text == whole + (buf[lo..hi] + stream)
    ensures UpTo(buf[lo..i], '\0') == buf[lo..i]
    ensures n < |text| && text[..n] == whole + buf[lo..i] && text[n + 1..] == buf[i + 1..hi] + stream
  {
    assert buf[lo..hi] == buf[lo..i] + buf[i..hi];
    NulFreePart(text, whole, buf[lo..i], buf[i..hi] + stream);
  }

  lemma NulFreePart(text: string, before: string, part: string, after: string)
    requires NulFree(text) && text == before + (part + after)
    ensures UpTo(part, '\0') == part && text == (before + part) + after
  {
    forall k | 0 <= k < |part| ensures part[k] != '\0' {
      assert text[|before| + k] == part[k];
    }
    NothingToCut(part, '\0');
  }

  /** Whatever the file holds, what is listed passes the six tests of the query. */
  lemma {:induction false} SelectedPassTests(lines: seq<string>, q: Query, m: Meta)
    requires m in Selected(lines, Parser(q))
    ensures q.nameMatches(m.name) && q.dateMatches(m.mtime)
    ensures m.owner == q.owner && m.group == q.group && m.uid == q.uid && m.gid == q.gid
    decreases |lines|
  {
    var n := |lines| - 1;
    if m in Selected(lines[..n], Parser(q)) {
      SelectedPassTests(lines[..n], q, m);
    }
  }

  lemma AnswerPassesTests(text: string, q: Query)
    ensures forall m :: m in Answer(text, q) ==>
      && q.nameMatches(m.name) && q.dateMatches(m.mtime)
      && m.owner == q.owner && m.group == q.group && m.uid == q.uid && m.gid == q.gid
  {
    forall m | m in Answer(text, q)
      ensures q.nameMatches(m.name) && q.dateMatches(m.mtime)
      ensures m.owner == q.owner && m.group == q.group && m.uid == q.uid && m.gid == q.gid
    {
      SelectedPassTests(Lines(text), q, m);
    }
  }

  /** get_file_list_from_regex_and_query, on a file that holds `text`. */
  method GetFileList(text: string, q: Query) returns (fileList: seq<Meta>)
    requires NulFree(text)
    ensures fileList == Answer(text, q)
    ensures forall m :: m in fileList ==>
      && q.nameMatches(m.name) && q.dateMatches(m.mtime)
      && m.owner == q.owner && m.group == q.group && m.uid == q.uid && m.gid == q.gid
  {
    var buffer := new MetaBuffer(text);
    buffer.ReadOneBuffer();
    assert buffer.Unread() == text;
    fileList := [];
    ghost var seen, left, all := [], Lines(text), Lines(text);
    var more := true;
    while more
      invariant buffer.Valid() && NulFree(buffer.Unread())
      invariant more && buffer.size == 0 ==> buffer.pos == 0
      invariant left == if more then Lines(buffer.Unread()) else []
      invariant all == seen + left
      invariant fileList == Reverse(Selected(seen, Parser(q)))
      decreases more, |buffer.Unread()|
    {
      ghost var rest := buffer.Unread();
      var line;
      line, fileList := ReadOneRecord(buffer, q, fileList, seen);
      if buffer.size != 0 {
        Shift(seen, left);
        seen, left := seen + [line], left[1..];
      }
      more := buffer.size != 0;
    }
    assert seen == all;
    AnswerPassesTests(text, q);
  }

  /** A turn of get_file_list_from_regex_and_query: one more line, unless the file has ended. */
  method ReadOneRecord(buffer: MetaBuffer, q: Query, fileList: seq<Meta>, ghost seen: seq<string>)
      returns (line: string, longer: seq<Meta>)
    requires buffer.Valid() && NulFree(buffer.Unread()) && (buffer.size == 0 ==> buffer.pos == 0)
    requires fileList == Reverse(Selected(seen, Parser(q)))
    modifies buffer
    ensures buffer.Valid() && NulFree(buffer.Unread())
    ensures Lines(old(buffer.Unread())) == if buffer.size == 0 then [] else [line] + Lines(buffer.Unread())
    ensures longer == Reverse(Selected(if buffer.size == 0 then seen else seen + [line], Parser(q)))
    ensures buffer.size != 0 ==> |buffer.Unread()| < |old(buffer.Unread())|
  {
    ghost var text := buffer.Unread();
    line := buffer.ExtractOneLine();
    NextLine(text, line, buffer.Unread());
    longer := fileList;
    if buffer.size != 0 {
      longer := AddIfSelected(line, q, fileList, seen);
    }
  }

  /** A selected record is prepended. */
  method AddIfSelected(line: string, q: Query, fileList: seq<Meta>, ghost seen: seq<string>)
      returns (longer: seq<Meta>)
    requires fileList == Reverse(Selected(seen, Parser(q)))
    ensures longer == Reverse(Selected(seen + [line], Parser(q)))
  {
    SelectOneMore(seen, line, Parser(q));
    longer := match ExtractFromLine(line, q) case Some(m) => [m] + fileList case None => fileList;
  }

  lemma Shift<T>(seen: seq<T>, left: seq<T>)
    requires left != []
    ensures seen + left == (seen + [left[0]]) + left[1..]
  {
  }

  lemma NextLine(text: string, line: string, rest: string)
    requires var n := LineLength(text, START); line == text[..n] && (n < |text| ==> rest == text[n + 1..])
    ensures Lines(text) == if LineLength(text, START) == |text| then [] else [line] + Lines(rest)
  {
  }

  lemma SelectOneMore(seen: seq<string>, line: string, parse: string -> Option<Meta>)
    ensures Reverse(Selected(seen + [line], parse)) ==
      match parse(line) case Some(m) => [m] + Reverse(Selected(seen, parse)) case None => Reverse(Selected(seen, parse))
  {
    assert (seen + [line])[..|seen|] == seen;
  }
}
