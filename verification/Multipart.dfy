/**
 Uploading an object in parts: how its length is cut up, and the text that closes the upload, which goes
 through a growing buffer.
 */
module Multipart {
  import opened Blocks
  import opened Numbers
  import opened GrowBuffers

  const MULTIPART_CHUNK_SIZE := 805306368

  // ---------- the parts ----------

  function Sum(parts: seq<int>): int {
    if parts == [] then 0 else Sum(parts[..|parts| - 1]) + parts[|parts| - 1]
  }

  /** A cut into full chunks and a last part that is not empty and not longer. */
  ghost predicate Cut(parts: seq<int>, length: int) {
    && Sum(parts) == length
    && (forall k :: 0 <= k < |parts| - 1 ==> parts[k] == MULTIPART_CHUNK_SIZE)
    && (parts != [] ==> 0 < parts[|parts| - 1] <= MULTIPART_CHUNK_SIZE)
  }

  lemma {:induction false} SumOfChunks(parts: seq<int>)
    requires forall k :: 0 <= k < |parts| ==> parts[k] == MULTIPART_CHUNK_SIZE
    ensures Sum(parts) == |parts| * MULTIPART_CHUNK_SIZE
  {
    if parts != [] {
      SumOfChunks(parts[..|parts| - 1]);
    }
  }

  /** The longest object whose number of parts is an int. */
  const COUNTED := 0x7FFF_FFFF * MULTIPART_CHUNK_SIZE

  /** The longest object whose parts the loop gets past: its counter is an int too, and must reach one more. */
  const LONGEST := 0x7FFF_FFFE * MULTIPART_CHUNK_SIZE

  /** totalSeq: the rounded-up quotient, on uint64, then converted to int. */
  function TotalSeq(contentLength: uint64): (n: int32)
    ensures contentLength <= COUNTED ==> (n - 1) * MULTIPART_CHUNK_SIZE < contentLength <= n * MULTIPART_CHUNK_SIZE
    ensures contentLength > COUNTED ==> n * MULTIPART_CHUNK_SIZE < contentLength
    ensures contentLength + MULTIPART_CHUNK_SIZE > 0x1_0000_0000_0000_0000 ==> n == 0
  {
    var rounded := (contentLength + MULTIPART_CHUNK_SIZE - 1) % 0x1_0000_0000_0000_0000;
    Signed((rounded / MULTIPART_CHUNK_SIZE) % 0x1_0000_0000)
  }

  /**
   The part loop of put_object, for an upload that is not resumed and whose parts are all accepted. It stops
   where its counter would overflow. The parts cut up the object, and the loop ends, exactly for lengths of up to
   LONGEST; beyond, either the counter overflows or data is missing.
   */
  method UploadParts(length: uint64) returns (parts: seq<int>, overflow: bool)
    requires length > MULTIPART_CHUNK_SIZE
    ensures Cut(parts, length) && !overflow <==> length <= LONGEST
    ensures length <= LONGEST ==> |parts| == (length + 805306367) / 805306368
    ensures overflow <==> TotalSeq(length) == 0x7FFF_FFFF
    ensures length > LONGEST && !overflow ==> Sum(parts) < length
  {
    var contentLength: uint64 := length;
    var totalSeq: int32 := TotalSeq(length);
    parts, overflow := [], false;
    var seqNo: int32 := 1;
    while seqNo <= totalSeq && !overflow
      invariant seqNo >= 1 && |parts| == (if overflow then seqNo else seqNo - 1)
      invariant !overflow ==> seqNo <= totalSeq + 1 || parts == []
      invariant overflow ==> seqNo == totalSeq == 0x7FFF_FFFF
      invariant |parts| * MULTIPART_CHUNK_SIZE < length ==>
        && contentLength == length - |parts| * MULTIPART_CHUNK_SIZE
        && forall k :: 0 <= k < |parts| ==> parts[k] == MULTIPART_CHUNK_SIZE
      invariant |parts| * MULTIPART_CHUNK_SIZE >= length ==> Cut(parts, length)
      decreases totalSeq - seqNo, !overflow
    {
      var partContentLength :=
        if contentLength > MULTIPART_CHUNK_SIZE then MULTIPART_CHUNK_SIZE else contentLength;
      ghost var before := parts;
      SumOfChunksIf(before);
      parts := parts + [partContentLength];
      assert parts[..|before|] == before;
      contentLength := (contentLength - MULTIPART_CHUNK_SIZE) % 0x1_0000_0000_0000_0000;
      if seqNo == 0x7FFF_FFFF {
        overflow := true;
      } else {
        seqNo := seqNo + 1;
      }
    }
    SumOfChunksIf(parts);
    if length <= LONGEST {
      QuotientIs(length + MULTIPART_CHUNK_SIZE - 1, MULTIPART_CHUNK_SIZE, totalSeq);
    }
  }

  lemma SumOfChunksIf(parts: seq<int>)
    ensures (forall k :: 0 <= k < |parts| ==> parts[k] == MULTIPART_CHUNK_SIZE)
            ==> Sum(parts) == |parts| * MULTIPART_CHUNK_SIZE
  {
    if forall k :: 0 <= k < |parts| ==> parts[k] == MULTIPART_CHUNK_SIZE {
      SumOfChunks(parts);
    }
  }

  // ---------- the closing text ----------

  /** A string of C: it holds no NUL. */
  type CText = s: string | '\0' !in s witness ""

  function Part(number: nat, etag: CText): CText {
    "<Part><PartNumber>" + Digits(number) + "</PartNumber>" + "<ETag>" + etag + "</ETag></Part>"
  }

  /** sizeof(buf) */
  const LINE_BUFFER := 256

  /**
   What is taken over of a line printed into the buffer of 256 characters, as many as the line would have: the
   line if it fits, and else its beginning, the final NUL, and what happens to lie behind the buffer.
   */
  ghost predicate Printed(piece: string, line: string) {
    && |piece| == |line|
    && if |line| < LINE_BUFFER then piece == line
       else piece[..LINE_BUFFER - 1] == line[..LINE_BUFFER - 1] && piece[LINE_BUFFER - 1] == '\0'
  }

  lemma PrintedWholeIff(piece: string, line: CText)
    requires Printed(piece, line)
    ensures piece == line <==> |line| < LINE_BUFFER
  {
    if |line| >= LINE_BUFFER {
      assert line[LINE_BUFFER - 1] in line;
    }
  }

  function PartsText(etags: seq<CText>): string {
    if etags == [] then ""
    else PartsText(etags[..|etags| - 1]) + Part(|etags|, etags[|etags| - 1])
  }

  const OPENING := "<CompleteMultipartUpload>"
  const CLOSING := "</CompleteMultipartUpload>"

  ghost predicate AllShort(etags: seq<CText>) {
    forall i :: 0 <= i < |etags| ==> |Part(i + 1, etags[i])| < LINE_BUFFER
  }

  /** What was taken over for each part. */
  ghost predicate AllPrinted(pieces: seq<string>, etags: seq<CText>) {
    |pieces| == |etags| && forall i :: 0 <= i < |etags| ==> Printed(pieces[i], Part(i + 1, etags[i]))
  }

  /** Exactly the lines fit whose number and tag have no more than 204 characters between them. */
  lemma AllShortIff(etags: seq<CText>)
    ensures AllShort(etags) <==> forall i :: 0 <= i < |etags| ==> |etags[i]| + |Digits(i + 1)| <= 204
  {
    assert forall i :: 0 <= i < |etags| ==> |Part(i + 1, etags[i])| == 51 + |etags[i]| + |Digits(i + 1)|;
  }

  /** A tag of 204 characters or more makes its line too long for the buffer. */
  lemma LongTagIsTooLong(etags: seq<CText>, i: nat)
    requires i < |etags| && |etags[i]| >= 204
    ensures !AllShort(etags)
  {
    assert |Part(i + 1, etags[i])| >= LINE_BUFFER;
  }

  lemma AllShortOrLast(etags: seq<CText>)
    requires etags != []
    ensures var n := |etags| - 1;
      AllShort(etags) <==> AllShort(etags[..n]) && |Part(|etags|, etags[n])| < LINE_BUFFER
  {
    var n := |etags| - 1;
    assert forall i :: 0 <= i < n ==> etags[..n][i] == etags[i];
  }

  /** The lines come out as they should exactly if each of them fits the buffer. */
  lemma {:induction false} PiecesAreTextIff(pieces: seq<string>, etags: seq<CText>)
    requires AllPrinted(pieces, etags)
    ensures |Concat(pieces)| == |PartsText(etags)|
    ensures Concat(pieces) == PartsText(etags) <==> AllShort(etags)
    decreases |etags|
  {
    if etags != [] {
      var n := |etags| - 1;
      OneMore(pieces, n);
      WholePrefix(pieces);
      ConcatOneMore(pieces[..n], pieces[n]);
      PiecesAreTextIff(pieces[..n], etags[..n]);
      AllShortOrLast(etags);
      PrintedWholeIff(pieces[n], Part(|etags|, etags[n]));
      SameHalves(Concat(pieces[..n]), pieces[n], PartsText(etags[..n]), Part(|etags|, etags[n]));
    } else {
      assert pieces == [];
    }
  }

  lemma BetweenIff(opening: string, pieces: seq<string>, etags: seq<CText>, closing: string)
    requires AllPrinted(pieces, etags)
    ensures |opening + Concat(pieces) + closing| == |opening + PartsText(etags) + closing|
    ensures opening + Concat(pieces) + closing == opening + PartsText(etags) + closing <==> AllShort(etags)
  {
    PiecesAreTextIff(pieces, etags);
    SameHalves(opening, Concat(pieces), opening, PartsText(etags));
    SameHalves(opening + Concat(pieces), closing, opening + PartsText(etags), closing);
  }

  lemma OneMorePrinted(pieces: seq<string>, etags: seq<CText>, i: nat, piece: string, before: string)
    requires i < |etags| && AllPrinted(pieces, etags[..i]) && Printed(piece, Part(i + 1, etags[i]))
    ensures AllPrinted(pieces + [piece], etags[..i + 1])
    ensures (before + Concat(pieces)) + piece == before + Concat(pieces + [piece])
  {
    ConcatOneMore(pieces, piece);
    Associative(before, Concat(pieces), piece);
    var pieces', etags' := pieces + [piece], etags[..i + 1];
    forall k | 0 <= k < |etags'| ensures Printed(pieces'[k], Part(k + 1, etags'[k])) {
      if k < i {
        assert etags'[k] == etags[..i][k] && pieces'[k] == pieces[k];
      }
    }
  }

  lemma SameHalves(a: string, b: string, c: string, d: string)
    requires |a| == |c|
    ensures a + b == c + d <==> a == c && b == d
  {
    if a + b == c + d {
      assert a == (a + b)[..|a|] && c == (c + d)[..|c|];
      assert b == (a + b)[|a|..] && d == (c + d)[|c|..];
    }
  }

  // ---------- reading the closing text ----------

  /** A part as a reader of the text sees it. */
  datatype Entry = Entry(number: nat, etag: string)

  /** What comes after a mark, if the text begins with it. */
  function After(s: string, mark: string): (rest: Option<string>)
    ensures rest.Some? ==> s == mark + rest.value
  {
    if |mark| <= |s| && s[..|mark|] == mark then Some(s[|mark|..]) else None
  }

  /** The text of one element, up to the mark that ends it, and what comes after. */
  function Element(s: string, end: string): (r: Option<(string, string)>) {
    var text := UpTo(s, '<');
    if |text| > |s| then None
    else match After(s[|text|..], end) case None => None case Some(rest) => Some((text, rest))
  }

  /** One part of a list of parts. */
  function ReadPart(s: string): Option<(Entry, string)> {
    match After(s, "<Part><PartNumber>")
    case None => None
    case Some(s1) =>
      match Element(s1, "</PartNumber><ETag>")
      case None => None
      case Some((number, s2)) =>
        match Element(s2, "</ETag></Part>")
        case None => None
        case Some((etag, rest)) => Some((Entry(ReadDigits(number, 0), etag), rest))
  }

  /** The parts a text lists, if it is such a list and nothing else. */
  function ReadParts(s: string): Option<seq<Entry>>
    decreases |s|
  {
    if s == "</CompleteMultipartUpload>" then Some([])
    else
      match ReadPart(s)
      case None => None
      case Some((entry, rest)) =>
        if |rest| >= |s| then None
        else match ReadParts(rest) case None => None case Some(others) => Some([entry] + others)
  }

  function ReadClosingText(s: string): Option<seq<Entry>> {
    match After(s, "<CompleteMultipartUpload>") case None => None case Some(rest) => ReadParts(rest)
  }

  /** The parts of an upload, numbered from 1. */
  function Numbered(etags: seq<CText>): seq<Entry> {
    seq(|etags|, i requires 0 <= i < |etags| => Entry(i + 1, etags[i]))
  }

  ghost predicate NoMarkup(etags: seq<CText>) {
    forall i :: 0 <= i < |etags| ==> '<' !in etags[i]
  }

  lemma AfterMark(mark: string, s: string)
    ensures After(mark + s, mark) == Some(s)
  {
  }

  lemma {:induction false} UpToMark(text: string, s: string)
    requires '<' !in text && s != "" && s[0] == '<'
    ensures UpTo(text + s, '<') == text
  {
    if text == "" {
      assert text + s == s;
    } else {
      assert (text + s)[1..] == text[1..] + s;
      UpToMark(text[1..], s);
    }
  }

  lemma ElementRead(text: string, end: string, s: string)
    requires '<' !in text && end != "" && end[0] == '<'
    ensures Element(text + (end + s), end) == Some((text, s))
  {
    UpToMark(text, end + s);
    AfterMark(end, s);
    assert (text + (end + s))[|text|..] == end + s;
  }

  /** A line reads as the number and the tag it was printed from. */
  lemma PartRead(number: nat, etag: CText, s: string)
    requires '<' !in etag
    ensures ReadPart(Part(number, etag) + s) == Some((Entry(number, etag), s))
  {
    var s2 := etag + ("</ETag></Part>" + s);
    var s1 := Digits(number) + ("</PartNumber><ETag>" + s2);
    assert Part(number, etag) + s == "<Part><PartNumber>" + s1;
    AfterMark("<Part><PartNumber>", s1);
    ElementRead(Digits(number), "</PartNumber><ETag>", s2);
    ElementRead(etag, "</ETag></Part>", s);
    ReadBack(number);
  }

  /** The lines from the k-th on. */
  function TextFrom(etags: seq<CText>, k: nat): string
    requires k <= |etags|
    decreases |etags| - k
  {
    if k == |etags| then "" else Part(k + 1, etags[k]) + TextFrom(etags, k + 1)
  }

  lemma {:induction false} TextInTwo(etags: seq<CText>, k: nat)
    requires k <= |etags|
    ensures PartsText(etags) == PartsText(etags[..k]) + TextFrom(etags, k)
    decreases |etags| - k
  {
    WholePrefix(etags);
    if k < |etags| {
      TextInTwo(etags, k + 1);
      assert etags[..k + 1][..k] == etags[..k];
      Associative(PartsText(etags[..k]), Part(k + 1, etags[k]), TextFrom(etags, k + 1));
    }
  }

  lemma FirstPartRead(number: nat, etag: CText, rest: string, others: seq<Entry>)
    requires '<' !in etag && ReadParts(rest) == Some(others)
    ensures ReadParts(Part(number, etag) + rest) == Some([Entry(number, etag)] + others)
  {
    PartRead(number, etag, rest);
    ClosingIsNoPart();
  }

  lemma ClosingIsNoPart()
    ensures ReadPart(CLOSING) == None
  {
    var mark := "<Part><PartNumber>";
    assert CLOSING[..|mark|][1] != mark[1];
  }

  lemma HeadOfRest<T>(s: seq<T>, k: nat)
    requires k < |s|
    ensures s[k..] == [s[k]] + s[k + 1..]
  {
  }

  lemma {:induction false} LinesRead(etags: seq<CText>, k: nat)
    requires k <= |etags| && NoMarkup(etags)
    ensures ReadParts(TextFrom(etags, k) + CLOSING) == Some(Numbered(etags)[k..])
    decreases |etags| - k
  {
    if k == |etags| {
      assert "" + CLOSING == CLOSING;
    } else {
      var rest := TextFrom(etags, k + 1) + CLOSING;
      LinesRead(etags, k + 1);
      FirstPartRead(k + 1, etags[k], rest, Numbered(etags)[k + 1..]);
      Associative(Part(k + 1, etags[k]), TextFrom(etags, k + 1), CLOSING);
      HeadOfRest(Numbered(etags), k);
    }
  }

  /** A reader of the closing text gets every part, with the number and the tag it has. */
  lemma ClosingTextRead(etags: seq<CText>)
    requires NoMarkup(etags)
    ensures ReadClosingText(OPENING + PartsText(etags) + CLOSING) == Some(Numbered(etags))
  {
    TextInTwo(etags, 0);
    LinesRead(etags, 0);
    assert PartsText(etags[..0]) + TextFrom(etags, 0) == TextFrom(etags, 0);
    assert OPENING + PartsText(etags) + CLOSING == OPENING + (PartsText(etags) + CLOSING);
    AfterMark(OPENING, PartsText(etags) + CLOSING);
  }

  class UploadManager {
    const gb: GrowBuffer
    var remaining: int

    constructor ()
      ensures fresh(gb) && fresh(gb.repr) && this !in gb.repr
      ensures gb.Valid() && gb.Ready() && gb.Text() == "" && remaining == 0
    {
      gb := new GrowBuffer();
      remaining := 0;
    }

    /** What is still to be delivered is what the buffer holds. */
    ghost predicate Counted()
      reads this, gb, gb.ring
    {
      gb.Valid() && this !in gb.repr && remaining == |gb.Text()|
    }

    /** snprintf into the buffer, and the characters that growbuffer_append then takes. */
    method PrintLine(line: string) returns (piece: string)
      ensures Printed(piece, line)
    {
      if |line| < LINE_BUFFER {
        return line;
      }
      assert |seq(|line| - LINE_BUFFER, _ => '\0')| == |line| - LINE_BUFFER;
      var beyond: string :| |beyond| == |line| - LINE_BUFFER;
      piece := line[..LINE_BUFFER - 1] + "\0" + beyond;
    }

    /** The count of what was written is an int. */
    method WriteSome(text: string, size: int32) returns (size': int32)
      requires gb.Valid() && gb.Ready() && this !in gb.repr && size == ToInt(|gb.Text()|)
      modifies gb.repr
      ensures gb.Valid() && gb.Ready() && this !in gb.repr && fresh(gb.repr - old(gb.repr))
      ensures gb.Text() == old(gb.Text()) + text && size' == ToInt(|gb.Text()|)
    {
      ghost var before := |gb.Text()|;
      var n := gb.Append(text);
      ToIntAdds(before, n);
      size' := ToInt(size + n);
    }

    /** The middle of the text: one line to a part. */
    method WriteParts(etags: seq<CText>, before: int32) returns (size: int32, ghost pieces: seq<string>)
      requires gb.Valid() && gb.Ready() && this !in gb.repr && before == ToInt(|gb.Text()|)
      modifies gb.repr
      ensures gb.Valid() && gb.Ready() && this !in gb.repr && fresh(gb.repr - old(gb.repr))
      ensures AllPrinted(pieces, etags)
      ensures gb.Text() == old(gb.Text()) + Concat(pieces) && size == ToInt(|gb.Text()|)
    {
      size, pieces := before, [];
      var i := 0;
      assert old(gb.Text()) + [] == old(gb.Text());
      while i < |etags|
        invariant 0 <= i <= |etags|
        invariant gb.Valid() && gb.Ready() && this !in gb.repr && fresh(gb.repr - old(gb.repr))
        invariant AllPrinted(pieces, etags[..i])
        invariant gb.Text() == old(gb.Text()) + Concat(pieces) && size == ToInt(|gb.Text()|)
      {
        var piece := PrintLine(Part(i + 1, etags[i]));
        OneMorePrinted(pieces, etags, i, piece, old(gb.Text()));
        size := WriteSome(piece, size);
        pieces := pieces + [piece];
        i := i + 1;
      }
      WholePrefix(etags);
    }

    /**
     The text put_object writes once every part is accepted, into an empty buffer. It always has the right length;
     it is right exactly if each line fits the 256 characters it is printed into, and its length is counted right
     exactly if that is an int.
     */
    method WriteClosingText(etags: seq<CText>)
      requires gb.Valid() && gb.Ready() && this !in gb.repr && gb.Text() == ""
      modifies this, gb.repr
      ensures gb.Valid() && this !in gb.repr
      ensures |gb.Text()| == |OPENING + PartsText(etags) + CLOSING|
      ensures gb.Text() == OPENING + PartsText(etags) + CLOSING <==> AllShort(etags)
      ensures AllShort(etags) && NoMarkup(etags) ==> ReadClosingText(gb.Text()) == Some(Numbered(etags))
      ensures Counted() <==> |gb.Text()| < 0x8000_0000
    {
      WriteBetween(OPENING, etags, CLOSING);
      if NoMarkup(etags) {
        ClosingTextRead(etags);
      }
    }

    method WriteBetween(opening: string, etags: seq<CText>, closing: string)
      requires gb.Valid() && gb.Ready() && this !in gb.repr && gb.Text() == ""
      modifies this, gb.repr
      ensures gb.Valid() && this !in gb.repr
      ensures |gb.Text()| == |opening + PartsText(etags) + closing|
      ensures gb.Text() == opening + PartsText(etags) + closing <==> AllShort(etags)
      ensures remaining == ToInt(|gb.Text()|)
    {
      ghost var pieces;
      var size := WriteSome(opening, 0);
      assert gb.Text() == opening;
      size, pieces := WriteParts(etags, size);
      size := WriteSome(closing, size);
      remaining := size;
      BetweenIff(opening, pieces, etags, closing);
    }

    /** multipartPutXmlCallback */
    method MultipartPutXmlCallback(bufferSize: nat) returns (buffer: string)
      requires Counted()
      modifies this, gb.repr
      ensures Counted() && gb.repr == old(gb.repr)
      ensures old(gb.Text()) == buffer + gb.Text() && |buffer| <= bufferSize
      ensures buffer == "" <==> old(remaining) == 0 || bufferSize == 0
    {
      buffer := "";
      if remaining != 0 {
        var toRead := if remaining > bufferSize then bufferSize else remaining;
        buffer := gb.Read(toRead);
      }
      remaining := remaining - |buffer|;
    }

    /** A transfer that asks for the text piece by piece, as long as it gets any, gets all of it. */
    method Transfer() returns (text: string)
      requires Counted()
      modifies this, gb.repr
      ensures text == old(gb.Text()) && remaining == 0 && gb.Text() == ""
    {
      text := "";
      var buffer, more := "", true;
      while more
        invariant Counted() && gb.repr == old(gb.repr)
        invariant text + gb.Text() == old(gb.Text())
        invariant !more ==> remaining == 0
        decreases remaining, more
      {
        var bufferSize: int := *;
        if bufferSize < 1 {
          bufferSize := 1;
        }
        buffer := MultipartPutXmlCallback(bufferSize);
        text := text + buffer;
        more := buffer != "";
      }
    }
  }
}
