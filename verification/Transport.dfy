/**
 Moving a request and its answer: the callbacks libcurl pulls the request from and pushes the answer to,
 which share one position, and the server's callback that gathers the request.

 How much each callback is asked for, or is given, at a time is not ours to say: any positive amount.
 */
module Transport {
  import opened Blocks

  const DEFAULT_SERVER_BUFFER_SIZE := 8388608

  /** What read_data hands out: up to `size` characters from a position. */
  function Piece(readbuffer: string, pos: nat, size: nat): string
  {
    if pos >= |readbuffer| then ""
    else if pos + size > |readbuffer| then readbuffer[pos..]
    else readbuffer[pos..pos + size]
  }

  /** concat_buffer, on a buffer that holds `pos` characters or more. */
  function ConcatBuffer(buffer: string, pos: nat, buf1: string): string
    requires pos <= |buffer|
  {
    buffer[..pos] + buf1
  }

  /** get_header_content_length: a missing length, or one above four gigabytes, gives the default. */
  function HeaderContentLength(header: Option<nat>): (len: nat)
    ensures header.Some? && header.value <= 4294967296 ==> len == header.value
    ensures header.None? || header.value > 4294967296 ==> len == 8388608
  {
    if header.None? || header.value > 4294967296 then DEFAULT_SERVER_BUFFER_SIZE else header.value
  }

  // ---------- the client ----------

  /** comm_t; `sent` is all that was handed out since the request was started, `gathered` all that came in. */
  class Comm {
    var buffer: Option<string>
    var readbuffer: string
    var seqNo: nat
    var pos: nat
    var length: nat
    ghost var sent: string
    ghost var gathered: string

    constructor (readbuffer: string)
      ensures this.readbuffer == readbuffer && buffer == None
    {
      this.readbuffer, buffer := readbuffer, None;
      seqNo, pos, length := 0, 0, 0;
      sent, gathered := "", "";
    }

    /** What was handed out is the beginning of the request, up to the position. */
    ghost predicate Sending()
      reads this
    {
      pos <= length == |readbuffer| && sent == readbuffer[..pos]
    }

    /** The buffer is what came in, and the position is its end. */
    ghost predicate Receiving()
      reads this
    {
      buffer == Some(gathered) && pos == |gathered|
    }

    /** read_data: while a request goes out, the next characters of it, none only if none is left or wanted. */
    method ReadData(size: nat) returns (data: string)
      requires length == |readbuffer|
      modifies this`pos, this`sent
      ensures sent == old(sent) + data && |data| <= size
      ensures old(Sending()) ==> Sending() && (data == "" <==> size == 0 || old(sent) == readbuffer)
      ensures old(pos) >= length ==> data == "" && pos == old(pos)
      ensures data == Piece(readbuffer, old(pos), size)
      ensures buffer.Some? ==>
        Exchange(pos, sent, buffer.value)
        == AfterCall(readbuffer, Exchange(old(pos), old(sent), buffer.value), ReadCall(size))
    {
      data := "";
      if pos >= length {
        return;
      } else if pos + size > length {
        data := readbuffer[pos..length];
        pos := length;
      } else {
        data := readbuffer[pos..pos + size];
        pos := pos + size;
      }
      sent := sent + data;
    }

    /**
     write_data: the first piece of an answer takes the buffer and the position over, whatever they were, and
     any other is put behind the pieces before it. The sequence number is an unsigned 32-bit integer.
     */
    method WriteData(data: string)
      requires seqNo != 0 ==> buffer.Some? && pos <= |buffer.value|
      modifies this`buffer, this`pos, this`seqNo, this`gathered
      ensures gathered == (if old(seqNo) == 0 then "" else old(gathered)) + data
      ensures old(seqNo) == 0 || old(Receiving()) ==> Receiving()
      ensures buffer == Some(if old(seqNo) == 0 then data else ConcatBuffer(old(buffer).value, old(pos), data))
      ensures pos == (if old(seqNo) == 0 then 0 else old(pos)) + |data|
      ensures seqNo == (old(seqNo) + 1) % 0x1_0000_0000
      ensures old(seqNo) != 0 ==>
        Exchange(pos, sent, buffer.value)
        == AfterCall(readbuffer, Exchange(old(pos), sent, old(buffer).value), WriteCall(data))
    {
      if seqNo == 0 {
        buffer := Some(data);
        pos := |data|;
        gathered := data;
      } else {
        WholePrefix(buffer.value);
        buffer := Some(ConcatBuffer(buffer.value, pos, data));
        pos := pos + |data|;
        gathered := gathered + data;
      }
      seqNo := (seqNo + 1) % 0x1_0000_0000;
    }

    /** The upload: libcurl reads until it gets nothing. */
    method SendBody() returns (wire: string)
      requires pos == 0 && length == |readbuffer| && sent == ""
      modifies this`pos, this`sent
      ensures wire == readbuffer == sent && pos == length
    {
      wire := "";
      var more := true;
      while more
        invariant Sending() && wire == sent
        invariant !more ==> sent == readbuffer
        decreases length - pos, more
      {
        var size: int := *;
        if size < 1 {
          size := 1;
        }
        var data := ReadData(size);
        wire := wire + data;
        more := data != "";
      }
    }

    /** The answer, given in pieces; the position of the upload is overwritten by the first of them. */
    method ReceiveAnswer(pieces: seq<string>)
      requires seqNo == 0 && |pieces| <= 0x1_0000_0000
      modifies this`buffer, this`pos, this`seqNo, this`gathered
      ensures buffer == if pieces == [] then old(buffer) else Some(Concat(pieces))
    {
      var i := 0;
      while i < |pieces|
        invariant 0 <= i <= |pieces| && seqNo == i % 0x1_0000_0000
        invariant i == 0 ==> buffer == old(buffer)
        invariant i > 0 ==> Receiving() && gathered == Concat(pieces[..i])
      {
        OneMore(pieces, i);
        ConcatOneMore(pieces[..i], pieces[i]);
        assert i > 0 ==> seqNo != 0;
        WriteData(pieces[i]);
        i := i + 1;
      }
      WholePrefix(pieces);
    }

    /**
     post_url, when the request goes through: the server gets the text to send, whatever the pieces, and
     the buffer ends up with its answer, when there is one.
     */
    method PostUrl(pieces: seq<string>) returns (body: string)
      requires |pieces| <= 0x1_0000_0000 && |readbuffer| <= 4294967296
      modifies this
      ensures body == old(readbuffer) && readbuffer == old(readbuffer)
      ensures pieces != [] ==> buffer == Some(Concat(pieces))
    {
      seqNo, pos := 0, 0;
      length := |readbuffer|;
      sent, gathered := "", "";
      var wire := SendBody();
      body := ProcessPostRequest(wire, Some(length));
      ReceiveAnswer(pieces);
    }
  }

  // ---------- what a read after the first piece of answer does ----------

  datatype Call = ReadCall(size: nat) | WriteCall(data: string)

  /** After a first piece of answer: the shared position, the request sent and the answer gathered so far. */
  datatype Exchange = Exchange(pos: nat, sent: string, answer: string)

  /** read_data and write_data; what lies between the answer and a position beyond its end is not known. */
  function AfterCall(readbuffer: string, x: Exchange, call: Call): (y: Exchange)
    ensures call.WriteCall? ==> |y.answer| == y.pos
  {
    match call
    case ReadCall(size) =>
      var late := Piece(readbuffer, x.pos, size);
      Exchange(x.pos + |late|, x.sent + late, x.answer)
    case WriteCall(data) =>
      var before := if x.pos <= |x.answer| then x.answer[..x.pos] else x.answer + seq(x.pos - |x.answer|, _ => '\0');
      Exchange(x.pos + |data|, x.sent, before + data)
  }

  function AfterCalls(readbuffer: string, x: Exchange, calls: seq<Call>): Exchange
    decreases |calls|
  {
    if calls == [] then x else AfterCalls(readbuffer, AfterCall(readbuffer, x, calls[0]), calls[1..])
  }

  function Written(calls: seq<Call>): string {
    if calls == [] then ""
    else (if calls[0].WriteCall? then calls[0].data else "") + Written(calls[1..])
  }

  /** Each read comes when as much was answered as there was to send. */
  predicate NothingLeftToRead(calls: seq<Call>, answered: nat, length: nat)
    decreases |calls|
  {
    calls == [] ||
    match calls[0]
    case ReadCall(size) => (size == 0 || answered >= length) && NothingLeftToRead(calls[1..], answered, length)
    case WriteCall(data) => NothingLeftToRead(calls[1..], answered + |data|, length)
  }

  lemma {:induction false} SentGrows(readbuffer: string, x: Exchange, calls: seq<Call>)
    ensures |x.sent| <= |AfterCalls(readbuffer, x, calls).sent|
    decreases |calls|
  {
    if calls != [] {
      SentGrows(readbuffer, AfterCall(readbuffer, x, calls[0]), calls[1..]);
    }
  }

  /**
   Once the request went out and a first piece of answer came in, further calls in any order send nothing
   twice if and only if each read comes when as much was answered as there was to send; and then the
   answer is all the pieces. Without reads this always holds.
   */
  lemma {:induction false} LateReadsAreHarmlessIff(readbuffer: string, x: Exchange, calls: seq<Call>)
    requires x.pos == |x.answer|
    ensures var y := AfterCalls(readbuffer, x, calls);
      && (y.sent == x.sent <==> NothingLeftToRead(calls, |x.answer|, |readbuffer|))
      && (y.sent == x.sent ==> y.answer == x.answer + Written(calls))
    decreases |calls|
  {
    if calls == [] {
      assert x.answer + "" == x.answer;
    } else {
      var x1 := AfterCall(readbuffer, x, calls[0]);
      if calls[0].ReadCall? {
        if calls[0].size > 0 && x.pos < |readbuffer| {
          SentGrows(readbuffer, x1, calls[1..]);
        } else {
          assert Piece(readbuffer, x.pos, calls[0].size) == "" && x1 == x;
          LateReadsAreHarmlessIff(readbuffer, x, calls[1..]);
          assert "" + Written(calls[1..]) == Written(calls[1..]);
        }
      } else {
        LateReadsAreHarmlessIff(readbuffer, x1, calls[1..]);
        assert x.answer[..x.pos] == x.answer;
        assert (x.answer + calls[0].data) + Written(calls[1..]) == x.answer + (calls[0].data + Written(calls[1..]));
      }
    }
  }

  // ---------- the server ----------

  /** upload_t */
  class Upload {
    const buffer: array<char>
    var pos: nat

    constructor (len: nat)
      ensures fresh(buffer) && buffer.Length == len + 1 && pos == 0
    {
      buffer := new char[len + 1](_ => '\0');
      pos := 0;
    }

    method Receive(data: string)
      requires pos + |data| < buffer.Length
      modifies this`pos, buffer
      ensures pos == old(pos) + |data| && buffer[..pos] == old(buffer[..pos]) + data
    {
      forall k | 0 <= k < |data| {
        buffer[pos + k] := data[k];
      }
      pos := pos + |data|;
    }
  }

  /** process_post_request, through all its calls for one request: the body handed to the handlers. */
  method ProcessPostRequest(wire: string, contentLength: Option<nat>) returns (body: string)
    requires |wire| <= HeaderContentLength(contentLength)
    ensures body == wire
  {
    var len := HeaderContentLength(contentLength);
    var pp := new Upload(len);
    var given := 0;
    while given < |wire|
      invariant given <= |wire| && pp.pos == given && pp.buffer[..given] == wire[..given]
      invariant fresh(pp) && fresh(pp.buffer) && pp.buffer.Length == len + 1
    {
      var size: int := *;
      if size < 1 || size > |wire| - given {
        size := |wire| - given;
      }
      assert wire[..given + size] == wire[..given] + wire[given..given + size];
      pp.Receive(wire[given..given + size]);
      given := given + size;
    }
    pp.buffer[pp.pos] := '\0';
    body := pp.buffer[..pp.pos];
  }
}
