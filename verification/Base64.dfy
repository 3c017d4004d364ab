/**
 Base64 with the standard alphabet and padding, section 4 of RFC 4648: how file names, link targets
 and hashes are written in the metadata files and in requests.
 */
module Base64 {
  import opened Blocks

  /** Table 1 of RFC 4648. */
  function Letter(v: int): char
    requires 0 <= v < 64
  {
    if v < 26 then (v + 65) as char          // A-Z
    else if v < 52 then (v + 71) as char     // a-z
    else if v < 62 then (v - 4) as char      // 0-9
    else if v == 62 then '+' else '/'
  }

  function Value(c: char): (v: int)
    ensures 0 <= v < 64
  {
    if 'A' <= c <= 'Z' then c as int - 65
    else if 'a' <= c <= 'z' then c as int - 71
    else if '0' <= c <= '9' then c as int + 4
    else if c == '+' then 62
    else 63
  }

  predicate InAlphabet(c: char) {
    'A' <= c <= 'Z' || 'a' <= c <= 'z' || '0' <= c <= '9' || c == '+' || c == '/' || c == '='
  }

  lemma ValueOfLetter(v: int)
    requires 0 <= v < 64
    ensures Value(Letter(v)) == v && InAlphabet(Letter(v)) && Letter(v) != '='
  {
  }

  /** Three bytes as four letters. */
  function Quad(a: byte, b: byte, c: byte): string {
    [Letter(a / 4), Letter(a % 4 * 16 + b / 16), Letter(b % 16 * 4 + c / 64), Letter(c % 64)]
  }

  function Encode(s: seq<byte>): (r: string)
    ensures |r| % 4 == 0
    ensures s != [] ==> r != []
  {
    if s == [] then ""
    else if |s| == 1 then Quad(s[0], 0, 0)[..2] + "=="
    else if |s| == 2 then Quad(s[0], s[1], 0)[..3] + "="
    else Quad(s[0], s[1], s[2]) + Encode(s[3..])
  }

  function High(w: int, x: int): byte {
    (w * 4 + x / 16) % 256
  }

  function Middle(x: int, y: int): byte {
    (x % 16 * 16 + y / 4) % 256
  }

  function Low(y: int, z: int): byte {
    (y % 4 * 64 + z) % 256
  }

  /** Decodes groups of four letters; only the encoder's output is ever decoded. */
  function Decode(r: string): seq<byte> {
    if |r| < 4 then []
    else
      var w, x, y, z := Value(r[0]), Value(r[1]), Value(r[2]), Value(r[3]);
      var a, b, c := High(w, x), Middle(x, y), Low(y, z);
      (if r[2] == '=' then [a] else if r[3] == '=' then [a, b] else [a, b, c]) + Decode(r[4..])
  }

  lemma Sixteens(q: int, r: int)
    requires 0 <= r < 16
    ensures (q * 16 + r) / 16 == q && (q * 16 + r) % 16 == r
  {
  }

  lemma Fours(q: int, r: int)
    requires 0 <= r < 4
    ensures (q * 4 + r) / 4 == q && (q * 4 + r) % 4 == r
  {
  }

  /** The bytes come back from the four numbers they are split into. */
  lemma Sextets(a: byte, b: byte, c: byte)
    ensures var w, x, y, z := a / 4, a % 4 * 16 + b / 16, b % 16 * 4 + c / 64, c % 64;
      High(w, x) == a && Middle(x, y) == b && Low(y, z) == c
  {
    Sixteens(a % 4, b / 16);
    Fours(b % 16, c / 64);
  }

  lemma QuadLetters(a: byte, b: byte, c: byte)
    ensures var q := Quad(a, b, c);
      && Value(q[0]) == a / 4 && Value(q[1]) == a % 4 * 16 + b / 16
      && Value(q[2]) == b % 16 * 4 + c / 64 && Value(q[3]) == c % 64
      && forall k :: 0 <= k < 4 ==> InAlphabet(q[k]) && q[k] != '='
  {
    ValueOfLetter(a / 4);
    ValueOfLetter(a % 4 * 16 + b / 16);
    ValueOfLetter(b % 16 * 4 + c / 64);
    ValueOfLetter(c % 64);
  }

  /** The letters of a group decode to its bytes, as many as the padding says. */
  lemma DecodeGroup(a: byte, b: byte, c: byte, r: string)
    requires |r| >= 4 && r[0] == Quad(a, b, c)[0] && r[1] == Quad(a, b, c)[1]
    requires r[2] == '=' || r[2] == Quad(a, b, c)[2]
    requires r[3] == '=' || r[3] == Quad(a, b, c)[3]
    ensures Decode(r) == (if r[2] == '=' then [a] else if r[3] == '=' then [a, b] else [a, b, c]) + Decode(r[4..])
  {
    QuadLetters(a, b, c);
    Sextets(a, b, c);
    var w, x, y, z := Value(r[0]), Value(r[1]), Value(r[2]), Value(r[3]);
    assert High(w, x) == a;
    assert r[2] != '=' ==> Middle(x, y) == b;
    assert r[2] != '=' && r[3] != '=' ==> Low(y, z) == c;
  }

  lemma {:induction false} DecodeEncode(s: seq<byte>)
    ensures Decode(Encode(s)) == s
  {
    if s == [] {
    } else if |s| == 1 {
      QuadLetters(s[0], 0, 0);
      DecodeGroup(s[0], 0, 0, Encode(s));
      assert Encode(s)[4..] == "";
    } else if |s| == 2 {
      QuadLetters(s[0], s[1], 0);
      DecodeGroup(s[0], s[1], 0, Encode(s));
      assert Encode(s)[4..] == "";
    } else {
      QuadLetters(s[0], s[1], s[2]);
      DecodeGroup(s[0], s[1], s[2], Encode(s));
      assert Encode(s)[4..] == Encode(s[3..]);
      DecodeEncode(s[3..]);
    }
  }

  lemma {:induction false} EncodeAlphabet(s: seq<byte>)
    ensures forall k :: 0 <= k < |Encode(s)| ==> InAlphabet(Encode(s)[k])
  {
    if s == [] {
    } else if |s| == 1 {
      QuadLetters(s[0], 0, 0);
    } else if |s| == 2 {
      QuadLetters(s[0], s[1], 0);
    } else {
      QuadLetters(s[0], s[1], s[2]);
      EncodeAlphabet(s[3..]);
    }
  }

  /** Test vectors of section 10 of RFC 4648, and the two letters that are neither letters nor digits. */
  lemma TestVectors()
    ensures Encode([102]) == "Zg==" && Encode([102, 111]) == "Zm8=" && Encode([102, 111, 111]) == "Zm9v"
    ensures Encode([102, 111, 111, 98, 97, 114]) == "Zm9vYmFy"
    ensures Encode([251, 239, 255]) == "++//"
  {
    assert [102, 111, 111, 98, 97, 114][3..] == [98, 97, 114];
    assert Encode([98, 97, 114]) == Quad(98, 97, 114) + "";
  }
}
