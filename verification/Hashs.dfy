/**
 Hashes: how they are ordered, and their hexadecimal form.
 */
module Hashs {
  import opened Blocks

  // ---------- order ----------

  /** Lexicographic order: the sign of a - b. */
  function Lex(a: seq<int>, b: seq<int>): int {
    if a == [] then (if b == [] then 0 else -1)
    else if b == [] then 1
    else if a[0] != b[0] then (if a[0] < b[0] then -1 else 1)
    else Lex(a[1..], b[1..])
  }

  /** The first difference decides, and a text that ends before it comes first. */
  lemma LexDecides(a: seq<int>, b: seq<int>, k: nat)
    requires k <= |a| && k <= |b| && a[..k] == b[..k]
    ensures k < |a| && k < |b| && a[k] < b[k] ==> Lex(a, b) < 0 && Lex(b, a) > 0
    ensures k == |a| < |b| ==> Lex(a, b) < 0 && Lex(b, a) > 0
  {
    LexSkips(a, b, k);
    LexSkips(b, a, k);
  }

  lemma {:induction false} LexIsOrder(a: seq<int>, b: seq<int>)
    ensures Lex(a, b) == 0 <==> a == b
    ensures Lex(b, a) == -Lex(a, b)
  {
    if a != [] && b != [] {
      LexIsOrder(a[1..], b[1..]);
      assert a == [a[0]] + a[1..] && b == [b[0]] + b[1..];
    }
  }

  lemma {:induction false} LexTransitive(a: seq<int>, b: seq<int>, c: seq<int>)
    requires Lex(a, b) <= 0 && Lex(b, c) <= 0
    ensures Lex(a, c) <= 0
  {
    if a != [] && b != [] && c != [] && a[0] == b[0] == c[0] {
      LexTransitive(a[1..], b[1..], c[1..]);
    }
  }

  lemma {:induction false} LexSkips(a: seq<int>, b: seq<int>, k: nat)
    requires k <= |a| && k <= |b| && a[..k] == b[..k]
    ensures Lex(a, b) == Lex(a[k..], b[k..])
  {
    if k > 0 {
      assert a[0] == a[..k][0] && b[0] == b[..k][0];
      assert a[1..][..k - 1] == a[..k][1..] && b[1..][..k - 1] == b[..k][1..];
      LexSkips(a[1..], b[1..], k - 1);
      assert a[1..][k - 1..] == a[k..] && b[1..][k - 1..] == b[k..];
    }
  }

  /** A missing hash comes after every hash. */
  function HashOrder(a: Option<Hash>, b: Option<Hash>): int {
    match (a, b)
    case (Some(x), Some(y)) => Lex(x, y)
    case (Some(_), None) => -1
    case (None, Some(_)) => 1
    case (None, None) => 0
  }

  lemma HashOrderDecides(a: Option<Hash>, b: Option<Hash>)
    ensures HashOrder(a, b) == 0 <==> a == b
    ensures a.Some? && b.Some? ==>
      forall k :: 0 <= k < HASH_LEN && a.value[..k] == b.value[..k] && a.value[k] != b.value[k] ==>
        (HashOrder(a, b) < 0 <==> a.value[k] < b.value[k])
  {
    if a.Some? && b.Some? {
      LexIsOrder(a.value, b.value);
      forall k | 0 <= k < HASH_LEN && a.value[..k] == b.value[..k] && a.value[k] != b.value[k]
        ensures HashOrder(a, b) < 0 <==> a.value[k] < b.value[k]
      {
        LexDecides(a.value, b.value, k);
        LexDecides(b.value, a.value, k);
      }
    }
  }

  /** compare_two_hashs: the first byte that differs decides, and a missing hash comes last. */
  method CompareTwoHashs(a: Option<Hash>, b: Option<Hash>) returns (r: int)
    ensures r == HashOrder(a, b)
    ensures r == 0 <==> a == b
    ensures a.Some? && b.Some? ==>
      forall k :: 0 <= k < HASH_LEN && a.value[..k] == b.value[..k] && a.value[k] != b.value[k] ==>
        (r < 0 <==> a.value[k] < b.value[k])
    ensures a.Some? && b.None? ==> r < 0
    ensures a.None? && b.Some? ==> r > 0
  {
    HashOrderDecides(a, b);
    if a.Some? && b.Some? {
      var hashA, hashB := a.value, b.value;
      var first, second, i := 0, 0, 0;
      while first == second && i < HASH_LEN
        invariant 0 <= i <= HASH_LEN
        invariant first == second ==> hashA[..i] == hashB[..i]
        invariant first != second ==>
          i > 0 && hashA[..i - 1] == hashB[..i - 1] && first == hashA[i - 1] && second == hashB[i - 1]
        decreases HASH_LEN - i, first == second
      {
        first, second := hashA[i], hashB[i];
        i := i + 1;
      }
      if i == HASH_LEN && first == second {
        assert hashA[..i] == hashA && hashB[..i] == hashB;
        LexIsOrder(hashA, hashB);
        return 0;
      }
      LexSkips(hashA, hashB, i - 1);
      return if first < second then -1 else 1;
    }
    return if a.Some? then -1 else if b.Some? then 1 else 0;
  }

  /** The comparison is a total order, and two hashes are equal in it only when they are the same. */
  lemma HashOrderIsTotal(a: Option<Hash>, b: Option<Hash>, c: Option<Hash>)
    ensures HashOrder(a, b) == 0 <==> a == b
    ensures HashOrder(b, a) == -HashOrder(a, b)
    ensures HashOrder(a, b) <= 0 && HashOrder(b, c) <= 0 ==> HashOrder(a, c) <= 0
  {
    if a.Some? && b.Some? {
      LexIsOrder(a.value, b.value);
      if c.Some? && HashOrder(a, b) <= 0 && HashOrder(b, c) <= 0 {
        LexTransitive(a.value, b.value, c.value);
      }
    }
  }

  // ---------- hexadecimal form ----------

  function HexDigit(d: int): char
    requires 0 <= d < 16
  {
    if d < 10 then (d + 48) as char else (d + 87) as char
  }

  predicate IsHexDigit(c: char) {
    '0' <= c <= '9' || 'a' <= c <= 'f'
  }

  /** int_value: any character that is not a lower-case hexadecimal digit counts as zero. */
  function IntValue(c: char): (v: int)
    ensures 0 <= v < 16
    ensures IsHexDigit(c) ==> HexDigit(v) == c
  {
    if '0' <= c <= '9' then c as int - 48 else if 'a' <= c <= 'f' then c as int - 87 else 0
  }

  /** "%02x" */
  function Octet(b: byte): string {
    [HexDigit(b / 16), HexDigit(b % 16)]
  }

  function Hex(bytes: seq<byte>): (s: string)
    ensures |s| == 2 * |bytes|
    ensures forall i :: 0 <= i < |bytes| ==>
      s[2 * i] == HexDigit(bytes[i] / 16) && s[2 * i + 1] == HexDigit(bytes[i] % 16)
  {
    if bytes == [] then "" else Hex(bytes[..|bytes| - 1]) + Octet(bytes[|bytes| - 1])
  }

  /** hash_to_string: fills a buffer of HASH_LEN * 2 + 1 zeros two characters at a time. */
  method HashToString(hash: Hash) returns (str: string)
    ensures str == Hex(hash)
  {
    var buffer := new char[HASH_LEN * 2 + 1](_ => '\0');
    var i := 0;
    while i < HASH_LEN
      invariant 0 <= i <= HASH_LEN
      invariant forall k :: 0 <= k < i ==>
        buffer[2 * k] == HexDigit(hash[k] / 16) && buffer[2 * k + 1] == HexDigit(hash[k] % 16)
    {
      var octet := Octet(hash[i]);
      buffer[2 * i] := octet[0];
      buffer[2 * i + 1] := octet[1];
      i := i + 1;
    }
    str := buffer[..HASH_LEN * 2];
    forall k | 0 <= k < |str| ensures str[k] == Hex(hash)[k] {
      var i := k / 2;
      assert buffer[2 * i] == Hex(hash)[2 * i] && buffer[2 * i + 1] == Hex(hash)[2 * i + 1];
      assert k == 2 * i || k == 2 * i + 1;
    }
  }

  function Unhex(str: string): (hash: Hash)
    requires |str| >= HASH_LEN * 2
    ensures forall i :: 0 <= i < HASH_LEN ==> hash[i] == IntValue(str[2 * i]) * 16 + IntValue(str[2 * i + 1])
  {
    seq(HASH_LEN, i requires 0 <= i < HASH_LEN => IntValue(str[2 * i]) * 16 + IntValue(str[2 * i + 1]))
  }

  /** string_to_hash: reads HASH_LEN * 2 characters, whatever they are. */
  method StringToHash(str: string) returns (hash: Hash)
    requires |str| >= HASH_LEN * 2
    ensures hash == Unhex(str)
  {
    var buffer := new byte[HASH_LEN](_ => 0);
    var i := 0;
    while i < HASH_LEN * 2
      invariant 0 <= i <= HASH_LEN * 2 && i % 2 == 0
      invariant forall k :: 0 <= k < i / 2 ==> buffer[k] == IntValue(str[2 * k]) * 16 + IntValue(str[2 * k + 1])
    {
      buffer[i / 2] := IntValue(str[i]) * 16 + IntValue(str[i + 1]);
      i := i + 2;
    }
    hash := buffer[..];
  }

  lemma UnhexHex(hash: Hash)
    ensures Unhex(Hex(hash)) == hash
  {
    forall i | 0 <= i < HASH_LEN ensures Unhex(Hex(hash))[i] == hash[i] {
      var s := Hex(hash);
      assert s[2 * i] == HexDigit(hash[i] / 16) && s[2 * i + 1] == HexDigit(hash[i] % 16);
      ValueOfDigit(hash[i] / 16);
      ValueOfDigit(hash[i] % 16);
    }
  }

  lemma ValueOfDigit(d: int)
    requires 0 <= d < 16
    ensures IntValue(HexDigit(d)) == d && IsHexDigit(HexDigit(d))
  {
  }

  predicate IsHex(str: string) {
    forall k :: 0 <= k < |str| ==> IsHexDigit(str[k])
  }

  /** A name given in a request comes back unchanged exactly when it is lower-case hexadecimal. */
  lemma HexUnhexIff(str: string)
    requires |str| == HASH_LEN * 2
    ensures Hex(Unhex(str)) == str <==> IsHex(str)
  {
    var hash, back := Unhex(str), Hex(Unhex(str));
    forall k | 0 <= k < |str|
      ensures IsHexDigit(back[k]) && (IsHexDigit(str[k]) ==> back[k] == str[k])
    {
      var i := k / 2;
      var high, low := IntValue(str[2 * i]), IntValue(str[2 * i + 1]);
      assert hash[i] == high * 16 + low && hash[i] / 16 == high && hash[i] % 16 == low;
      assert back[2 * i] == HexDigit(high) && back[2 * i + 1] == HexDigit(low);
      assert k == 2 * i || k == 2 * i + 1;
      ValueOfDigit(high);
      ValueOfDigit(low);
    }
  }
}
