/**
 * UTF-8, the encoding Go uses when a string becomes a `[]byte` (the output
 * of `json.Marshal`) and when a `[]byte` is read back as text
 * (`json.Unmarshal` of a scanned BLOB).
 */
module Utf8 {
  import opened Wrappers
  import RecordStore

  type byte = RecordStore.byte

  /** A Unicode scalar value: what a Dafny `char` holds. */
  predicate IsScalar(n: int) {
    (0 <= n < 0xD800) || (0xE000 <= n < 0x11_0000)
  }

  /** The one to four bytes of one character. */
  function EncodeChar(c: char): (bs: seq<byte>)
    ensures 1 <= |bs| <= 4
  {
    var n := c as int;
    if n < 0x80 then [n]
    else if n < 0x800 then [0xC0 + n / 64, 0x80 + n % 64]
    else if n < 0x1_0000 then [0xE0 + n / 4096, 0x80 + (n / 64) % 64, 0x80 + n % 64]
    else [0xF0 + n / 262144, 0x80 + (n / 4096) % 64, 0x80 + (n / 64) % 64, 0x80 + n % 64]
  }

  /** The bytes of a string. */
  function Encode(s: string): (bs: seq<byte>)
    ensures |s| <= |bs| <= 4 * |s|
  {
    if s == [] then [] else EncodeChar(s[0]) + Encode(s[1..])
  }

  predicate IsContinuation(b: byte) {
    0x80 <= b < 0xC0
  }

  /**
   * The character at the head of `bs` and the bytes after it; `None` for a
   * byte sequence that is not shortest-form UTF-8 of a scalar value.
   */
  function DecodeChar(bs: seq<byte>): (r: Option<(char, seq<byte>)>)
    requires bs != []
    ensures r.Some? ==> |r.value.1| < |bs|
  {
    var b: int := bs[0];
    if b < 0x80 then Some((b as char, bs[1..]))
    else if 0xC2 <= b < 0xE0 && |bs| >= 2 && IsContinuation(bs[1]) then
      var n: int := (b - 0xC0) * 64 + (bs[1] as int - 0x80);
      Some((n as char, bs[2..]))
    else if 0xE0 <= b < 0xF0 && |bs| >= 3 && IsContinuation(bs[1]) && IsContinuation(bs[2]) then
      var n: int := (b - 0xE0) * 4096 + (bs[1] as int - 0x80) * 64 + (bs[2] as int - 0x80);
      if 0x800 <= n && IsScalar(n) then Some((n as char, bs[3..])) else None
    else if 0xF0 <= b < 0xF5 && |bs| >= 4 && IsContinuation(bs[1]) && IsContinuation(bs[2])
            && IsContinuation(bs[3]) then
      var n: int := (b - 0xF0) * 262144 + (bs[1] as int - 0x80) * 4096 + (bs[2] as int - 0x80) * 64 + (bs[3] as int - 0x80);
      if 0x1_0000 <= n && IsScalar(n) then Some((n as char, bs[4..])) else None
    else None
  }

  /** The text of a byte sequence; `None` when it is not valid UTF-8. */
  function Decode(bs: seq<byte>): (r: Option<string>)
    decreases |bs|
  {
    if bs == [] then Some("")
    else match DecodeChar(bs)
      case None => None
      case Some((c, rest)) =>
        match Decode(rest)
        case None => None
        case Some(s) => Some([c] + s)
  }

  /** The head character of an encoded text decodes back to itself. */
  lemma DecodeEncodeChar(c: char, rest: seq<byte>)
    ensures DecodeChar(EncodeChar(c) + rest) == Some((c, rest))
  {
    var n := c as int;
    if n < 0x80 {
    } else if n < 0x800 {
      DecodeTwo(c, rest);
    } else if n < 0x1_0000 {
      DecodeThree(c, rest);
    } else {
      DecodeFour(c, rest);
    }
  }

  lemma DecodeTwo(c: char, rest: seq<byte>)
    requires 0x80 <= c as int < 0x800
    ensures DecodeChar(EncodeChar(c) + rest) == Some((c, rest))
  {
    var n := c as int;
    var bs := EncodeChar(c) + rest;
    assert bs[2..] == rest;
  }

  lemma DecodeThree(c: char, rest: seq<byte>)
    requires 0x800 <= c as int < 0x1_0000
    ensures DecodeChar(EncodeChar(c) + rest) == Some((c, rest))
  {
    var n := c as int;
    var hi, mid, lo := n / 4096, (n / 64) % 64, n % 64;
    assert hi * 4096 + mid * 64 + lo == n;
    var bs := EncodeChar(c) + rest;
    assert bs[..3] == [0xE0 + hi, 0x80 + mid, 0x80 + lo];
    assert bs[3..] == rest;
  }

  lemma DecodeFour(c: char, rest: seq<byte>)
    requires 0x1_0000 <= c as int
    ensures DecodeChar(EncodeChar(c) + rest) == Some((c, rest))
  {
    var n := c as int;
    var top, hi, mid, lo := n / 262144, (n / 4096) % 64, (n / 64) % 64, n % 64;
    SplitFour(n);
    var bs := EncodeChar(c) + rest;
    assert bs[0] == 0xF0 + top && bs[1] == 0x80 + hi && bs[2] == 0x80 + mid && bs[3] == 0x80 + lo;
    assert bs[4..] == rest;
  }

  /** The four groups of bits of a code point above the basic plane. */
  lemma SplitFour(n: int)
    requires 0x1_0000 <= n < 0x11_0000
    ensures n / 262144 < 5
    ensures (n / 262144) * 262144 + ((n / 4096) % 64) * 4096 + ((n / 64) % 64) * 64 + n % 64 == n
  {
    var q1 := n / 64;
    var q2 := q1 / 64;
    assert n == q1 * 64 + n % 64;
    assert q1 == q2 * 64 + q1 % 64;
    assert n / 4096 == q2;
    assert q2 == (q2 / 64) * 64 + q2 % 64;
    assert n / 262144 == q2 / 64;
  }

  /** Reading back the bytes of a string gives the string. */
  lemma {:induction false} DecodeEncode(s: string)
    ensures Decode(Encode(s)) == Some(s)
  {
    if s != [] {
      DecodeEncodeChar(s[0], Encode(s[1..]));
      DecodeEncode(s[1..]);
      assert [s[0]] + s[1..] == s;
    }
  }

  /** Splitting off the low six bits of `q * 64 + r`. */
  lemma Split64(q: int, r: int)
    requires 0 <= q && 0 <= r < 64
    ensures (q * 64 + r) / 64 == q && (q * 64 + r) % 64 == r
  {
  }

  /** A decoded head character encodes back to the bytes it was read from. */
  lemma EncodeDecodeChar(bs: seq<byte>)
    requires bs != [] && DecodeChar(bs).Some?
    ensures EncodeChar(DecodeChar(bs).value.0) + DecodeChar(bs).value.1 == bs
  {
    var b: int := bs[0];
    if b < 0x80 {
      assert [bs[0]] + bs[1..] == bs;
    } else if 0xC2 <= b < 0xE0 && |bs| >= 2 && IsContinuation(bs[1]) {
      var n: int := (b - 0xC0) * 64 + (bs[1] as int - 0x80);
      Split64(b - 0xC0, bs[1] as int - 0x80);
      assert EncodeChar(n as char) == bs[..2];
      assert bs[..2] + bs[2..] == bs;
    } else if 0xE0 <= b < 0xF0 && |bs| >= 3 && IsContinuation(bs[1]) && IsContinuation(bs[2]) {
      EncodeDecodeThree(bs);
    } else {
      EncodeDecodeFour(bs);
    }
  }

  lemma EncodeDecodeThree(bs: seq<byte>)
    requires |bs| >= 3 && 0xE0 <= bs[0] < 0xF0 && IsContinuation(bs[1]) && IsContinuation(bs[2])
    requires DecodeChar(bs).Some?
    ensures EncodeChar(DecodeChar(bs).value.0) + DecodeChar(bs).value.1 == bs
  {
    var q: int := (bs[0] as int - 0xE0) * 64 + (bs[1] as int - 0x80);
    var n: int := q * 64 + (bs[2] as int - 0x80);
    assert n == (bs[0] as int - 0xE0) * 4096 + (bs[1] as int - 0x80) * 64 + (bs[2] as int - 0x80);
    Split64(q, bs[2] as int - 0x80);
    Split64(bs[0] as int - 0xE0, bs[1] as int - 0x80);
    assert n / 4096 == (n / 64) / 64;
    assert EncodeChar(n as char) == bs[..3];
    assert bs[..3] + bs[3..] == bs;
  }

  lemma EncodeDecodeFour(bs: seq<byte>)
    requires |bs| >= 4 && 0xF0 <= bs[0] < 0xF5 && IsContinuation(bs[1]) && IsContinuation(bs[2])
    requires IsContinuation(bs[3]) && DecodeChar(bs).Some?
    ensures EncodeChar(DecodeChar(bs).value.0) + DecodeChar(bs).value.1 == bs
  {
    var q1: int := (bs[0] as int - 0xF0) * 64 + (bs[1] as int - 0x80);
    var q2: int := q1 * 64 + (bs[2] as int - 0x80);
    var n: int := q2 * 64 + (bs[3] as int - 0x80);
    assert n == (bs[0] as int - 0xF0) * 262144 + (bs[1] as int - 0x80) * 4096 + (bs[2] as int - 0x80) * 64
                + (bs[3] as int - 0x80);
    Split64(q2, bs[3] as int - 0x80);
    Split64(q1, bs[2] as int - 0x80);
    Split64(bs[0] as int - 0xF0, bs[1] as int - 0x80);
    assert n / 4096 == (n / 64) / 64;
    assert n / 262144 == ((n / 64) / 64) / 64;
    assert EncodeChar(n as char) == bs[..4];
    assert bs[..4] + bs[4..] == bs;
  }

  /** Valid UTF-8 read as text and written back gives the same bytes. */
  lemma {:induction false} EncodeDecode(bs: seq<byte>)
    requires Decode(bs).Some?
    ensures Encode(Decode(bs).value) == bs
    decreases |bs|
  {
    if bs != [] {
      var c, rest := DecodeChar(bs).value.0, DecodeChar(bs).value.1;
      EncodeDecodeChar(bs);
      EncodeDecode(rest);
      var s := Decode(bs).value;
      assert s[0] == c && s[1..] == Decode(rest).value;
    }
  }
}
