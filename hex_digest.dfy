/**
 * The dictionary version: the SHA-256 digest (FIPS 180-4, section 6.2) of the
 * dump file, written as lowercase hexadecimal the way `fmt.Sprintf("%x", sum)`
 * prints a byte slice. The hash function itself is a parameter of the model;
 * only the shape of its result (32 bytes) is assumed.
 */
module HexDigest {
  import opened Wrappers
  import opened RecordStore

  /** A lowercase hexadecimal digit. */
  predicate IsHexDigit(c: char) {
    '0' <= c <= '9' || 'a' <= c <= 'f'
  }

  /** A SHA-256 sum. */
  type Digest = d: seq<byte> | |d| == 32 witness seq(32, i => 0)

  function HexDigit(n: int): (c: char)
    requires 0 <= n < 16
    ensures IsHexDigit(c)
  {
    if n < 10 then ('0' as int + n) as char else ('a' as int + n - 10) as char
  }

  /** The value of a lowercase hexadecimal digit. */
  function DigitValue(c: char): (v: Option<int>)
    ensures v.Some? <==> IsHexDigit(c)
    ensures v.Some? ==> 0 <= v.value < 16 && HexDigit(v.value) == c
  {
    if '0' <= c <= '9' then Some(c as int - '0' as int)
    else if 'a' <= c <= 'f' then Some(c as int - 'a' as int + 10)
    else None
  }

  /** `fmt.Sprintf("%x", bs)`: two lowercase digits per byte, high nibble first. */
  function Hex(bs: seq<byte>): (s: string)
    ensures |s| == 2 * |bs|
    ensures forall i :: 0 <= i < |s| ==> IsHexDigit(s[i])
  {
    if bs == [] then ""
    else [HexDigit(bs[0] / 16), HexDigit(bs[0] % 16)] + Hex(bs[1..])
  }

  /** Reads back a string of lowercase digit pairs. */
  function UnHex(s: string): Option<seq<byte>>
    decreases |s|
  {
    if s == [] then Some([])
    else if |s| == 1 then None
    else
      match (DigitValue(s[0]), DigitValue(s[1]), UnHex(s[2..]))
      case (Some(hi), Some(lo), Some(rest)) => Some([hi * 16 + lo] + rest)
      case _ => None
  }

  /** Printing loses nothing: the digits read back as the bytes they came from. */
  lemma {:induction false} UnHexHex(bs: seq<byte>)
    ensures UnHex(Hex(bs)) == Some(bs)
  {
    if bs != [] {
      var s := Hex(bs);
      assert s[2..] == Hex(bs[1..]);
      UnHexHex(bs[1..]);
      assert DigitValue(s[0]) == Some(bs[0] / 16);
      assert DigitValue(s[1]) == Some(bs[0] % 16);
      assert [bs[0]] + bs[1..] == bs;
    }
  }

  /** Distinct sums give distinct version strings. */
  lemma HexInjective(a: seq<byte>, b: seq<byte>)
    requires Hex(a) == Hex(b)
    ensures a == b
  {
    UnHexHex(a);
    UnHexHex(b);
  }
}
