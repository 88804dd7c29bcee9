/** Lowercase hexadecimal encoding (Go's `encoding/hex`) and the note identifiers built from it. */
module Hex {
  import opened Wrappers

  type Byte = x: int | 0 <= x < 256

  /** Five random bytes, the input of `generateId`. */
  type IdBytes = b: seq<Byte> | |b| == 5 witness [0, 0, 0, 0, 0]

  predicate IsLowerHex(c: char)
  {
    '0' <= c <= '9' || 'a' <= c <= 'f'
  }

  /** The character for a nibble, from the table "0123456789abcdef". */
  function Digit(n: int): (c: char)
    requires 0 <= n < 16
    ensures IsLowerHex(c)
  {
    if n < 10 then ('0' as int + n) as char else ('a' as int + n - 10) as char
  }

  function DigitValue(c: char): (n: int)
    requires IsLowerHex(c)
    ensures 0 <= n < 16 && Digit(n) == c
  {
    if c <= '9' then c as int - '0' as int else c as int - 'a' as int + 10
  }

  /** `hex.EncodeToString`: two characters per byte, high nibble first. */
  function Encode(bs: seq<Byte>): (s: string)
    ensures |s| == 2 * |bs|
    ensures forall i :: 0 <= i < |s| ==> IsLowerHex(s[i])
  {
    if bs == [] then "" else [Digit(bs[0] / 16), Digit(bs[0] % 16)] + Encode(bs[1..])
  }

  /** The inverse of `Encode`: `None` for odd lengths or characters outside the table. */
  function Decode(s: string): (r: Option<seq<Byte>>)
    ensures r.Some? <==> |s| % 2 == 0 && forall i :: 0 <= i < |s| ==> IsLowerHex(s[i])
    ensures r.Some? ==> Encode(r.value) == s
  {
    if s == [] then Some([])
    else if |s| == 1 || !IsLowerHex(s[0]) || !IsLowerHex(s[1]) then None
    else match Decode(s[2..])
      case None =>
        assert forall i :: 2 <= i < |s| ==> s[i] == s[2..][i - 2];
        None
      case Some(rest) =>
        var hi, lo := DigitValue(s[0]), DigitValue(s[1]);
        Nibbles(hi, lo);
        var b := (hi * 16 + lo) as Byte;
        EncodeCons(b, rest);
        assert s == [s[0], s[1]] + s[2..];
        Some([b] + rest)
  }

  lemma {:induction false} Nibbles(hi: int, lo: int)
    requires 0 <= hi < 16 && 0 <= lo < 16
    ensures 0 <= hi * 16 + lo < 256
    ensures (hi * 16 + lo) / 16 == hi && (hi * 16 + lo) % 16 == lo
  {
  }

  lemma {:induction false} EncodeCons(b: Byte, rest: seq<Byte>)
    ensures Encode([b] + rest) == [Digit(b / 16), Digit(b % 16)] + Encode(rest)
  {
    assert ([b] + rest)[1..] == rest;
  }

  lemma {:induction false} DecodeEncode(bs: seq<Byte>)
    ensures Decode(Encode(bs)) == Some(bs)
  {
    if bs != [] {
      DecodeEncode(bs[1..]);
      var s := Encode(bs);
      assert s[2..] == Encode(bs[1..]);
      assert DigitValue(s[0]) == bs[0] / 16;
      assert DigitValue(s[1]) == bs[0] % 16;
      assert bs == [bs[0]] + bs[1..];
    }
  }

  /** `generateId`: the hexadecimal encoding of five random bytes, ten lowercase hex
      characters from which the bytes can be read back. */
  function GenerateId(buf: IdBytes): (id: string)
    ensures |id| == 10
    ensures forall i :: 0 <= i < |id| ==> IsLowerHex(id[i])
    ensures Decode(id) == Some(buf)
  {
    DecodeEncode(buf);
    Encode(buf)
  }
}
