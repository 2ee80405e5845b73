/** Hexadecimal text and its bytes: Python's `bytes.fromhex` and `bytes.hex`,
    and the optional `0x` prefix Ethereum tooling puts in front of them. */
module Hex {
  import opened Wrappers
  import opened Bytes

  predicate IsHexDigit(c: char) {
    '0' <= c <= '9' || 'a' <= c <= 'f' || 'A' <= c <= 'F'
  }

  predicate IsHexString(s: string) {
    forall i :: 0 <= i < |s| ==> IsHexDigit(s[i])
  }

  function HexValue(c: char): (v: nat)
    requires IsHexDigit(c)
    ensures v < 16
  {
    if '0' <= c <= '9' then (c - '0') as nat
    else if 'a' <= c <= 'f' then (c - 'a') as nat + 10
    else (c - 'A') as nat + 10
  }

  /** The lower-case digit `bytes.hex()` writes for a nibble. */
  function HexChar(v: nat): (c: char)
    requires v < 16
    ensures IsHexDigit(c) && HexValue(c) == v
    ensures !('A' <= c <= 'F')
  {
    if v < 10 then ('0' as int + v) as char else ('a' as int + v - 10) as char
  }

  /** `bytes.fromhex(s)`: `None` where Python raises ValueError (a
      non-hexadecimal character, or an odd number of digits). */
  function FromHex(s: string): (r: Option<seq<byte>>)
    ensures r.Some? <==> |s| % 2 == 0 && IsHexString(s)
    ensures r.Some? ==> |r.value| == |s| / 2
    decreases |s|
  {
    if |s| == 0 then Some([])
    else if |s| == 1 then None
    else if IsHexDigit(s[0]) && IsHexDigit(s[1]) then
      match FromHex(s[2..])
      case None => None
      case Some(rest) => Some([HexValue(s[0]) * 16 + HexValue(s[1])] + rest)
    else None
  }

  /** `bytes.hex()`: two lower-case digits per byte, high nibble first. */
  function ToHex(bs: seq<byte>): (s: string)
    ensures |s| == 2 * |bs| && IsHexString(s)
    ensures forall i :: 0 <= i < |s| ==> !('A' <= s[i] <= 'F')
  {
    if bs == [] then [] else [HexChar(bs[0] / 16), HexChar(bs[0] % 16)] + ToHex(bs[1..])
  }

  /** Reading back hexadecimal text that `bytes.hex()` wrote gives the same bytes. */
  lemma {:induction false} FromToHex(bs: seq<byte>)
    ensures FromHex(ToHex(bs)) == Some(bs)
  {
    if bs != [] {
      var s := ToHex(bs);
      assert s[2..] == ToHex(bs[1..]);
      FromToHex(bs[1..]);
      assert bs == [bs[0]] + bs[1..];
    }
  }

  /** The text after one leading `0x`, if present (`s[2:] if s.startswith("0x") else s`). */
  function StripHexPrefix(s: string): (r: string)
    ensures |s| >= 2 && s[..2] == "0x" ==> s == "0x" + r
    ensures !(|s| >= 2 && s[..2] == "0x") ==> r == s
  {
    if |s| >= 2 && s[..2] == "0x" then s[2..] else s
  }
}
