/** Bytes and fixed-width big-endian integers, the building blocks of the
    Solidity ABI's static encoding. */
module Bytes {

  type byte = x: int | 0 <= x < 256

  function Pow256(k: nat): (r: nat)
    ensures r >= 1
  {
    if k == 0 then 1 else 256 * Pow256(k - 1)
  }

  /** 2^256 and 2^160: one more than the largest `uint256` and `uint160`. */
  const UINT256_LIMIT: nat := 0x1_0000_0000_0000_0000_0000_0000_0000_0000_0000_0000_0000_0000_0000_0000_0000_0000
  const UINT160_LIMIT: nat := 0x1_0000_0000_0000_0000_0000_0000_0000_0000_0000_0000

  lemma Limits()
    ensures Pow256(1) == 256 && Pow256(20) == UINT160_LIMIT && Pow256(32) == UINT256_LIMIT
  {
    assert Pow256(8) == 0x1_0000_0000_0000_0000;
    assert Pow256(16) == 0x1_0000_0000_0000_0000_0000_0000_0000_0000;
    assert Pow256(24) == 0x1_0000_0000_0000_0000_0000_0000_0000_0000_0000_0000_0000_0000;
  }

  lemma {:induction false} Pow256Monotonic(j: nat, k: nat)
    requires j <= k
    ensures Pow256(j) <= Pow256(k)
  {
    if j < k {
      Pow256Monotonic(j, k - 1);
    }
  }

  function Zeros(n: nat): (r: seq<byte>)
    ensures |r| == n && forall i :: 0 <= i < n ==> r[i] == 0
  {
    seq(n, _ => 0)
  }

  /** `n.to_bytes(len, 'big')`: n as exactly `len` big-endian bytes. */
  function ToBigEndian(n: nat, len: nat): (r: seq<byte>)
    requires n < Pow256(len)
    ensures |r| == len
  {
    if len == 0 then []
    else
      assert n / 256 < Pow256(len - 1);
      ToBigEndian(n / 256, len - 1) + [n % 256]
  }

  /** `int.from_bytes(s, 'big')`: the unsigned integer a big-endian byte string denotes. */
  function FromBigEndian(s: seq<byte>): (r: nat)
    ensures r < Pow256(|s|)
  {
    if s == [] then 0
    else
      var prefix := FromBigEndian(s[..|s| - 1]);
      assert prefix <= Pow256(|s| - 1) - 1;
      assert prefix * 256 <= Pow256(|s|) - 256;
      prefix * 256 + s[|s| - 1]
  }

  /** Decoding an encoded integer gives it back. */
  lemma {:induction false} FromToBigEndian(n: nat, len: nat)
    requires n < Pow256(len)
    ensures FromBigEndian(ToBigEndian(n, len)) == n
  {
    if len > 0 {
      var r := ToBigEndian(n, len);
      assert r[..len - 1] == ToBigEndian(n / 256, len - 1);
      FromToBigEndian(n / 256, len - 1);
    }
  }

  /** Encoding a decoded byte string gives it back: the encoding is onto. */
  lemma {:induction false} ToFromBigEndian(s: seq<byte>)
    ensures ToBigEndian(FromBigEndian(s), |s|) == s
  {
    if s != [] {
      var n := FromBigEndian(s);
      var prefix := FromBigEndian(s[..|s| - 1]);
      assert n / 256 == prefix && n % 256 == s[|s| - 1];
      ToFromBigEndian(s[..|s| - 1]);
    }
  }

  /** A value that fits in `m` bytes is written in `len >= m` bytes as
      zero padding on the left followed by its `m`-byte encoding. */
  lemma {:induction false} ToBigEndianPadded(n: nat, m: nat, len: nat)
    requires m <= len && n < Pow256(m)
    ensures Pow256(m) <= Pow256(len)
    ensures ToBigEndian(n, len) == Zeros(len - m) + ToBigEndian(n, m)
  {
    Pow256Monotonic(m, len);
    if len == m {
      assert Zeros(0) == [];
    } else if m == 0 {
      assert n == 0;
      ToBigEndianPadded(0, 0, len - 1);
      assert Zeros(len - 1) + [0] == Zeros(len);
    } else {
      ToBigEndianPadded(n / 256, m - 1, len - 1);
      assert Zeros(len - m) + ToBigEndian(n / 256, m - 1) + [n % 256]
          == Zeros(len - m) + (ToBigEndian(n / 256, m - 1) + [n % 256]);
    }
  }

  /** A single byte written in `len >= 1` bytes: zeros, then the byte. */
  lemma ByteToBigEndian(v: byte, len: nat)
    requires 1 <= len
    ensures Pow256(1) <= Pow256(len)
    ensures ToBigEndian(v, len) == Zeros(len - 1) + [v]
  {
    ToBigEndianPadded(v, 1, len);
    assert ToBigEndian(v, 1) == [v] by {
      assert v / 256 == 0 && v % 256 == v;
    }
  }
}
