/** `create_signature`: the EIP-712 typed-data digest of a price update and
    the Solidity-ABI encoding of its secp256k1 signature, as the BondOracle
    contract recomputes and decodes them (EIP-712, section "Specification";
    Solidity Contract ABI Specification, static tuple encoding). keccak256 and
    signing are opaque operations passed in; everything around them is modelled
    byte for byte. */
module SignatureUtils {
  import opened Wrappers
  import opened Bytes
  import Hex
  import NonceManagement

  type Word = s: seq<byte> | |s| == 32 witness Zeros(32)
  type Address = s: seq<byte> | |s| == 20 witness Zeros(20)

  /** The (r, s, v) triple that signing a digest yields. */
  datatype RawSignature = RawSignature(r: int, s: int, v: int)

  /** keccak256 over bytes, and signing a 32-byte digest with the service's key. */
  datatype Crypto = Crypto(keccak: seq<byte> -> Word, sign: Word -> RawSignature)

  datatype EncodeError =
    | Overflow(value: int)                          // int.to_bytes raises OverflowError
    | ValueOutOfBounds(abiType: string, value: int) // eth_abi refuses the value for its type

  /** The settings `create_signature` reads from the provider's configuration. */
  datatype SignerConfig = SignerConfig(chainId: int, oracle: Address, expirySeconds: int)

  /** What `create_signature` returns: (signature_hex, nonce, deadline). */
  datatype SignedPrice = SignedPrice(signatureHex: string, nonce: int, deadline: int)

  const DOMAIN_TYPE := "EIP712Domain(string name,string version,uint256 chainId,address verifyingContract)"
  const PRICE_UPDATE_TYPE := "PriceUpdate(string secid,uint160 price,uint256 nonce,uint256 deadline)"
  const DOMAIN_NAME := "BondOracle"
  const DOMAIN_VERSION := "1"

  /** The UTF-8 bytes of one character. */
  function Utf8Char(c: char): (r: seq<byte>)
    ensures 1 <= |r| <= 4
  {
    var n := c as int;
    if n < 0x80 then [n]
    else if n < 0x800 then [0xC0 + n / 64, 0x80 + n % 64]
    else if n < 0x10000 then [0xE0 + n / 4096, 0x80 + (n / 64) % 64, 0x80 + n % 64]
    else [0xF0 + n / 262144, 0x80 + (n / 4096) % 64, 0x80 + (n / 64) % 64, 0x80 + n % 64]
  }

  /** `text.encode("utf-8")`. */
  function Utf8(s: string): (r: seq<byte>)
    ensures |s| <= |r| <= 4 * |s|
  {
    Concat(seq(|s|, i requires 0 <= i < |s| => Utf8Char(s[i])))
  }

  /** The bytes of the characters' encodings laid end to end. */
  function Concat(parts: seq<seq<byte>>): (r: seq<byte>)
    requires forall i :: 0 <= i < |parts| ==> 1 <= |parts[i]| <= 4
    ensures |parts| <= |r| <= 4 * |parts|
  {
    if parts == [] then [] else parts[0] + Concat(parts[1..])
  }

  /** `Web3.keccak(text=s)`. */
  function KeccakText(c: Crypto, s: string): Word {
    c.keccak(Utf8(s))
  }

  /** The `i`-th 32-byte word of an ABI encoding. */
  function WordAt(b: seq<byte>, i: nat): seq<byte>
    requires 32 * i + 32 <= |b|
  {
    b[32 * i .. 32 * i + 32]
  }

  /** Five words laid end to end, as `abi.encode` lays out five static values. */
  function Words5(a: Word, b: Word, c: Word, d: Word, e: Word): (s: seq<byte>)
    ensures |s| == 160
    ensures WordAt(s, 0) == a && WordAt(s, 1) == b && WordAt(s, 2) == c
    ensures WordAt(s, 3) == d && WordAt(s, 4) == e
  {
    a + b + c + d + e
  }

  /** The ABI head word of an unsigned integer of `width` bytes (`uint8` to
      `uint256`): the value big-endian, left-padded with zeros. */
  function EncodeUint(abiType: string, width: nat, n: int): (r: Result<Word, EncodeError>)
    requires 1 <= width <= 32
    ensures r.Ok? <==> 0 <= n < Pow256(width)
    ensures r.Ok? ==> FromBigEndian(r.value) == n
    ensures r.Ok? ==> r.value[..32 - width] == Zeros(32 - width)
  {
    if 0 <= n < Pow256(width) then
      ToBigEndianPadded(n, width, 32);
      FromToBigEndian(n, 32);
      var w := ToBigEndian(n, 32);
      assert w[..32 - width] == Zeros(32 - width);
      Ok(w)
    else Err(ValueOutOfBounds(abiType, n))
  }

  /** The ABI head word of an address: twelve zero bytes, then the address. */
  function EncodeAddress(a: Address): (w: Word)
    ensures w[..12] == Zeros(12) && w[12..] == a
  {
    Zeros(12) + a
  }

  /** The hashes of the four constant strings of the typed data. */
  datatype TypeHashes = TypeHashes(domainType: Word, name: Word, version: Word, priceUpdateType: Word)

  /** `web3.keccak(text=...)` of the domain type, "BondOracle", "1" and the price-update type. */
  function ConstantHashes(c: Crypto): (h: TypeHashes)
    ensures h.domainType == KeccakText(c, DOMAIN_TYPE) && h.name == KeccakText(c, DOMAIN_NAME)
    ensures h.version == KeccakText(c, DOMAIN_VERSION) && h.priceUpdateType == KeccakText(c, PRICE_UPDATE_TYPE)
  {
    TypeHashes(KeccakText(c, DOMAIN_TYPE), KeccakText(c, DOMAIN_NAME), KeccakText(c, DOMAIN_VERSION),
               KeccakText(c, PRICE_UPDATE_TYPE))
  }

  /** `abi.encode(domain_type_hash, name_hash, version_hash, chain_id, verifying_contract)`:
      the preimage of the domain separator. */
  function DomainPreimage(h: TypeHashes, cfg: SignerConfig): (r: Result<seq<byte>, EncodeError>)
    ensures r.Ok? <==> 0 <= cfg.chainId < UINT256_LIMIT
    ensures r.Ok? ==> |r.value| == 160
    ensures r.Ok? ==> WordAt(r.value, 0) == h.domainType
    ensures r.Ok? ==> WordAt(r.value, 1) == h.name
    ensures r.Ok? ==> WordAt(r.value, 2) == h.version
    ensures r.Ok? ==> FromBigEndian(WordAt(r.value, 3)) == cfg.chainId
    ensures r.Ok? ==> WordAt(r.value, 4) == Zeros(12) + cfg.oracle
  {
    Limits();
    var chain :- EncodeUint("uint256", 32, cfg.chainId);
    Ok(Words5(h.domainType, h.name, h.version, chain, EncodeAddress(cfg.oracle)))
  }

  /** `abi.encode(price_update_type_hash, secid_hash, price, nonce, deadline)`
      with `price` a `uint160`: the preimage of the struct hash. */
  function StructPreimage(h: TypeHashes, secidHash: Word, price: int, nonce: int, deadline: int)
    : (r: Result<seq<byte>, EncodeError>)
    ensures r.Ok? <==> 0 <= price < UINT160_LIMIT && 0 <= nonce < UINT256_LIMIT && 0 <= deadline < UINT256_LIMIT
    ensures r.Ok? ==> |r.value| == 160
    ensures r.Ok? ==> WordAt(r.value, 0) == h.priceUpdateType
    ensures r.Ok? ==> WordAt(r.value, 1) == secidHash
  {
    Limits();
    var p :- EncodeUint("uint160", 20, price);
    var n :- EncodeUint("uint256", 32, nonce);
    var d :- EncodeUint("uint256", 32, deadline);
    Ok(Words5(h.priceUpdateType, secidHash, p, n, d))
  }

  /** The last three words of the struct preimage hold the price (with the
      twelve high bytes a `uint160` leaves zero), the nonce and the deadline. */
  lemma StructPreimageValues(h: TypeHashes, secidHash: Word, price: int, nonce: int, deadline: int)
    requires StructPreimage(h, secidHash, price, nonce, deadline).Ok?
    ensures var b := StructPreimage(h, secidHash, price, nonce, deadline).value;
            && FromBigEndian(WordAt(b, 2)) == price && WordAt(b, 2)[..12] == Zeros(12)
            && FromBigEndian(WordAt(b, 3)) == nonce
            && FromBigEndian(WordAt(b, 4)) == deadline
  {
  }

  /** `b"\x19\x01" + domain_separator + struct_hash`: what is hashed into the signed digest. */
  function DigestPreimage(domainSeparator: Word, structHash: Word): (r: seq<byte>)
    ensures |r| == 66
    ensures r[0] == 0x19 && r[1] == 0x01
    ensures r[2..34] == domainSeparator && r[34..] == structHash
  {
    [0x19, 0x01] + domainSeparator + structHash
  }

  /** The recovery id as the contract expects it: 0 and 1 become 27 and 28. */
  function AdjustV(v: int): (r: int)
    ensures v < 27 ==> r == v + 27
    ensures v >= 27 ==> r == v
  {
    if v < 27 then v + 27 else v
  }

  lemma AdjustVProperties(v: int)
    ensures v == 0 ==> AdjustV(v) == 27
    ensures v == 1 ==> AdjustV(v) == 28
    ensures v >= 0 ==> AdjustV(v) >= 27 && AdjustV(AdjustV(v)) == AdjustV(v)
  {
  }

  /** Three words laid end to end. */
  function Words3(a: Word, b: Word, c: Word): (s: seq<byte>)
    ensures |s| == 96 && s[..32] == a && s[32..64] == b && s[64..] == c
  {
    a + b + c
  }

  /** The head word of a `uint8`: 31 zero bytes, then the value. */
  lemma Uint8Word(v: int)
    requires 0 <= v < 256
    ensures EncodeUint("uint8", 1, v) == Ok(Zeros(31) + [v])
  {
    ByteToBigEndian(v, 32);
  }

  /** `n.to_bytes(32, byteorder='big')`: raises OverflowError unless 0 <= n < 2^256. */
  function ToBytes32(n: int): (r: Result<Word, EncodeError>)
    ensures r.Ok? <==> 0 <= n < UINT256_LIMIT
    ensures r.Ok? ==> FromBigEndian(r.value) == n
  {
    if 0 <= n < UINT256_LIMIT then
      Limits();
      FromToBigEndian(n, 32);
      Ok(ToBigEndian(n, 32))
    else Err(Overflow(n))
  }

  /** `abi.encode((bytes32, bytes32, uint8), (r.to_bytes(32), s.to_bytes(32), v))`. */
  function EncodeSignature(r: int, s: int, v: int): (b: Result<seq<byte>, EncodeError>)
    ensures b.Ok? <==> 0 <= r < UINT256_LIMIT && 0 <= s < UINT256_LIMIT && 0 <= v < 256
    ensures b.Ok? ==> |b.value| == 96 && b.value[64..] == Zeros(31) + [v]
  {
    var rw :- ToBytes32(r);
    var sw :- ToBytes32(s);
    Limits();
    var vw :- EncodeUint("uint8", 1, v);
    Uint8Word(v);
    Ok(Words3(rw, sw, vw))
  }

  /** What the contract's `abi.decode(_signature, (bytes32, bytes32, uint8))`
      reads from the bytes: `None` where it reverts (too short, or a `uint8`
      word with high bits set). */
  function DecodeSignature(b: seq<byte>): Option<(int, int, int)> {
    if |b| < 96 || b[64..95] != Zeros(31) then None
    else Some((FromBigEndian(b[..32]), FromBigEndian(b[32..64]), b[95]))
  }

  /** The first two words of an encoded signature hold r and s. */
  lemma EncodeSignatureWords(r: int, s: int, v: int)
    requires EncodeSignature(r, s, v).Ok?
    ensures FromBigEndian(EncodeSignature(r, s, v).value[..32]) == r
    ensures FromBigEndian(EncodeSignature(r, s, v).value[32..64]) == s
  {
  }

  /** The contract decodes exactly the (r, s, v) that was encoded. */
  lemma DecodeEncodeSignature(r: int, s: int, v: int)
    requires 0 <= r < UINT256_LIMIT && 0 <= s < UINT256_LIMIT && 0 <= v < 256
    ensures EncodeSignature(r, s, v).Ok?
    ensures DecodeSignature(EncodeSignature(r, s, v).value) == Some((r, s, v))
  {
    var b := EncodeSignature(r, s, v).value;
    EncodeSignatureWords(r, s, v);
    assert b[64..95] == b[64..][..31];
    assert b[95] == b[64..][31];
  }

  /** Any 96 bytes the contract accepts are the encoding of what it decodes. */
  lemma EncodeDecodeSignature(b: seq<byte>)
    requires |b| == 96 && DecodeSignature(b).Some?
    ensures var (r, s, v) := DecodeSignature(b).value;
            EncodeSignature(r, s, v) == Ok(b)
  {
    var (r, s, v) := DecodeSignature(b).value;
    Limits();
    var e := EncodeSignature(r, s, v).value;
    ToFromBigEndian(b[..32]);
    ToFromBigEndian(e[..32]);
    ToFromBigEndian(b[32..64]);
    ToFromBigEndian(e[32..64]);
    assert b[64..] == b[64..95] + [b[95]];
    assert e == e[..32] + e[32..64] + e[64..];
    assert b == b[..32] + b[32..64] + b[64..];
  }

  /** `'0x' + signature_bytes.hex()`. */
  function SignatureHex(b: seq<byte>): (s: string)
    ensures |s| == 2 + 2 * |b| && s[..2] == "0x"
  {
    "0x" + Hex.ToHex(b)
  }

  /** The settings and fields fit their ABI types: exactly when both preimages can be encoded. */
  predicate FieldsFit(cfg: SignerConfig, price: int, nonce: int, deadline: int) {
    0 <= cfg.chainId < UINT256_LIMIT && 0 <= price < UINT160_LIMIT
    && 0 <= nonce < UINT256_LIMIT && 0 <= deadline < UINT256_LIMIT
  }

  /** The digest that is signed for one price update. */
  function MessageHash(c: Crypto, h: TypeHashes, cfg: SignerConfig, secid: string, price: int, nonce: int, deadline: int)
    : (r: Result<Word, EncodeError>)
    ensures r.Ok? <==> FieldsFit(cfg, price, nonce, deadline)
  {
    var domain :- DomainPreimage(h, cfg);
    var struct :- StructPreimage(h, KeccakText(c, secid), price, nonce, deadline);
    Ok(c.keccak(DigestPreimage(c.keccak(domain), c.keccak(struct))))
  }

  /** `create_signature` once the nonce and the deadline are fixed. */
  function SignPrice(c: Crypto, h: TypeHashes, cfg: SignerConfig, secid: string, price: int, nonce: int, deadline: int)
    : (r: Result<SignedPrice, EncodeError>)
    ensures !FieldsFit(cfg, price, nonce, deadline) ==> r.Err?
    ensures r.Ok? ==> r.value.nonce == nonce && r.value.deadline == deadline
    ensures r.Ok? ==> |r.value.signatureHex| == 194 && r.value.signatureHex[..2] == "0x"
  {
    var digest :- MessageHash(c, h, cfg, secid, price, nonce, deadline);
    var raw := c.sign(digest);
    var bytes :- EncodeSignature(raw.r, raw.s, AdjustV(raw.v));
    Ok(SignedPrice(SignatureHex(bytes), nonce, deadline))
  }

  /** Once the fields fit, signing succeeds exactly when the signature's
      (r, s, adjusted v) fit (bytes32, bytes32, uint8), and the hexadecimal
      string after 0x decodes to exactly those three values. */
  lemma SignPriceDecodes(c: Crypto, h: TypeHashes, cfg: SignerConfig, secid: string, price: int, nonce: int, deadline: int)
    requires FieldsFit(cfg, price, nonce, deadline)
    ensures var raw := c.sign(MessageHash(c, h, cfg, secid, price, nonce, deadline).value);
            var r := SignPrice(c, h, cfg, secid, price, nonce, deadline);
            && (r.Ok? <==> 0 <= raw.r < UINT256_LIMIT && 0 <= raw.s < UINT256_LIMIT && 0 <= AdjustV(raw.v) < 256)
            && (r.Ok? ==> Hex.FromHex(r.value.signatureHex[2..]).Some?
                          && DecodeSignature(Hex.FromHex(r.value.signatureHex[2..]).value)
                             == Some((raw.r, raw.s, AdjustV(raw.v))))
  {
    var raw := c.sign(MessageHash(c, h, cfg, secid, price, nonce, deadline).value);
    var e := EncodeSignature(raw.r, raw.s, AdjustV(raw.v));
    if e.Ok? {
      var hex := SignatureHex(e.value);
      assert hex[2..] == Hex.ToHex(e.value);
      Hex.FromToHex(e.value);
      DecodeEncodeSignature(raw.r, raw.s, AdjustV(raw.v));
    }
  }

  /** `create_signature(secid, price, nonce, deadline)`: an omitted nonce is
      drawn from the nonce manager (advancing it even if encoding then fails),
      an omitted deadline is `now` plus the configured expiry. */
  method CreateSignature(c: Crypto, cfg: SignerConfig, m: NonceManagement.NonceManager,
                         secid: string, price: int, nonce: Option<int>, deadline: Option<int>, now: int)
    returns (r: Result<SignedPrice, EncodeError>)
    modifies m
    ensures nonce.Some? ==> m.currentNonce == old(m.currentNonce) && m.stored == old(m.stored)
    ensures nonce.None? ==> m.currentNonce == old(m.currentNonce) + 1
                            && m.stored == NonceManagement.Record(Some(m.currentNonce))
    ensures r == SignPrice(c, ConstantHashes(c), cfg, secid, price,
                           if nonce.Some? then nonce.value else m.currentNonce,
                           if deadline.Some? then deadline.value else now + cfg.expirySeconds)
  {
    var n: int;
    if nonce.None? {
      n := m.GetNextNonce();
    } else {
      n := nonce.value;
    }
    var d := if deadline.Some? then deadline.value else now + cfg.expirySeconds;
    r := SignPrice(c, ConstantHashes(c), cfg, secid, price, n, d);
  }
}
