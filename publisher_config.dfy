/** The publisher's start-up check of its settings (`Config.validate`): the
    oracle address, the signing key and the optional chain id, checked in that
    order, the chain id being replaced by its integer value when it is set. */
module PublisherConfig {
  import opened Wrappers
  import Hex
  import Numeric

  /** `Config.CHAIN_ID`: unset, the text read from the environment, or the
      integer a previous validation stored in its place. */
  datatype Setting = Unset | Text(s: string) | Number(n: int)

  /** The ValueError `validate` raises, one constructor per message. */
  datatype ConfigError = BadAddress | MissingKey | BadKeyLength | BadKeyHex | BadChainId

  function Message(e: ConfigError): string {
    match e
    case BadAddress => "Invalid ONCHAIN_PUBLISHER_BOND_ORACLE_ADDRESS format."
    case MissingKey => "ONCHAIN_PUBLISHER_PRIVATE_KEY is missing."
    case BadKeyLength => "Invalid ONCHAIN_PUBLISHER_PRIVATE_KEY format. Must be 64 hexadecimal characters."
    case BadKeyHex => "ONCHAIN_PUBLISHER_PRIVATE_KEY is not a valid hexadecimal string."
    case BadChainId => "ONCHAIN_PUBLISHER_CHAIN_ID must be an integer if provided."
  }

  predicate StartsWith0x(s: string) {
    |s| >= 2 && s[..2] == "0x"
  }

  /** The address is present, non-empty, starts with 0x and is 42 characters
      long; its other 40 characters are not looked at. */
  predicate AddressOk(address: Option<string>) {
    address.Some? && address.value != [] && StartsWith0x(address.value) && |address.value| == 42
  }

  /** `not Config.PUBLISHER_PRIVATE_KEY`. */
  predicate KeyMissing(key: Option<string>) {
    key.None? || key.value == []
  }

  /** The key with one leading 0x removed. */
  function KeyDigits(key: string): (d: string)
    ensures StartsWith0x(key) ==> key == "0x" + d
    ensures !StartsWith0x(key) ==> d == key
  {
    if StartsWith0x(key) then key[2..] else key
  }

  /** Python truthiness of the chain-id setting. */
  predicate IsSet(chain: Setting) {
    match chain
    case Unset => false
    case Text(s) => s != []
    case Number(n) => n != 0
  }

  /** `int(Config.CHAIN_ID)`. */
  function ChainIdValue(chain: Setting): Option<int> {
    match chain
    case Unset => None
    case Text(s) => Numeric.ParseInt(s)
    case Number(n) => Some(n)
  }

  /** The error `validate` raises, if any: the first failing check decides. */
  function ValidationError(address: Option<string>, key: Option<string>, chain: Setting): Option<ConfigError> {
    if !AddressOk(address) then Some(BadAddress)
    else if KeyMissing(key) then Some(MissingKey)
    else if |KeyDigits(key.value)| != 64 then Some(BadKeyLength)
    else if Hex.FromHex(KeyDigits(key.value)).None? then Some(BadKeyHex)
    else if IsSet(chain) && ChainIdValue(chain).None? then Some(BadChainId)
    else None
  }

  /** The value `Config.CHAIN_ID` holds after `validate`: its integer parse
      when it was set and parsed, otherwise what it was. */
  function ChainIdAfter(address: Option<string>, key: Option<string>, chain: Setting): Setting {
    if ValidationError(address, key, chain) == None && IsSet(chain) then Number(ChainIdValue(chain).value)
    else chain
  }

  /** The address check rejects exactly the absent, the non-0x and the
      wrong-length addresses, and accepts 42 characters of anything after 0x. */
  lemma AddressRule(address: Option<string>, key: Option<string>, chain: Setting)
    ensures ValidationError(address, key, chain) == Some(BadAddress)
            <==> !(address.Some? && StartsWith0x(address.value) && |address.value| == 42)
    ensures ValidationError(Some("0x" + seq(40, _ => 'z')), key, chain) != Some(BadAddress)
  {
    var z := "0x" + seq(40, _ => 'z');
    assert z[..2] == "0x";
  }

  /** With a good address, a missing or empty key is reported as missing. */
  lemma MissingKeyRule(address: Option<string>, key: Option<string>, chain: Setting)
    requires AddressOk(address)
    ensures ValidationError(address, key, chain) == Some(MissingKey) <==> KeyMissing(key)
  {
  }

  /** A present key must have exactly 64 characters after an optional 0x, and
      these must all be hexadecimal digits. */
  lemma KeyRules(address: Option<string>, key: string, chain: Setting)
    requires AddressOk(address) && key != []
    ensures ValidationError(address, Some(key), chain) == Some(BadKeyLength) <==> |KeyDigits(key)| != 64
    ensures ValidationError(address, Some(key), chain) == Some(BadKeyHex)
            <==> |KeyDigits(key)| == 64 && !Hex.IsHexString(KeyDigits(key))
  {
  }

  /** Validation passes exactly when every check passes, whatever the order. */
  lemma ValidIff(address: Option<string>, key: Option<string>, chain: Setting)
    ensures ValidationError(address, key, chain) == None
            <==> && AddressOk(address) && !KeyMissing(key)
                 && |KeyDigits(key.value)| == 64 && Hex.IsHexString(KeyDigits(key.value))
                 && (IsSet(chain) ==> ChainIdValue(chain).Some?)
  {
  }

  /** A set chain id that is not an integer is the last error reported; a set
      integer is stored as a number and an unset one is left as it was. */
  lemma ChainIdRule(address: Option<string>, key: Option<string>, s: string)
    requires AddressOk(address) && !KeyMissing(key)
    requires |KeyDigits(key.value)| == 64 && Hex.IsHexString(KeyDigits(key.value))
    ensures s != [] && Numeric.ParseInt(s).None? ==> ValidationError(address, key, Text(s)) == Some(BadChainId)
    ensures s != [] && Numeric.ParseInt(s).Some?
            ==> ChainIdAfter(address, key, Text(s)) == Number(Numeric.ParseInt(s).value)
    ensures ChainIdAfter(address, key, Text([])) == Text([])
    ensures ChainIdAfter(address, key, Unset) == Unset
  {
  }

  /** Validating a second time accepts again and leaves the stored chain id as is. */
  lemma ValidateIdempotent(address: Option<string>, key: Option<string>, chain: Setting)
    requires ValidationError(address, key, chain) == None
    ensures var after := ChainIdAfter(address, key, chain);
            ValidationError(address, key, after) == None && ChainIdAfter(address, key, after) == after
  {
  }

  /** The settings `validate` reads and the one it rewrites. */
  class Config {
    const oracleAddress: Option<string>
    const privateKey: Option<string>
    var chainId: Setting

    constructor (oracleAddress: Option<string>, privateKey: Option<string>, chainId: Setting)
      ensures this.oracleAddress == oracleAddress && this.privateKey == privateKey && this.chainId == chainId
    {
      this.oracleAddress := oracleAddress;
      this.privateKey := privateKey;
      this.chainId := chainId;
    }

    /** `Config.validate()`: `Some(e)` where it raises ValueError with `Message(e)`. */
    method Validate() returns (err: Option<ConfigError>)
      modifies this
      ensures err == ValidationError(oracleAddress, privateKey, old(chainId))
      ensures chainId == ChainIdAfter(oracleAddress, privateKey, old(chainId))
      ensures err.Some? ==> chainId == old(chainId)
    {
      if !(oracleAddress.Some? && oracleAddress.value != [] && StartsWith0x(oracleAddress.value)
           && |oracleAddress.value| == 42) {
        return Some(BadAddress);
      }
      if privateKey.None? || privateKey.value == [] {
        return Some(MissingKey);
      }
      var digits := if StartsWith0x(privateKey.value) then privateKey.value[2..] else privateKey.value;
      if |digits| != 64 {
        return Some(BadKeyLength);
      }
      if Hex.FromHex(digits).None? {
        return Some(BadKeyHex);
      }
      if IsSet(chainId) {
        var parsed := ChainIdValue(chainId);
        if parsed.None? {
          return Some(BadChainId);
        }
        chainId := Number(parsed.value);
      }
      return None;
    }
  }
}
