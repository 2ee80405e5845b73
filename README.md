# OFZ bond price relay — a Dafny model

This project models the off-chain half of the OFZ bond oracle. There are two services.

- **The price provider** (`OffchainPriceProvider`) reads Russian government bond (OFZ) prices from the MOEX exchange. It chooses which market-data field gives the price. It reads and completes the bond description and falls back to the last daily candle. It scales the price to the oracle's integer format and can sign it as an EIP-712 typed-data message with a persistent global nonce. Its HTTP routes serve prices, and bond lists optionally filtered by registration in the BondOracle contract. Responses are cached with a TTL.
- **The on-chain publisher** (`OnchainPricePublisher`) validates its settings at start-up. On each update cycle it:
  - finds the SECIDs registered in the oracle;
  - fetches their signed prices from the provider;
  - compares each price with the on-chain price against a percentage threshold;
  - normalises the signature;
  - sends an update exactly when the update is needed, the data is complete and the signature's deadline has not passed.

The model has one module per source file. A few more modules hold the shared value types:

| module | file | models |
|---|---|---|
| `Wrappers` | wrappers.dfy | `Option` and `Result` |
| `Json` | json.dfy | JSON values as the services exchange them, Python truthiness, `dict.get` |
| `Bytes` | bytes.dfy | bytes and fixed-width big-endian integers |
| `Hex` | hex.dfy | `bytes.fromhex`, `bytes.hex` and the optional `0x` prefix |
| `Numeric` | numeric.dfy | `str.isdigit`, `float(str)`, `int(str)` and `round()` on plain decimal text |
| `NonceManagement` | nonce_manager.dfy | the persistent nonce counter (a class) |
| `SignatureUtils` | signature_utils.dfy | `create_signature`: EIP-712 preimages and ABI encoding of `(r, s, v)` |
| `PublisherConfig` | publisher_config.dfy | `Config.validate` (a class: it rewrites `CHAIN_ID`) |
| `AbiAdapter` | abi_adapter.dfy | `load_abi_from_file` format detection and errors |
| `CacheManagement` | cache_manager.dfy | the TTL response cache (a class) |
| `OfzPrices` | ofz_prices.dfy | MOEX price selection, bond details, nominal and candle fallbacks |
| `ProviderApp` | provider_app.dfy | the provider's routes, their caches and the price scaling |
| `Publisher` | publisher.dfy | the publisher's scan, fetch, decision and update cycle |


Where the source works step by step, the model is imperative:
- the nonce manager, the caches and the configuration are classes whose methods update their fields;
- the loops of `get_bond_details`, `get_all_prices`, `get_all_bonds`, `get_all_registered_secids`, `fetch_offchain_prices` and `run_update_cycle` are methods with loop invariants.

Each such method is proved equal to a specification function. The properties the source promises are proved as lemmas about those functions.

Everything outside the process is a parameter. This covers:
- the MOEX answers;
- the oracle's `secidToBond` and price-feed calls;
- the provider's HTTP answers as the publisher sees them;
- keccak256 and secp256k1 signing;
- the cache and nonce files;
- the clock.

An exception is modelled as an error value (`Result`, `Option`, or an outcome constructor). A route's 500 answer is `ServerError`.

## Model

| member | source | states |
|---|---|---|
| Hex.FromHex | backend/OnchainPricePublisher/publisher.py:495 | `bytes.fromhex` succeeds exactly on even-length hexadecimal text and gives half as many bytes as digits |
| Hex.ToHex | backend/OffchainPriceProvider/signature_utils.py:145 | `bytes.hex()` writes two lower-case hexadecimal digits per byte |
| Hex.FromToHex | backend/OffchainPriceProvider/signature_utils.py:145 | reading back the hexadecimal text `bytes.hex()` wrote gives the same bytes |
| Hex.StripHexPrefix | backend/OnchainPricePublisher/publisher.py:488 | one leading `0x` is removed when present, and the text is otherwise unchanged |
| Bytes.ToBigEndian | backend/OffchainPriceProvider/signature_utils.py:132-133 | `n.to_bytes(len, 'big')` has exactly `len` bytes |
| Bytes.FromToBigEndian | backend/OffchainPriceProvider/signature_utils.py:132-133 | decoding a big-endian encoding gives the integer back |
| Bytes.ToFromBigEndian | backend/OffchainPriceProvider/signature_utils.py:132-133 | every byte string is the encoding of the integer it denotes |
| Bytes.ToBigEndianPadded | backend/OffchainPriceProvider/signature_utils.py:91-101 | a value that fits in m bytes is written in a wider word as zero padding followed by its m-byte encoding |
| Numeric.RemoveFirstDotAllDigits | backend/OffchainPriceProvider/get_ofz_prices.py:121 | after `replace('.', '', 1)` the text is all digits exactly when it was digits and dots with at most one dot |
| Numeric.NumericTextIff | backend/OffchainPriceProvider/get_ofz_prices.py:121 | a value counts as numeric exactly when it is digits with at most one '.' and at least one digit |
| Numeric.ParseDecimal | backend/OffchainPriceProvider/get_ofz_prices.py:122 | `float(value)` of text that passed the numeric test is a non-negative number; its value is fixed by the three lemmas below |
| Numeric.ParseDecimalOfDigits | backend/OffchainPriceProvider/get_ofz_prices.py:121-122 | digits without a dot are read as the integer they write |
| Numeric.ParseDecimalOfDecimalText | backend/OffchainPriceProvider/get_ofz_prices.py:121-122 | `float(str(n)) == n` for every natural number n |
| Numeric.ParseDecimalValue | backend/OffchainPriceProvider/get_ofz_prices.py:121-122 | "whole.fraction" is read as whole plus fraction over ten to the number of fraction digits, for an empty whole or fraction part too |
| Numeric.ParseFloat | backend/OffchainPriceProvider/get_ofz_prices.py:221 | `float(text)` succeeds exactly on decimal text with an optional sign; a minus negates the value and a plus keeps it |
| Numeric.ParseFloatOfIntText | backend/OffchainPriceProvider/get_ofz_prices.py:221 | `float(str(n)) == n` for every integer n, negative ones included |
| Numeric.ParseInt | backend/OnchainPricePublisher/config.py:45 | `int(s)` succeeds exactly on an optional sign followed by digits, and unsigned digits give a non-negative value |
| Numeric.ParseIntOfDecimalText | backend/OnchainPricePublisher/config.py:45 | `int(str(n)) == n` |
| Numeric.ParseIntOfIntText | backend/OnchainPricePublisher/config.py:45 | `int(str(n)) == n` for every integer n, negative ones included |
| Numeric.RoundHalfEvenUnique | backend/OffchainPriceProvider/get_ofz_prices.py:134 | `round(x)` is the nearest integer with ties to even, and no other integer is both |
| NonceManagement.LoadedNonce | backend/OffchainPriceProvider/nonce_manager.py:38-53 | a stored "nonce" field is loaded as it is; a missing, unreadable or nonce-less file gives 0; loading fails only on a file that is not a JSON object |
| NonceManagement.NonceManager.constructor | backend/OffchainPriceProvider/nonce_manager.py:18-31 | the manager starts at the loaded nonce, and a missing file is created holding 0 |
| NonceManagement.NonceManager.GetNextNonce | backend/OffchainPriceProvider/nonce_manager.py:64-78 | the nonce grows by exactly one, the new value is returned and it is what the store now holds |
| NonceManagement.NonceManager.GetCurrentNonce | backend/OffchainPriceProvider/nonce_manager.py:80-87 | the current nonce is returned and nothing changes |
| NonceManagement.NewNonceManager | backend/OffchainPriceProvider/nonce_manager.py:18-36 | an empty path raises ValueError; a path without a directory part fails at `makedirs`; a non-object file fails to load; otherwise a fresh manager holds the loaded nonce |
| NonceManagement.FirstNonceFromEmptyStore | backend/OffchainPriceProvider/nonce_manager.py:44-53 | a missing, unreadable or nonce-less store makes the first issued nonce 1 |
| NonceManagement.IssueNonces | backend/OffchainPriceProvider/nonce_manager.py:64-78 | k successive calls return consecutive, strictly increasing values, and the store holds the last one |
| NonceManagement.RestartResumes | backend/OffchainPriceProvider/nonce_manager.py:18-78 | a manager started again on the same file continues the sequence: its first nonce is one more than the last one issued before |
| SignatureUtils.Utf8 | backend/OffchainPriceProvider/signature_utils.py:87 | `text.encode("utf-8")` takes one to four bytes per character |
| SignatureUtils.Words5 | backend/OffchainPriceProvider/signature_utils.py:71-80 | five static ABI values are laid out as five 32-byte words in order, 160 bytes |
| SignatureUtils.EncodeUint | backend/OffchainPriceProvider/signature_utils.py:91-100 | an unsigned integer encodes exactly when it fits its width, as its big-endian value left-padded with zeros |
| SignatureUtils.EncodeAddress | backend/OffchainPriceProvider/signature_utils.py:78 | an address word is twelve zero bytes followed by the address |
| SignatureUtils.ConstantHashes | backend/OffchainPriceProvider/signature_utils.py:66-84 | the four type and domain hashes are keccak256 of the domain type, "BondOracle", "1" and the price-update type |
| SignatureUtils.DomainPreimage | backend/OffchainPriceProvider/signature_utils.py:71-80 | encodes exactly when the chain id fits uint256: 160 bytes of type hash, name hash, version hash, chain id and padded address |
| SignatureUtils.StructPreimage | backend/OffchainPriceProvider/signature_utils.py:91-100 | encodes exactly when the price fits uint160 and the nonce and deadline fit uint256: 160 bytes starting with the type hash and the SECID hash |
| SignatureUtils.StructPreimageValues | backend/OffchainPriceProvider/signature_utils.py:91-100 | the last three words hold the price (high twelve bytes zero), the nonce and the deadline |
| SignatureUtils.DigestPreimage | backend/OffchainPriceProvider/signature_utils.py:105-107 | the signed digest's preimage is 0x19 0x01, the domain separator and the struct hash, 66 bytes |
| SignatureUtils.AdjustV | backend/OffchainPriceProvider/signature_utils.py:124-127 | v below 27 gains 27 and v of 27 or more is kept |
| SignatureUtils.AdjustVProperties | backend/OffchainPriceProvider/signature_utils.py:124-127 | 0 and 1 become 27 and 28, and the adjustment is idempotent on non-negative v |
| SignatureUtils.Uint8Word | backend/OffchainPriceProvider/signature_utils.py:137-144 | a uint8 head word is 31 zero bytes followed by the value |
| SignatureUtils.ToBytes32 | backend/OffchainPriceProvider/signature_utils.py:132-133 | `to_bytes(32)` succeeds exactly for 0 <= n < 2^256 and encodes n |
| SignatureUtils.EncodeSignature | backend/OffchainPriceProvider/signature_utils.py:137-144 | (r, s, v) encode exactly when they fit (bytes32, bytes32, uint8): 96 bytes ending in the padded v |
| SignatureUtils.EncodeSignatureWords | backend/OffchainPriceProvider/signature_utils.py:132-144 | the first two words of the encoding hold r and s big-endian |
| SignatureUtils.DecodeEncodeSignature | backend/OffchainPriceProvider/signature_utils.py:137-144 | the contract's `abi.decode(_, (bytes32, bytes32, uint8))` of the encoding gives exactly (r, s, v) |
| SignatureUtils.EncodeDecodeSignature | backend/OffchainPriceProvider/signature_utils.py:137-144 | any 96 bytes the contract accepts are the encoding of what it decodes |
| SignatureUtils.SignatureHex | backend/OffchainPriceProvider/signature_utils.py:145 | the signature text is "0x" followed by two hexadecimal digits per byte |
| SignatureUtils.MessageHash | backend/OffchainPriceProvider/signature_utils.py:62-107 | the digest can be computed exactly when the chain id, price, nonce and deadline fit their ABI types |
| SignatureUtils.SignPrice | backend/OffchainPriceProvider/signature_utils.py:66-155 | a signature is returned only when the fields fit; it carries the nonce and deadline encoded, and its text is "0x" plus 192 digits |
| SignatureUtils.SignPriceDecodes | backend/OffchainPriceProvider/signature_utils.py:110-145 | signing succeeds exactly when r, s and the adjusted v fit, and the text after 0x decodes to exactly those three values |
| SignatureUtils.CreateSignature | backend/OffchainPriceProvider/signature_utils.py:19-161 | an omitted nonce is drawn from the manager, which then holds and persists it; an omitted deadline is now plus the expiry; the result is the signature over exactly those values |
| PublisherConfig.KeyDigits | backend/OnchainPricePublisher/config.py:35 | the key with one leading 0x removed, unchanged otherwise |
| PublisherConfig.AddressRule | backend/OnchainPricePublisher/config.py:29-30 | the address is rejected exactly when it is absent, lacks 0x or is not 42 characters; the other 40 characters are not checked |
| PublisherConfig.MissingKeyRule | backend/OnchainPricePublisher/config.py:32-33 | with a good address, a missing or empty key is reported as missing |
| PublisherConfig.KeyRules | backend/OnchainPricePublisher/config.py:35-41 | a key is rejected for length exactly when its digits are not 64, and for hex exactly when 64 digits are not all hexadecimal |
| PublisherConfig.ValidIff | backend/OnchainPricePublisher/config.py:28-47 | validation passes exactly when every check passes |
| PublisherConfig.ChainIdRule | backend/OnchainPricePublisher/config.py:43-47 | a set non-integer chain id is the error reported; a set integer is stored as a number; an unset one is left as it was |
| PublisherConfig.ValidateIdempotent | backend/OnchainPricePublisher/config.py:28-47 | validating again accepts and leaves the stored chain id as it is |
| PublisherConfig.Config.Validate | backend/OnchainPricePublisher/config.py:28-47 | reports the first failing check, in the order address, key, chain id; rewrites the chain id only on success |
| AbiAdapter.DetectAbi | backend/OnchainPricePublisher/abi_adapter.py:31-45 | a list is the ABI itself; an object is recognised exactly when it has "abi", whose value is the ABI; nothing else is recognised |
| AbiAdapter.LoadAbiFromFile | backend/OnchainPricePublisher/abi_adapter.py:9-58 | a missing file and bad JSON keep their exception types; other read errors and an unrecognised shape become ValueError with the "Failed to load ABI: " prefix |
| AbiAdapter.ValueErrorsAreWrapped | backend/OnchainPricePublisher/abi_adapter.py:48-58 | every ValueError that escapes carries the "Failed to load ABI: " prefix |
| AbiAdapter.ObjectDependsOnlyOnAbi | backend/OnchainPricePublisher/abi_adapter.py:37-45 | two objects that agree on "abi" load the same, whatever else they hold |
| AbiAdapter.LoadedAbiShape | backend/OnchainPricePublisher/abi_adapter.py:31-40 | a successful load is a list returned unchanged or the "abi" member of an object |
| CacheManagement.LookupRule | backend/OffchainPriceProvider/cache_manager.py:23-44 | no file means no data; a file is served exactly while its age is at most the TTL, an age equal to the TTL still being served |
| CacheManagement.CorruptIsMiss | backend/OffchainPriceProvider/cache_manager.py:38-44 | a corrupt or unreadable file reads as no data, not as an error |
| CacheManagement.StaleStaysStale | backend/OffchainPriceProvider/cache_manager.py:34-36 | a lookup that misses for age keeps missing later |
| CacheManagement.WriteThenLookup | backend/OffchainPriceProvider/cache_manager.py:46-62 | data just written is served back unchanged until the TTL has passed |
| CacheManagement.CacheManager.constructor | backend/OffchainPriceProvider/cache_manager.py:10-21 | the manager starts with its TTL and the file as found |
| CacheManagement.CacheManager.GetCachedData | backend/OffchainPriceProvider/cache_manager.py:23-44 | the answer is the lookup rule on the current file; served data is the file's content within the TTL |
| CacheManagement.CacheManager.CacheData | backend/OffchainPriceProvider/cache_manager.py:46-62 | True exactly when the write completes; a failed open leaves the file, a failed write leaves it corrupt |
| CacheManagement.CacheManager.ClearCache | backend/OffchainPriceProvider/cache_manager.py:64-77 | True exactly when no file remains; an absent file gives True; a failed remove changes nothing |
| CacheManagement.ClearTwice | backend/OffchainPriceProvider/cache_manager.py:64-77 | after a successful clear nothing is served, and clearing again succeeds |
| CacheManagement.CacheRoundTrip | backend/OffchainPriceProvider/cache_manager.py:46-62 | a completed write is read back unchanged within the TTL, and a write that fails after the file was opened reads as no data (a failed open keeps the old file, which is still served) |
| Numeric.IndexOf | backend/OffchainPriceProvider/get_ofz_prices.py:35 | `cols.index(name)` is the first position holding the name, or the length when there is none |
| OfzPrices.FieldValue | backend/OffchainPriceProvider/get_ofz_prices.py:35 | a field absent from the columns counts as None |
| OfzPrices.FieldValues | backend/OffchainPriceProvider/get_ofz_prices.py:34-37 | the comprehension gives each field's value in order, or fails on a field whose column is out of the row |
| OfzPrices.FirstPresentSpec | backend/OffchainPriceProvider/get_ofz_prices.py:40-44 | the first-match loop picks the earliest non-None value with its name, and gives nothing only when all are None |
| OfzPrices.MarketPrices | backend/OffchainPriceProvider/get_ofz_prices.py:17-44 | no data row raises IndexError; a chosen price is not None and comes from one of the six price fields |
| OfzPrices.MarketPricesPriority | backend/OffchainPriceProvider/get_ofz_prices.py:17-44 | the price is the most preferred field present and not None, in the order MARKETPRICE, LAST, LCLOSEPRICE, WAPRICE, PREVWAPRICE, CLOSEPRICE; (None, None) exactly when all six are None |
| OfzPrices.FirstRowValue | backend/OffchainPriceProvider/get_ofz_prices.py:116-120 | a description value is found exactly when some row carries the name |
| OfzPrices.Convert | backend/OffchainPriceProvider/get_ofz_prices.py:120-125 | numeric text becomes a non-negative float, and plain digits become the integer they write; any other value is stored as it is |
| OfzPrices.ConvertDecimal | backend/OffchainPriceProvider/get_ofz_prices.py:120-125 | "whole.fraction" text is stored as whole plus fraction over ten to the number of fraction digits |
| OfzPrices.DescribedValueRule | backend/OffchainPriceProvider/get_ofz_prices.py:115-125 | the loop stores the converted value of the first matching row, and None when no row matches |
| OfzPrices.FillValue | backend/OffchainPriceProvider/get_ofz_prices.py:147-160 | a set entry is never overwritten; a None entry takes the securities value when that column exists |
| OfzPrices.Blank | backend/OffchainPriceProvider/get_ofz_prices.py:64-84 | the details dict starts with every entry None |
| OfzPrices.DescribedMap | backend/OffchainPriceProvider/get_ofz_prices.py:115-125 | after the description loop each entry holds its described value |
| OfzPrices.SecuritiesFillRule | backend/OffchainPriceProvider/get_ofz_prices.py:147-160 | the securities block fills exactly its five entries, each from its own column and only while None |
| OfzPrices.ReadEntry | backend/OffchainPriceProvider/get_ofz_prices.py:92-136 | after the description block each entry is the described value, or the frequency from a positive coupon period |
| OfzPrices.FilledEntry | backend/OffchainPriceProvider/get_ofz_prices.py:139-160 | after the securities block each entry is as the fill rule says |
| OfzPrices.BondDetails | backend/OffchainPriceProvider/get_ofz_prices.py:53-169 | the returned dict has all fourteen entries, and a failed request gives None in each |
| OfzPrices.BondDetailsEntry | backend/OffchainPriceProvider/get_ofz_prices.py:53-169 | the returned dict holds, entry by entry, the staged value; a failed request gives None everywhere; a malformed securities block leaves the described value |
| OfzPrices.MalformedSecuritiesKeepsDescription | backend/OffchainPriceProvider/get_ofz_prices.py:139-167 | a securities block that raises leaves every entry as the description set it: no entry is filled from the block and initialPrice gets no fallback |
| OfzPrices.FillOnlyIfNone | backend/OffchainPriceProvider/get_ofz_prices.py:147-160 | an entry the description set is returned as the description set it |
| OfzPrices.FillFromSecurities | backend/OffchainPriceProvider/get_ofz_prices.py:147-160 | an entry still None takes the securities block's value when that block has the column |
| OfzPrices.CouponFrequencyRule | backend/OffchainPriceProvider/get_ofz_prices.py:128-136 | a positive COUPONPERIOD overrides the frequency with round(365 / period); otherwise the described value stays |
| OfzPrices.InitialPriceFallback | backend/OffchainPriceProvider/get_ofz_prices.py:163-164 | initialPrice takes maturityPrice exactly when it is still None, maturityPrice is set and the securities block did not raise |
| OfzPrices.FailedRequestAllNone | backend/OffchainPriceProvider/get_ofz_prices.py:166-169 | a request that raises leaves every entry None |
| OfzPrices.ReadDescription | backend/OffchainPriceProvider/get_ofz_prices.py:115-125 | the in-place loop over `field_mapping` builds exactly the described dict |
| OfzPrices.ApplyCouponPeriod | backend/OffchainPriceProvider/get_ofz_prices.py:128-136 | the coupon-period step as specified |
| OfzPrices.GetBondDetails | backend/OffchainPriceProvider/get_ofz_prices.py:53-169 | the in-place filling of the details dict gives exactly the staged details |
| OfzPrices.Nominal | backend/OffchainPriceProvider/get_ofz_prices.py:187-191 | the nominal is initialPrice when it is positive, 100 when it is None or not positive; comparing a non-number raises |
| OfzPrices.Absolute | backend/OffchainPriceProvider/get_ofz_prices.py:206 | with nominal 100 the absolute price is the percentage |
| OfzPrices.FloatOf | backend/OffchainPriceProvider/get_ofz_prices.py:132 | `float(v)` by type: an int or float keeps its value, a bool is 1 or 0, text is parsed as a signed decimal, and None or a container has no value |
| OfzPrices.ToFloat | backend/OffchainPriceProvider/get_ofz_prices.py:221 | `float(v)` gives an int's or float's own value and the parsed value of decimal text; text it cannot parse raises ValueError, and None or a container raises TypeError |
| OfzPrices.PriceDetailed | backend/OffchainPriceProvider/get_ofz_prices.py:172-230 | a result has a positive nominal, and a price exactly when it has a percentage and a source; a failed market-data fetch fails the call |
| OfzPrices.MarketPrecedence | backend/OffchainPriceProvider/get_ofz_prices.py:202-211 | a market price decides the result whatever the candles hold: its field is the source and the price is its share of the nominal |
| OfzPrices.CandleFallback | backend/OffchainPriceProvider/get_ofz_prices.py:214-230 | with no market price, the last candle's close is used with source "candle"; with no candle there is no price |
| OfzPrices.NominalDefault | backend/OffchainPriceProvider/get_ofz_prices.py:187-198 | the nominal reported is a positive initialPrice, otherwise 100 |
| OfzPrices.GetPrice | backend/OffchainPriceProvider/get_ofz_prices.py:232-252 | fails exactly when the detailed price fails, returns its price, and flags only a price whose source is not "candle" |
| OfzPrices.GetPriceFlag | backend/OffchainPriceProvider/get_ofz_prices.py:232-252 | the flag is False without a price, and True exactly when the price came from a market-data field |
| ProviderApp.RegisteredAmongSpec | backend/OffchainPriceProvider/app.py:77-87 | a SECID is listed exactly when it is a candidate whose lookup gives a non-zero address; the list is never longer than the candidates |
| ProviderApp.RegisteredAmongAppend | backend/OffchainPriceProvider/app.py:77-87 | the scan keeps candidate order |
| ProviderApp.RegisteredBondsAnswer | backend/OffchainPriceProvider/app.py:30-101 | within the TTL the cached list; after it every SECID listed is registered, and a completed scan lists every registered candidate |
| ProviderApp.RegisteredBondsCache.constructor | backend/OffchainPriceProvider/app.py:24-28 | the cache starts at timestamp 0 with no bonds and the configured TTL |
| ProviderApp.RegisteredBondsCache.GetRegisteredBonds | backend/OffchainPriceProvider/app.py:30-101 | served from the cache while it is younger than the TTL; otherwise scanned; the cache is replaced only after a completed scan, and failures return [] |
| ProviderApp.ScanThenServe | backend/OffchainPriceProvider/app.py:42-44 | a second call within the TTL of a completed scan answers the same list, whatever the node says by then |
| ProviderApp.PriceUint | backend/OffchainPriceProvider/app.py:150 | a zero price scales to zero; the error bound is PriceUintError |
| ProviderApp.RoutesAgreeOnHundredths | backend/OffchainPriceProvider/app.py:205 | for a price in hundredths both routes give exactly price times the scaling factor |
| ProviderApp.PriceUintError | backend/OffchainPriceProvider/app.py:150 | the integer price is within half a unit step of price times the scaling factor |
| ProviderApp.SignsAsSpec | backend/OffchainPriceProvider/signature_utils.py:41-47 | a signature made by the service's signer carries the nonce given and the deadline the configured expiry after now |
| ProviderApp.PriceEntry | backend/OffchainPriceProvider/app.py:152-165 | an unsigned entry always builds, and a built entry carries the price and the integer price |
| ProviderApp.PriceEntrySpec | backend/OffchainPriceProvider/app.py:152-165 | an unsigned entry always builds; a signed one builds exactly when signing succeeds and adds signature, nonce and deadline exactly when requested |
| ProviderApp.StripSignature | backend/OffchainPriceProvider/app.py:131 | every key but "signature" is kept with its value |
| ProviderApp.StripSignedEntry | backend/OffchainPriceProvider/app.py:131 | stripping an unsigned entry keeps it; stripping a signed one keeps its nonce and deadline |
| ProviderApp.BuildEntry | backend/OffchainPriceProvider/app.py:152-165 | builds the entry, drawing exactly one nonce when a signature is requested and none otherwise |
| ProviderApp.FailureSticks | backend/OffchainPriceProvider/app.py:138-174 | a failure on some prefix of the list fails the whole request |
| ProviderApp.AddQuote | backend/OffchainPriceProvider/app.py:143-167 | one row keeps every earlier SECID, adds its own exactly for a truthy price, draws at most one nonce and only when signing, and a failing quote fails the row |
| ProviderApp.AddQuoteSpec | backend/OffchainPriceProvider/app.py:142-167 | one row keeps the earlier entries, adds an entry exactly for a truthy price, and draws a nonce exactly when it signs |
| ProviderApp.FreshPrices | backend/OffchainPriceProvider/app.py:138-167 | the loop draws at most one nonce per row and none without signatures, and prices only listed SECIDs |
| ProviderApp.FreshPricesSpec | backend/OffchainPriceProvider/app.py:138-167 | the fresh prices hold exactly the listed SECIDs with a truthy price, each built with the bulk scaling and signed exactly when requested |
| ProviderApp.StripAll | backend/OffchainPriceProvider/app.py:129-132 | the stripped prices have the cached SECIDs, each an object without "signature" that keeps every other key and value |
| ProviderApp.CachedAllPrices | backend/OffchainPriceProvider/app.py:119-135 | the cached-body branch of the route; its rule is CachedAllPricesRule |
| ProviderApp.CachedAllPricesRule | backend/OffchainPriceProvider/app.py:119-135 | a signed request gets any truthy cached body verbatim; an unsigned one on a body that is not an object gets a 500; otherwise it gets the same SECIDs, each entry without "signature" only |
| ProviderApp.StripUnsigned | backend/OffchainPriceProvider/app.py:129-132 | prices none of which is signed come through the stripping unchanged |
| ProviderApp.UnsignedBodyRoundTrip | backend/OffchainPriceProvider/app.py:119-172 | a fresh unsigned body, once cached, is served back to an unsigned request unchanged |
| ProviderApp.AddRow | backend/OffchainPriceProvider/app.py:143-167 | one pass of the bulk loop is the specified row step, and the nonce store follows the counter |
| ProviderApp.BuildPrices | backend/OffchainPriceProvider/app.py:142-167 | the bulk loop builds exactly the specified prices and ends on the specified nonce, or fails when the specification fails |
| ProviderApp.GetAllPrices | backend/OffchainPriceProvider/app.py:114-174 | a truthy cached body is served as the cache rule says, whatever its shape when a signature is requested; otherwise fresh prices are built, answered and cached; failures give a 500 and leave the cache |
| ProviderApp.FreshPrice | backend/OffchainPriceProvider/app.py:198-231 | a failing quote gives a 500, and a 200 carries its entry under "price" |
| ProviderApp.FreshPriceNotFound | backend/OffchainPriceProvider/app.py:228-229 | a fresh single answer is a 404 exactly when the price is missing or zero, and then it names the SECID |
| ProviderApp.FreshPriceSuccess | backend/OffchainPriceProvider/app.py:200-227 | a 200 carries the request time, the price and the single route's integer price, signed exactly when requested |
| ProviderApp.ServedEntry | backend/OffchainPriceProvider/app.py:185-190 | a signed request gets the entry as cached; an unsigned one never gets a "signature" key, and an object entry is always served; any other entry is served as it is, or raises where `in` or `.items()` raises |
| ProviderApp.CachedPrice | backend/OffchainPriceProvider/app.py:182-195 | a cached body that is not an object raises; a cache answer carries the cached timestamp and the served entry |
| ProviderApp.CachedPriceRule | backend/OffchainPriceProvider/app.py:184-195 | a cached entry is served without "signature" to an unsigned request, and as it is to a signed one |
| ProviderApp.FetchPrice | backend/OffchainPriceProvider/app.py:198-231 | the fresh part of the single route is the specified answer, drawing at most one nonce |
| ProviderApp.GetPriceForSecid | backend/OffchainPriceProvider/app.py:177-231 | a cache hit on the SECID is served from the cache without drawing a nonce; otherwise the fresh answer |
| ProviderApp.Lower | backend/OffchainPriceProvider/app.py:243 | `lower()` turns exactly the ASCII capitals into small letters |
| ProviderApp.OnchainRequested | backend/OffchainPriceProvider/app.py:243 | the `onchain` argument, lowered, equals "true"; its rule is OnchainRequestedIff |
| ProviderApp.OnchainRequestedRule | backend/OffchainPriceProvider/app.py:243 | "TRUE", "True" and "true" turn the filter on; a missing argument, "1" and "yes" do not; only four-letter text can |
| ProviderApp.OnchainRequestedIff | backend/OffchainPriceProvider/app.py:243 | the filter is on exactly for four letters that spell "true" in any mix of capitals and small letters |
| ProviderApp.KeptBonds | backend/OffchainPriceProvider/app.py:252-263 | the list of rows kept is never longer than the rows |
| ProviderApp.KeptBondsSpec | backend/OffchainPriceProvider/app.py:252-263 | without the filter every row is listed in order; with it a row is listed exactly when its SECID is registered |
| ProviderApp.GetAllBonds | backend/OffchainPriceProvider/app.py:234-273 | the body lists the kept rows with the filter flag; the registry is consulted, and may rescan, only when the filter is on |
| Publisher.Candidates | backend/OnchainPricePublisher/publisher.py:297-298 | the candidate list has one entry per bond listed; a response that cannot be read gives none |
| Publisher.ScanRegistered | backend/OnchainPricePublisher/publisher.py:298-307 | a completed scan is never longer than the candidates and lists only registered SECIDs |
| Publisher.ScanRegisteredSpec | backend/OnchainPricePublisher/publisher.py:298-307 | the scan fails exactly when some candidate cannot be read or looked up; otherwise it keeps exactly the candidates with a non-zero address |
| Publisher.ScanRegisteredAppend | backend/OnchainPricePublisher/publisher.py:298-307 | the scan keeps candidate order and multiplicity: scanning a + b gives the scan of a followed by the scan of b, and fails when either fails |
| Publisher.RegisteredSecids | backend/OnchainPricePublisher/publisher.py:273-319 | every SECID returned is registered |
| Publisher.GetAllRegisteredSecids | backend/OnchainPricePublisher/publisher.py:273-319 | the loop gives the specified list, [] on any error, and every SECID returned is registered |
| Publisher.ScanFailureSticks | backend/OnchainPricePublisher/publisher.py:303-319 | an error on some candidate ends the whole scan |
| Publisher.Put | backend/OnchainPricePublisher/publisher.py:423 | storing an existing key keeps the order; a new key goes last, after the existing keys in their order |
| Publisher.FetchedPrices | backend/OnchainPricePublisher/publisher.py:405-435 | every key in the fetch order has a price |
| Publisher.FetchedPricesSpec | backend/OnchainPricePublisher/publisher.py:405-435 | the fetch fails exactly on a body that is not an object or whose truthy "price" is not an object (the debug message at line 424 raises); otherwise it holds exactly the SECIDs served with a truthy "price", each an object |
| Publisher.FetchedOrder | backend/OnchainPricePublisher/publisher.py:405-435 | the kept SECIDs are ordered as the registered list first names them |
| Publisher.FetchOffchainPrices | backend/OnchainPricePublisher/publisher.py:385-435 | the loop gives the specified prices, aborting where the specification fails |
| Publisher.FetchFailureSticks | backend/OnchainPricePublisher/publisher.py:405-435 | an answer on a prefix of the SECIDs that raises (a body that is not an object, or a truthy "price" that is not an object) ends the whole fetch |
| Publisher.GetOnchainPrice | backend/OnchainPricePublisher/publisher.py:437-458 | None exactly for the zero address; a price exactly for a registered SECID whose feed answers, and it is the feed's price |
| Publisher.PrepareSignature | backend/OnchainPricePublisher/publisher.py:460-505 | a non-string raises TypeError; a string is decoded after one optional 0x, succeeding exactly on even-length hex, with half as many bytes as digits |
| Publisher.PrepareSignatureRoundTrip | backend/OnchainPricePublisher/publisher.py:488-495 | the text the provider's signer writes is decoded back to the exact signature bytes |
| Publisher.PrepareBareHex | backend/OnchainPricePublisher/publisher.py:488-495 | hex text without the prefix is accepted too |
| Publisher.DoubledPrefixRejected | backend/OnchainPricePublisher/publisher.py:488 | only one 0x is removed, so a doubled prefix raises ValueError |
| Publisher.ShouldUpdatePrice | backend/OnchainPricePublisher/publisher.py:507-547 | an unregistered SECID is never updated, a zero on-chain price always is, and arithmetic on a non-number raises |
| Publisher.ShouldUpdateIff | backend/OnchainPricePublisher/publisher.py:534-547 | for a positive on-chain price the update is needed exactly when abs(new - current) * 100 >= threshold * current, and a rise and a fall of the same size agree |
| Publisher.BiggerMovePublishes | backend/OnchainPricePublisher/publisher.py:534-542 | a move at least as big as one that publishes also publishes |
| Publisher.UpdateOutcome | backend/OnchainPricePublisher/publisher.py:711-765 | raises exactly on price information that is not an object; a missing price_uint ends without sending |
| Publisher.ProcessSinglePriceUpdate | backend/OnchainPricePublisher/publisher.py:711-765 | the guarded steps end in exactly the specified outcome |
| Publisher.ProcessSpec | backend/OnchainPricePublisher/publisher.py:719-761 | nothing is sent when a field is missing, no update is needed or the deadline has passed; a sent update carries exactly the received price, deadline and nonce and is for a registered SECID |
| Publisher.SignatureCheckedFirst | backend/OnchainPricePublisher/publisher.py:740-746 | a bad signature fails the update even when the deadline has also passed |
| Publisher.RelaysServedEntry | backend/OnchainPricePublisher/publisher.py:719-761 | a signed entry the provider serves is sent with its own price, deadline, nonce and signature bytes; an unsigned entry sends nothing |
| Publisher.ProcessAll | backend/OnchainPricePublisher/publisher.py:785-793 | at most one outcome per SECID, and one for each when nothing raises |
| Publisher.ProcessAllSpec | backend/OnchainPricePublisher/publisher.py:785-793 | each SECID is processed in order; the cycle aborts exactly at the first entry that is not an object |
| Publisher.CycleSendsOncePerSecid | backend/OnchainPricePublisher/publisher.py:767-793 | each SECID is processed at most once, and every update sent is for a registered SECID with the price, deadline and nonce the provider served |
| Publisher.RunCycle | backend/OnchainPricePublisher/publisher.py:767-793 | one cycle: the registered SECIDs, their fetched prices, then the per-SECID loop; its properties are stated by CycleSendsOncePerSecid and CycleAbortsOnlyInFetch |
| Publisher.CycleAbortsOnlyInFetch | backend/OnchainPricePublisher/publisher.py:767-793 | the cycle aborts exactly when fetching the prices raises, and then before any SECID is processed |
| Publisher.RunUpdateCycle | backend/OnchainPricePublisher/publisher.py:767-793 | the cycle's loop gives exactly the specified outcomes, aborting before any SECID when the fetch raises |
| Publisher.AbortSticks | backend/OnchainPricePublisher/publisher.py:785-793 | once the cycle aborts, later SECIDs are not processed |

## Left out

- HTTP, RPC and files. Flask routing, CORS and `jsonify`, the Ethereum node and the files on disk are replaced by their answers, passed in as parameters. The clock is a `now` parameter. The answers are fixed for the duration of a call or cycle.
- Sending the transaction. The web3 transaction building, signing, sending and receipt waiting are left out, including `send_update_price_transaction`. The outcome `Sent` records the call and its arguments.
- Hashing and signing. keccak256 and secp256k1 signing are opaque functions passed in. Only the byte layout around them is modelled.
- Floating point. All arithmetic is on exact reals, and Python's `round()` is round-half-even on them. Float rounding in the percentage change, the absolute price, `round(365 / period)` and `round(price * unit)` is not modelled.
- Lenient parsing. `int()`, `float()` and `bytes.fromhex` are restricted to ASCII decimal or hexadecimal text. `int()` and `float()` accept one leading sign. Whitespace, underscores, exponents, non-ASCII digits and the words "inf", "infinity" and "nan" are not accepted: the model reports ValueError where Python gives a value. So a price quoted as such text fails in the model only, and a COUPONPERIOD of "inf" changes the coupon frequency only in the source.
- ProviderApp.Lower: only ASCII letters are lowered. No other character lowers to one of the letters of "true", so the filter decision is the same.
- OfzPrices.BondResponse: the ways a securities block can raise (a missing "data" or "columns" key, rows that do not fit the columns) are one case, `Malformed`. A description block that raises is not a separate case: it ends the request like a failed one, except that entries it already set stay set.
- The provider's signer is a parameter. `SignsAs` ties it to `SignatureUtils.SignPrice` with the service's crypto, configuration and clock. The private key loading and `get_signer_address` are not part of this model.
- Error texts. A route's 500 answer is `ServerError` without the exception text. An exception inside `process_single_price_update` is `Failed` without its message.
- Logging, the scheduler and `main` are left out, and so are the `print` debugging in `create_signature`, the provider's health route and its `/api/details` routes.
- `fetch_ofz_list` and `daily_candles` are inputs (the listed rows and the candle closes). `get_ofz_info` only combines two modelled functions and is not modelled separately.
- Saving the nonce is assumed to succeed. A failed save is only logged by the source and leaves the file behind the counter. The model always has the store hold the current nonce.
- NonceManagement.LoadedNonce: a "nonce" field that is not an integer is treated as absent. The service only ever saves an integer there. In the source a string or null nonce raises TypeError at the first increment, and `true` becomes 2.
- The checksum conversion of the bond address before `get_price_feed` is folded into the oracle's `priceOf`.
- The Hardhat branch of `load_abi_from_file` is unreachable, because it also requires "abi". The model has no separate case for it.
- The `field_mapping` iteration order is written out as `OfzPrices.FieldAt`. It follows the dict's insertion order.
