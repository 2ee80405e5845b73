/** The price provider's HTTP routes (`app.py`): the cached list of bonds
    registered in the oracle, the bulk and single price routes with their
    response cache and optional signatures, and the bond list. A route's
    answer is a `Reply`; the MOEX and RPC calls it makes are parameters. */
module ProviderApp {
  import opened Wrappers
  import opened Json
  import Numeric
  import OfzPrices
  import CacheManagement
  import NonceManagement
  import SignatureUtils

  /** What a route answers. */
  datatype Reply =
    | Success(body: Json)        // 200 with `body`
    | NotFound(message: string)  // 404 with {"error": message}
    | ServerError                // 500: an exception escaped; its text is not modelled

  const REGISTERED_BONDS_CACHE_TTL := 300
  const ZERO_ADDRESS := "0x0000000000000000000000000000000000000000"

  // ---------------------------------------------------------------------
  // get_registered_bonds

  /** `secidToBond(secid).call()`: the bond address, or the error it raised. */
  predicate Registered(lookup: string -> Result<string, string>, secid: string) {
    lookup(secid).Ok? && lookup(secid).value != ZERO_ADDRESS
  }

  /** The candidates whose lookup gives a non-zero address, in candidate
      order; a lookup that raises skips that SECID only. */
  function RegisteredAmong(candidates: seq<string>, lookup: string -> Result<string, string>): seq<string>
    decreases |candidates|
  {
    if candidates == [] then []
    else
      var rest := RegisteredAmong(candidates[..|candidates| - 1], lookup);
      if Registered(lookup, candidates[|candidates| - 1]) then rest + [candidates[|candidates| - 1]] else rest
  }

  /** A SECID is listed exactly when it is a candidate and registered, and
      the list is never longer than the candidates. */
  lemma {:induction false} RegisteredAmongSpec(candidates: seq<string>, lookup: string -> Result<string, string>)
    ensures forall s :: s in RegisteredAmong(candidates, lookup) <==> s in candidates && Registered(lookup, s)
    ensures |RegisteredAmong(candidates, lookup)| <= |candidates|
    decreases |candidates|
  {
    if candidates != [] {
      var init := candidates[..|candidates| - 1];
      RegisteredAmongSpec(init, lookup);
      assert candidates == init + [candidates[|candidates| - 1]];
    }
  }

  /** The scan keeps candidate order: scanning two lists one after the other
      gives the two results one after the other. */
  lemma {:induction false} RegisteredAmongAppend(a: seq<string>, b: seq<string>, lookup: string -> Result<string, string>)
    ensures RegisteredAmong(a + b, lookup) == RegisteredAmong(a, lookup) + RegisteredAmong(b, lookup)
    decreases |b|
  {
    if b == [] {
      assert a + b == a;
    } else {
      var init := b[..|b| - 1];
      assert (a + b)[..|a + b| - 1] == a + init;
      assert (a + b)[|a + b| - 1] == b[|b| - 1];
      RegisteredAmongAppend(a, init, lookup);
    }
  }

  /** What `get_registered_bonds()` returns at time `now`, given the cache
      it finds, whether the node answers, and the candidate SECIDs (or the
      error that setting up the contract or fetching the list raised). */
  function RegisteredBondsAnswer(timestamp: int, bonds: seq<string>, ttl: int, now: int, connected: bool,
                                 candidates: Result<seq<string>, string>,
                                 lookup: string -> Result<string, string>): (r: seq<string>)
    ensures now - timestamp < ttl ==> r == bonds
    ensures now - timestamp >= ttl ==> forall s :: s in r ==> Registered(lookup, s)
    ensures now - timestamp >= ttl && connected && candidates.Ok? ==>
              forall s :: s in candidates.value && Registered(lookup, s) ==> s in r
  {
    if now - timestamp < ttl then bonds
    else if !connected || candidates.Err? then []
    else RegisteredAmongSpec(candidates.value, lookup); RegisteredAmong(candidates.value, lookup)
  }

  /** The module-level `registered_bonds_cache`. */
  class RegisteredBondsCache {
    var timestamp: int
    var bonds: seq<string>
    const ttl: int

    /** The cache at start-up: timestamp 0, no bonds. */
    constructor ()
      ensures timestamp == 0 && bonds == [] && ttl == REGISTERED_BONDS_CACHE_TTL
    {
      timestamp := 0;
      bonds := [];
      ttl := REGISTERED_BONDS_CACHE_TTL;
    }

    /** `get_registered_bonds()`: served from the cache while it is younger
        than the TTL (an age equal to the TTL rescans); otherwise a scan, whose
        result replaces the cache only when it completes. */
    method GetRegisteredBonds(now: int, connected: bool, candidates: Result<seq<string>, string>,
                              lookup: string -> Result<string, string>) returns (r: seq<string>)
      modifies this
      ensures r == RegisteredBondsAnswer(old(timestamp), old(bonds), ttl, now, connected, candidates, lookup)
      ensures now - old(timestamp) >= ttl && connected && candidates.Ok?
              ==> timestamp == now && bonds == r
      ensures !(now - old(timestamp) >= ttl && connected && candidates.Ok?)
              ==> timestamp == old(timestamp) && bonds == old(bonds)
    {
      if now - timestamp < ttl {
        return bonds;
      }
      if !connected || candidates.Err? {
        return [];
      }
      var cs := candidates.value;
      var found: seq<string> := [];
      var i := 0;
      while i < |cs|
        invariant 0 <= i <= |cs|
        invariant found == RegisteredAmong(cs[..i], lookup)
      {
        assert cs[..i + 1][..i] == cs[..i];
        var address := lookup(cs[i]);
        if address.Ok? && address.value != ZERO_ADDRESS {
          found := found + [cs[i]];
        }
        i := i + 1;
      }
      assert cs[..|cs|] == cs;
      timestamp := now;
      bonds := found;
      return found;
    }
  }

  /** A second call within the TTL of a completed scan answers the same list
      without scanning, whatever the node and the oracle say by then. */
  method ScanThenServe(reg: RegisteredBondsCache, now: int, later: int, candidates: seq<string>,
                       lookup: string -> Result<string, string>, connected2: bool,
                       candidates2: Result<seq<string>, string>, lookup2: string -> Result<string, string>)
    returns (first: seq<string>, second: seq<string>)
    modifies reg
    requires now - reg.timestamp >= reg.ttl && now <= later && later - now < reg.ttl
    ensures first == RegisteredAmong(candidates, lookup)
    ensures second == first
  {
    first := reg.GetRegisteredBonds(now, true, Ok(candidates), lookup);
    second := reg.GetRegisteredBonds(later, connected2, candidates2, lookup2);
  }

  // ---------------------------------------------------------------------
  // Price entries

  /** Python truthiness of the price `get_price` returns: no price and a
      price of zero both count as no data. */
  predicate PriceTruthy(price: Option<real>) {
    price.Some? && price.value != 0.0
  }

  /** `int(round(float(price) * unit)) * (PRICE_SCALING_FACTOR // unit)`: the
      bulk route uses unit 100, the single route 1000. */
  function PriceUint(price: real, unit: nat, scale: int): (r: int)
    requires unit > 0
    ensures price == 0.0 ==> r == 0
  {
    Numeric.RoundHalfEven(Scaled(price, unit)) * (scale / unit)
  }

  function Scaled(price: real, unit: nat): real {
    price * unit as real
  }

  /** When the scaling factor is a multiple of 1000, both routes turn a price
      quoted in hundredths into exactly price times the scaling factor. */
  lemma RoutesAgreeOnHundredths(price: real, n: int, scale: int)
    requires price * 100.0 == n as real && scale % 1000 == 0
    ensures PriceUint(price, 100, scale) == PriceUint(price, 1000, scale) == n * (scale / 100)
    ensures (n * (scale / 100)) as real == price * scale as real
  {
    var k := scale / 1000;
    assert scale == 1000 * k;
    assert scale / 100 == 10 * k;
    assert Scaled(price, 100) == n as real;
    assert Scaled(price, 1000) == (10 * n) as real;
    Numeric.RoundHalfEvenUnique(n as real, n);
    Numeric.RoundHalfEvenUnique((10 * n) as real, 10 * n);
    assert (n * (10 * k)) as real == n as real * (1000 * k) as real / 100.0;
  }

  /** With a non-negative scaling factor that `unit` divides, the integer
      price is within half a unit step of price times the scaling factor. */
  lemma PriceUintError(price: real, unit: nat, scale: int)
    requires unit > 0 && scale >= 0 && scale % unit == 0
    ensures var step := (scale / unit) as real;
            var exact := price * scale as real;
            exact - step / 2.0 <= PriceUint(price, unit, scale) as real <= exact + step / 2.0
  {
    var x := Scaled(price, unit);
    PriceUintProduct(price, unit, scale);
    ScaledProduct(price, unit, scale);
    RoundedProduct(x, Numeric.RoundHalfEven(x) as real, (scale / unit) as real,
                   price * scale as real, PriceUint(price, unit, scale) as real);
  }

  lemma PriceUintProduct(price: real, unit: nat, scale: int)
    requires unit > 0
    ensures PriceUint(price, unit, scale) as real
         == Numeric.RoundHalfEven(Scaled(price, unit)) as real * (scale / unit) as real
  {
    CastProduct(Numeric.RoundHalfEven(Scaled(price, unit)), scale / unit);
  }

  lemma ScaledProduct(price: real, unit: nat, scale: int)
    requires unit > 0 && scale % unit == 0
    ensures price * scale as real == Scaled(price, unit) * (scale / unit) as real
  {
    var step := scale / unit;
    assert scale == unit * step;
    CastProduct(unit, step);
  }

  lemma CastProduct(a: int, b: int)
    ensures (a * b) as real == a as real * b as real
  {
  }

  /** Scaling a rounding error of at most one half by `s` bounds it by half of `s`. */
  lemma RoundedProduct(x: real, r: real, s: real, exact: real, rounded: real)
    requires r - 0.5 <= x <= r + 0.5 && s >= 0.0
    requires rounded == r * s && exact == x * s
    ensures exact - s / 2.0 <= rounded <= exact + s / 2.0
  {
    HalfBound(x - r, s, exact - rounded);
  }

  // The constant one half stays inside these helpers: passed in as an
  // argument, it would turn `0.5 * s` into a product the solver cannot
  // treat as linear.
  lemma HalfBound(d: real, s: real, e: real)
    requires -0.5 <= d <= 0.5 && s >= 0.0 && e == d * s
    ensures -(s / 2.0) <= e <= s / 2.0
  {
    AtMostHalf(d, s);
    AtLeastMinusHalf(d, s);
  }

  lemma AtMostHalf(d: real, s: real)
    requires d <= 0.5 && s >= 0.0
    ensures d * s <= s / 2.0
  {
  }

  lemma AtLeastMinusHalf(d: real, s: real)
    requires -0.5 <= d && s >= 0.0
    ensures -(s / 2.0) <= d * s
  {
  }

  /** The entry built for a truthy price. */
  function PriceInfo(price: real, priceUint: int, isCurrent: bool): map<string, Json> {
    map["price" := Float(price), "price_uint" := Int(priceUint),
        "is_current_market_data" := Bool(isCurrent),
        "data_source" := Str(if isCurrent then "market_price" else "daily_candle")]
  }

  /** The entry with the signature, nonce and deadline added. */
  function Signed(info: map<string, Json>, sp: SignatureUtils.SignedPrice): map<string, Json> {
    info["signature" := Str(sp.signatureHex)]["nonce" := Int(sp.nonce)]["deadline" := Int(sp.deadline)]
  }

  /** Signing one price update: SECID, integer price and nonce to the
      signature `create_signature` returns, or the error it raises. */
  type Signer = (string, int, int) -> Result<SignatureUtils.SignedPrice, SignatureUtils.EncodeError>

  /** `signer` is `create_signature` with the service's crypto and settings
      at time `now`, once the nonce is fixed: the deadline is `now` plus the
      configured expiry. */
  ghost predicate SignsAs(signer: Signer, c: SignatureUtils.Crypto, cfg: SignatureUtils.SignerConfig, now: int) {
    forall secid, priceUint, nonce {:trigger SignedWith(signer, secid, priceUint, nonce)} ::
      SignedWith(signer, secid, priceUint, nonce)
      == SignatureUtils.SignPrice(c, SignatureUtils.ConstantHashes(c), cfg, secid, priceUint, nonce, now + cfg.expirySeconds)
  }

  /** `signer` applied, named so that the signing rule is only brought in
      where a proof asks for it. */
  ghost function SignedWith(signer: Signer, secid: string, priceUint: int, nonce: int)
    : Result<SignatureUtils.SignedPrice, SignatureUtils.EncodeError>
  {
    signer(secid, priceUint, nonce)
  }

  /** A signature made by the service's signer carries the nonce it was
      given and a deadline the configured expiry after `now`. */
  lemma SignsAsSpec(signer: Signer, c: SignatureUtils.Crypto, cfg: SignatureUtils.SignerConfig, now: int,
                    secid: string, priceUint: int, nonce: int)
    requires SignsAs(signer, c, cfg, now)
    ensures var r := signer(secid, priceUint, nonce);
            r.Ok? ==> r.value.nonce == nonce && r.value.deadline == now + cfg.expirySeconds
  {
    assert SignedWith(signer, secid, priceUint, nonce) == signer(secid, priceUint, nonce);
  }

  /** The entry both price routes build for a truthy price, signed with
      `nonce` when a signature is requested; `create_signature` raising
      (a field that does not fit its ABI type) fails the request. */
  function PriceEntry(secid: string, price: real, priceUint: int, isCurrent: bool, withSignature: bool,
                      signer: Signer, nonce: int): (r: Result<map<string, Json>, SignatureUtils.EncodeError>)
    ensures !withSignature ==> r.Ok?
    ensures r.Ok? ==> "price" in r.value && r.value["price"] == Float(price)
                      && "price_uint" in r.value && r.value["price_uint"] == Int(priceUint)
  {
    var info := PriceInfo(price, priceUint, isCurrent);
    if !withSignature then Ok(info)
    else
      var sp :- signer(secid, priceUint, nonce);
      Ok(Signed(info, sp))
  }

  /** The facts a client reads off an entry: its price, its integer price and
      whether it is signed. */
  predicate EntryFor(e: map<string, Json>, price: real, priceUint: int, sign: bool) {
    && "price" in e && e["price"] == Float(price)
    && "price_uint" in e && e["price_uint"] == Int(priceUint)
    && ("signature" in e <==> sign)
  }

  /** An unsigned entry always builds; a signed one builds exactly when
      signing succeeds. A built entry carries the price, the integer price,
      and a signature exactly when one is requested, together with the
      signature's nonce and deadline. */
  lemma PriceEntrySpec(secid: string, price: real, priceUint: int, isCurrent: bool, withSignature: bool,
                       signer: Signer, nonce: int)
    ensures !withSignature ==> PriceEntry(secid, price, priceUint, isCurrent, withSignature, signer, nonce)
                               == Ok(PriceInfo(price, priceUint, isCurrent))
    ensures var r := PriceEntry(secid, price, priceUint, isCurrent, withSignature, signer, nonce);
            && (withSignature ==> (r.Ok? <==> signer(secid, priceUint, nonce).Ok?))
            && (r.Ok? ==> && EntryFor(r.value, price, priceUint, withSignature)
                          && (withSignature ==>
                                var sp := signer(secid, priceUint, nonce).value;
                                && r.value["signature"] == Str(sp.signatureHex)
                                && r.value["nonce"] == Int(sp.nonce) && r.value["deadline"] == Int(sp.deadline)))
  {
  }

  /** The entry a cached response is served with when no signature is
      requested: every key but "signature", with its value. */
  function StripSignature(entry: map<string, Json>): (r: map<string, Json>)
    ensures forall k :: k in r <==> k in entry && k != "signature"
    ensures forall k :: k in r ==> r[k] == entry[k]
  {
    entry - {"signature"}
  }

  /** An unsigned entry has no signature to remove, so stripping keeps it;
      stripping a signed entry keeps its nonce and deadline, so an unsigned
      request served from a signed cache does not see the entry an unsigned
      fetch builds. */
  lemma StripSignedEntry(price: real, priceUint: int, isCurrent: bool, sp: SignatureUtils.SignedPrice)
    ensures StripSignature(PriceInfo(price, priceUint, isCurrent)) == PriceInfo(price, priceUint, isCurrent)
    ensures var stripped := StripSignature(Signed(PriceInfo(price, priceUint, isCurrent), sp));
            && "signature" !in stripped
            && stripped == PriceInfo(price, priceUint, isCurrent)["nonce" := Int(sp.nonce)]["deadline" := Int(sp.deadline)]
            && stripped != PriceInfo(price, priceUint, isCurrent)
  {
    var info := PriceInfo(price, priceUint, isCurrent);
    assert "signature" !in info;
    assert StripSignature(info) == info;
    var stripped := StripSignature(Signed(info, sp));
    assert "nonce" in stripped && "nonce" !in info;
    assert stripped == info["nonce" := Int(sp.nonce)]["deadline" := Int(sp.deadline)];
  }

  /** Building one entry: `create_signature(secid, price_uint)` draws the
      next nonce from the manager when a signature is requested. */
  method BuildEntry(secid: string, price: real, priceUint: int, isCurrent: bool, withSignature: bool,
                    signer: Signer, c: SignatureUtils.Crypto, cfg: SignatureUtils.SignerConfig, now: int,
                    nonces: NonceManagement.NonceManager)
    returns (r: Result<map<string, Json>, SignatureUtils.EncodeError>)
    modifies nonces
    requires SignsAs(signer, c, cfg, now)
    ensures r == PriceEntry(secid, price, priceUint, isCurrent, withSignature, signer, nonces.currentNonce)
    ensures !withSignature ==> nonces.currentNonce == old(nonces.currentNonce) && nonces.stored == old(nonces.stored)
    ensures withSignature ==> nonces.currentNonce == old(nonces.currentNonce) + 1
                              && nonces.stored == NonceManagement.Record(Some(nonces.currentNonce))
  {
    var info := PriceInfo(price, priceUint, isCurrent);
    if !withSignature {
      return Ok(info);
    }
    var signed := SignatureUtils.CreateSignature(c, cfg, nonces, secid, priceUint, None, None, now);
    assert SignedWith(signer, secid, priceUint, nonces.currentNonce) == signed;
    if signed.Err? {
      return Err(signed.error);
    }
    return Ok(Signed(info, signed.value));
  }

  // ---------------------------------------------------------------------
  // get_all_prices

  /** `get_price(secid)` for every SECID, the MOEX answers being fixed. */
  type Quotes = string -> Result<(Option<real>, bool), OfzPrices.PriceError>

  /** Why building fresh prices fails (both end in a 500). */
  datatype Failure = PriceFailed(priceError: OfzPrices.PriceError) | SigningFailed(encodeError: SignatureUtils.EncodeError)

  /** The prices built so far and the nonce manager's current nonce. */
  datatype Built = Built(prices: map<string, Json>, nonce: int)

  /** One row of the bulk loop: a falsy price adds nothing; a truthy one adds
      its entry, signed with the next nonce when signatures are requested. */
  function AddQuote(b: Built, secid: string, quotes: Quotes, withSignature: bool, scale: int, signer: Signer)
    : (r: Result<Built, Failure>)
    ensures r.Ok? ==> r.value.nonce == b.nonce || (withSignature && r.value.nonce == b.nonce + 1)
    ensures r.Ok? ==> forall k :: k in r.value.prices <==> k in b.prices || (k == secid && quotes(secid).Ok? && PriceTruthy(quotes(secid).value.0))
    ensures quotes(secid).Err? ==> r == Err(PriceFailed(quotes(secid).error))
  {
    var q := quotes(secid);
    if q.Err? then Err(PriceFailed(q.error))
    else if !PriceTruthy(q.value.0) then Ok(b)
    else
      var nonce := if withSignature then b.nonce + 1 else b.nonce;
      var e := PriceEntry(secid, q.value.0.value, PriceUint(q.value.0.value, 100, scale), q.value.1, withSignature,
                          signer, nonce);
      if e.Err? then Err(SigningFailed(e.error))
      else Ok(Built(b.prices[secid := Obj(e.value)], nonce))
  }

  /** The loop of `get_all_prices` over the listed SECIDs, in order, starting
      from the nonce manager's current nonce `nonce`; a later row with the
      same SECID replaces the earlier entry. */
  function FreshPrices(secids: seq<string>, quotes: Quotes, withSignature: bool, scale: int, signer: Signer, nonce: int)
    : (r: Result<Built, Failure>)
    ensures r.Ok? ==> nonce <= r.value.nonce <= nonce + |secids|
    ensures r.Ok? && !withSignature ==> r.value.nonce == nonce
    ensures r.Ok? ==> forall k :: k in r.value.prices ==> k in secids
    decreases |secids|
  {
    if secids == [] then Ok(Built(map[], nonce))
    else
      var b :- FreshPrices(secids[..|secids| - 1], quotes, withSignature, scale, signer, nonce);
      AddQuote(b, secids[|secids| - 1], quotes, withSignature, scale, signer)
  }

  /** A failure on some prefix of the SECIDs fails the whole request. */
  lemma {:induction false} FailureSticks(secids: seq<string>, k: nat, quotes: Quotes, withSignature: bool, scale: int,
                                         signer: Signer, nonce: int)
    requires k <= |secids| && FreshPrices(secids[..k], quotes, withSignature, scale, signer, nonce).Err?
    ensures FreshPrices(secids, quotes, withSignature, scale, signer, nonce).Err?
    decreases |secids|
  {
    if k == |secids| {
      assert secids[..k] == secids;
    } else {
      var init := secids[..|secids| - 1];
      assert init[..k] == secids[..k];
      FailureSticks(init, k, quotes, withSignature, scale, signer, nonce);
    }
  }

  /** The facts one entry of the bulk prices holds for its SECID. */
  predicate BulkEntry(e: Json, quotes: Quotes, secid: string, withSignature: bool, scale: int) {
    && quotes(secid).Ok? && PriceTruthy(quotes(secid).value.0)
    && e.Obj? && EntryFor(e.fields, quotes(secid).value.0.value, PriceUint(quotes(secid).value.0.value, 100, scale), withSignature)
  }

  /** One row keeps the earlier entries, adds an entry exactly for a truthy
      price, and draws a nonce exactly when it signs one. */
  lemma AddQuoteSpec(b: Built, secid: string, quotes: Quotes, withSignature: bool, scale: int, signer: Signer)
    requires AddQuote(b, secid, quotes, withSignature, scale, signer).Ok?
    ensures var b2 := AddQuote(b, secid, quotes, withSignature, scale, signer).value;
            && quotes(secid).Ok?
            && (!PriceTruthy(quotes(secid).value.0) ==> b2 == b)
            && (PriceTruthy(quotes(secid).value.0) ==>
                  && secid in b2.prices && b2.prices == b.prices[secid := b2.prices[secid]]
                  && BulkEntry(b2.prices[secid], quotes, secid, withSignature, scale)
                  && b2.nonce == if withSignature then b.nonce + 1 else b.nonce)
  {
    var q := quotes(secid);
    if PriceTruthy(q.value.0) {
      var nonce := if withSignature then b.nonce + 1 else b.nonce;
      PriceEntrySpec(secid, q.value.0.value, PriceUint(q.value.0.value, 100, scale), q.value.1, withSignature, signer, nonce);
    }
  }

  /** What the fresh bulk prices hold: exactly the listed SECIDs with a
      truthy price, each entry built from that price with the bulk scaling,
      carrying a signature exactly when one is requested; without signatures
      no nonce is drawn, with them the nonce only grows. */
  lemma {:induction false} FreshPricesSpec(secids: seq<string>, quotes: Quotes, withSignature: bool, scale: int, signer: Signer, nonce: int)
    requires FreshPrices(secids, quotes, withSignature, scale, signer, nonce).Ok?
    ensures var b := FreshPrices(secids, quotes, withSignature, scale, signer, nonce).value;
            && (forall k :: k in b.prices <==> k in secids && quotes(k).Ok? && PriceTruthy(quotes(k).value.0))
            && (forall k :: k in b.prices ==> BulkEntry(b.prices[k], quotes, k, withSignature, scale))
            && (withSignature ==> b.nonce >= nonce)
            && (!withSignature ==> b.nonce == nonce)
    decreases |secids|
  {
    if secids != [] {
      var init := secids[..|secids| - 1];
      var last := secids[|secids| - 1];
      var b0 := FreshPrices(init, quotes, withSignature, scale, signer, nonce);
      assert b0.Ok?;
      FreshPricesSpec(init, quotes, withSignature, scale, signer, nonce);
      AddQuoteSpec(b0.value, last, quotes, withSignature, scale, signer);
      assert secids == init + [last];
      forall k
        ensures k in secids <==> k in init || k == last
      {
      }
    }
  }

  /** The body of a fresh bulk answer. */
  function PricesBody(now: int, prices: map<string, Json>): Json {
    Obj(map["timestamp" := Int(now), "prices" := Obj(prices)])
  }

  /** The prices of a cached body with every signature removed: `None` when
      "prices" or one of its entries is not an object (`.items()` raises). */
  function StripAll(prices: Json): (r: Option<map<string, Json>>)
    ensures r.Some? ==> prices.Obj? && forall k :: k in r.value <==> k in prices.fields
    ensures r.Some? ==> forall k :: k in r.value ==>
                          && prices.fields[k].Obj? && r.value[k].Obj? && "signature" !in r.value[k].fields
                          && forall key :: key in prices.fields[k].fields && key != "signature" ==>
                               key in r.value[k].fields && r.value[k].fields[key] == prices.fields[k].fields[key]
  {
    if !prices.Obj? then None
    else if exists k :: k in prices.fields && !prices.fields[k].Obj? then None
    else Some(map k | k in prices.fields :: Obj(StripSignature(prices.fields[k].fields)))
  }

  /** `get_all_prices` on a truthy cached body: served verbatim when a
      signature is requested (the `.get` is then never reached) or "prices"
      is falsy, otherwise with every "signature" key removed; an unsigned
      request on a body that is not an object, or lacks the keys read, raises. */
  function CachedAllPrices(j: Json, withSignature: bool): Reply {
    if withSignature then Success(j)
    else if !j.Obj? then ServerError
    else if !Truthy(Get(j.fields, "prices")) then Success(j)
    else if "timestamp" !in j.fields then ServerError
    else
      match StripAll(j.fields["prices"])
      case None => ServerError
      case Some(p) => Success(Obj(map["timestamp" := j.fields["timestamp"], "prices" := Obj(p)]))
  }

  /** An unsigned request served from the cache sees the same SECIDs as were
      cached, each with every key but "signature"; a signed request sees the
      cached body as it is, signatures or not. */
  lemma CachedAllPricesRule(j: Json, withSignature: bool)
    ensures withSignature ==> CachedAllPrices(j, withSignature) == Success(j)
    ensures !j.Obj? ==> CachedAllPrices(j, false) == ServerError
    ensures var r := CachedAllPrices(j, false);
            j.Obj? && Truthy(Get(j.fields, "prices")) && r.Success? ==>
              && "timestamp" in j.fields && j.fields["prices"].Obj?
              && r.body == Obj(map["timestamp" := j.fields["timestamp"], "prices" := r.body.fields["prices"]])
              && var cached := j.fields["prices"].fields;
                 var served := r.body.fields["prices"].fields;
                 && (forall k :: k in served <==> k in cached)
                 && (forall k :: k in served ==>
                                   && cached[k].Obj? && served[k].Obj?
                                   && "signature" !in served[k].fields
                                   && served[k].fields == StripSignature(cached[k].fields))
  {
  }

  /** Prices none of which is signed come through the stripping unchanged. */
  lemma StripUnsigned(p: map<string, Json>)
    requires forall k :: k in p ==> p[k].Obj? && "signature" !in p[k].fields
    ensures StripAll(Obj(p)) == Some(p)
  {
    var m := map k | k in p :: Obj(StripSignature(p[k].fields));
    forall k | k in p
      ensures m[k] == p[k]
    {
      assert StripSignature(p[k].fields) == p[k].fields;
    }
    assert m == p;
  }

  /** A fresh unsigned bulk body, written to the cache, is served back to an
      unsigned request unchanged. */
  lemma UnsignedBodyRoundTrip(secids: seq<string>, quotes: Quotes, scale: int, signer: Signer, nonce: int, now: int)
    requires FreshPrices(secids, quotes, false, scale, signer, nonce).Ok?
    ensures var body := PricesBody(now, FreshPrices(secids, quotes, false, scale, signer, nonce).value.prices);
            CachedAllPrices(body, false) == Success(body)
  {
    var p := FreshPrices(secids, quotes, false, scale, signer, nonce).value.prices;
    FreshPricesSpec(secids, quotes, false, scale, signer, nonce);
    StripUnsigned(p);
  }

  /** One pass of `get_all_prices`' loop: the entry for `secid` added to
      `prices` (if its price is truthy), `None` where the request fails. */
  method AddRow(prices: map<string, Json>, secid: string, quotes: Quotes, withSignature: bool, scale: int,
                signer: Signer, c: SignatureUtils.Crypto, cfg: SignatureUtils.SignerConfig, now: int,
                nonces: NonceManagement.NonceManager) returns (r: Option<map<string, Json>>)
    modifies nonces
    requires SignsAs(signer, c, cfg, now)
    ensures var step := AddQuote(Built(prices, old(nonces.currentNonce)), secid, quotes, withSignature, scale, signer);
            && (r.None? <==> step.Err?)
            && (r.Some? ==> step.value == Built(r.value, nonces.currentNonce))
    ensures || (nonces.currentNonce == old(nonces.currentNonce) && nonces.stored == old(nonces.stored))
            || (nonces.currentNonce == old(nonces.currentNonce) + 1
                && nonces.stored == NonceManagement.Record(Some(nonces.currentNonce)))
  {
    var q := quotes(secid);
    if q.Err? {
      return None;
    }
    var (price, isCurrent) := q.value;
    if price.None? || price.value == 0.0 {
      return Some(prices);
    }
    var priceUint := PriceUint(price.value, 100, scale);
    var entry := BuildEntry(secid, price.value, priceUint, isCurrent, withSignature, signer, c, cfg, now, nonces);
    if entry.Err? {
      return None;
    }
    return Some(prices[secid := Obj(entry.value)]);
  }

  /** The loop of `get_all_prices` (inside its try block) over the listed
      SECIDs: the first failure ends the request. */
  method BuildPrices(secids: seq<string>, quotes: Quotes, withSignature: bool, scale: int, signer: Signer,
                     c: SignatureUtils.Crypto, cfg: SignatureUtils.SignerConfig, now: int,
                     nonces: NonceManagement.NonceManager) returns (r: Option<map<string, Json>>)
    modifies nonces
    requires SignsAs(signer, c, cfg, now)
    ensures var built := FreshPrices(secids, quotes, withSignature, scale, signer, old(nonces.currentNonce));
            && (r.None? <==> built.Err?)
            && (r.Some? ==> r.value == built.value.prices && nonces.currentNonce == built.value.nonce)
    ensures || (nonces.currentNonce == old(nonces.currentNonce) && nonces.stored == old(nonces.stored))
            || (nonces.currentNonce > old(nonces.currentNonce)
                && nonces.stored == NonceManagement.Record(Some(nonces.currentNonce)))
  {
    var prices: map<string, Json> := map[];
    var i := 0;
    while i < |secids|
      invariant 0 <= i <= |secids|
      invariant FreshPrices(secids[..i], quotes, withSignature, scale, signer, old(nonces.currentNonce))
                == Ok(Built(prices, nonces.currentNonce))
      invariant || (nonces.currentNonce == old(nonces.currentNonce) && nonces.stored == old(nonces.stored))
                || (nonces.currentNonce > old(nonces.currentNonce)
                    && nonces.stored == NonceManagement.Record(Some(nonces.currentNonce)))
    {
      assert secids[..i + 1][..i] == secids[..i];
      var next := AddRow(prices, secids[i], quotes, withSignature, scale, signer, c, cfg, now, nonces);
      if next.None? {
        FailureSticks(secids, i + 1, quotes, withSignature, scale, signer, old(nonces.currentNonce));
        return None;
      }
      prices := next.value;
      i := i + 1;
    }
    assert secids[..|secids|] == secids;
    return Some(prices);
  }

  /** `get_all_prices()` at time `now`. `listing` is `fetch_ofz_list()`'s
      SECID column (or the error it raised), `quotes` is `get_price`,
      `outcome` how writing the cache file ends. */
  method GetAllPrices(withSignature: bool, cache: CacheManagement.CacheManager, listing: Result<seq<string>, string>,
                      quotes: Quotes, scale: int, signer: Signer, c: SignatureUtils.Crypto,
                      cfg: SignatureUtils.SignerConfig, now: int, nonces: NonceManagement.NonceManager,
                      outcome: CacheManagement.WriteOutcome) returns (reply: Reply)
    modifies cache, nonces
    requires SignsAs(signer, c, cfg, now)
    ensures var cached := CacheManagement.Lookup(old(cache.entry), cache.ttlSeconds, now);
            cached.Some? && Truthy(cached.value)
            ==> reply == CachedAllPrices(cached.value, withSignature)
                && cache.entry == old(cache.entry) && nonces.currentNonce == old(nonces.currentNonce)
    ensures var cached := CacheManagement.Lookup(old(cache.entry), cache.ttlSeconds, now);
            !(cached.Some? && Truthy(cached.value)) && listing.Err?
            ==> reply == ServerError && cache.entry == old(cache.entry)
    ensures var cached := CacheManagement.Lookup(old(cache.entry), cache.ttlSeconds, now);
            !(cached.Some? && Truthy(cached.value)) && listing.Ok? ==>
              var built := FreshPrices(listing.value, quotes, withSignature, scale, signer, old(nonces.currentNonce));
              && (built.Err? ==> reply == ServerError && cache.entry == old(cache.entry))
              && (built.Ok? ==>
                    && reply == Success(PricesBody(now, built.value.prices))
                    && cache.entry == CacheManagement.AfterWrite(old(cache.entry), reply.body, now, outcome)
                    && nonces.currentNonce == built.value.nonce)
    ensures || (nonces.currentNonce == old(nonces.currentNonce) && nonces.stored == old(nonces.stored))
            || (nonces.currentNonce > old(nonces.currentNonce)
                && nonces.stored == NonceManagement.Record(Some(nonces.currentNonce)))
  {
    var cached := cache.GetCachedData(now);
    if cached.Some? && Truthy(cached.value) {
      return CachedAllPrices(cached.value, withSignature);
    }
    if listing.Err? {
      return ServerError;
    }
    var prices := BuildPrices(listing.value, quotes, withSignature, scale, signer, c, cfg, now, nonces);
    if prices.None? {
      return ServerError;
    }
    reply := Success(PricesBody(now, prices.value));
    var _ := cache.CacheData(reply.body, now, outcome);
  }

  // ---------------------------------------------------------------------
  // get_price_for_secid

  /** Python's `t in s` on strings. */
  predicate Substring(t: string, s: string) {
    exists i :: 0 <= i <= |s| - |t| && SubstringAt(t, s, i)
  }

  predicate SubstringAt(t: string, s: string, i: int)
    requires 0 <= i <= |s| - |t|
  {
    s[i..i + |t|] == t
  }

  /** The cached entry as served: the "signature" key removed when no
      signature is requested and the entry holds one. `None` where the
      membership test or `.items()` raises on a non-object entry. */
  function ServedEntry(entry: Json, withSignature: bool): (r: Option<Json>)
    ensures withSignature ==> r == Some(entry)
    ensures !withSignature && r.Some? && r.value.Obj? ==> "signature" !in r.value.fields
    ensures !withSignature && entry.Obj? ==> r.Some?
  {
    if withSignature then Some(entry)
    else
      match entry
      case Obj(f) => Some(if "signature" in f then Obj(StripSignature(f)) else entry)
      case Arr(items) => if Str("signature") in items then None else Some(entry)
      case Str(t) => if Substring("signature", t) then None else Some(entry)
      case _ => None
  }

  /** `get_price_for_secid` on a truthy cached body: `None` when the SECID
      is not among the cached prices (the route then fetches), otherwise its
      answer. A "prices" value that is an array or a string is searched as
      Python does, and indexing it by the SECID raises. */
  function CachedPrice(j: Json, secid: string, withSignature: bool): (r: Option<Reply>)
    ensures !j.Obj? ==> r == Some(ServerError)
    ensures r.Some? && r.value.Success? ==>
              j.Obj? && "timestamp" in j.fields && r.value.body.Obj? && "price" in r.value.body.fields
              && r.value.body == Obj(map["timestamp" := j.fields["timestamp"], "price" := r.value.body.fields["price"]])
    ensures r.None? ==> j.Obj?
  {
    if !j.Obj? then Some(ServerError)
    else
      var prices := if "prices" in j.fields then j.fields["prices"] else Obj(map[]);
      match prices
      case Obj(p) =>
        if secid !in p then None
        else
          var served := ServedEntry(p[secid], withSignature);
          if served.None? || "timestamp" !in j.fields then Some(ServerError)
          else Some(Success(Obj(map["timestamp" := j.fields["timestamp"], "price" := served.value])))
      case Arr(items) => if Str(secid) in items then Some(ServerError) else None
      case Str(t) => if Substring(secid, t) then Some(ServerError) else None
      case _ => Some(ServerError)
  }

  /** The 404 message for a SECID without a price. */
  function NoPriceMessage(secid: string): string {
    "No price data available for " + secid + " (checked both market data and recent candles)"
  }

  /** The fresh answer of `get_price_for_secid`, signing with nonce `nonce`
      when a signature is requested. */
  function FreshPrice(secid: string, quotes: Quotes, withSignature: bool, scale: int, signer: Signer, now: int, nonce: int)
    : (r: Reply)
    ensures quotes(secid).Err? ==> r == ServerError
    ensures r.Success? ==> r.body.Obj? && "price" in r.body.fields && r.body.fields["price"].Obj?
  {
    var q := quotes(secid);
    if q.Err? then ServerError
    else if !PriceTruthy(q.value.0) then NotFound(NoPriceMessage(secid))
    else
      var e := PriceEntry(secid, q.value.0.value, PriceUint(q.value.0.value, 1000, scale), q.value.1, withSignature, signer, nonce);
      if e.Err? then ServerError
      else Success(Obj(map["timestamp" := Int(now), "price" := Obj(e.value)]))
  }

  /** A fresh single answer is a 404 exactly when the price is missing or
      zero, and then names the SECID. */
  lemma FreshPriceNotFound(secid: string, quotes: Quotes, withSignature: bool, scale: int, signer: Signer, now: int, nonce: int)
    ensures var r := FreshPrice(secid, quotes, withSignature, scale, signer, now, nonce);
            && (r.NotFound? <==> quotes(secid).Ok? && !PriceTruthy(quotes(secid).value.0))
            && (r.NotFound? ==> r.message == NoPriceMessage(secid))
  {
  }

  /** A 200 carries the time of the request, the price and the single
      route's integer price, and a signature exactly when one is requested,
      made for that integer price and nonce `nonce`; without a signature a
      truthy price always gives a 200. */
  lemma FreshPriceSuccess(secid: string, quotes: Quotes, withSignature: bool, scale: int, signer: Signer, now: int, nonce: int)
    ensures var r := FreshPrice(secid, quotes, withSignature, scale, signer, now, nonce);
            && (!withSignature && quotes(secid).Ok? && PriceTruthy(quotes(secid).value.0) ==> r.Success?)
            && (r.Success? ==>
                  && quotes(secid).Ok? && PriceTruthy(quotes(secid).value.0)
                  && r.body.fields["timestamp"] == Int(now)
                  && var e := r.body.fields["price"].fields;
                     var price := quotes(secid).value.0.value;
                     && EntryFor(e, price, PriceUint(price, 1000, scale), withSignature)
                     && (withSignature ==>
                           var sp := signer(secid, PriceUint(price, 1000, scale), nonce);
                           && sp.Ok? && e["signature"] == Str(sp.value.signatureHex)
                           && e["nonce"] == Int(sp.value.nonce) && e["deadline"] == Int(sp.value.deadline)))
  {
    var q := quotes(secid);
    if q.Ok? && PriceTruthy(q.value.0) {
      PriceEntrySpec(secid, q.value.0.value, PriceUint(q.value.0.value, 1000, scale), q.value.1, withSignature, signer, nonce);
    }
  }

  /** A cached object entry is served to an unsigned request with every key
      but "signature", and to a signed request as it is. */
  lemma CachedPriceRule(j: Json, secid: string, withSignature: bool)
    requires j.Obj? && "timestamp" in j.fields && "prices" in j.fields && j.fields["prices"].Obj?
    requires secid in j.fields["prices"].fields && j.fields["prices"].fields[secid].Obj?
    ensures var e := j.fields["prices"].fields[secid].fields;
            var r := CachedPrice(j, secid, withSignature);
            && r.Some? && r.value.Success?
            && r.value.body.fields["timestamp"] == j.fields["timestamp"]
            && (withSignature ==> r.value.body.fields["price"] == Obj(e))
            && (!withSignature ==> r.value.body.fields["price"] == Obj(StripSignature(e)))
  {
    var e := j.fields["prices"].fields[secid].fields;
    if !withSignature && "signature" !in e {
      assert StripSignature(e) == e;
    }
  }

  /** The fetching part of `get_price_for_secid(secid)` (its try block). */
  method FetchPrice(secid: string, withSignature: bool, quotes: Quotes, scale: int, signer: Signer,
                    c: SignatureUtils.Crypto, cfg: SignatureUtils.SignerConfig, now: int,
                    nonces: NonceManagement.NonceManager) returns (reply: Reply)
    modifies nonces
    requires SignsAs(signer, c, cfg, now)
    ensures reply == FreshPrice(secid, quotes, withSignature, scale, signer, now, nonces.currentNonce)
    ensures || (nonces.currentNonce == old(nonces.currentNonce) && nonces.stored == old(nonces.stored))
            || (nonces.currentNonce == old(nonces.currentNonce) + 1
                && nonces.stored == NonceManagement.Record(Some(nonces.currentNonce)))
  {
    var q := quotes(secid);
    if q.Err? {
      return ServerError;
    }
    var (price, isCurrent) := q.value;
    if !(price.Some? && price.value != 0.0) {
      return NotFound(NoPriceMessage(secid));
    }
    var priceUint := PriceUint(price.value, 1000, scale);
    var entry := BuildEntry(secid, price.value, priceUint, isCurrent, withSignature, signer, c, cfg, now, nonces);
    if entry.Err? {
      return ServerError;
    }
    return Success(Obj(map["timestamp" := Int(now), "price" := Obj(entry.value)]));
  }

  /** `get_price_for_secid(secid)` at time `now`; this route reads the cache
      but never writes it. */
  method GetPriceForSecid(secid: string, withSignature: bool, cache: CacheManagement.CacheManager,
                          quotes: Quotes, scale: int, signer: Signer, c: SignatureUtils.Crypto,
                          cfg: SignatureUtils.SignerConfig, now: int, nonces: NonceManagement.NonceManager)
    returns (reply: Reply)
    modifies nonces
    requires SignsAs(signer, c, cfg, now)
    ensures var cached := CacheManagement.Lookup(cache.entry, cache.ttlSeconds, now);
            var hit := if cached.Some? && Truthy(cached.value) then CachedPrice(cached.value, secid, withSignature) else None;
            && (hit.Some? ==> reply == hit.value && nonces.currentNonce == old(nonces.currentNonce))
            && (hit.None? ==> reply == FreshPrice(secid, quotes, withSignature, scale, signer, now, nonces.currentNonce))
    ensures || (nonces.currentNonce == old(nonces.currentNonce) && nonces.stored == old(nonces.stored))
            || (nonces.currentNonce == old(nonces.currentNonce) + 1
                && nonces.stored == NonceManagement.Record(Some(nonces.currentNonce)))
  {
    var cached := cache.GetCachedData(now);
    if cached.Some? && Truthy(cached.value) {
      var hit := CachedPrice(cached.value, secid, withSignature);
      if hit.Some? {
        return hit.value;
      }
    }
    reply := FetchPrice(secid, withSignature, quotes, scale, signer, c, cfg, now, nonces);
  }

  // ---------------------------------------------------------------------
  // get_all_bonds

  /** A row of the OFZ list: its SECID and SHORTNAME. */
  datatype ListedBond = ListedBond(secid: string, shortname: Json)

  /** `str.lower()` on ASCII letters; no other character lowers to one of
      the letters of "true", so the comparison below is exact. */
  function Lower(s: string): (r: string)
    ensures |r| == |s|
    ensures forall i :: 0 <= i < |s| ==> r[i] == if 'A' <= s[i] <= 'Z' then (s[i] as int + 32) as char else s[i]
  {
    seq(|s|, i requires 0 <= i < |s| => if 'A' <= s[i] <= 'Z' then (s[i] as int + 32) as char else s[i])
  }

  /** `request.args.get('onchain', '').lower() == 'true'`. */
  predicate OnchainRequested(arg: Option<string>) {
    Lower(if arg.Some? then arg.value else "") == "true"
  }

  /** Any capitalisation of "true" asks for the filter; a missing argument does not. */
  lemma OnchainRequestedRule(arg: Option<string>)
    ensures OnchainRequested(Some("TRUE")) && OnchainRequested(Some("True")) && OnchainRequested(Some("true"))
    ensures !OnchainRequested(None) && !OnchainRequested(Some("1")) && !OnchainRequested(Some("yes"))
    ensures OnchainRequested(arg) ==> arg.Some? && |arg.value| == 4
  {
    assert Lower("TRUE") == "true";
    assert Lower("True") == "true";
    assert Lower("true") == "true";
    assert Lower("1") == "1";
    assert Lower("yes")[0] == 'y';
  }

  /** The filter is on exactly for the four letters of "true", each in
      either case. */
  lemma OnchainRequestedIff(s: string)
    ensures OnchainRequested(Some(s)) <==>
              |s| == 4 && forall i :: 0 <= i < 4 ==> s[i] == "true"[i] || s[i] == "TRUE"[i]
  {
    if |s| == 4 && forall i :: 0 <= i < 4 ==> s[i] == "true"[i] || s[i] == "TRUE"[i] {
      var r := Lower(s);
      forall i | 0 <= i < 4 ensures r[i] == "true"[i] {
      }
      assert r == "true";
    }
  }

  function BondEntry(b: ListedBond): Json {
    Obj(map["secid" := Str(b.secid), "shortname" := b.shortname])
  }

  /** The rows `get_all_bonds` lists, in list order: all of them, or only
      those whose SECID is registered when the filter is on. */
  function KeptBonds(rows: seq<ListedBond>, onchainOnly: bool, registered: seq<string>): (r: seq<Json>)
    ensures |r| <= |rows|
    decreases |rows|
  {
    if rows == [] then []
    else
      var rest := KeptBonds(rows[..|rows| - 1], onchainOnly, registered);
      var last := rows[|rows| - 1];
      if onchainOnly && last.secid !in registered then rest else rest + [BondEntry(last)]
  }

  /** Without the filter every row is listed, one entry per row in order;
      with it, a row is listed exactly when its SECID is registered. */
  lemma {:induction false} KeptBondsSpec(rows: seq<ListedBond>, onchainOnly: bool, registered: seq<string>)
    ensures !onchainOnly ==> |KeptBonds(rows, onchainOnly, registered)| == |rows|
                             && forall i :: 0 <= i < |rows| ==> KeptBonds(rows, onchainOnly, registered)[i] == BondEntry(rows[i])
    ensures forall x :: x in KeptBonds(rows, onchainOnly, registered) <==>
                          exists b :: b in rows && x == BondEntry(b) && (onchainOnly ==> b.secid in registered)
    decreases |rows|
  {
    if rows != [] {
      var init := rows[..|rows| - 1];
      var last := rows[|rows| - 1];
      KeptBondsSpec(init, onchainOnly, registered);
      assert rows == init + [last];
      forall b
        ensures b in rows <==> b in init || b == last
      {
      }
    }
  }

  function BondsBody(now: int, bonds: seq<Json>, onchainOnly: bool): Json {
    Obj(map["timestamp" := Int(now), "count" := Int(|bonds|), "bonds" := Arr(bonds),
            "filtered_by_onchain" := Bool(onchainOnly)])
  }

  /** `get_all_bonds()` at time `now`. `rows` is `fetch_ofz_list()` (or the
      error it raised); the registry is consulted only when the filter is on,
      after the list was fetched. */
  method GetAllBonds(arg: Option<string>, rows: Result<seq<ListedBond>, string>, registry: RegisteredBondsCache,
                     now: int, connected: bool, candidates: Result<seq<string>, string>,
                     lookup: string -> Result<string, string>) returns (reply: Reply)
    modifies registry
    ensures rows.Err? || !OnchainRequested(arg)
            ==> registry.timestamp == old(registry.timestamp) && registry.bonds == old(registry.bonds)
    ensures rows.Err? ==> reply == ServerError
    ensures rows.Ok? ==>
              var registered := if OnchainRequested(arg)
                                then RegisteredBondsAnswer(old(registry.timestamp), old(registry.bonds), registry.ttl,
                                                           now, connected, candidates, lookup)
                                else [];
              reply == Success(BondsBody(now, KeptBonds(rows.value, OnchainRequested(arg), registered),
                                         OnchainRequested(arg)))
    ensures rows.Ok? && OnchainRequested(arg) && now - old(registry.timestamp) >= registry.ttl && connected && candidates.Ok?
            ==> registry.timestamp == now && registry.bonds == RegisteredAmong(candidates.value, lookup)
    ensures !(rows.Ok? && OnchainRequested(arg) && now - old(registry.timestamp) >= registry.ttl && connected && candidates.Ok?)
            ==> registry.timestamp == old(registry.timestamp) && registry.bonds == old(registry.bonds)
  {
    var onchainOnly := OnchainRequested(arg);
    if rows.Err? {
      return ServerError;
    }
    var registered: seq<string> := [];
    if onchainOnly {
      registered := registry.GetRegisteredBonds(now, connected, candidates, lookup);
    }
    var rs := rows.value;
    var bonds: seq<Json> := [];
    var i := 0;
    while i < |rs|
      invariant 0 <= i <= |rs|
      invariant bonds == KeptBonds(rs[..i], onchainOnly, registered)
    {
      assert rs[..i + 1][..i] == rs[..i];
      if !(onchainOnly && rs[i].secid !in registered) {
        bonds := bonds + [Obj(map["secid" := Str(rs[i].secid), "shortname" := rs[i].shortname])];
      }
      i := i + 1;
    }
    assert rs[..|rs|] == rs;
    return Success(Obj(map["timestamp" := Int(now), "count" := Int(|bonds|), "bonds" := Arr(bonds),
                           "filtered_by_onchain" := Bool(onchainOnly)]));
  }
}
