/** The on-chain publisher (`publisher.py`): which SECIDs the oracle knows,
    the signed prices it fetches for them from the price provider, whether a
    price moved enough to be published, and exactly what it then sends. The
    oracle's view calls and the provider's HTTP answers are parameters; the
    transaction itself is recorded as the call that is made. */
module Publisher {
  import opened Wrappers
  import opened Json
  import opened Bytes
  import Hex
  import SignatureUtils
  import ProviderApp
  import Numeric

  /** The oracle contract's view calls, `Err` where a call raises:
      `secidToBond(secid)`, and the price field of `getPriceFeed(bond)`
      (the checksum conversion of the address is folded into the latter). */
  datatype Oracle = Oracle(bondFor: string -> Result<string, string>, priceOf: string -> Result<int, string>)

  // ---------------------------------------------------------------------
  // ContractService.get_all_registered_secids

  /** `[bond["secid"] for bond in bonds_data.get("bonds", [])]` on the
      provider's `/api/bonds` answer; `None` where fetching, `.get`, the
      iteration or a `bond["secid"]` raises. Iterating an empty string or
      an empty object gives no candidates. */
  function Candidates(response: Result<Json, string>): (r: Option<seq<Json>>)
    ensures r.Some? && response.Ok? && response.value.Obj? && "bonds" in response.value.fields
            && response.value.fields["bonds"].Arr?
            ==> |r.value| == |response.value.fields["bonds"].items|
  {
    if response.Err? || !response.value.Obj? then None
    else
      var bonds := if "bonds" in response.value.fields then response.value.fields["bonds"] else Arr([]);
      match bonds
      case Arr(items) =>
        if forall i :: 0 <= i < |items| ==> items[i].Obj? && "secid" in items[i].fields
        then Some(seq(|items|, i requires 0 <= i < |items| && items[i].Obj? && "secid" in items[i].fields =>
                        items[i].fields["secid"]))
        else None
      case Str(s) => if s == [] then Some([]) else None
      case Obj(f) => if f == map[] then Some([]) else None
      case _ => None
  }

  /** The loop over the candidates, in order, keeping those whose bond
      address is not the zero address; `None` as soon as one lookup raises
      (a candidate that is not a string cannot be passed to the call). */
  function ScanRegistered(candidates: seq<Json>, oracle: Oracle): (r: Option<seq<string>>)
    ensures r.Some? ==> |r.value| <= |candidates|
    ensures r.Some? ==> forall s :: s in r.value ==> ProviderApp.Registered(oracle.bondFor, s)
    decreases |candidates|
  {
    if candidates == [] then Some([])
    else
      var found :- ScanRegistered(candidates[..|candidates| - 1], oracle);
      var last := candidates[|candidates| - 1];
      if !last.Str? || oracle.bondFor(last.s).Err? then None
      else if oracle.bondFor(last.s).value != ProviderApp.ZERO_ADDRESS then Some(found + [last.s])
      else Some(found)
  }

  /** A lookup that raises or a candidate that is not a string. */
  predicate Unscannable(oracle: Oracle, candidate: Json) {
    !candidate.Str? || oracle.bondFor(candidate.s).Err?
  }

  /** The scan fails exactly when some candidate cannot be looked up; when
      it succeeds it keeps exactly the registered candidates, never more
      than there were. */
  lemma {:induction false} ScanRegisteredSpec(candidates: seq<Json>, oracle: Oracle)
    ensures var r := ScanRegistered(candidates, oracle);
            && (r.None? <==> exists i :: 0 <= i < |candidates| && Unscannable(oracle, candidates[i]))
            && (r.Some? ==> |r.value| <= |candidates|)
            && (r.Some? ==> forall s :: s in r.value <==>
                              (Str(s) in candidates && ProviderApp.Registered(oracle.bondFor, s)))
    decreases |candidates|
  {
    if candidates != [] {
      var init := candidates[..|candidates| - 1];
      var last := candidates[|candidates| - 1];
      ScanRegisteredSpec(init, oracle);
      assert candidates == init + [last];
      if ScanRegistered(init, oracle).None? {
        var i :| 0 <= i < |init| && Unscannable(oracle, init[i]);
        assert candidates[i] == init[i];
      }
      forall i | 0 <= i < |candidates| && Unscannable(oracle, candidates[i])
        ensures ScanRegistered(candidates, oracle).None?
      {
        if i < |init| {
          assert init[i] == candidates[i];
        }
      }
    }
  }

  /** The scan keeps candidate order: scanning two lists one after the other
      gives the two results one after the other, and fails when either fails. */
  lemma {:induction false} ScanRegisteredAppend(a: seq<Json>, b: seq<Json>, oracle: Oracle)
    ensures ScanRegistered(a + b, oracle).Some? <==> ScanRegistered(a, oracle).Some? && ScanRegistered(b, oracle).Some?
    ensures ScanRegistered(a, oracle).Some? && ScanRegistered(b, oracle).Some? ==>
              ScanRegistered(a + b, oracle).value == ScanRegistered(a, oracle).value + ScanRegistered(b, oracle).value
    decreases |b|
  {
    if b == [] {
      assert a + b == a;
    } else {
      var init := b[..|b| - 1];
      assert (a + b)[..|a + b| - 1] == a + init;
      assert (a + b)[|a + b| - 1] == b[|b| - 1];
      ScanRegisteredAppend(a, init, oracle);
    }
  }

  /** The scan of the candidates with the errors handled: any error, in
      fetching the candidates or in looking one up, gives the empty list. */
  function RegisteredSecids(response: Result<Json, string>, oracle: Oracle): (r: seq<string>)
    ensures forall s :: s in r ==> ProviderApp.Registered(oracle.bondFor, s)
  {
    match Candidates(response)
    case None => []
    case Some(candidates) =>
      ScanRegisteredSpec(candidates, oracle);
      match ScanRegistered(candidates, oracle)
      case None => []
      case Some(found) => found
  }

  /** `get_all_registered_secids()`. */
  method GetAllRegisteredSecids(response: Result<Json, string>, oracle: Oracle) returns (r: seq<string>)
    ensures r == RegisteredSecids(response, oracle)
    ensures forall s :: s in r ==> ProviderApp.Registered(oracle.bondFor, s)
  {
    var candidates := Candidates(response);
    if candidates.None? {
      return [];
    }
    var cs := candidates.value;
    ScanRegisteredSpec(cs, oracle);
    var registered: seq<string> := [];
    var i := 0;
    while i < |cs|
      invariant 0 <= i <= |cs|
      invariant ScanRegistered(cs[..i], oracle) == Some(registered)
    {
      assert cs[..i + 1][..i] == cs[..i];
      var secid := cs[i];
      if !secid.Str? {
        ScanFailureSticks(cs, i + 1, oracle);
        return [];
      }
      var address := oracle.bondFor(secid.s);
      if address.Err? {
        ScanFailureSticks(cs, i + 1, oracle);
        return [];
      }
      if address.value != ProviderApp.ZERO_ADDRESS {
        registered := registered + [secid.s];
      }
      i := i + 1;
    }
    assert cs[..|cs|] == cs;
    return registered;
  }

  /** A lookup that raises on a prefix of the candidates fails the scan. */
  lemma {:induction false} ScanFailureSticks(candidates: seq<Json>, k: nat, oracle: Oracle)
    requires k <= |candidates| && ScanRegistered(candidates[..k], oracle).None?
    ensures ScanRegistered(candidates, oracle).None?
    decreases |candidates|
  {
    if k == |candidates| {
      assert candidates[..k] == candidates;
    } else {
      var init := candidates[..|candidates| - 1];
      assert init[..k] == candidates[..k];
      ScanFailureSticks(init, k, oracle);
    }
  }

  // ---------------------------------------------------------------------
  // PriceService.fetch_offchain_prices

  /** A Python dict: its keys in insertion order, and the value each holds. */
  datatype Dict = Dict(order: seq<string>, values: map<string, Json>)

  /** Every key appears once in the order, and the order lists the keys. */
  ghost predicate WellFormed(d: Dict) {
    && (forall i, j :: 0 <= i < j < |d.order| ==> d.order[i] != d.order[j])
    && (forall k :: k in d.values <==> k in d.order)
  }

  /** `d[k] = v`: a new key goes last, an existing key keeps its place. */
  function Put(d: Dict, k: string, v: Json): (r: Dict)
    ensures r.values == d.values[k := v]
    ensures k in d.values ==> r.order == d.order
    ensures k !in d.values ==> r.order == d.order + [k]
    ensures WellFormed(d) ==> WellFormed(r)
    ensures (forall k' :: k' in d.order ==> k' in d.values) ==> (forall k' :: k' in r.order ==> k' in r.values)
  {
    if k in d.values then Dict(d.order, d.values[k := v])
    else Dict(d.order + [k], d.values[k := v])
  }

  /** The provider's answer to `GET /api/prices/<secid>?sign=true`: the
      decoded body, or `Err` where the request fails or the body is not
      JSON (both are caught and the SECID is skipped). */
  type Fetch = string -> Result<Json, string>

  /** An answer on which the loop body raises outside its handlers: `data.get`
      on a body that is not an object, or the debug message's eager
      `price_info.get('price')` on a truthy "price" that is not an object. */
  predicate Raises(data: Json) {
    !data.Obj? || (Truthy(Get(data.fields, "price")) && !Get(data.fields, "price").Obj?)
  }

  /** The loop of `fetch_offchain_prices` over the registered SECIDs; `None`
      where an answer `Raises` out of it. */
  function FetchedPrices(secids: seq<string>, fetch: Fetch): (r: Option<Dict>)
    ensures r.Some? ==> forall k :: k in r.value.order ==> k in r.value.values
    decreases |secids|
  {
    if secids == [] then Some(Dict([], map[]))
    else
      var prices :- FetchedPrices(secids[..|secids| - 1], fetch);
      var secid := secids[|secids| - 1];
      var data := fetch(secid);
      if data.Err? then Some(prices)
      else if Raises(data.value) then None
      else
        var info := Get(data.value.fields, "price");
        if Truthy(info) then Some(Put(prices, secid, info)) else Some(prices)
  }

  /** The fetch aborts exactly when some answer raises; otherwise the SECIDs
      kept are exactly the ones whose answer carries a truthy "price" member,
      each once, with the price object as served; nothing else is kept. */
  lemma {:induction false} FetchedPricesSpec(secids: seq<string>, fetch: Fetch)
    ensures var r := FetchedPrices(secids, fetch);
            && (r.None? <==> exists i :: 0 <= i < |secids| && fetch(secids[i]).Ok? && Raises(fetch(secids[i]).value))
            && (r.Some? ==>
                  && WellFormed(r.value)
                  && (forall k :: k in r.value.values <==>
                                    && k in secids && fetch(k).Ok? && fetch(k).value.Obj?
                                    && Truthy(Get(fetch(k).value.fields, "price")))
                  && (forall k :: k in r.value.values ==>
                                    fetch(k).Ok? && fetch(k).value.Obj?
                                    && r.value.values[k] == Get(fetch(k).value.fields, "price")
                                    && r.value.values[k].Obj?))
    decreases |secids|
  {
    if secids != [] {
      var init := secids[..|secids| - 1];
      var secid := secids[|secids| - 1];
      FetchedPricesSpec(init, fetch);
      assert secids == init + [secid];
      if FetchedPrices(init, fetch).None? {
        var i :| 0 <= i < |init| && fetch(init[i]).Ok? && Raises(fetch(init[i]).value);
        assert secids[i] == init[i];
      }
      forall i | 0 <= i < |secids| && fetch(secids[i]).Ok? && Raises(fetch(secids[i]).value)
        ensures FetchedPrices(secids, fetch).None?
      {
        if i < |init| {
          assert init[i] == secids[i];
        }
      }
    }
  }

  /** The kept SECIDs are in the order the registered list first names them,
      so the update cycle processes them in that order. */
  lemma {:induction false} FetchedOrder(secids: seq<string>, fetch: Fetch)
    requires FetchedPrices(secids, fetch).Some?
    ensures var o := FetchedPrices(secids, fetch).value.order;
            forall i, j :: 0 <= i < j < |o| ==> Numeric.IndexOf(secids, o[i]) < Numeric.IndexOf(secids, o[j])
    decreases |secids|
  {
    if secids != [] {
      var init := secids[..|secids| - 1];
      var secid := secids[|secids| - 1];
      assert secids == init + [secid];
      FetchedOrder(init, fetch);
      FetchedPricesSpec(init, fetch);
      var before := FetchedPrices(init, fetch).value;
      forall x | x in before.order
        ensures Numeric.IndexOf(secids, x) == Numeric.IndexOf(init, x) < |init|
      {
        IndexOfExtend(init, secid, x);
      }
      var o := FetchedPrices(secids, fetch).value.order;
      if o != before.order {
        assert secid !in before.values && o == before.order + [secid];
        assert secid !in init;
        assert Numeric.IndexOf(secids, secid) == |init|;
      }
    }
  }

  /** Appending to a list moves no earlier first occurrence. */
  lemma {:induction false} IndexOfExtend(s: seq<string>, x: string, y: string)
    requires y in s
    ensures Numeric.IndexOf(s + [x], y) == Numeric.IndexOf(s, y) < |s|
  {
    if s[0] != y {
      assert (s + [x])[1..] == s[1..] + [x];
      IndexOfExtend(s[1..], x, y);
    }
  }

  /** `fetch_offchain_prices()` over the registered SECIDs. */
  method FetchOffchainPrices(registered: seq<string>, fetch: Fetch) returns (r: Option<Dict>)
    ensures r == FetchedPrices(registered, fetch)
  {
    if registered == [] {
      return Some(Dict([], map[]));
    }
    var prices := Dict([], map[]);
    var i := 0;
    while i < |registered|
      invariant 0 <= i <= |registered|
      invariant FetchedPrices(registered[..i], fetch) == Some(prices)
    {
      assert registered[..i + 1][..i] == registered[..i];
      var secid := registered[i];
      var data := fetch(secid);
      if data.Ok? {
        if Raises(data.value) {
          FetchFailureSticks(registered, i + 1, fetch);
          return None;
        }
        var info := Get(data.value.fields, "price");
        if Truthy(info) {
          prices := Put(prices, secid, info);
        }
      }
      i := i + 1;
    }
    assert registered[..|registered|] == registered;
    return Some(prices);
  }

  /** A body that raises on a prefix of the SECIDs ends the whole fetch. */
  lemma {:induction false} FetchFailureSticks(secids: seq<string>, k: nat, fetch: Fetch)
    requires k <= |secids| && FetchedPrices(secids[..k], fetch).None?
    ensures FetchedPrices(secids, fetch).None?
    decreases |secids|
  {
    if k == |secids| {
      assert secids[..k] == secids;
    } else {
      var init := secids[..|secids| - 1];
      assert init[..k] == secids[..k];
      FetchFailureSticks(init, k, fetch);
    }
  }

  // ---------------------------------------------------------------------
  // PriceService: get_onchain_price, prepare_signature, should_update_price

  /** `get_onchain_price(secid)`: `None` for a SECID the oracle maps to the
      zero address, otherwise the first field of the bond's price feed;
      `Err` where a call raises. */
  function GetOnchainPrice(oracle: Oracle, secid: string): (r: Result<Option<int>, string>)
    ensures r == Ok(None) <==> oracle.bondFor(secid) == Ok(ProviderApp.ZERO_ADDRESS)
    ensures r.Ok? && r.value.Some? <==>
              ProviderApp.Registered(oracle.bondFor, secid) && oracle.priceOf(oracle.bondFor(secid).value).Ok?
    ensures r.Ok? && r.value.Some? ==> r.value.value == oracle.priceOf(oracle.bondFor(secid).value).value
  {
    var address :- oracle.bondFor(secid);
    if address == ProviderApp.ZERO_ADDRESS then Ok(None)
    else
      var price :- oracle.priceOf(address);
      Ok(Some(price))
  }

  /** What `prepare_signature` raises. */
  datatype SignatureError = TypeError | ValueError

  /** `prepare_signature(signature_hex)`: TypeError for a value that is not
      a string, otherwise the bytes of its hexadecimal text after one
      optional leading `0x` (ValueError where `bytes.fromhex` rejects it). */
  function PrepareSignature(signature: Json): (r: Result<seq<byte>, SignatureError>)
    ensures !signature.Str? ==> r == Err(TypeError)
    ensures signature.Str? ==>
              var digits := Hex.StripHexPrefix(signature.s);
              && (r.Ok? <==> |digits| % 2 == 0 && Hex.IsHexString(digits))
              && (r.Err? ==> r.error == ValueError)
              && (r.Ok? ==> 2 * |r.value| == |digits|)
  {
    if !signature.Str? then Err(TypeError)
    else
      match Hex.FromHex(Hex.StripHexPrefix(signature.s))
      case None => Err(ValueError)
      case Some(bytes) => Ok(bytes)
  }

  /** The hexadecimal text the provider signs with, `0x` and all, turns
      back into the signature's bytes. */
  lemma PrepareSignatureRoundTrip(bytes: seq<byte>)
    ensures PrepareSignature(Str(SignatureUtils.SignatureHex(bytes))) == Ok(bytes)
  {
    var withPrefix := SignatureUtils.SignatureHex(bytes);
    assert withPrefix[2..] == Hex.ToHex(bytes);
    Hex.FromToHex(bytes);
  }

  /** Bare hexadecimal text, without `0x`, is read the same way. */
  lemma PrepareBareHex(bytes: seq<byte>)
    ensures PrepareSignature(Str(Hex.ToHex(bytes))) == Ok(bytes)
  {
    var hex := Hex.ToHex(bytes);
    if |hex| >= 2 {
      assert Hex.IsHexDigit(hex[1]);
    }
    Hex.FromToHex(bytes);
  }

  /** Only one `0x` is removed: a doubled prefix is rejected as ValueError. */
  lemma DoubledPrefixRejected(rest: string)
    ensures PrepareSignature(Str("0x0x" + rest)) == Err(ValueError)
  {
    var doubled := "0x0x" + rest;
    assert doubled[..2] == "0x";
    var digits := doubled[2..];
    assert digits[1] == 'x' && !Hex.IsHexDigit(digits[1]);
  }

  function Abs(x: real): real {
    if x < 0.0 then -x else x
  }

  /** `should_update_price(secid, new_price, current_price)` with the
      threshold percentage: never for an unregistered SECID, always over a
      zero on-chain price, otherwise when the relative move in percent
      reaches the threshold; `None` where the arithmetic on a non-number
      raises TypeError. */
  function ShouldUpdatePrice(newPrice: Json, current: Option<int>, threshold: real): (r: Option<bool>)
    ensures current.None? ==> r == Some(false)
    ensures current == Some(0) ==> r == Some(true)
    ensures current.Some? && current.value != 0 ==> (r.None? <==> AsNumber(newPrice).None?)
  {
    if current.None? then Some(false)
    else if current.value == 0 then Some(true)
    else
      match AsNumber(newPrice)
      case None => None
      case Some(x) => Some(Abs(x - current.value as real) / current.value as real * 100.0 >= threshold)
  }

  /** Over a positive on-chain price, an update is due exactly when the
      move times 100 reaches the threshold times the price: the boundary
      counts as reached, and a rise and a fall of the same size decide
      alike. */
  lemma ShouldUpdateIff(x: real, current: int, threshold: real, d: int)
    requires current > 0
    ensures ShouldUpdatePrice(Float(x), Some(current), threshold)
            == Some(Abs(x - current as real) * 100.0 >= threshold * current as real)
    ensures ShouldUpdatePrice(Int(current + d), Some(current), threshold)
            == ShouldUpdatePrice(Int(current - d), Some(current), threshold)
  {
    var c := current as real;
    var a := Abs(x - c);
    assert a / c * 100.0 * c == a * 100.0;
    ScaleByPositive(a / c * 100.0, threshold, c);
    assert Abs((current + d) as real - c) == Abs((current - d) as real - c);
  }

  /** Multiplying both sides by a positive number keeps the comparison. */
  lemma ScaleByPositive(p: real, t: real, c: real)
    requires c > 0.0
    ensures p >= t <==> p * c >= t * c
  {
    if p >= t {
      assert (p - t) * c >= 0.0;
    } else {
      assert (t - p) * c > 0.0;
    }
  }

  /** A bigger move from the same on-chain price is never ignored when a
      smaller one is published. */
  lemma BiggerMovePublishes(x: real, y: real, current: int, threshold: real)
    requires current > 0 && Abs(x - current as real) <= Abs(y - current as real)
    requires ShouldUpdatePrice(Float(x), Some(current), threshold) == Some(true)
    ensures ShouldUpdatePrice(Float(y), Some(current), threshold) == Some(true)
  {
    ShouldUpdateIff(x, current, threshold, 0);
    ShouldUpdateIff(y, current, threshold, 0);
  }

  // ---------------------------------------------------------------------
  // PricePublisher.process_single_price_update

  /** The `send_update_price_transaction` call: exactly the price, deadline
      and nonce received, with the prepared signature bytes. */
  datatype Update = Update(secid: string, priceUint: Json, deadline: Json, nonce: Json, signature: seq<byte>)

  /** How processing one SECID ends (no exception leaves it). */
  datatype Outcome =
    | MissingData  // price_uint, signature, deadline or nonce absent or null
    | NotNeeded    // should_update_price said no
    | Expired      // the deadline is not after the current time
    | Failed       // an exception was caught and logged
    | Sent(update: Update)

  /** How `process_single_price_update(secid, offchain_data)` ends at time
      `now`; `None` where `offchain_data.get` raises (the price information
      is not an object), which escapes to the update cycle. */
  function UpdateOutcome(secid: string, data: Json, oracle: Oracle, threshold: real, now: int)
    : (r: Option<Outcome>)
    ensures r.None? <==> !data.Obj?
    ensures data.Obj? && Get(data.fields, "price_uint") == Null ==> r == Some(MissingData)
  {
    if !data.Obj? then None
    else
      var price := Get(data.fields, "price_uint");
      var signature := Get(data.fields, "signature");
      var deadline := Get(data.fields, "deadline");
      var nonce := Get(data.fields, "nonce");
      if price == Null || signature == Null || deadline == Null || nonce == Null then Some(MissingData)
      else Some(
        match GetOnchainPrice(oracle, secid)
        case Err(_) => Failed
        case Ok(current) =>
          match ShouldUpdatePrice(price, current, threshold)
          case None => Failed
          case Some(false) => NotNeeded
          case Some(true) =>
            match PrepareSignature(signature)
            case Err(_) => Failed
            case Ok(bytes) =>
              match AsNumber(deadline)
              case None => Failed
              case Some(d) =>
                if d <= now as real then Expired
                else Sent(Update(secid, price, deadline, nonce, bytes)))
  }

  /** `process_single_price_update(secid, offchain_data)` at time `now`:
      its guards one after the other, ending in the update it sends. */
  method ProcessSinglePriceUpdate(secid: string, data: Json, oracle: Oracle, threshold: real, now: int)
    returns (r: Option<Outcome>)
    ensures r == UpdateOutcome(secid, data, oracle, threshold, now)
  {
    if !data.Obj? {
      return None;
    }
    var price := Get(data.fields, "price_uint");
    var signature := Get(data.fields, "signature");
    var deadline := Get(data.fields, "deadline");
    var nonce := Get(data.fields, "nonce");
    if price == Null || signature == Null || deadline == Null || nonce == Null {
      return Some(MissingData);
    }
    var current := GetOnchainPrice(oracle, secid);
    if current.Err? {
      return Some(Failed);
    }
    var due := ShouldUpdatePrice(price, current.value, threshold);
    if due.None? {
      return Some(Failed);
    }
    if !due.value {
      return Some(NotNeeded);
    }
    var bytes := PrepareSignature(signature);
    if bytes.Err? {
      return Some(Failed);
    }
    var d := AsNumber(deadline);
    if d.None? {
      return Some(Failed);
    }
    if d.value <= now as real {
      return Some(Expired);
    }
    return Some(Sent(Update(secid, price, deadline, nonce, bytes.value)));
  }

  /** Every condition for sending, in the source's order. */
  predicate SendsFor(secid: string, fields: map<string, Json>, oracle: Oracle, threshold: real, now: int) {
    && Get(fields, "price_uint") != Null && Get(fields, "signature") != Null
    && Get(fields, "deadline") != Null && Get(fields, "nonce") != Null
    && GetOnchainPrice(oracle, secid).Ok?
    && ShouldUpdatePrice(Get(fields, "price_uint"), GetOnchainPrice(oracle, secid).value, threshold) == Some(true)
    && PrepareSignature(Get(fields, "signature")).Ok?
    && AsNumber(Get(fields, "deadline")).Some? && AsNumber(Get(fields, "deadline")).value > now as real
  }

  /** An update is sent exactly when every check passes, and then carries the
      received price, deadline and nonce unchanged; a missing field sends
      nothing, and neither does an unregistered SECID. */
  lemma ProcessSpec(secid: string, data: Json, oracle: Oracle, threshold: real, now: int)
    ensures var r := UpdateOutcome(secid, data, oracle, threshold, now);
            && (r.None? <==> !data.Obj?)
            && (data.Obj? ==>
                  && (r == Some(MissingData) <==>
                        (Get(data.fields, "price_uint") == Null || Get(data.fields, "signature") == Null
                         || Get(data.fields, "deadline") == Null || Get(data.fields, "nonce") == Null))
                  && (r.value.Sent? <==> SendsFor(secid, data.fields, oracle, threshold, now))
                  && (r.value.Sent? ==>
                        && r.value.update == Update(secid, data.fields["price_uint"], data.fields["deadline"],
                                                    data.fields["nonce"],
                                                    PrepareSignature(data.fields["signature"]).value)
                        && ProviderApp.Registered(oracle.bondFor, secid)))
            && (data.Obj? && oracle.bondFor(secid) == Ok(ProviderApp.ZERO_ADDRESS) ==> r.value in {MissingData, NotNeeded})
  {
  }

  /** The signature is prepared before the deadline is looked at: a
      malformed signature with an expired deadline is a failure, not an
      expiry. */
  lemma SignatureCheckedFirst(secid: string, fields: map<string, Json>, oracle: Oracle, threshold: real, now: int)
    requires Get(fields, "price_uint") != Null && Get(fields, "deadline") != Null && Get(fields, "nonce") != Null
    requires GetOnchainPrice(oracle, secid).Ok?
    requires ShouldUpdatePrice(Get(fields, "price_uint"), GetOnchainPrice(oracle, secid).value, threshold) == Some(true)
    requires Get(fields, "signature") == Str("0x0x")
    ensures UpdateOutcome(secid, Obj(fields), oracle, threshold, now) == Some(Failed)
  {
    DoubledPrefixRejected([]);
    assert "0x0x" + [] == "0x0x";
  }

  /** An entry the provider served with a signature is relayed, when due
      and not expired, with exactly the integer price, deadline and nonce it
      carries and the signature's own bytes; an entry served without a
      signature is never relayed. */
  lemma RelaysServedEntry(secid: string, price: real, priceUint: int, isCurrent: bool, bytes: seq<byte>,
                          nonce: int, deadline: int, oracle: Oracle, threshold: real, now: int)
    requires GetOnchainPrice(oracle, secid).Ok?
    requires ShouldUpdatePrice(Int(priceUint), GetOnchainPrice(oracle, secid).value, threshold) == Some(true)
    requires deadline > now
    ensures var sp := SignatureUtils.SignedPrice(SignatureUtils.SignatureHex(bytes), nonce, deadline);
            var entry := ProviderApp.Signed(ProviderApp.PriceInfo(price, priceUint, isCurrent), sp);
            UpdateOutcome(secid, Obj(entry), oracle, threshold, now)
            == Some(Sent(Update(secid, Int(priceUint), Int(deadline), Int(nonce), bytes)))
    ensures UpdateOutcome(secid, Obj(ProviderApp.PriceInfo(price, priceUint, isCurrent)), oracle, threshold, now)
            == Some(MissingData)
  {
    var sp := SignatureUtils.SignedPrice(SignatureUtils.SignatureHex(bytes), nonce, deadline);
    var entry := ProviderApp.Signed(ProviderApp.PriceInfo(price, priceUint, isCurrent), sp);
    assert Get(entry, "price_uint") == Int(priceUint);
    assert Get(entry, "signature") == Str(sp.signatureHex);
    assert Get(entry, "deadline") == Int(deadline);
    assert Get(entry, "nonce") == Int(nonce);
    PrepareSignatureRoundTrip(bytes);
    assert "signature" !in ProviderApp.PriceInfo(price, priceUint, isCurrent);
  }

  // ---------------------------------------------------------------------
  // PricePublisher.run_update_cycle

  /** How a cycle ends: what happened to each SECID processed, in order, and
      whether an exception aborted it. */
  datatype Cycle = Cycle(outcomes: seq<(string, Outcome)>, aborted: bool)

  /** The loop of `run_update_cycle` over the fetched prices, in insertion
      order, stopping at the first SECID whose processing raises. */
  function ProcessAll(order: seq<string>, values: map<string, Json>, oracle: Oracle, threshold: real, now: int)
    : (r: Cycle)
    requires forall k :: k in order ==> k in values
    ensures |r.outcomes| <= |order|
    ensures !r.aborted ==> |r.outcomes| == |order|
    decreases |order|
  {
    if order == [] then Cycle([], false)
    else
      var before := ProcessAll(order[..|order| - 1], values, oracle, threshold, now);
      if before.aborted then before
      else
        var secid := order[|order| - 1];
        match UpdateOutcome(secid, values[secid], oracle, threshold, now)
        case None => Cycle(before.outcomes, true)
        case Some(o) => Cycle(before.outcomes + [(secid, o)], false)
  }

  /** The SECIDs are processed in the order fetched, each with the outcome
      its own price information gives, up to the one that raises. */
  lemma {:induction false} ProcessAllSpec(order: seq<string>, values: map<string, Json>, oracle: Oracle,
                                          threshold: real, now: int)
    requires forall k :: k in order ==> k in values
    ensures var c := ProcessAll(order, values, oracle, threshold, now);
            && |c.outcomes| <= |order|
            && (forall i :: 0 <= i < |c.outcomes| ==>
                  && c.outcomes[i].0 == order[i]
                  && UpdateOutcome(order[i], values[order[i]], oracle, threshold, now)
                     == Some(c.outcomes[i].1))
            && (!c.aborted <==> |c.outcomes| == |order|)
            && (c.aborted ==> UpdateOutcome(order[|c.outcomes|], values[order[|c.outcomes|]],
                                                       oracle, threshold, now).None?)
    decreases |order|
  {
    if order != [] {
      var init := order[..|order| - 1];
      ProcessAllSpec(init, values, oracle, threshold, now);
      forall i | 0 <= i < |init|
        ensures init[i] == order[i]
      {
      }
    }
  }

  /** `run_update_cycle()`: fetch the prices of the registered SECIDs and
      process each; an exception in fetching ends the cycle before any
      processing, and an empty result is skipped. */
  function RunCycle(response: Result<Json, string>, oracle: Oracle, fetch: Fetch, threshold: real, now: int): Cycle {
    match FetchedPrices(RegisteredSecids(response, oracle), fetch)
    case None => Cycle([], true)
    case Some(prices) => ProcessAll(prices.order, prices.values, oracle, threshold, now)
  }

  /** A sent update is for a SECID the oracle knows, and carries the price,
      deadline and nonce of the price information the provider served. */
  predicate SentAsServed(secid: string, o: Outcome, oracle: Oracle, fetch: Fetch) {
    o.Sent? ==>
      && o.update.secid == secid
      && ProviderApp.Registered(oracle.bondFor, secid)
      && fetch(secid).Ok? && fetch(secid).value.Obj?
      && var info := Get(fetch(secid).value.fields, "price");
         && info.Obj?
         && o.update.priceUint == Get(info.fields, "price_uint")
         && o.update.deadline == Get(info.fields, "deadline")
         && o.update.nonce == Get(info.fields, "nonce")
  }

  /** In one cycle each SECID is processed at most once, so at most one
      update is sent for it, and what is sent is what was served. */
  lemma CycleSendsOncePerSecid(response: Result<Json, string>, oracle: Oracle, fetch: Fetch, threshold: real, now: int)
    ensures var c := RunCycle(response, oracle, fetch, threshold, now);
            && (forall i, j :: 0 <= i < j < |c.outcomes| ==> c.outcomes[i].0 != c.outcomes[j].0)
            && (forall i :: 0 <= i < |c.outcomes| ==> SentAsServed(c.outcomes[i].0, c.outcomes[i].1, oracle, fetch))
  {
    var secids := RegisteredSecids(response, oracle);
    FetchedPricesSpec(secids, fetch);
    var fetched := FetchedPrices(secids, fetch);
    if fetched.Some? {
      var prices := fetched.value;
      ProcessAllSpec(prices.order, prices.values, oracle, threshold, now);
      var c := ProcessAll(prices.order, prices.values, oracle, threshold, now);
      forall i | 0 <= i < |c.outcomes|
        ensures SentAsServed(c.outcomes[i].0, c.outcomes[i].1, oracle, fetch)
      {
        var secid := prices.order[i];
        ProcessSpec(secid, prices.values[secid], oracle, threshold, now);
      }
    }
  }

  /** Every price the fetch keeps is an object, so processing never raises:
      a cycle aborts exactly when fetching does, before any SECID is processed. */
  lemma CycleAbortsOnlyInFetch(response: Result<Json, string>, oracle: Oracle, fetch: Fetch, threshold: real, now: int)
    ensures var c := RunCycle(response, oracle, fetch, threshold, now);
            && (c.aborted <==> FetchedPrices(RegisteredSecids(response, oracle), fetch).None?)
            && (c.aborted ==> c.outcomes == [])
  {
    var secids := RegisteredSecids(response, oracle);
    FetchedPricesSpec(secids, fetch);
    var fetched := FetchedPrices(secids, fetch);
    if fetched.Some? {
      var prices := fetched.value;
      ProcessAllSpec(prices.order, prices.values, oracle, threshold, now);
      var c := ProcessAll(prices.order, prices.values, oracle, threshold, now);
      if c.aborted {
        assert false;
      }
    }
  }

  /** `run_update_cycle()` at time `now`, processing the fetched prices one
      by one. */
  method RunUpdateCycle(response: Result<Json, string>, oracle: Oracle, fetch: Fetch, threshold: real, now: int)
    returns (c: Cycle)
    ensures c == RunCycle(response, oracle, fetch, threshold, now)
  {
    var registered := GetAllRegisteredSecids(response, oracle);
    var fetched := FetchOffchainPrices(registered, fetch);
    if fetched.None? {
      return Cycle([], true);
    }
    var order := fetched.value.order;
    var values := fetched.value.values;
    if order == [] {
      return Cycle([], false);
    }
    var outcomes: seq<(string, Outcome)> := [];
    var i := 0;
    while i < |order|
      invariant 0 <= i <= |order|
      invariant ProcessAll(order[..i], values, oracle, threshold, now) == Cycle(outcomes, false)
    {
      assert order[..i + 1][..i] == order[..i];
      var secid := order[i];
      var outcome := ProcessSinglePriceUpdate(secid, values[secid], oracle, threshold, now);
      if outcome.None? {
        AbortSticks(order, values, i + 1, oracle, threshold, now);
        return Cycle(outcomes, true);
      }
      outcomes := outcomes + [(secid, outcome.value)];
      i := i + 1;
    }
    assert order[..|order|] == order;
    return Cycle(outcomes, false);
  }

  /** Once the cycle aborts, the SECIDs after it are not processed. */
  lemma {:induction false} AbortSticks(order: seq<string>, values: map<string, Json>, k: nat, oracle: Oracle,
                                       threshold: real, now: int)
    requires forall k :: k in order ==> k in values
    requires k <= |order| && ProcessAll(order[..k], values, oracle, threshold, now).aborted
    ensures ProcessAll(order, values, oracle, threshold, now) == ProcessAll(order[..k], values, oracle, threshold, now)
    decreases |order|
  {
    if k == |order| {
      assert order[..k] == order;
    } else {
      var init := order[..|order| - 1];
      assert init[..k] == order[..k];
      AbortSticks(init, values, k, oracle, threshold, now);
    }
  }
}
