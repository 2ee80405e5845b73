/** The MOEX price and bond-description rules of the price provider: which
    market-data field gives the price, how the bond description is read and
    completed from the securities block, and how the absolute price and its
    "current market data" flag are derived. The HTTP fetches themselves are
    inputs: what MOEX returned, or the error the fetch raised. */
module OfzPrices {
  import opened Wrappers
  import opened Json
  import Numeric

  /** The exception a price computation lets out. */
  datatype PriceError =
    | FetchFailed(reason: string) // requests / JSON decoding raised
    | IndexError                  // a row shorter than its columns, or no row at all
    | TypeError                   // a comparison or float() on a value of the wrong type
    | ValueError                  // float() of text that is not a number

  // ---------------------------------------------------------------------
  // market_prices

  /** The market-data fields, most preferred first. */
  const PRICE_FIELDS: seq<string> := ["MARKETPRICE", "LAST", "LCLOSEPRICE", "WAPRICE", "PREVWAPRICE", "CLOSEPRICE"]

  /** `data[cols.index(field)] if field in cols else None`. */
  function FieldValue(cols: seq<string>, row: seq<Json>, field: string): (r: Result<Json, PriceError>)
    ensures field !in cols ==> r == Ok(Null)
  {
    var k := Numeric.IndexOf(cols, field);
    if k == |cols| then Ok(Null)
    else if k < |row| then Ok(row[k])
    else Err(IndexError)
  }

  /** The dict comprehension: the value of each field in `fields`, in order;
      the first out-of-range column raises IndexError. */
  function FieldValues(cols: seq<string>, row: seq<Json>, fields: seq<string>): (r: Result<seq<Json>, PriceError>)
    ensures r.Ok? ==> |r.value| == |fields|
    ensures r.Ok? ==> forall i :: 0 <= i < |fields| ==> FieldValue(cols, row, fields[i]) == Ok(r.value[i])
    ensures r.Err? ==> exists i :: 0 <= i < |fields| && FieldValue(cols, row, fields[i]).Err?
  {
    if fields == [] then Ok([])
    else
      var v :- FieldValue(cols, row, fields[0]);
      var rest :- FieldValues(cols, row, fields[1..]);
      assert forall i :: 1 <= i < |fields| ==> fields[i] == fields[1..][i - 1];
      Ok([v] + rest)
  }

  /** The first-match loop: the first value that is not None, with its field name. */
  function FirstPresent(values: seq<Json>, fields: seq<string>): (r: Option<(Json, string)>)
    requires |values| == |fields|
    ensures r.Some? ==> r.value.0 != Null && r.value.1 in fields
  {
    if values == [] then None
    else if values[0] != Null then Some((values[0], fields[0]))
    else FirstPresent(values[1..], fields[1..])
  }

  /** FirstPresent picks the earliest non-None value, and gives None only
      when every value is None. */
  lemma {:induction false} FirstPresentSpec(values: seq<Json>, fields: seq<string>)
    requires |values| == |fields|
    ensures FirstPresent(values, fields).None? <==> forall i :: 0 <= i < |values| ==> values[i] == Null
    ensures FirstPresent(values, fields).Some? ==>
              exists k :: && 0 <= k < |values| && values[k] != Null
                          && (forall j :: 0 <= j < k ==> values[j] == Null)
                          && FirstPresent(values, fields).value == (values[k], fields[k])
  {
    if values != [] && values[0] == Null {
      FirstPresentSpec(values[1..], fields[1..]);
      assert forall i :: 1 <= i < |values| ==> values[i] == values[1..][i - 1];
      if FirstPresent(values, fields).Some? {
        var k :| && 0 <= k < |values[1..]| && values[1..][k] != Null
                 && (forall j :: 0 <= j < k ==> values[1..][j] == Null)
                 && FirstPresent(values[1..], fields[1..]).value == (values[1..][k], fields[1..][k]);
        assert forall j :: 0 <= j < k + 1 ==> values[j] == Null by {
          forall j | 0 <= j < k + 1 ensures values[j] == Null {
            if j > 0 { assert values[j] == values[1..][j - 1]; }
          }
        }
      }
    } else if values != [] {
      assert FirstPresent(values, fields).value == (values[0], fields[0]);
    }
  }

  /** What MOEX returned for the market data: its columns and data rows. */
  datatype MarketData = MarketData(columns: seq<string>, rows: seq<seq<Json>>)

  /** `market_prices(secid)` on the fetched market data: `Some((price, field))`
      or `None` for `(None, None)`. */
  function MarketPrices(m: MarketData): (r: Result<Option<(Json, string)>, PriceError>)
    ensures m.rows == [] ==> r == Err(IndexError)
    ensures r.Ok? && r.value.Some? ==> r.value.value.0 != Null && r.value.value.1 in PRICE_FIELDS
  {
    if m.rows == [] then Err(IndexError)
    else
      var values :- FieldValues(m.columns, m.rows[0], PRICE_FIELDS);
      Ok(FirstPresent(values, PRICE_FIELDS))
  }

  /** The price is the value of the most preferred field that is present and
      not None (a missing column counting as None); `(None, None)` exactly
      when all six are None. */
  lemma MarketPricesPriority(m: MarketData)
    requires MarketPrices(m).Ok?
    ensures m.rows != []
    ensures var r := MarketPrices(m).value;
            var row := m.rows[0];
            && (r.None? <==> forall i :: 0 <= i < 6 ==> FieldValue(m.columns, row, PRICE_FIELDS[i]) == Ok(Null))
            && (r.Some? ==> exists k :: && 0 <= k < 6 && r.value.1 == PRICE_FIELDS[k] && r.value.0 != Null
                                        && FieldValue(m.columns, row, PRICE_FIELDS[k]) == Ok(r.value.0)
                                        && forall j :: 0 <= j < k ==> FieldValue(m.columns, row, PRICE_FIELDS[j]) == Ok(Null))
  {
    var values := FieldValues(m.columns, m.rows[0], PRICE_FIELDS).value;
    FirstPresentSpec(values, PRICE_FIELDS);
  }

  // ---------------------------------------------------------------------
  // get_bond_details

  /** The fourteen entries of the details dict. */
  datatype DetailField =
    | InitialPrice | MaturityPrice | MaturityAt | IssueDate | FaceUnit
    | CouponValue | CouponPercent | NextCoupon | CouponFrequency | AccruedInt
    | SecurityType | IssueSize | Isin | RegNumber

  /** The key of the entry in the returned dict. */
  function Key(f: DetailField): string {
    match f
    case InitialPrice => "initialPrice"
    case MaturityPrice => "maturityPrice"
    case MaturityAt => "maturityAt"
    case IssueDate => "issueDate"
    case FaceUnit => "faceUnit"
    case CouponValue => "couponValue"
    case CouponPercent => "couponPercent"
    case NextCoupon => "nextCoupon"
    case CouponFrequency => "couponFrequency"
    case AccruedInt => "accruedInt"
    case SecurityType => "securityType"
    case IssueSize => "issueSize"
    case Isin => "isin"
    case RegNumber => "regNumber"
  }

  /** The MOEX description name `field_mapping` reads the entry from. */
  function MoexName(f: DetailField): string {
    match f
    case InitialPrice => "INITIALFACEVALUE"
    case MaturityPrice => "FACEVALUE"
    case MaturityAt => "MATDATE"
    case IssueDate => "ISSUEDATE"
    case FaceUnit => "FACEUNIT"
    case CouponValue => "COUPONVALUE"
    case CouponPercent => "COUPONPERCENT"
    case NextCoupon => "NEXTCOUPON"
    case CouponFrequency => "COUPONFREQUENCY"
    case AccruedInt => "ACCRUEDINT"
    case SecurityType => "SECNAME"
    case IssueSize => "ISSUESIZE"
    case Isin => "ISIN"
    case RegNumber => "REGNUMBER"
  }

  /** `field_mapping` in its iteration order: the entry read at step i. */
  function FieldAt(i: nat): DetailField
    requires i < FIELD_COUNT
  {
    if i == 0 then InitialPrice
    else     if i == 1 then MaturityPrice
    else     if i == 2 then MaturityAt
    else     if i == 3 then IssueDate
    else     if i == 4 then FaceUnit
    else     if i == 5 then CouponValue
    else     if i == 6 then CouponPercent
    else     if i == 7 then NextCoupon
    else     if i == 8 then CouponFrequency
    else     if i == 9 then AccruedInt
    else     if i == 10 then SecurityType
    else     if i == 11 then IssueSize
    else     if i == 12 then Isin
    else RegNumber
  }

  const FIELD_COUNT := 14

  /** Where an entry sits in the iteration order. */
  function Position(f: DetailField): (k: nat)
    ensures k < FIELD_COUNT && FieldAt(k) == f
  {
    match f
    case InitialPrice => 0
    case MaturityPrice => 1
    case MaturityAt => 2
    case IssueDate => 3
    case FaceUnit => 4
    case CouponValue => 5
    case CouponPercent => 6
    case NextCoupon => 7
    case CouponFrequency => 8
    case AccruedInt => 9
    case SecurityType => 10
    case IssueSize => 11
    case Isin => 12
    case RegNumber => 13
  }

  /** The iteration order lists each entry once: the entry at step i sits at position i. */
  lemma PositionOfIndex(i: nat)
    requires i < FIELD_COUNT
    ensures Position(FieldAt(i)) == i
  {
  }

  /** Distinct steps read distinct entries. */
  lemma FieldAtInjective()
    ensures forall j, k :: 0 <= j < FIELD_COUNT && 0 <= k < FIELD_COUNT && FieldAt(j) == FieldAt(k) ==> j == k
  {
    forall j, k | 0 <= j < FIELD_COUNT && 0 <= k < FIELD_COUNT && FieldAt(j) == FieldAt(k) ensures j == k {
      PositionOfIndex(j);
      PositionOfIndex(k);
    }
  }

  /** Every entry of the dict. */
  function AllFields(): (s: set<DetailField>)
    ensures forall f: DetailField :: f in s
  {
    var s := set i | 0 <= i < FIELD_COUNT :: FieldAt(i);
    assert forall f: DetailField :: f in s by {
      forall f: DetailField ensures f in s { assert FieldAt(Position(f)) == f; }
    }
    s
  }

  /** The securities-block column an entry is filled from when still None. */
  function SecuritiesName(f: DetailField): Option<string> {
    match f
    case MaturityPrice => Some("FACEVALUE")
    case MaturityAt => Some("MATDATE")
    case CouponValue => Some("COUPONVALUE")
    case CouponPercent => Some("COUPONPERCENT")
    case NextCoupon => Some("NEXTCOUPON")
    case _ => None
  }

  /** One row of the description block: its "name" and "value" columns. */
  datatype DescRow = DescRow(name: string, value: Json)

  /** The securities.json answer: the description rows (`None` when the block
      is absent) and the securities block. */
  datatype BondResponse = BondResponse(description: Option<seq<DescRow>>, securities: SecuritiesBlock)

  /** The securities block of the answer. */
  datatype SecuritiesBlock =
    | NoRows                             // absent, or with no data rows
    | FirstRow(row: map<string, Json>)   // `sec_df.iloc[0].to_dict()`
    | Malformed                          // building its DataFrame raises: a missing
                                         // "data" or "columns" key, or rows that do
                                         // not fit the columns

  /** `desc_df[desc_df["name"] == name].iloc[0]["value"]`, if there is such a row. */
  function FirstRowValue(desc: seq<DescRow>, name: string): (r: Option<Json>)
    ensures r.Some? <==> exists i :: 0 <= i < |desc| && desc[i].name == name
  {
    if desc == [] then None
    else if desc[0].name == name then Some(desc[0].value)
    else
      var r := FirstRowValue(desc[1..], name);
      assert forall i :: 1 <= i < |desc| ==> desc[i] == desc[1..][i - 1];
      r
  }

  /** A description value as stored: text that passes
      `value.replace('.', '', 1).isdigit()` becomes a float, anything else is kept. */
  function Convert(v: Json): (r: Json)
    ensures v.Str? && Numeric.IsNumericText(v.s) ==> r.Float? && r.f >= 0.0
    ensures v.Str? && Numeric.IsDigitText(v.s) ==> r == Float(Numeric.DigitsValue(v.s) as real)
    ensures !(v.Str? && Numeric.IsNumericText(v.s)) ==> r == v
  {
    if v.Str? && Numeric.IsDigitText(v.s) then Numeric.ParseDecimalOfDigits(v.s); Float(Numeric.ParseDecimal(v.s))
    else if v.Str? && Numeric.IsNumericText(v.s) then Float(Numeric.ParseDecimal(v.s))
    else v
  }

  /** Text "<whole>.<fraction>" of digits is stored as the number it writes. */
  lemma ConvertDecimal(whole: string, fraction: string)
    requires Numeric.AllDigits(whole) && Numeric.AllDigits(fraction) && |whole| + |fraction| > 0
    ensures Convert(Str(whole + "." + fraction)) ==
              Float(Numeric.DigitsValue(whole) as real + Numeric.DigitsValue(fraction) as real / Numeric.Pow10(|fraction|) as real)
  {
    var s := whole + "." + fraction;
    Numeric.ParseDecimalValue(whole, fraction);
    assert s[|whole|] == '.';
    assert !Numeric.IsDigitText(s);
    assert Convert(Str(s)) == Float(Numeric.ParseDecimal(s));
  }

  /** `float(value)`: the number a JSON value denotes, `None` where float()
      raises (None, containers, text that is not a signed decimal). */
  function FloatOf(v: Json): (r: Option<real>)
    ensures v.Null? || v.Arr? || v.Obj? ==> r.None?
    ensures v.Bool? ==> r == Some(if v.b then 1.0 else 0.0)
    ensures v.Int? ==> r == Some(v.i as real)
    ensures v.Float? ==> r == Some(v.f)
    ensures v.Str? && Numeric.IsNumericText(v.s) ==> r == Some(Numeric.ParseDecimal(v.s))
    ensures v.Str? && |v.s| > 1 && v.s[0] == '-' && Numeric.IsNumericText(v.s[1..]) ==> r == Some(0.0 - Numeric.ParseDecimal(v.s[1..]))
    ensures v.Str? && |v.s| > 1 && v.s[0] == '+' && Numeric.IsNumericText(v.s[1..]) ==> r == Some(Numeric.ParseDecimal(v.s[1..]))
    ensures v.Str? ==> (r.Some? <==> Numeric.ParseFloat(v.s).Some?)
  {
    if v.Str? then Numeric.ParseFloat(v.s) else AsNumber(v)
  }

  /** The value the description gives the MOEX name `name`: the converted
      value of its first row, or None when no row carries it. */
  function DescribedValue(desc: seq<DescRow>, name: string): Json {
    if desc == [] then Null
    else if desc[0].name == name then Convert(desc[0].value)
    else DescribedValue(desc[1..], name)
  }

  /** DescribedValue is what the loop stores: the first matching row's
      value, converted, and None when no row matches. */
  lemma {:induction false} DescribedValueRule(desc: seq<DescRow>, name: string)
    ensures FirstRowValue(desc, name).Some? ==> DescribedValue(desc, name) == Convert(FirstRowValue(desc, name).value)
    ensures FirstRowValue(desc, name).None? ==> DescribedValue(desc, name) == Null
  {
    if desc != [] && desc[0].name != name {
      DescribedValueRule(desc[1..], name);
    }
  }

  /** The entry the description loop stores for `f`. */
  function Described(desc: seq<DescRow>, f: DetailField): Json {
    DescribedValue(desc, MoexName(f))
  }

  /** The coupon frequency a positive COUPONPERIOD (in days) gives: `round(365 / period)`. */
  function PeriodFrequency(desc: seq<DescRow>): Option<int> {
    var v := FirstRowValue(desc, "COUPONPERIOD");
    if v.None? then None
    else
      var days := FloatOf(v.value);
      if days.Some? && days.value > 0.0 then Some(Numeric.RoundHalfEven(365.0 / days.value)) else None
  }

  /** An entry once the description block has been read. */
  function AfterDescription(resp: BondResponse, f: DetailField): Json {
    if resp.description.None? || resp.description.value == [] then Null
    else if f == CouponFrequency && PeriodFrequency(resp.description.value).Some? then
      Int(PeriodFrequency(resp.description.value).value)
    else Described(resp.description.value, f)
  }

  /** One line of the securities block: an entry still None takes the
      block's value for `column` when the block has that column. */
  function FillValue(v: Json, sec: map<string, Json>, column: string): (r: Json)
    ensures v != Null ==> r == v
    ensures v == Null && column in sec ==> r == sec[column]
    ensures v == Null && column !in sec ==> r == Null
  {
    if v == Null && column in sec then sec[column] else v
  }

  /** An entry once the securities block has filled the gaps it can fill. */
  function AfterSecurities(resp: BondResponse, f: DetailField): Json {
    var d := AfterDescription(resp, f);
    if resp.securities.FirstRow? && SecuritiesName(f).Some? then FillValue(d, resp.securities.row, SecuritiesName(f).value)
    else d
  }

  /** An entry as returned, stated entry by entry: initialPrice falls back to
      maturityPrice. */
  function FinalDetail(resp: BondResponse, f: DetailField): Json {
    if f == InitialPrice && AfterSecurities(resp, InitialPrice) == Null
       && AfterSecurities(resp, MaturityPrice) != Null
    then AfterSecurities(resp, MaturityPrice)
    else AfterSecurities(resp, f)
  }

  /** The details dict as initialised: every entry None. */
  function Blank(): (d: map<DetailField, Json>)
    ensures forall f: DetailField :: f in d && d[f] == Null
  {
    map f | f in AllFields() :: Null
  }

  /** The dict after the description loop. */
  function DescribedMap(desc: seq<DescRow>): (d: map<DetailField, Json>)
    ensures forall f: DetailField :: f in d && d[f] == Described(desc, f)
  {
    map f | f in AllFields() :: Described(desc, f)
  }

  /** The COUPONPERIOD step: a positive period sets the coupon frequency. */
  function WithPeriod(d: map<DetailField, Json>, desc: seq<DescRow>): (r: map<DetailField, Json>)
    requires forall f: DetailField :: f in d
    ensures forall f: DetailField :: f in r
  {
    if PeriodFrequency(desc).Some? then d[CouponFrequency := Int(PeriodFrequency(desc).value)] else d
  }

  /** The five lines of the securities block, in the source's order. */
  function WithSecurities(d: map<DetailField, Json>, sec: map<string, Json>): (r: map<DetailField, Json>)
    requires forall f: DetailField :: f in d
    ensures forall f: DetailField :: f in r
  {
    d[MaturityPrice := FillValue(d[MaturityPrice], sec, "FACEVALUE")]
     [MaturityAt := FillValue(d[MaturityAt], sec, "MATDATE")]
     [CouponValue := FillValue(d[CouponValue], sec, "COUPONVALUE")]
     [CouponPercent := FillValue(d[CouponPercent], sec, "COUPONPERCENT")]
     [NextCoupon := FillValue(d[NextCoupon], sec, "NEXTCOUPON")]
  }

  /** The fallback step: initialPrice takes maturityPrice when it is None. */
  function WithFallback(d: map<DetailField, Json>): (r: map<DetailField, Json>)
    requires forall f: DetailField :: f in d
    ensures forall f: DetailField :: f in r
  {
    if d[InitialPrice] == Null && d[MaturityPrice] != Null then d[InitialPrice := d[MaturityPrice]] else d
  }

  /** The dict once the description block has been read. */
  function Read(resp: BondResponse): (d: map<DetailField, Json>)
    ensures forall f: DetailField :: f in d
  {
    if resp.description.Some? && resp.description.value != []
    then WithPeriod(DescribedMap(resp.description.value), resp.description.value)
    else Blank()
  }

  /** The dict once the securities block has filled what it can. */
  function Filled(resp: BondResponse): (d: map<DetailField, Json>)
    ensures forall f: DetailField :: f in d
  {
    if resp.securities.FirstRow? then WithSecurities(Read(resp), resp.securities.row) else Read(resp)
  }

  /** `get_bond_details(secid)` given the securities.json answer, `None` when
      the request raised (the error is caught and all entries stay None); a
      malformed securities block raises after the description was read, and
      the caught error returns the dict as it stands then. */
  function BondDetails(response: Option<BondResponse>): (d: map<DetailField, Json>)
    ensures forall f: DetailField :: f in d
    ensures response.None? ==> forall f: DetailField :: d[f] == Null
  {
    if response.None? then Blank()
    else if response.value.securities.Malformed? then Read(response.value)
    else WithFallback(Filled(response.value))
  }

  /** The securities block fills exactly the five entries SecuritiesName
      lists, each from its own column and only while it is None. */
  lemma SecuritiesFillRule(d: map<DetailField, Json>, sec: map<string, Json>, f: DetailField)
    requires forall g: DetailField :: g in d
    ensures SecuritiesName(f).None? ==> WithSecurities(d, sec)[f] == d[f]
    ensures SecuritiesName(f).Some? ==> WithSecurities(d, sec)[f] == FillValue(d[f], sec, SecuritiesName(f).value)
  {
    match f
    case MaturityPrice =>
    case MaturityAt =>
    case CouponValue =>
    case CouponPercent =>
    case NextCoupon =>
    case _ =>
  }

  /** After the description block each entry is as AfterDescription says. */
  lemma ReadEntry(resp: BondResponse, f: DetailField)
    ensures Read(resp)[f] == AfterDescription(resp, f)
  {
  }

  /** After the securities block each entry is as AfterSecurities says. */
  lemma FilledEntry(resp: BondResponse, f: DetailField)
    ensures Filled(resp)[f] == AfterSecurities(resp, f)
  {
    ReadEntry(resp, f);
    if resp.securities.FirstRow? {
      SecuritiesFillRule(Read(resp), resp.securities.row, f);
    }
  }

  /** The dict the staged steps build holds, entry by entry, the value
      FinalDetail describes, or the described value when the securities
      block is malformed. */
  lemma BondDetailsEntry(response: Option<BondResponse>, f: DetailField)
    ensures BondDetails(response)[f] ==
              if response.None? then Null
              else if response.value.securities.Malformed? then AfterDescription(response.value, f)
              else FinalDetail(response.value, f)
  {
    if response.Some? {
      FilledEntry(response.value, f);
      FilledEntry(response.value, InitialPrice);
      FilledEntry(response.value, MaturityPrice);
    }
  }

  /** The securities block only fills entries that are still None: an entry
      the description set is returned as the description set it. */
  lemma FillOnlyIfNone(resp: BondResponse, f: DetailField)
    requires f != InitialPrice && AfterDescription(resp, f) != Null
    ensures BondDetails(Some(resp))[f] == AfterDescription(resp, f)
  {
    BondDetailsEntry(Some(resp), f);
  }

  /** An entry still None after the description is taken from the securities
      block when that block has the column. */
  lemma FillFromSecurities(resp: BondResponse, f: DetailField)
    requires SecuritiesName(f).Some? && AfterDescription(resp, f) == Null
    requires resp.securities.FirstRow? && SecuritiesName(f).value in resp.securities.row
    ensures BondDetails(Some(resp))[f] == resp.securities.row[SecuritiesName(f).value]
  {
    BondDetailsEntry(Some(resp), f);
  }

  /** A positive COUPONPERIOD overrides the COUPONFREQUENCY row with
      round(365 / period); otherwise the row's value (or None) stays. */
  lemma CouponFrequencyRule(resp: BondResponse)
    requires resp.description.Some? && resp.description.value != []
    ensures var desc := resp.description.value;
            && (PeriodFrequency(desc).Some? ==> BondDetails(Some(resp))[CouponFrequency] == Int(PeriodFrequency(desc).value))
            && (PeriodFrequency(desc).None? ==> BondDetails(Some(resp))[CouponFrequency] == Described(desc, CouponFrequency))
  {
    BondDetailsEntry(Some(resp), CouponFrequency);
  }

  /** initialPrice takes maturityPrice's value exactly when it is still None
      and maturityPrice is set; otherwise it keeps its own. A malformed
      securities block raises before the fallback, so it never happens then. */
  lemma InitialPriceFallback(resp: BondResponse)
    ensures var d := BondDetails(Some(resp));
            var own := AfterSecurities(resp, InitialPrice);
            && (own == Null && d[MaturityPrice] != Null && !resp.securities.Malformed? ==> d[InitialPrice] == d[MaturityPrice])
            && (own != Null || resp.securities.Malformed? ==> d[InitialPrice] == own)
            && (own == Null && d[MaturityPrice] == Null ==> d[InitialPrice] == Null)
  {
    BondDetailsEntry(Some(resp), InitialPrice);
    BondDetailsEntry(Some(resp), MaturityPrice);
  }

  /** A malformed securities block keeps what the description gave: no
      entry is filled from the block and initialPrice gets no fallback. */
  lemma MalformedSecuritiesKeepsDescription(resp: BondResponse, f: DetailField)
    requires resp.securities.Malformed?
    ensures BondDetails(Some(resp))[f] == AfterDescription(resp, f)
    ensures BondDetails(Some(resp))[InitialPrice] == Null <==> AfterDescription(resp, InitialPrice) == Null
  {
    BondDetailsEntry(Some(resp), f);
    BondDetailsEntry(Some(resp), InitialPrice);
  }

  /** A failed request leaves every entry None. */
  lemma FailedRequestAllNone(f: DetailField)
    ensures BondDetails(None)[f] == Null
  {
  }

  /** Two details dicts holding every entry, entry for entry the same, are equal. */
  lemma SameDetails(a: map<DetailField, Json>, b: map<DetailField, Json>)
    requires forall f: DetailField :: f in a && f in b && a[f] == b[f]
    ensures a == b
  {
    assert a.Keys == b.Keys;
  }

  /** The description loop of `get_bond_details` on a dict whose entries are all None. */
  method ReadDescription(desc: seq<DescRow>) returns (details: map<DetailField, Json>)
    ensures details == DescribedMap(desc)
  {
    details := Blank();
    var i := 0;
    while i < FIELD_COUNT
      invariant 0 <= i <= FIELD_COUNT
      invariant forall f: DetailField :: f in details
      invariant forall k :: 0 <= k < FIELD_COUNT ==> details[FieldAt(k)] == if k < i then Described(desc, FieldAt(k)) else Null
    {
      var f := FieldAt(i);
      FieldAtInjective();
      var row := FirstRowValue(desc, MoexName(f));
      DescribedValueRule(desc, MoexName(f));
      if row.Some? {
        details := details[f := Convert(row.value)];
      }
      i := i + 1;
    }
    forall f: DetailField ensures details[f] == Described(desc, f) {
      assert FieldAt(Position(f)) == f;
    }
    SameDetails(details, DescribedMap(desc));
  }

  /** The COUPONPERIOD step of `get_bond_details`. */
  method ApplyCouponPeriod(details: map<DetailField, Json>, desc: seq<DescRow>) returns (r: map<DetailField, Json>)
    requires forall f: DetailField :: f in details
    ensures r == WithPeriod(details, desc)
  {
    r := details;
    var period := FirstRowValue(desc, "COUPONPERIOD");
    if period.Some? {
      var days := FloatOf(period.value);
      if days.Some? && days.value > 0.0 {
        r := r[CouponFrequency := Int(Numeric.RoundHalfEven(365.0 / days.value))];
      }
    }
  }

  /** `get_bond_details(secid)`: the details dict filled in place, block by
      block, as the source does. */
  method GetBondDetails(response: Option<BondResponse>) returns (details: map<DetailField, Json>)
    ensures details == BondDetails(response)
  {
    details := Blank();
    if response.None? {
      return;
    }
    var resp := response.value;
    if resp.description.Some? && resp.description.value != [] {
      var desc := resp.description.value;
      details := ReadDescription(desc);
      details := ApplyCouponPeriod(details, desc);
    }
    assert details == Read(resp);
    if resp.securities.Malformed? {
      return;
    }
    if resp.securities.FirstRow? {
      var sec := resp.securities.row;
      details := details[MaturityPrice := FillValue(details[MaturityPrice], sec, "FACEVALUE")];
      details := details[MaturityAt := FillValue(details[MaturityAt], sec, "MATDATE")];
      details := details[CouponValue := FillValue(details[CouponValue], sec, "COUPONVALUE")];
      details := details[CouponPercent := FillValue(details[CouponPercent], sec, "COUPONPERCENT")];
      details := details[NextCoupon := FillValue(details[NextCoupon], sec, "NEXTCOUPON")];
    }
    assert details == Filled(resp);
    if details[InitialPrice] == Null && details[MaturityPrice] != Null {
      details := details[InitialPrice := details[MaturityPrice]];
    }
  }

  // ---------------------------------------------------------------------
  // get_price_detailed and get_price

  /** What `get_price_detailed` returns: absolute price, price as a
      percentage of nominal, the field (or "candle") it came from, nominal. */
  datatype PriceDetail = PriceDetail(price: Option<real>, percentage: Option<real>, source: Option<string>, nominal: real)

  /** The nominal used: initialPrice, or 100 when it is None or not positive;
      comparing a non-number with 0 raises TypeError. */
  function Nominal(initialPrice: Json): (r: Result<real, PriceError>)
    ensures initialPrice == Null ==> r == Ok(100.0)
    ensures AsNumber(initialPrice).Some? && AsNumber(initialPrice).value <= 0.0 ==> r == Ok(100.0)
    ensures AsNumber(initialPrice).Some? && AsNumber(initialPrice).value > 0.0 ==> r == Ok(AsNumber(initialPrice).value)
    ensures r.Ok? ==> r.value > 0.0
    ensures initialPrice != Null && AsNumber(initialPrice).None? ==> r == Err(TypeError)
  {
    if initialPrice == Null then Ok(100.0)
    else match AsNumber(initialPrice)
      case None => Err(TypeError)
      case Some(n) => if n <= 0.0 then Ok(100.0) else Ok(n)
  }

  /** The absolute price of a price quoted in percent of the nominal. */
  function Absolute(percentage: real, nominal: real): (r: real)
    ensures nominal == 100.0 ==> r == percentage
  {
    percentage * nominal / 100.0
  }

  /** `float(value)` raising on what it cannot convert. */
  function ToFloat(v: Json): (r: Result<real, PriceError>)
    ensures r.Ok? <==> FloatOf(v).Some?
    ensures r.Ok? ==> r.value == FloatOf(v).value
    ensures v.Int? ==> r == Ok(v.i as real)
    ensures v.Float? ==> r == Ok(v.f)
    ensures v.Bool? ==> r == Ok(if v.b then 1.0 else 0.0)
    ensures v.Str? && Numeric.IsNumericText(v.s) ==> r == Ok(Numeric.ParseDecimal(v.s))
    ensures v.Str? && Numeric.ParseFloat(v.s).None? ==> r == Err(ValueError)
    ensures v.Null? || v.Arr? || v.Obj? ==> r == Err(TypeError)
  {
    match FloatOf(v)
    case Some(x) => Ok(x)
    case None => if v.Str? then Err(ValueError) else Err(TypeError)
  }

  /** `get_price_detailed(secid)` given the dict `get_bond_details(secid)`
      returned (BondDetails of the securities.json answer): market price
      first, then the close of the last daily candle of the past week. Errors
      of the market-data and candle fetches are not caught. */
  function PriceDetailed(details: map<DetailField, Json>, market: Result<MarketData, string>,
                         candles: Result<seq<Json>, string>): (r: Result<PriceDetail, PriceError>)
    requires InitialPrice in details
    ensures r.Ok? ==> r.value.nominal > 0.0
    ensures r.Ok? ==> (r.value.price.Some? <==> r.value.source.Some?) && (r.value.price.Some? <==> r.value.percentage.Some?)
    ensures Nominal(details[InitialPrice]).Ok? && market.Err? ==> r == Err(FetchFailed(market.error))
  {
    var nominal :- Nominal(details[InitialPrice]);
    if market.Err? then Err(FetchFailed(market.error))
    else
      var pick :- MarketPrices(market.value);
      if pick.Some? then
        var pct :- ToFloat(pick.value.0);
        Ok(PriceDetail(Some(Absolute(pct, nominal)), Some(pct), Some(pick.value.1), nominal))
      else if candles.Err? then Err(FetchFailed(candles.error))
      else if candles.value == [] then Ok(PriceDetail(None, None, None, nominal))
      else
        var pct :- ToFloat(candles.value[|candles.value| - 1]);
        Ok(PriceDetail(Some(Absolute(pct, nominal)), Some(pct), Some("candle"), nominal))
  }

  /** A market price, when there is one, decides the result whatever the
      candles hold: its field is the source and the absolute price is the
      percentage of the nominal. */
  lemma MarketPrecedence(details: map<DetailField, Json>, m: MarketData, c1: Result<seq<Json>, string>,
                         c2: Result<seq<Json>, string>)
    requires InitialPrice in details
    requires MarketPrices(m).Ok? && MarketPrices(m).value.Some?
    ensures PriceDetailed(details, Ok(m), c1) == PriceDetailed(details, Ok(m), c2)
    ensures var r := PriceDetailed(details, Ok(m), c1);
            r.Ok? ==> && r.value.source == Some(MarketPrices(m).value.value.1)
                      && r.value.percentage == FloatOf(MarketPrices(m).value.value.0)
                      && r.value.price == Some(Absolute(r.value.percentage.value, r.value.nominal))
  {
  }

  /** With no market price, the last candle's close is used and the source
      is "candle"; with no candle either, there is no price at all. */
  lemma CandleFallback(details: map<DetailField, Json>, m: MarketData, closes: seq<Json>)
    requires InitialPrice in details
    requires MarketPrices(m) == Ok(None)
    ensures var r := PriceDetailed(details, Ok(m), Ok(closes));
            && (r.Ok? && closes != [] ==> r.value.source == Some("candle")
                                           && r.value.percentage == FloatOf(closes[|closes| - 1])
                                           && r.value.price == Some(Absolute(r.value.percentage.value, r.value.nominal)))
            && (r.Ok? && closes == [] ==> r.value.price.None? && r.value.source.None?)
  {
  }

  /** The nominal reported is initialPrice when that is a positive number and
      100 when it is None or not positive. */
  lemma NominalDefault(details: map<DetailField, Json>, market: Result<MarketData, string>,
                       candles: Result<seq<Json>, string>)
    requires InitialPrice in details
    requires PriceDetailed(details, market, candles).Ok?
    ensures var init := details[InitialPrice];
            var n := PriceDetailed(details, market, candles).value.nominal;
            && (AsNumber(init).Some? && AsNumber(init).value > 0.0 ==> n == AsNumber(init).value)
            && (!(AsNumber(init).Some? && AsNumber(init).value > 0.0) ==> n == 100.0)
  {
  }

  /** `get_price(secid)`: the absolute price and whether it is current market
      data (False when there is no price, and for a candle price). */
  function GetPrice(details: map<DetailField, Json>, market: Result<MarketData, string>,
                    candles: Result<seq<Json>, string>): (r: Result<(Option<real>, bool), PriceError>)
    requires InitialPrice in details
    ensures r.Ok? <==> PriceDetailed(details, market, candles).Ok?
    ensures r.Ok? ==> r.value.0 == PriceDetailed(details, market, candles).value.price
    ensures r.Ok? && r.value.1 ==> r.value.0.Some? && PriceDetailed(details, market, candles).value.source != Some("candle")
  {
    var d :- PriceDetailed(details, market, candles);
    Ok((d.price, if d.price.Some? then d.source != Some("candle") else false))
  }

  /** The flag is set exactly when a price came from a market-data field. */
  lemma GetPriceFlag(details: map<DetailField, Json>, market: Result<MarketData, string>,
                     candles: Result<seq<Json>, string>)
    requires InitialPrice in details
    requires GetPrice(details, market, candles).Ok?
    ensures var (price, isCurrent) := GetPrice(details, market, candles).value;
            && (price.None? ==> !isCurrent)
            && (isCurrent <==> price.Some? && market.Ok? && MarketPrices(market.value).Ok?
                               && MarketPrices(market.value).value.Some?)
  {
    if market.Ok? && MarketPrices(market.value).Ok? && MarketPrices(market.value).value.Some? {
      MarketPricesPriority(market.value);
      var field := MarketPrices(market.value).value.value.1;
      assert field in PRICE_FIELDS;
    }
  }
}
