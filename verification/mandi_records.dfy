/** Market price records of the mandi (wholesale market) database and the
    cleaning step that turns one raw record of the government price API into a
    storable row. Date and number parsing (`strptime`, `float`) are parameters:
    their internals are not part of this model. */
module MandiRecords {
  import opened Common
  import opened Text

  /** An arrival date, as an abstract ordered day number. */
  type Day = int

  /** One field of a raw API record, as decoded JSON delivers it. */
  datatype RawValue = Absent | Null | Str(s: string) | Num(x: real)

  datatype RawRecord = RawRecord(
    state: RawValue,
    district: RawValue,
    market: RawValue,
    commodity: RawValue,
    variety: RawValue,
    grade: RawValue,
    arrivalDate: RawValue,
    minPrice: RawValue,
    maxPrice: RawValue,
    modalPrice: RawValue)

  /** The five accepted date layouts, in the order they are tried:
      dd-mm-YYYY, dd/mm/YYYY, YYYY-mm-dd, dd-mm-yy, dd/mm/yy. */
  datatype DateFormat =
    | DayMonthYearDash
    | DayMonthYearSlash
    | YearMonthDayDash
    | DayMonthShortYearDash
    | DayMonthShortYearSlash

  const DateFormats: seq<DateFormat> := [
    DayMonthYearDash, DayMonthYearSlash, YearMonthDayDash,
    DayMonthShortYearDash, DayMonthShortYearSlash
  ]

  /** `datetime.strptime(text, format)`: the day, or None where it raises ValueError. */
  type DateParser = (string, DateFormat) -> Option<Day>

  /** `float(text)`: the value, or None where it raises ValueError. */
  type FloatParser = string -> Option<real>

  datatype Trend = Up | Down | Stable

  /** A cleaned record, as `_clean_record` returns it. */
  datatype Cleaned = Cleaned(
    state: string,
    district: string,
    market: string,
    commodity: string,
    variety: Option<string>,
    grade: Option<string>,
    arrivalDate: Day,
    minPrice: real,
    maxPrice: real,
    modalPrice: real,
    isActive: bool)

  /** A stored row of the `market_prices` table (timestamps and the
      auto-increment id are not modelled). */
  datatype MarketPrice = MarketPrice(
    state: string,
    district: string,
    market: string,
    commodity: string,
    variety: Option<string>,
    grade: Option<string>,
    arrivalDate: Day,
    minPrice: real,
    maxPrice: real,
    modalPrice: real,
    priceChange: real,
    percentageChange: real,
    trend: Trend,
    isActive: bool)

  /** The identity of a row: the five columns the upsert matches on. */
  datatype RecordKey = RecordKey(state: string, district: string, market: string, commodity: string, arrivalDate: Day)

  function KeyOf(c: Cleaned): RecordKey {
    RecordKey(c.state, c.district, c.market, c.commodity, c.arrivalDate)
  }

  function RowKey(p: MarketPrice): RecordKey {
    RecordKey(p.state, p.district, p.market, p.commodity, p.arrivalDate)
  }

  /** A new row built from a cleaned record; the trend columns take their defaults. */
  function NewRow(c: Cleaned): (p: MarketPrice)
    ensures RowKey(p) == KeyOf(c)
    ensures p.priceChange == 0.0 && p.percentageChange == 0.0 && p.trend == Stable
  {
    MarketPrice(c.state, c.district, c.market, c.commodity, c.variety, c.grade, c.arrivalDate,
                c.minPrice, c.maxPrice, c.modalPrice, 0.0, 0.0, Stable, c.isActive)
  }

  /** An existing row overwritten with every column of a cleaned record; the
      computed trend columns are not among them and are kept. */
  function UpdateRow(p: MarketPrice, c: Cleaned): (q: MarketPrice)
    ensures RowKey(q) == KeyOf(c)
    ensures q.priceChange == p.priceChange && q.percentageChange == p.percentageChange && q.trend == p.trend
    ensures q.modalPrice == c.modalPrice && q.minPrice == c.minPrice && q.maxPrice == c.maxPrice
  {
    p.(state := c.state, district := c.district, market := c.market, commodity := c.commodity,
       variety := c.variety, grade := c.grade, arrivalDate := c.arrivalDate,
       minPrice := c.minPrice, maxPrice := c.maxPrice, modalPrice := c.modalPrice,
       isActive := c.isActive)
  }

  // ---------------------------------------------------------------------------
  // parsing helpers

  /** Try the formats in order; the first that parses wins. */
  function FirstParse(text: string, formats: seq<DateFormat>, parse: DateParser): (r: Option<Day>)
    ensures r.None? <==> forall i :: 0 <= i < |formats| ==> parse(text, formats[i]).None?
    ensures r.Some? ==> exists i :: 0 <= i < |formats| && parse(text, formats[i]) == r
                          && forall j :: 0 <= j < i ==> parse(text, formats[j]).None?
    decreases |formats|
  {
    if |formats| == 0 then None
    else if parse(text, formats[0]).Some? then parse(text, formats[0])
    else
      var r := FirstParse(text, formats[1..], parse);
      assert forall i :: 1 <= i < |formats| ==> formats[1..][i - 1] == formats[i];
      r
  }

  /** The arrival date: a missing field reads as "", and a null or a number makes
      `strptime` raise TypeError, which rejects the record. */
  function ParseArrivalDate(v: RawValue, parse: DateParser): Option<Day> {
    match v
    case Absent => FirstParse("", DateFormats, parse)
    case Str(s) => FirstParse(s, DateFormats, parse)
    case _ => None
  }

  /** `_safe_float`: missing, null, empty and unparseable values read as 0. */
  function SafeFloat(v: RawValue, parse: FloatParser): real {
    match v
    case Absent => 0.0
    case Null => 0.0
    case Str(s) => if s == "" then 0.0 else parse(s).GetOr(0.0)
    case Num(x) => x
  }

  /** `_safe_float` yields 0 exactly when the value is missing, null, empty,
      unparseable, or parses to 0; otherwise it is the parsed value. */
  lemma SafeFloatZero(v: RawValue, parse: FloatParser)
    ensures SafeFloat(v, parse) == 0.0 <==>
              || v.Absent? || v.Null? || v == Str("")
              || (v.Str? && (parse(v.s).None? || parse(v.s) == Some(0.0)))
              || v == Num(0.0)
    ensures v.Str? && v.s != "" && parse(v.s).Some? ==> SafeFloat(v, parse) == parse(v.s).value
  {
  }

  /** A required text field: present, a string, and not blank; the value is stripped. */
  function RequiredText(v: RawValue): Option<string> {
    if v.Str? && Strip(v.s) != "" then Some(Strip(v.s)) else None
  }

  /** An optional text field (`variety`, `grade`): missing or blank becomes None.
      The outer None is a rejected record: a null or a number has no `strip`. */
  function OptionalText(v: RawValue): Option<Option<string>> {
    match v
    case Absent => Some(None)
    case Str(s) => if Strip(s) == "" then Some(None) else Some(Some(Strip(s)))
    case _ => None
  }

  /** `_clean_record`. */
  function Clean(raw: RawRecord, parseDate: DateParser, parseFloat: FloatParser): (r: Option<Cleaned>)
    ensures r.Some? ==> r.value.minPrice <= r.value.modalPrice <= r.value.maxPrice
    ensures r.Some? ==> r.value.modalPrice > 0.0 && r.value.isActive
    ensures r.Some? ==> ParseArrivalDate(raw.arrivalDate, parseDate) == Some(r.value.arrivalDate)
    ensures r.Some? ==> r.value.modalPrice == SafeFloat(raw.modalPrice, parseFloat)
  {
    var date := ParseArrivalDate(raw.arrivalDate, parseDate);
    var minP := SafeFloat(raw.minPrice, parseFloat);
    var maxP := SafeFloat(raw.maxPrice, parseFloat);
    var modal := SafeFloat(raw.modalPrice, parseFloat);
    var state := RequiredText(raw.state);
    var district := RequiredText(raw.district);
    var market := RequiredText(raw.market);
    var commodity := RequiredText(raw.commodity);
    var variety := OptionalText(raw.variety);
    var grade := OptionalText(raw.grade);
    if date.None? then None
    else if state.None? || district.None? || market.None? || commodity.None? then None
    else if modal <= 0.0 then None
    else if variety.None? || grade.None? then None
    else
      var lo := if minP > modal then modal else minP;
      var hi := if maxP < modal then modal else maxP;
      Some(Cleaned(state.value, district.value, market.value, commodity.value,
                   variety.value, grade.value, date.value, lo, hi, modal, true))
  }

  /** A raw text field is usable as a required column. */
  predicate NonBlank(v: RawValue) {
    v.Str? && !AllSpace(v.s)
  }

  /** The cases `_clean_record` rejects, stated on the raw record: a record is
      accepted exactly when its date parses in one of the five formats, the four
      location/commodity fields are non-blank strings, the modal price is
      positive, and variety/grade are missing or strings. */
  lemma CleanAcceptsExactly(raw: RawRecord, parseDate: DateParser, parseFloat: FloatParser)
    ensures Clean(raw, parseDate, parseFloat).Some? <==>
              && DateParses(raw.arrivalDate, parseDate)
              && NonBlank(raw.state) && NonBlank(raw.district)
              && NonBlank(raw.market) && NonBlank(raw.commodity)
              && SafeFloat(raw.modalPrice, parseFloat) > 0.0
              && (raw.variety.Absent? || raw.variety.Str?)
              && (raw.grade.Absent? || raw.grade.Str?)
  {
    RequiredTextSpec(raw.state);
    RequiredTextSpec(raw.district);
    RequiredTextSpec(raw.market);
    RequiredTextSpec(raw.commodity);
    ParseArrivalDateSpec(raw.arrivalDate, parseDate);
    OptionalTextSpec(raw.variety);
    OptionalTextSpec(raw.grade);
  }

  /** The date field is a string (or missing, read as "") that one of the five
      formats parses. */
  predicate DateParses(v: RawValue, parse: DateParser) {
    && (v.Str? || v.Absent?)
    && exists i :: 0 <= i < |DateFormats| && parse(if v.Str? then v.s else "", DateFormats[i]).Some?
  }

  lemma ParseArrivalDateSpec(v: RawValue, parse: DateParser)
    ensures ParseArrivalDate(v, parse).Some? <==> DateParses(v, parse)
  {
  }

  lemma RequiredTextSpec(v: RawValue)
    ensures RequiredText(v).Some? <==> NonBlank(v)
    ensures RequiredText(v).Some? ==> RequiredText(v).value == Strip(v.s)
  {
    if v.Str? { StripEmptyIffAllSpace(v.s); }
  }

  lemma OptionalTextSpec(v: RawValue)
    ensures OptionalText(v).Some? <==> v.Absent? || v.Str?
    ensures OptionalText(v).Some? ==>
              (OptionalText(v).value.None? <==> v.Absent? || AllSpace(v.s))
    ensures OptionalText(v).Some? && OptionalText(v).value.Some? ==>
              OptionalText(v).value.value == Strip(v.s)
  {
    if v.Str? { StripEmptyIffAllSpace(v.s); }
  }

  /** On success the text columns are the stripped inputs, blank optional
      fields become None, and the min/max prices are the raw ones clamped
      around the modal price (kept unchanged when already on the right side). */
  lemma CleanFields(raw: RawRecord, parseDate: DateParser, parseFloat: FloatParser, c: Cleaned)
    requires Clean(raw, parseDate, parseFloat) == Some(c)
    ensures c.state == Strip(raw.state.s) && c.district == Strip(raw.district.s)
    ensures c.market == Strip(raw.market.s) && c.commodity == Strip(raw.commodity.s)
    ensures c.state != "" && c.district != "" && c.market != "" && c.commodity != ""
    ensures c.variety.None? <==> raw.variety.Absent? || AllSpace(raw.variety.s)
    ensures c.variety.Some? ==> c.variety.value == Strip(raw.variety.s)
    ensures c.grade.None? <==> raw.grade.Absent? || AllSpace(raw.grade.s)
    ensures c.grade.Some? ==> c.grade.value == Strip(raw.grade.s)
    ensures SafeFloat(raw.minPrice, parseFloat) <= c.modalPrice ==> c.minPrice == SafeFloat(raw.minPrice, parseFloat)
    ensures SafeFloat(raw.maxPrice, parseFloat) >= c.modalPrice ==> c.maxPrice == SafeFloat(raw.maxPrice, parseFloat)
  {
    CleanParts(raw, parseDate, parseFloat, c);
    RequiredTextSpec(raw.state);
    RequiredTextSpec(raw.district);
    RequiredTextSpec(raw.market);
    RequiredTextSpec(raw.commodity);
    OptionalTextSpec(raw.variety);
    OptionalTextSpec(raw.grade);
  }

  /** Where each column of an accepted record comes from. */
  lemma CleanParts(raw: RawRecord, parseDate: DateParser, parseFloat: FloatParser, c: Cleaned)
    requires Clean(raw, parseDate, parseFloat) == Some(c)
    ensures RequiredText(raw.state) == Some(c.state) && RequiredText(raw.district) == Some(c.district)
    ensures RequiredText(raw.market) == Some(c.market) && RequiredText(raw.commodity) == Some(c.commodity)
    ensures OptionalText(raw.variety) == Some(c.variety) && OptionalText(raw.grade) == Some(c.grade)
    ensures var minP, modal := SafeFloat(raw.minPrice, parseFloat), SafeFloat(raw.modalPrice, parseFloat);
            c.minPrice == if minP > modal then modal else minP
    ensures var maxP, modal := SafeFloat(raw.maxPrice, parseFloat), SafeFloat(raw.modalPrice, parseFloat);
            c.maxPrice == if maxP < modal then modal else maxP
  {
  }

  /** The date formats are tried in order: when an earlier format parses the
      text, a later one is never consulted. */
  lemma DateFormatOrder(text: string, parse: DateParser, i: int)
    requires 0 <= i < |DateFormats|
    requires parse(text, DateFormats[i]).Some?
    requires forall j :: 0 <= j < i ==> parse(text, DateFormats[j]).None?
    ensures FirstParse(text, DateFormats, parse) == parse(text, DateFormats[i])
  {
    var r := FirstParse(text, DateFormats, parse);
    var k :| 0 <= k < |DateFormats| && parse(text, DateFormats[k]) == r
             && forall j :: 0 <= j < k ==> parse(text, DateFormats[j]).None?;
    assert k == i;
  }
}
