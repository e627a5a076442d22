/** The weather service's pure logic: the request size of a forecast, the
    folding of 3-hourly forecast items into one record per calendar date, the
    prefix of `days` records returned, and the rule-based advice for current
    weather and for a forecast. The HTTP request is replaced by its outcome:
    no response at all, or the decoded body. */
module Weather {
  import opened Common
  import opened Text

  /** The number of 3-hourly intervals requested: eight per day, at most the
      forty the API serves. */
  function RequestCount(days: int): (cnt: int)
    ensures cnt <= 40
    ensures days <= 5 ==> cnt == 8 * days
    ensures days >= 5 ==> cnt == 40
  {
    if days * 8 <= 40 then days * 8 else 40
  }

  // ---------------------------------------------------------------------------
  // forecast items and their dates

  /** One 3-hourly item of the forecast list. `pop` is the probability of
      precipitation, absent in some items. */
  datatype Item = Item(
    dtText: string,
    tempMax: real,
    tempMin: real,
    humidity: real,
    condition: string,
    pop: Option<real>,
    windSpeed: real)

  /** `item.get("pop", 0) * 100`. */
  function RainChance(it: Item): real {
    it.pop.GetOr(0.0) * 100.0
  }

  /** Where the first run of non-space characters of a string with no leading
      space ends. */
  function TokenEnd(t: string): (k: nat)
    ensures k <= |t|
    ensures forall i :: 0 <= i < k ==> !IsSpace(t[i])
    ensures k == |t| || IsSpace(t[k])
    decreases |t|
  {
    if |t| == 0 || IsSpace(t[0]) then 0 else 1 + TokenEnd(t[1..])
  }

  /** `s.split()[0]`: the first whitespace-separated word, or None where the
      string is all whitespace (the IndexError). */
  function FirstWord(s: string): (r: Option<string>)
    ensures r.None? <==> AllSpace(s)
    ensures r.Some? ==> |r.value| > 0 && forall i :: 0 <= i < |r.value| ==> !IsSpace(r.value[i])
  {
    var t := TrimLeft(s);
    if |t| == 0 then
      assert s[..|s| - |t|] == s;
      None
    else
      assert s[|s| - |t|] == t[0];
      Some(t[..TokenEnd(t)])
  }

  /** Every item carries a date. */
  predicate AllDated(items: seq<Item>) {
    forall i :: 0 <= i < |items| ==> FirstWord(items[i].dtText).Some?
  }

  /** The date of every item, or None when some item has none. */
  function DateKeys(items: seq<Item>): (r: Option<seq<string>>)
    ensures r.Some? <==> AllDated(items)
    ensures r.Some? ==> |r.value| == |items|
    ensures r.Some? ==> forall i :: 0 <= i < |items| ==> Some(r.value[i]) == FirstWord(items[i].dtText)
  {
    if AllDated(items) then Some(seq(|items|, i requires 0 <= i < |items| && AllDated(items) => FirstWord(items[i].dtText).value))
    else None
  }

  // ---------------------------------------------------------------------------
  // one record per date

  /** The daily record of `_format_forecast`. */
  datatype DayForecast = DayForecast(
    date: string,
    tempMax: real,
    tempMin: real,
    humidity: real,
    condition: string,
    rainChance: real,
    windSpeed: real)

  /** A new day opened by its first item. */
  function OpenDay(date: string, it: Item): DayForecast {
    DayForecast(date, it.tempMax, it.tempMin, it.humidity, it.condition, RainChance(it), it.windSpeed)
  }

  /** A later item of the same day widens the extremes and the rain chance;
      the other fields stay those of the first item. */
  function MergeItem(d: DayForecast, it: Item): DayForecast {
    d.(tempMax := Max(d.tempMax, it.tempMax), tempMin := Min(d.tempMin, it.tempMin),
       rainChance := Max(d.rainChance, RainChance(it)))
  }

  /** The loop of `_format_forecast`, item by item: an item with the same date
      as the one before it joins the open day, any other item opens a new one. */
  function Group(items: seq<Item>, dates: seq<string>): (days: seq<DayForecast>)
    requires |dates| == |items|
    ensures |days| <= |items|
    ensures |items| > 0 ==> |days| > 0 && days[|days| - 1].date == dates[|dates| - 1]
    decreases |items|
  {
    if |items| == 0 then []
    else
      var n := |items| - 1;
      var days := Group(items[..n], dates[..n]);
      if n > 0 && dates[n] == dates[n - 1] then days[..|days| - 1] + [MergeItem(days[|days| - 1], items[n])]
      else days + [OpenDay(dates[n], items[n])]
  }

  /** Which run of equal consecutive dates item i belongs to, counting from 0. */
  function RunIndex(dates: seq<string>, i: nat): nat
    requires i < |dates|
  {
    if i == 0 then 0 else RunIndex(dates, i - 1) + (if dates[i] != dates[i - 1] then 1 else 0)
  }

  /** Item i opens a run: it is the first, or its date differs from the one before. */
  predicate OpensRun(dates: seq<string>, i: nat)
    requires i < |dates|
  {
    i == 0 || dates[i] != dates[i - 1]
  }

  lemma {:induction false} RunIndexPrefix(dates: seq<string>, m: nat, i: nat)
    requires i < m <= |dates|
    ensures RunIndex(dates[..m], i) == RunIndex(dates, i)
    decreases i
  {
    if i > 0 {
      RunIndexPrefix(dates, m, i - 1);
    }
  }

  /** There is one record per run of equal consecutive dates. */
  lemma {:induction false} GroupCount(items: seq<Item>, dates: seq<string>)
    requires |dates| == |items| > 0
    ensures |Group(items, dates)| == RunIndex(dates, |items| - 1) + 1
    decreases |items|
  {
    var n := |items| - 1;
    if n > 0 {
      GroupCount(items[..n], dates[..n]);
      RunIndexPrefix(dates, n, n - 1);
    }
  }

  /** Consecutive records have different dates. */
  predicate DatesChange(days: seq<DayForecast>) {
    forall k :: 0 < k < |days| ==> days[k - 1].date != days[k].date
  }

  /** No two consecutive records share a date. */
  lemma {:induction false} GroupDatesChange(items: seq<Item>, dates: seq<string>)
    requires |dates| == |items|
    ensures DatesChange(Group(items, dates))
    decreases |items|
  {
    if |items| > 1 {
      var n := |items| - 1;
      GroupDatesChange(items[..n], dates[..n]);
      var before := Group(items[..n], dates[..n]);
      var days := Group(items, dates);
      assert before[|before| - 1].date == dates[n - 1];
      if dates[n] == dates[n - 1] {
        assert days == before[..|before| - 1] + [MergeItem(before[|before| - 1], items[n])];
      } else {
        assert days == before + [OpenDay(dates[n], items[n])];
      }
      forall k | 0 < k < |days|
        ensures days[k - 1].date != days[k].date
      {
        assert before[k - 1].date == days[k - 1].date;
      }
    }
  }

  /** A record covers an item: it has the item's date, and extremes and a
      rain chance at least as wide as the item's. */
  predicate Covers(d: DayForecast, date: string, it: Item) {
    && d.date == date
    && d.tempMax >= it.tempMax
    && d.tempMin <= it.tempMin
    && d.rainChance >= RainChance(it)
  }

  /** The humidity, condition and wind of a record are the item's. */
  predicate Supplies(d: DayForecast, it: Item) {
    d.humidity == it.humidity && d.condition == it.condition && d.windSpeed == it.windSpeed
  }

  /** How one more item changes the records: it is merged into the last one
      or opens a new one after the others, which stay as they were. */
  lemma GroupStep(items: seq<Item>, dates: seq<string>, n: nat)
    requires |dates| == |items| && n == |items| - 1 && n > 0
    ensures Stepped(Group(items[..n], dates[..n]), Group(items, dates), dates[n] == dates[n - 1], dates[n], items[n])
  {
    var before := Group(items[..n], dates[..n]);
    var last := |before| - 1;
    if dates[n] == dates[n - 1] {
      AppendAfterPrefix(before, last, MergeItem(before[last], items[n]));
    } else {
      AppendAfterPrefix(before, |before|, OpenDay(dates[n], items[n]));
    }
  }

  /** Appending after a prefix keeps the prefix's elements. */
  lemma AppendAfterPrefix<T>(s: seq<T>, m: nat, x: T)
    requires m <= |s|
    ensures |s[..m] + [x]| == m + 1 && (s[..m] + [x])[m] == x
    ensures forall j :: 0 <= j < m ==> (s[..m] + [x])[j] == s[j]
  {
  }

  /** Merging keeps what a record covered and covers the merged item. */
  lemma MergeCovers(d: DayForecast, date: string, it: Item, next: Item)
    ensures Covers(d, date, it) ==> Covers(MergeItem(d, next), date, it)
    ensures Covers(MergeItem(d, next), d.date, next)
    ensures Supplies(d, it) ==> Supplies(MergeItem(d, next), it)
  {
  }

  /** How the records after one more item relate to those before it:
      merged into the last record, or a new record appended. */
  predicate Stepped(before: seq<DayForecast>, days: seq<DayForecast>, merge: bool, date: string, it: Item) {
    && |before| > 0
    && |days| == (if merge then |before| else |before| + 1)
    && (forall j :: 0 <= j < |before| - 1 ==> days[j] == before[j])
    && (merge ==> days[|days| - 1] == MergeItem(before[|before| - 1], it))
    && (!merge ==> days[|before| - 1] == before[|before| - 1] && days[|before|] == OpenDay(date, it))
  }

  /** A record that covered an item still covers it one step later. */
  lemma SteppedCovers(before: seq<DayForecast>, days: seq<DayForecast>, merge: bool, date: string, it: Item,
                      k: nat, d: string, x: Item)
    requires Stepped(before, days, merge, date, it)
    requires k < |before| && Covers(before[k], d, x)
    ensures k < |days| && Covers(days[k], d, x)
  {
    if k == |before| - 1 && merge {
      MergeCovers(before[k], d, x, it);
    }
  }

  /** The new item is covered by the record it lands in. */
  lemma SteppedCoversNew(before: seq<DayForecast>, days: seq<DayForecast>, merge: bool, date: string, it: Item,
                         k: nat)
    requires Stepped(before, days, merge, date, it)
    requires merge ==> before[|before| - 1].date == date && k == |before| - 1
    requires !merge ==> k == |before|
    ensures k < |days| && Covers(days[k], date, it)
  {
    if merge {
      MergeCovers(before[k], date, it, it);
    }
  }

  /** The last item lands in the last record, which covers it. */
  lemma GroupCoversLast(items: seq<Item>, dates: seq<string>, n: nat)
    requires |dates| == |items| && n == |items| - 1
    ensures RunIndex(dates, n) < |Group(items, dates)|
    ensures Covers(Group(items, dates)[RunIndex(dates, n)], dates[n], items[n])
  {
    GroupCount(items, dates);
    if n == 0 {
      assert Group(items, dates) == [OpenDay(dates[0], items[0])];
    } else {
      var before := Group(items[..n], dates[..n]);
      GroupStep(items, dates, n);
      GroupCount(items[..n], dates[..n]);
      RunIndexPrefix(dates, n, n - 1);
      SteppedCoversNew(before, Group(items, dates), dates[n] == dates[n - 1], dates[n], items[n], RunIndex(dates, n));
    }
  }

  /** Every item lands in the record of its run, which covers it. */
  lemma {:induction false} GroupCovers(items: seq<Item>, dates: seq<string>, i: nat)
    requires |dates| == |items|
    requires i < |items|
    ensures RunIndex(dates, i) < |Group(items, dates)|
    ensures Covers(Group(items, dates)[RunIndex(dates, i)], dates[i], items[i])
    decreases |items|
  {
    var n := |items| - 1;
    if i == n {
      GroupCoversLast(items, dates, n);
    } else {
      var k := RunIndex(dates, i);
      var before := Group(items[..n], dates[..n]);
      GroupCovers(items[..n], dates[..n], i);
      RunIndexPrefix(dates, n, i);
      assert items[..n][i] == items[i] && dates[..n][i] == dates[i];
      assert k < |before| && Covers(before[k], dates[i], items[i]);
      GroupStep(items, dates, n);
      SteppedCovers(before, Group(items, dates), dates[n] == dates[n - 1], dates[n], items[n], k, dates[i], items[i]);
    }
  }

  /** A record supplied by an item is still supplied by it one step later. */
  lemma SteppedSupplies(before: seq<DayForecast>, days: seq<DayForecast>, merge: bool, date: string, it: Item,
                        k: nat, x: Item)
    requires Stepped(before, days, merge, date, it)
    requires k < |before| && Supplies(before[k], x)
    ensures k < |days| && Supplies(days[k], x)
  {
    if k == |before| - 1 && merge {
      MergeCovers(before[k], before[k].date, x, it);
    }
  }

  /** The last item, when it opens a run, supplies the last record. */
  lemma GroupFirstsLast(items: seq<Item>, dates: seq<string>, n: nat)
    requires |dates| == |items| && n == |items| - 1 && OpensRun(dates, n)
    ensures RunIndex(dates, n) < |Group(items, dates)|
    ensures Supplies(Group(items, dates)[RunIndex(dates, n)], items[n])
  {
    GroupCount(items, dates);
    if n == 0 {
      assert Group(items, dates) == [OpenDay(dates[0], items[0])];
    } else {
      var before := Group(items[..n], dates[..n]);
      GroupStep(items, dates, n);
      GroupCount(items[..n], dates[..n]);
      RunIndexPrefix(dates, n, n - 1);
      assert Group(items, dates)[|before|] == OpenDay(dates[n], items[n]);
    }
  }

  /** An item that opens its run supplies its record's humidity, condition
      and wind. */
  lemma {:induction false} GroupFirsts(items: seq<Item>, dates: seq<string>, i: nat)
    requires |dates| == |items|
    requires i < |items| && OpensRun(dates, i)
    ensures RunIndex(dates, i) < |Group(items, dates)|
    ensures Supplies(Group(items, dates)[RunIndex(dates, i)], items[i])
    decreases |items|
  {
    var n := |items| - 1;
    if i == n {
      GroupFirstsLast(items, dates, n);
    } else {
      var k := RunIndex(dates, i);
      var before := Group(items[..n], dates[..n]);
      assert OpensRun(dates[..n], i);
      GroupFirsts(items[..n], dates[..n], i);
      RunIndexPrefix(dates, n, i);
      assert items[..n][i] == items[i];
      assert k < |before| && Supplies(before[k], items[i]);
      GroupStep(items, dates, n);
      SteppedSupplies(before, Group(items, dates), dates[n] == dates[n - 1], dates[n], items[n], k, items[i]);
    }
  }

  /** Every record's extremes and rain chance are those of some item of its
      run (the source never invents a value). */
  lemma {:induction false} GroupAttains(items: seq<Item>, dates: seq<string>, k: nat)
    returns (iMax: nat, iMin: nat, iRain: nat)
    requires |dates| == |items|
    requires k < |Group(items, dates)|
    ensures iMax < |items| && RunIndex(dates, iMax) == k && Group(items, dates)[k].tempMax == items[iMax].tempMax
    ensures iMin < |items| && RunIndex(dates, iMin) == k && Group(items, dates)[k].tempMin == items[iMin].tempMin
    ensures iRain < |items| && RunIndex(dates, iRain) == k
            && Group(items, dates)[k].rainChance == RainChance(items[iRain])
    decreases |items|
  {
    var n := |items| - 1;
    var days := Group(items, dates);
    GroupCount(items, dates);
    if n == 0 {
      iMax, iMin, iRain := 0, 0, 0;
    } else {
      var init, initDates := items[..n], dates[..n];
      var before := Group(init, initDates);
      GroupStep(items, dates, n);
      GroupCount(init, initDates);
      RunIndexPrefix(dates, n, n - 1);
      if k < |before| && (k < |before| - 1 || dates[n] != dates[n - 1]) {
        iMax, iMin, iRain := GroupAttains(init, initDates, k);
        RunIndexPrefix(dates, n, iMax);
        RunIndexPrefix(dates, n, iMin);
        RunIndexPrefix(dates, n, iRain);
        assert init[iMax] == items[iMax] && init[iMin] == items[iMin] && init[iRain] == items[iRain];
      } else if k < |before| {
        var jMax, jMin, jRain := GroupAttains(init, initDates, k);
        RunIndexPrefix(dates, n, jMax);
        RunIndexPrefix(dates, n, jMin);
        RunIndexPrefix(dates, n, jRain);
        assert init[jMax] == items[jMax] && init[jMin] == items[jMin] && init[jRain] == items[jRain];
        iMax := if days[k].tempMax == items[n].tempMax then n else jMax;
        iMin := if days[k].tempMin == items[n].tempMin then n else jMin;
        iRain := if days[k].rainChance == RainChance(items[n]) then n else jRain;
      } else {
        iMax, iMin, iRain := n, n, n;
      }
    }
  }

  // ---------------------------------------------------------------------------
  // advice

  /** The rules of `_generate_farming_advice`, in the order they are tested. */
  datatype FarmingRule = DrainFields | IncreaseIrrigation | ProtectFromFrost | WatchFungus | KeepSoilMoist

  function FarmingRuleText(r: FarmingRule): string {
    match r
    case DrainFields => "Heavy rain expected - ensure proper field drainage"
    case IncreaseIrrigation => "High temperature - increase irrigation"
    case ProtectFromFrost => "Cold weather - protect crops from frost"
    case WatchFungus => "High humidity - monitor for fungal diseases"
    case KeepSoilMoist => "Low humidity - ensure soil moisture"
  }

  /** Position of a rule in the fixed order. */
  function FarmingRank(r: FarmingRule): nat {
    match r
    case DrainFields => 0
    case IncreaseIrrigation => 1
    case ProtectFromFrost => 2
    case WatchFungus => 3
    case KeepSoilMoist => 4
  }

  /** Whether a rule fires for the current temperature, humidity and main
      condition (lower-cased before the "rain" test). */
  predicate Fires(r: FarmingRule, temp: real, humidity: real, condition: string) {
    match r
    case DrainFields => Contains(Lower(condition), "rain")
    case IncreaseIrrigation => temp > 35.0
    case ProtectFromFrost => temp < 10.0
    case WatchFungus => humidity > 80.0
    case KeepSoilMoist => humidity < 30.0
  }

  /** `_generate_farming_advice`: each rule contributes independently, in the
      fixed order. An empty list stands for the default message. */
  function FarmingAdvice(temp: real, humidity: real, condition: string): (rules: seq<FarmingRule>)
    ensures forall r :: r in rules <==> Fires(r, temp, humidity, condition)
    ensures forall i, j :: 0 <= i < j < |rules| ==> FarmingRank(rules[i]) < FarmingRank(rules[j])
  {
    (if Contains(Lower(condition), "rain") then [DrainFields] else [])
      + (if temp > 35.0 then [IncreaseIrrigation] else [])
      + (if temp < 10.0 then [ProtectFromFrost] else [])
      + (if humidity > 80.0 then [WatchFungus] else [])
      + (if humidity < 30.0 then [KeepSoilMoist] else [])
  }

  /** `" | ".join(...)`. */
  function JoinWith(parts: seq<string>, sep: string): string
    decreases |parts|
  {
    if |parts| == 0 then "" else if |parts| == 1 then parts[0] else parts[0] + sep + JoinWith(parts[1..], sep)
  }

  /** The advice message: the texts of the rules joined by " | ", or the
      default when no rule fired. */
  function FarmingMessage(rules: seq<FarmingRule>): string {
    if |rules| == 0 then "Monitor crop conditions regularly"
    else JoinWith(seq(|rules|, i requires 0 <= i < |rules| => FarmingRuleText(rules[i])), " | ")
  }

  /** The rules of `_generate_forecast_advice`. */
  datatype ForecastRule = ManyRainyDays | DrySpell | HotAhead | CoolAhead

  function ForecastRuleText(r: ForecastRule): string {
    match r
    case ManyRainyDays => "Multiple rainy days ahead - plan field activities accordingly"
    case DrySpell => "Dry spell expected - ensure irrigation planning"
    case HotAhead => "Hot weather ahead - monitor crop stress"
    case CoolAhead => "Cool weather - adjust planting schedules"
  }

  /** Days with a rain chance above 50. */
  function RainyDays(days: seq<DayForecast>): (n: nat)
    ensures n <= |days|
    decreases |days|
  {
    if |days| == 0 then 0
    else RainyDays(days[..|days| - 1]) + (if days[|days| - 1].rainChance > 50.0 then 1 else 0)
  }

  /** The maximum temperatures of the days, in order. */
  function MaxTemps(days: seq<DayForecast>): (t: seq<real>)
    ensures |t| == |days|
    ensures forall i :: 0 <= i < |days| ==> t[i] == days[i].tempMax
  {
    seq(|days|, i requires 0 <= i < |days| => days[i].tempMax)
  }

  /** `_generate_forecast_advice`: at most one rain rule (three or more rainy
      days, or none at all) followed by at most one temperature rule (mean
      maximum above 30, or below 15). An empty list stands for the default
      message. None stands for the division by zero on an empty forecast. */
  function ForecastAdvice(days: seq<DayForecast>): (r: Option<seq<ForecastRule>>)
    ensures r.None? <==> |days| == 0
    ensures r.Some? ==> |r.value| <= 2
    ensures r.Some? ==> (ManyRainyDays in r.value <==> RainyDays(days) >= 3)
    ensures r.Some? ==> (DrySpell in r.value <==> RainyDays(days) == 0)
    ensures r.Some? ==> (HotAhead in r.value <==> Mean(MaxTemps(days)) > 30.0)
    ensures r.Some? ==> (CoolAhead in r.value <==> Mean(MaxTemps(days)) < 15.0)
    ensures r.Some? && |r.value| == 2 ==> r.value[0] in {ManyRainyDays, DrySpell}
  {
    if |days| == 0 then None
    else
      var rainy := RainyDays(days);
      var average := Mean(MaxTemps(days));
      Some((if rainy >= 3 then [ManyRainyDays] else if rainy == 0 then [DrySpell] else [])
           + (if average > 30.0 then [HotAhead] else if average < 15.0 then [CoolAhead] else []))
  }

  /** A forecast of fewer than three days never warns of many rainy days. */
  lemma ShortForecastNeverManyRainy(days: seq<DayForecast>)
    requires 0 < |days| < 3
    ensures ForecastAdvice(days).Some? && ManyRainyDays !in ForecastAdvice(days).value
  {
  }

  // ---------------------------------------------------------------------------
  // `_format_forecast` and `get_forecast`

  /** Python's `s[:n]` for any integer n: a negative n counts from the end. */
  function PrefixSlice<T>(s: seq<T>, n: int): (r: seq<T>)
    ensures n >= 0 ==> |r| == (if n < |s| then n else |s|)
    ensures n < 0 ==> |r| == (if -n < |s| then |s| + n else 0)
    ensures forall i :: 0 <= i < |r| ==> r[i] == s[i]
  {
    if n >= 0 then (if n < |s| then s[..n] else s)
    else (if -n < |s| then s[..|s| + n] else [])
  }

  /** The decoded body of a forecast response. */
  datatype ForecastData = ForecastData(city: string, items: seq<Item>)

  datatype ForecastFailure = FetchFailed | FormatFailed | DaysOutOfRange

  datatype ForecastResult =
    | ForecastError(failure: ForecastFailure)
    | ForecastOk(location: string, forecast: seq<DayForecast>, advice: seq<ForecastRule>)

  /** `_format_forecast`: group the items into days and keep the first
      `days` of them; the advice is computed on that same prefix. An item
      without a date, or an empty prefix, raises inside the try and gives the
      format error. */
  function FormatForecast(data: ForecastData, days: int): (r: ForecastResult)
    ensures r.ForecastError? ==> r.failure == FormatFailed
    ensures r.ForecastError? <==>
              DateKeys(data.items).None?
              || |PrefixSlice(Group(data.items, DateKeys(data.items).value), days)| == 0
    ensures r.ForecastOk? && days >= 0 ==> 0 < |r.forecast| <= days
    ensures r.ForecastOk? ==>
              && r.location == data.city
              && r.forecast == PrefixSlice(Group(data.items, DateKeys(data.items).value), days)
              && Some(r.advice) == ForecastAdvice(r.forecast)
  {
    match DateKeys(data.items)
    case None => ForecastError(FormatFailed)
    case Some(dates) =>
      var forecast := PrefixSlice(Group(data.items, dates), days);
      match ForecastAdvice(forecast)
      case None => ForecastError(FormatFailed)
      case Some(advice) => ForecastOk(data.city, forecast, advice)
  }

  /** `get_forecast`: the request asks for `RequestCount(days)` intervals; a
      failed request (no response, an HTTP error or an unreadable body) is
      the fetch error, otherwise the body is formatted. */
  function GetForecast(response: Option<ForecastData>, days: int): (r: ForecastResult)
    ensures r.ForecastError? ==> r.failure != DaysOutOfRange
    ensures response.None? ==> r == ForecastError(FetchFailed)
    ensures response.Some? ==> r == FormatForecast(response.value, days)
  {
    match response
    case None => ForecastError(FetchFailed)
    case Some(data) => FormatForecast(data, days)
  }

  /** One entry of the `weather` list of a current-weather response. */
  datatype Condition = Condition(main: string, description: string, icon: string)

  /** The decoded body of a current-weather response; `windDeg` may be absent. */
  datatype CurrentData = CurrentData(
    name: string,
    country: string,
    temp: real,
    feelsLike: real,
    humidity: real,
    pressure: real,
    weather: seq<Condition>,
    windSpeed: real,
    windDeg: Option<real>)

  datatype CurrentResult =
    | CurrentError(failure: ForecastFailure)
    | CurrentOk(location: string, country: string, temperature: int, humidity: real,
                condition: string, windSpeed: real, windDirection: real, feelsLike: int,
                pressure: real, icon: string, advice: seq<FarmingRule>)

  /** Python's `round(x)` without digits: the nearest integer, with a tie
      going to the even neighbour. */
  function RoundHalfEven(x: real): (n: int)
    ensures -0.5 <= n as real - x <= 0.5
    ensures (n as real - x == 0.5 || x - n as real == 0.5) ==> n % 2 == 0
  {
    var f := x.Floor;
    var d := x - f as real;
    if d < 0.5 then f
    else if d > 0.5 then f + 1
    else if f % 2 == 0 then f
    else f + 1
  }

  /** The two clauses of `RoundHalfEven` single out its result: any integer
      within one half of `x` that is even on a tie is that result. */
  lemma RoundHalfEvenUnique(x: real, n: int)
    requires -0.5 <= n as real - x <= 0.5
    requires (n as real - x == 0.5 || x - n as real == 0.5) ==> n % 2 == 0
    ensures n == RoundHalfEven(x)
  {
  }

  /** `_format_current_weather`: the first entry of `weather` gives the
      condition and icon; an empty list raises and gives the format error.
      The temperature and the felt temperature are rounded to whole degrees;
      the advice is computed on the unrounded temperature and on the main
      condition. */
  function FormatCurrent(data: CurrentData): (r: CurrentResult)
    ensures r.CurrentError? <==> |data.weather| == 0
    ensures r.CurrentError? ==> r.failure == FormatFailed
    ensures r.CurrentOk? ==>
              && r.location == data.name
              && r.temperature == RoundHalfEven(data.temp)
              && r.feelsLike == RoundHalfEven(data.feelsLike)
              && r.condition == data.weather[0].description
              && r.windDirection == data.windDeg.GetOr(0.0)
              && (forall rule :: rule in r.advice <==> Fires(rule, data.temp, data.humidity, data.weather[0].main))
  {
    if |data.weather| == 0 then CurrentError(FormatFailed)
    else
      CurrentOk(data.name, data.country, RoundHalfEven(data.temp), data.humidity,
                data.weather[0].description, data.windSpeed, data.windDeg.GetOr(0.0),
                RoundHalfEven(data.feelsLike), data.pressure,
                data.weather[0].icon, FarmingAdvice(data.temp, data.humidity, data.weather[0].main))
  }

  /** `get_current_weather` of the service: a failed request is the fetch
      error, otherwise the body is formatted. */
  function GetCurrent(response: Option<CurrentData>): (r: CurrentResult)
    ensures response.None? ==> r == CurrentError(FetchFailed)
    ensures r.CurrentOk? <==> response.Some? && |response.value.weather| > 0
    ensures response.Some? ==> r == FormatCurrent(response.value)
  {
    match response
    case None => CurrentError(FetchFailed)
    case Some(data) => FormatCurrent(data)
  }
}
