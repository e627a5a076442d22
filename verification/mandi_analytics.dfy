/** The analytics steps of the mandi sync: day-over-day trend classification
    of stored rows, the half-versus-half trend direction of a commodity, the
    short-range price prediction, the per-date price history and the
    recommendation list. All of them are pure computations over sequences of
    rows of one commodity. */
module MandiAnalytics {
  import opened Common
  import opened MandiRecords

  // ---------------------------------------------------------------------------
  // day-over-day trends (`_calculate_price_trends`)

  /** Percentage change of a price against the previous one. */
  function PercentChange(previous: real, current: real): real
    requires previous != 0.0
  {
    (current - previous) / previous * 100.0
  }

  /** The ±2% band of the daily classification. */
  function ClassifyDaily(percent: real): Trend {
    if percent > 2.0 then Up else if percent < -2.0 then Down else Stable
  }

  /** With a positive previous price the daily trend is Up exactly when the
      price rose by more than 2%, Down exactly when it fell by more than 2%,
      and Stable otherwise. */
  lemma DailyTrendByPrices(previous: real, current: real)
    requires previous > 0.0
    ensures ClassifyDaily(PercentChange(previous, current)) == Up <==> current > 1.02 * previous
    ensures ClassifyDaily(PercentChange(previous, current)) == Down <==> current < 0.98 * previous
    ensures (ClassifyDaily(PercentChange(previous, current)) == Stable)
              <==> (0.98 * previous <= current <= 1.02 * previous)
  {
    ChangeExceeds(previous, current, 2.0);
  }

  /** A row with its trend columns computed against the previous price: only
      the three trend columns change, the change is the difference, the
      percentage is the difference relative to the previous price, and the
      trend follows the ±2% band. */
  function WithDailyTrend(row: MarketPrice, previousPrice: real): (r: MarketPrice)
    requires previousPrice > 0.0
    ensures r == row.(priceChange := r.priceChange, percentageChange := r.percentageChange, trend := r.trend)
    ensures RowKey(r) == RowKey(row) && r.modalPrice == row.modalPrice
    ensures r.priceChange == row.modalPrice - previousPrice
    ensures r.percentageChange * previousPrice == (row.modalPrice - previousPrice) * 100.0
    ensures r.trend == Up <==> row.modalPrice > 1.02 * previousPrice
    ensures r.trend == Down <==> row.modalPrice < 0.98 * previousPrice
  {
    var pct := PercentChange(previousPrice, row.modalPrice);
    DailyTrendByPrices(previousPrice, row.modalPrice);
    row.(priceChange := row.modalPrice - previousPrice, percentageChange := pct,
         trend := ClassifyDaily(pct))
  }

  /** Row i (rows newest first) has an older neighbour with a positive price. */
  predicate Comparable(rows: seq<MarketPrice>, i: int) {
    0 <= i < |rows| - 1 && rows[i + 1].modalPrice > 0.0
  }

  /** How many of the first n rows are comparable. */
  function CountComparable(rows: seq<MarketPrice>, n: nat): nat
    requires n <= |rows|
  {
    if n == 0 then 0
    else CountComparable(rows, n - 1) + (if Comparable(rows, n - 1) then 1 else 0)
  }

  /** Row j after the trend pass. */
  function TrendAt(rows: seq<MarketPrice>, j: nat): MarketPrice
    requires j < |rows|
  {
    if Comparable(rows, j) then WithDailyTrend(rows[j], rows[j + 1].modalPrice) else rows[j]
  }

  /** `_calculate_price_trends` for one commodity, its rows ordered newest
      first: each row is compared with the next-older row when that price is
      positive; the oldest row, rows after a non-positive price, and a
      commodity with fewer than two rows are left unchanged. `processed` counts
      the rows updated. */
  method CalculateCommodityTrends(rows: seq<MarketPrice>) returns (updated: seq<MarketPrice>, processed: nat)
    ensures |updated| == |rows|
    ensures forall i :: 0 <= i < |rows| && !Comparable(rows, i) ==> updated[i] == rows[i]
    ensures forall i :: 0 <= i < |rows| && Comparable(rows, i) ==>
              updated[i] == WithDailyTrend(rows[i], rows[i + 1].modalPrice)
    ensures processed == CountComparable(rows, |rows|)
    ensures |rows| < 2 ==> updated == rows && processed == 0
  {
    updated := rows;
    processed := 0;
    if |rows| < 2 {
      return;
    }
    for i := 0 to |rows|
      invariant |updated| == |rows|
      invariant forall j :: i <= j < |rows| ==> updated[j] == rows[j]
      invariant forall j :: 0 <= j < i ==> updated[j] == TrendAt(rows, j)
      invariant processed == CountComparable(rows, i)
    {
      if i < |rows| - 1 {
        var previousPrice := rows[i + 1].modalPrice;
        if previousPrice > 0.0 {
          updated := updated[i := WithDailyTrend(rows[i], previousPrice)];
          processed := processed + 1;
        }
      }
    }
  }

  /** The indices below n whose older neighbour has a positive price. */
  function ComparableBelow(rows: seq<MarketPrice>, n: nat): set<nat> {
    set i: nat | i < n && Comparable(rows, i)
  }

  /** `processed` counts exactly the rows compared. */
  lemma {:induction false} CountComparableIsSize(rows: seq<MarketPrice>, n: nat)
    requires n <= |rows|
    ensures CountComparable(rows, n) == |ComparableBelow(rows, n)|
    decreases n
  {
    if n == 0 {
      assert ComparableBelow(rows, 0) == {};
    } else {
      CountComparableIsSize(rows, n - 1);
      var below := ComparableBelow(rows, n - 1);
      assert n - 1 !in below;
      if Comparable(rows, n - 1) {
        assert ComparableBelow(rows, n) == below + {n - 1};
      } else {
        assert ComparableBelow(rows, n) == below;
      }
    }
  }

  /** The oldest row is never updated, so fewer rows are processed than
      there are rows, and with positive prices every other row is. */
  lemma {:induction false} CountComparableBound(rows: seq<MarketPrice>, n: nat)
    requires 1 <= n <= |rows|
    ensures CountComparable(rows, n) <= n
    ensures n == |rows| ==> CountComparable(rows, n) <= n - 1
    ensures AllPositive(rows) ==> CountComparable(rows, n) == if n == |rows| then n - 1 else n
    decreases n
  {
    if n > 1 {
      CountComparableBound(rows, n - 1);
    }
  }

  // ---------------------------------------------------------------------------
  // ordering by arrival date (Python's stable `sorted`)

  predicate SortedByDate(rows: seq<MarketPrice>) {
    forall i, j :: 0 <= i < j < |rows| ==> rows[i].arrivalDate <= rows[j].arrivalDate
  }

  /** Insert after every row with the same or an earlier date, so ties keep
      their input order. */
  function InsertByDate(sorted: seq<MarketPrice>, x: MarketPrice): (r: seq<MarketPrice>)
    requires SortedByDate(sorted)
    ensures |r| == |sorted| + 1
    ensures SortedByDate(r)
    ensures multiset(r) == multiset(sorted) + multiset{x}
    ensures r[|r| - 1].arrivalDate == if |sorted| == 0 || sorted[|sorted| - 1].arrivalDate <= x.arrivalDate
                                      then x.arrivalDate else sorted[|sorted| - 1].arrivalDate
    decreases |sorted|
  {
    if |sorted| == 0 || sorted[|sorted| - 1].arrivalDate <= x.arrivalDate then sorted + [x]
    else
      var init := sorted[..|sorted| - 1];
      var last := sorted[|sorted| - 1];
      assert sorted == init + [last];
      var r' := InsertByDate(init, x);
      assert r'[|r'| - 1].arrivalDate <= last.arrivalDate;
      r' + [last]
  }

  /** `sorted(rows, key=lambda r: r.arrival_date)`; stability is
      `SortByDateStable`. */
  function SortByDate(rows: seq<MarketPrice>): (r: seq<MarketPrice>)
    ensures |r| == |rows|
    ensures SortedByDate(r)
    ensures multiset(r) == multiset(rows)
    decreases |rows|
  {
    if |rows| == 0 then []
    else
      assert rows == rows[..|rows| - 1] + [rows[|rows| - 1]];
      InsertByDate(SortByDate(rows[..|rows| - 1]), rows[|rows| - 1])
  }

  /** The rows of one date, in their order. */
  function OnDate(rows: seq<MarketPrice>, d: Day): seq<MarketPrice>
    decreases |rows|
  {
    if |rows| == 0 then []
    else OnDate(rows[..|rows| - 1], d) + (if rows[|rows| - 1].arrivalDate == d then [rows[|rows| - 1]] else [])
  }

  lemma OnDateAppend(rows: seq<MarketPrice>, x: MarketPrice, d: Day)
    ensures OnDate(rows + [x], d) == OnDate(rows, d) + (if x.arrivalDate == d then [x] else [])
  {
    assert (rows + [x])[..|rows|] == rows;
  }

  /** Inserting a row puts it after every row of its own date. */
  lemma {:induction false} InsertByDateStable(sorted: seq<MarketPrice>, x: MarketPrice, d: Day)
    requires SortedByDate(sorted)
    ensures OnDate(InsertByDate(sorted, x), d) == OnDate(sorted, d) + (if x.arrivalDate == d then [x] else [])
    decreases |sorted|
  {
    if |sorted| == 0 || sorted[|sorted| - 1].arrivalDate <= x.arrivalDate {
      OnDateAppend(sorted, x, d);
    } else {
      var init := sorted[..|sorted| - 1];
      var last := sorted[|sorted| - 1];
      assert sorted == init + [last];
      assert SortedByDate(init);
      InsertByDateStable(init, x, d);
      OnDateAppend(InsertByDate(init, x), last, d);
      OnDateAppend(init, last, d);
    }
  }

  /** Python's sort is stable: the rows of each date come out in their input
      order, which the half averages and the recent window depend on when a
      date has several rows. */
  lemma {:induction false} SortByDateStable(rows: seq<MarketPrice>, d: Day)
    ensures OnDate(SortByDate(rows), d) == OnDate(rows, d)
    decreases |rows|
  {
    if |rows| > 0 {
      var init := rows[..|rows| - 1];
      var last := rows[|rows| - 1];
      assert rows == init + [last];
      SortByDateStable(init, d);
      InsertByDateStable(SortByDate(init), last, d);
      OnDateAppend(init, last, d);
    }
  }

  /** Sorting rows that are already in date order changes nothing. */
  lemma {:induction false} SortSortedIsIdentity(rows: seq<MarketPrice>)
    requires SortedByDate(rows)
    ensures SortByDate(rows) == rows
    decreases |rows|
  {
    if |rows| > 0 {
      var init := rows[..|rows| - 1];
      var last := rows[|rows| - 1];
      assert SortedByDate(init);
      SortSortedIsIdentity(init);
      assert SortByDate(rows) == InsertByDate(init, last);
      assert |init| == 0 || init[|init| - 1].arrivalDate <= last.arrivalDate;
      assert rows == init + [last];
    }
  }

  predicate AllPositive(rows: seq<MarketPrice>) {
    forall i :: 0 <= i < |rows| ==> rows[i].modalPrice > 0.0
  }

  lemma {:induction false} InsertKeepsPositive(sorted: seq<MarketPrice>, x: MarketPrice)
    requires SortedByDate(sorted) && AllPositive(sorted) && x.modalPrice > 0.0
    ensures AllPositive(InsertByDate(sorted, x))
    decreases |sorted|
  {
    if |sorted| > 0 && sorted[|sorted| - 1].arrivalDate > x.arrivalDate {
      var init := sorted[..|sorted| - 1];
      assert SortedByDate(init);
      InsertKeepsPositive(init, x);
    }
  }

  /** Sorting keeps every row, so positive prices stay positive. */
  lemma {:induction false} SortKeepsPositive(rows: seq<MarketPrice>)
    requires AllPositive(rows)
    ensures AllPositive(SortByDate(rows))
    decreases |rows|
  {
    if |rows| > 0 {
      var init := rows[..|rows| - 1];
      SortKeepsPositive(init);
      InsertKeepsPositive(SortByDate(init), rows[|rows| - 1]);
    }
  }

  /** The modal prices of the rows, in order. */
  function Prices(rows: seq<MarketPrice>): (r: seq<real>)
    ensures |r| == |rows|
    ensures forall i :: 0 <= i < |rows| ==> r[i] == rows[i].modalPrice
  {
    seq(|rows|, i requires 0 <= i < |rows| => rows[i].modalPrice)
  }

  // ---------------------------------------------------------------------------
  // trend direction (`_calculate_trend_direction`)

  /** The earlier half of the rows in date order (the smaller share when the
      count is odd). */
  function EarlyHalf(data: seq<MarketPrice>): seq<MarketPrice> {
    SortByDate(data)[..|data| / 2]
  }

  /** The later half of the rows in date order. */
  function LateHalf(data: seq<MarketPrice>): seq<MarketPrice> {
    SortByDate(data)[|data| / 2..]
  }

  /** The two halves split the rows by date: together they are the rows, the
      earlier one has ⌊n/2⌋ of them, and no row of it is later than a row of
      the other. */
  lemma HalvesSplit(data: seq<MarketPrice>)
    requires |data| >= 2
    ensures |EarlyHalf(data)| == |data| / 2 >= 1
    ensures |LateHalf(data)| == |data| - |data| / 2 >= 1
    ensures multiset(EarlyHalf(data)) + multiset(LateHalf(data)) == multiset(data)
    ensures forall i, j :: 0 <= i < |EarlyHalf(data)| && 0 <= j < |LateHalf(data)| ==>
              EarlyHalf(data)[i].arrivalDate <= LateHalf(data)[j].arrivalDate
  {
    var sorted := SortByDate(data);
    var mid := |data| / 2;
    var early := EarlyHalf(data);
    var late := LateHalf(data);
    assert sorted == early + late;
    forall i, j | 0 <= i < |early| && 0 <= j < |late|
      ensures early[i].arrivalDate <= late[j].arrivalDate
    {
      assert early[i] == sorted[i];
      assert late[j] == sorted[mid + j];
    }
  }

  /** The trend of a commodity over a window: the later half's mean price
      against the earlier half's, with a ±5% band. None stands for the
      division by a zero earlier-half mean, which raises in the source. */
  function TrendDirection(data: seq<MarketPrice>): (r: Option<Trend>)
    ensures |data| < 2 ==> r == Some(Stable)
    ensures r.None? <==> |data| >= 2 && Mean(Prices(EarlyHalf(data))) == 0.0
  {
    if |data| < 2 then Some(Stable)
    else HalvesTrend(Mean(Prices(EarlyHalf(data))), Mean(Prices(LateHalf(data))))
  }

  /** The direction from the earlier half's mean to the later half's: None
      where the percentage change divides by zero. */
  function HalvesTrend(first: real, second: real): (r: Option<Trend>)
    ensures r.None? <==> first == 0.0
  {
    if first == 0.0 then None
    else
      var change := (second - first) / first * 100.0;
      Some(if change > 5.0 then Up else if change < -5.0 then Down else Stable)
  }

  /** With a positive earlier mean the direction follows the ±5% band. */
  lemma HalvesTrendBands(first: real, second: real)
    requires first > 0.0
    ensures HalvesTrend(first, second) == Some(Up) <==> second > 1.05 * first
    ensures HalvesTrend(first, second) == Some(Down) <==> second < 0.95 * first
  {
    ChangeExceeds(first, second, 5.0);
  }

  /** With positive prices (which every stored row has) the direction is Up
      exactly when the later half's mean exceeds the earlier half's by more
      than 5%, and Down exactly when it is more than 5% below it. */
  lemma TrendDirectionByHalves(data: seq<MarketPrice>)
    requires |data| >= 2
    requires forall i :: 0 <= i < |data| ==> data[i].modalPrice > 0.0
    ensures var first := Mean(Prices(EarlyHalf(data)));
            var second := Mean(Prices(LateHalf(data)));
            && TrendDirection(data).Some?
            && (TrendDirection(data) == Some(Up) <==> second > 1.05 * first)
            && (TrendDirection(data) == Some(Down) <==> second < 0.95 * first)
  {
    EarlyMeanPositive(data);
    HalvesTrendBands(Mean(Prices(EarlyHalf(data))), Mean(Prices(LateHalf(data))));
  }

  /** Positive prices give the earlier half a positive mean. */
  lemma EarlyMeanPositive(data: seq<MarketPrice>)
    requires |data| >= 2
    requires forall i :: 0 <= i < |data| ==> data[i].modalPrice > 0.0
    ensures |EarlyHalf(data)| > 0 && Mean(Prices(EarlyHalf(data))) > 0.0
  {
    SortKeepsPositive(data);
    SumPositive(Prices(EarlyHalf(data)));
  }

  // ---------------------------------------------------------------------------
  // price prediction (`_predict_prices`)

  datatype Prediction = Prediction(in7Days: real, in14Days: real, confidence: real)

  /** Differences between consecutive prices. */
  function DailyChanges(p: seq<real>): (d: seq<real>)
    requires |p| >= 1
    ensures |d| == |p| - 1
    ensures forall i :: 0 <= i < |d| ==> d[i] == p[i + 1] - p[i]
  {
    seq(|p| - 1, i requires 0 <= i < |p| - 1 => p[i + 1] - p[i])
  }

  /** The daily changes telescope to last minus first. */
  lemma {:induction false} DailyChangesTelescope(p: seq<real>)
    requires |p| >= 1
    ensures Sum(DailyChanges(p)) == p[|p| - 1] - p[0]
    decreases |p|
  {
    if |p| > 1 {
      var init := p[..|p| - 1];
      DailyChangesTelescope(init);
      var d := DailyChanges(p);
      var di := DailyChanges(init);
      forall i | 0 <= i < |di|
        ensures d[i] == di[i]
      {
        assert init[i] == p[i] && init[i + 1] == p[i + 1];
      }
      assert d[..|d| - 1] == di;
      assert Sum(d) == Sum(di) + d[|d| - 1];
      assert init[0] == p[0] && init[|init| - 1] == p[|p| - 2];
    }
  }

  /** The last seven rows, or all of them when there are fewer. */
  function Recent(sorted: seq<MarketPrice>): seq<MarketPrice> {
    if |sorted| >= 7 then sorted[|sorted| - 7..] else sorted
  }

  /** Squared deviations from a centre. */
  function SquaredDeviations(p: seq<real>, centre: real): (d: seq<real>)
    ensures |d| == |p|
    ensures forall i :: 0 <= i < |p| ==> d[i] == (p[i] - centre) * (p[i] - centre)
  {
    seq(|p|, i requires 0 <= i < |p| => (p[i] - centre) * (p[i] - centre))
  }

  /** The prediction from the recent prices (oldest first): with three or
      more, extrapolate the average daily change and derive the confidence
      from the relative spread, clamped to [40, 85]; with fewer, the mean and
      a flat 50. None stands for the division by a zero mean, which raises. */
  function PredictFromRecent(prices: seq<real>, sqrt: real -> real): (r: Option<Prediction>)
    requires |prices| >= 1
    ensures r.None? <==> |prices| >= 3 && Mean(prices) == 0.0
    ensures |prices| < 3 ==> r == Some(Prediction(Mean(prices), Mean(prices), 50.0))
    ensures |prices| >= 3 && r.Some? ==> 40.0 <= r.value.confidence <= 85.0
  {
    if |prices| >= 3 then
      var changes := DailyChanges(prices);
      var averageChange := Sum(changes) / (|changes| as real);
      var current := prices[|prices| - 1];
      var mean := Mean(prices);
      if mean == 0.0 then None
      else
        var variance := Mean(SquaredDeviations(prices, mean));
        var volatility := sqrt(variance) / mean;
        Some(Prediction(current + averageChange * 7.0, current + averageChange * 14.0,
                        Max(40.0, Min(85.0, 80.0 - volatility * 100.0))))
    else
      var avg := Mean(prices);
      Some(Prediction(avg, avg, 50.0))
  }

  /** `_predict_prices`. `sqrt` stands for `** 0.5`. None stands for the
      divisions that raise: an empty input, and a zero mean of the recent
      prices. */
  function PredictPrices(data: seq<MarketPrice>, sqrt: real -> real): (r: Option<Prediction>)
    ensures r.None? <==> |data| == 0 || (|data| >= 3 && Mean(Prices(Recent(SortByDate(data)))) == 0.0)
    ensures 0 < |data| < 3 ==>
              r == Some(Prediction(Mean(Prices(data)), Mean(Prices(data)), 50.0))
    ensures |data| >= 3 && r.Some? ==> 40.0 <= r.value.confidence <= 85.0
  {
    if |data| == 0 then None
    else if |data| < 3 then
      var avg := Mean(Prices(data));
      Some(Prediction(avg, avg, 50.0))
    else PredictFromRecent(Prices(Recent(SortByDate(data))), sqrt)
  }

  /** With three or more prices the prediction extrapolates the straight line
      from the first to the last price: the average daily change is
      (last − first) / (k − 1) over the k prices, and the 14-day step is twice
      the 7-day step. */
  lemma PredictionExtrapolates(p: seq<real>, sqrt: real -> real)
    requires |p| >= 3
    requires PredictFromRecent(p, sqrt).Some?
    ensures var k := |p|;
            var step := (p[k - 1] - p[0]) / ((k - 1) as real);
            var r := PredictFromRecent(p, sqrt).value;
            && r.in7Days == p[k - 1] + step * 7.0
            && r.in14Days == p[k - 1] + step * 14.0
            && r.in14Days - p[k - 1] == 2.0 * (r.in7Days - p[k - 1])
  {
    DailyChangesTelescope(p);
  }

  /** When prices are positive and the square root is non-negative the
      confidence never exceeds 80: the 85 cap is never reached. */
  lemma ConfidenceAtMost80(p: seq<real>, sqrt: real -> real)
    requires |p| >= 3
    requires forall i :: 0 <= i < |p| ==> p[i] > 0.0
    requires forall x :: x >= 0.0 ==> sqrt(x) >= 0.0
    ensures PredictFromRecent(p, sqrt).Some?
    ensures PredictFromRecent(p, sqrt).value.confidence <= 80.0
  {
    SumPositive(p);
    var mean := Mean(p);
    var squares := SquaredDeviations(p, mean);
    SumNonNegative(squares);
    var variance := Mean(squares);
    assert variance >= 0.0;
    assert sqrt(variance) / mean >= 0.0;
  }

  /** The recent rows are the last rows, at most seven of them, so positive
      rows give positive recent rows. */
  lemma RecentKeepsPositive(sorted: seq<MarketPrice>)
    requires AllPositive(sorted)
    ensures |Recent(sorted)| == if |sorted| >= 7 then 7 else |sorted|
    ensures AllPositive(Recent(sorted))
  {
    if |sorted| >= 7 {
      var recent := sorted[|sorted| - 7..];
      assert forall i :: 0 <= i < 7 ==> recent[i] == sorted[|sorted| - 7 + i];
    }
  }

  /** For three or more rows with positive prices a prediction exists and its
      confidence is at most 80. */
  lemma PredictPricesPositive(data: seq<MarketPrice>, sqrt: real -> real)
    requires |data| >= 3
    requires AllPositive(data)
    requires forall x :: x >= 0.0 ==> sqrt(x) >= 0.0
    ensures PredictPrices(data, sqrt).Some?
    ensures PredictPrices(data, sqrt).value.confidence <= 80.0
  {
    var sorted := SortByDate(data);
    SortKeepsPositive(data);
    RecentKeepsPositive(sorted);
    ConfidenceAtMost80(Prices(Recent(sorted)), sqrt);
  }

  // ---------------------------------------------------------------------------
  // price history (`_generate_price_history`)

  datatype HistoryEntry = HistoryEntry(date: Day, price: real, records: nat)

  predicate StrictlyIncreasing(ds: seq<Day>) {
    forall i, j :: 0 <= i < j < |ds| ==> ds[i] < ds[j]
  }

  /** Add a day to a strictly increasing list of days. */
  function InsertDay(ds: seq<Day>, d: Day): (r: seq<Day>)
    requires StrictlyIncreasing(ds)
    ensures StrictlyIncreasing(r)
    ensures forall e :: e in r <==> e in ds || e == d
    decreases |ds|
  {
    if |ds| == 0 then [d]
    else
      var last := ds[|ds| - 1];
      if last < d then ds + [d]
      else if last == d then ds
      else
        var init := ds[..|ds| - 1];
        assert forall e :: e in ds <==> e in init || e == last;
        var r' := InsertDay(init, d);
        assert forall i :: 0 <= i < |init| ==> init[i] == ds[i] && init[i] < last;
        assert forall i :: 0 <= i < |r'| ==> r'[i] < last by {
          forall i | 0 <= i < |r'|
            ensures r'[i] < last
          {
            assert r'[i] in r';
            if r'[i] != d {
              var j :| 0 <= j < |init| && init[j] == r'[i];
            }
          }
        }
        r' + [last]
  }

  /** The distinct arrival dates, ascending (`sorted(date_prices.keys())`). */
  function DistinctDates(data: seq<MarketPrice>): (ds: seq<Day>)
    ensures StrictlyIncreasing(ds)
    ensures forall d :: d in ds <==> exists i :: 0 <= i < |data| && data[i].arrivalDate == d
    decreases |data|
  {
    if |data| == 0 then []
    else
      var init := data[..|data| - 1];
      var r := InsertDay(DistinctDates(init), data[|data| - 1].arrivalDate);
      assert forall i :: 0 <= i < |init| ==> init[i] == data[i];
      r
  }

  /** The prices recorded on one date, in input order. */
  function PricesOn(data: seq<MarketPrice>, d: Day): seq<real>
    decreases |data|
  {
    if |data| == 0 then []
    else
      var last := data[|data| - 1];
      PricesOn(data[..|data| - 1], d) + (if last.arrivalDate == d then [last.modalPrice] else [])
  }

  /** The dates of the rows, with multiplicity. */
  function DateBag(data: seq<MarketPrice>): multiset<Day> {
    multiset(seq(|data|, i requires 0 <= i < |data| => data[i].arrivalDate))
  }

  /** The number of prices grouped under a date is the number of rows with
      that date, and a date that occurs has at least one. */
  lemma {:induction false} PricesOnCount(data: seq<MarketPrice>, d: Day)
    ensures |PricesOn(data, d)| == DateBag(data)[d]
    ensures (exists i :: 0 <= i < |data| && data[i].arrivalDate == d) ==> |PricesOn(data, d)| > 0
    decreases |data|
  {
    if |data| > 0 {
      var init := data[..|data| - 1];
      PricesOnCount(init, d);
      var dates := seq(|data|, i requires 0 <= i < |data| => data[i].arrivalDate);
      var initDates := seq(|init|, i requires 0 <= i < |init| => init[i].arrivalDate);
      assert dates == initDates + [data[|data| - 1].arrivalDate];
      assert forall i :: 0 <= i < |data| ==> dates[i] == data[i].arrivalDate;
      if exists i :: 0 <= i < |data| && data[i].arrivalDate == d {
        var i :| 0 <= i < |data| && data[i].arrivalDate == d;
        assert dates[i] == d;
        assert d in multiset(dates);
      }
    }
  }

  /** Where the last (at most) fourteen distinct dates start. */
  function HistoryStart(data: seq<MarketPrice>): (off: nat)
    ensures off <= |DistinctDates(data)|
    ensures |DistinctDates(data)| - off <= 14
    ensures off > 0 ==> |DistinctDates(data)| - off == 14
  {
    var n := |DistinctDates(data)|;
    if n > 14 then n - 14 else 0
  }

  /** The entry for one date: the mean of its prices and their number. */
  function EntryFor(data: seq<MarketPrice>, d: Day): (e: HistoryEntry)
    ensures e.date == d
  {
    var prices := PricesOn(data, d);
    HistoryEntry(d, if |prices| == 0 then 0.0 else Mean(prices), |prices|)
  }

  /** The last (at most) fourteen distinct dates, ascending. */
  function LatestDates(data: seq<MarketPrice>): (ds: seq<Day>)
    ensures StrictlyIncreasing(ds)
    ensures |ds| == |DistinctDates(data)| - HistoryStart(data)
    ensures forall i :: 0 <= i < |ds| ==> ds[i] == DistinctDates(data)[HistoryStart(data) + i]
  {
    var all := DistinctDates(data);
    var off := HistoryStart(data);
    SuffixIncreasing(all, off);
    all[off..]
  }

  lemma SuffixIncreasing(ds: seq<Day>, off: nat)
    requires StrictlyIncreasing(ds) && off <= |ds|
    ensures StrictlyIncreasing(ds[off..])
  {
    var t := ds[off..];
    forall i, j | 0 <= i < j < |t|
      ensures t[i] < t[j]
    {
      assert t[i] == ds[off + i] && t[j] == ds[off + j];
    }
  }

  /** The price history (`_generate_price_history`): one entry per kept
      date, in order. */
  function PriceHistory(data: seq<MarketPrice>): (h: seq<HistoryEntry>)
    ensures |h| == |LatestDates(data)|
    ensures forall i :: 0 <= i < |h| ==> h[i] == EntryFor(data, LatestDates(data)[i])
  {
    var kept := LatestDates(data);
    seq(|kept|, i requires 0 <= i < |kept| => EntryFor(data, kept[i]))
  }

  /** The history covers the last fourteen distinct arrival dates at most,
      strictly ascending, and each entry is built from the rows of its own
      date. */
  lemma PriceHistorySpec(data: seq<MarketPrice>)
    ensures var h := PriceHistory(data);
            && |h| <= 14
            && (forall i, j :: 0 <= i < j < |h| ==> h[i].date < h[j].date)
            && (forall i :: 0 <= i < |h| ==> h[i] == EntryFor(data, h[i].date))
            && |h| == |DistinctDates(data)| - HistoryStart(data)
            && (forall i :: 0 <= i < |h| ==> h[i].date == DistinctDates(data)[HistoryStart(data) + i])
  {
    var h := PriceHistory(data);
    var kept := LatestDates(data);
    assert forall i :: 0 <= i < |h| ==> h[i].date == kept[i];
  }

  /** An entry for a date of the data counts exactly the rows of that date
      (at least one) and carries the mean of their prices. */
  lemma EntryForSpec(data: seq<MarketPrice>, d: Day)
    requires d in DistinctDates(data)
    ensures EntryFor(data, d).records == DateBag(data)[d]
    ensures EntryFor(data, d).records > 0
    ensures EntryFor(data, d).price == Mean(PricesOn(data, d))
  {
    PricesOnCount(data, d);
  }

  /** Nothing is lost but old dates: a date of the data is missing from the
      history only when the history is full and the date precedes all its
      entries. */
  lemma PriceHistoryKeepsLatest(data: seq<MarketPrice>, k: int)
    requires 0 <= k < |data|
    requires forall i :: 0 <= i < |PriceHistory(data)| ==> PriceHistory(data)[i].date != data[k].arrivalDate
    ensures |PriceHistory(data)| == 14
    ensures forall i :: 0 <= i < |PriceHistory(data)| ==> data[k].arrivalDate < PriceHistory(data)[i].date
  {
    var h := PriceHistory(data);
    PriceHistorySpec(data);
    var all := DistinctDates(data);
    var off := HistoryStart(data);
    var d := data[k].arrivalDate;
    assert d in all;
    forall j | off <= j < |all|
      ensures all[j] != d
    {
      assert h[j - off].date == all[j];
    }
    MissingFromSuffix(all, off, d);
    forall i | 0 <= i < |h|
      ensures d < h[i].date
    {
      assert h[i].date == all[off + i];
    }
  }

  /** A value of an ascending sequence that is not in a suffix precedes
      everything in that suffix, and the suffix is a proper one. */
  lemma MissingFromSuffix(all: seq<Day>, off: nat, d: Day)
    requires StrictlyIncreasing(all)
    requires off <= |all| && d in all
    requires forall j :: off <= j < |all| ==> all[j] != d
    ensures off > 0
    ensures forall j :: off <= j < |all| ==> d < all[j]
  {
    var m :| 0 <= m < |all| && all[m] == d;
    assert m < off;
  }

  // ---------------------------------------------------------------------------
  // recommendations (`_generate_recommendations`)

  /** The advice lines, one constructor per fixed Hindi message. */
  datatype Tip =
    | RisingSellNow | RisingDemand | RisingWait
    | FallingSellSoon | FallingOversupply | FallingSaveStorage
    | SteadyRegular | SteadyResearch | SteadyQuality
    | Volatile

  /** The text of each tip. */
  function TipText(t: Tip): string {
    match t
    case RisingSellNow => "कीमतें बढ़ रही हैं - बेचने का अच्छा समय है"
    case RisingDemand => "मांग अच्छी है - गुणवत्ता पर ध्यान दें"
    case RisingWait => "थोड़ा इंतज़ार करने से बेहतर दाम मिल सकते हैं"
    case FallingSellSoon => "कीमतें गिर रही हैं - जल्दी बेचने पर विचार करें"
    case FallingOversupply => "बाजार में अधिक सप्लाई है - तुरंत बेचें"
    case FallingSaveStorage => "भंडारण लागत बचाने के लिए तत्काल बिक्री करें"
    case SteadyRegular => "कीमतें स्थिर हैं - नियमित बिक्री करें"
    case SteadyResearch => "मार्केट रिसर्च करके बेहतर मंडी चुनें"
    case SteadyQuality => "गुणवत्ता पर फोकस करके बेहतर दाम लें"
    case Volatile => "कीमतों में अधिक उतार-चढ़ाव है - सही समय का इंतज़ार करें"
  }

  /** The trend a tip is written for (None for the volatility tip). */
  function TipTrend(t: Tip): Option<Trend> {
    match t
    case RisingSellNow | RisingDemand | RisingWait => Some(Up)
    case FallingSellSoon | FallingOversupply | FallingSaveStorage => Some(Down)
    case SteadyRegular | SteadyResearch | SteadyQuality => Some(Stable)
    case Volatile => None
  }

  /** The three tips for a trend. */
  function TrendTips(trend: Trend): seq<Tip> {
    match trend
    case Up => [RisingSellNow, RisingDemand, RisingWait]
    case Down => [FallingSellSoon, FallingOversupply, FallingSaveStorage]
    case Stable => [SteadyRegular, SteadyResearch, SteadyQuality]
  }

  /** Three distinct tips written for the trend, then the volatility tip
      exactly when the volatility exceeds 15% of the average price. */
  function Recommendations(trend: Trend, averagePrice: real, volatility: real): (r: seq<Tip>)
    ensures |r| == 3 || |r| == 4
    ensures r[..3] == TrendTips(trend)
    ensures forall i :: 0 <= i < 3 ==> TipTrend(r[i]) == Some(trend)
    ensures r[0] != r[1] && r[1] != r[2] && r[0] != r[2]
    ensures |r| == 4 <==> volatility > averagePrice * 0.15
    ensures |r| == 4 ==> r[3] == Volatile
  {
    TrendTips(trend) + (if volatility > averagePrice * 0.15 then [Volatile] else [])
  }
}
