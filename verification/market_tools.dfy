/** The market advice tools the assistant calls: the price summary for a
    commodity (`get_market_prices`), selling advice with quality adjustment,
    timing and strategy (`get_selling_advice`, `generate_timing_advice`,
    `generate_selling_strategy`), and the live analysis computed from raw
    rows (`generate_live_analysis`). Each database query is replaced by the
    rows it returns, in the order it returns them. */
module MarketTools {
  import opened Common
  import opened MandiRecords
  import opened MandiAnalytics

  // ---------------------------------------------------------------------------
  // counting markets

  /** A market: its name together with its district. */
  datatype MarketId = MarketId(market: string, district: string)

  function MarketOf(p: MarketPrice): MarketId {
    MarketId(p.market, p.district)
  }

  /** The label the source counts markets by: name, '-', district. */
  function MarketLabelAsWritten(p: MarketPrice): string {
    p.market + "-" + p.district
  }

  /** The labels of the rows. */
  function Labels(rows: seq<MarketPrice>): set<string> {
    set i | 0 <= i < |rows| :: MarketLabelAsWritten(rows[i])
  }

  /** `total_markets` as written: the number of distinct labels. */
  function MarketCountAsWritten(rows: seq<MarketPrice>): nat {
    |Labels(rows)|
  }

  /** The markets the rows come from. */
  function Markets(rows: seq<MarketPrice>): (ms: set<MarketId>)
    ensures forall i :: 0 <= i < |rows| ==> MarketOf(rows[i]) in ms
    ensures forall m :: m in ms ==> exists i :: 0 <= i < |rows| && MarketOf(rows[i]) == m
  {
    set i | 0 <= i < |rows| :: MarketOf(rows[i])
  }

  /** `total_markets` as intended: the number of distinct (market, district) pairs. */
  function MarketCount(rows: seq<MarketPrice>): nat {
    |Markets(rows)|
  }

  /** A row of the given market and district; every other column is fixed. */
  function SampleRow(market: string, district: string): MarketPrice {
    MarketPrice("S", district, market, "C", None, None, 0, 1.0, 1.0, 1.0, 0.0, 0.0, Stable, true)
  }

  /** Two different markets whose labels coincide, because the names contain
      the separator: market "A-B" in district "C" and market "A" in district
      "B-C" are counted as one. */
  lemma MarketLabelCollides()
    ensures var rows := [SampleRow("A-B", "C"), SampleRow("A", "B-C")];
            && MarketOf(rows[0]) != MarketOf(rows[1])
            && MarketCountAsWritten(rows) == 1
            && MarketCount(rows) == 2
  {
    var rows := [SampleRow("A-B", "C"), SampleRow("A", "B-C")];
    assert MarketLabelAsWritten(rows[0]) == MarketLabelAsWritten(rows[1]) == "A-B-C";
    assert Labels(rows) == {"A-B-C"};
    assert Markets(rows) == {MarketId("A-B", "C"), MarketId("A", "B-C")};
  }

  /** Adding a row adds its market, and nothing else. */
  lemma MarketsAppend(rows: seq<MarketPrice>, p: MarketPrice)
    ensures Markets(rows + [p]) == Markets(rows) + {MarketOf(p)}
  {
    var all := rows + [p];
    forall m | m in Markets(all) ensures m in Markets(rows) + {MarketOf(p)} {
      var i :| 0 <= i < |all| && MarketOf(all[i]) == m;
      if i < |rows| {
        assert all[i] == rows[i];
      }
    }
    forall m | m in Markets(rows) ensures m in Markets(all) {
      var i :| 0 <= i < |rows| && MarketOf(rows[i]) == m;
      assert all[i] == rows[i];
    }
    assert all[|rows|] == p;
  }

  /** There are at most as many markets as rows, and at least one when there
      are rows. */
  lemma {:induction false} MarketCountBounds(rows: seq<MarketPrice>)
    ensures MarketCount(rows) <= |rows|
    ensures |rows| > 0 ==> MarketCount(rows) >= 1
    decreases |rows|
  {
    if |rows| > 0 {
      var init := rows[..|rows| - 1];
      assert init + [rows[|rows| - 1]] == rows;
      MarketsAppend(init, rows[|rows| - 1]);
      MarketCountBounds(init);
    }
  }

  /** Two rows count as one market exactly when they share market and district. */
  lemma MarketCountSeparates(a: MarketPrice, b: MarketPrice)
    ensures MarketCount([a, b]) == if MarketOf(a) == MarketOf(b) then 1 else 2
  {
    var rows := [a, b];
    forall m | m in Markets(rows) ensures m == MarketOf(a) || m == MarketOf(b) {
      var i :| 0 <= i < |rows| && MarketOf(rows[i]) == m;
    }
    assert MarketOf(rows[0]) in Markets(rows) && MarketOf(rows[1]) in Markets(rows);
    assert Markets(rows) == {MarketOf(a), MarketOf(b)};
  }

  /** No market name contains the separator. */
  predicate DashFreeMarkets(rows: seq<MarketPrice>) {
    forall i :: 0 <= i < |rows| ==> '-' !in rows[i].market
  }

  /** The label reads the market name first, then the separator. */
  lemma LabelAt(p: MarketPrice, n: nat)
    requires n <= |p.market|
    ensures n < |MarketLabelAsWritten(p)|
    ensures MarketLabelAsWritten(p)[n] == if n == |p.market| then '-' else p.market[n]
  {
  }

  /** Without a '-' in the market names a label determines its market: the
      first '-' of the label ends the name. */
  lemma LabelSeparates(a: MarketPrice, b: MarketPrice)
    requires '-' !in a.market && '-' !in b.market
    requires MarketLabelAsWritten(a) == MarketLabelAsWritten(b)
    ensures MarketOf(a) == MarketOf(b)
  {
    var la, lb := MarketLabelAsWritten(a), MarketLabelAsWritten(b);
    var n := if |a.market| <= |b.market| then |a.market| else |b.market|;
    LabelAt(a, n);
    LabelAt(b, n);
    assert la[n] == lb[n];
    assert |a.market| == |b.market|;
    assert a.market == la[..|a.market|] == lb[..|b.market|] == b.market;
    assert a.district == la[|a.market| + 1..] == lb[|b.market| + 1..] == b.district;
  }

  /** Adding a row adds its label, and nothing else. */
  lemma LabelsAppend(rows: seq<MarketPrice>, p: MarketPrice)
    ensures Labels(rows + [p]) == Labels(rows) + {MarketLabelAsWritten(p)}
  {
    var all := rows + [p];
    forall l | l in Labels(all) ensures l in Labels(rows) + {MarketLabelAsWritten(p)} {
      var i :| 0 <= i < |all| && MarketLabelAsWritten(all[i]) == l;
      if i < |rows| {
        assert all[i] == rows[i];
      }
    }
    forall l | l in Labels(rows) ensures l in Labels(all) {
      var i :| 0 <= i < |rows| && MarketLabelAsWritten(rows[i]) == l;
      assert all[i] == rows[i];
    }
    assert all[|rows|] == p;
  }

  /** The label count never exceeds the number of markets, and is at least
      one for rows: a label joins only with a new market. */
  lemma {:induction false} LabelCountBounds(rows: seq<MarketPrice>)
    ensures MarketCountAsWritten(rows) <= MarketCount(rows)
    ensures |rows| > 0 ==> MarketCountAsWritten(rows) >= 1
    decreases |rows|
  {
    if |rows| > 0 {
      var init, p := rows[..|rows| - 1], rows[|rows| - 1];
      assert init + [p] == rows;
      LabelsAppend(init, p);
      MarketsAppend(init, p);
      LabelCountBounds(init);
      if MarketOf(p) in Markets(init) {
        var j :| 0 <= j < |init| && MarketOf(init[j]) == MarketOf(p);
        assert MarketLabelAsWritten(init[j]) in Labels(init);
      }
      CardStepAtMost(Labels(init), Markets(init), MarketLabelAsWritten(p), MarketOf(p));
    }
  }

  /** Adding an element to each of two sets keeps the first no larger when
      the second element is new whenever the first one is. */
  lemma CardStepAtMost<A, B>(xs: set<A>, ys: set<B>, x: A, y: B)
    requires |xs| <= |ys|
    requires y in ys ==> x in xs
    ensures |xs + {x}| <= |ys + {y}|
    ensures 1 <= |xs + {x}|
  {
    if x in xs {
      assert xs + {x} == xs;
    }
    if y in ys {
      assert ys + {y} == ys;
    }
  }

  /** Adding an element to each of two sets of one size keeps them of one
      size when the elements are new together. */
  lemma CardStepSame<A, B>(xs: set<A>, ys: set<B>, x: A, y: B)
    requires |xs| == |ys|
    requires x in xs <==> y in ys
    ensures |xs + {x}| == |ys + {y}|
  {
    if x in xs {
      assert xs + {x} == xs && ys + {y} == ys;
    }
  }

  /** When no market name contains '-' the label count is the number of
      markets. */
  lemma {:induction false} LabelCountAgrees(rows: seq<MarketPrice>)
    requires DashFreeMarkets(rows)
    ensures MarketCountAsWritten(rows) == MarketCount(rows)
    decreases |rows|
  {
    if |rows| > 0 {
      var init, p := rows[..|rows| - 1], rows[|rows| - 1];
      assert init + [p] == rows;
      LabelsAppend(init, p);
      MarketsAppend(init, p);
      LabelCountAgrees(init);
      assert DashFreeMarkets(init) by {
        forall i | 0 <= i < |init| ensures '-' !in init[i].market {
          assert init[i] == rows[i];
        }
      }
      if MarketLabelAsWritten(p) in Labels(init) {
        var j :| 0 <= j < |init| && MarketLabelAsWritten(init[j]) == MarketLabelAsWritten(p);
        assert init[j] == rows[j];
        LabelSeparates(init[j], p);
        assert MarketOf(p) in Markets(init);
      }
      if MarketOf(p) in Markets(init) {
        var j :| 0 <= j < |init| && MarketOf(init[j]) == MarketOf(p);
        assert MarketLabelAsWritten(init[j]) in Labels(init);
      }
      CardStepSame(Labels(init), Markets(init), MarketLabelAsWritten(p), MarketOf(p));
    }
  }

  /** The two counts compared: the labels never outnumber the markets, and
      without a '-' in the market names they are as many. */
  lemma LabelCountFacts(rows: seq<MarketPrice>)
    ensures MarketCountAsWritten(rows) <= MarketCount(rows)
    ensures |rows| > 0 ==> MarketCountAsWritten(rows) >= 1
    ensures DashFreeMarkets(rows) ==> MarketCountAsWritten(rows) == MarketCount(rows)
  {
    LabelCountBounds(rows);
    if DashFreeMarkets(rows) {
      LabelCountAgrees(rows);
    }
  }

  // ---------------------------------------------------------------------------
  // the trend vote

  /** Number of rows carrying the trend. */
  function CountTrend(rows: seq<MarketPrice>, t: Trend): nat
    decreases |rows|
  {
    if |rows| == 0 then 0
    else CountTrend(rows[..|rows| - 1], t) + (if rows[|rows| - 1].trend == t then 1 else 0)
  }

  /** Every row carries exactly one of the three trends, so `stable_markets`
      (rows minus up minus down) is the number of stable rows. */
  lemma {:induction false} TrendCountsAddUp(rows: seq<MarketPrice>)
    ensures CountTrend(rows, Up) + CountTrend(rows, Down) + CountTrend(rows, Stable) == |rows|
    decreases |rows|
  {
    if |rows| > 0 {
      TrendCountsAddUp(rows[..|rows| - 1]);
    }
  }

  /** `overall_trend`: up when up-trend rows outnumber down-trend rows and
      are more than 40% of all rows; down symmetrically; stable otherwise. */
  function OverallTrend(up: nat, down: nat, n: nat): (t: Trend)
    ensures t == Up <==> up > down && 5 * up > 2 * n
    ensures t == Down <==> down > up && 5 * down > 2 * n
  {
    if up > down && (up as real) > (n as real) * 0.4 then Up
    else if down > up && (down as real) > (n as real) * 0.4 then Down
    else Stable
  }

  function Opposite(t: Trend): Trend {
    match t
    case Up => Down
    case Down => Up
    case Stable => Stable
  }

  /** The vote treats rises and falls alike: swapping the counts swaps the verdict. */
  lemma OverallTrendMirrors(up: nat, down: nat, n: nat)
    ensures OverallTrend(down, up, n) == Opposite(OverallTrend(up, down, n))
  {
  }

  // ---------------------------------------------------------------------------
  // `get_market_prices`

  /** One entry of `all_markets`: the row's columns, with the display defaults
      for a missing variety or grade. */
  datatype MarketInfo = MarketInfo(
    market: string,
    district: string,
    state: string,
    modalPrice: real,
    minPrice: real,
    maxPrice: real,
    arrivalDate: Day,
    trend: Trend,
    priceChange: real,
    percentageChange: real,
    variety: string,
    grade: string)

  function InfoOf(p: MarketPrice): MarketInfo {
    MarketInfo(p.market, p.district, p.state, p.modalPrice, p.minPrice, p.maxPrice, p.arrivalDate,
               p.trend, p.priceChange, p.percentageChange,
               if p.variety.Some? && p.variety.value != "" then p.variety.value else "सामान्य",
               if p.grade.Some? && p.grade.value != "" then p.grade.value else "मध्यम")
  }

  /** The recommendation lines of the price summary. */
  datatype MarketTip =
    | PricesRising(commodity: string) | KeepQualityAndWait
    | PricesFalling(commodity: string) | GoToMarketNow
    | PricesSteady(commodity: string) | ResearchMarkets
    | ChooseBetterMarket(range: real)

  /** The price statistics of the summary. */
  datatype PriceSummary = PriceSummary(average: real, highest: real, lowest: real, range: real, totalMarkets: nat)

  datatype TrendStats = TrendStats(up: nat, down: nat, stable: nat)

  datatype MarketReport =
    | NoData(commodity: string)
    | Report(commodity: string, summary: PriceSummary, overall: Trend, stats: TrendStats,
             best: seq<MarketInfo>, all: seq<MarketInfo>, tips: seq<MarketTip>)

  /** The statistics of a non-empty list of rows. The highest price starts
      from 0 (so it is never negative) and the lowest from infinity. */
  function Summarize(rows: seq<MarketPrice>): (s: PriceSummary)
    requires |rows| > 0
    ensures s.totalMarkets == MarketCountAsWritten(rows)
    ensures s.totalMarkets <= MarketCount(rows)
    ensures DashFreeMarkets(rows) ==> s.totalMarkets == MarketCount(rows)
    ensures s.lowest <= s.average <= s.highest
    ensures forall i :: 0 <= i < |rows| ==> s.lowest <= rows[i].modalPrice <= s.highest
    ensures exists i :: 0 <= i < |rows| && rows[i].modalPrice == s.lowest
    ensures s.highest >= 0.0
    ensures s.highest == 0.0 || exists i :: 0 <= i < |rows| && rows[i].modalPrice == s.highest
    ensures s.average == Mean(Prices(rows))
    ensures s.range == s.highest - s.lowest
    ensures 1 <= s.totalMarkets <= |rows|
  {
    var prices := Prices(rows);
    MeanWithinExtremes(prices);
    MarketCountBounds(rows);
    LabelCountFacts(rows);
    var highest := Max(0.0, MaxOf(prices));
    var lowest := MinOf(prices);
    PriceSummary(Mean(prices), highest, lowest, highest - lowest, MarketCountAsWritten(rows))
  }

  /** The two lines for the overall trend. */
  function TrendLines(commodity: string, t: Trend): seq<MarketTip> {
    match t
    case Up => [PricesRising(commodity), KeepQualityAndWait]
    case Down => [PricesFalling(commodity), GoToMarketNow]
    case Stable => [PricesSteady(commodity), ResearchMarkets]
  }

  /** The recommendations: the two lines for the trend, then the advice to
      choose a better market exactly when the price range exceeds 30% of the
      average. */
  function MarketTips(commodity: string, overall: Trend, summary: PriceSummary): (tips: seq<MarketTip>)
    ensures |tips| == 2 || |tips| == 3
    ensures |tips| == 3 <==> summary.range > summary.average * 0.3
    ensures tips[..2] == TrendLines(commodity, overall)
    ensures |tips| == 3 ==> tips[2] == ChooseBetterMarket(summary.range)
  {
    TrendLines(commodity, overall)
      + (if summary.range > summary.average * 0.3 then [ChooseBetterMarket(summary.range)] else [])
  }

  /** Every row as an `all_markets` entry, in order. */
  function AllMarkets(rows: seq<MarketPrice>): (all: seq<MarketInfo>)
    ensures |all| == |rows|
    ensures forall i :: 0 <= i < |rows| ==> all[i] == InfoOf(rows[i])
  {
    seq(|rows|, i requires 0 <= i < |rows| => InfoOf(rows[i]))
  }

  /** `best_markets`: the first five entries, or all of them when there are fewer. */
  function FirstFive<T>(all: seq<T>): (best: seq<T>)
    ensures |best| == if |all| < 5 then |all| else 5
    ensures forall i :: 0 <= i < |best| ==> best[i] == all[i]
  {
    if |all| < 5 then all else all[..5]
  }

  /** The trend counts of the rows; they add up to the number of rows. */
  function Tally(rows: seq<MarketPrice>): (s: TrendStats)
    ensures s.up == CountTrend(rows, Up) && s.down == CountTrend(rows, Down)
    ensures s.stable == CountTrend(rows, Stable)
    ensures s.up + s.down + s.stable == |rows|
  {
    TrendCountsAddUp(rows);
    var up := CountTrend(rows, Up);
    var down := CountTrend(rows, Down);
    TrendStats(up, down, |rows| - up - down)
  }

  /** The pure part of `get_market_prices` over the rows the query returns
      (newest first, then highest price, at most 20): no rows means no data;
      otherwise the statistics, the trend vote, every row in order with its
      first five as the best markets, and the recommendations. */
  function MarketPrices(commodity: string, rows: seq<MarketPrice>): (r: MarketReport)
    ensures r.NoData? <==> |rows| == 0
    ensures r.commodity == commodity
    ensures r.Report? ==>
              && r.summary == Summarize(rows)
              && r.summary.totalMarkets == MarketCountAsWritten(rows)
              && r.stats == Tally(rows)
              && (r.overall == Up <==> r.stats.up > r.stats.down && 5 * r.stats.up > 2 * |rows|)
              && (r.overall == Down <==> r.stats.down > r.stats.up && 5 * r.stats.down > 2 * |rows|)
              && r.tips == MarketTips(commodity, r.overall, r.summary)
    ensures r.Report? ==> r.all == AllMarkets(rows) && r.best == FirstFive(r.all)
  {
    if |rows| == 0 then NoData(commodity)
    else
      var summary := Summarize(rows);
      var stats := Tally(rows);
      var overall := OverallTrend(stats.up, stats.down, |rows|);
      var all := AllMarkets(rows);
      Report(commodity, summary, overall, stats, FirstFive(all), all,
             MarketTips(commodity, overall, summary))
  }

  // ---------------------------------------------------------------------------
  // `generate_timing_advice`

  /** The urgency argument: "urgent" and "flexible" are recognised; any other
      text behaves as normal. */
  datatype Urgency = Urgent | Normal | Flexible

  function UrgencyOf(s: string): Urgency {
    if s == "urgent" then Urgent else if s == "flexible" then Flexible else Normal
  }

  datatype Action = SellImmediately | WaitFewDays | SellSoon | FlexibleTiming

  /** The reason given with the action. */
  datatype Basis = UrgentNeed | MostlyRising | MostlyFalling | MixedTrends

  /** The suggested timeline. */
  datatype Timeline = Today | TwoToFourDays | OneToTwoDays | TodayOrTomorrow | NextThreeToFiveDays

  datatype Certainty = HighCertainty | MediumCertainty

  /** The percentages of markets rising and falling (`market_trend_summary`). */
  datatype Shares = Shares(upPercent: real, downPercent: real)

  datatype Timing = Timing(action: Action, basis: Basis, timeline: Timeline, certainty: Certainty, shares: Option<Shares>)

  /** A share of the markets exceeds 60% exactly when five times the count
      exceeds three times the total. */
  lemma ShareExceeds(k: nat, total: nat)
    requires total > 0
    ensures (k as real) / (total as real) * 100.0 > 60.0 <==> 5 * k > 3 * total
  {
    var t := total as real;
    var p := (k as real) / t * 100.0;
    assert p * t == (k as real) * 100.0;
    if p > 60.0 {
      assert (p - 60.0) * t > 0.0;
      assert (k as real) * 100.0 > 60.0 * t;
    } else {
      assert (60.0 - p) * t >= 0.0;
      assert (k as real) * 100.0 <= 60.0 * t;
    }
  }

  /** `generate_timing_advice`: urgency "urgent" sells at once with high
      certainty whatever the counts; otherwise more than 60% of markets
      rising means waiting (when flexible) or selling soon, more than 60%
      falling means selling at once, and anything else leaves the timing
      open, all with medium certainty. None stands for the division by a zero
      total, which raises when the urgency is not "urgent". */
  function TimingAdvice(up: nat, down: nat, total: nat, urgency: Urgency): (r: Option<Timing>)
    ensures r.None? <==> urgency != Urgent && total == 0
    ensures urgency == Urgent ==>
              r.Some? && r.value.action == SellImmediately && r.value.certainty == HighCertainty
              && r.value.basis == UrgentNeed && r.value.shares.None?
    ensures urgency != Urgent && total > 0 ==>
              && r.Some?
              && r.value.certainty == MediumCertainty
              && (r.value.action == WaitFewDays <==> urgency == Flexible && 5 * up > 3 * total)
              && (r.value.action == SellSoon <==> urgency == Normal && 5 * up > 3 * total)
              && (r.value.action == SellImmediately <==> 5 * up <= 3 * total && 5 * down > 3 * total)
              && (r.value.action == FlexibleTiming <==> 5 * up <= 3 * total && 5 * down <= 3 * total)
              && r.value.shares.Some?
              && r.value.shares.value.upPercent * (total as real) == (up as real) * 100.0
              && r.value.shares.value.downPercent * (total as real) == (down as real) * 100.0
  {
    if urgency == Urgent then Some(Timing(SellImmediately, UrgentNeed, Today, HighCertainty, None))
    else if total == 0 then None
    else
      var upPercent := (up as real) / (total as real) * 100.0;
      var downPercent := (down as real) / (total as real) * 100.0;
      ShareExceeds(up, total);
      ShareExceeds(down, total);
      var shares := Some(Shares(upPercent, downPercent));
      if upPercent > 60.0 then
        if urgency == Flexible then Some(Timing(WaitFewDays, MostlyRising, TwoToFourDays, MediumCertainty, shares))
        else
          assert urgency == Normal && 5 * up > 3 * total;
          Some(Timing(SellSoon, MostlyRising, OneToTwoDays, MediumCertainty, shares))
      else if downPercent > 60.0 then
        Some(Timing(SellImmediately, MostlyFalling, TodayOrTomorrow, MediumCertainty, shares))
      else Some(Timing(FlexibleTiming, MixedTrends, NextThreeToFiveDays, MediumCertainty, shares))
  }

  /** Over rows that each rise, fall or stay, at most one side can hold more
      than 60%, so the order in which the two tests are made never matters. */
  lemma TimingSidesExclusive(up: nat, down: nat, total: nat)
    requires up + down <= total
    ensures !(5 * up > 3 * total && 5 * down > 3 * total)
  {
  }

  // ---------------------------------------------------------------------------
  // `generate_selling_strategy`

  /** The quality grades with a price multiplier. */
  datatype Grade = HighGrade | MediumGrade | LowGrade

  /** The multiplier lookup: None for a grade the table lacks (the KeyError). */
  function GradeOf(s: string): Option<Grade> {
    if s == "high" then Some(HighGrade)
    else if s == "medium" then Some(MediumGrade)
    else if s == "low" then Some(LowGrade)
    else None
  }

  /** The strategy lines. */
  datatype Strategy =
    | WaitForRise | SellWithoutDelay | SellAtConvenience
    | AskQualityPremium | SellBeforeQualityDrops
    | BestMarketPays(difference: real)
    | ConfirmByPhone | ComeEarlyMorning | MindTransportCost

  /** The three general tips every strategy ends with. */
  const GeneralTips: seq<Strategy> := [ConfirmByPhone, ComeEarlyMorning, MindTransportCost]

  /** More than one offer, and the first pays more than 20 above the last. */
  predicate GapWorthTelling(adjusted: seq<real>) {
    |adjusted| > 1 && adjusted[0] - adjusted[|adjusted| - 1] > 20.0
  }

  /** `generate_selling_strategy` over the adjusted prices of the offers, in
      order: a line for the action, a line for high or low quality (none for
      medium), a line on the gap between the first and the last offer when
      there is more than one offer and the gap exceeds 20, then the general
      tips. The urgency argument is unused by the source. */
  function SellingStrategy(action: Action, grade: Grade, adjusted: seq<real>): (r: seq<Strategy>)
    ensures 4 <= |r| <= 6
    ensures r[0] == WaitForRise <==> action == WaitFewDays
    ensures r[0] == SellWithoutDelay <==> action == SellImmediately
    ensures r[0] == SellAtConvenience <==> action == SellSoon || action == FlexibleTiming
    ensures r[|r| - 3..] == GeneralTips
    ensures AskQualityPremium in r <==> grade == HighGrade
    ensures SellBeforeQualityDrops in r <==> grade == LowGrade
    ensures |r| == 4 + (if grade == MediumGrade then 0 else 1) + (if GapWorthTelling(adjusted) then 1 else 0)
    ensures GapWorthTelling(adjusted) ==>
              r[|r| - 4] == BestMarketPays(adjusted[0] - adjusted[|adjusted| - 1])
    ensures !GapWorthTelling(adjusted) ==> forall i :: 0 <= i < |r| ==> !r[i].BestMarketPays?
  {
    var first := match action
                 case WaitFewDays => WaitForRise
                 case SellImmediately => SellWithoutDelay
                 case _ => SellAtConvenience;
    var quality := match grade
                   case HighGrade => [AskQualityPremium]
                   case LowGrade => [SellBeforeQualityDrops]
                   case MediumGrade => [];
    var gap := if GapWorthTelling(adjusted) then [BestMarketPays(adjusted[0] - adjusted[|adjusted| - 1])] else [];
    [first] + quality + gap + GeneralTips
  }

  // ---------------------------------------------------------------------------
  // `get_selling_advice`

  /** The price multiplier of a quality grade. */
  function Multiplier(g: Grade): real {
    match g
    case HighGrade => 1.15
    case MediumGrade => 1.0
    case LowGrade => 0.85
  }

  /** `if quantity`: an absent quantity and a zero quantity are both false. */
  predicate Given(quantity: Option<real>) {
    quantity.Some? && quantity.value != 0.0
  }

  /** One market offer: the row with its quality-adjusted price and, when a
      quantity is given, the revenue it would bring. */
  datatype Offer = Offer(
    market: string,
    district: string,
    state: string,
    adjustedPrice: real,
    originalPrice: real,
    trend: Trend,
    date: Day,
    potentialRevenue: Option<real>)

  function OfferOf(p: MarketPrice, m: real, quantity: Option<real>): Offer {
    Offer(p.market, p.district, p.state, p.modalPrice * m, p.modalPrice, p.trend, p.arrivalDate,
          if Given(quantity) then Some(p.modalPrice * m * quantity.value) else None)
  }

  /** The offers of the rows, in order. */
  function Offers(rows: seq<MarketPrice>, m: real, quantity: Option<real>): (offers: seq<Offer>)
    ensures |offers| == |rows|
    ensures forall i :: 0 <= i < |rows| ==> offers[i] == OfferOf(rows[i], m, quantity)
  {
    seq(|rows|, i requires 0 <= i < |rows| => OfferOf(rows[i], m, quantity))
  }

  /** The adjusted prices of the offers, in order. */
  function AdjustedPrices(offers: seq<Offer>): (r: seq<real>)
    ensures |r| == |offers|
    ensures forall i :: 0 <= i < |offers| ==> r[i] == offers[i].adjustedPrice
  {
    seq(|offers|, i requires 0 <= i < |offers| => offers[i].adjustedPrice)
  }

  /** The adjusted prices are the modal prices scaled by the multiplier. */
  lemma AdjustedIsScaled(rows: seq<MarketPrice>, m: real, quantity: Option<real>)
    ensures AdjustedPrices(Offers(rows, m, quantity)) == Scale(Prices(rows), m)
  {
    var a, b := AdjustedPrices(Offers(rows, m, quantity)), Scale(Prices(rows), m);
    assert forall i :: 0 <= i < |a| ==> a[i] == b[i];
  }

  datatype Revenue = Revenue(quantity: real, estimated: real, bestCase: real, difference: real)

  datatype Financials = Financials(averageExpected: real, bestPossible: real, adjustmentPercent: real,
                                   revenue: Option<Revenue>)

  datatype SellingAdvice =
    | NoRecentData
    | UnknownGrade
    | Advice(grade: Grade, timing: Timing, financials: Financials,
             offers: seq<Offer>, best: seq<Offer>, strategy: seq<Strategy>)

  /** The financial summary over the adjusted prices of a non-empty list of
      offers: the mean is the expected price, the largest the best possible,
      and the revenue figures appear exactly when a quantity is given. */
  function FinancialsOf(adjusted: seq<real>, g: Grade, quantity: Option<real>): (f: Financials)
    requires |adjusted| > 0
    ensures f.averageExpected == Mean(adjusted)
    ensures forall i :: 0 <= i < |adjusted| ==> adjusted[i] <= f.bestPossible
    ensures exists i :: 0 <= i < |adjusted| && adjusted[i] == f.bestPossible
    ensures f.bestPossible >= f.averageExpected
    ensures f.adjustmentPercent == match g case HighGrade => 15.0 case MediumGrade => 0.0 case LowGrade => -15.0
    ensures f.revenue.Some? <==> Given(quantity)
    ensures f.revenue.Some? ==>
              && f.revenue.value.quantity == quantity.value
              && f.revenue.value.estimated == f.averageExpected * quantity.value
              && f.revenue.value.bestCase == f.bestPossible * quantity.value
              && f.revenue.value.difference == f.revenue.value.bestCase - f.revenue.value.estimated
  {
    MeanWithinExtremes(adjusted);
    var average := Mean(adjusted);
    var best := MaxOf(adjusted);
    Financials(average, best, (Multiplier(g) - 1.0) * 100.0,
               if Given(quantity)
               then Some(Revenue(quantity.value, average * quantity.value, best * quantity.value,
                                 (best - average) * quantity.value))
               else None)
  }

  /** `average_expected_price` for a grade: the mean adjusted price. */
  function ExpectedPrice(rows: seq<MarketPrice>, g: Grade, quantity: Option<real>): real
    requires |rows| > 0
  {
    Mean(AdjustedPrices(Offers(rows, Multiplier(g), quantity)))
  }

  /** The expected price is the mean modal price scaled by the grade's multiplier. */
  lemma ExpectedPriceScales(rows: seq<MarketPrice>, g: Grade, quantity: Option<real>)
    requires |rows| > 0
    ensures ExpectedPrice(rows, g, quantity) == Multiplier(g) * Mean(Prices(rows))
  {
    AdjustedIsScaled(rows, Multiplier(g), quantity);
    MeanScale(Prices(rows), Multiplier(g));
  }

  /** The advice for a non-empty list of rows and a known grade: each offer
      is the row's price scaled by the grade's multiplier, the timing comes
      from the trend counts of the rows, and the strategy from the timing,
      the grade and the adjusted prices. */
  function AdviseWith(rows: seq<MarketPrice>, g: Grade, quantity: Option<real>, urgency: Urgency)
    : (r: SellingAdvice)
    requires |rows| > 0
    ensures r.Advice? && r.grade == g
    ensures |r.offers| == |rows|
    ensures forall i :: 0 <= i < |rows| ==>
              && r.offers[i].adjustedPrice == rows[i].modalPrice * Multiplier(g)
              && (r.offers[i].potentialRevenue.Some? <==> Given(quantity))
    ensures r.best == FirstFive(r.offers)
    ensures r.financials == FinancialsOf(AdjustedPrices(r.offers), g, quantity)
    ensures r.financials.averageExpected == ExpectedPrice(rows, g, quantity)
    ensures Some(r.timing) == TimingAdvice(CountTrend(rows, Up), CountTrend(rows, Down), |rows|, urgency)
    ensures r.strategy == SellingStrategy(r.timing.action, g, AdjustedPrices(r.offers))
  {
    var m := Multiplier(g);
    var offers := Offers(rows, m, quantity);
    var adjusted := AdjustedPrices(offers);
    var financials := FinancialsOf(adjusted, g, quantity);
    var timing := TimingAdvice(CountTrend(rows, Up), CountTrend(rows, Down), |rows|, urgency).value;
    Advice(g, timing, financials, offers, FirstFive(offers), SellingStrategy(timing.action, g, adjusted))
  }

  /** The pure part of `get_selling_advice` over the rows the query returns
      (highest price first, at most 10) and the looked-up grade
      (`GradeOf`): no rows means no data, checked before the grade; a grade
      outside high/medium/low raises (the error status); otherwise the advice. */
  function SellingAdviceFor(rows: seq<MarketPrice>, quantity: Option<real>, grade: Option<Grade>, urgency: Urgency)
    : (r: SellingAdvice)
    ensures r.NoRecentData? <==> |rows| == 0
    ensures r.UnknownGrade? <==> |rows| > 0 && grade.None?
    ensures r.Advice? ==> grade == Some(r.grade) && r == AdviseWith(rows, r.grade, quantity, urgency)
  {
    if |rows| == 0 then NoRecentData
    else if grade.None? then UnknownGrade
    else AdviseWith(rows, grade.value, quantity, urgency)
  }

  /** The expected price under each grade, as a multiple of the mean modal price. */
  lemma GradeMultiples(rows: seq<MarketPrice>, quantity: Option<real>)
    requires |rows| > 0
    ensures ExpectedPrice(rows, HighGrade, quantity) == 1.15 * Mean(Prices(rows))
    ensures ExpectedPrice(rows, MediumGrade, quantity) == Mean(Prices(rows))
    ensures ExpectedPrice(rows, LowGrade, quantity) == 0.85 * Mean(Prices(rows))
  {
    ExpectedPriceScales(rows, HighGrade, quantity);
    ExpectedPriceScales(rows, MediumGrade, quantity);
    ExpectedPriceScales(rows, LowGrade, quantity);
  }

  /** With positive prices a better grade always means a higher expected
      price: high above medium above low. */
  lemma QualityOrdersExpectedPrice(rows: seq<MarketPrice>, quantity: Option<real>)
    requires |rows| > 0
    requires AllPositive(rows)
    ensures ExpectedPrice(rows, LowGrade, quantity) < ExpectedPrice(rows, MediumGrade, quantity)
              < ExpectedPrice(rows, HighGrade, quantity)
  {
    GradeMultiples(rows, quantity);
    MeanPositive(Prices(rows));
  }

  // ---------------------------------------------------------------------------
  // `generate_live_analysis`

  /** The last seven prices, or all of them when there are fewer. */
  function RecentPrices(p: seq<real>): (r: seq<real>)
    ensures |r| == if |p| >= 7 then 7 else |p|
    ensures forall i :: 0 <= i < |r| ==> r[i] == p[|p| - |r| + i]
  {
    if |p| >= 7 then p[|p| - 7..] else p
  }

  /** All but the last seven prices when there are at least fourteen;
      otherwise the first half (the smaller share when the count is odd). */
  function OlderPrices(p: seq<real>): (r: seq<real>)
    ensures |r| == if |p| >= 14 then |p| - 7 else |p| / 2
    ensures forall i :: 0 <= i < |r| ==> r[i] == p[i]
  {
    if |p| >= 14 then p[..|p| - 7] else p[..|p| / 2]
  }

  /** From thirteen prices on, the older and the recent prices split the
      series exactly (at thirteen the first half happens to end where the
      last seven begin); from two to twelve prices they share at least one
      price. */
  lemma OlderAndRecentSplit(p: seq<real>)
    ensures |p| >= 13 ==> OlderPrices(p) + RecentPrices(p) == p
    ensures 2 <= |p| <= 12 ==> |OlderPrices(p)| + |RecentPrices(p)| > |p|
  {
    if |p| >= 14 {
      assert OlderPrices(p) == p[..|p| - 7] && RecentPrices(p) == p[|p| - 7..];
      assert p[..|p| - 7] + p[|p| - 7..] == p;
    } else if |p| == 13 {
      assert OlderPrices(p) == p[..6] && RecentPrices(p) == p[6..];
      assert p[..6] + p[6..] == p;
    }
  }

  /** The trend of the live analysis: up when the recent average exceeds the
      older one by more than 5%, down when it falls short by more than 5%. */
  function LiveTrend(recentAverage: real, olderAverage: real): Trend {
    if recentAverage > olderAverage * 1.05 then Up
    else if recentAverage < olderAverage * 0.95 then Down
    else Stable
  }

  /** Against a positive older average the trend is the ±5% rule on the
      percentage change. */
  lemma LiveTrendByPercent(recentAverage: real, olderAverage: real)
    requires olderAverage > 0.0
    ensures var change := (recentAverage - olderAverage) / olderAverage * 100.0;
            && (LiveTrend(recentAverage, olderAverage) == Up <==> change > 5.0)
            && (LiveTrend(recentAverage, olderAverage) == Down <==> change < -5.0)
  {
    ChangeExceeds(olderAverage, recentAverage, 5.0);
  }

  /** The prediction factor of a trend, applied once for 7 days and twice for 14. */
  function TrendFactor(t: Trend): real {
    match t
    case Up => 1.02
    case Down => 0.98
    case Stable => 1.0
  }

  /** One point of the chart history. */
  datatype LivePoint = LivePoint(date: Day, price: real, market: string)

  /** The recommendation lines of the live analysis. */
  datatype LiveTip =
    | AverageOverDays(days: int, average: real)
    | PriceSpread(highest: real, lowest: real)
    | MarketCondition(trend: Trend)
    | WaitOutSwings
    | RisingTendency
    | FallingSellEarly

  /** The price statistics of the live analysis. */
  datatype LiveStats = LiveStats(average: real, highest: real, lowest: real, volatility: real, totalMarkets: nat)

  /** The recent and the older average, and the trend between them. */
  datatype TrendSplit = TrendSplit(recentAverage: real, historicalAverage: real, trend: Trend)

  datatype Forecast = Forecast(in7Days: real, in14Days: real, confidence: real)

  datatype LiveReport =
    | InsufficientData(records: nat)
    | Live(dataPoints: nat, stats: LiveStats, split: TrendSplit, forecast: Forecast,
           history: seq<LivePoint>, tips: seq<LiveTip>)

  /** Mean, extremes, spread (the square root of the mean squared deviation)
      and the number of markets of a non-empty list of rows. */
  function LiveStatsOf(rows: seq<MarketPrice>, sqrt: real -> real): (s: LiveStats)
    requires |rows| > 0
    ensures s.average == Mean(Prices(rows))
    ensures s.lowest <= s.average <= s.highest
    ensures forall i :: 0 <= i < |rows| ==> s.lowest <= rows[i].modalPrice <= s.highest
    ensures exists i :: 0 <= i < |rows| && rows[i].modalPrice == s.lowest
    ensures exists i :: 0 <= i < |rows| && rows[i].modalPrice == s.highest
    ensures s.volatility == sqrt(Mean(SquaredDeviations(Prices(rows), s.average)))
    ensures s.totalMarkets == MarketCountAsWritten(rows)
    ensures 1 <= s.totalMarkets <= MarketCount(rows)
    ensures DashFreeMarkets(rows) ==> s.totalMarkets == MarketCount(rows)
  {
    var prices := Prices(rows);
    var average := Mean(prices);
    MeanWithinExtremes(prices);
    LabelCountFacts(rows);
    LiveStats(average, MaxOf(prices), MinOf(prices), sqrt(Mean(SquaredDeviations(prices, average))),
              MarketCountAsWritten(rows))
  }

  /** The trend split of five or more prices: the older prices are never
      empty there, so the fallback to the recent average is never taken. */
  function LiveTrendOf(prices: seq<real>): (t: TrendSplit)
    requires |prices| >= 5
    ensures t.recentAverage == Mean(RecentPrices(prices))
    ensures t.historicalAverage == Mean(OlderPrices(prices))
    ensures t.trend == Up <==> t.recentAverage > t.historicalAverage * 1.05
    ensures t.trend == Down <==> t.recentAverage <= t.historicalAverage * 1.05
                                 && t.recentAverage < t.historicalAverage * 0.95
  {
    var recent := RecentPrices(prices);
    var older := OlderPrices(prices);
    var recentAverage := Mean(recent);
    var olderAverage := if |older| > 0 then Mean(older) else recentAverage;
    TrendSplit(recentAverage, olderAverage, LiveTrend(recentAverage, olderAverage))
  }

  /** The simple prediction: the average scaled by the trend factor for 7
      days and by it again for 14, at a fixed confidence of 65. */
  function LiveForecast(average: real, trend: Trend): (f: Forecast)
    ensures f.in7Days == average * TrendFactor(trend)
    ensures f.in14Days == f.in7Days * TrendFactor(trend)
    ensures f.confidence == 65.0
  {
    var factor := TrendFactor(trend);
    Forecast(average * factor, average * (factor * factor), 65.0)
  }

  /** With a positive average the forecast moves with the trend: rising for
      up, falling for down, flat for stable. */
  lemma ForecastFollowsTrend(average: real, trend: Trend)
    requires average > 0.0
    ensures var f := LiveForecast(average, trend);
            && (trend == Up ==> average < f.in7Days < f.in14Days)
            && (trend == Down ==> f.in14Days < f.in7Days < average)
            && (trend == Stable ==> f.in7Days == f.in14Days == average)
  {
    var f := LiveForecast(average, trend);
    if trend == Up {
      assert f.in14Days == f.in7Days * 1.02;
    } else if trend == Down {
      assert f.in14Days == f.in7Days * 0.98;
    }
  }

  /** The chart points of the last fourteen rows. */
  function LiveHistory(rows: seq<MarketPrice>): (h: seq<LivePoint>)
    ensures |h| == if |rows| >= 14 then 14 else |rows|
    ensures forall i :: 0 <= i < |h| ==>
              var p := rows[|rows| - |h| + i];
              h[i] == LivePoint(p.arrivalDate, p.modalPrice, p.market)
  {
    var k := if |rows| >= 14 then 14 else |rows|;
    seq(k, i requires 0 <= i < k => LivePoint(rows[|rows| - k + i].arrivalDate,
                                              rows[|rows| - k + i].modalPrice,
                                              rows[|rows| - k + i].market))
  }

  /** The recommendations: average, spread and condition, then the advice to
      wait out the swings exactly when the volatility exceeds 10% of the
      average, then a line for a rising or a falling trend. */
  function LiveTips(days: int, average: real, highest: real, lowest: real, volatility: real, trend: Trend)
    : (tips: seq<LiveTip>)
    ensures 3 <= |tips| <= 5
    ensures tips[..3] == [AverageOverDays(days, average), PriceSpread(highest, lowest), MarketCondition(trend)]
    ensures WaitOutSwings in tips <==> volatility > average * 0.1
    ensures RisingTendency in tips <==> trend == Up
    ensures FallingSellEarly in tips <==> trend == Down
    ensures |tips| == 3 + (if volatility > average * 0.1 then 1 else 0) + (if trend == Stable then 0 else 1)
  {
    [AverageOverDays(days, average), PriceSpread(highest, lowest), MarketCondition(trend)]
      + (if volatility > average * 0.1 then [WaitOutSwings] else [])
      + (match trend
         case Up => [RisingTendency]
         case Down => [FallingSellEarly]
         case Stable => [])
  }

  /** `generate_live_analysis` over the rows the query returns (oldest
      first), for a window of `days`; `sqrt` stands for `** 0.5`. Fewer than
      five rows is insufficient data; otherwise the statistics, the trend
      split of the modal prices, the forecast from the average and the
      trend, the chart of the last fourteen rows and the recommendations. */
  function LiveAnalysis(rows: seq<MarketPrice>, days: int, sqrt: real -> real): (r: LiveReport)
    ensures r.InsufficientData? <==> |rows| < 5
    ensures r.InsufficientData? ==> r.records == |rows|
    ensures r.Live? ==>
              && r.dataPoints == |rows|
              && r.stats == LiveStatsOf(rows, sqrt)
              && r.split == LiveTrendOf(Prices(rows))
              && r.forecast == LiveForecast(r.stats.average, r.split.trend)
              && r.history == LiveHistory(rows)
              && r.tips == LiveTips(days, r.stats.average, r.stats.highest, r.stats.lowest,
                                    r.stats.volatility, r.split.trend)
  {
    if |rows| < 5 then InsufficientData(|rows|)
    else
      var stats := LiveStatsOf(rows, sqrt);
      var split := LiveTrendOf(Prices(rows));
      Live(|rows|, stats, split, LiveForecast(stats.average, split.trend), LiveHistory(rows),
           LiveTips(days, stats.average, stats.highest, stats.lowest, stats.volatility, split.trend))
  }
}
