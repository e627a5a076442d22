# Project Kisan core, modelled in Dafny

Project Kisan is a farming assistant for Indian farmers. Its agents answer
questions about mandi (wholesale market) prices, weather and crop health,
and can read their answers aloud. This project models the deterministic
logic those agents rely on:

- the mandi price sync: it fetches pages of records from the government price
  API, cleans each record, inserts it into the `market_prices` table or
  updates the committed row with its key, labels
  each row's day-over-day trend, and computes the analytics (half-against-half
  trend direction, a straight-line price prediction with a clamped confidence,
  per-date price history, advice lines);
- the market tools: the price summary with its trend vote, timing advice,
  selling strategy, quality-adjusted financials, and the live analysis used
  when no stored analytics exist;
- the weather service and tools: folding 3-hourly forecast items into days,
  the request size, rule-based farming advice, the 1..10 day guard, and the
  success-only session writes;
- the speech service: rewriting an answer for text-to-speech, cutting long
  answers back to whole sentences, and choosing the voice;
- the crop-health service: extracting the JSON span from a model answer, the
  fixed fallback records, the data-URL payload, and the photo size guard;
- crop-name normalisation;
- the websocket connection registry.

Prices are `real`. An arrival date is an abstract ordered day number. Anything
the code reaches over the network or through a library is a function
parameter: the HTTP replies, `strptime`, `float`, `json.loads`, base64/PIL
decoding, the vision model, the square root, the clock and the sockets.
Python string operations (`strip`, `lower`, `find`, `rfind`, `replace`,
`split`) are modelled in module `Text` with Python's semantics. One module
corresponds to each source component: `MandiRecords`, `MandiFetch`,
`MandiStore`, `MandiAnalytics`, `MarketTools`, `Weather`, `WeatherTools`,
`Voice`, `CropHealth`, `CropNames` and `Connections`. Shared arithmetic over
price sequences is in `Common`.

## Model

| member | source | states |
|---|---|---|
| MandiRecords.NewRow | app/google_adk_integration/services/mandi_db_generation.py:201-205 | A new row sits under the cleaned record's key, and its trend columns start at 0 / 0 / stable |
| MandiRecords.UpdateRow | app/google_adk_integration/services/mandi_db_generation.py:195-200 | An update re-files the row under the record's key, takes its prices, and keeps the computed trend columns |
| MandiRecords.FirstParse | app/google_adk_integration/services/mandi_db_generation.py:226-241 | The date is missing exactly when no format parses it; otherwise it is the result of the first format that parses, and all earlier formats fail |
| MandiRecords.DateFormatOrder | app/google_adk_integration/services/mandi_db_generation.py:226-241 | When format i is the first to parse the text, the arrival date is format i's result: later formats are never consulted |
| MandiRecords.SafeFloatZero | app/google_adk_integration/services/mandi_db_generation.py:282-289 | A field reads as 0 exactly when it is missing, null, empty, unparseable or zero; otherwise it reads as the parsed value |
| MandiRecords.Clean | app/google_adk_integration/services/mandi_db_generation.py:222-280 | An accepted record has min ≤ modal ≤ max, a positive modal price, is active, and carries the parsed arrival date and the raw modal price |
| MandiRecords.CleanAcceptsExactly | app/google_adk_integration/services/mandi_db_generation.py:226-262 | A record is accepted iff its date parses in one of the five formats, state/district/market/commodity are non-blank strings, the modal price is positive, and variety/grade are missing or strings |
| MandiRecords.CleanFields | app/google_adk_integration/services/mandi_db_generation.py:249-276 | On acceptance the text columns are the stripped inputs, blank variety/grade become None, and min/max equal the raw values whenever those already lie on the correct side of modal |
| MandiFetch.FetchFrom | app/google_adk_integration/services/mandi_db_generation.py:128-170 | At most one request per answer, and at least one when an answer exists |
| MandiFetch.FetchCollects | app/google_adk_integration/services/mandi_db_generation.py:143-162 | The fetch returns exactly the records of the pages received, in order, with nothing dropped or repeated |
| MandiFetch.FetchOffsets | app/google_adk_integration/services/mandi_db_generation.py:132-162 | Each request's offset is 1000 times the number of pages received before it: a retry repeats the offset |
| MandiFetch.FetchStops | app/google_adk_integration/services/mandi_db_generation.py:150-168 | The fetch continues only after a full page or a failure with attempts left; it reports an empty page iff the last page was empty, and a short page iff the last page held 1..999 records |
| MandiFetch.FetchForDateGivesUp | app/google_adk_integration/services/mandi_db_generation.py:162-168 | A fetch gives up only after three failed requests in a row |
| MandiStore.FindCommitted | app/google_adk_integration/services/mandi_db_generation.py:185-193 | The existence query answers with the earliest committed row carrying the key, and with nothing exactly when no committed row carries it |
| MandiStore.WriteSpec | app/google_adk_integration/services/mandi_db_generation.py:185-205 | An accepted record is counted once, as inserted exactly when no committed row has its key, even when a pending insert has it; its key joins the table; rows already there keep their place, key and trend columns, and only rows with its key change |
| MandiStore.Step | app/google_adk_integration/services/mandi_db_generation.py:176-209 | A rejected record is only counted as skipped; an accepted one is written, and the table is committed exactly when inserted + updated reaches a multiple of 50 |
| MandiStore.RunCounts | app/google_adk_integration/services/mandi_db_generation.py:174-214 | inserted + updated + skipped equals the number of records, skipped equals the number cleaning rejects, and the table grows by one row per insert |
| MandiStore.RunKeySet | app/google_adk_integration/services/mandi_db_generation.py:185-205 | The table's keys are the stored keys plus the keys of the accepted records |
| MandiStore.RunKeepsRows | app/google_adk_integration/services/mandi_db_generation.py:185-205 | The stored rows keep their place, key and trend columns, and a stored row no accepted record names is left exactly as it was |
| MandiStore.SameKeyTwiceInsertsTwice | app/google_adk_integration/services/mandi_db_generation.py:185-209 | Two accepted records with the same new key in one commit window are both inserted: Stats(2, 0, 0) and two rows with that key |
| MandiStore.ProcessAndStore | app/google_adk_integration/services/mandi_db_generation.py:172-220 | The loop as it runs: the counters add up and skipped is the rejected count; the table is the stored rows, updated in place, followed by one row per insert; its keys are the stored plus the accepted keys; stored rows keep their trend columns, and unnamed ones are untouched |
| MandiStore.UpsertAllInserts | app/google_adk_integration/services/mandi_db_generation.py:185-205 | Intended behaviour (see Findings): with one row per key, the number inserted is the number of distinct accepted keys not already stored |
| MandiStore.SameKeyTwiceUpserts | app/google_adk_integration/services/mandi_db_generation.py:185-205 | Intended behaviour (see Findings): the second of two records with one new key updates the first one's row, Stats(1, 1, 0) |
| MandiStore.UpsertBatch | app/google_adk_integration/services/mandi_db_generation.py:172-220 | Intended behaviour (see Findings): the counters add up, inserts are the new distinct keys, the table holds the stored plus accepted keys, unnamed rows and all trend columns are kept, and rows stay under their own key |
| MandiAnalytics.DailyTrendByPrices | app/google_adk_integration/services/mandi_db_generation.py:321-331 | Against a positive previous price the daily trend is up iff the price rose more than 2%, down iff it fell more than 2%, else stable |
| MandiAnalytics.WithDailyTrend | app/google_adk_integration/services/mandi_db_generation.py:321-336 | Only the three trend columns change: the change is current − previous, the percentage is that change per 100 of the previous price, and the trend is up/down exactly by the ±2% rule |
| MandiAnalytics.CalculateCommodityTrends | app/google_adk_integration/services/mandi_db_generation.py:310-338 | Each row with an older neighbour priced above 0 gets its trend from that neighbour; the oldest row and rows after a non-positive price are unchanged; fewer than two rows changes nothing; `processed` counts the rows updated |
| MandiAnalytics.CountComparableIsSize | app/google_adk_integration/services/mandi_db_generation.py:314-338 | `processed` is the number of rows whose next-older row has a positive price |
| MandiAnalytics.CountComparableBound | app/google_adk_integration/services/mandi_db_generation.py:314-338 | Fewer rows are processed than there are rows, since the oldest is never compared; with all prices positive every other row is processed |
| MandiAnalytics.SortByDate | app/google_adk_integration/services/mandi_db_generation.py:448 | Sorting by date yields a date-ordered permutation of the rows |
| MandiAnalytics.SortByDateStable | app/google_adk_integration/services/mandi_db_generation.py:448 | The sort is stable: for every date, the rows of that date come out in their input order |
| MandiAnalytics.SortSortedIsIdentity | app/google_adk_integration/services/mandi_db_generation.py:448 | Rows already in date order are left as they are |
| MandiAnalytics.HalvesSplit | app/google_adk_integration/services/mandi_db_generation.py:451-453 | From two rows on, both halves are non-empty, together they are the rows, and every early row is dated no later than every late row |
| MandiAnalytics.TrendDirection | app/google_adk_integration/services/mandi_db_generation.py:442-462 | Fewer than two rows are stable; the direction is undefined (the ZeroDivisionError) exactly when the earlier half's mean is 0 |
| MandiAnalytics.TrendDirectionByHalves | app/google_adk_integration/services/mandi_db_generation.py:450-462 | With positive prices the direction is up iff the later half's mean is more than 5% above the earlier half's, and down iff it is more than 5% below |
| MandiAnalytics.DailyChangesTelescope | app/google_adk_integration/services/mandi_db_generation.py:480-484 | The day-over-day changes sum to last price minus first |
| MandiAnalytics.PredictPrices | app/google_adk_integration/services/mandi_db_generation.py:464-501 | Fewer than three rows predict their mean twice with confidence 50; from three rows on the confidence lies in [40, 85]; the prediction is undefined only for no rows or a zero recent mean |
| MandiAnalytics.PredictionExtrapolates | app/google_adk_integration/services/mandi_db_generation.py:478-488 | The prediction continues the straight line from the first to the last recent price, 7 and 14 steps on, so the 14-day move is twice the 7-day move |
| MandiAnalytics.PredictPricesPositive | app/google_adk_integration/services/mandi_db_generation.py:470-493 | With positive prices and a non-negative square root, three or more rows always give a prediction, and its confidence is at most 80 |
| MandiAnalytics.DistinctDates | app/google_adk_integration/services/mandi_db_generation.py:505-515 | The grouped dates are strictly ascending and are exactly the dates that occur in the rows |
| MandiAnalytics.PricesOnCount | app/google_adk_integration/services/mandi_db_generation.py:507-511 | The prices grouped under a date are as many as the rows with that date |
| MandiAnalytics.PriceHistorySpec | app/google_adk_integration/services/mandi_db_generation.py:503-524 | The history has at most 14 entries, with strictly ascending dates; these are the latest distinct dates, and each entry is built from its own date's rows |
| MandiAnalytics.EntryForSpec | app/google_adk_integration/services/mandi_db_generation.py:516-522 | An entry's `records` is the number of rows on its date (at least one), and its price is their mean |
| MandiAnalytics.PriceHistoryKeepsLatest | app/google_adk_integration/services/mandi_db_generation.py:515 | A date of the data is missing from the history only when the history is full (14 entries) and the date is older than all of them |
| MandiAnalytics.Recommendations | app/google_adk_integration/services/mandi_db_generation.py:526-553 | The three lines written for the trend, in the source's fixed order, plus the volatility line iff volatility exceeds 15% of the average price |
| MarketTools.Markets | app/google_adk_integration/tools/market_tools.py:149 | The markets of the rows are exactly the (market, district) pairs that occur |
| MarketTools.MarketCountSeparates | app/google_adk_integration/tools/market_tools.py:149 | Two rows count as one market iff they share market and district |
| MarketTools.MarketCountBounds | app/google_adk_integration/tools/market_tools.py:149 | There are no more markets than rows, and at least one when there are rows |
| MarketTools.LabelSeparates | app/google_adk_integration/tools/market_tools.py:149 | When neither market name contains '-', equal labels mean the same market and district |
| MarketTools.LabelCountFacts | app/google_adk_integration/tools/market_tools.py:149 | The label count is at least one for rows, never exceeds the number of (market, district) pairs, and equals it when no market name contains '-' |
| MarketTools.TrendCountsAddUp | app/google_adk_integration/tools/market_tools.py:108-109 | The up, down and stable counts add up to the number of rows, so `stable_markets` is the stable count |
| MarketTools.OverallTrend | app/google_adk_integration/tools/market_tools.py:111-115 | The overall trend is up iff rising rows outnumber falling ones and are more than 40% of rows; down symmetrically; stable otherwise |
| MarketTools.OverallTrendMirrors | app/google_adk_integration/tools/market_tools.py:111-115 | Swapping the up and down counts swaps up and down in the verdict |
| MarketTools.Summarize | app/google_adk_integration/tools/market_tools.py:76-149 | lowest ≤ average ≤ highest; every price lies between lowest and highest, and the lowest occurs among the rows; the average is the mean; range = highest − lowest; the market count is the number of distinct labels, between 1 and the number of pairs, and equal to it without '-' in market names |
| MarketTools.MarketTips | app/google_adk_integration/tools/market_tools.py:117-137 | Two lines for the trend, plus the choose-a-better-market line iff the range exceeds 30% of the average |
| MarketTools.FirstFive | app/google_adk_integration/tools/market_tools.py:159 | `best_markets` is the first five entries, or all of them when there are fewer |
| MarketTools.MarketPrices | app/google_adk_integration/tools/market_tools.py:14-170 | No rows means no data; otherwise the report carries the statistics with the label count of markets, the trend counts and the vote, every row in order with the first five as the best markets, and the recommendations |
| MarketTools.TimingAdvice | app/google_adk_integration/tools/market_tools.py:532-566 | Urgent means sell immediately with high confidence whatever the counts; otherwise more than 60% rising means wait (if flexible) or sell soon, else more than 60% falling means sell immediately, else flexible timing, all with medium confidence; a zero total with any other urgency is the division error |
| MarketTools.TimingSidesExclusive | app/google_adk_integration/tools/market_tools.py:547-551 | Rising and falling rows cannot both exceed 60% |
| MarketTools.SellingStrategy | app/google_adk_integration/tools/market_tools.py:569-601 | The first line is fixed by the action; a high or low grade adds its own line and medium adds none; the price-gap line appears iff there is more than one offer and the first pays over 20 more than the last; the three general tips always end the list, so it holds 4 to 6 lines |
| MarketTools.AdjustedIsScaled | app/google_adk_integration/tools/market_tools.py:329-340 | Each adjusted price is the modal price times the grade's multiplier |
| MarketTools.FinancialsOf | app/google_adk_integration/tools/market_tools.py:348-364 | The expected price is the mean adjusted price, and the best price is the largest and is at least the expected one; the adjustment is +15/0/−15%; revenue figures appear iff a non-zero quantity is given |
| MarketTools.GradeMultiples | app/google_adk_integration/tools/market_tools.py:325 | The expected price is 1.15, 1.0 or 0.85 times the mean modal price for a high, medium or low grade |
| MarketTools.QualityOrdersExpectedPrice | app/google_adk_integration/tools/market_tools.py:325-349 | With positive prices a better grade always gives a higher expected price |
| MarketTools.SellingAdviceFor | app/google_adk_integration/tools/market_tools.py:280-414 | No recent rows means no data; a grade outside high/medium/low is the error result; otherwise the advice combines the offers, the timing over the row trends, the financials and the strategy |
| MarketTools.OlderAndRecentSplit | app/google_adk_integration/tools/market_tools.py:451-452 | From 13 prices on, the older and the recent prices split the series exactly; below that they overlap |
| MarketTools.LiveTrendByPercent | app/google_adk_integration/tools/market_tools.py:457-461 | The live trend is up iff the recent average is more than 5% above the older average, and down iff it is more than 5% below |
| MarketTools.LiveTrendOf | app/google_adk_integration/tools/market_tools.py:451-461 | From five prices on, the averages are those of the last seven prices and of the older ones (never the fallback), with the ±5% rule between them |
| MarketTools.ForecastFollowsTrend | app/google_adk_integration/tools/market_tools.py:473-480 | With a positive average the 7- and 14-day forecasts rise step by step for up, fall for down, and stay at the average for stable |
| MarketTools.LiveHistory | app/google_adk_integration/tools/market_tools.py:464-470 | The chart holds the last 14 rows, or all of them, in order |
| MarketTools.LiveTips | app/google_adk_integration/tools/market_tools.py:482-495 | Three fixed lines, plus wait-out-the-swings iff volatility exceeds 10% of the average, plus one line for a rising or falling trend |
| MarketTools.LiveStatsOf | app/google_adk_integration/tools/market_tools.py:441-510 | The average is the mean, lowest and highest bound every price and occur among the rows, the volatility is the square root of the mean squared deviation, and the market count is the number of distinct labels, between 1 and the number of pairs, and equal to it without '-' in market names |
| MarketTools.LiveAnalysis | app/google_adk_integration/tools/market_tools.py:421-529 | Fewer than five rows is insufficient data; otherwise the report carries the statistics (with the label count of markets), the trend split, the forecast, the 14-row chart and the tips |
| Weather.RequestCount | app/google_adk_integration/services/weather_service.py:46 | The request asks for eight intervals per day, and never more than 40 |
| Weather.FirstWord | app/google_adk_integration/services/weather_service.py:94 | The date key is the first whitespace-free word; blank text has none, which is the IndexError |
| Weather.GroupCount | app/google_adk_integration/services/weather_service.py:93-116 | There is one daily record per run of consecutive items that share a date |
| Weather.GroupDatesChange | app/google_adk_integration/services/weather_service.py:96-100 | Consecutive daily records have different dates |
| Weather.GroupCovers | app/google_adk_integration/services/weather_service.py:101-113 | Every item lands in the record of its run: the record has its date, and its max/min temperature and rain chance bound the item's |
| Weather.GroupFirsts | app/google_adk_integration/services/weather_service.py:101-109 | Humidity, condition and wind of a record are those of its run's first item |
| Weather.GroupAttains | app/google_adk_integration/services/weather_service.py:111-113 | A record's max and min temperature and rain chance are attained by items of its own run |
| Weather.FarmingAdvice | app/google_adk_integration/services/weather_service.py:128-145 | A rule is in the advice iff it fires, and the rules appear in their fixed order |
| Weather.ForecastAdvice | app/google_adk_integration/services/weather_service.py:147-161 | A non-empty forecast gives at most one rain line (≥ 3 rainy days or none) and at most one temperature line (mean max above 30 or below 15); an empty forecast is the division error |
| Weather.ShortForecastNeverManyRainy | app/google_adk_integration/services/weather_service.py:148-153 | A forecast of one or two days never warns of many rainy days |
| Weather.PrefixSlice | app/google_adk_integration/services/weather_service.py:121 | `forecasts[:days]` is a prefix of length min(days, n), with a negative count taken from the end |
| Weather.FormatForecast | app/google_adk_integration/services/weather_service.py:87-126 | The forecast is the prefix of the daily records, at most `days` long and never empty, and the advice is computed on that same prefix; an undated item or an empty prefix is the format error |
| Weather.GetForecast | app/google_adk_integration/services/weather_service.py:38-58 | A failed request is the fetch error; otherwise the body is formatted |
| Weather.FormatCurrent | app/google_adk_integration/services/weather_service.py:60-85 | An empty `weather` list is the format error; otherwise the temperature and felt temperature are rounded to whole degrees as `round(x)` does, the first entry gives the condition, a missing wind direction reads as 0, and the advice is exactly the rules that fire on the unrounded temperature |
| Weather.RoundHalfEven | app/google_adk_integration/services/weather_service.py:62 | The result is an integer within one half of the value, and it is even when the value lies exactly halfway |
| Weather.RoundHalfEvenUnique | app/google_adk_integration/services/weather_service.py:62 | Those two properties determine the result: any integer that has them is the rounded value |
| Weather.GetCurrent | app/google_adk_integration/services/weather_service.py:17-36 | A failed request is the fetch error; a response is formatted, so the result is current weather exactly when a response with a condition came back |
| WeatherTools.GetWeatherForecast | app/google_adk_integration/tools/weather_tools.py:14-40 | Outside 1..10 days the answer is the range error and the state is untouched; otherwise the service's answer is returned unchanged; the state is written only on success and only when a context exists |
| WeatherTools.OutOfRangeIgnoresService | app/google_adk_integration/tools/weather_tools.py:30-31 | Out of range, the service is not consulted: any two services give the same outcome |
| WeatherTools.GetCurrentWeather | app/google_adk_integration/tools/weather_tools.py:43-64 | The service's answer is returned unchanged; the location and the answer are written to the state only on success |
| Voice.DropMarkdown | app/google_adk_integration/services/elevenlabs_voice_service.py:212-213 | No '*', '#' or '`' remains |
| Voice.SpellMoney | app/google_adk_integration/services/elevenlabs_voice_service.py:216-217 | No '₹' or '%' remains, and no markdown character is brought back |
| Voice.SpellUnits | app/google_adk_integration/services/elevenlabs_voice_service.py:219-220 | No '&' and no "km" remain, and no removed character is brought back |
| Voice.RewriteSymbols | app/google_adk_integration/services/elevenlabs_voice_service.py:211-220 | The rewritten text contains none of '*', '#', '`', '₹', '%', '&' and no "km" |
| Voice.AddMarkers | app/google_adk_integration/services/elevenlabs_voice_service.py:223-228 | Answers other than crop health and market get no markers |
| Voice.MarkersKeepSpoken | app/google_adk_integration/services/elevenlabs_voice_service.py:223-228 | The markers bring back none of the removed characters and no "km" |
| Voice.Truncate | app/google_adk_integration/services/elevenlabs_voice_service.py:231-240 | Text of at most 1000 characters is kept whole; longer text comes out at most 950 characters plus the suffix |
| Voice.TruncateKeepsWholeSentences | app/google_adk_integration/services/elevenlabs_voice_service.py:231-240 | Long text keeps a prefix of at most 950 characters that ends at a '।' (or is empty), with no further '।' before position 950, followed by the fixed suffix |
| Voice.OptimizeForSpeech | app/google_adk_integration/services/elevenlabs_voice_service.py:208-246 | The spoken text contains none of '*', '#', '`', '₹', '%', '&' and no "km", and is no longer than the rewritten, marked text |
| Voice.OnlyTwoKindsMarked | app/google_adk_integration/services/elevenlabs_voice_service.py:223-228 | Every kind other than crop health and market is optimised as a general answer is |
| Voice.ShortTextKept | app/google_adk_integration/services/elevenlabs_voice_service.py:231-242 | When the rewritten, marked text is at most 1000 characters, the result is that text stripped |
| Voice.SelectVoice | app/google_adk_integration/services/elevenlabs_voice_service.py:20-25 | The id is always one of the four configured voices; a Hindi language gives the Hindi female voice iff the type's last `_` word is "female", else the Hindi male voice; other languages use the type's voice or fall back to the English male voice |
| Voice.VoiceTypeFor | app/google_adk_integration/services/elevenlabs_voice_service.py:179-186 | Weather answers take the female voice type, and every other kind the male one |
| Voice.FarmingVoice | app/google_adk_integration/services/elevenlabs_voice_service.py:179-192 | In every language, weather answers are read by the Hindi female voice and all others by the Hindi male voice |
| Voice.TextToSpeech | app/google_adk_integration/services/elevenlabs_voice_service.py:35-103 | With no API key nothing is requested; a non-200 reply is an error carrying its status; a 200 reply with a key is success, carrying the selected voice, the text and the reply's audio |
| Voice.SpeakFarmingAnswer | app/google_adk_integration/services/elevenlabs_voice_service.py:160-199 | The speech is the request for the optimised text in the voice type its kind calls for (Hindi female for weather, male otherwise); the response type and the optimised text are added exactly on success |
| CropHealth.JsonSpan | app/google_adk_integration/services/crop_health_service.py:354-357 | A span exists iff there is a '{' with a '}' after it; it then runs from the first '{' to the last '}' inclusive |
| CropHealth.ParseAnalysis | app/google_adk_integration/services/crop_health_service.py:350-363 | The JSON reading is used iff a span exists and decodes; otherwise the fallback record for the text is used |
| CropHealth.NoBraceFallsBack | app/google_adk_integration/services/crop_health_service.py:354-363 | An answer with no '{' always falls back to the text record |
| CropHealth.TextAnalysis | app/google_adk_integration/services/crop_health_service.py:380-419 | The analysis fallback always has confidence 75 and severity "medium", and keeps the full answer |
| CropHealth.TextAnalysisKeepsOnlyText | app/google_adk_integration/services/crop_health_service.py:380-419 | Two answers give the same fallback record iff they are the same answer |
| CropHealth.ParseTreatment | app/google_adk_integration/services/crop_health_service.py:365-378 | The JSON reading is used iff a span exists and decodes; otherwise the treatment fallback for the text and the disease is used |
| CropHealth.ParsersAgree | app/google_adk_integration/services/crop_health_service.py:350-378 | The analysis and treatment parsers take the JSON path on exactly the same answers |
| CropHealth.TextTreatment | app/google_adk_integration/services/crop_health_service.py:421-474 | The treatment fallback names the disease in English, prefixes it in Hindi, and keeps the full answer |
| CropHealth.TreatmentNameRecoverable | app/google_adk_integration/services/crop_health_service.py:425-426 | The disease name can be read back from the Hindi name |
| CropHealth.Payload | app/google_adk_integration/services/crop_health_service.py:67-68 | Without a comma the image string is used whole; with one, the payload is the comma-free run after the first comma |
| CropHealth.PayloadIsDataPart | app/google_adk_integration/services/crop_health_service.py:67-68 | For a data URL whose data part has no comma, the payload is the whole data part |
| CropHealth.AnalyzeCropImage | app/google_adk_integration/services/crop_health_service.py:40-122 | No model is the first error; an unreadable image is the image error; a photo under 100 px on either side is refused iff the model exists and the image decodes; for an image of at least 100×100, no answer is the AI error and an answer is success, carrying the answer parsed |
| CropHealth.ModelCheckedFirst | app/google_adk_integration/services/crop_health_service.py:58-62 | Without a model the photo is never looked at: any two images give the same result |
| CropHealth.TreatmentRecommendations | app/google_adk_integration/services/crop_health_service.py:124-186 | No model is the first error; a failing model call is the AI error; an answer is success, carrying it parsed with the disease name |
| CropNames.VariationsShape | app/google_adk_integration/utils/helpers.py:31-43 | Every table value is a non-empty lower-case ASCII word and is not itself a key |
| CropNames.RiceSynonyms | app/google_adk_integration/utils/helpers.py:33-34 | Both Hindi words for rice map to "rice" |
| CropNames.NormalizeCropName | app/google_adk_integration/utils/helpers.py:22-45 | A missing or empty name gives ""; otherwise the lower-cased, stripped name is replaced by its table entry when it has one |
| CropNames.NormalizeIdempotent | app/google_adk_integration/utils/helpers.py:28-45 | Normalising a normalised name changes nothing |
| Connections.Empty | app/websocket_conn.py:9-11 | The registry starts empty with both maps in step |
| Connections.Connect | app/websocket_conn.py:13-22 | The id holds the socket and a fresh session record (count 0, no preferences, no location, both times the one clock reading `now`), replacing any earlier entry; every other entry is unchanged; the maps stay in step |
| Connections.Disconnect | app/websocket_conn.py:25-29 | The id leaves both maps; every other entry is unchanged; an unknown id changes nothing; the maps stay in step |
| Connections.ConnectThenDisconnect | app/websocket_conn.py:13-29 | Connecting and then disconnecting an id leaves what disconnecting alone leaves |
| Connections.DisconnectIdempotent | app/websocket_conn.py:25-29 | Disconnecting twice is disconnecting once |
| Connections.SendMessage | app/websocket_conn.py:32-39 | With no socket for the id nothing is sent and nothing changes; otherwise the message goes to the id's socket and only that session's last activity can change |
| Connections.KindTagsDistinct | app/websocket_conn.py:44-75 | The four message tags are pairwise different |
| Connections.TypedMessage | app/websocket_conn.py:41-81 | A typed message carries its kind's tag, the session id, the response (empty by default) and the time |
| Connections.DefaultsFilled | app/websocket_conn.py:45-78 | An absent response becomes empty text, and an absent spoilage urgency becomes "medium" |
| Connections.SendTyped | app/websocket_conn.py:41-81 | A typed send hands exactly one message to the socket iff the id is connected, tagged with its kind and the session id, and changes the registry as the plain send does |

## Left out

- Database queries: the SQL filters (`ilike`, date windows from `datetime.now()`, `is_active`), their ordering and `limit` are not modelled; each operation takes the rows the query would return, in the query's order.
- `_generate_market_analytics` is not modelled as a whole; its parts (trend direction, prediction, history, recommendations and the market count) are. Its per-commodity loop, the 30- and 7-day windows and the analytics upsert are database plumbing.
- `sync_market_data` and its wrappers (`sync_today_data`, `sync_week_data`, `force_full_sync`) are left out: they only sequence the modelled steps with the database and the clock.
- `get_price_analysis` in `market_tools.py` is left out: it reads the stored analytics row and formats it, with no decision logic beyond what `LiveAnalysis` models.
- Session-state writes in the market tools (`tool_context.state[...]`) are left out: they are plain stores with no condition beyond the status.
- HTTP, JSON, base64, PIL, `strptime` and `float`: each is a function parameter, as are the vision model's answer, the speech API's reply and the square root (`** 0.5`).
- Exceptions are modelled where the code catches them and answers differently: a rejected record, the division errors, a failed request, an unreadable image. Other failures of library calls are not modelled.
- `round(x, 2)` and `round(x, 1)` are modelled as the identity. Every contract is stated on the unrounded values. The whole-degree `round(x)` of the current weather is modelled (`Weather.RoundHalfEven`), on exact reals rather than on binary floating point.
- Retry timing in `_fetch_api_data_for_date` (`asyncio.sleep`, timeouts) is left out. The API's answers are a finite sequence, so the model has one more stop reason (`AnswersExhausted`) than the code, which keeps asking.
- `get_forecast` with more than five days: the request is capped at 40 intervals, so days beyond the fifth have no items. The model states the cap and the prefix and does not model the API's reply.
- `get_service_status`, `get_available_voices`, the prompt builders `_create_analysis_prompt` / `_create_treatment_prompt` and the voice settings are left out: they are constant data or prompt text.
- Connections.Connect and Connections.SendTyped: the source reads `datetime.now()` separately for `connected_at` and `last_activity`, and for a message's time stamp and the activity update after the send; the model uses one reading `now` for each pair, so the two times are equal in the model and may differ by microseconds in the source.
- The websocket `accept`, `json.dumps` and the `print` in `send_message`'s handler are left out. A failing socket write is modelled by the `writes` flag, which tells whether the write (and so the activity update) happened.
- `Text.Lower` lower-cases ASCII letters only; Python's `str.lower` also folds other scripts. Devanagari has no case, so the crop-name table is unaffected.
- Voice.OptimizeForSpeech: the exception path that returns the original text is not modelled, because the string operations it wraps cannot raise on a `str`.
- Voice.TextToSpeech: an exception raised by the HTTP call (caught inside `text_to_speech`) is not modelled; `post` always answers with a status. Voice.SpeakFarmingAnswer inherits this.
- MarketTools.SellingStrategy: the `urgency` argument of `generate_selling_strategy` is unused in the source, so the model omits it.
- MarketTools.Summarize: the highest price is stated only as the maximum of 0 and the prices, because the code starts it from 0. With non-positive prices it need not be attained.
- MandiStore.FindCommitted: `.first()` has no `ORDER BY`, so the database may return any matching row; when committed rows share a key the model takes the earliest inserted.
- Database errors inside `_process_and_store_data` (counted as skipped by its `except`) are not modelled; only the rejections of cleaning are. The table is a sequence of rows, and the model has no unique constraint, like `models.py`.
- The fixed prose of the crop-health fallback records (symptom, action and next-step lists, regional context, risk fields beyond those kept, the treatment schedule, the follow-up plan, and the product fields other than the names) is left out: it is constant text that no branch reads. The records keep the names, the confidence and severity, the disease name and the full answer.
- MarketTools.LiveStatsOf: volatility is stated through the abstract square root; nothing is assumed about that function.
- MandiAnalytics.PredictPrices: the confidence bounds hold for any square root; the sharper bound of 80 needs positive prices and a non-negative square root (`PredictPricesPositive`).

## Findings

| source | as written | input that shows it | evidently intended | confidence | as-written member | corrected member |
|---|---|---|---|---|---|---|
| app/google_adk_integration/services/mandi_db_generation.py:185-209 (session created with `autoflush=False` at mandi_db/database.py:26) | the existence query sees only committed rows, and commits happen after every 50 writes | two varieties of one commodity in one market on one date, both accepted in the same window, with no stored row of that key: both are inserted (2 inserted, 0 updated, two rows with one key) | the second record updates the row the first inserted (1 inserted, 1 updated, one row per key) | medium, not executed | MandiStore.SameKeyTwiceInsertsTwice | MandiStore.SameKeyTwiceUpserts |
| app/google_adk_integration/tools/market_tools.py:149 (also market_tools.py:510 and services/mandi_db_generation.py:412) | `total_markets` counts the distinct strings `f"{market}-{district}"` | market "A-B" in district "C", and market "A" in district "B-C": both give the label "A-B-C", so two markets are counted as one | count the distinct (market, district) pairs | medium, not executed | MarketTools.MarketLabelCollides | MarketTools.MarketCountSeparates |
