/** The weather tools the agent calls: a range guard on the number of
    forecast days, a call to the weather service, and a write of a successful
    result into the session state when a session context is given. The service
    is a parameter, so that what the tools do with its answer can be stated for
    every possible answer. */
module WeatherTools {
  import opened Common
  import opened Weather

  /** What the session state can hold under the keys the tools write. */
  datatype StateValue =
    | LocationValue(location: string)
    | ForecastValue(forecast: ForecastResult)
    | CurrentValue(current: CurrentResult)

  type State = map<string, StateValue>

  const LocationKey: string := "last_weather_location"
  const ForecastKey: string := "last_weather_forecast"
  const CurrentKey: string := "last_current_weather"

  /** A tool's answer, and the session state after it (None without a context). */
  datatype Outcome<T> = Outcome(result: T, state: Option<State>)

  /** The forecast range the tool accepts. */
  predicate DaysInRange(days: int) {
    1 <= days <= 10
  }

  /** The state after a successful call: the two keys hold the location and
      the result, every other key is as it was. */
  ghost predicate Recorded(before: State, after: State, location: string, key: string, value: StateValue)
    requires key != LocationKey
  {
    && (forall k :: k in after <==> k in before || k == LocationKey || k == key)
    && LocationKey in after && after[LocationKey] == LocationValue(location)
    && key in after && after[key] == value
    && (forall k :: k in before && k != LocationKey && k != key ==> after[k] == before[k])
  }

  /** `get_weather_forecast`: a day count outside 1..10 is refused before the
      service is asked; otherwise the service's answer is returned as it is,
      and recorded in the state only when it is a success. */
  function GetWeatherForecast(location: string, days: int, service: (string, int) -> ForecastResult,
                              ctx: Option<State>): (r: Outcome<ForecastResult>)
    ensures !DaysInRange(days) ==> r.result == ForecastError(DaysOutOfRange) && r.state == ctx
    ensures DaysInRange(days) ==> r.result == service(location, days)
    ensures ctx.None? <==> r.state.None?
    ensures ctx.Some? && r.result.ForecastOk? ==>
              Recorded(ctx.value, r.state.value, location, ForecastKey, ForecastValue(r.result))
    ensures ctx.Some? && !r.result.ForecastOk? ==> r.state == ctx
  {
    if !DaysInRange(days) then Outcome(ForecastError(DaysOutOfRange), ctx)
    else
      var answer := service(location, days);
      if ctx.Some? && answer.ForecastOk? then
        Outcome(answer, Some(ctx.value[LocationKey := LocationValue(location)][ForecastKey := ForecastValue(answer)]))
      else Outcome(answer, ctx)
  }

  /** Out of range, what the service would have said makes no difference. */
  lemma OutOfRangeIgnoresService(location: string, days: int, s1: (string, int) -> ForecastResult,
                                 s2: (string, int) -> ForecastResult, ctx: Option<State>)
    requires !DaysInRange(days)
    ensures GetWeatherForecast(location, days, s1, ctx) == GetWeatherForecast(location, days, s2, ctx)
  {
  }

  /** `get_current_weather`: the service's answer is returned as it is, and
      recorded in the state only when it is a success. */
  function GetCurrentWeather(location: string, service: string -> CurrentResult, ctx: Option<State>)
    : (r: Outcome<CurrentResult>)
    ensures r.result == service(location)
    ensures ctx.None? <==> r.state.None?
    ensures ctx.Some? && r.result.CurrentOk? ==>
              Recorded(ctx.value, r.state.value, location, CurrentKey, CurrentValue(r.result))
    ensures ctx.Some? && !r.result.CurrentOk? ==> r.state == ctx
  {
    var answer := service(location);
    if ctx.Some? && answer.CurrentOk? then
      Outcome(answer, Some(ctx.value[LocationKey := LocationValue(location)][CurrentKey := CurrentValue(answer)]))
    else Outcome(answer, ctx)
  }
}
