/** The forecast client: the grid-cell lookup done on construction, and
    get_forecast, which for each configured field picks the newest recent
    forecast date, requests that forecast and merges it into one table,
    turning a failure of one field into a warning. */
module Forecast {
  import opened Outcomes
  import opened Decimal
  import opened Calendar
  import opened Runs
  import opened Merge
  import opened Urls

  /** One entry of the configured field list: a field name and a level. */
  datatype FieldSpec = FieldSpec(name: string, level: int)

  /** The configuration: model, grid and the fields to fetch, in order. */
  datatype Config = Config(model: string, grid: string, fields: seq<FieldSpec>)

  /** One point of the cell lookup reply; a missing key is None. */
  datatype Point = Point(col: Option<int>, row: Option<int>)

  /** The keys of an API reply the client reads; a missing key is None. */
  datatype Reply<V> = Reply(points: Option<seq<Point>>, dates: Option<seq<Run>>,
                            times: Option<seq<string>>, data: Option<seq<V>>)

  /** One authenticated call of the API: a GET, or a POST when `post`. */
  datatype Request = Request(apiKey: string, url: string, post: bool)

  /** The API as the client sees it: the decoded reply to a request, or the
      error the transport raised (a failed connection or a status other than 200). */
  type Api<V> = Request -> Result<Reply<V>>

  /** The cell lookup: the column and row of the first point of the reply. */
  function GetXy<V>(api: Api<V>, apiKey: string, latitude: string, longitude: string,
                    model: string, grid: string): (r: Result<(int, int)>)
    ensures var reply := api(Request(apiKey, LatLonUrl(model, grid, latitude, longitude), false));
            r.Ok? <==>
              && reply.Ok? && reply.value.points.Some? && |reply.value.points.value| > 0
              && reply.value.points.value[0].col.Some? && reply.value.points.value[0].row.Some?
    ensures var reply := api(Request(apiKey, LatLonUrl(model, grid, latitude, longitude), false));
            r.Ok? ==> r.value == (reply.value.points.value[0].col.value, reply.value.points.value[0].row.value)
    ensures var reply := api(Request(apiKey, LatLonUrl(model, grid, latitude, longitude), false));
            && (reply.Err? ==> r == Err(reply.error))
            && (reply.Ok? && reply.value.points.None? ==> r == Err(MissingKey("points")))
            && (reply.Ok? && reply.value.points == Some([]) ==> r == Err(IndexOutOfRange))
    ensures var reply := api(Request(apiKey, LatLonUrl(model, grid, latitude, longitude), false));
            reply.Ok? && reply.value.points.Some? && |reply.value.points.value| > 0 ==>
              var first := reply.value.points.value[0];
              && (first.col.None? ==> r == Err(MissingKey("col")))
              && (first.col.Some? && first.row.None? ==> r == Err(MissingKey("row")))
  {
    var reply :- api(Request(apiKey, LatLonUrl(model, grid, latitude, longitude), false));
    var points :- Key(reply.points, "points");
    if |points| == 0 then Err(IndexOutOfRange)
    else
      var col :- Key(points[0].col, "col");
      var row :- Key(points[0].row, "row");
      Ok((col, row))
  }

  /** A field that could not be fetched: its name and level and the error. */
  datatype Warning = Warning(field: string, level: int, error: Error)

  /** The text Python gives each error. */
  function ErrorText(e: Error): string
  {
    match e
    case RequestFailed(reason) => reason
    case MissingKey(key) => "'" + key + "'"
    case IndexOutOfRange => "list index out of range"
    case BadDate(text) => "time data '" + text + "' does not match format '%Y-%m-%dT%H'"
    case DateOverflow => "date value out of range"
    case NoValidForecastDate(field, level) =>
      "No valid forecast date found" + " for field " + field + " at level " + IntToString(level)
  }

  /** The text of the warning issued for a field that failed. */
  function Message(w: Warning): string
  {
    "Failed to fetch data for field " + w.field + " at level " + IntToString(w.level) + ": " + ErrorText(w.error)
  }

  ghost predicate Contains(s: string, part: string)
  {
    exists before: string, after: string :: s == before + part + after
  }

  lemma ContainsMiddle(a: string, part: string, b: string)
    ensures Contains(a + part + b, part)
  {
  }

  /** Every warning names its field. */
  lemma MessageNamesField(w: Warning)
    ensures Contains(Message(w), w.field)
  {
    var a := "Failed to fetch data for field ";
    var b := " at level " + IntToString(w.level) + ": " + ErrorText(w.error);
    assert Message(w) == a + w.field + b;
    ContainsMiddle(a, w.field, b);
  }

  /** A field without a recent date is reported as such. */
  lemma NoDateMessage(w: Warning)
    requires w.error.NoValidForecastDate?
    ensures Contains(Message(w), "No valid forecast date found")
  {
    var a := "Failed to fetch data for field " + w.field + " at level " + IntToString(w.level) + ": ";
    var b := " for field " + w.error.field + " at level " + IntToString(w.error.level);
    assert Message(w) == a + "No valid forecast date found" + b;
    ContainsMiddle(a, "No valid forecast date found", b);
  }

  /** The run chosen for one field: catalog reply, its `dates`, the cutoff
      from the clock reading `now`, then the reverse scan. */
  function Chosen<V>(api: Api<V>, apiKey: string, field: string, now: nat): Result<Option<Choice>>
  {
    var catalog :- api(Request(apiKey, DateUrl(field), false));
    var runs :- Key(catalog.dates, "dates");
    var cutoff :- Cutoff(now);
    Select(runs, cutoff)
  }

  /** A chosen date reads back as an hour no older than 24 hours before the
      clock reading, truncated to the hour. */
  lemma ChosenIsRecent<V>(api: Api<V>, apiKey: string, field: string, now: nat)
    requires Chosen(api, apiKey, field, now).Ok? && Chosen(api, apiKey, field, now).value.Some?
    ensures Cutoff(now).Ok?
    ensures var date := Chosen(api, apiKey, field, now).value.value.date;
            Parse(date).Ok? && Parse(date).value >= Cutoff(now).value
  {
    var catalog := api(Request(apiKey, DateUrl(field), false)).value;
    SelectedDateIsRecent(catalog.dates.value, Cutoff(now).value);
  }

  /** The forecast reply's times paired with its values. */
  function Forecast<V>(api: Api<V>, request: Request): Result<seq<(string, V)>>
  {
    var reply :- api(request);
    var times :- Key(reply.times, "times");
    var data :- Key(reply.data, "data");
    Ok(Zip(times, data))
  }

  /** What fetching one field yields, and the requests it sent. */
  datatype Fetch<V> = Fetch(result: Result<seq<(string, V)>>, sent: seq<Request>)

  /** The body of the per-field `try` block of get_forecast, up to the merge. */
  function FetchField<V>(api: Api<V>, apiKey: string, fields: string, spec: FieldSpec, now: nat): Fetch<V>
  {
    var field := FieldUrl(fields, spec.name, spec.level);
    var catalog := Request(apiKey, DateUrl(field), false);
    match Chosen(api, apiKey, field, now)
    case Err(e) => Fetch(Err(e), [catalog])
    case Ok(None) => Fetch(Err(NoValidForecastDate(spec.name, spec.level)), [catalog])
    case Ok(Some(choice)) =>
      var request := Request(apiKey, ForecastUrl(field, choice.date), true);
      Fetch(Forecast(api, request), [catalog, request])
  }

  /** One field sends its catalog request first, then a forecast request (a
      POST, for the chosen date) exactly when a date was chosen; an error
      before that is the field's result, and no date chosen is reported as
      NoValidForecastDate for that field and level. */
  lemma FetchFieldRequests<V>(api: Api<V>, apiKey: string, fields: string, spec: FieldSpec, now: nat)
    ensures var f := FetchField(api, apiKey, fields, spec, now);
            var field := FieldUrl(fields, spec.name, spec.level);
            var chosen := Chosen(api, apiKey, field, now);
            && 1 <= |f.sent| <= 2
            && f.sent[0] == Request(apiKey, DateUrl(field), false)
            && (|f.sent| == 2 <==> chosen.Ok? && chosen.value.Some?)
            && (|f.sent| == 2 ==> f.sent[1] == Request(apiKey, ForecastUrl(field, chosen.value.value.date), true))
            && (chosen.Err? ==> f.result == Err(chosen.error))
            && (chosen == Ok(None) ==> f.result == Err(NoValidForecastDate(spec.name, spec.level)))
            && (f.result.Ok? ==> |f.sent| == 2)
  {
  }

  /** The result of get_forecast: the merged table, the warnings issued and
      the requests sent, in order. */
  datatype Outcome<V> = Outcome(forecasts: Forecasts<V>, warnings: seq<Warning>, sent: seq<Request>)

  /** What each configured field yields; field `k` reads the clock as `clock(k)`. */
  function Fetches<V>(api: Api<V>, apiKey: string, fields: string, specs: seq<FieldSpec>,
                      clock: nat -> nat): (fs: seq<Fetch<V>>)
    ensures |fs| == |specs|
    ensures forall k :: 0 <= k < |specs| ==> fs[k] == FetchField(api, apiKey, fields, specs[k], clock(k))
  {
    seq(|specs|, k requires 0 <= k < |specs| => FetchField(api, apiKey, fields, specs[k], clock(k)))
  }

  /** The fields processed in order, each fetch either merged into the table
      or turned into a warning. */
  function Combine<V>(specs: seq<FieldSpec>, fetches: seq<Fetch<V>>): (o: Outcome<V>)
    requires |fetches| == |specs|
    ensures |o.warnings| <= |specs|
    ensures NoEmptyEntries(o.forecasts)
    decreases |specs|
  {
    if specs == [] then Outcome(map[], [], [])
    else
      var k := |specs| - 1;
      var o := Combine(specs[..k], fetches[..k]);
      var f := fetches[k];
      match f.result
      case Ok(pairs) => Outcome(MergeAll(o.forecasts, specs[k].name, specs[k].level, pairs), o.warnings, o.sent + f.sent)
      case Err(e) => Outcome(o.forecasts, o.warnings + [Warning(specs[k].name, specs[k].level, e)], o.sent + f.sent)
  }

  /** get_forecast as a function of the API, the field-list URL and the clock. */
  function Accumulate<V>(api: Api<V>, apiKey: string, fields: string, specs: seq<FieldSpec>,
                         clock: nat -> nat): Outcome<V>
  {
    Combine(specs, Fetches(api, apiKey, fields, specs, clock))
  }

  /** A field that fails leaves the table as it was and adds exactly one
      warning, naming that field and level; one that succeeds merges its
      pairs and adds no warning. Either way the requests of the next field follow. */
  lemma FieldStep<V>(specs: seq<FieldSpec>, fetches: seq<Fetch<V>>, k: nat)
    requires |fetches| == |specs| && k < |specs|
    ensures var before := Combine(specs[..k], fetches[..k]);
            var after := Combine(specs[..k + 1], fetches[..k + 1]);
            var f := fetches[k];
            && after.sent == before.sent + f.sent
            && (f.result.Err? ==>
                  after.forecasts == before.forecasts
                  && after.warnings == before.warnings + [Warning(specs[k].name, specs[k].level, f.result.error)])
            && (f.result.Ok? ==>
                  after.forecasts == MergeAll(before.forecasts, specs[k].name, specs[k].level, f.result.value)
                  && after.warnings == before.warnings)
  {
    assert specs[..k + 1][..k] == specs[..k];
    assert fetches[..k + 1][..k] == fetches[..k];
  }

  /** Every field's requests are sent, whatever happened to the fields before it. */
  lemma {:induction false} EveryFieldTried<V>(specs: seq<FieldSpec>, fetches: seq<Fetch<V>>, k: nat, q: Request)
    requires |fetches| == |specs| && k < |specs| && q in fetches[k].sent
    ensures q in Combine(specs, fetches).sent
    decreases |specs|
  {
    var n := |specs| - 1;
    assert specs[..n + 1] == specs && fetches[..n + 1] == fetches;
    FieldStep(specs, fetches, n);
    if k < n {
      EveryFieldTried(specs[..n], fetches[..n], k, q);
    }
  }

  /** When every field fails the table is empty and there is one warning per
      field, in the order of the fields. */
  lemma {:induction false} AllFieldsFail<V>(specs: seq<FieldSpec>, fetches: seq<Fetch<V>>)
    requires |fetches| == |specs|
    requires forall k :: 0 <= k < |specs| ==> fetches[k].result.Err?
    ensures Combine(specs, fetches).forecasts == map[]
    ensures |Combine(specs, fetches).warnings| == |specs|
    ensures forall k :: 0 <= k < |specs| ==>
      Combine(specs, fetches).warnings[k] == Warning(specs[k].name, specs[k].level, fetches[k].result.error)
    decreases |specs|
  {
    if specs != [] {
      var n := |specs| - 1;
      assert specs[..n + 1] == specs && fetches[..n + 1] == fetches;
      AllFieldsFail(specs[..n], fetches[..n]);
      FieldStep(specs, fetches, n);
    }
  }

  /** A value in the table comes from a field that was fetched: a field with
      that name and level whose reply gave that value last for that time. */
  lemma {:induction false} Provenance<V>(specs: seq<FieldSpec>, fetches: seq<Fetch<V>>, t: string, name: string, level: int)
    requires |fetches| == |specs|
    requires Get(Combine(specs, fetches).forecasts, t, name, level).Some?
    ensures exists k :: 0 <= k < |specs| && specs[k] == FieldSpec(name, level) && fetches[k].result.Ok?
              && LastFor(fetches[k].result.value, t) == Get(Combine(specs, fetches).forecasts, t, name, level)
    decreases |specs|
  {
    var n := |specs| - 1;
    assert specs[..n + 1] == specs && fetches[..n + 1] == fetches;
    FieldStep(specs, fetches, n);
    var before := Combine(specs[..n], fetches[..n]);
    var f := fetches[n];
    var v := Get(Combine(specs, fetches).forecasts, t, name, level);
    if f.result.Ok? {
      MergeLookup(before.forecasts, specs[n].name, specs[n].level, f.result.value, t, name, level);
    }
    if f.result.Ok? && specs[n] == FieldSpec(name, level) && LastFor(f.result.value, t).Some? {
      assert LastFor(f.result.value, t) == v;
    } else {
      assert Get(before.forecasts, t, name, level) == v;
      Provenance(specs[..n], fetches[..n], t, name, level);
      var k :| 0 <= k < n && specs[..n][k] == FieldSpec(name, level) && fetches[..n][k].result.Ok?
               && LastFor(fetches[..n][k].result.value, t) == v;
      assert specs[k] == FieldSpec(name, level) && fetches[k].result.Ok? && LastFor(fetches[k].result.value, t) == v;
    }
  }

  /** With a repeated field spec the later field wins: the value stored for a
      time is that of the last field with that name and level whose reply
      gave a value for that time. */
  lemma {:induction false} LastFieldWins<V>(specs: seq<FieldSpec>, fetches: seq<Fetch<V>>, t: string,
                                           name: string, level: int, k: nat)
    requires |fetches| == |specs| && k < |specs|
    requires specs[k] == FieldSpec(name, level) && fetches[k].result.Ok? && LastFor(fetches[k].result.value, t).Some?
    requires forall j :: k < j < |specs| && specs[j] == FieldSpec(name, level) && fetches[j].result.Ok? ==>
               LastFor(fetches[j].result.value, t).None?
    ensures Get(Combine(specs, fetches).forecasts, t, name, level) == LastFor(fetches[k].result.value, t)
    decreases |specs|
  {
    var n := |specs| - 1;
    LastFieldStep(specs, fetches, t, name, level);
    if k < n {
      forall j | k < j < n && specs[..n][j] == FieldSpec(name, level) && fetches[..n][j].result.Ok?
        ensures LastFor(fetches[..n][j].result.value, t).None?
      {
        assert specs[..n][j] == specs[j] && fetches[..n][j] == fetches[j];
      }
      assert specs[..n][k] == specs[k] && fetches[..n][k] == fetches[k];
      LastFieldWins(specs[..n], fetches[..n], t, name, level, k);
    }
  }

  /** The lookup after the last field: that field's value for the time when it
      is the field and level looked up and gave one, else the lookup before it. */
  lemma LastFieldStep<V>(specs: seq<FieldSpec>, fetches: seq<Fetch<V>>, t: string, name: string, level: int)
    requires |fetches| == |specs| && |specs| > 0
    ensures var n := |specs| - 1;
            var f := fetches[n];
            var before := Get(Combine(specs[..n], fetches[..n]).forecasts, t, name, level);
            Get(Combine(specs, fetches).forecasts, t, name, level)
              == if f.result.Ok? && specs[n] == FieldSpec(name, level) && LastFor(f.result.value, t).Some?
                 then LastFor(f.result.value, t) else before
  {
    var n := |specs| - 1;
    assert specs[..n + 1] == specs && fetches[..n + 1] == fetches;
    FieldStep(specs, fetches, n);
    var f := fetches[n];
    if f.result.Ok? {
      MergeLookup(Combine(specs[..n], fetches[..n]).forecasts, specs[n].name, specs[n].level, f.result.value, t, name, level);
    }
  }

  /** Conversely, a field that was fetched and gave a value for a time leaves
      a value for that time, field and level in the table. */
  lemma {:induction false} Coverage<V>(specs: seq<FieldSpec>, fetches: seq<Fetch<V>>, k: nat, t: string)
    requires |fetches| == |specs| && k < |specs|
    requires fetches[k].result.Ok? && LastFor(fetches[k].result.value, t).Some?
    ensures Get(Combine(specs, fetches).forecasts, t, specs[k].name, specs[k].level).Some?
    decreases |specs|
  {
    var n := |specs| - 1;
    assert specs[..n + 1] == specs && fetches[..n + 1] == fetches;
    FieldStep(specs, fetches, n);
    var before := Combine(specs[..n], fetches[..n]);
    var f := fetches[n];
    if k < n {
      Coverage(specs[..n], fetches[..n], k, t);
    }
    if f.result.Ok? {
      MergeLookup(before.forecasts, specs[n].name, specs[n].level, f.result.value, t, specs[k].name, specs[k].level);
    }
  }

  /** A field's catalog request is sent, and its forecast is requested, with a
      POST, exactly when a recent date was found for it. */
  lemma FieldRequests<V>(api: Api<V>, apiKey: string, fields: string, specs: seq<FieldSpec>, clock: nat -> nat, k: nat)
    requires k < |specs|
    ensures var field := FieldUrl(fields, specs[k].name, specs[k].level);
            var chosen := Chosen(api, apiKey, field, clock(k));
            var sent := Accumulate(api, apiKey, fields, specs, clock).sent;
            && Request(apiKey, DateUrl(field), false) in sent
            && (chosen.Ok? && chosen.value.Some? ==>
                  Request(apiKey, ForecastUrl(field, chosen.value.value.date), true) in sent)
  {
    var fetches := Fetches(api, apiKey, fields, specs, clock);
    FetchFieldRequests(api, apiKey, fields, specs[k], clock(k));
    EveryFieldTried(specs, fetches, k, fetches[k].sent[0]);
    if |fetches[k].sent| == 2 {
      EveryFieldTried(specs, fetches, k, fetches[k].sent[1]);
    }
  }

  /** The client for one location. The coordinates are those of the grid cell
      the lookup returned; `located` records that the lookup succeeded, which
      Create makes sure of and GetForecast demands. */
  class MeteoForecast {
    const apiKey: string
    const latitude: string
    const longitude: string
    const config: Config
    const mainUrl: string
    var x: int
    var y: int
    /** Whether the cell lookup has set `x` and `y`. */
    ghost var located: bool

    /** The fields before the lookup; the coordinates are set by SetXy. */
    constructor(apiKey: string, latitude: string, longitude: string, config: Config)
      ensures this.apiKey == apiKey && this.latitude == latitude && this.longitude == longitude
      ensures this.config == config && mainUrl == MainUrl(config.model, config.grid)
      ensures !located
    {
      this.apiKey := apiKey;
      this.latitude := latitude;
      this.longitude := longitude;
      this.config := config;
      this.mainUrl := MainUrl(config.model, config.grid);
      this.located := false;
    }

    /** Looks up the grid cell of the location and stores its column as `x`
        and its row as `y`; on an error nothing changes. */
    method SetXy<V>(api: Api<V>) returns (r: Result<(int, int)>)
      modifies this
      ensures r == GetXy(api, apiKey, latitude, longitude, config.model, config.grid)
      ensures r.Ok? ==> x == r.value.0 && y == r.value.1 && located
      ensures r.Err? ==> x == old(x) && y == old(y) && located == old(located)
    {
      r := GetXy(api, apiKey, latitude, longitude, config.model, config.grid);
      if r.Ok? {
        x := r.value.0;
        y := r.value.1;
        located := true;
      }
    }

    /** Construction: the fields, then the cell lookup, whose error is the
        constructor's. */
    static method Create<V>(api: Api<V>, apiKey: string, latitude: string, longitude: string, config: Config)
      returns (r: Result<MeteoForecast>)
      ensures var xy := GetXy(api, apiKey, latitude, longitude, config.model, config.grid);
              && (xy.Err? ==> r == Err(xy.error))
              && (xy.Ok? ==> r.Ok? && fresh(r.value) && r.value.located && r.value.x == xy.value.0 && r.value.y == xy.value.1)
      ensures r.Ok? ==> r.value.apiKey == apiKey && r.value.latitude == latitude && r.value.longitude == longitude
                        && r.value.config == config && r.value.mainUrl == MainUrl(config.model, config.grid)
    {
      var c := new MeteoForecast(apiKey, latitude, longitude, config);
      var xy := c.SetXy(api);
      if xy.Err? {
        return Err(xy.error);
      }
      return Ok(c);
    }

    /** The first part of the `try` block of get_forecast: the catalog
        request, its `dates`, the cutoff and the reverse scan. */
    method ChooseDate<V>(api: Api<V>, field: string, now: nat) returns (r: Result<Option<Choice>>)
      ensures r == Chosen(api, apiKey, field, now)
    {
      var catalog := api(Request(apiKey, DateUrl(field), false));
      if catalog.Err? {
        return Err(catalog.error);
      }
      var dates := Key(catalog.value.dates, "dates");
      if dates.Err? {
        return Err(dates.error);
      }
      var cutoff := Cutoff(now);
      if cutoff.Err? {
        return Err(cutoff.error);
      }
      r := SelectLatest(dates.value, cutoff.value);
    }

    /** The `try` block of get_forecast for one field, without the merge:
        the catalog request, the selection, the forecast request, and the
        forecast's times and values. */
    method FetchFieldData<V>(api: Api<V>, url: string, field: FieldSpec, now: nat)
      returns (r: Result<(seq<string>, seq<V>)>, sent: seq<Request>)
      ensures var f := FetchField(api, apiKey, url, field, now);
              && sent == f.sent
              && (r.Ok? <==> f.result.Ok?)
              && (r.Ok? ==> Zip(r.value.0, r.value.1) == f.result.value)
              && (r.Err? ==> r.error == f.result.error)
    {
      var urlField := FieldUrl(url, field.name, field.level);
      sent := [Request(apiKey, DateUrl(urlField), false)];
      var last := ChooseDate(api, urlField, now);
      if last.Err? {
        return Err(last.error), sent;
      }
      if last.value.None? {
        return Err(NoValidForecastDate(field.name, field.level)), sent;
      }
      var forecastRequest := Request(apiKey, ForecastUrl(urlField, last.value.value.date), true);
      sent := sent + [forecastRequest];
      var reply := api(forecastRequest);
      if reply.Err? {
        return Err(reply.error), sent;
      }
      var times := Key(reply.value.times, "times");
      if times.Err? {
        return Err(times.error), sent;
      }
      var data := Key(reply.value.data, "data");
      if data.Err? {
        return Err(data.error), sent;
      }
      r := Ok((times.value, data.value));
    }

    /** get_forecast: each configured field in order, a failed one turned into
        a warning. `clock(k)` is the time read while processing field `k`, in
        microseconds since 0001-01-01T00 UTC. The coordinates must have been
        set by a successful lookup, as construction always does first. */
    method GetForecast<V>(api: Api<V>, clock: nat -> nat)
      returns (forecasts: Forecasts<V>, warnings: seq<Warning>, sent: seq<Request>)
      requires located
      ensures Outcome(forecasts, warnings, sent)
           == Accumulate(api, apiKey, FieldsUrl(config.model, config.grid, x, y), config.fields, clock)
    {
      forecasts, warnings, sent := map[], [], [];
      var url := FieldsUrl(config.model, config.grid, x, y);
      ghost var fetches := Fetches(api, apiKey, url, config.fields, clock);
      var i := 0;
      while i < |config.fields|
        invariant 0 <= i <= |config.fields|
        invariant Outcome(forecasts, warnings, sent) == Combine(config.fields[..i], fetches[..i])
      {
        var field := config.fields[i];
        var fetched, calls := FetchFieldData(api, url, field, clock(i));
        FieldStep(config.fields, fetches, i);
        sent := sent + calls;
        if fetched.Ok? {
          forecasts := MergeLoop(forecasts, field.name, field.level, fetched.value.0, fetched.value.1);
        } else {
          warnings := warnings + [Warning(field.name, field.level, fetched.error)];
        }
        i := i + 1;
      }
      assert fetches[..i] == fetches;
      assert config.fields[..i] == config.fields;
    }
  }
}
