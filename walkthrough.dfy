/** A whole get_forecast call on the model: one field whose only run is
    older than the cutoff. */
module Walkthrough {
  import opened Outcomes
  import opened Decimal
  import opened Calendar
  import opened Runs
  import opened Merge
  import opened Urls
  import opened Forecast
  import opened Scenarios

  lemma Jan10Hour()
    ensures ToHours(Civil(2024, 1, 10, 0)) == 17733456
  {
  }

  lemma ShowsJan10T00()
    ensures Canonical(Civil(2024, 1, 10, 0)) == "2024-01-10T00"
  {
    Years();
    TwoDigits();
    Ten();
  }

  lemma Ten()
    ensures Padded(10, 2) == "10"
  {
    assert Padded(1, 1) == "1";
  }

  lemma FormatsJan10T00(h: int)
    requires h == ToHours(Civil(2024, 1, 10, 0))
    ensures InRange(h) && Format(h) == "2024-01-10T00"
  {
    ShowsJan10T00();
    FormatsAs(Civil(2024, 1, 10, 0), h, "2024-01-10T00");
  }

  /** A catalog whose one run, 2024-01-10T00 every 6 hours, four times, ends
      at 2024-01-10T18, before the cutoff 2024-01-14T12: no date is chosen. */
  lemma StaleCatalog(runs: seq<Run>, h: int, cutoff: int)
    requires runs == [Run(Some("2024-01-10T00"), Some(6), Some(4))]
    requires h == 17733456 && cutoff == 17733564
    ensures Select(runs, cutoff) == Ok(None)
  {
    OldRun(runs[0], h);
    OneStaleRun(runs, h, cutoff);
  }

  lemma OneStaleRun(runs: seq<Run>, h: int, cutoff: int)
    requires |runs| == 1 && ExpandHours(runs[0]) == Ok(Samples(h, 6, 4)) && h + 18 < cutoff
    ensures Select(runs, cutoff) == Ok(None)
  {
    ExpansionAt(runs, 0);
    assert Stale(Expansions(runs)[0], cutoff);
    ScanAllStale(Expansions(runs), cutoff);
  }

  lemma OldRun(run: Run, h: int)
    requires run == Run(Some("2024-01-10T00"), Some(6), Some(4)) && h == 17733456
    ensures ExpandHours(run) == Ok(Samples(h, 6, 4))
  {
    Jan10Hour();
    FormatsJan10T00(h);
    StartsAt(run, h, "2024-01-10T00");
    ExpandsFully(run, h);
  }

  /** The client asked for field T2 at level 0 at 2024-01-15T12, when the
      catalog offers only that stale run: the result is the empty table, one
      warning saying that no valid forecast date was found, and the catalog
      request is the only one sent, so no forecast is requested. */
  lemma StaleFieldExample<V>(api: Api<V>, apiKey: string, fields: string, runs: seq<Run>, clock: nat -> nat)
    requires runs == [Run(Some("2024-01-10T00"), Some(6), Some(4))]
    requires api(Request(apiKey, DateUrl(FieldUrl(fields, "T2", 0)), false)) == Ok(Reply(None, Some(runs), None, None))
    requires clock(0) == 17733588 * MicrosPerHour
    ensures var o := Accumulate(api, apiKey, fields, [FieldSpec("T2", 0)], clock);
            && o.forecasts == map[]
            && o.warnings == [Warning("T2", 0, NoValidForecastDate("T2", 0))]
            && o.sent == [Request(apiKey, DateUrl(FieldUrl(fields, "T2", 0)), false)]
            && Contains(Message(o.warnings[0]), "No valid forecast date found")
  {
    CutoffOnTheHour(17733588, clock(0));
    StaleCatalog(runs, 17733456, 17733564);
    var field := FieldUrl(fields, "T2", 0);
    NothingChosen(api, apiKey, field, clock(0), runs, 17733564);
    NoDateField(api, apiKey, fields, [FieldSpec("T2", 0)], clock);
    NoDateMessage(Warning("T2", 0, NoValidForecastDate("T2", 0)));
  }

  /** A catalog with nothing recent enough leaves no date chosen. */
  lemma NothingChosen<V>(api: Api<V>, apiKey: string, field: string, now: nat, runs: seq<Run>, cutoff: int)
    requires api(Request(apiKey, DateUrl(field), false)).Ok?
    requires api(Request(apiKey, DateUrl(field), false)).value.dates == Some(runs)
    requires Cutoff(now) == Ok(cutoff) && Select(runs, cutoff) == Ok(None)
    ensures Chosen(api, apiKey, field, now) == Ok(None)
  {
  }

  /** A single field with no date chosen yields the empty table, one warning
      and only the catalog request. */
  lemma NoDateField<V>(api: Api<V>, apiKey: string, fields: string, specs: seq<FieldSpec>, clock: nat -> nat)
    requires |specs| == 1
    requires Chosen(api, apiKey, FieldUrl(fields, specs[0].name, specs[0].level), clock(0)) == Ok(None)
    ensures var o := Accumulate(api, apiKey, fields, specs, clock);
            && o.forecasts == map[]
            && o.warnings == [Warning(specs[0].name, specs[0].level, NoValidForecastDate(specs[0].name, specs[0].level))]
            && o.sent == [Request(apiKey, DateUrl(FieldUrl(fields, specs[0].name, specs[0].level)), false)]
  {
    var fetches := Fetches(api, apiKey, fields, specs, clock);
    assert specs[..0] == [] && fetches[..0] == [];
    FieldStep(specs, fetches, 0);
    assert specs[..1] == specs && fetches[..1] == fetches;
  }

  /** The lookup reply `{"points": [{"col": 100, "row": 200}]}` gives x = 100 and
      y = 200, and the field list is then requested for row 200, column 100. */
  lemma CellLookupExample<V>(api: Api<V>, apiKey: string, latitude: string, longitude: string, model: string, grid: string)
    requires api(Request(apiKey, LatLonUrl(model, grid, latitude, longitude), false))
          == Ok(Reply(Some([Point(Some(100), Some(200))]), None, None, None))
    ensures GetXy(api, apiKey, latitude, longitude, model, grid) == Ok((100, 200))
    ensures FieldsUrl(model, grid, 100, 200) == MainUrl(model, grid) + "coordinates/200%2C100/field/"
  {
    FieldsUrlExample(model, grid);
  }
}
