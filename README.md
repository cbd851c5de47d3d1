# MeteoForecast client, modelled in Dafny

A model of the `MeteoForecast` client for the meteo.pl forecast API, with
proofs of what it does. The client works in three steps:

1. On construction it looks up the grid cell of a latitude and longitude
   (`get_xy`). It keeps the column as `x` and the row as `y`.
2. For each configured field and level, `get_forecast` reads the catalog of
   forecast runs. Each run is a starting date, an interval in hours and a
   count, and `_get_forecast_dates` expands it into its dates.
3. The client then picks a date no older than 24 hours before now,
   truncated to the hour: the newest such date of the last-declared run that
   has one. It scans the runs last-declared first, and each run's dates
   newest first, so an earlier-declared run is only looked at when every
   later one has no recent date, even if it reaches further. It requests
   the forecast for that date with a POST and merges the reply into one
   table, keyed by time, then field, then level. If a field
   fails for any reason, a warning names that field and level, and the
   other fields go on.

Modules:

- `Outcomes`: the errors the client can meet, plus `Result` and `Option`. A
  missing dictionary key becomes `MissingKey`.
- `Decimal`: Python's `str(int)` and the zero-padded `strftime` fields. Both
  come with their inverse.
- `Calendar`: proleptic Gregorian hours since 0001-01-01T00, covering years
  1 to 9999. `Format` is `strftime("%Y-%m-%dT%H")`. `Parse` is `strptime`
  with the same pattern. `Parse` inverts `Format`; it also accepts the short
  forms strptime accepts (one-digit month, day or hour, a day written " d",
  a lower-case 't'), which `Format` never writes.
- `Runs`: run expansion, the cutoff, and the reverse scan.
  - The scan is specified by the predicates `Picked`, `StaleAfter` and
    `BrokenAt`, with both directions proved.
  - It is implemented by the loops `SelectLatest` and `NewestRecent`.
- `Merge`: the nested table as a `map`, `zip`, and the merge loop
  (`MergeLoop`, built on `Store`).
- `Urls`: the URL templates. The field-list URL puts the row `y` before the
  column `x`.
- `Forecast`: the API as a parameter, `Chosen`, `FetchField`, `Combine`, and
  the class `MeteoForecast`.
  - The class fields are `x` and `y`, which `SetXy` assigns.
  - `GetForecast` is the imperative per-field loop. It is proved equal to
    the functional specification `Accumulate`.
- `Scenarios` and `Walkthrough`: the worked cases from the client's tests.

Three of the client's dependencies become inputs or outputs of the model:

- The HTTP transport becomes a function `Api<V>` from request to decoded
  reply or error. The reply values are a type parameter `V`.
- The clock becomes `clock: nat -> nat`, the microseconds since
  0001-01-01T00 UTC read while processing field `k`.
- The warnings become a returned list of `Warning` values, together with
  the list of requests sent.

## Model

| member | source | states |
|---|---|---|
| Outcomes.Key | meteo_forecast/meteo_forecast.py:130 | A dictionary lookup yields the value exactly when the key is present, and a KeyError naming the key otherwise. |
| Decimal.PaddedValue | meteo_forecast/meteo_forecast.py:155 | A zero-padded field of width w reads back as its number when the number fits in w digits. |
| Decimal.NatToStringValue | meteo_forecast/meteo_forecast.py:170 | The decimal text of a natural number reads back as that number. |
| Decimal.IntToStringInjective | meteo_forecast/meteo_forecast.py:170 | Two integers with the same text are equal, so the coordinates written into a URL determine the integers. |
| Calendar.YearOf | meteo_forecast/meteo_forecast.py:155 | The year found by splitting a day number into 400-, 100-, 4- and 1-year cycles is the one year containing that day. |
| Calendar.FromHours | meteo_forecast/meteo_forecast.py:155 | Every representable hour count maps to a valid date and hour that converts back to the same count. |
| Calendar.FromHoursToHours | meteo_forecast/meteo_forecast.py:155 | Every valid date and hour in years 1..9999 is a representable hour count, and FromHours gives that date back. |
| Calendar.ToHoursInjective | meteo_forecast/meteo_forecast.py:151 | Different valid dates and hours have different hour counts. |
| Calendar.OneHourLater | meteo_forecast/meteo_forecast.py:155 | Adding one hour moves the date by the rollover rules: next day, month and year, with February 29 in leap years only. |
| Calendar.Parse | meteo_forecast/meteo_forecast.py:151 | strptime yields a representable hour, and a text it rejects raises the error carrying that text. |
| Calendar.ParseFormat | meteo_forecast/meteo_forecast.py:185 | strptime of strftime's text of any representable hour gives back that hour. |
| Calendar.ParseCanonical | meteo_forecast/meteo_forecast.py:151 | A text in the canonical layout "YYYY-MM-DDTHH" of a valid date reads as the hour its digits spell. |
| Calendar.FormatCivil | meteo_forecast/meteo_forecast.py:155 | strftime writes a valid date as its zero-padded "YYYY-MM-DDTHH" text. |
| Runs.Cutoff | meteo_forecast/meteo_forecast.py:176-180 | The cutoff is the clock truncated to the hour, less 24 hours; it lies within the hour that ends 24 hours before the clock reading, and it is an overflow error exactly when the clock is less than 24 hours past 0001-01-01T00. |
| Runs.CutoffOnTheHour | meteo_forecast/meteo_forecast.py:176-180 | A clock reading exactly on hour h has the cutoff h - 24. |
| Runs.Samples | meteo_forecast/meteo_forecast.py:154-157 | There are count samples (none for a count below zero), and the i-th is start + i * interval; Runs.ExpansionEvenlySpaced states the spacing this gives. |
| Runs.ExpandHours | meteo_forecast/meteo_forecast.py:151-157 | A run expands to its samples exactly when its keys are present, its start parses and every sample is representable; a missing starting date, an unparsable one, a missing interval, a missing count and a sample outside years 1..9999 each give their own error, in the source's order. |
| Runs.ForecastDates | meteo_forecast/meteo_forecast.py:141-158 | The dates of a run are strftime of its samples, in order, and they fail exactly when the expansion fails, with the same error; Runs.ForecastDatesReadBack proves each reads back as its sample. |
| Runs.ForecastDatesReadBack | meteo_forecast/meteo_forecast.py:185 | Each date of a run reads back through strptime as its sample hour. |
| Runs.ExpansionEvenlySpaced | meteo_forecast/meteo_forecast.py:154-157 | Any two samples are (j - i) intervals apart, and with a positive interval the samples strictly increase. |
| Runs.LatestFresh | meteo_forecast/meteo_forecast.py:184-187 | The index found is of a sample at or after the cutoff with every later sample before it; none is found only when every sample is before the cutoff. |
| Runs.Scan | meteo_forecast/meteo_forecast.py:182-189 | Runs are scanned last-declared first: the result is a Picked run and sample, none when every run is stale, or the error of a broken run that the scan reaches. |
| Runs.ScanFindsPicked | meteo_forecast/meteo_forecast.py:182-189 | Wherever Picked holds, the scan returns exactly that run and sample (the converse of Scan's first guarantee). |
| Runs.ScanAllStale | meteo_forecast/meteo_forecast.py:182-190 | When every run is stale the scan finds nothing. |
| Runs.ScanReachesBroken | meteo_forecast/meteo_forecast.py:182-184 | A run that cannot be expanded and that the scan reaches (all later runs stale) makes the scan fail with its error. |
| Runs.Select | meteo_forecast/meteo_forecast.py:181-191 | The chosen date is the text of the Picked sample; no date means every run is stale; an error comes from a reached broken run. |
| Runs.SelectedDateIsRecent | meteo_forecast/meteo_forecast.py:185 | The chosen date reads back as an hour at or after the cutoff. |
| Runs.SelectFinds | meteo_forecast/meteo_forecast.py:182-189 | Wherever Picked holds, Select chooses that run's sample, written as its text. |
| Runs.NewestRecent | meteo_forecast/meteo_forecast.py:184-187 | The inner loop over a run's dates, newest first, stops at the index LatestFresh specifies. |
| Runs.SelectLatest | meteo_forecast/meteo_forecast.py:181-189 | The outer loop over the runs, last first, returns exactly Select's answer, including its errors. |
| Merge.Put | meteo_forecast/meteo_forecast.py:196-200 | After storing, the time, field and level holds the value; every other entry is unchanged; the times are the old ones plus this one; no empty entry is created. |
| Merge.Zip | meteo_forecast/meteo_forecast.py:195 | zip has the length of the shorter list, and its i-th pair is made of the i-th elements. |
| Merge.LastFor | meteo_forecast/meteo_forecast.py:195-200 | It finds nothing exactly when no pair has the time; otherwise it gives the value of the last pair with that time. |
| Merge.MergeAll | meteo_forecast/meteo_forecast.py:195-200 | Merging adds exactly the pairs' times to the table and creates no empty entry. |
| Merge.MergeLookup | meteo_forecast/meteo_forecast.py:195-200 | After merging, the merged field and level hold the last value given for each time (last write wins), and every other lookup is unchanged. |
| Merge.Store | meteo_forecast/meteo_forecast.py:196-200 | Creating the time entry and the field entry when they are missing, then setting the level, is Put. |
| Merge.MergeLoop | meteo_forecast/meteo_forecast.py:195-200 | The merge loop over the zipped times and values leaves the table MergeAll gives. |
| Urls.Prefixes | meteo_forecast/meteo_forecast.py:170-193 | Each request URL extends the previous one: base URL, main URL (meteo_forecast.py:65), field list, field, catalog, forecast; the forecast URL is the catalog URL, the date and "/forecast/". |
| Urls.FieldsUrlInjective | meteo_forecast/meteo_forecast.py:170 | Two cells of one model and grid have the same field-list URL exactly when their columns and rows agree. |
| Urls.LatLonUrlExample | tests/test_unit.py:105-110 | Latitude 52.0 and longitude 21.0 give the lookup URL ending "latlon2rowcol/52.0%2C21.0/". |
| Urls.FieldsUrlExample | meteo_forecast/meteo_forecast.py:170 | Column 100, row 200 gives "coordinates/200%2C100/field/", with the row first. |
| Forecast.GetXy | meteo_forecast/meteo_forecast.py:129-131 | The lookup succeeds exactly when the reply has a non-empty "points" whose first point carries col and row, and it returns (col, row). A transport error passes through, a missing "points" is a KeyError, and an empty list is an IndexError. A first point without "col" is a KeyError for "col", and one with "col" but without "row" is a KeyError for "row". |
| Forecast.MessageNamesField | meteo_forecast/meteo_forecast.py:202 | Every warning's text contains the name of its field. |
| Forecast.NoDateMessage | meteo_forecast/meteo_forecast.py:191 | A field without a recent date warns with "No valid forecast date found". |
| Forecast.ChosenIsRecent | meteo_forecast/meteo_forecast.py:175-191 | A chosen date reads back as an hour no older than the cutoff of the clock reading. |
| Forecast.FetchFieldRequests | meteo_forecast/meteo_forecast.py:173-194 | A field sends its catalog GET first. It sends the forecast POST for the chosen date exactly when a date was chosen. An earlier error is the field's result, and no date chosen is NoValidForecastDate for that field and level. |
| Forecast.Fetches | meteo_forecast/meteo_forecast.py:171-194 | Field k is fetched with the clock reading taken while processing it, one fetch per configured field; Forecast.FieldRequests proves every one of those fetches' requests is sent. |
| Forecast.Combine | meteo_forecast/meteo_forecast.py:171-203 | There are at most as many warnings as fields, and the table has no empty entries. |
| Forecast.FieldStep | meteo_forecast/meteo_forecast.py:171-202 | A failing field adds exactly one warning naming its field, level and error, and leaves the table unchanged. A succeeding field merges its pairs and adds no warning. Either way its requests follow those sent before. |
| Forecast.EveryFieldTried | meteo_forecast/meteo_forecast.py:171-202 | Each field's requests are sent whatever happened to the fields before it. |
| Forecast.AllFieldsFail | meteo_forecast/meteo_forecast.py:201-202 | When every field fails, the table is empty and there is one warning per field, in field order. |
| Forecast.Provenance | meteo_forecast/meteo_forecast.py:195-200 | Every value in the table is the last value, for its time, of a fetched field with that name and level; Forecast.LastFieldWins says which such field. |
| Forecast.LastFieldWins | meteo_forecast/meteo_forecast.py:171-200 | With a repeated field spec the later field overwrites: the stored value for a time is that of the last field with that name and level whose reply gave a value for that time. |
| Forecast.Coverage | meteo_forecast/meteo_forecast.py:195-200 | A fetched field that gave a value for a time leaves a value for that time, field and level. |
| Forecast.FieldRequests | meteo_forecast/meteo_forecast.py:173-194 | The whole call sends every field's catalog GET, and the forecast POST for each field whose date was chosen. |
| Forecast.MeteoForecast.constructor | meteo_forecast/meteo_forecast.py:61-65 | The constructor stores the key, the coordinates and the configuration, and builds the main URL from the model and grid. |
| Forecast.MeteoForecast.SetXy | meteo_forecast/meteo_forecast.py:133-139 | The column becomes x and the row becomes y, and the client is marked as located; on an error nothing changes. |
| Forecast.MeteoForecast.Create | meteo_forecast/meteo_forecast.py:61-69 | Construction fails with the lookup's error, or yields a new, located client whose x and y are the cell's column and row. |
| Forecast.MeteoForecast.ChooseDate | meteo_forecast/meteo_forecast.py:175-191 | The catalog request, its "dates", the cutoff and the loops give exactly Chosen. |
| Forecast.MeteoForecast.FetchFieldData | meteo_forecast/meteo_forecast.py:173-194 | The per-field steps send FetchField's requests; they succeed exactly when FetchField does, with its pairs once zipped, or fail with its error. |
| Forecast.MeteoForecast.GetForecast | meteo_forecast/meteo_forecast.py:160-203 | On a located client, the loop's table, warnings and requests are Accumulate over the configured fields, for the field-list URL of (x, y). |
| Scenarios.ExpandsFully | meteo_forecast/meteo_forecast.py:151-157 | A run whose start parses, whose interval and count are present, and whose last sample (if it has any) is representable expands to all its samples, for an interval of either sign. |
| Scenarios.ExpansionExample | tests/test_unit.py:126-138 | 2024-01-01T00 every 6 hours, 3 times, gives T00, T06 and T12. |
| Scenarios.YearRolloverExample | tests/test_edge_cases.py:66-76 | 2024-12-31T23 plus one hour is 2025-01-01T00. |
| Scenarios.LeapDayExample | tests/test_edge_cases.py:78-86 | 2024-02-28T12 plus 24 hours is 2024-02-29T12. |
| Scenarios.SelectionExample | tests/test_end_to_end.py:32-123 | At 2024-01-15T12 UTC the cutoff is 2024-01-14T12, and the last run's final sample "2024-01-15T06" is chosen, although the first run reaches 2024-01-15T21. |
| Walkthrough.StaleFieldExample | tests/test_end_to_end.py:147-188 | With only the run 2024-01-10T00/6/4 at 2024-01-15T12 the result is the empty table, one "No valid forecast date found" warning for T2 at level 0, and only the catalog request. |
| Walkthrough.NoDateField | meteo_forecast/meteo_forecast.py:181-202 | A single field with no date chosen yields the empty table, that one warning and only its catalog request. |
| Walkthrough.CellLookupExample | tests/test_unit.py:101-108 | The reply col 100, row 200 gives (100, 200), and the field list is then requested for row 200 before column 100, the URL tests/test_unit.py:171 expects. |

## Left out

- HTTP transport: `_connect_meteo_api_` is not modelled. The API is a parameter that returns a decoded reply or an error. This covers the `Authorization` header, the status check and its message, connection errors, and JSON decoding. Because the API is a function of the request, a repeated request (as a repeated field spec sends) is assumed to get the same reply.
- TypeError for an API key that is not a string: in the model the key is always a string.
- `datetime.now(pytz.UTC)`: the clock is a parameter, read once per field.
- `warnings.warn`: the warnings are returned as a list, in order.
- `available_models`, `available_grids`, `available_fields`, `available_levels` and the other metadata methods (meteo_forecast.py lines 205 onward): they only pass API replies through.
- The default configuration's field list: the configuration is always a parameter.
- Validation of the configuration's shape: fields are pairs of a name and an integer level by type, so a malformed field entry cannot be written.
- Calling `get_forecast` before the coordinates are set: the source cannot do this, since construction always looks up the cell first. In the model the ghost field `located` records a successful lookup, and `GetForecast` requires it.
- Floats: latitude and longitude are strings, written into the lookup URL as given, and forecast values are an opaque type parameter.
- Non-integer or boolean levels and counts: levels, intervals and counts are integers.
- Dictionary order: the table is a `map`, so the insertion order of Python's dicts is not modelled.
- Forecast.FieldStep: promises that a failing field leaves the table unchanged. That holds because the reply's times are typed as strings, so the merge cannot fail. In the source, a time that cannot be a dict key (a JSON list or object) raises TypeError midway through the merge. The pairs stored before it stay in the table, and the field still only adds a warning. The model does not capture this partial merge.
- Exceptions other than those listed in `Outcomes.Error` (for example a reply whose `dates` is not a list): every failure of a field becomes a warning in the client, and the model only names these errors.
- Calendar.Parse: accepts only ASCII digits in the numeric fields, where strptime also takes other Unicode digits.
- Calendar.Format: always writes four year digits. For years below 1000 some C libraries write fewer digits.
- Forecast.ErrorText: for every strptime failure it uses the wording of the pattern-mismatch message, and it writes KeyError's quoting of the key in simplified form.
- Forecast.MeteoForecast.constructor: leaves `x` and `y` at 0 instead of `None`, with `located` false until `SetXy` succeeds.
