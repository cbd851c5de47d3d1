/** Forecast runs and the choice of the forecast date to request.

    A run descriptor names a starting date, an interval in hours and a count;
    it stands for that many evenly spaced forecast times. Of all the runs in a
    field's catalog, the client requests the newest sample of the LAST-declared
    run that has a sample no older than 24 hours before now (truncated to the
    hour); earlier-declared runs are only looked at when the later ones have no
    such sample. */
module Runs {
  import opened Outcomes
  import opened Calendar

  /** A run descriptor as the catalog sends it; each key may be absent. */
  datatype Run = Run(startingDate: Option<string>, interval: Option<int>, count: Option<int>)

  /** The chosen forecast date: the run and sample it came from, and its text. */
  datatype Choice = Choice(run: nat, sample: nat, date: string)

  const MicrosPerHour: int := 3_600_000_000

  /** How old, in hours, the requested forecast date may be. */
  const StaleHours: int := 24

  /** The cutoff hour for a clock reading `now` (microseconds since
      0001-01-01T00): `now` with minutes, seconds and microseconds dropped, less
      24 hours. Below the first representable hour that subtraction overflows. */
  function Cutoff(now: nat): (r: Result<int>)
    ensures r.Ok? <==> now >= StaleHours * MicrosPerHour
    ensures r.Ok? ==> (r.value + StaleHours) * MicrosPerHour <= now < (r.value + StaleHours + 1) * MicrosPerHour
    ensures r.Err? ==> r.error == DateOverflow
  {
    var h := now / MicrosPerHour - StaleHours;
    if h < 0 then Err(DateOverflow) else Ok(h)
  }

  /** A clock reading exactly on hour `h` has the cutoff h - 24. */
  lemma CutoffOnTheHour(h: int, now: nat)
    requires h >= StaleHours && now == h * MicrosPerHour
    ensures Cutoff(now) == Ok(h - StaleHours)
  {
    assert now / MicrosPerHour == h;
  }

  /** The hours start, start + interval, ...: `count` of them, none when count <= 0. */
  function Samples(start: int, interval: int, count: int): (hs: seq<int>)
    ensures |hs| == if count < 0 then 0 else count
    ensures forall i :: 0 <= i < |hs| ==> hs[i] == start + i * interval
  {
    seq(if count < 0 then 0 else count, i => start + i * interval)
  }

  predicate AllInRange(hs: seq<int>) {
    forall i :: 0 <= i < |hs| ==> InRange(hs[i])
  }

  /** The sample hours of a run, or the error that expanding it raises: a missing
      key, a starting date strptime rejects, or a sample outside years 1..9999. */
  function ExpandHours(run: Run): (r: Result<seq<int>>)
    ensures r.Ok? <==>
      && run.startingDate.Some? && Parse(run.startingDate.value).Ok?
      && run.interval.Some? && run.count.Some?
      && AllInRange(Samples(Parse(run.startingDate.value).value, run.interval.value, run.count.value))
    ensures r.Ok? ==>
      && r.value == Samples(Parse(run.startingDate.value).value, run.interval.value, run.count.value)
      && AllInRange(r.value)
    ensures run.startingDate.None? ==> r == Err(MissingKey("starting-date"))
    ensures run.startingDate.Some? && Parse(run.startingDate.value).Err? ==> r == Err(BadDate(run.startingDate.value))
    ensures run.startingDate.Some? && Parse(run.startingDate.value).Ok? ==>
      && (run.interval.None? ==> r == Err(MissingKey("interval")))
      && (run.interval.Some? && run.count.None? ==> r == Err(MissingKey("count")))
      && (run.interval.Some? && run.count.Some? &&
          !AllInRange(Samples(Parse(run.startingDate.value).value, run.interval.value, run.count.value))
          ==> r == Err(DateOverflow))
  {
    var text :- Key(run.startingDate, "starting-date");
    var start :- Parse(text);
    var interval :- Key(run.interval, "interval");
    var count :- Key(run.count, "count");
    var hs := Samples(start, interval, count);
    if AllInRange(hs) then Ok(hs) else Err(DateOverflow)
  }

  lemma ParseFormatEach(hs: seq<int>)
    requires forall i :: 0 <= i < |hs| ==> InRange(hs[i])
    ensures forall i :: 0 <= i < |hs| ==> Parse(Format(hs[i])) == Ok(hs[i])
  {
    forall i | 0 <= i < |hs| {
      ParseFormat(hs[i]);
    }
  }

  /** `_get_forecast_dates`: the run's sample times as "YYYY-MM-DDTHH" strings,
      the i-th the text of the i-th sample hour, start + i * interval. */
  function ForecastDates(run: Run): (r: Result<seq<string>>)
    ensures r.Ok? == ExpandHours(run).Ok?
    ensures r.Err? ==> r.error == ExpandHours(run).error
    ensures r.Ok? ==>
      var hs := ExpandHours(run).value;
      && |r.value| == |hs|
      && forall i :: 0 <= i < |hs| ==> r.value[i] == Format(hs[i])
  {
    var hs :- ExpandHours(run);
    Ok(seq(|hs|, i requires 0 <= i < |hs| => Format(hs[i])))
  }

  /** Every date of a run reads back, through strptime, as its sample hour. */
  lemma ForecastDatesReadBack(run: Run)
    requires ForecastDates(run).Ok?
    ensures var dates, hs := ForecastDates(run).value, ExpandHours(run).value;
            forall i :: 0 <= i < |dates| ==> Parse(dates[i]) == Ok(hs[i])
  {
    ParseFormatEach(ExpandHours(run).value);
  }

  lemma Distribute(a: int, b: int, c: int)
    ensures (a - b) * c == a * c - b * c
  {
  }

  lemma ProductPositive(a: int, b: int)
    requires a > 0 && b > 0
    ensures a * b > 0
  {
  }

  /** The same spacing holds between any two samples, and with a positive
      interval the samples strictly increase. */
  lemma ExpansionEvenlySpaced(run: Run, i: int, j: int)
    requires ExpandHours(run).Ok?
    requires 0 <= i < j < |ExpandHours(run).value|
    ensures var hs := ExpandHours(run).value;
            hs[j] - hs[i] == (j - i) * run.interval.value
            && (run.interval.value > 0 ==> hs[i] < hs[j])
  {
    var hs := ExpandHours(run).value;
    var iv := run.interval.value;
    var start := Parse(run.startingDate.value).value;
    assert hs[j] == start + j * iv && hs[i] == start + i * iv;
    Distribute(j, i, iv);
    if iv > 0 {
      ProductPositive(j - i, iv);
    }
  }

  /** The index of the newest sample that is no older than `cutoff`, scanning
      from the last sample backwards. */
  function LatestFresh(hs: seq<int>, cutoff: int): (r: Option<nat>)
    ensures r.Some? ==> r.value < |hs| && hs[r.value] >= cutoff
                        && forall j :: r.value < j < |hs| ==> hs[j] < cutoff
    ensures r.None? ==> forall j :: 0 <= j < |hs| ==> hs[j] < cutoff
    decreases |hs|
  {
    if hs == [] then None
    else if hs[|hs| - 1] >= cutoff then Some(|hs| - 1)
    else LatestFresh(hs[..|hs| - 1], cutoff)
  }

  /** Expanding each run of a catalog, in declared order. */
  function Expansions(runs: seq<Run>): (xs: seq<Result<seq<int>>>)
    ensures |xs| == |runs|
  {
    if runs == [] then [] else Expansions(runs[..|runs| - 1]) + [ExpandHours(runs[|runs| - 1])]
  }

  /** The k-th expansion is the k-th run's. */
  lemma {:induction false} ExpansionAt(runs: seq<Run>, k: nat)
    requires k < |runs|
    ensures Expansions(runs)[k] == ExpandHours(runs[k])
    decreases |runs|
  {
    var n := |runs| - 1;
    if k < n {
      ExpansionAt(runs[..n], k);
    }
  }

  /** An expanded run whose every sample is older than the cutoff. */
  ghost predicate Stale(x: Result<seq<int>>, cutoff: int) {
    x.Ok? && forall i :: 0 <= i < |x.value| ==> x.value[i] < cutoff
  }

  /** Every run declared after position `k` is stale. */
  ghost predicate StaleAfter(xs: seq<Result<seq<int>>>, cutoff: int, k: int) {
    forall j :: 0 <= j < |xs| && k < j ==> Stale(xs[j], cutoff)
  }

  /** Sample `i` of run `k` is where the reverse scan stops: recent enough, the
      last recent one of its run, and every later-declared run stale. */
  ghost predicate Picked(xs: seq<Result<seq<int>>>, cutoff: int, k: nat, i: nat) {
    && k < |xs|
    && xs[k].Ok?
    && i < |xs[k].value|
    && xs[k].value[i] >= cutoff
    && (forall j :: i < j < |xs[k].value| ==> xs[k].value[j] < cutoff)
    && StaleAfter(xs, cutoff, k)
  }

  /** Run `k` fails to expand, and the scan reaches it: every later run is stale. */
  ghost predicate BrokenAt(xs: seq<Result<seq<int>>>, cutoff: int, k: nat, e: Error) {
    k < |xs| && xs[k] == Err(e) && StaleAfter(xs, cutoff, k)
  }

  /** What holds of the runs before the last one still holds of all of them
      when the last one is stale. */
  lemma StalePrefix(xs: seq<Result<seq<int>>>, cutoff: int)
    requires |xs| > 0 && Stale(xs[|xs| - 1], cutoff)
    ensures forall m :: StaleAfter(xs[..|xs| - 1], cutoff, m) ==> StaleAfter(xs, cutoff, m)
    ensures forall k, i :: Picked(xs[..|xs| - 1], cutoff, k, i) ==> Picked(xs, cutoff, k, i)
    ensures forall k, e :: BrokenAt(xs[..|xs| - 1], cutoff, k, e) ==> BrokenAt(xs, cutoff, k, e)
  {
    var n := |xs| - 1;
    assert forall j :: 0 <= j < n ==> xs[..n][j] == xs[j];
  }

  /** A failure the scan of the earlier runs reaches is reached by the scan of
      all of them when the last run is stale. */
  lemma BrokenPrefix(xs: seq<Result<seq<int>>>, prefix: seq<Result<seq<int>>>, cutoff: int, e: Error)
    requires |xs| > 0 && prefix == xs[..|xs| - 1] && Stale(xs[|xs| - 1], cutoff)
    requires exists m :: BrokenAt(prefix, cutoff, m, e)
    ensures exists m :: BrokenAt(xs, cutoff, m, e)
  {
    var m :| BrokenAt(prefix, cutoff, m, e);
    StalePrefix(xs, cutoff);
    assert BrokenAt(xs, cutoff, m, e);
  }

  /** The nested reverse scan of get_forecast over expanded runs: runs
      last-declared first, samples newest first; the first sample at or after
      `cutoff` is the answer (run and sample index), `None` when there is none,
      and the run's error when a run reached by the scan cannot be expanded. */
  function Scan(xs: seq<Result<seq<int>>>, cutoff: int): (r: Result<Option<(nat, nat)>>)
    ensures r.Ok? && r.value.Some? ==> Picked(xs, cutoff, r.value.value.0, r.value.value.1)
    ensures r.Ok? && r.value.None? ==> StaleAfter(xs, cutoff, -1)
    ensures r.Err? ==> exists k :: BrokenAt(xs, cutoff, k, r.error)
    decreases |xs|
  {
    if xs == [] then Ok(None)
    else
      var k := |xs| - 1;
      match xs[k]
      case Err(e) =>
        assert BrokenAt(xs, cutoff, k, e);
        Err(e)
      case Ok(hs) =>
        match LatestFresh(hs, cutoff)
        case Some(i) => Ok(Some((k, i)))
        case None =>
          var earlier := Scan(xs[..k], cutoff);
          StalePrefix(xs, cutoff);
          if earlier.Err? then BrokenPrefix(xs, xs[..k], cutoff, earlier.error); earlier else earlier
  }

  /** A stale last run is skipped: the scan goes on with the runs before it. */
  lemma ScanSkipsStale(xs: seq<Result<seq<int>>>, cutoff: int)
    requires |xs| > 0 && Stale(xs[|xs| - 1], cutoff)
    ensures Scan(xs, cutoff) == Scan(xs[..|xs| - 1], cutoff)
  {
  }

  /** The scan stops at the newest recent sample of the last run that has one. */
  lemma LatestFreshUnique(hs: seq<int>, cutoff: int, i: nat)
    requires i < |hs| && hs[i] >= cutoff
    requires forall j :: i < j < |hs| ==> hs[j] < cutoff
    ensures LatestFresh(hs, cutoff) == Some(i)
  {
  }

  /** Converse of Scan's first guarantee: wherever Picked holds, the scan
      returns exactly that run and sample. */
  lemma {:induction false} ScanFindsPicked(xs: seq<Result<seq<int>>>, cutoff: int, k: nat, i: nat)
    requires Picked(xs, cutoff, k, i)
    ensures Scan(xs, cutoff) == Ok(Some((k, i)))
    decreases |xs|
  {
    var n := |xs| - 1;
    if k == n {
      LatestFreshUnique(xs[k].value, cutoff, i);
    } else {
      ScanSkipsStale(xs, cutoff);
      assert forall j :: 0 <= j < n ==> xs[..n][j] == xs[j];
      assert Picked(xs[..n], cutoff, k, i);
      ScanFindsPicked(xs[..n], cutoff, k, i);
    }
  }

  /** Converse of Scan's second guarantee: when every run is stale the scan
      finds nothing. */
  lemma {:induction false} ScanAllStale(xs: seq<Result<seq<int>>>, cutoff: int)
    requires StaleAfter(xs, cutoff, -1)
    ensures Scan(xs, cutoff) == Ok(None)
    decreases |xs|
  {
    if xs != [] {
      var n := |xs| - 1;
      ScanSkipsStale(xs, cutoff);
      assert forall j :: 0 <= j < n ==> xs[..n][j] == xs[j];
      assert StaleAfter(xs[..n], cutoff, -1);
      ScanAllStale(xs[..n], cutoff);
    }
  }

  /** Converse of Scan's third guarantee: a broken run the scan reaches is the
      scan's error. */
  lemma {:induction false} ScanReachesBroken(xs: seq<Result<seq<int>>>, cutoff: int, k: nat, e: Error)
    requires BrokenAt(xs, cutoff, k, e)
    ensures Scan(xs, cutoff) == Err(e)
    decreases |xs|
  {
    var n := |xs| - 1;
    if k < n {
      ScanSkipsStale(xs, cutoff);
      assert forall j :: 0 <= j < n ==> xs[..n][j] == xs[j];
      assert BrokenAt(xs[..n], cutoff, k, e);
      ScanReachesBroken(xs[..n], cutoff, k, e);
    }
  }

  /** The scan of all runs, once the runs after `k` are known to be passed
      over, is the scan of the runs up to `k`; these three lemmas take it one
      run further. */
  lemma StepBroken(xs: seq<Result<seq<int>>>, cutoff: int, k: nat, e: Error)
    requires k < |xs| && Scan(xs, cutoff) == Scan(xs[..k + 1], cutoff) && xs[k] == Err(e)
    ensures Scan(xs, cutoff) == Err(e)
  {
    assert xs[..k + 1][k] == xs[k];
  }

  lemma StepFound(xs: seq<Result<seq<int>>>, cutoff: int, k: nat, i: nat)
    requires k < |xs| && Scan(xs, cutoff) == Scan(xs[..k + 1], cutoff)
    requires xs[k].Ok? && LatestFresh(xs[k].value, cutoff) == Some(i)
    ensures Scan(xs, cutoff) == Ok(Some((k, i)))
  {
    assert xs[..k + 1][k] == xs[k];
  }

  lemma StepStale(xs: seq<Result<seq<int>>>, cutoff: int, k: nat)
    requires k < |xs| && Scan(xs, cutoff) == Scan(xs[..k + 1], cutoff)
    requires xs[k].Ok? && LatestFresh(xs[k].value, cutoff) == None
    ensures Scan(xs, cutoff) == Scan(xs[..k], cutoff)
  {
    assert xs[..k + 1][k] == xs[k];
    assert xs[..k + 1][..k] == xs[..k];
  }

  /** The forecast date `get_forecast` requests for a catalog of runs and a
      cutoff: the text of the sample the reverse scan stops at. */
  function Select(runs: seq<Run>, cutoff: int): (r: Result<Option<Choice>>)
    ensures r.Ok? && r.value.Some? ==>
      var ch := r.value.value;
      && Picked(Expansions(runs), cutoff, ch.run, ch.sample)
      && Parse(ch.date) == Ok(Expansions(runs)[ch.run].value[ch.sample])
    ensures r.Ok? && r.value.None? ==> StaleAfter(Expansions(runs), cutoff, -1)
    ensures r.Err? ==> exists k :: BrokenAt(Expansions(runs), cutoff, k, r.error)
  {
    var found :- Scan(Expansions(runs), cutoff);
    match found
    case None => Ok(None)
    case Some((k, i)) =>
      var h := Expansions(runs)[k].value[i];
      ExpansionAt(runs, k);
      ParseFormat(h);
      Ok(Some(Choice(k, i, Format(h))))
  }

  /** The requested date reads back as an hour no older than the cutoff. */
  lemma SelectedDateIsRecent(runs: seq<Run>, cutoff: int)
    requires Select(runs, cutoff).Ok? && Select(runs, cutoff).value.Some?
    ensures var ch := Select(runs, cutoff).value.value;
            Parse(ch.date).Ok? && Parse(ch.date).value >= cutoff
  {
    var ch := Select(runs, cutoff).value.value;
    assert Picked(Expansions(runs), cutoff, ch.run, ch.sample);
  }

  /** Converse of Select's first guarantee: wherever Picked holds, the date
      chosen is that run's sample, as text. */
  lemma SelectFinds(runs: seq<Run>, cutoff: int, k: nat, i: nat)
    requires Picked(Expansions(runs), cutoff, k, i)
    ensures InRange(Expansions(runs)[k].value[i])
    ensures Select(runs, cutoff) == Ok(Some(Choice(k, i, Format(Expansions(runs)[k].value[i]))))
  {
    ExpansionAt(runs, k);
    ScanFindsPicked(Expansions(runs), cutoff, k, i);
  }

  /** The inner loop of get_forecast: a run's dates from the newest
      backwards, stopping at the first whose parsed hour is at or after the
      cutoff. `hs` are the hours the dates read back as. */
  method NewestRecent(dates: seq<string>, ghost hs: seq<int>, cutoff: int) returns (found: Option<nat>)
    requires |dates| == |hs|
    requires forall i :: 0 <= i < |dates| ==> Parse(dates[i]) == Ok(hs[i])
    ensures found == LatestFresh(hs, cutoff)
  {
    found := None;
    var j := |dates|;
    while j > 0
      invariant 0 <= j <= |dates|
      invariant forall i :: j <= i < |dates| ==> hs[i] < cutoff
    {
      j := j - 1;
      var parsed := Parse(dates[j]);
      assert parsed == Ok(hs[j]);
      if parsed.value >= cutoff {
        found := Some(j);
        break;
      }
    }
    if found.Some? {
      LatestFreshUnique(hs, cutoff, j);
    }
  }

  /** The outer loop of get_forecast that looks for `last_forecast_date`:
      runs from the last-declared one backwards, each run's dates expanded
      and searched by NewestRecent, stopping at the first run with a recent
      date. */
  method SelectLatest(runs: seq<Run>, cutoff: int) returns (r: Result<Option<Choice>>)
    ensures r == Select(runs, cutoff)
  {
    ghost var xs := Expansions(runs);
    var last: Option<Choice> := None;
    var k := |runs|;
    assert xs[..k] == xs;
    while k > 0
      invariant 0 <= k <= |runs|
      invariant Scan(xs, cutoff) == Scan(xs[..k], cutoff)
    {
      k := k - 1;
      ExpansionAt(runs, k);
      var dates := ForecastDates(runs[k]);
      if dates.Err? {
        StepBroken(xs, cutoff, k, dates.error);
        return Err(dates.error);
      }
      ghost var hs := xs[k].value;
      ForecastDatesReadBack(runs[k]);
      var found := NewestRecent(dates.value, hs, cutoff);
      if found.Some? {
        StepFound(xs, cutoff, k, found.value);
        last := Some(Choice(k, found.value, dates.value[found.value]));
        break;
      }
      StepStale(xs, cutoff, k);
    }
    if last.None? {
      assert k == 0 && xs[..0] == [];
    }
    r := Ok(last);
  }
}
