/** Worked cases from the client's own test suite, stated on the model. */
module Scenarios {
  import opened Outcomes
  import opened Decimal
  import opened Calendar
  import opened Runs

  lemma MultiplyMonotone(i: int, j: int, iv: int)
    requires 0 <= i <= j && iv >= 0
    ensures 0 <= i * iv <= j * iv
  {
  }

  /** Sample i lies between the first sample and sample j, i <= j, whatever
      the sign of the interval. */
  lemma MultiplyBetween(i: int, j: int, iv: int)
    requires 0 <= i <= j
    ensures iv >= 0 ==> 0 <= i * iv <= j * iv
    ensures iv < 0 ==> j * iv <= i * iv <= 0
  {
    if iv >= 0 {
      MultiplyMonotone(i, j, iv);
    } else {
      MultiplyMonotone(i, j, -iv);
      assert i * (-iv) == -(i * iv) && j * (-iv) == -(j * iv);
    }
  }

  /** A run whose start parses and whose last sample (if any) is representable
      expands to exactly its samples, the i-th start + i * interval, for an
      interval of either sign and any count. */
  lemma ExpandsFully(run: Run, start: int)
    requires run.startingDate.Some? && Parse(run.startingDate.value) == Ok(start)
    requires run.interval.Some? && run.count.Some?
    requires run.count.value >= 1 ==> InRange(start + (run.count.value - 1) * run.interval.value)
    ensures ExpandHours(run) == Ok(Samples(start, run.interval.value, run.count.value))
  {
    var iv, n := run.interval.value, run.count.value;
    forall i | 0 <= i < n
      ensures InRange(start + i * iv)
    {
      MultiplyBetween(i, n - 1, iv);
    }
    assert AllInRange(Samples(start, iv, n));
  }

  /** A run that starts at the text of hour `h` starts at `h`. */
  lemma StartsAt(run: Run, h: int, s: string)
    requires run.startingDate == Some(s) && InRange(h) && Format(h) == s
    ensures Parse(run.startingDate.value) == Ok(h)
  {
    ParseFormat(h);
  }

  /** Sample i of a run whose hour formats as `s` has the date `s`. */
  lemma SampleText(run: Run, i: nat, h: int, s: string)
    requires ExpandHours(run).Ok? && i < |ExpandHours(run).value|
    requires ExpandHours(run).value[i] == h && Format(h) == s
    ensures ForecastDates(run).Ok? && ForecastDates(run).value[i] == s
  {
  }

  /** The hour `h` of a valid civil time is written as that time's text. */
  lemma FormatsAs(c: Civil, h: int, s: string)
    requires Valid(c) && h == ToHours(c) && Canonical(c) == s
    ensures InRange(h) && Format(h) == s
  {
    FormatCivil(c);
  }

  lemma Years()
    ensures Padded(2024, 4) == "2024" && Padded(2025, 4) == "2025"
  {
    assert Padded(2, 1) == "2";
    assert Padded(20, 2) == "20";
    assert Padded(202, 3) == "202";
  }

  lemma TwoDigits()
    ensures Padded(0, 2) == "00" && Padded(1, 2) == "01" && Padded(2, 2) == "02" && Padded(6, 2) == "06"
    ensures Padded(12, 2) == "12" && Padded(13, 2) == "13" && Padded(14, 2) == "14" && Padded(15, 2) == "15"
    ensures Padded(21, 2) == "21" && Padded(23, 2) == "23" && Padded(28, 2) == "28" && Padded(29, 2) == "29"
    ensures Padded(31, 2) == "31"
  {
    assert Padded(0, 1) == "0" && Padded(1, 1) == "1" && Padded(2, 1) == "2" && Padded(3, 1) == "3";
  }

  lemma TwoOf<T>(r: seq<T>, a: T, b: T)
    requires |r| == 2 && r[0] == a && r[1] == b
    ensures r == [a, b]
  {
  }

  lemma ThreeOf<T>(r: seq<T>, a: T, b: T, c: T)
    requires |r| == 3 && r[0] == a && r[1] == b && r[2] == c
    ensures r == [a, b, c]
  {
  }

  /** The hour counts of the dates the examples use. */
  lemma JanuaryHours()
    ensures ToHours(Civil(2024, 1, 1, 0)) == 17733240
    ensures ToHours(Civil(2024, 1, 1, 6)) == 17733246
    ensures ToHours(Civil(2024, 1, 1, 12)) == 17733252
  {
  }

  lemma RolloverHours()
    ensures ToHours(Civil(2024, 12, 31, 23)) == 17742023
    ensures ToHours(Civil(2025, 1, 1, 0)) == 17742024
  {
  }

  lemma LeapHours()
    ensures ToHours(Civil(2024, 2, 28, 12)) == 17734644
    ensures ToHours(Civil(2024, 2, 29, 12)) == 17734668
  {
  }

  lemma SelectionHours()
    ensures ToHours(Civil(2024, 1, 14, 0)) == 17733552
    ensures ToHours(Civil(2024, 1, 13, 12)) == 17733540
    ensures ToHours(Civil(2024, 1, 15, 6)) == 17733582
    ensures ToHours(Civil(2024, 1, 15, 21)) == 17733597
  {
  }

  lemma ShowsJan01T00()
    ensures Canonical(Civil(2024, 1, 1, 0)) == "2024-01-01T00"
  {
    Years();
    TwoDigits();
  }

  lemma FormatsJan01T00(h: int)
    requires h == ToHours(Civil(2024, 1, 1, 0))
    ensures InRange(h) && Format(h) == "2024-01-01T00"
  {
    ShowsJan01T00();
    FormatsAs(Civil(2024, 1, 1, 0), h, "2024-01-01T00");
  }

  lemma ShowsJan01T06()
    ensures Canonical(Civil(2024, 1, 1, 6)) == "2024-01-01T06"
  {
    Years();
    TwoDigits();
  }

  lemma FormatsJan01T06(h: int)
    requires h == ToHours(Civil(2024, 1, 1, 6))
    ensures InRange(h) && Format(h) == "2024-01-01T06"
  {
    ShowsJan01T06();
    FormatsAs(Civil(2024, 1, 1, 6), h, "2024-01-01T06");
  }

  lemma ShowsJan01T12()
    ensures Canonical(Civil(2024, 1, 1, 12)) == "2024-01-01T12"
  {
    Years();
    TwoDigits();
  }

  lemma FormatsJan01T12(h: int)
    requires h == ToHours(Civil(2024, 1, 1, 12))
    ensures InRange(h) && Format(h) == "2024-01-01T12"
  {
    ShowsJan01T12();
    FormatsAs(Civil(2024, 1, 1, 12), h, "2024-01-01T12");
  }

  lemma ShowsDec31T23()
    ensures Canonical(Civil(2024, 12, 31, 23)) == "2024-12-31T23"
  {
    Years();
    TwoDigits();
  }

  lemma FormatsDec31T23(h: int)
    requires h == ToHours(Civil(2024, 12, 31, 23))
    ensures InRange(h) && Format(h) == "2024-12-31T23"
  {
    ShowsDec31T23();
    FormatsAs(Civil(2024, 12, 31, 23), h, "2024-12-31T23");
  }

  lemma ShowsNewYear()
    ensures Canonical(Civil(2025, 1, 1, 0)) == "2025-01-01T00"
  {
    Years();
    TwoDigits();
  }

  lemma FormatsNewYear(h: int)
    requires h == ToHours(Civil(2025, 1, 1, 0))
    ensures InRange(h) && Format(h) == "2025-01-01T00"
  {
    ShowsNewYear();
    FormatsAs(Civil(2025, 1, 1, 0), h, "2025-01-01T00");
  }

  lemma ShowsFeb28T12()
    ensures Canonical(Civil(2024, 2, 28, 12)) == "2024-02-28T12"
  {
    Years();
    TwoDigits();
  }

  lemma FormatsFeb28T12(h: int)
    requires h == ToHours(Civil(2024, 2, 28, 12))
    ensures InRange(h) && Format(h) == "2024-02-28T12"
  {
    ShowsFeb28T12();
    FormatsAs(Civil(2024, 2, 28, 12), h, "2024-02-28T12");
  }

  lemma ShowsFeb29T12()
    ensures Canonical(Civil(2024, 2, 29, 12)) == "2024-02-29T12"
  {
    Years();
    TwoDigits();
  }

  lemma FormatsFeb29T12(h: int)
    requires h == ToHours(Civil(2024, 2, 29, 12))
    ensures InRange(h) && Format(h) == "2024-02-29T12"
  {
    ShowsFeb29T12();
    FormatsAs(Civil(2024, 2, 29, 12), h, "2024-02-29T12");
  }

  lemma ShowsJan14T00()
    ensures Canonical(Civil(2024, 1, 14, 0)) == "2024-01-14T00"
  {
    Years();
    TwoDigits();
  }

  lemma FormatsJan14T00(h: int)
    requires h == ToHours(Civil(2024, 1, 14, 0))
    ensures InRange(h) && Format(h) == "2024-01-14T00"
  {
    ShowsJan14T00();
    FormatsAs(Civil(2024, 1, 14, 0), h, "2024-01-14T00");
  }

  lemma ShowsJan13T12()
    ensures Canonical(Civil(2024, 1, 13, 12)) == "2024-01-13T12"
  {
    Years();
    TwoDigits();
  }

  lemma FormatsJan13T12(h: int)
    requires h == ToHours(Civil(2024, 1, 13, 12))
    ensures InRange(h) && Format(h) == "2024-01-13T12"
  {
    ShowsJan13T12();
    FormatsAs(Civil(2024, 1, 13, 12), h, "2024-01-13T12");
  }

  lemma ShowsJan15T06()
    ensures Canonical(Civil(2024, 1, 15, 6)) == "2024-01-15T06"
  {
    Years();
    TwoDigits();
  }

  lemma FormatsJan15T06(h: int)
    requires h == ToHours(Civil(2024, 1, 15, 6))
    ensures InRange(h) && Format(h) == "2024-01-15T06"
  {
    ShowsJan15T06();
    FormatsAs(Civil(2024, 1, 15, 6), h, "2024-01-15T06");
  }

  lemma ShowsJan15T21()
    ensures Canonical(Civil(2024, 1, 15, 21)) == "2024-01-15T21"
  {
    Years();
    TwoDigits();
  }

  lemma FormatsJan15T21(h: int)
    requires h == ToHours(Civil(2024, 1, 15, 21))
    ensures InRange(h) && Format(h) == "2024-01-15T21"
  {
    ShowsJan15T21();
    FormatsAs(Civil(2024, 1, 15, 21), h, "2024-01-15T21");
  }

  /** A two-sample run whose start parses to `h0` expands to `[h0, h0 + interval]`. */
  lemma ExpandsTwo(run: Run, h0: int, h1: int)
    requires run.startingDate.Some? && Parse(run.startingDate.value) == Ok(h0)
    requires run.interval.Some? && run.count == Some(2)
    requires h1 == h0 + run.interval.value && InRange(h0) && InRange(h1)
    ensures ExpandHours(run) == Ok([h0, h1])
  {
    var hs := Samples(h0, run.interval.value, 2);
    assert hs[0] == h0 && hs[1] == h1;
    TwoOf(hs, h0, h1);
  }

  /** A three-sample run whose start parses to `h0` expands to its three hours. */
  lemma ExpandsThree(run: Run, h0: int, h1: int, h2: int)
    requires run.startingDate.Some? && Parse(run.startingDate.value) == Ok(h0)
    requires run.interval.Some? && run.count == Some(3)
    requires h1 == h0 + run.interval.value && h2 == h1 + run.interval.value
    requires InRange(h0) && InRange(h1) && InRange(h2)
    ensures ExpandHours(run) == Ok([h0, h1, h2])
  {
    var hs := Samples(h0, run.interval.value, 3);
    assert hs[0] == h0 && hs[1] == h1 && hs[2] == h2;
    ThreeOf(hs, h0, h1, h2);
  }

  /** The dates of a two-sample run are the texts of its two hours. */
  lemma TwoTexts(run: Run, h0: int, h1: int, a: string, b: string)
    requires ExpandHours(run) == Ok([h0, h1])
    requires InRange(h0) && InRange(h1) && Format(h0) == a && Format(h1) == b
    ensures ForecastDates(run) == Ok([a, b])
  {
    var r := ForecastDates(run).value;
    var hs := ExpandHours(run).value;
    assert hs[0] == h0 && hs[1] == h1;
    assert r[0] == a && r[1] == b;
    TwoOf(r, a, b);
  }

  /** The dates of a three-sample run are the texts of its three hours. */
  lemma ThreeTexts(run: Run, h0: int, h1: int, h2: int, a: string, b: string, c: string)
    requires ExpandHours(run) == Ok([h0, h1, h2])
    requires InRange(h0) && InRange(h1) && InRange(h2)
    requires Format(h0) == a && Format(h1) == b && Format(h2) == c
    ensures ForecastDates(run) == Ok([a, b, c])
  {
    var r := ForecastDates(run).value;
    var hs := ExpandHours(run).value;
    assert hs[0] == h0 && hs[1] == h1 && hs[2] == h2;
    assert r[0] == a && r[1] == b && r[2] == c;
    ThreeOf(r, a, b, c);
  }

  /** A run of two samples whose hours format as `a` and `b` and which starts at `a`. */
  lemma TwoSampleRun(run: Run, h0: int, h1: int, a: string, b: string)
    requires run.startingDate == Some(a) && run.interval.Some? && run.count == Some(2)
    requires h1 == h0 + run.interval.value && InRange(h0) && InRange(h1)
    requires Format(h0) == a && Format(h1) == b
    ensures ForecastDates(run) == Ok([a, b])
  {
    ParseFormat(h0);
    ExpandsTwo(run, h0, h1);
    TwoTexts(run, h0, h1, a, b);
  }

  /** A run of three samples whose hours format as `a`, `b` and `c` and which starts at `a`. */
  lemma ThreeSampleRun(run: Run, h0: int, h1: int, h2: int, a: string, b: string, c: string)
    requires run.startingDate == Some(a) && run.interval.Some? && run.count == Some(3)
    requires h1 == h0 + run.interval.value && h2 == h1 + run.interval.value
    requires InRange(h0) && InRange(h1) && InRange(h2)
    requires Format(h0) == a && Format(h1) == b && Format(h2) == c
    ensures ForecastDates(run) == Ok([a, b, c])
  {
    ParseFormat(h0);
    ExpandsThree(run, h0, h1, h2);
    ThreeTexts(run, h0, h1, h2, a, b, c);
  }

  /** Starting at 2024-01-01T00, every 6 hours, 3 times: T00, T06 and T12. */
  lemma ExpansionExample(run: Run)
    requires run == Run(Some("2024-01-01T00"), Some(6), Some(3))
    ensures ForecastDates(run) == Ok(["2024-01-01T00", "2024-01-01T06", "2024-01-01T12"])
  {
    ExpansionExampleAt(run, 17733240);
  }

  /** The same, given the hour count of 2024-01-01T00. */
  lemma ExpansionExampleAt(run: Run, h: int)
    requires run == Run(Some("2024-01-01T00"), Some(6), Some(3)) && h == 17733240
    ensures ForecastDates(run) == Ok(["2024-01-01T00", "2024-01-01T06", "2024-01-01T12"])
  {
    JanuaryHours();
    FormatsJan01T00(h);
    FormatsJan01T06(h + 6);
    FormatsJan01T12(h + 12);
    ThreeSampleRun(run, h, h + 6, h + 12, "2024-01-01T00", "2024-01-01T06", "2024-01-01T12");
  }

  /** One hour after 2024-12-31T23 is 2025-01-01T00: the year rolls over. */
  lemma YearRolloverExample(run: Run)
    requires run == Run(Some("2024-12-31T23"), Some(1), Some(2))
    ensures ForecastDates(run) == Ok(["2024-12-31T23", "2025-01-01T00"])
  {
    YearRolloverExampleAt(run, 17742023);
  }

  /** The same, given the hour count of 2024-12-31T23. */
  lemma YearRolloverExampleAt(run: Run, h: int)
    requires run == Run(Some("2024-12-31T23"), Some(1), Some(2)) && h == 17742023
    ensures ForecastDates(run) == Ok(["2024-12-31T23", "2025-01-01T00"])
  {
    RolloverHours();
    FormatsDec31T23(h);
    FormatsNewYear(h + 1);
    TwoSampleRun(run, h, h + 1, "2024-12-31T23", "2025-01-01T00");
  }

  /** A day after 2024-02-28T12 is 2024-02-29T12: 2024 is a leap year. */
  lemma LeapDayExample(run: Run)
    requires run == Run(Some("2024-02-28T12"), Some(24), Some(2))
    ensures ForecastDates(run) == Ok(["2024-02-28T12", "2024-02-29T12"])
  {
    LeapDayExampleAt(run, 17734644);
  }

  /** The same, given the hour count of 2024-02-28T12. */
  lemma LeapDayExampleAt(run: Run, h: int)
    requires run == Run(Some("2024-02-28T12"), Some(24), Some(2)) && h == 17734644
    ensures ForecastDates(run) == Ok(["2024-02-28T12", "2024-02-29T12"])
  {
    LeapHours();
    FormatsFeb28T12(h);
    FormatsFeb29T12(h + 24);
    TwoSampleRun(run, h, h + 24, "2024-02-28T12", "2024-02-29T12");
  }

  /** The client's end-to-end case: runs 2024-01-14T00 every 3 hours 16 times and
      2024-01-13T12 every 6 hours 8 times, at 2024-01-15T12:00 UTC. The cutoff is
      2024-01-14T12; the last run is scanned first and its last sample,
      2024-01-15T06, qualifies, so that is requested even though the first run
      reaches 2024-01-15T21. */
  lemma SelectionExample(runs: seq<Run>, now: nat)
    requires runs == [Run(Some("2024-01-14T00"), Some(3), Some(16)), Run(Some("2024-01-13T12"), Some(6), Some(8))]
    requires now == 17733588 * MicrosPerHour
    ensures Cutoff(now) == Ok(17733564)
    ensures Select(runs, 17733564) == Ok(Some(Choice(1, 7, "2024-01-15T06")))
    ensures ForecastDates(runs[0]).Ok? && |ForecastDates(runs[0]).value| == 16
    ensures ForecastDates(runs[0]).value[15] == "2024-01-15T21"
  {
    CutoffOnTheHour(17733588, now);
    SelectionExampleAt(runs, 17733552, 17733540, 17733564);
  }

  lemma SelectionExampleAt(runs: seq<Run>, a: int, b: int, cutoff: int)
    requires runs == [Run(Some("2024-01-14T00"), Some(3), Some(16)), Run(Some("2024-01-13T12"), Some(6), Some(8))]
    requires a == 17733552 && b == 17733540 && cutoff == 17733564
    ensures Select(runs, cutoff) == Ok(Some(Choice(1, 7, "2024-01-15T06")))
    ensures ForecastDates(runs[0]).Ok? && |ForecastDates(runs[0]).value| == 16
    ensures ForecastDates(runs[0]).value[15] == "2024-01-15T21"
  {
    SelectionHours();
    LastRunChosen(runs, b, cutoff);
    FirstRunLater(runs[0], a);
  }

  /** The last run's last sample, 2024-01-15T06, is the one chosen. */
  lemma LastRunChosen(runs: seq<Run>, b: int, cutoff: int)
    requires |runs| == 2 && runs[1] == Run(Some("2024-01-13T12"), Some(6), Some(8))
    requires b == ToHours(Civil(2024, 1, 13, 12)) && b + 42 == ToHours(Civil(2024, 1, 15, 6))
    requires cutoff <= b + 42
    ensures Select(runs, cutoff) == Ok(Some(Choice(1, 7, "2024-01-15T06")))
  {
    FormatsJan13T12(b);
    FormatsJan15T06(b + 42);
    StartsAt(runs[1], b, "2024-01-13T12");
    ExpandsFully(runs[1], b);
    PickLast(runs, Samples(b, 6, 8), 7, b + 42, cutoff);
  }

  /** When the last run's final sample is recent enough, it is the one chosen. */
  lemma PickLast(runs: seq<Run>, hs: seq<int>, i: nat, last: int, cutoff: int)
    requires |runs| == 2 && ExpandHours(runs[1]) == Ok(hs)
    requires i + 1 == |hs| && hs[i] == last && last >= cutoff
    ensures InRange(last)
    ensures Select(runs, cutoff) == Ok(Some(Choice(1, i, Format(last))))
  {
    ExpansionAt(runs, 1);
    SelectFinds(runs, cutoff, 1, i);
  }

  /** The first run's last sample is 2024-01-15T21. */
  lemma FirstRunLater(run: Run, a: int)
    requires run == Run(Some("2024-01-14T00"), Some(3), Some(16))
    requires a == ToHours(Civil(2024, 1, 14, 0)) && a + 45 == ToHours(Civil(2024, 1, 15, 21))
    ensures ForecastDates(run).Ok? && |ForecastDates(run).value| == 16
    ensures ForecastDates(run).value[15] == "2024-01-15T21"
  {
    FormatsJan14T00(a);
    FormatsJan15T21(a + 45);
    StartsAt(run, a, "2024-01-14T00");
    ExpandsFully(run, a);
    SampleText(run, 15, a + 45, "2024-01-15T21");
  }
}
