/** The in-year list of paycheck dates for one job. Dates are day numbers;
    which calendar year a day falls in is given by a `yearOf` function that
    the caller supplies (calendar arithmetic is not modelled). */
module PaycheckSchedule {
  import opened Wrappers

  /** A date, as a count of days. */
  type Day = int

  /** The day increment of each supported frequency (`FREQUENCIES`). */
  const Frequencies: map<string, nat> := map[
    "weekly" := 7,
    "biweekly" := 14,
    "semimonthly" := 15,
    "monthly" := 30
  ]

  /** What a calendar guarantees: the year never goes back as days advance,
      and two days 366 or more apart lie in different years. */
  ghost predicate Calendar(yearOf: Day -> int) {
    && (forall a, b :: a <= b ==> yearOf(a) <= yearOf(b))
    && (forall a, b :: a + 366 <= b ==> yearOf(a) < yearOf(b))
  }

  datatype ScheduleError =
    | FirstPaycheckDateRequired
    | FrequencyOrCountRequired
    | UnsupportedFrequency(name: string)

  /** A constructed schedule. The constructor stores its three arguments and
      never changes them afterwards. */
  datatype Schedule = Schedule(firstPaycheckDate: Day, frequency: Option<string>, paycheckCount: Option<int>) {
    /** What `validate!` has established. */
    ghost predicate Valid() {
      && (frequency.Some? || paycheckCount.Some?)
      && (frequency.Some? ==> frequency.value in Frequencies)
    }
  }

  /** The constructor with `validate!`: a missing (or unparseable) first
      date, neither frequency nor count, or an unknown frequency name is a
      configuration error; otherwise the arguments are kept as given. */
  function NewSchedule(firstPaycheckDate: Option<Day>, frequency: Option<string>, paycheckCount: Option<int>)
    : (r: Result<Schedule, ScheduleError>)
    ensures r.Success? <==>
              && firstPaycheckDate.Some?
              && (frequency.Some? || paycheckCount.Some?)
              && (frequency.Some? ==> frequency.value in Frequencies)
    ensures r.Success? ==>
              && r.value.Valid()
              && r.value == Schedule(firstPaycheckDate.value, frequency, paycheckCount)
    ensures firstPaycheckDate.Some? && frequency.None? && paycheckCount.None? ==>
              r == Failure(FrequencyOrCountRequired)
    ensures firstPaycheckDate.Some? && frequency.Some? && frequency.value !in Frequencies ==>
              r == Failure(UnsupportedFrequency(frequency.value))
  {
    if firstPaycheckDate.None? then Failure(FirstPaycheckDateRequired)
    else if frequency.None? && paycheckCount.None? then Failure(FrequencyOrCountRequired)
    else if frequency.Some? && frequency.value !in Frequencies then Failure(UnsupportedFrequency(frequency.value))
    else Success(Schedule(firstPaycheckDate.value, frequency, paycheckCount))
  }

  /** `increment` as written: the frequency's day count if there is a
      frequency, and 0 for a count-only schedule. `dates_exhausted?` is
      always false, so the result is never nil, and Ruby treats 0 as true:
      `break unless increment` never leaves the loop. */
  function Increment(s: Schedule): (inc: Option<nat>)
    requires s.Valid()
    ensures inc.Some?
    ensures s.frequency.Some? ==> inc.value == Frequencies[s.frequency.value] && inc.value > 0
    ensures s.frequency.None? ==> inc.value == 0
  {
    if s.frequency.Some? then Some(Frequencies[s.frequency.value])
    else Some(0)
  }

  /** The increment the count-only test evidently expects: a zero increment
      counts as no increment, so the loop stops after the first date. */
  function IntendedIncrement(s: Schedule): (inc: Option<nat>)
    requires s.Valid()
    ensures s.frequency.Some? ==> inc == Increment(s)
    ensures s.frequency.None? ==> inc.None?
  {
    if s.frequency.Some? then Some(Frequencies[s.frequency.value]) else None
  }

  function StepOf(inc: Option<nat>): nat {
    inc.GetOr(0)
  }

  /** The loop of `dates_for_year` would append another date after `n` of them. */
  ghost predicate Continues(n: nat, first: Day, inc: Option<nat>, count: Option<int>, year: int, yearOf: Day -> int) {
    && yearOf(first + n * StepOf(inc)) == year
    && (count.None? || n < count.value)
    && (inc.Some? || n == 0)
  }

  /** `dates` is what the loop produces: dates spaced by the increment from
      the first one, all in `year`, never more than the count, and the loop
      would not go on. */
  ghost predicate IsDatesFor(dates: seq<Day>, first: Day, inc: Option<nat>, count: Option<int>, year: int, yearOf: Day -> int) {
    && (forall k :: 0 <= k < |dates| ==> dates[k] == first + k * StepOf(inc))
    && (forall k :: 0 <= k < |dates| ==> yearOf(dates[k]) == year)
    && (count.Some? && |dates| > 0 ==> |dates| <= count.value)
    && (inc.None? ==> |dates| <= 1)
    && !Continues(|dates|, first, inc, count, year, yearOf)
  }

  /** The description above fixes the dates: the loop's output is a
      function of the schedule and the year. */
  lemma IsDatesForUnique(d1: seq<Day>, d2: seq<Day>, first: Day, inc: Option<nat>, count: Option<int>, year: int, yearOf: Day -> int)
    requires IsDatesFor(d1, first, inc, count, year, yearOf)
    requires IsDatesFor(d2, first, inc, count, year, yearOf)
    ensures d1 == d2
  {
    PrefixContinues(d1, |d2|, first, inc, count, year, yearOf);
    PrefixContinues(d2, |d1|, first, inc, count, year, yearOf);
    assert |d1| == |d2|;
    assert forall k :: 0 <= k < |d1| ==> d1[k] == d2[k];
  }

  /** Every shorter prefix of the loop's output is one the loop went on from. */
  lemma PrefixContinues(dates: seq<Day>, n: nat, first: Day, inc: Option<nat>, count: Option<int>, year: int, yearOf: Day -> int)
    requires IsDatesFor(dates, first, inc, count, year, yearOf)
    ensures n < |dates| ==> Continues(n, first, inc, count, year, yearOf)
  {
    if n < |dates| {
      assert yearOf(dates[n]) == year;
    }
  }

  /** The `while` loop of `dates_for_year`, for a given increment: append
      the current date while it is in `year` and the count is not reached,
      leave after the first date when there is no increment, else advance. */
  method CollectDates(first: Day, inc: Option<nat>, count: Option<int>, year: int, yearOf: Day -> int)
    returns (dates: seq<Day>)
    requires Calendar(yearOf)
    requires inc == Some(0) ==> count.Some?
    ensures IsDatesFor(dates, first, inc, count, year, yearOf)
  {
    dates := [];
    var current := first;
    while yearOf(current) == year && (count.None? || |dates| < count.value)
      invariant current == first + |dates| * StepOf(inc)
      invariant forall k :: 0 <= k < |dates| ==> dates[k] == first + k * StepOf(inc)
      invariant forall k :: 0 <= k < |dates| ==> yearOf(dates[k]) == year
      invariant count.Some? && |dates| > 0 ==> |dates| <= count.value
      invariant inc.None? ==> |dates| == 0
      decreases (if count.Some? then count.value - |dates| else 0), first + 366 - current
    {
      if |dates| > 0 {
        assert yearOf(dates[0]) == year;
      }
      dates := dates + [current];
      if inc.None? {
        break;
      }
      current := current + inc.value;
    }
  }

  /** `dates_for_year` as written. In frequency mode the dates start at the
      first paycheck and step by the frequency's days; in count-only mode
      the increment is 0, so the list holds `paycheck_count` copies of the
      first date when that date is in the year. */
  method DatesForYear(s: Schedule, year: int, yearOf: Day -> int) returns (dates: seq<Day>)
    requires s.Valid() && Calendar(yearOf)
    ensures IsDatesFor(dates, s.firstPaycheckDate, Increment(s), s.paycheckCount, year, yearOf)
    ensures forall k :: 0 <= k < |dates| ==> yearOf(dates[k]) == year
    ensures yearOf(s.firstPaycheckDate) != year ==> dates == []
    ensures |dates| > 0 ==> dates[0] == s.firstPaycheckDate
    ensures s.paycheckCount.Some? && |dates| > 0 ==> |dates| <= s.paycheckCount.value
    ensures s.frequency.Some? ==>
              (forall k :: 0 < k < |dates| ==> dates[k] - dates[k - 1] == Frequencies[s.frequency.value])
    ensures s.frequency.Some? ==> (forall j, k :: 0 <= j < k < |dates| ==> dates[j] < dates[k])
    ensures s.frequency.None? ==>
              && (forall k :: 0 <= k < |dates| ==> dates[k] == s.firstPaycheckDate)
              && |dates| == (if yearOf(s.firstPaycheckDate) == year && s.paycheckCount.value > 0
                             then s.paycheckCount.value else 0)
  {
    dates := CollectDates(s.firstPaycheckDate, Increment(s), s.paycheckCount, year, yearOf);
    if |dates| > 0 {
      assert dates[0] == s.firstPaycheckDate + 0 * StepOf(Increment(s));
    }
    if s.frequency.Some? {
      var step := Frequencies[s.frequency.value];
      forall j, k | 0 <= j < k < |dates| ensures dates[j] < dates[k] {
        assert dates[k] - dates[j] == (k - j) * step;
      }
    }
    if s.frequency.None? && yearOf(s.firstPaycheckDate) == year && s.paycheckCount.value > 0 {
      assert !Continues(|dates|, s.firstPaycheckDate, Increment(s), s.paycheckCount, year, yearOf);
    }
  }

  /** `dates_for_year` with the increment the count-only test expects: a
      count-only schedule yields just its first date. */
  method DatesForYearIntended(s: Schedule, year: int, yearOf: Day -> int) returns (dates: seq<Day>)
    requires s.Valid() && Calendar(yearOf)
    ensures IsDatesFor(dates, s.firstPaycheckDate, IntendedIncrement(s), s.paycheckCount, year, yearOf)
    ensures s.frequency.None? ==>
              dates == (if yearOf(s.firstPaycheckDate) == year && s.paycheckCount.value > 0
                        then [s.firstPaycheckDate] else [])
  {
    dates := CollectDates(s.firstPaycheckDate, IntendedIncrement(s), s.paycheckCount, year, yearOf);
    if |dates| > 0 {
      assert dates[0] == s.firstPaycheckDate + 0 * StepOf(IntendedIncrement(s));
    }
    if s.frequency.None? && yearOf(s.firstPaycheckDate) == year && s.paycheckCount.value > 0 {
      assert !Continues(|dates|, s.firstPaycheckDate, IntendedIncrement(s), s.paycheckCount, year, yearOf);
    }
  }

  /** As written, the count-only schedule of the test (count 12, first date
      in the year) yields 12 dates, not the single date the test expects. */
  lemma CountOnlyRepeatsFirstDate(first: Day, year: int, yearOf: Day -> int, dates: seq<Day>)
    requires yearOf(first) == year
    requires IsDatesFor(dates, first, Increment(Schedule(first, None, Some(12))), Some(12), year, yearOf)
    ensures |dates| == 12 && |dates| != 1
    ensures forall k :: 0 <= k < |dates| ==> dates[k] == first
  {
    var inc := Increment(Schedule(first, None, Some(12)));
    assert StepOf(inc) == 0;
    assert first + |dates| * StepOf(inc) == first;
    assert !Continues(|dates|, first, inc, Some(12), year, yearOf);
  }

  /** With the intended increment the same schedule yields exactly one date. */
  lemma CountOnlyIntendedSingleDate(first: Day, year: int, yearOf: Day -> int, dates: seq<Day>)
    requires yearOf(first) == year
    requires IsDatesFor(dates, first, IntendedIncrement(Schedule(first, None, Some(12))), Some(12), year, yearOf)
    ensures dates == [first]
  {
    var inc := IntendedIncrement(Schedule(first, None, Some(12)));
  }
}
