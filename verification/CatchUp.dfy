/**
 The catch-up list of the native scheduler: which times a schedule should have fired between the time it was
 last known to have fired and the time the scheduler came back.

 Times are nanoseconds since the Unix epoch. The cron parser and its `Next` are a library; they appear as the
 parameter `CronLibrary`, and what is needed of them is stated as a predicate.
 */
module CatchUp {
  import opened Wrappers

  const NANOS_PER_SECOND: int := 1_000_000_000
  const NANOS_PER_MINUTE: int := 60 * NANOS_PER_SECOND
  const NANOS_PER_HOUR: int := 60 * NANOS_PER_MINUTE
  const INT64_MIN: int := -0x8000_0000_0000_0000
  const INT64_MAX: int := 0x7fff_ffff_ffff_ffff
  const TWO_TO_THE_64: int := 0x1_0000_0000_0000_0000

  function Nanosecond(t: Time): int { t % NANOS_PER_SECOND }

  function FloorSecond(t: Time): Time { t - Nanosecond(t) }

  function Unix(t: Time): int { t / NANOS_PER_SECOND }

  /** The time falls in the n-th second since the epoch. */
  ghost predicate InSecond(t: Time, n: int) { n * NANOS_PER_SECOND <= t < (n + 1) * NANOS_PER_SECOND }

  lemma UnixIsTheSecond(t: Time, n: int)
    ensures InSecond(t, n) <==> n == Unix(t)
  {
  }

  lemma SameSecondIff(s: Time, t: Time)
    ensures Unix(s) == Unix(t) <==> FloorSecond(s) == FloorSecond(t)
    ensures Unix(s) == Unix(t) ==> -NANOS_PER_SECOND < s - t < NANOS_PER_SECOND
  {
    assert FloorSecond(s) == Unix(s) * NANOS_PER_SECOND && FloorSecond(t) == Unix(t) * NANOS_PER_SECOND;
  }

  datatype FixedRateUnit = Minute | Hour | Day | Unknown(code: int)

  type Uint32 = x: int | 0 <= x < 0x1_0000_0000

  datatype Schedule = Schedule(cronExpression: string, unit: FixedRateUnit, fixedRateValue: Uint32)

  datatype ScheduleError = BadCronExpression | UnsupportedUnit

  datatype CronLibrary = CronLibrary(parses: string -> bool, next: (string, Time) -> Time)

  /** The product of two `time.Duration` values, with the wrap-around of a signed 64-bit integer. */
  function WrapInt64(x: int): (r: int)
    ensures INT64_MIN <= r <= INT64_MAX
  {
    (x - INT64_MIN) % TWO_TO_THE_64 + INT64_MIN
  }

  lemma WrapInt64Fixpoint(x: int)
    ensures WrapInt64(x) == x <==> INT64_MIN <= x <= INT64_MAX
  {
  }

  function FixedRateDuration(unit: FixedRateUnit, value: Uint32): Result<int, ScheduleError> {
    match unit
    case Minute => Ok(WrapInt64(value * NANOS_PER_MINUTE))
    case Hour => Ok(WrapInt64(value * NANOS_PER_HOUR))
    case Day => Ok(WrapInt64(WrapInt64(value * NANOS_PER_HOUR) * 24))
    case Unknown(_) => Err(UnsupportedUnit)
  }

  /** `cron.ConstantDelaySchedule.Next`: the delay is counted from the whole second. */
  function ConstantDelayNext(delay: int, t: Time): Time { t + delay - Nanosecond(t) }

  function ScheduledTime(lib: CronLibrary, s: Schedule, t: Time): Result<Time, ScheduleError> {
    if |s.cronExpression| > 0 then
      if lib.parses(s.cronExpression) then Ok(lib.next(s.cronExpression, t)) else Err(BadCronExpression)
    else
      match FixedRateDuration(s.unit, s.fixedRateValue)
      case Ok(d) => Ok(ConstantDelayNext(d, t))
      case Err(e) => Err(e)
  }

  predicate Supported(lib: CronLibrary, s: Schedule) {
    if |s.cronExpression| > 0 then lib.parses(s.cronExpression) else !s.unit.Unknown?
  }

  /** The schedule's "next time after t", as one function. */
  function Next(lib: CronLibrary, s: Schedule): (next: Time -> Time)
    requires Supported(lib, s)
    ensures forall t :: ScheduledTime(lib, s, t) == Ok(next(t))
  {
    if |s.cronExpression| > 0 then
      t => lib.next(s.cronExpression, t)
    else
      var d := FixedRateDuration(s.unit, s.fixedRateValue).value;
      t => ConstantDelayNext(d, t)
  }

  ghost predicate Advances(next: Time -> Time) {
    forall t {:trigger next(t)} :: next(t) > t
  }

  function Previous(times: seq<Time>, from: Time, i: nat): Time
    requires i <= |times|
  {
    if i == 0 then from else times[i - 1]
  }

  /** A catch-up list in terms of its meaning: each time is the next one after its predecessor, and the list goes on
      exactly as long as the last time reached lies before `until`. */
  ghost predicate IsCatchUp(next: Time -> Time, from: Time, until: Time, times: seq<Time>) {
    && (times == [] <==> from >= until)
    && (forall i {:trigger Previous(times, from, i)} :: 0 <= i < |times| ==> times[i] == next(Previous(times, from, i)))
    && (forall i :: 0 <= i < |times| - 1 ==> times[i] < until)
    && (times != [] ==> times[|times| - 1] >= until)
  }

  /** There is a catch-up list: the search for it ends. */
  ghost predicate HasCatchUp(next: Time -> Time, from: Time, until: Time) { exists times :: IsCatchUp(next, from, until, times) }

  /** The precondition asks for no more than that the loop ends; `FixedRateHasCatchUpIff` says when it does. */
  method GetCatchUpTimes(lib: CronLibrary, s: Schedule, from: Time, until: Time)
    returns (r: Result<seq<Time>, ScheduleError>)
    requires from < until && Supported(lib, s) ==> HasCatchUp(Next(lib, s), from, until)
    ensures from >= until ==> r == Ok([])
    ensures from < until ==> (r.Err? <==> !Supported(lib, s))
    ensures r.Err? ==> ScheduledTime(lib, s, from) == Err(r.error)
    ensures r.Ok? && Supported(lib, s) ==> IsCatchUp(Next(lib, s), from, until, r.value)
    ensures r.Ok? && s.cronExpression != "" && lib.parses(s.cronExpression) ==>
      IsCatchUp(t => lib.next(s.cronExpression, t), from, until, r.value)
  {
    UnsupportedIsError(lib, s, from);
    ghost var all: seq<Time> := [];
    if from < until && Supported(lib, s) {
      all :| IsCatchUp(Next(lib, s), from, until, all);
    }
    var times := [];
    var currFrom := from;
    while currFrom < until
      invariant |times| <= |all| && times == all[..|times|] && currFrom == Previous(all, from, |times|)
      decreases |all| - |times|
    {
      var scheduled := ScheduledTime(lib, s, currFrom);
      if scheduled.Err? {
        return Err(scheduled.error);
      }
      assert |times| < |all| && all[|times|] == Next(lib, s)(Previous(all, from, |times|));
      times := times + [scheduled.value];
      currFrom := scheduled.value;
    }
    assert times == all;
    if from < until && s.cronExpression != "" && lib.parses(s.cronExpression) {
      CronFollowsLibrary(lib, s, t => lib.next(s.cronExpression, t), from, until, times);
    }
    return Ok(times);
  }

  /** Which schedules have no next time, and the error for each. */
  lemma UnsupportedIsError(lib: CronLibrary, s: Schedule, t: Time)
    ensures ScheduledTime(lib, s, t).Err? <==> !Supported(lib, s)
    ensures ScheduledTime(lib, s, t) == Err(BadCronExpression) <==> s.cronExpression != "" && !lib.parses(s.cronExpression)
    ensures ScheduledTime(lib, s, t) == Err(UnsupportedUnit) <==> s.cronExpression == "" && s.unit.Unknown?
  {
  }

  /** A cron expression goes from one time to the one the library gives for it, and nowhere else: its catch-up lists are
      those of the library's own function. */
  lemma CronFollowsLibrary(lib: CronLibrary, s: Schedule, next: Time -> Time, from: Time, until: Time, times: seq<Time>)
    requires s.cronExpression != "" && lib.parses(s.cronExpression) && forall t :: next(t) == lib.next(s.cronExpression, t)
    ensures Supported(lib, s) && (IsCatchUp(Next(lib, s), from, until, times) <==> IsCatchUp(next, from, until, times))
  {
    assert forall t :: Next(lib, s)(t) == next(t);
  }

  // ------------------------------------------------------------------------------------------------------------
  // Cron expressions: a set of firing points
  // ------------------------------------------------------------------------------------------------------------

  /** `next` enumerates a set of points: it moves forward, and never past a point that lies ahead. */
  ghost predicate NextIsLeast(next: Time -> Time) {
    && Advances(next)
    && (forall t, u {:trigger next(t), next(u)} :: t < next(u) ==> next(t) <= next(u))
  }

  ghost predicate IsFiringPoint(next: Time -> Time, p: Time) {
    exists t :: next(t) == p
  }

  lemma {:induction false} IsCatchUpStep(next: Time -> Time, from: Time, until: Time, times: seq<Time>)
    requires IsCatchUp(next, from, until, times) && times != []
    ensures times[0] == next(from)
    ensures IsCatchUp(next, times[0], until, times[1..])
  {
    var rest := times[1..];
    assert times[0] == next(Previous(times, from, 0));
    forall i | 0 <= i < |rest|
      ensures rest[i] == next(Previous(rest, times[0], i))
    {
      assert rest[i] == times[i + 1] && Previous(rest, times[0], i) == Previous(times, from, i + 1);
    }
    forall i | 0 <= i < |rest| - 1
      ensures rest[i] < until
    {
      assert rest[i] == times[i + 1];
    }
    if rest != [] {
      assert rest[|rest| - 1] == times[|times| - 1];
      assert times[0] < until;
    }
  }

  /** The catch-up list holds exactly the firing points after `from` up to its last element, in increasing order, and
      so every firing point in `(from, until]`; only the last element can lie at or after `until`. */
  lemma {:induction false} CatchUpIsExact(next: Time -> Time, from: Time, until: Time, times: seq<Time>, p: Time)
    requires NextIsLeast(next)
    requires IsCatchUp(next, from, until, times)
    ensures p in times <==> IsFiringPoint(next, p) && from < p && times != [] && p <= times[|times| - 1]
    ensures IsFiringPoint(next, p) && from < p <= until ==> p in times
    ensures p in times && p != times[|times| - 1] ==> p < until
    decreases |times|
  {
    if times != [] {
      var first, rest := times[0], times[1..];
      assert times == [first] + rest;
      IsCatchUpStep(next, from, until, times);
      CatchUpIsExact(next, first, until, rest, p);
      assert IsFiringPoint(next, first);
      if rest != [] {
        assert rest[|rest| - 1] == times[|times| - 1];
        CatchUpIsIncreasing(next, from, until, times, 0, |times| - 1);
      }
      if IsFiringPoint(next, p) && from < p {
        var u :| next(u) == p;
        assert next(from) <= next(u);
      }
    }
  }

  lemma {:induction false} CatchUpIsIncreasing(next: Time -> Time, from: Time, until: Time, times: seq<Time>, i: nat, j: nat)
    requires Advances(next)
    requires IsCatchUp(next, from, until, times)
    requires i < j < |times|
    ensures from < times[i] < times[j]
    decreases j
  {
    assert times[i] == next(Previous(times, from, i));
    assert times[j] == next(Previous(times, from, j));
    if i > 0 {
      CatchUpIsIncreasing(next, from, until, times, 0, i);
    }
    if i + 1 < j {
      CatchUpIsIncreasing(next, from, until, times, i, j - 1);
    }
  }

  /** There is only one catch-up list: the meaning above determines the method's result. */
  lemma {:induction false} CatchUpIsUnique(next: Time -> Time, from: Time, until: Time, a: seq<Time>, b: seq<Time>)
    requires IsCatchUp(next, from, until, a) && IsCatchUp(next, from, until, b)
    ensures a == b
    decreases |a|
  {
    if a != [] {
      IsCatchUpStep(next, from, until, a);
      IsCatchUpStep(next, from, until, b);
      CatchUpIsUnique(next, a[0], until, a[1..], b[1..]);
      assert a == [a[0]] + a[1..] && b == [b[0]] + b[1..];
    }
  }

  // ------------------------------------------------------------------------------------------------------------
  // Fixed rates
  // ------------------------------------------------------------------------------------------------------------

  /** The largest value of each unit whose duration fits in an int64 count of nanoseconds. */
  function LargestValue(unit: FixedRateUnit): int {
    match unit
    case Minute => 153_722_867
    case Hour => 2_562_047
    case Day => 106_751
    case Unknown(_) => 0
  }

  function UnitNanos(unit: FixedRateUnit): int {
    match unit
    case Minute => NANOS_PER_MINUTE
    case Hour => NANOS_PER_HOUR
    case Day => 24 * NANOS_PER_HOUR
    case Unknown(_) => 0
  }

  /** The interval a fixed-rate schedule asks for is the interval it gets exactly up to the int64 bound. */
  lemma FixedRateDurationExact(unit: FixedRateUnit, value: Uint32)
    requires !unit.Unknown?
    ensures FixedRateDuration(unit, value).Ok?
    ensures FixedRateDuration(unit, value).value == value * UnitNanos(unit) <==> value <= LargestValue(unit)
  {
    match unit
    case Minute => WrapInt64Fixpoint(value * NANOS_PER_MINUTE);
    case Hour => WrapInt64Fixpoint(value * NANOS_PER_HOUR);
    case Day =>
      var hours := WrapInt64(value * NANOS_PER_HOUR);
      WrapInt64Fixpoint(value * NANOS_PER_HOUR);
      WrapInt64Fixpoint(hours * 24);
      assert value <= LargestValue(Day) ==> value * NANOS_PER_HOUR * 24 <= INT64_MAX;
      assert value > LargestValue(Day) ==> value * NANOS_PER_HOUR * 24 > INT64_MAX;
  }

  /** A constant delay always moves forward exactly when it is at least one second; the values from 1 to the int64
      bound are, and zero is not. */
  lemma FixedRateAdvancesIff(lib: CronLibrary, s: Schedule)
    requires s.cronExpression == "" && !s.unit.Unknown?
    ensures Advances(Next(lib, s)) <==> FixedRateDuration(s.unit, s.fixedRateValue).value >= NANOS_PER_SECOND
    ensures 1 <= s.fixedRateValue <= LargestValue(s.unit) ==> Advances(Next(lib, s))
    ensures s.fixedRateValue == 0 ==> !Advances(Next(lib, s))
  {
    var d := FixedRateDuration(s.unit, s.fixedRateValue).value;
    var next := Next(lib, s);
    FixedRateDurationExact(s.unit, s.fixedRateValue);
    assert ScheduledTime(lib, s, NANOS_PER_SECOND - 1) == Ok(d);
    assert next(NANOS_PER_SECOND - 1) == d;
    if d >= NANOS_PER_SECOND {
      forall t ensures next(t) > t {
        assert ScheduledTime(lib, s, t) == Ok(next(t));
      }
    }
    RateIsAtLeastAMinute(s.unit, s.fixedRateValue);
  }

  lemma RateIsAtLeastAMinute(unit: FixedRateUnit, value: Uint32)
    requires !unit.Unknown?
    ensures 1 <= value ==> value * UnitNanos(unit) >= NANOS_PER_MINUTE
  {
  }

  lemma FirstThenRest(next: Time -> Time, from: Time, until: Time, rest: seq<Time>)
    requires from < until && IsCatchUp(next, next(from), until, rest)
    ensures IsCatchUp(next, from, until, [next(from)] + rest)
  {
    var times := [next(from)] + rest;
    forall i | 0 <= i < |times| ensures times[i] == next(Previous(times, from, i)) {
      if i > 0 {
        assert rest[i - 1] == next(Previous(rest, next(from), i - 1));
      }
    }
  }

  /** What moves on each time reaches every `until`. */
  lemma {:induction false} AdvancingHasCatchUp(next: Time -> Time, from: Time, until: Time)
    requires Advances(next)
    ensures HasCatchUp(next, from, until)
    decreases until - from
  {
    if from >= until {
      assert IsCatchUp(next, from, until, []);
    } else {
      AdvancingHasCatchUp(next, next(from), until);
      var rest :| IsCatchUp(next, next(from), until, rest);
      FirstThenRest(next, from, until, rest);
    }
  }

  /** A delay below a second is counted from the same whole second again and again, or from an earlier one. */
  lemma {:induction false} ShortDelayHasNoCatchUp(next: Time -> Time, d: int, from: Time, until: Time, times: seq<Time>)
    requires forall t :: next(t) == FloorSecond(t) + d
    requires d < NANOS_PER_SECOND && from < until && FloorSecond(from) + d < until
    ensures !IsCatchUp(next, from, until, times)
    decreases |times|
  {
    if IsCatchUp(next, from, until, times) {
      IsCatchUpStep(next, from, until, times);
      assert FloorSecond(times[0]) <= FloorSecond(from);
      ShortDelayHasNoCatchUp(next, d, times[0], until, times[1..]);
    }
  }

  /** The loop for a fixed rate ends exactly when there is nothing to catch up, or its int64 duration, wrapped where it
      does not fit, is at least a second, or a single step from the whole second of `from` reaches `until`. */
  lemma FixedRateHasCatchUpIff(lib: CronLibrary, s: Schedule, from: Time, until: Time)
    requires s.cronExpression == "" && !s.unit.Unknown?
    ensures var d := FixedRateDuration(s.unit, s.fixedRateValue).value;
            HasCatchUp(Next(lib, s), from, until) <==> from >= until || d >= NANOS_PER_SECOND || FloorSecond(from) + d >= until
  {
    var d, next := FixedRateDuration(s.unit, s.fixedRateValue).value, Next(lib, s);
    forall t ensures next(t) == FloorSecond(t) + d {
      assert ScheduledTime(lib, s, t) == Ok(next(t));
    }
    if from >= until {
      assert IsCatchUp(next, from, until, []);
    } else if d >= NANOS_PER_SECOND {
      FixedRateAdvancesIff(lib, s);
      AdvancingHasCatchUp(next, from, until);
    } else if FloorSecond(from) + d >= until {
      assert IsCatchUp(next, next(from), until, []);
      FirstThenRest(next, from, until, []);
    } else {
      forall times ensures !IsCatchUp(next, from, until, times) {
        ShortDelayHasNoCatchUp(next, d, from, until, times);
      }
    }
  }

  /** So every catch-up of a fixed rate ends exactly when the duration is at least a second. */
  lemma FixedRateAlwaysCatchesUpIff(lib: CronLibrary, s: Schedule)
    requires s.cronExpression == "" && !s.unit.Unknown?
    ensures (forall from, until :: HasCatchUp(Next(lib, s), from, until))
       <==> FixedRateDuration(s.unit, s.fixedRateValue).value >= NANOS_PER_SECOND
  {
    var d := FixedRateDuration(s.unit, s.fixedRateValue).value;
    forall from, until | d >= NANOS_PER_SECOND ensures HasCatchUp(Next(lib, s), from, until) {
      FixedRateHasCatchUpIff(lib, s, from, until);
    }
    FixedRateHasCatchUpIff(lib, s, 0, NANOS_PER_SECOND);
  }

  /** A rate of zero never ends, and neither does the first value past the int64 bound of minutes. */
  lemma EndlessRates(lib: CronLibrary, s: Schedule, from: Time, until: Time)
    requires s.cronExpression == "" && from < until && FloorSecond(until) == until
    requires (s.fixedRateValue == 0 && !s.unit.Unknown?) || (s.fixedRateValue == 153_722_868 && s.unit.Minute?)
    ensures !HasCatchUp(Next(lib, s), from, until)
  {
    FixedRateHasCatchUpIff(lib, s, from, until);
  }

  function CeilDiv(a: int, b: int): int
    requires b > 0
  {
    (a + b - 1) / b
  }

  lemma CeilDivIsLeast(a: int, b: int, n: int)
    requires b > 0
    ensures n >= CeilDiv(a, b) <==> n * b >= a
  {
    var q := CeilDiv(a, b);
    assert q * b <= a + b - 1 < q * b + b;
    if n >= q {
      assert n * b >= q * b;
    } else {
      assert n * b <= (q - 1) * b == q * b - b;
    }
  }

  /** The k-th catch-up time of a fixed rate lies k whole intervals after the second `from` falls in, and there are as
      many as it takes to reach `until`. */
  lemma {:induction false} FixedRateCatchUp(lib: CronLibrary, s: Schedule, from: Time, until: Time, times: seq<Time>, k: nat)
    requires s.cronExpression == "" && !s.unit.Unknown?
    requires 1 <= s.fixedRateValue <= LargestValue(s.unit)
    requires from < until && IsCatchUp(Next(lib, s), from, until, times)
    ensures |times| == CeilDiv(until - FloorSecond(from), s.fixedRateValue * UnitNanos(s.unit))
    ensures k < |times| ==> times[k] == FloorSecond(from) + (k + 1) * (s.fixedRateValue * UnitNanos(s.unit))
  {
    var d := s.fixedRateValue * UnitNanos(s.unit);
    var next := Next(lib, s);
    FixedRateDurationExact(s.unit, s.fixedRateValue);
    RateIsAtLeastAMinute(s.unit, s.fixedRateValue);
    WholeSeconds(s.unit, s.fixedRateValue);
    forall t ensures next(t) == FloorSecond(t) + d {
      assert ScheduledTime(lib, s, t) == Ok(next(t));
    }
    if k < |times| {
      ConstantDelayTimes(next, d, from, until, times, k);
    }
    ConstantDelayCount(next, d, from, until, times);
  }

  lemma {:induction false} ConstantDelayTimes(next: Time -> Time, d: int, from: Time, until: Time, times: seq<Time>, k: nat)
    requires forall t :: next(t) == FloorSecond(t) + d
    requires d % NANOS_PER_SECOND == 0
    requires IsCatchUp(next, from, until, times) && k < |times|
    ensures times[k] == FloorSecond(from) + (k + 1) * d
    ensures FloorSecond(times[k]) == times[k]
  {
    assert times[k] == next(Previous(times, from, k));
    if k > 0 {
      ConstantDelayTimes(next, d, from, until, times, k - 1);
      assert (k + 1) * d == k * d + d;
    }
  }

  lemma ConstantDelayCount(next: Time -> Time, d: int, from: Time, until: Time, times: seq<Time>)
    requires forall t :: next(t) == FloorSecond(t) + d
    requires d > 0 && d % NANOS_PER_SECOND == 0
    requires from < until && IsCatchUp(next, from, until, times)
    ensures |times| == CeilDiv(until - FloorSecond(from), d)
  {
    var gap := until - FloorSecond(from);
    ConstantDelayTimes(next, d, from, until, times, |times| - 1);
    assert |times| * d >= gap;
    CeilDivIsLeast(gap, d, |times|);
    CeilDivIsLeast(gap, d, |times| - 1);
    if |times| > 1 {
      ConstantDelayTimes(next, d, from, until, times, |times| - 2);
      assert (|times| - 1) * d < gap;
    } else {
      assert (|times| - 1) * d == 0;
    }
  }

  lemma SecondsAreWhole(n: int)
    ensures n * NANOS_PER_SECOND % NANOS_PER_SECOND == 0
  {
  }

  lemma WholeSeconds(unit: FixedRateUnit, value: Uint32)
    requires !unit.Unknown?
    ensures value * UnitNanos(unit) % NANOS_PER_SECOND == 0
  {
    match unit
    case Minute => SecondsAreWhole(value * 60);
    case Hour => SecondsAreWhole(value * 3600);
    case Day => SecondsAreWhole(value * 86400);
  }

  /** A fixed rate has no set of firing points: two starting points give interleaved series, so a live series and a
      catch-up series of the same schedule need not meet. This is why recovery is stated for cron expressions. */
  lemma FixedRateIsNotLeast(lib: CronLibrary, s: Schedule)
    requires s.cronExpression == "" && !s.unit.Unknown?
    requires 1 <= s.fixedRateValue <= LargestValue(s.unit)
    ensures !NextIsLeast(Next(lib, s))
  {
    var next := Next(lib, s);
    FixedRateDurationExact(s.unit, s.fixedRateValue);
    RateIsAtLeastAMinute(s.unit, s.fixedRateValue);
    var d := s.fixedRateValue * UnitNanos(s.unit);
    assert ScheduledTime(lib, s, 0) == Ok(next(0));
    assert ScheduledTime(lib, s, NANOS_PER_SECOND) == Ok(next(NANOS_PER_SECOND));
    assert next(0) == d && next(NANOS_PER_SECOND) == NANOS_PER_SECOND + d;
  }
}
