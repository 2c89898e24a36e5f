/** The job-card helpers of app/models/dbmodel.py, the computed properties a
    job exposes to `to_schema`: `Job.salary` and the `Job.timedelta`
    bucketing of a post's age into Persian labels. Also the expiry flag that
    `Job.get` in app/dbmodel.py sets on a loaded row.

    The age is passed in the form Python's `timedelta` normalises it to:
    whole days (possibly negative) and seconds in [0, 86400). The current
    time is a parameter instead of a clock read. */
module JobCard {
  import opened Base
  import opened EntityGraph

  // ---------------------------------------------------------------------
  // salary

  datatype SalaryRange = SalaryRange(min: int, max: int)

  /** `Job.salary`: no salary when either bound is 0, otherwise both stored
      bounds. */
  function Salary(minSalary: int, maxSalary: int): (r: Option<SalaryRange>)
    ensures r.None? <==> minSalary == 0 || maxSalary == 0
    ensures r.Some? ==> r.value == SalaryRange(minSalary, maxSalary)
  {
    if minSalary == 0 || maxSalary == 0 then None else Some(SalaryRange(minSalary, maxSalary))
  }

  /** The property as the attribute `to_schema` reads: `None` or
      `dict(min=..., max=...)`. */
  function SalaryAttr(minSalary: int, maxSalary: int): Value
  {
    match Salary(minSalary, maxSalary)
    case None => Null
    case Some(r) => Dict([("min", Int(r.min)), ("max", Int(r.max))])
  }

  // ---------------------------------------------------------------------
  // timedelta

  /** The eleven age labels, in the order the `TimeDelta` literal lists them. */
  datatype Unit =
    | LongAgo | JustNow | MinutesAgo | HalfHourAgo | MinutesCount | HoursAgo
    | Today | Yesterday | DaysAgo | WeeksAgo | MonthsAgo

  function Label(u: Unit): string
  {
    match u
    case LongAgo => "مدت\U{200C}ها پیش"
    case JustNow => "به تازگی"
    case MinutesAgo => "دقایقی پیش"
    case HalfHourAgo => "نیم\U{200C}ساعت پیش"
    case MinutesCount => "دقیقه پیش"
    case HoursAgo => "ساعت پیش"
    case Today => "امروز"
    case Yesterday => "دیروز"
    case DaysAgo => "روز پیش"
    case WeeksAgo => "هفته قبل"
    case MonthsAgo => "ماه پیش"
  }

  /** `dict(unit=unit, amount=amount)`. */
  datatype Age = Age(unit: Unit, amount: int)

  /** The `if delta.days < 1:` block. */
  function SameDay(seconds: int): Age
  {
    if seconds < 10 * 60 then Age(JustNow, 0)
    else if seconds / 60 < 25 then Age(MinutesAgo, 0)
    else if seconds / 60 < 35 then Age(HalfHourAgo, 0)
    else if seconds / 60 < 60 then Age(MinutesCount, seconds / 60)
    else if seconds / 3600 < 10 then Age(HoursAgo, seconds / 3600)
    else if seconds / 3600 < 24 then Age(Today, 0)
    else Age(LongAgo, 0)
  }

  /** `Job.timedelta` for an age of `days` days and `seconds` seconds: the
      same-day block, then the day-based chain, which overrides it when one
      of its tests holds. Python's `//` floors, as Dafny's `/` does for a
      positive divisor. */
  function TimeDelta(days: int, seconds: int): Age
    requires 0 <= seconds < 86400
  {
    var sameDay := if days < 1 then SameDay(seconds) else Age(LongAgo, 0);
    if days == 1 then Age(Yesterday, 0)
    else if 1 < days < 7 then Age(DaysAgo, days)
    else if 1 <= days < 30 then Age(WeeksAgo, days / 7)
    else if 1 <= days / 30 < 12 then Age(MonthsAgo, days / 30)
    else sameDay
  }

  /** The buckets as a table of age ranges (an age "in the future", with
      negative days, counts as the same day). */
  function AgeBucket(days: int, seconds: int): Age
    requires 0 <= seconds < 86400
  {
    if days < 1 then
      if seconds < 600 then Age(JustNow, 0)
      else if seconds < 1500 then Age(MinutesAgo, 0)
      else if seconds < 2100 then Age(HalfHourAgo, 0)
      else if seconds < 3600 then Age(MinutesCount, seconds / 60)
      else if seconds < 36000 then Age(HoursAgo, seconds / 3600)
      else Age(Today, 0)
    else if days == 1 then Age(Yesterday, 0)
    else if days < 7 then Age(DaysAgo, days)
    else if days < 30 then Age(WeeksAgo, days / 7)
    else if days < 360 then Age(MonthsAgo, days / 30)
    else Age(LongAgo, 0)
  }

  /** The if-chain computes exactly the table. */
  lemma TimeDeltaIsBucket(days: int, seconds: int)
    requires 0 <= seconds < 86400
    ensures TimeDelta(days, seconds) == AgeBucket(days, seconds)
  {
    if days < 1 {
      assert days / 30 < 1;
      assert seconds / 60 < 25 <==> seconds < 1500;
      assert seconds / 60 < 35 <==> seconds < 2100;
      assert seconds / 60 < 60 <==> seconds < 3600;
      assert seconds / 3600 < 10 <==> seconds < 36000;
      assert seconds / 3600 < 24;
    } else if days >= 30 {
      assert 1 <= days / 30;
      assert days / 30 < 12 <==> days < 360;
    }
  }

  /** The amount is never negative and stays within its unit's range: 35-59
      minutes, 1-9 hours, 2-6 days, 1-4 weeks, 1-11 months, and 0 for the
      other labels. */
  lemma TimeDeltaAmounts(days: int, seconds: int)
    requires 0 <= seconds < 86400
    ensures var a := TimeDelta(days, seconds);
      0 <= a.amount &&
      match a.unit
      case MinutesCount => 35 <= a.amount <= 59
      case HoursAgo => 1 <= a.amount <= 9
      case DaysAgo => 2 <= a.amount <= 6 && a.amount == days
      case WeeksAgo => 1 <= a.amount <= 4
      case MonthsAgo => 1 <= a.amount <= 11
      case _ => a.amount == 0
  {
    TimeDeltaIsBucket(days, seconds);
  }

  /** How fresh a label is: a later label never describes a younger post. */
  function Rank(u: Unit): nat
  {
    match u
    case JustNow => 0
    case MinutesAgo => 1
    case HalfHourAgo => 2
    case MinutesCount => 3
    case HoursAgo => 4
    case Today => 5
    case Yesterday => 6
    case DaysAgo => 7
    case WeeksAgo => 8
    case MonthsAgo => 9
    case LongAgo => 10
  }

  /** For ages not in the future, an older post never gets a fresher label
      or, within the same label, a smaller amount. */
  lemma OlderNeverFresher(d1: int, s1: int, d2: int, s2: int)
    requires 0 <= s1 < 86400 && 0 <= s2 < 86400 && 0 <= d1
    requires d1 < d2 || (d1 == d2 && s1 <= s2)
    ensures Rank(TimeDelta(d1, s1).unit) <= Rank(TimeDelta(d2, s2).unit)
    ensures TimeDelta(d1, s1).unit == TimeDelta(d2, s2).unit ==> TimeDelta(d1, s1).amount <= TimeDelta(d2, s2).amount
  {
    TimeDeltaIsBucket(d1, s1);
    TimeDeltaIsBucket(d2, s2);
  }

  /** The property as the attribute `to_schema` reads. */
  function TimeDeltaAttr(days: int, seconds: int): Value
    requires 0 <= seconds < 86400
  {
    var a := TimeDelta(days, seconds);
    Dict([("unit", Str(Label(a.unit))), ("amount", Int(a.amount))])
  }

  // ---------------------------------------------------------------------
  // Job.get (app/dbmodel.py)

  /** The `expired` flag after the check `Job.get` runs on a loaded row. */
  function ExpiredAfterLoad(expired: bool, expireOn: int, now: int): (r: bool)
    ensures r <==> expired || expireOn <= now
  {
    if expireOn <= now then true else expired
  }

  /** Loading is idempotent and never clears the flag. */
  lemma ExpiryIsSticky(expired: bool, expireOn: int, now: int, later: int)
    requires now <= later
    ensures expired ==> ExpiredAfterLoad(expired, expireOn, now)
    ensures ExpiredAfterLoad(ExpiredAfterLoad(expired, expireOn, now), expireOn, now) == ExpiredAfterLoad(expired, expireOn, now)
    ensures ExpiredAfterLoad(expired, expireOn, now) ==> ExpiredAfterLoad(expired, expireOn, later)
  {
  }

  /** A job row as loaded: the two fields `Job.get` reads and writes. */
  class Job {
    var expireOn: int
    var expired: bool

    constructor (expireOn: int, expired: bool)
      ensures this.expireOn == expireOn && this.expired == expired
    {
      this.expireOn := expireOn;
      this.expired := expired;
    }

    /** `if res.expire_on <= now: res.expired = True` (in memory; the row
        is not saved). */
    method MarkIfExpired(now: int)
      modifies this
      ensures expired == ExpiredAfterLoad(old(expired), expireOn, now)
      ensures expireOn == old(expireOn)
    {
      if expireOn <= now {
        expired := true;
      }
    }
  }
}
