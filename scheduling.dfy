/** The part of `Sending.save` that runs before the row is written: the
    company is resolved, then the first delivery time is derived from the
    frequency or an explicit time is made timezone-aware. */
module Scheduling {
  import opened Common

  /** A `datetime`: its wall-clock reading in seconds and whether it
      carries a time zone. */
  datatype DateTime = DateTime(wall: int, aware: bool)

  const Day: int := 86400
  const Week: int := 7 * Day

  /** Seconds added to the current time for a frequency, `None` for any
      text outside the three choices (the column does not enforce them). */
  function Offset(frequency: string): Option<int>
  {
    if frequency == "daily" then Some(Day)
    else if frequency == "weekly" then Some(Week)
    else if frequency == "monthly" then Some(30 * Day)
    else None
  }

  /** `make_aware` under the default time zone: the same wall-clock reading,
      now with a zone attached. */
  function MakeAware(t: DateTime): DateTime
    requires !t.aware
  {
    DateTime(t.wall, true)
  }

  /** The `scheduled_at` that save leaves behind, or `None` when it raises
      "Error: frequency". `now` is `timezone.now()`, which is aware. */
  function Schedule(at: Option<DateTime>, frequency: string, now: int): (r: Option<DateTime>)
    ensures at.None? ==> (r.Some? <==> Offset(frequency).Some?)
    ensures at.None? && r.Some? ==> r.value == DateTime(now + Offset(frequency).value, true)
    ensures at.Some? ==> r.Some? && r.value.aware && r.value.wall == at.value.wall
    ensures at.Some? && at.value.aware ==> r == at
  {
    match at
    case None =>
      if frequency == "daily" then Some(DateTime(now + Day, true))
      else if frequency == "weekly" then Some(DateTime(now + Week, true))
      else if frequency == "monthly" then Some(DateTime(now + 30 * Day, true))
      else None
    case Some(t) =>
      if !t.aware then Some(MakeAware(t)) else at
  }

  /** Whatever `scheduled_at` a successful save leaves is aware. */
  lemma ScheduledIsAware(at: Option<DateTime>, frequency: string, now: int)
    requires Schedule(at, frequency, now).Some?
    ensures Schedule(at, frequency, now).value.aware
  {
  }

  /** Saving again leaves `scheduled_at` as the first save left it, whatever
      the frequency and the clock say by then. */
  lemma ScheduleIdempotent(at: Option<DateTime>, frequency: string, now: int, frequency': string, now': int)
    requires Schedule(at, frequency, now).Some?
    ensures Schedule(Schedule(at, frequency, now), frequency', now') == Schedule(at, frequency, now)
  {
  }

  /** With a time already set the frequency is never looked at, so an
      unknown frequency is accepted. */
  lemma PresetIgnoresFrequency(t: DateTime, frequency: string, now: int, frequency': string, now': int)
    ensures Schedule(Some(t), frequency, now) == Schedule(Some(t), frequency', now')
  {
  }

  /** With no time set, the first delivery is at least a day after `now`,
      never in the past. */
  lemma ScheduleAfterNow(frequency: string, now: int)
    requires Schedule(None, frequency, now).Some?
    ensures Schedule(None, frequency, now).value.wall >= now + 86400
  {
  }

  /** Frequency by frequency, the time a save computes when none is set:
      one day, one week or thirty days after `now`, always aware, and a
      failure for any other text. */
  lemma ScheduleFromFrequency(frequency: string, now: int)
    ensures frequency == "daily" ==> Schedule(None, frequency, now) == Some(DateTime(now + 86400, true))
    ensures frequency == "weekly" ==> Schedule(None, frequency, now) == Some(DateTime(now + 7 * 86400, true))
    ensures frequency == "monthly" ==> Schedule(None, frequency, now) == Some(DateTime(now + 30 * 86400, true))
    ensures frequency !in {"daily", "weekly", "monthly"} ==> Schedule(None, frequency, now) == None
  {
  }

  /** The `user` keyword of `save`: not passed, or passed with a value that
      may be `None`. The source tests for the key, not for its value. */
  datatype UserArgument = Absent | Given(user: Option<User>)

  /** The company a save ends with: the sending's own if it has one,
      otherwise that of a `user` passed in, otherwise none. */
  function AdoptCompany(current: Option<Company>, user: UserArgument): Option<Company>
  {
    if current.None? && user.Given? && user.user.Some? then Some(user.user.value.company)
    else current
  }

  /** How a call to `save` ends. */
  datatype SaveResult =
    | Saved
      /** `ValueError("User must be provided to set the company.")` */
    | MissingCompany
      /** `AttributeError` from reading `.company` of a `user=None` */
    | NullUser
      /** `ValueError("Error: frequency")` */
    | BadFrequency
      /** `TypeError`: a `user` keyword that was not popped reaches
          `Model.save`, which takes no such keyword */
    | UnexpectedUser

  /** The outcome of `save` as a function of what it reads: the company is
      resolved first, the schedule second, and the keywords left over are
      handed to the framework's `Model.save` last. */
  function SaveOutcome(current: Option<Company>, user: UserArgument, at: Option<DateTime>,
                       frequency: string, now: int): (r: SaveResult)
    ensures r == MissingCompany <==> current.None? && user.Absent?
    ensures r == NullUser <==> current.None? && user == Given(None)
    ensures r == BadFrequency <==>
      AdoptCompany(current, user).Some? && at.None? && Offset(frequency).None?
    ensures r == UnexpectedUser <==>
      current.Some? && user.Given? && Schedule(at, frequency, now).Some?
    ensures r == Saved <==>
      Schedule(at, frequency, now).Some? &&
      ((current.Some? && user.Absent?) || (current.None? && user.Given? && user.user.Some?))
  {
    if current.None? && user.Given? && user.user.None? then NullUser
    else if AdoptCompany(current, user).None? then MissingCompany
    else if Schedule(at, frequency, now).None? then BadFrequency
    else if current.Some? && user.Given? then UnexpectedUser
    else Saved
  }

  /** A missing company is reported whatever the time and the frequency
      are, an unknown frequency included. */
  lemma CompanyCheckedFirst(at: Option<DateTime>, frequency: string, now: int)
    ensures SaveOutcome(None, Absent, at, frequency, now) == MissingCompany
  {
  }
}
