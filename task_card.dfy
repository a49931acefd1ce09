/** A task's card: the "due soon" flag, raised from the moment the reminder is due
    until the task starts, and the card's size, colour and icon. Instants are
    milliseconds on an abstract timeline where day `d` starts at `d * MS_PER_DAY`. */
module TaskCard {
  import opened Wrappers
  import opened Tasks
  import opened TimeUtils
  import opened Notifications
  import DayView

  // ---------------------------------------------------------------------------
  // The due-soon flag

  /** The instant of the task: its date with the clock set by
      `setHours(hours, minutes, 0, 0)` from the `HH:MM` fields of its start time
      (hours or minutes out of range roll over into the neighbouring days); `None`
      is the invalid Date of a field that reads as NaN. */
  function CardInstant(day: int, startTime: string): Option<int>
  {
    match ClockFields(startTime)
    case None => None
    case Some(fields) => Some(day * MS_PER_DAY + ClockMinutes(fields.0, fields.1) * MS_PER_MINUTE)
  }

  /** The value `checkNotificationTime` stores at instant `now`: false unless the task
      has reminders on, a start time and a date; otherwise whether `now` lies in the
      half-open window from the reminder instant up to the task instant. Comparisons
      with an invalid Date are false. */
  predicate DueSoon(t: Task, now: int)
  {
    && RemindersOn(t) && HasStartTime(t) && t.date.Some?
    && match CardInstant(t.date.value, t.startTime)
       case None => false
       case Some(at) => FireAt(at, LeadMinutes(t)) <= now < at
  }

  /** The red flag and "DUE SOON!" label: shown only for a task not completed. */
  predicate ShowRedFlag(t: Task, now: int)
  {
    DueSoon(t, now) && !t.completed
  }

  /** The flag is down whenever reminders are off, the start time is empty or the date
      is missing, and a completed task never shows it. */
  lemma FlagGates(t: Task, now: int)
    ensures !RemindersOn(t) || !HasStartTime(t) || t.date.None? ==> !DueSoon(t, now)
    ensures t.completed ==> !ShowRedFlag(t, now)
  {
  }

  /** For a positive lead time the flag is already up at the reminder instant and
      already down at the task instant. */
  lemma DueSoonBoundaries(t: Task, at: int)
    requires RemindersOn(t) && HasStartTime(t) && t.date.Some?
    requires CardInstant(t.date.value, t.startTime) == Some(at)
    requires LeadMinutes(t) > 0
    ensures DueSoon(t, FireAt(at, LeadMinutes(t)))
    ensures !DueSoon(t, at)
  {
    assert LeadMinutes(t) * MS_PER_MINUTE > 0;
  }

  /** The flag is up over one stretch of time: between two instants where it is up it
      is up throughout. */
  lemma DueSoonConvex(t: Task, early: int, now: int, late: int)
    requires early <= now <= late
    requires DueSoon(t, early) && DueSoon(t, late)
    ensures DueSoon(t, now)
  {
  }

  /** The card's flag and the armed reminder agree: when the reminder is armed at
      `armedAt` for the same task instant and lead time, the flag is still down when
      arming and rises exactly at the instant the timer fires. */
  lemma ReminderFiresWhenFlagRises(t: Task, at: int, armedAt: int)
    requires RemindersOn(t) && HasStartTime(t) && t.date.Some?
    requires CardInstant(t.date.value, t.startTime) == Some(at)
    requires LeadMinutes(t) > 0
    requires FireAt(at, LeadMinutes(t)) > armedAt
    ensures !DueSoon(t, armedAt)
    ensures DueSoon(t, armedAt + (FireAt(at, LeadMinutes(t)) - armedAt))
    ensures forall now :: armedAt <= now < FireAt(at, LeadMinutes(t)) ==> !DueSoon(t, now)
  {
    DueSoonBoundaries(t, at);
  }

  /** Moving a task `n` days with `addDays` moves its whole due-soon window by `n`
      days: the flag at `now` on the new date is the flag at `now - n` days on the old. */
  lemma DueSoonMovesWithDate(t: Task, n: int, now: int)
    requires t.date.Some?
    ensures DueSoon(t.(date := Some(AddDays(t.date.value, n))), now + n * MS_PER_DAY) == DueSoon(t, now)
  {
    var d := t.date.value;
    var moved := t.(date := Some(AddDays(d, n)));
    assert AddDays(d, n) * MS_PER_DAY == d * MS_PER_DAY + n * MS_PER_DAY;
    match CardInstant(d, t.startTime)
    case None =>
    case Some(at) =>
      assert CardInstant(AddDays(d, n), t.startTime).value == at + n * MS_PER_DAY;
  }

  /** The task instant is the date's midnight plus the minute `getMinutesFromTime`
      reads from the start time, and it is invalid exactly when that reads as NaN. */
  lemma CardInstantOfMinutes(day: int, startTime: string)
    ensures CardInstant(day, startTime).Some? <==> GetMinutesFromTime(startTime).Some?
    ensures GetMinutesFromTime(startTime).Some? ==>
      CardInstant(day, startTime).value == day * MS_PER_DAY + GetMinutesFromTime(startTime).value * MS_PER_MINUTE
  {
  }

  /** For a zero-padded `HH:MM` start, the task instant lies within its own day, at
      the start's minute of the day. */
  lemma CardInstantOfClockTime(day: int, startTime: string)
    requires IsClockTime(startTime)
    ensures GetMinutesFromTime(startTime).Some? && CardInstant(day, startTime).Some?
    ensures CardInstant(day, startTime).value == day * MS_PER_DAY + GetMinutesFromTime(startTime).value * MS_PER_MINUTE
    ensures day * MS_PER_DAY <= CardInstant(day, startTime).value < (day + 1) * MS_PER_DAY
  {
    ClockTimeRoundTrip(startTime);
    CardInstantOfMinutes(day, startTime);
    WithinDay(day, GetMinutesFromTime(startTime).value);
  }

  lemma WithinDay(day: int, m: int)
    requires 0 <= m < MINUTES_PER_DAY
    ensures day * MS_PER_DAY <= day * MS_PER_DAY + m * MS_PER_MINUTE < (day + 1) * MS_PER_DAY
  {
    assert (day + 1) * MS_PER_DAY == day * MS_PER_DAY + MS_PER_DAY;
  }

  // ---------------------------------------------------------------------------
  // Size, colour and icon

  const DEFAULT_BORDER_COLOR: string := "#6b7280"
  const DEFAULT_ICON: string := "📌"

  /** `(duration / 5) * 16`: the card's minimum height in pixels, 16 per 5 minutes of
      the task's length. */
  function CardHeight(t: Task): real
  {
    (DurationMinutes(t) as real / 5.0) * 16.0
  }

  /** The height grows by 16 px per 5 minutes; a task without a length gets the 30
      minute default, 96 px. */
  lemma CardHeightScale(t: Task)
    ensures CardHeight(t) * 5.0 == DurationMinutes(t) as real * 16.0
    ensures t.duration == 0 ==> CardHeight(t) == 96.0
    ensures t.duration != 0 ==> CardHeight(t) == t.duration as real * 3.2
  {
  }

  /** `category?.color || '#6b7280'`. */
  function BorderColor(category: Option<Category>): string
  {
    if category.Some? && category.value.color != "" then category.value.color else DEFAULT_BORDER_COLOR
  }

  /** `category?.icon || '📌'`. */
  function CardIcon(category: Option<Category>): string
  {
    if category.Some? && category.value.icon != "" then category.value.icon else DEFAULT_ICON
  }

  /** A task whose category id matches no category gets the grey border and the pin;
      a found category with a colour and an icon lends them to the card. */
  lemma CardStyleFallbacks(categories: seq<Category>, t: Task)
    ensures (forall c :: c in categories ==> c.id != t.categoryId) ==>
      BorderColor(DayView.FindCategory(categories, t.categoryId)) == "#6b7280"
      && CardIcon(DayView.FindCategory(categories, t.categoryId)) == "📌"
    ensures DayView.FindCategory(categories, t.categoryId).Some? ==>
      var c := DayView.FindCategory(categories, t.categoryId).value;
      (c.color != "" ==> BorderColor(Some(c)) == c.color)
      && (c.icon != "" ==> CardIcon(Some(c)) == c.icon)
    ensures BorderColor(DayView.FindCategory(categories, t.categoryId)) != ""
    ensures CardIcon(DayView.FindCategory(categories, t.categoryId)) != ""
  {
  }
}
