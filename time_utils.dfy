/** The time grid: `HH:MM` strings and minutes since midnight, the slot sequence the
    timeline and the start-time picker are built from, 12-hour labels, date keys and
    the minute difference of two times. Instants are integers (milliseconds); days are
    abstract day numbers. */
module TimeUtils {
  import opened Wrappers
  import opened Strings

  const MS_PER_MINUTE: int := 60000
  const MS_PER_DAY: int := 86400000
  const MINUTES_PER_DAY: int := 1440

  /** JavaScript's `a % b` for a positive divisor: the remainder takes the sign of `a`. */
  function JsRem(a: int, b: int): (r: int)
    requires b > 0
    ensures -b < r < b
    ensures a >= 0 ==> r == a % b
    ensures a < 0 ==> r <= 0
    ensures (a - r) % b == 0
  {
    TruncatedRemainder(a, b);
    if a >= 0 then a % b else -((-a) % b)
  }

  /** Both the remainder of `a` and, for a negative dividend, the negated remainder of
      `-a` differ from `a` by a multiple of the divisor. */
  lemma TruncatedRemainder(a: int, b: int)
    requires b > 0
    ensures (a - a % b) % b == 0
    ensures (a + (-a) % b) % b == 0
  {
    DivisionUnique(a - a % b, b, a / b, 0);
    var q := (-a) / b;
    assert -a == q * b + (-a) % b;
    assert a + (-a) % b == (-q) * b;
    DivisionUnique(a + (-a) % b, b, -q, 0);
  }

  // ---------------------------------------------------------------------------
  // HH:MM <-> minutes since midnight

  /** `const [hours, minutes] = s.split(':').map(Number)`: the two leading fields of a
      time string, `None` when either is NaN (a missing second field is `undefined`). */
  function ClockFields(s: string): Option<(int, int)>
  {
    var parts := Split(s, ':');
    var hours := JsNumber(parts[0]);
    var minutes := if |parts| > 1 then JsNumber(parts[1]) else None;
    if hours.Some? && minutes.Some? then Some((hours.value, minutes.value)) else None
  }

  /** The minute of the day a clock reading stands for. */
  function ClockMinutes(hours: int, minutes: int): int
  {
    hours * 60 + minutes
  }

  /** `getMinutesFromTime(s)`: hours * 60 + minutes, `None` for NaN. */
  function GetMinutesFromTime(s: string): Option<int>
  {
    match ClockFields(s)
    case None => None
    case Some(fields) => Some(ClockMinutes(fields.0, fields.1))
  }

  /** `getTimeFromMinutes(m)`: floor division for the hours, JavaScript's `%` for the
      minutes, each padded to two characters. */
  function GetTimeFromMinutes(minutes: int): string
  {
    Pad2(minutes / 60) + ":" + Pad2(JsRem(minutes, 60))
  }

  /** A zero-padded 24-hour time of day: two digits 00..23, a colon, two digits 00..59. */
  predicate IsClockTime(s: string)
  {
    && |s| == 5 && s[2] == ':'
    && AllDigits(s[..2]) && AllDigits(s[3..])
    && DigitsValue(s[..2]) < 24 && DigitsValue(s[3..]) < 60
  }

  lemma MulSign(x: int, step: int)
    requires step > 0
    ensures x >= 1 ==> x * step >= step
    ensures x <= -1 ==> x * step <= -step
  {
  }

  /** Quotient and remainder are unique. */
  lemma DivisionUnique(n: int, step: int, q: int, r: int)
    requires step > 0 && 0 <= r < step && n == q * step + r
    ensures n / step == q && n % step == r
  {
    var d := q - n / step;
    assert d * step == n % step - r;
    MulSign(d, step);
  }

  lemma DigitCharOfValue(c: char)
    requires IsDigit(c)
    ensures DigitChar(DigitValue(c)) == c
  {
  }

  /** A two-digit string is the padded form of its own value. */
  lemma PadOfTwoDigits(s: string)
    requires |s| == 2 && AllDigits(s)
    ensures DigitsValue(s) < 100 && Pad2(DigitsValue(s)) == s
  {
    var a, b := DigitValue(s[0]), DigitValue(s[1]);
    TwoDigitsValue(s);
    DivisionUnique(DigitsValue(s), 10, a, b);
    Pad2Digits(DigitsValue(s));
    DigitCharOfValue(s[0]);
    DigitCharOfValue(s[1]);
    assert s == [s[0], s[1]];
  }

  lemma TwoDigitsValue(s: string)
    requires |s| == 2 && AllDigits(s)
    ensures DigitsValue(s) == 10 * DigitValue(s[0]) + DigitValue(s[1])
  {
    assert s[..1][..0] == [];
    assert DigitsValue(s[..1]) == DigitValue(s[0]);
  }

  /** The two fields of a `HH:MM` string with digits on both sides. */
  lemma ClockFieldsOfDigits(a: string, b: string)
    requires a != [] && AllDigits(a) && b != [] && AllDigits(b)
    ensures ClockFields(a + ":" + b) == Some((DigitsValue(a), DigitsValue(b)))
  {
    assert ':' !in a by {
      forall i | 0 <= i < |a| ensures a[i] != ':' { assert IsDigit(a[i]); }
    }
    assert ':' !in b by {
      forall i | 0 <= i < |b| ensures b[i] != ':' { assert IsDigit(b[i]); }
    }
    SplitAtFirst(a, b, ':');
    SplitWithoutSeparator(b, ':');
    NumberOfDigits(a);
    NumberOfDigits(b);
  }

  /** A minute of the day is written as its padded hour and its padded minute. */
  lemma TimeOfDayMinute(m: int)
    requires 0 <= m < MINUTES_PER_DAY
    ensures 0 <= m / 60 < 24 && 0 <= m % 60 < 60 && ClockMinutes(m / 60, m % 60) == m
    ensures GetTimeFromMinutes(m) == Pad2(m / 60) + ":" + Pad2(m % 60)
  {
  }

  /** Two two-digit fields around a colon, in range, form a clock time that reads as
      the minute they name. */
  lemma ClockTimeOfFields(hh: string, mm: string)
    requires |hh| == 2 && |mm| == 2 && AllDigits(hh) && AllDigits(mm)
    requires DigitsValue(hh) < 24 && DigitsValue(mm) < 60
    ensures IsClockTime(hh + ":" + mm)
    ensures GetMinutesFromTime(hh + ":" + mm).Some?
    ensures GetMinutesFromTime(hh + ":" + mm).value == ClockMinutes(DigitsValue(hh), DigitsValue(mm))
  {
    var s := hh + ":" + mm;
    assert s[..2] == hh && s[3..] == mm;
    ClockFieldsOfDigits(hh, mm);
  }

  /** Every minute of the day is written as a zero-padded `HH:MM` that reads back as
      the same minute. */
  lemma MinutesRoundTrip(m: int)
    requires 0 <= m < MINUTES_PER_DAY
    ensures IsClockTime(GetTimeFromMinutes(m))
    ensures GetMinutesFromTime(GetTimeFromMinutes(m)).Some?
    ensures GetMinutesFromTime(GetTimeFromMinutes(m)).value == m
  {
    TimeOfDayMinute(m);
    Pad2Value(m / 60);
    Pad2Value(m % 60);
    ClockTimeOfFields(Pad2(m / 60), Pad2(m % 60));
  }

  /** A zero-padded `HH:MM` reads as the minute its two digit pairs name. */
  lemma ClockTimeMinutes(s: string)
    requires IsClockTime(s)
    ensures s == s[..2] + ":" + s[3..]
    ensures GetMinutesFromTime(s) == Some(ClockMinutes(DigitsValue(s[..2]), DigitsValue(s[3..])))
  {
    assert s == s[..2] + ":" + s[3..];
    ClockFieldsOfDigits(s[..2], s[3..]);
  }

  /** An hour and a minute in range are written back as their padded pair. */
  lemma TimeOfClockMinutes(h: int, m: int)
    requires 0 <= h < 24 && 0 <= m < 60
    ensures 0 <= ClockMinutes(h, m) < MINUTES_PER_DAY
    ensures GetTimeFromMinutes(ClockMinutes(h, m)) == Pad2(h) + ":" + Pad2(m)
  {
    DivisionUnique(h * 60 + m, 60, h, m);
    assert JsRem(h * 60 + m, 60) == m;
  }

  /** Every zero-padded `HH:MM` reads as a minute of the day that is written back as
      the same string. */
  lemma ClockTimeRoundTrip(s: string)
    requires IsClockTime(s)
    ensures GetMinutesFromTime(s).Some?
    ensures 0 <= GetMinutesFromTime(s).value < MINUTES_PER_DAY
    ensures GetTimeFromMinutes(GetMinutesFromTime(s).value) == s
  {
    var hh, mm := s[..2], s[3..];
    ClockTimeMinutes(s);
    TimeOfClockMinutes(DigitsValue(hh), DigitsValue(mm));
    PadOfTwoDigits(hh);
    PadOfTwoDigits(mm);
    ReadBackOfParts(s, hh, mm, DigitsValue(hh), DigitsValue(mm));
  }

  lemma ReadBackOfParts(s: string, hh: string, mm: string, h: int, m: int)
    requires s == hh + ":" + mm
    requires GetMinutesFromTime(s) == Some(ClockMinutes(h, m))
    requires GetTimeFromMinutes(ClockMinutes(h, m)) == Pad2(h) + ":" + Pad2(m)
    requires Pad2(h) == hh && Pad2(m) == mm
    ensures GetTimeFromMinutes(GetMinutesFromTime(s).value) == s
  {
  }

  // ---------------------------------------------------------------------------
  // 12-hour labels

  /** `formatTime(date)` for a Date whose clock reads `hours` (0..23) and `minutes`
      (0..59): the hour on the 12-hour dial, unpadded, then padded minutes and AM/PM. */
  function FormatTime(hours: int, minutes: int): string
    requires 0 <= hours < 24 && 0 <= minutes < 60
  {
    var ampm := if hours >= 12 then "PM" else "AM";
    var dialHour := if hours % 12 == 0 then 12 else hours % 12;
    IntToString(dialHour) + ":" + Pad2(minutes) + " " + ampm
  }

  /** The label can be read back: it ends in " AM" exactly before noon and " PM"
      otherwise, the two digits before that are the minutes, and the leading number is
      the dial hour 1..12, which together with AM/PM gives back the 24-hour hour. */
  lemma FormatTimeReadBack(hours: int, minutes: int)
    requires 0 <= hours < 24 && 0 <= minutes < 60
    ensures var s := FormatTime(hours, minutes);
      && 7 <= |s| <= 8
      && s[|s| - 3..] == (if hours < 12 then " AM" else " PM")
      && s[|s| - 6] == ':'
      && AllDigits(s[|s| - 5..|s| - 3]) && DigitsValue(s[|s| - 5..|s| - 3]) == minutes
      && AllDigits(s[..|s| - 6])
      && var dialHour := DigitsValue(s[..|s| - 6]);
         1 <= dialHour <= 12 && hours == dialHour % 12 + (if hours < 12 then 0 else 12)
  {
    var dialHour := if hours % 12 == 0 then 12 else hours % 12;
    var ampm := if hours >= 12 then "PM" else "AM";
    LabelReadsBack(FormatTime(hours, minutes), hours, minutes, dialHour, ampm);
  }

  lemma LabelReadsBack(s: string, hours: int, minutes: int, dialHour: int, ampm: string)
    requires 0 <= hours < 24 && 0 <= minutes < 60
    requires dialHour == (if hours % 12 == 0 then 12 else hours % 12)
    requires ampm == (if hours >= 12 then "PM" else "AM")
    requires s == NatToString(dialHour) + ":" + Pad2(minutes) + " " + ampm
    ensures 7 <= |s| <= 8
    ensures s[|s| - 3..] == (if hours < 12 then " AM" else " PM")
    ensures s[|s| - 6] == ':'
    ensures AllDigits(s[|s| - 5..|s| - 3]) && DigitsValue(s[|s| - 5..|s| - 3]) == minutes
    ensures AllDigits(s[..|s| - 6])
    ensures var dialHour := DigitsValue(s[..|s| - 6]);
      1 <= dialHour <= 12 && hours == dialHour % 12 + (if hours < 12 then 0 else 12)
  {
    DialHourOf(hours);
    DialHourDigits(dialHour);
    Pad2Value(minutes);
    LabelLayout(s, NatToString(dialHour), Pad2(minutes), ampm);
  }

  /** The dial hour is 1..12 and, with the half of the day, gives back the hour. */
  lemma DialHourOf(hours: int)
    requires 0 <= hours < 24
    ensures var dialHour := if hours % 12 == 0 then 12 else hours % 12;
      1 <= dialHour <= 12 && hours == dialHour % 12 + (if hours < 12 then 0 else 12)
  {
  }

  /** A dial hour is written with one or two digits that read back as the hour. */
  lemma DialHourDigits(dialHour: int)
    requires 1 <= dialHour <= 12
    ensures 1 <= |NatToString(dialHour)| <= 2
    ensures AllDigits(NatToString(dialHour)) && DigitsValue(NatToString(dialHour)) == dialHour
  {
    if dialHour >= 10 {
      assert NatToString(dialHour) == NatToString(dialHour / 10) + [DigitChar(dialHour % 10)];
    }
    DigitsValueOfNatToString(dialHour);
  }

  /** Where the parts of `hour:MM AM` sit, counted from the end. */
  lemma LabelLayout(s: string, hour: string, mm: string, ampm: string)
    requires |mm| == 2 && |ampm| == 2
    requires s == hour + ":" + mm + " " + ampm
    ensures |s| == |hour| + 6
    ensures s[|s| - 3..] == " " + ampm
    ensures s[|s| - 6] == ':'
    ensures s[|s| - 5..|s| - 3] == mm
    ensures s[..|s| - 6] == hour
  {
  }

  /** Two clock readings with the same label are the same reading. */
  lemma FormatTimeInjective(h1: int, m1: int, h2: int, m2: int)
    requires 0 <= h1 < 24 && 0 <= m1 < 60 && 0 <= h2 < 24 && 0 <= m2 < 60
    requires FormatTime(h1, m1) == FormatTime(h2, m2)
    ensures h1 == h2 && m1 == m2
  {
    FormatTimeReadBack(h1, m1);
    FormatTimeReadBack(h2, m2);
    var s := FormatTime(h1, m1);
    assert s[|s| - 2] == (if h1 < 12 then 'A' else 'P');
    assert s[|s| - 2] == (if h2 < 12 then 'A' else 'P');
  }

  /** Midnight reads "12:MM AM" and noon reads "12:MM PM". */
  lemma FormatTimeMidnightAndNoon(minutes: int)
    requires 0 <= minutes < 60
    ensures FormatTime(0, minutes) == "12:" + Pad2(minutes) + " AM"
    ensures FormatTime(12, minutes) == "12:" + Pad2(minutes) + " PM"
  {
    TwelveDigits();
  }

  lemma TwelveDigits()
    ensures IntToString(12) == "12"
  {
    assert NatToString(12) == NatToString(1) + [DigitChar(2)];
  }

  // ---------------------------------------------------------------------------
  // The slot grid

  /** A row of the grid: its 12-hour label, its `HH:MM` key and its minute. */
  datatype TimeSlot = TimeSlot(time: string, value: string, minutes: int)

  /** The minute of the day a Date shows after `setHours(hours, mins, 0, 0)`: fields
      out of range roll over into the neighbouring days. */
  function DayMinute(hours: int, mins: int): (m: int)
    ensures 0 <= m < MINUTES_PER_DAY
    ensures (hours * 60 + mins - m) % MINUTES_PER_DAY == 0
  {
    (hours * 60 + mins) % MINUTES_PER_DAY
  }

  /** The 12-hour label the generator gives the slot at `minutes`. */
  function SlotLabel(minutes: int): string
  {
    var clock := DayMinute(minutes / 60, JsRem(minutes, 60));
    FormatTime(clock / 60, clock % 60)
  }

  /** Within one day the label is the 12-hour reading of that very minute. */
  lemma SlotLabelOfDayMinute(m: int)
    requires 0 <= m < MINUTES_PER_DAY
    ensures SlotLabel(m) == FormatTime(m / 60, m % 60)
  {
    assert (m / 60) * 60 + m % 60 == m;
    DivisionUnique(m, MINUTES_PER_DAY, 0, m);
    assert DayMinute(m / 60, JsRem(m, 60)) == m;
  }

  /** Slots that lie within one day carry the 12-hour reading of their own minute. */
  lemma LabelsWithinDay(slots: seq<TimeSlot>)
    requires forall i :: 0 <= i < |slots| ==>
      0 <= slots[i].minutes < MINUTES_PER_DAY && slots[i].time == SlotLabel(slots[i].minutes)
    ensures forall i :: 0 <= i < |slots| ==>
      slots[i].time == FormatTime(slots[i].minutes / 60, slots[i].minutes % 60)
  {
    forall i | 0 <= i < |slots|
      ensures slots[i].time == FormatTime(slots[i].minutes / 60, slots[i].minutes % 60)
    {
      SlotLabelOfDayMinute(slots[i].minutes);
    }
  }

  /** The number of slots: the steps of `interval` that fit before `endHour`,
      rounded up; none when the range is empty. */
  function SlotCount(startHour: int, endHour: int, interval: int): nat
    requires interval > 0
  {
    if startHour >= endHour then 0
    else ((endHour - startHour) * 60 + interval - 1) / interval
  }


  lemma CeilDivision(d: int, step: int, k: int)
    requires d > 0 && step > 0 && k >= 1
    requires (k - 1) * step < d <= k * step
    ensures k == (d + step - 1) / step
  {
    assert (k - 1) * step == k * step - step;
    DivisionUnique(d + step - 1, step, k, d - (k - 1) * step - 1);
  }

  /** The row `generateTimeSlots` pushes for `minutes`: the label of the Date set to
      those hours and minutes, and the padded `HH:MM` key. */
  function SlotAt(minutes: int): TimeSlot
  {
    var hours := minutes / 60;
    var mins := JsRem(minutes, 60);
    var clock := DayMinute(hours, mins);
    TimeSlot(FormatTime(clock / 60, clock % 60), Pad2(hours) + ":" + Pad2(mins), minutes)
  }

  /** The first `n` rows built by `rowAt` from `startMinutes` in steps of `interval`. */
  function SlotRun(rowAt: int -> TimeSlot, startMinutes: int, interval: int, n: nat): (r: seq<TimeSlot>)
    ensures |r| == n
  {
    if n == 0 then [] else SlotRun(rowAt, startMinutes, interval, n - 1) + [rowAt(startMinutes + (n - 1) * interval)]
  }

  lemma {:induction false} SlotRunAt(rowAt: int -> TimeSlot, startMinutes: int, interval: int, n: nat, i: int)
    requires 0 <= i < n
    ensures SlotRun(rowAt, startMinutes, interval, n)[i] == rowAt(startMinutes + i * interval)
  {
    if i < n - 1 {
      SlotRunAt(rowAt, startMinutes, interval, n - 1, i);
    }
  }

  /** The row at `m` carries `m`, the key `getTimeFromMinutes(m)` and the label of `m`. */
  lemma SlotAtFields(m: int)
    ensures SlotAt(m).minutes == m
    ensures SlotAt(m).value == GetTimeFromMinutes(m)
    ensures SlotAt(m).time == SlotLabel(m)
  {
  }

  lemma SlotRunStep(rowAt: int -> TimeSlot, startMinutes: int, interval: int, n: nat, m: int)
    requires m == startMinutes + n * interval
    ensures SlotRun(rowAt, startMinutes, interval, n + 1) == SlotRun(rowAt, startMinutes, interval, n) + [rowAt(m)]
  {
  }

  lemma MulSucc(n: int, k: int)
    ensures (n + 1) * k == n * k + k
  {
  }

  /** The number of steps of `interval` from `startMinutes` taken before reaching
      `endMinutes` is the rounded-up quotient, or none for an empty range. */
  lemma StepCount(startHour: int, endHour: int, interval: int, n: nat)
    requires interval > 0
    requires startHour * 60 + n * interval >= endHour * 60
    requires n > 0 ==> startHour * 60 + n * interval - interval < endHour * 60
    ensures n == SlotCount(startHour, endHour, interval)
  {
    if startHour < endHour {
      if n == 0 {
        assert false;
      }
      assert (n - 1) * interval == n * interval - interval;
      CeilDivision(endHour * 60 - startHour * 60, interval, n);
    } else if n > 0 {
      MulSign(n - 1, interval);
      assert false;
    }
  }

  /** Every step before the last lies between the start and the end. */
  lemma StepBounds(startMinutes: int, endMinutes: int, interval: int, n: nat, i: int)
    requires interval > 0 && 0 <= i < n
    requires startMinutes + n * interval - interval < endMinutes
    ensures startMinutes <= startMinutes + i * interval < endMinutes
  {
    MulSign(i, interval);
    MulSign(n - 1 - i, interval);
    assert (n - 1 - i) * interval == n * interval - interval - i * interval;
  }

  /** `generateTimeSlots(startHour, endHour, interval)`: the minutes from `startHour`
      in steps of `interval` while they are before `endHour`, each with its `HH:MM` key
      and 12-hour label. The source loop never ends for a non-positive interval. */
  method GenerateTimeSlots(startHour: int, endHour: int, interval: int) returns (slots: seq<TimeSlot>)
    requires interval > 0
    ensures |slots| == SlotCount(startHour, endHour, interval)
    ensures forall i :: 0 <= i < |slots| ==> slots[i].minutes == startHour * 60 + i * interval
    ensures forall i :: 0 <= i < |slots| ==> startHour * 60 <= slots[i].minutes < endHour * 60
    ensures forall i :: 0 <= i < |slots| ==> slots[i].value == GetTimeFromMinutes(slots[i].minutes)
    ensures forall i :: 0 <= i < |slots| ==> slots[i].time == SlotLabel(slots[i].minutes)
  {
    slots := [];
    var startMinutes := startHour * 60;
    var endMinutes := endHour * 60;
    var minutes := startMinutes;
    while minutes < endMinutes
      invariant minutes == startMinutes + |slots| * interval
      invariant |slots| > 0 ==> minutes - interval < endMinutes
      invariant slots == SlotRun(SlotAt, startMinutes, interval, |slots|)
      decreases endMinutes - minutes
    {
      SlotRunStep(SlotAt, startMinutes, interval, |slots|, minutes);
      MulSucc(|slots|, interval);
      slots := slots + [SlotAt(minutes)];
      minutes := minutes + interval;
    }
    var n := |slots|;
    StepCount(startHour, endHour, interval, n);
    forall i | 0 <= i < n
      ensures slots[i].minutes == startMinutes + i * interval
      ensures startMinutes <= slots[i].minutes < endMinutes
      ensures slots[i].value == GetTimeFromMinutes(slots[i].minutes)
      ensures slots[i].time == SlotLabel(slots[i].minutes)
    {
      SlotRunAt(SlotAt, startMinutes, interval, n, i);
      SlotAtFields(startMinutes + i * interval);
      StepBounds(startMinutes, endMinutes, interval, n, i);
    }
  }

  /** Along a slot sequence laid out from `startHour` in steps of a positive
      `interval`, the minutes strictly increase. */
  lemma SlotMinutesIncrease(startHour: int, interval: int, slots: seq<TimeSlot>)
    requires interval > 0
    requires forall i :: 0 <= i < |slots| ==> slots[i].minutes == startHour * 60 + i * interval
    ensures forall i, j :: 0 <= i < j < |slots| ==> slots[i].minutes < slots[j].minutes
  {
    forall i, j | 0 <= i < j < |slots|
      ensures slots[i].minutes < slots[j].minutes
    {
      MulSign(j - i, interval);
      assert j * interval - i * interval == (j - i) * interval;
    }
  }

  // ---------------------------------------------------------------------------
  // Dates and durations

  /** `getDateString(date)` from the calendar fields of a Date: the year unpadded, the
      month (0-based `getMonth()`, written 1-based) and the day padded to two digits. */
  function GetDateString(year: int, monthIndex: int, day: int): string
    requires 0 <= monthIndex < 12 && 1 <= day <= 31
  {
    IntToString(year) + "-" + Pad2(monthIndex + 1) + "-" + Pad2(day)
  }

  /** The key can be read back from its end: the day in the last two characters, the
      1-based month before it, and the year in what precedes the last six. */
  lemma DateStringReadBack(year: int, monthIndex: int, day: int)
    requires 0 <= monthIndex < 12 && 1 <= day <= 31
    ensures var s := GetDateString(year, monthIndex, day);
      && |s| == |IntToString(year)| + 6
      && s[..|s| - 6] == IntToString(year)
      && s[|s| - 6] == '-' && s[|s| - 3] == '-'
      && AllDigits(s[|s| - 5..|s| - 3]) && DigitsValue(s[|s| - 5..|s| - 3]) == monthIndex + 1
      && AllDigits(s[|s| - 2..]) && DigitsValue(s[|s| - 2..]) == day
  {
    var s := GetDateString(year, monthIndex, day);
    Pad2Value(monthIndex + 1);
    Pad2Value(day);
    assert s[..|s| - 6] == IntToString(year);
    assert s[|s| - 5..|s| - 3] == Pad2(monthIndex + 1);
    assert s[|s| - 2..] == Pad2(day);
  }

  /** Distinct calendar dates have distinct keys. */
  lemma DateStringInjective(y1: int, mi1: int, d1: int, y2: int, mi2: int, d2: int)
    requires 0 <= mi1 < 12 && 1 <= d1 <= 31 && 0 <= mi2 < 12 && 1 <= d2 <= 31
    requires GetDateString(y1, mi1, d1) == GetDateString(y2, mi2, d2)
    ensures y1 == y2 && mi1 == mi2 && d1 == d2
  {
    DateStringReadBack(y1, mi1, d1);
    DateStringReadBack(y2, mi2, d2);
    IntToStringInjective(y1, y2);
  }

  /** `addDays(day, n)` on abstract day numbers. */
  function AddDays(day: int, n: int): int
  {
    day + n
  }

  /** The layout of a time of day in the ECMAScript date-time string format (section
      21.4.1.32 of ECMA-262): `HH:mm`, `HH:mm:ss` or `HH:mm:ss.sss`, each field in
      decimal digits. A time-zone suffix is not read. */
  predicate IsoTimeLayout(t: string)
  {
    && (|t| == 5 || |t| == 8 || |t| == 12)
    && t[2] == ':' && AllDigits(t[..2]) && AllDigits(t[3..5])
    && (|t| >= 8 ==> t[5] == ':' && AllDigits(t[6..8]))
    && (|t| == 12 ==> t[8] == '.' && AllDigits(t[9..12]))
  }

  /** Hour, minute, second and millisecond of a time in that layout; a field the
      layout leaves out is zero. */
  function IsoTimeFields(t: string): (int, int, int, int)
    requires IsoTimeLayout(t)
  {
    (DigitsValue(t[..2]), DigitsValue(t[3..5]),
     if |t| >= 8 then DigitsValue(t[6..8]) else 0,
     if |t| == 12 then DigitsValue(t[9..12]) else 0)
  }

  /** The instant of `new Date(`1970-01-01T${t}`)` in milliseconds after that local
      midnight. Minutes and seconds run to 59; the hour runs to 23, and 24 is read
      only with every other field zero, as the midnight that ends the day. Anything
      else is `None` (Invalid Date). */
  function IsoTimeOfDayMs(t: string): Option<int>
  {
    if !IsoTimeLayout(t) then None
    else
      var f := IsoTimeFields(t);
      if f.1 < 60 && f.2 < 60 && (f.0 < 24 || (f.0 == 24 && f.1 == 0 && f.2 == 0 && f.3 == 0))
      then Some(((f.0 * 60 + f.1) * 60 + f.2) * 1000 + f.3)
      else None
  }

  /** A readable time lies within the day, and is its last instant exactly when the
      hour is 24. */
  lemma IsoTimeOfDayRange(t: string)
    ensures IsoTimeOfDayMs(t).Some? ==>
      && 0 <= IsoTimeOfDayMs(t).value <= MS_PER_DAY
      && (IsoTimeOfDayMs(t).value == MS_PER_DAY <==> IsoTimeFields(t).0 == 24)
  {
    if IsoTimeOfDayMs(t).Some? {
      var f := IsoTimeFields(t);
      if f.0 < 24 {
        assert f.0 * 60 + f.1 <= 1439;
        assert (f.0 * 60 + f.1) * 60 + f.2 <= 86399;
        if |t| == 12 {
          ThreeDigitsValue(t[9..12]);
        }
      }
    }
  }

  lemma ThreeDigitsValue(s: string)
    requires |s| == 3 && AllDigits(s)
    ensures DigitsValue(s) == 100 * DigitValue(s[0]) + 10 * DigitValue(s[1]) + DigitValue(s[2])
  {
    assert s[..|s| - 1] == s[..2];
    TwoDigitsValue(s[..2]);
  }

  /** The fields of a time in the ISO layout, digit by digit. */
  lemma IsoTimeFieldsOfDigits(t: string)
    requires IsoTimeLayout(t)
    ensures IsoTimeFields(t).0 == 10 * DigitValue(t[0]) + DigitValue(t[1])
    ensures IsoTimeFields(t).1 == 10 * DigitValue(t[3]) + DigitValue(t[4])
    ensures |t| >= 8 ==> IsoTimeFields(t).2 == 10 * DigitValue(t[6]) + DigitValue(t[7])
    ensures |t| == 12 ==> IsoTimeFields(t).3 == 100 * DigitValue(t[9]) + 10 * DigitValue(t[10]) + DigitValue(t[11])
  {
    TwoDigitsValue(t[..2]);
    TwoDigitsValue(t[3..5]);
    if |t| >= 8 {
      TwoDigitsValue(t[6..8]);
    }
    if |t| == 12 {
      ThreeDigitsValue(t[9..12]);
    }
  }

  /** Among five-character strings the readable times are exactly the padded `HH:MM`
      times and `24:00`; a padded `HH:MM` time is read as its minutes since midnight. */
  lemma IsoTimeOfClockTime(t: string)
    ensures |t| == 5 ==> (IsoTimeOfDayMs(t).Some? <==> IsClockTime(t) || t == "24:00")
    ensures IsClockTime(t) ==>
      && GetMinutesFromTime(t).Some? && IsoTimeOfDayMs(t).Some?
      && IsoTimeOfDayMs(t).value == GetMinutesFromTime(t).value * MS_PER_MINUTE
  {
    if |t| == 5 {
      assert t[3..] == t[3..5];
      if IsoTimeLayout(t) {
        TwoDigitsValue(t[..2]);
        if DigitsValue(t[..2]) == 24 {
          assert t[0] == '2' && t[1] == '4';
          if DigitsValue(t[3..5]) == 0 {
            TwoDigitsValue(t[3..5]);
            assert t == "24:00";
          }
        }
      }
      if t == "24:00" {
        TwoDigitsValue(t[..2]);
        TwoDigitsValue(t[3..5]);
      }
    }
    if IsClockTime(t) {
      assert t == t[..2] + ":" + t[3..];
      ClockFieldsOfDigits(t[..2], t[3..]);
    }
  }

  /** `calculateDuration(startTime, endTime)`: the whole minutes between the two
      instants, rounded down; `None` (NaN) when either string is not a readable time. */
  function CalculateDuration(startTime: string, endTime: string): Option<int>
  {
    var start := IsoTimeOfDayMs(startTime);
    var end := IsoTimeOfDayMs(endTime);
    if start.Some? && end.Some? then Some((end.value - start.value) / MS_PER_MINUTE) else None
  }

  /** For two `HH:MM` times the duration is the difference of their minutes since
      midnight, negative exactly when the end precedes the start. */
  lemma DurationIsMinuteDifference(startTime: string, endTime: string)
    ensures IsClockTime(startTime) && IsClockTime(endTime) ==>
      && CalculateDuration(startTime, endTime).Some?
      && GetMinutesFromTime(startTime).Some? && GetMinutesFromTime(endTime).Some?
      && CalculateDuration(startTime, endTime).value
         == GetMinutesFromTime(endTime).value - GetMinutesFromTime(startTime).value
      && (CalculateDuration(startTime, endTime).value < 0
          <==> GetMinutesFromTime(endTime).value < GetMinutesFromTime(startTime).value)
  {
    IsoTimeOfClockTime(startTime);
    IsoTimeOfClockTime(endTime);
  }

  /** Whatever the two readable times, the duration is at most a day either way. */
  lemma DurationWithinADay(startTime: string, endTime: string)
    ensures CalculateDuration(startTime, endTime).Some? ==>
      -MINUTES_PER_DAY <= CalculateDuration(startTime, endTime).value <= MINUTES_PER_DAY
  {
    IsoTimeOfDayRange(startTime);
    IsoTimeOfDayRange(endTime);
  }

  /** Seconds count: 06:00:30 to 07:00 is 59 minutes. */
  lemma DurationCountsSeconds()
    ensures CalculateDuration("06:00:30", "07:00").Some?
    ensures CalculateDuration("06:00:30", "07:00").value == 59
  {
    var a, b := "06:00:30", "07:00";
    assert IsoTimeLayout(a) && IsoTimeLayout(b);
    IsoTimeFieldsOfDigits(a);
    IsoTimeFieldsOfDigits(b);
    assert IsoTimeOfDayMs(a).value == 21630000;
    assert IsoTimeOfDayMs(b).value == 25200000;
  }

  /** The result is floored, not truncated: 07:00 to 06:59:59.999 is -1 minute. */
  lemma DurationFloors()
    ensures CalculateDuration("07:00", "06:59:59.999").Some?
    ensures CalculateDuration("07:00", "06:59:59.999").value == -1
  {
    var b, c := "07:00", "06:59:59.999";
    assert IsoTimeLayout(b) && IsoTimeLayout(c);
    IsoTimeFieldsOfDigits(b);
    IsoTimeFieldsOfDigits(c);
    assert IsoTimeOfDayMs(b).value == 25200000;
    assert IsoTimeOfDayMs(c).value == 25199999;
  }

  /** 23:00 to 24:00 is 60 minutes; an hour without its leading zero is not a time. */
  lemma DurationToEndOfDay()
    ensures CalculateDuration("23:00", "24:00").Some?
    ensures CalculateDuration("23:00", "24:00").value == 60
    ensures CalculateDuration("7:00", "08:00").None?
  {
    var d, e := "23:00", "24:00";
    assert IsoTimeLayout(d) && IsoTimeLayout(e);
    IsoTimeFieldsOfDigits(d);
    IsoTimeFieldsOfDigits(e);
    assert IsoTimeOfDayMs(d).value == 82800000;
    assert IsoTimeOfDayMs(e).value == 86400000;
    assert !IsoTimeLayout("7:00");
  }
}
