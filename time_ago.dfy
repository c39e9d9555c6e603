/** `formatTimeAgo`: a relative age label for a timestamp, chosen from the millisecond
    difference between the current time and the timestamp. */
module TimeAgo {
  import Text

  const MinuteMs: int := 60000
  const HourMs: int := 3600000
  const DayMs: int := 86400000

  /** The buckets, in the order they are tried; `LocaleDate` is the final fallback to
      `toLocaleDateString('ru-RU')`, whose text is outside this model. */
  datatype Age =
    | JustNow
    | MinutesAgo(minutes: nat)
    | HoursAgo(hours: nat)
    | Yesterday
    | DaysAgo(days: nat)
    | LocaleDate

  /** The bucket for a difference of `diffMs`, with the floored minute, hour and day counts
      of the source (Dafny's `/` by a positive constant floors, as `Math.floor` does, also
      for a timestamp in the future). Each bucket covers one range of differences, and the
      count it carries is the floor of the difference in its unit. */
  function Classify(diffMs: int): (a: Age)
    ensures a == JustNow <==> diffMs < MinuteMs
    ensures a.MinutesAgo? <==> MinuteMs <= diffMs < HourMs
    ensures a.MinutesAgo? ==> 1 <= a.minutes < 60 && a.minutes * MinuteMs <= diffMs < (a.minutes + 1) * MinuteMs
    ensures a.HoursAgo? <==> HourMs <= diffMs < DayMs
    ensures a.HoursAgo? ==> 1 <= a.hours < 24 && a.hours * HourMs <= diffMs < (a.hours + 1) * HourMs
    ensures a == Yesterday <==> DayMs <= diffMs < 2 * DayMs
    ensures a.DaysAgo? <==> 2 * DayMs <= diffMs < 7 * DayMs
    ensures a.DaysAgo? ==> 2 <= a.days < 7 && a.days * DayMs <= diffMs < (a.days + 1) * DayMs
    ensures a == LocaleDate <==> diffMs >= 7 * DayMs
  {
    var diffMinutes := diffMs / MinuteMs;
    var diffHours := diffMs / HourMs;
    var diffDays := diffMs / DayMs;
    if diffMinutes < 1 then JustNow
    else if diffMinutes < 60 then MinutesAgo(diffMinutes)
    else if diffHours < 24 then HoursAgo(diffHours)
    else if diffDays == 1 then Yesterday
    else if diffDays < 7 then DaysAgo(diffDays)
    else LocaleDate
  }

  /** The text shown for a bucket; `localeDate` stands for the locale-formatted date. */
  function Render(a: Age, localeDate: string): (r: string)
    ensures a == LocaleDate ==> r == localeDate
    ensures a.MinutesAgo? || a.HoursAgo? || a.DaysAgo? ==> |r| > 0 && Text.IsDigit(r[0])
  {
    match a
    case JustNow => "только что"
    case MinutesAgo(n) => Text.Decimal(n) + " мин назад"
    case HoursAgo(n) => Text.Decimal(n) + " ч назад"
    case Yesterday => "вчера"
    case DaysAgo(n) => Text.Decimal(n) + " дн назад"
    case LocaleDate => localeDate
  }

  /** `formatTimeAgo(timestamp)` read at `nowMs` for a timestamp at `timeMs`. The label is
      "только что" exactly when less than a minute has passed (given that the locale date is
      not that very text), the floored minutes, hours or days with their unit below a day and
      from two to seven days, "вчера" on the second day, and the locale date from seven days on. */
  function FormatTimeAgo(nowMs: int, timeMs: int, localeDate: string): (r: string)
    ensures nowMs - timeMs < MinuteMs ==> r == "только что"
    ensures localeDate != "только что" ==> (r == "только что" <==> nowMs - timeMs < MinuteMs)
    ensures nowMs - timeMs >= 7 * DayMs ==> r == localeDate
    ensures MinuteMs <= nowMs - timeMs < HourMs ==> r == Text.Decimal((nowMs - timeMs) / MinuteMs) + " мин назад"
    ensures HourMs <= nowMs - timeMs < DayMs ==> r == Text.Decimal((nowMs - timeMs) / HourMs) + " ч назад"
    ensures DayMs <= nowMs - timeMs < 2 * DayMs ==> r == "вчера"
    ensures 2 * DayMs <= nowMs - timeMs < 7 * DayMs ==> r == Text.Decimal((nowMs - timeMs) / DayMs) + " дн назад"
  {
    var a := Classify(nowMs - timeMs);
    Render(a, localeDate)
  }
}
