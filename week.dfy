/**
  The week calculator behind the two calendar pages: align a day back to the
  Monday of its week and list the five school days that start there.

  A day is its proleptic Gregorian ordinal, the number Python's
  `date.toordinal()` gives: 0001-01-01 is day 1 and is a Monday, and the
  weekday of day `n` is `(n + 6) % 7`, Monday being 0 and Sunday 6.
 */
module Week {
  import opened Wrappers

  /** The five weekday labels, Monday to Friday. */
  const WEEKDAYS: seq<string> := ["월요일", "화요일", "수요일", "목요일", "금요일"]

  /** Weekday of a day, Monday 0 to Sunday 6, as `datetime.weekday()` gives it. */
  function Weekday(day: int): (w: nat)
    ensures w < 7
  {
    (day + 6) % 7
  }

  /** The Monday of the week `day` lies in. */
  function MondayOf(day: int): (monday: int)
    ensures Weekday(monday) == 0
    ensures monday <= day < monday + 7
  {
    var m := day - Weekday(day);
    assert (day + 6) == 7 * ((day + 6) / 7) + Weekday(day);
    assert m + 6 == 7 * ((day + 6) / 7);
    m
  }

  /** A week has exactly one Monday at most six days before any of its days. */
  lemma MondayOfUnique(day: int, monday: int)
    requires Weekday(monday) == 0
    requires monday <= day < monday + 7
    ensures MondayOf(day) == monday
  {
  }

  /** Every day of one week aligns to the same Monday, so aligning is idempotent. */
  lemma MondayOfSameWeek(day: int, k: int)
    requires 0 <= k < 7
    ensures MondayOf(MondayOf(day) + k) == MondayOf(day)
  {
  }

  /**
    `get_week_start`: the Monday of the given day, or of today when no date
    is given. The clock is a parameter.
   */
  function GetWeekStart(date: Option<int>, today: int): (monday: int)
    ensures var day := if date.Some? then date.value else today;
            Weekday(monday) == 0 && monday <= day < monday + 7 && day - monday == Weekday(day)
  {
    var day := if date.Some? then date.value else today;
    MondayOf(day)
  }

  /** One column of the week grid: its day and its weekday label. */
  datatype WeekDate = WeekDate(day: int, weekday: string)

  /** The five columns of the week that starts on `weekStart`. */
  function WeekOf(weekStart: int): (week: seq<WeekDate>)
    ensures |week| == |WEEKDAYS| == 5
    ensures forall i :: 0 <= i < 5 ==> week[i].day == weekStart + i && week[i].weekday == WEEKDAYS[i]
  {
    seq(5, i requires 0 <= i < 5 => WeekDate(weekStart + i, WEEKDAYS[i]))
  }

  /** The week-date loop of both calendar pages, appending one column per day. */
  method WeekDates(weekStart: int) returns (week: seq<WeekDate>)
    ensures week == WeekOf(weekStart)
  {
    week := [];
    var i := 0;
    while i < 5
      invariant 0 <= i <= 5
      invariant |week| == i
      invariant forall j :: 0 <= j < i ==> week[j] == WeekDate(weekStart + j, WEEKDAYS[j])
    {
      week := week + [WeekDate(weekStart + i, WEEKDAYS[i])];
      i := i + 1;
    }
  }

  /**
    When the week starts on a Monday, each column's label names its day's
    real weekday, and every column belongs to that same week.
   */
  lemma WeekLabelsAreTrue(weekStart: int, i: int)
    requires Weekday(weekStart) == 0
    requires 0 <= i < 5
    ensures Weekday(WeekOf(weekStart)[i].day) == i
    ensures WeekOf(weekStart)[i].weekday == WEEKDAYS[i]
    ensures MondayOf(WeekOf(weekStart)[i].day) == weekStart
  {
  }
}
