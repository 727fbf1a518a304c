/** The seven weekdays, used as keys of a weekly routine and as the labels
    of a location's opening hours. */
module Week {

  datatype Day = Monday | Tuesday | Wednesday | Thursday | Friday | Saturday | Sunday

  /** The weekdays in display order, Monday first (`daysOfWeek`). */
  const DaysOfWeek: seq<Day> := [Monday, Tuesday, Wednesday, Thursday, Friday, Saturday, Sunday]

  /** The label used for a weekday in documents and on screen. */
  function DayName(d: Day): string {
    match d
    case Monday => "Monday"
    case Tuesday => "Tuesday"
    case Wednesday => "Wednesday"
    case Thursday => "Thursday"
    case Friday => "Friday"
    case Saturday => "Saturday"
    case Sunday => "Sunday"
  }

  /** `DaysOfWeek` lists every weekday exactly once. */
  lemma DaysOfWeekIsComplete()
    ensures |DaysOfWeek| == 7
    ensures forall d: Day :: d in DaysOfWeek
    ensures forall i, j :: 0 <= i < j < |DaysOfWeek| ==> DaysOfWeek[i] != DaysOfWeek[j]
  {
    forall d: Day ensures d in DaysOfWeek {
      match d
      case Monday => assert DaysOfWeek[0] == d;
      case Tuesday => assert DaysOfWeek[1] == d;
      case Wednesday => assert DaysOfWeek[2] == d;
      case Thursday => assert DaysOfWeek[3] == d;
      case Friday => assert DaysOfWeek[4] == d;
      case Saturday => assert DaysOfWeek[5] == d;
      case Sunday => assert DaysOfWeek[6] == d;
    }
  }
}
