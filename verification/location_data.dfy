/** The shape of a clinic location document and of its opening hours, shared
    by the panel that lists locations and the panel that adds one. */
module LocationData {
  import opened Seqs

  /** One line of opening hours: a day label and free text such as
      "9:00 AM - 5:00 PM" or "Closed". */
  datatype LocationHours = LocationHours(day: string, time: string)

  /** A stored location with its document id. */
  datatype Location = Location(id: string, name: string, address: string, hours: seq<LocationHours>)

  /** The two editable fields of an opening-hours line. */
  datatype HoursField = DayField | TimeField

  /** Sets one field of one line of a copy of `hours`. An index without a
      line changes nothing: the source dereferences `undefined` there and
      throws before the new list is stored. */
  function ChangeHour(hours: seq<LocationHours>, index: int, field: HoursField, value: string): (r: seq<LocationHours>)
    ensures |r| == |hours|
    ensures !(0 <= index < |hours|) ==> r == hours
    ensures forall j :: 0 <= j < |hours| && j != index ==> r[j] == hours[j]
    ensures 0 <= index < |hours| && field == TimeField ==> r[index] == LocationHours(hours[index].day, value)
    ensures 0 <= index < |hours| && field == DayField ==> r[index] == LocationHours(value, hours[index].time)
  {
    if !(0 <= index < |hours|) then hours
    else
      var h := hours[index];
      hours[index := match field case DayField => h.(day := value) case TimeField => h.(time := value)]
  }

  /** A line counts as an operating day unless its time is exactly "Closed"
      (the comparison is case-sensitive). */
  predicate IsOpen(h: LocationHours) {
    h.time != "Closed"
  }

  /** The "Operating Days" column: the day of every line that is open, in
      the order of the lines (before they are joined with ", "). */
  function OperatingDays(hours: seq<LocationHours>): (days: seq<string>)
    ensures |days| == |Filter(hours, IsOpen)|
    ensures forall k :: 0 <= k < |days| ==> days[k] == Filter(hours, IsOpen)[k].day
  {
    if |hours| == 0 then []
    else (if hours[0].time != "Closed" then [hours[0].day] else []) + OperatingDays(hours[1..])
  }

  /** A day is listed exactly when some open line carries it. */
  lemma {:induction false} OperatingDaysMembership(hours: seq<LocationHours>, d: string)
    ensures d in OperatingDays(hours) <==> exists i :: 0 <= i < |hours| && IsOpen(hours[i]) && hours[i].day == d
  {
    if |hours| > 0 {
      OperatingDaysMembership(hours[1..], d);
      if exists i :: 0 <= i < |hours[1..]| && IsOpen(hours[1..][i]) && hours[1..][i].day == d {
        var i :| 0 <= i < |hours[1..]| && IsOpen(hours[1..][i]) && hours[1..][i].day == d;
        assert IsOpen(hours[i + 1]) && hours[i + 1].day == d;
      }
      if exists i :: 0 <= i < |hours| && IsOpen(hours[i]) && hours[i].day == d {
        var i :| 0 <= i < |hours| && IsOpen(hours[i]) && hours[i].day == d;
        if i > 0 {
          assert IsOpen(hours[1..][i - 1]) && hours[1..][i - 1].day == d;
        }
      }
    }
  }

  /** Hours that are all "Closed" have no operating day. */
  lemma {:induction false} AllClosedHasNoOperatingDays(hours: seq<LocationHours>)
    requires forall i :: 0 <= i < |hours| ==> hours[i].time == "Closed"
    ensures OperatingDays(hours) == []
  {
    if |hours| > 0 {
      AllClosedHasNoOperatingDays(hours[1..]);
    }
  }
}
