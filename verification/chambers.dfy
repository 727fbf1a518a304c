/** The chamber-locations panel: lists the stored locations and edits them
    through three dialogs (name and address, opening hours, delete). Each
    dialog is meant to work on a copy in the panel's state and to update the
    list only after the remote write succeeds; the hours dialog as written
    shares its lines with the list (`HandleHourChangeAsWritten`), and the
    rest of the model uses the copying `HandleHourChange`. */
module Chambers {
  import opened Common
  import opened Seqs
  import opened LocationData

  /** The panel's state: the list, the location a dialog was opened for,
      and the values being edited. */
  datatype Panel = Panel(
    locations: seq<Location>,
    current: Option<Location>,
    editName: string,
    editAddress: string,
    editHours: seq<LocationHours>)

  /** `handleEdit`: opens the name/address dialog on a location. */
  function HandleEdit(p: Panel, loc: Location): (r: Panel)
    ensures r.current == Some(loc) && r.editName == loc.name && r.editAddress == loc.address
    ensures r.locations == p.locations && r.editHours == p.editHours
  {
    p.(current := Some(loc), editName := loc.name, editAddress := loc.address)
  }

  /** `handleEditHours`: opens the hours dialog on a copy of a location's
      hours. */
  function HandleEditHours(p: Panel, loc: Location): (r: Panel)
    ensures r.current == Some(loc) && r.editHours == loc.hours
    ensures r.locations == p.locations && r.editName == p.editName && r.editAddress == p.editAddress
  {
    p.(current := Some(loc), editHours := loc.hours)
  }

  /** `handleDeletePrompt`: opens the delete confirmation on a location. */
  function HandleDeletePrompt(p: Panel, loc: Location): (r: Panel)
    ensures r.current == Some(loc)
    ensures r.locations == p.locations && r.editHours == p.editHours
    ensures r.editName == p.editName && r.editAddress == p.editAddress
  {
    p.(current := Some(loc))
  }

  /** `handleHourChange` with the edited line copied before it is changed:
      one field of one line of the dialog's hours changes, the other field,
      the other lines and the length stay, and the list is not touched. */
  function HandleHourChange(p: Panel, index: int, field: HoursField, value: string): (r: Panel)
    ensures r.locations == p.locations && r.current == p.current
    ensures r.editName == p.editName && r.editAddress == p.editAddress
    ensures |r.editHours| == |p.editHours|
    ensures forall j :: 0 <= j < |p.editHours| && j != index ==> r.editHours[j] == p.editHours[j]
    ensures 0 <= index < |p.editHours| && field == TimeField ==>
      r.editHours[index].time == value && r.editHours[index].day == p.editHours[index].day
    ensures 0 <= index < |p.editHours| && field == DayField ==>
      r.editHours[index].day == value && r.editHours[index].time == p.editHours[index].time
  {
    p.(editHours := ChangeHour(p.editHours, index, field, value))
  }

  /** Replaces the hours at `index` of every location with the given id, as
      a write through a shared hours line does. */
  function WriteThrough(locations: seq<Location>, id: string, index: int, h: LocationHours): (r: seq<Location>)
    ensures |r| == |locations|
    ensures forall i :: 0 <= i < |locations| ==>
      && r[i].id == locations[i].id && r[i].name == locations[i].name && r[i].address == locations[i].address
      && |r[i].hours| == |locations[i].hours|
      && (locations[i].id != id ==> r[i] == locations[i])
    ensures forall i, j :: 0 <= i < |locations| && 0 <= j < |locations[i].hours| && j != index ==>
      r[i].hours[j] == locations[i].hours[j]
  {
    seq(|locations|, i requires 0 <= i < |locations| =>
      var l := locations[i];
      if l.id == id && 0 <= index < |l.hours| then l.(hours := l.hours[index := h]) else l)
  }

  /** `handleHourChange` as the panel performs it: `[...editHours]` copies
      only the list, so `updatedHours[index][field] = value` mutates the line
      object that the listed location's `hours` also holds. Right after
      `handleEditHours` every line of the dialog is shared with the location
      of the same id, so the list changes together with the dialog. */
  function HandleHourChangeAsWritten(p: Panel, index: int, field: HoursField, value: string): (r: Panel)
    ensures r.editHours == HandleHourChange(p, index, field, value).editHours
    ensures r.current == p.current
    ensures r.editName == p.editName && r.editAddress == p.editAddress
    ensures p.current.None? || !(0 <= index < |p.editHours|) ==> r.locations == p.locations
    ensures |r.locations| == |p.locations|
    ensures forall i :: 0 <= i < |p.locations| ==>
      && r.locations[i].id == p.locations[i].id
      && r.locations[i].name == p.locations[i].name
      && r.locations[i].address == p.locations[i].address
      && |r.locations[i].hours| == |p.locations[i].hours|
    ensures forall i, j :: 0 <= i < |p.locations| && 0 <= j < |p.locations[i].hours| && j != index ==>
      r.locations[i].hours[j] == p.locations[i].hours[j]
    ensures p.current.Some? ==>
      forall i :: 0 <= i < |p.locations| && p.locations[i].id != p.current.value.id ==> r.locations[i] == p.locations[i]
    ensures p.current.Some? && 0 <= index < |p.editHours| ==>
      forall i :: 0 <= i < |p.locations| && p.locations[i].id == p.current.value.id && index < |p.locations[i].hours| ==>
        r.locations[i].hours[index] == r.editHours[index]
  {
    var edited := ChangeHour(p.editHours, index, field, value);
    if p.current.None? || !(0 <= index < |p.editHours|) then p.(editHours := edited)
    else p.(editHours := edited, locations := WriteThrough(p.locations, p.current.value.id, index, edited[index]))
  }

  /** Replaces name and address of every location with the given id. */
  function RenameWhere(locations: seq<Location>, id: string, name: string, address: string): seq<Location> {
    seq(|locations|, i requires 0 <= i < |locations| =>
      if locations[i].id == id then locations[i].(name := name, address := address) else locations[i])
  }

  /** `saveLocationChanges`: with no current location nothing happens, and a
      failed write changes nothing. On success the list keeps its length and
      order; only locations with the current id change, and only their name
      and address, which take the edited values. */
  function SaveLocationChanges(p: Panel, outcome: WriteOutcome): (r: Panel)
    ensures p.current.None? || outcome.Failure? ==> r == p
    ensures r.current == p.current && r.editHours == p.editHours
    ensures r.editName == p.editName && r.editAddress == p.editAddress
    ensures |r.locations| == |p.locations|
    ensures p.current.Some? && outcome.Success? ==>
      forall i :: 0 <= i < |p.locations| ==>
        && r.locations[i].id == p.locations[i].id
        && r.locations[i].hours == p.locations[i].hours
        && (p.locations[i].id != p.current.value.id ==> r.locations[i] == p.locations[i])
        && (p.locations[i].id == p.current.value.id ==>
              r.locations[i].name == p.editName && r.locations[i].address == p.editAddress)
  {
    match p.current
    case None => p
    case Some(cur) =>
      match outcome
      case Failure => p
      case Success => p.(locations := RenameWhere(p.locations, cur.id, p.editName, p.editAddress))
  }

  /** Replaces the hours of every location with the given id. */
  function RehourWhere(locations: seq<Location>, id: string, hours: seq<LocationHours>): seq<Location> {
    seq(|locations|, i requires 0 <= i < |locations| =>
      if locations[i].id == id then locations[i].(hours := hours) else locations[i])
  }

  /** `saveHoursChanges`: with no current location nothing happens, and a
      failed write changes nothing. On success only the hours of locations
      with the current id change, to the dialog's hours; every other field
      and every other location stays. */
  function SaveHoursChanges(p: Panel, outcome: WriteOutcome): (r: Panel)
    ensures p.current.None? || outcome.Failure? ==> r == p
    ensures r.current == p.current && r.editHours == p.editHours
    ensures r.editName == p.editName && r.editAddress == p.editAddress
    ensures |r.locations| == |p.locations|
    ensures p.current.Some? && outcome.Success? ==>
      forall i :: 0 <= i < |p.locations| ==>
        && r.locations[i].id == p.locations[i].id
        && r.locations[i].name == p.locations[i].name
        && r.locations[i].address == p.locations[i].address
        && (p.locations[i].id != p.current.value.id ==> r.locations[i] == p.locations[i])
        && (p.locations[i].id == p.current.value.id ==> r.locations[i].hours == p.editHours)
  {
    match p.current
    case None => p
    case Some(cur) =>
      match outcome
      case Failure => p
      case Success => p.(locations := RehourWhere(p.locations, cur.id, p.editHours))
  }

  /** A name/address save never changes what the Operating Days column
      shows, and after a successful save, reopening the edit dialog on a
      saved location shows the values that were typed. */
  lemma SaveLocationKeepsOperatingDays(p: Panel, outcome: WriteOutcome)
    ensures var r := SaveLocationChanges(p, outcome);
      forall i :: 0 <= i < |p.locations| ==> OperatingDays(r.locations[i].hours) == OperatingDays(p.locations[i].hours)
    ensures var r := SaveLocationChanges(p, outcome);
      p.current.Some? && outcome.Success? ==>
        forall i :: 0 <= i < |p.locations| && p.locations[i].id == p.current.value.id ==>
          && HandleEdit(r, r.locations[i]).editName == p.editName
          && HandleEdit(r, r.locations[i]).editAddress == p.editAddress
  {
  }

  /** The name/address save and the hours save touch disjoint fields, so
      their order does not matter. */
  lemma SavesCommute(p: Panel, nameOutcome: WriteOutcome, hoursOutcome: WriteOutcome)
    ensures SaveLocationChanges(SaveHoursChanges(p, hoursOutcome), nameOutcome)
         == SaveHoursChanges(SaveLocationChanges(p, nameOutcome), hoursOutcome)
  {
    var a := SaveLocationChanges(SaveHoursChanges(p, hoursOutcome), nameOutcome);
    var b := SaveHoursChanges(SaveLocationChanges(p, nameOutcome), hoursOutcome);
    assert |a.locations| == |b.locations|;
    forall i | 0 <= i < |a.locations|
      ensures a.locations[i] == b.locations[i]
    {
    }
  }

  /** Filter callback keeping the locations whose id differs from `id`. */
  function OtherThan(id: string): Location -> bool {
    (l: Location) => l.id != id
  }

  /** `deleteLocation`: with no current location nothing happens, and a
      failed delete changes nothing. On success exactly the locations with
      the current id are removed and the rest keep their order. */
  function DeleteLocation(p: Panel, outcome: WriteOutcome): (r: Panel)
    ensures p.current.None? || outcome.Failure? ==> r == p
    ensures r.current == p.current && r.editHours == p.editHours
    ensures r.editName == p.editName && r.editAddress == p.editAddress
    ensures p.current.Some? && outcome.Success? ==>
      && IsFilterOf(r.locations, p.locations, OtherThan(p.current.value.id))
      && forall i :: 0 <= i < |r.locations| ==> r.locations[i].id != p.current.value.id
  {
    match p.current
    case None => p
    case Some(cur) =>
      match outcome
      case Failure => p
      case Success =>
        FilterMeetsSpec(p.locations, OtherThan(cur.id));
        p.(locations := Filter(p.locations, OtherThan(cur.id)))
  }

  /** One keystroke in the hours dialog. */
  datatype HourEdit = HourEdit(index: int, field: HoursField, value: string)

  /** A sequence of keystrokes in the hours dialog, applied in order with
      the copying `HandleHourChange`: the list, the current location and the
      number of lines stay as they were. */
  function ApplyHourEdits(p: Panel, edits: seq<HourEdit>): (r: Panel)
    ensures r.locations == p.locations && r.current == p.current
    ensures r.editName == p.editName && r.editAddress == p.editAddress
    ensures |r.editHours| == |p.editHours|
    decreases |edits|
  {
    if |edits| == 0 then p
    else
      var e := edits[|edits| - 1];
      HandleHourChange(ApplyHourEdits(p, edits[..|edits| - 1]), e.index, e.field, e.value)
  }

  /** With copying edits, opening the hours dialog, typing anything and then
      cancelling, or saving with a failed write, leaves the list exactly as
      it was; a successful save changes only the hours of the edited
      location. */
  lemma {:induction false} HoursDialogOnlyWritesOnSuccess(p: Panel, loc: Location, edits: seq<HourEdit>, outcome: WriteOutcome)
    ensures ApplyHourEdits(HandleEditHours(p, loc), edits).locations == p.locations
    ensures outcome.Failure? ==> SaveHoursChanges(ApplyHourEdits(HandleEditHours(p, loc), edits), outcome).locations == p.locations
    ensures
      var r := SaveHoursChanges(ApplyHourEdits(HandleEditHours(p, loc), edits), outcome);
      forall i :: 0 <= i < |p.locations| && p.locations[i].id != loc.id ==> r.locations[i] == p.locations[i]
  {
    var q := ApplyHourEdits(HandleEditHours(p, loc), edits);
    assert q.locations == p.locations;
    assert q.current == Some(loc);
  }

  /** Concrete witness of the shared-line defect: after opening the hours
      dialog of a location whose only line is "Monday"/"Closed", typing new
      hours and then saving with a failed write, the as-written edit has
      already changed the listed location, so its operating days show
      "Monday"; the copying edit leaves the list as it was. */
  lemma HourEditLeaksIntoList()
    ensures
      var loc := Location("loc-1", "Main Clinic", "12 Park Street", [LocationHours("Monday", "Closed")]);
      var p0 := Panel([loc], None, "", "", []);
      var p1 := HandleEditHours(p0, loc);
      var asWritten := SaveHoursChanges(HandleHourChangeAsWritten(p1, 0, TimeField, "9:00 AM - 5:00 PM"), Failure);
      var copying := SaveHoursChanges(HandleHourChange(p1, 0, TimeField, "9:00 AM - 5:00 PM"), Failure);
      && asWritten.locations != p0.locations
      && asWritten.locations[0].hours[0].time == "9:00 AM - 5:00 PM"
      && OperatingDays(asWritten.locations[0].hours) == ["Monday"]
      && copying.locations == p0.locations
      && OperatingDays(copying.locations[0].hours) == []
  {
    var loc := Location("loc-1", "Main Clinic", "12 Park Street", [LocationHours("Monday", "Closed")]);
    var p0 := Panel([loc], None, "", "", []);
    var p1 := HandleEditHours(p0, loc);
    var w := HandleHourChangeAsWritten(p1, 0, TimeField, "9:00 AM - 5:00 PM");
    assert w.locations[0].hours[0] == LocationHours("Monday", "9:00 AM - 5:00 PM");
    assert w.locations[0].hours == [LocationHours("Monday", "9:00 AM - 5:00 PM")];
    assert Filter(w.locations[0].hours, IsOpen) == w.locations[0].hours;
    assert Filter(loc.hours, IsOpen) == [];
  }
}
