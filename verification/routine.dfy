/** The weekly routine editor of the admin dashboard: a routine gives every
    weekday an availability flag and an ordered list of time slots; the
    editor toggles days, edits, appends and removes slots in memory, loads a
    location's routine (or a default one) and saves it back whole. */
module Routine {
  import opened Common
  import opened Week

  /** One bookable interval. Times are the editor's "HH:MM" strings; they are
      never compared, and the capacity is never checked to be positive. */
  datatype Slot = Slot(startTime: string, endTime: string, maxAppointments: int)

  /** One weekday: whether the doctor is available and its slots, in display
      order. Hiding the slots of an unavailable day does not clear them. */
  datatype DailyRoutine = DailyRoutine(isAvailable: bool, slots: seq<Slot>)

  /** A routine for every weekday; a record with one field per day, so no day
      can be missing. */
  datatype WeeklyRoutine = WeeklyRoutine(
    monday: DailyRoutine, tuesday: DailyRoutine, wednesday: DailyRoutine,
    thursday: DailyRoutine, friday: DailyRoutine, saturday: DailyRoutine,
    sunday: DailyRoutine)
  {
    /** `routine[day]`. */
    function Get(d: Day): DailyRoutine {
      match d
      case Monday => monday
      case Tuesday => tuesday
      case Wednesday => wednesday
      case Thursday => thursday
      case Friday => friday
      case Saturday => saturday
      case Sunday => sunday
    }

    /** `{ ...routine, [day]: r }`: replaces one day and keeps the others. */
    function Set(d: Day, r: DailyRoutine): (w: WeeklyRoutine)
      ensures w.Get(d) == r
      ensures forall e :: e != d ==> w.Get(e) == Get(e)
    {
      match d
      case Monday => this.(monday := r)
      case Tuesday => this.(tuesday := r)
      case Wednesday => this.(wednesday := r)
      case Thursday => this.(thursday := r)
      case Friday => this.(friday := r)
      case Saturday => this.(saturday := r)
      case Sunday => this.(sunday := r)
    }
  }

  /** Two routines that agree on every weekday are the same routine. */
  lemma RoutineExtensionality(a: WeeklyRoutine, b: WeeklyRoutine)
    requires forall d :: a.Get(d) == b.Get(d)
    ensures a == b
  {
    assert a.Get(Monday) == b.Get(Monday) && a.Get(Tuesday) == b.Get(Tuesday);
    assert a.Get(Wednesday) == b.Get(Wednesday) && a.Get(Thursday) == b.Get(Thursday);
    assert a.Get(Friday) == b.Get(Friday) && a.Get(Saturday) == b.Get(Saturday);
    assert a.Get(Sunday) == b.Get(Sunday);
  }

  /** The slot a new day or `addSlot` starts from (`emptySlot`). */
  const EmptySlot := Slot("09:00", "17:00", 10)

  /** `emptyWeeklyRoutine`: the template used when a location has no stored
      routine. Every day is unavailable and holds the one default slot,
      09:00 to 17:00 with room for 10 appointments. */
  function EmptyWeeklyRoutine(): (w: WeeklyRoutine)
    ensures forall d :: !w.Get(d).isAvailable
    ensures forall d :: w.Get(d).slots == [Slot("09:00", "17:00", 10)]
  {
    var day := DailyRoutine(false, [EmptySlot]);
    WeeklyRoutine(day, day, day, day, day, day, day)
  }

  /** `toggleDayAvailability`: flips the flag of one day; that day's slots
      and all other days stay as they were. */
  function ToggleDayAvailability(w: WeeklyRoutine, day: Day): (r: WeeklyRoutine)
    ensures r.Get(day).isAvailable == !w.Get(day).isAvailable
    ensures r.Get(day).slots == w.Get(day).slots
    ensures forall e :: e != day ==> r.Get(e) == w.Get(e)
  {
    var dr := w.Get(day);
    w.Set(day, dr.(isAvailable := !dr.isAvailable))
  }

  /** Toggling the same day twice restores the routine. */
  lemma ToggleTwiceIsIdentity(w: WeeklyRoutine, day: Day)
    ensures ToggleDayAvailability(ToggleDayAvailability(w, day), day) == w
  {
    var r := ToggleDayAvailability(ToggleDayAvailability(w, day), day);
    assert r.Get(day) == w.Get(day);
    RoutineExtensionality(r, w);
  }

  /** One `updateSlot(day, index, field, value)` assignment: the field and
      its new value together. */
  datatype SlotEdit = SetStartTime(time: string) | SetEndTime(time: string) | SetMaxAppointments(count: int)

  /** `after` is `before` with the edited field set to the edit's value and
      the two other fields left alone. */
  predicate EditedOnly(before: Slot, after: Slot, edit: SlotEdit) {
    match edit
    case SetStartTime(t) =>
      after.startTime == t && after.endTime == before.endTime && after.maxAppointments == before.maxAppointments
    case SetEndTime(t) =>
      after.endTime == t && after.startTime == before.startTime && after.maxAppointments == before.maxAppointments
    case SetMaxAppointments(n) =>
      after.maxAppointments == n && after.startTime == before.startTime && after.endTime == before.endTime
  }

  /** `{ ...slot, [field]: value }`. */
  function ApplyEdit(s: Slot, edit: SlotEdit): (r: Slot)
    ensures EditedOnly(s, r, edit)
  {
    match edit
    case SetStartTime(t) => s.(startTime := t)
    case SetEndTime(t) => s.(endTime := t)
    case SetMaxAppointments(n) => s.(maxAppointments := n)
  }

  /** `updateSlot`: changes one field of one slot of one day. The slot list
      keeps its length, every other slot and the day's flag; other days are
      untouched. No value is validated. */
  function UpdateSlot(w: WeeklyRoutine, day: Day, index: int, edit: SlotEdit): (r: WeeklyRoutine)
    requires 0 <= index < |w.Get(day).slots|
    ensures forall e :: e != day ==> r.Get(e) == w.Get(e)
    ensures r.Get(day).isAvailable == w.Get(day).isAvailable
    ensures |r.Get(day).slots| == |w.Get(day).slots|
    ensures forall j :: 0 <= j < |w.Get(day).slots| && j != index ==> r.Get(day).slots[j] == w.Get(day).slots[j]
    ensures EditedOnly(w.Get(day).slots[index], r.Get(day).slots[index], edit)
  {
    var dr := w.Get(day);
    w.Set(day, dr.(slots := dr.slots[index := ApplyEdit(dr.slots[index], edit)]))
  }

  /** `addSlot`: appends a copy of the default slot to one day; the old
      slots stay as an unchanged prefix and other days are untouched. */
  function AddSlot(w: WeeklyRoutine, day: Day): (r: WeeklyRoutine)
    ensures |r.Get(day).slots| == |w.Get(day).slots| + 1
    ensures r.Get(day).slots[..|w.Get(day).slots|] == w.Get(day).slots
    ensures r.Get(day).slots[|w.Get(day).slots|] == Slot("09:00", "17:00", 10)
    ensures r.Get(day).isAvailable == w.Get(day).isAvailable
    ensures forall e :: e != day ==> r.Get(e) == w.Get(e)
  {
    var dr := w.Get(day);
    w.Set(day, dr.(slots := dr.slots + [EmptySlot]))
  }

  /** `slots.filter((_, i) => i !== index)`: drops the element at `index`;
      an index outside the list matches no element. */
  function WithoutIndex(s: seq<Slot>, index: int): seq<Slot> {
    if 0 <= index < |s| then s[..index] + s[index + 1..] else s
  }

  /** `removeSlot`: refused (no change) while the day has at most one slot;
      otherwise removes exactly the slot at a valid `index`, keeping the
      order of the rest. An index outside the list changes nothing. A day
      with slots therefore never loses its last one. */
  function RemoveSlot(w: WeeklyRoutine, day: Day, index: int): (r: WeeklyRoutine)
    ensures |w.Get(day).slots| <= 1 ==> r == w
    ensures !(0 <= index < |w.Get(day).slots|) ==> r == w
    ensures |w.Get(day).slots| > 1 && 0 <= index < |w.Get(day).slots| ==>
      && |r.Get(day).slots| == |w.Get(day).slots| - 1
      && r.Get(day).slots[..index] == w.Get(day).slots[..index]
      && r.Get(day).slots[index..] == w.Get(day).slots[index + 1..]
    ensures |w.Get(day).slots| >= 1 ==> |r.Get(day).slots| >= 1
    ensures r.Get(day).isAvailable == w.Get(day).isAvailable
    ensures forall e :: e != day ==> r.Get(e) == w.Get(e)
  {
    var dr := w.Get(day);
    if |dr.slots| <= 1 then w
    else if !(0 <= index < |dr.slots|) then w
    else
      var r := w.Set(day, dr.(slots := WithoutIndex(dr.slots, index)));
      assert r.Get(day).slots[index..] == dr.slots[index + 1..];
      r
  }

  /** Appending a slot and then removing the last one restores the routine. */
  lemma AddThenRemoveLastRestores(w: WeeklyRoutine, day: Day)
    requires |w.Get(day).slots| >= 1
    ensures RemoveSlot(AddSlot(w, day), day, |w.Get(day).slots|) == w
  {
    var n := |w.Get(day).slots|;
    var r := RemoveSlot(AddSlot(w, day), day, n);
    assert r.Get(day).slots == r.Get(day).slots[..n];
    RoutineExtensionality(r, w);
  }

  /** Every day holds at least one slot. */
  predicate SlotsEveryDay(w: WeeklyRoutine) {
    forall d :: |w.Get(d).slots| >= 1
  }

  /** The default routine has slots on every day, and each editing operation
      keeps it that way. */
  lemma EditingKeepsSlotsEveryDay(w: WeeklyRoutine, day: Day, index: int, edit: SlotEdit)
    requires SlotsEveryDay(w)
    ensures SlotsEveryDay(EmptyWeeklyRoutine())
    ensures SlotsEveryDay(ToggleDayAvailability(w, day))
    ensures SlotsEveryDay(AddSlot(w, day))
    ensures SlotsEveryDay(RemoveSlot(w, day, index))
    ensures 0 <= index < |w.Get(day).slots| ==> SlotsEveryDay(UpdateSlot(w, day, index, edit))
  {
  }

  /** The editor: the selected location id ("" when none) and the routine
      held in memory. */
  datatype Editor = Editor(selected: string, routine: WeeklyRoutine)

  /** The stored routine documents, one per location id. */
  type Store = map<string, WeeklyRoutine>

  /** What reading a location's routine document returns when the read
      itself goes through. */
  function Read(store: Store, location: string): (f: FetchOutcome<WeeklyRoutine>)
    ensures f.Found? <==> location in store
    ensures f.Found? ==> f.value == store[location]
    ensures !f.FetchFailed?
  {
    if location in store then Found(store[location]) else Missing
  }

  /** Selecting a location and the load that follows it. The load runs only
      when the selection changes, so choosing the location already selected
      reads nothing and keeps the routine in memory, unsaved edits included.
      Choosing no location reads nothing either. Otherwise the stored
      routine replaces the one in memory, the default template replaces it
      when no document exists, and a failed read leaves the routine in
      memory unchanged. Unsaved edits are discarded whenever a document or
      the template is loaded. */
  function SelectLocation(e: Editor, location: string, fetched: FetchOutcome<WeeklyRoutine>): (r: Editor)
    ensures r.selected == location
    ensures location == e.selected ==> r == e
    ensures location == "" ==> r.routine == e.routine
    ensures location != e.selected && location != "" && fetched.Found? ==> r.routine == fetched.value
    ensures location != e.selected && location != "" && fetched.Missing? ==> r.routine == EmptyWeeklyRoutine()
    ensures fetched.FetchFailed? ==> r.routine == e.routine
  {
    if location == e.selected || location == "" then e.(selected := location)
    else
      match fetched
      case Found(stored) => Editor(location, stored)
      case Missing => Editor(location, EmptyWeeklyRoutine())
      case FetchFailed => e.(selected := location)
  }

  /** `saveRoutine`: with no location selected nothing is written; otherwise
      the whole routine overwrites the selected location's document when the
      write succeeds, other documents are untouched, and a failed write
      changes nothing. The editor keeps its routine either way. */
  function SaveRoutine(e: Editor, store: Store, outcome: WriteOutcome): (r: Store)
    ensures e.selected == "" ==> r == store
    ensures outcome.Failure? ==> r == store
    ensures e.selected != "" && outcome.Success? ==> e.selected in r && r[e.selected] == e.routine
    ensures forall k :: k != e.selected ==> (k in r <==> k in store)
    ensures forall k :: k != e.selected && k in store ==> r[k] == store[k]
  {
    if e.selected == "" then store
    else
      match outcome
      case Success => store[e.selected := e.routine]
      case Failure => store
  }

  /** Saving the same routine twice stores the same documents as saving it
      once. */
  lemma SaveIsIdempotent(e: Editor, store: Store)
    ensures SaveRoutine(e, SaveRoutine(e, store, Success), Success) == SaveRoutine(e, store, Success)
  {
  }

  /** After a successful save, coming back to the location from another
      one (with a read that goes through) loads exactly the routine that was
      saved. */
  lemma SaveThenReloadRoundTrip(e: Editor, store: Store, other: Editor)
    requires e.selected != "" && other.selected != e.selected
    ensures SelectLocation(other, e.selected, Read(SaveRoutine(e, store, Success), e.selected)).routine == e.routine
  {
  }

  /** Switching to a location without a routine document loads the default
      template, whatever was being edited before. */
  lemma MissingDocumentLoadsTemplate(e: Editor, store: Store, location: string)
    requires location != "" && location != e.selected && location !in store
    ensures SelectLocation(e, location, Read(store, location)).routine == EmptyWeeklyRoutine()
    ensures forall d :: !SelectLocation(e, location, Read(store, location)).routine.Get(d).isAvailable
  {
  }

  /** Toggling Monday on, adding a slot and setting it to 13:00 to 15:00 for
      5 appointments, saving and reloading gives an available Monday with
      the default slot followed by the new one. */
  lemma MondayEditScenario(store: Store)
    requires "main-clinic" !in store
    ensures
      var e0 := SelectLocation(Editor("", EmptyWeeklyRoutine()), "main-clinic", Read(store, "main-clinic"));
      var w1 := ToggleDayAvailability(e0.routine, Monday);
      var w2 := AddSlot(w1, Monday);
      var w3 := UpdateSlot(w2, Monday, 1, SetStartTime("13:00"));
      var w4 := UpdateSlot(w3, Monday, 1, SetEndTime("15:00"));
      var w5 := UpdateSlot(w4, Monday, 1, SetMaxAppointments(5));
      var e1 := e0.(routine := w5);
      var saved := SaveRoutine(e1, store, Success);
      var reloaded := SelectLocation(Editor("", EmptyWeeklyRoutine()), "main-clinic", Read(saved, "main-clinic"));
      && reloaded.routine.Get(Monday).isAvailable
      && reloaded.routine.Get(Monday).slots == [Slot("09:00", "17:00", 10), Slot("13:00", "15:00", 5)]
  {
    var e0 := SelectLocation(Editor("", EmptyWeeklyRoutine()), "main-clinic", Read(store, "main-clinic"));
    var w2 := AddSlot(ToggleDayAvailability(e0.routine, Monday), Monday);
    assert |w2.Get(Monday).slots| == 2;
    var w5 := UpdateSlot(UpdateSlot(UpdateSlot(w2, Monday, 1, SetStartTime("13:00")), Monday, 1, SetEndTime("15:00")), Monday, 1, SetMaxAppointments(5));
    assert w5.Get(Monday).slots[0] == Slot("09:00", "17:00", 10);
    assert w5.Get(Monday).slots[1] == Slot("13:00", "15:00", 5);
    assert w5.Get(Monday).slots == [Slot("09:00", "17:00", 10), Slot("13:00", "15:00", 5)];
  }
}
