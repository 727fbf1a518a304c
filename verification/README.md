# Clinic admin dashboard: local state updates, in Dafny

This project models the state updates that sit inside the admin dashboard of
a clinic website, and proves properties of them. These updates are otherwise
hidden between React hooks and document-database calls. Each one is
written as a pure function on immutable data:

- **Weekly routine editor** (`Routine`). A routine is a record with one
  `DailyRoutine` per weekday, so no day can be missing. A `DailyRoutine` is an
  availability flag plus an ordered list of slots (start, end, capacity). The
  editor has four operations: toggle a day, update one field of one slot,
  append the default slot, and remove a slot. Removal is refused while the day
  has at most one slot. Loading gives the stored routine, or the default
  template when no document exists. Saving overwrites the selected location's
  document.
- **Contact messages** (`Messages`). Search is a case-insensitive substring
  filter over name, e-mail and message text. A term that trims to nothing
  shows every message. Delete removes a message by id from the full list and
  from the displayed list, and closes the detail view if it showed that
  message.
- **Chamber locations** (`Chambers`, `LocationData`). Name/address edits
  and deletes update the list only after the remote write succeeds. Hours
  edits are meant to do the same, and with the copying
  `Chambers.HandleHourChange` they do. The code as written shares the
  dialog's hours lines with the list, so a typed change shows in the list
  before any save; see "## Findings". The dialog edits one hours line at a
  time. The "Operating Days"
  column shows the day of every line whose time is not `"Closed"`.
- **Add-location form** (`AddLocation`). This covers the location schema, the
  seven-line `"Closed"` hours template, the per-line time edit, and the
  document assembled on submit.
- **Doctor profile form** (`DoctorInfo`). This covers the per-field minimum
  lengths, the empty defaults, and loading and saving the single profile
  document.

Shared pieces:
- `Common`: `Option`, `WriteOutcome` (`Success | Failure`) and `FetchOutcome`
  (`Found | Missing | FetchFailed`).
- `Text`: the ECMAScript meaning of `trim`, `includes` and `length`.
- `Seqs`: an order-preserving `Filter`, an independent specification of it
  (`IsFilterOf`: a subsequence with the right multiplicities), and a proof
  that this specification has exactly one solution.
- `Forms`: zod's `min` rule and the issue lists it produces.
- `Week`: the seven weekdays.

Every remote call (`getDoc`, `setDoc`, `updateDoc`, `deleteDoc`, `addDoc`) is
a parameter holding its outcome. The list updates that follow a remote
call happen only on `Success`.
`toLowerCase` is a parameter `lower: string -> string`, so the search
properties hold for any case mapping. zod's `min(n)` compares JavaScript's
`length`, which counts UTF-16 code units. The model counts the same way
(`JsLength`: a character outside the Basic Multilingual Plane counts 2).
`Forms.MinLengthOfBmp` shows this is the plain character count for
everything else.

The model follows the code and adds no validation it lacks:
- Slot times are never compared, and capacity is never required to be
  positive. The model adds no such validation.
- A stored routine is taken as it is.
- Selecting another location discards unsaved edits without asking.
  Choosing the location already selected reads nothing and keeps them.

## Model

| member | source | states |
|---|---|---|
| Week.DaysOfWeekIsComplete | src/components/admin/RoutineManagementPanel.tsx:47-55 | the weekday list names all seven days, each once |
| Routine.EmptyWeeklyRoutine | src/components/admin/RoutineManagementPanel.tsx:57-76 | the default routine has every day unavailable, each with exactly one slot 09:00–17:00 for 10 appointments |
| Routine.ToggleDayAvailability | src/components/admin/RoutineManagementPanel.tsx:143-151 | only the chosen day's flag flips; its slots and every other day are unchanged |
| Routine.ToggleTwiceIsIdentity | src/components/admin/RoutineManagementPanel.tsx:143-151 | toggling the same day twice gives back the original routine |
| Routine.ApplyEdit | src/components/admin/RoutineManagementPanel.tsx:156-159 | the spread-and-assign sets the named field to the value and leaves the other two fields |
| Routine.UpdateSlot | src/components/admin/RoutineManagementPanel.tsx:153-169 | for an index in range, only the named field of that slot on that day changes; length, the other slots, the flag and the other days stay |
| Routine.AddSlot | src/components/admin/RoutineManagementPanel.tsx:171-179 | the day gains one slot; the old slots are an unchanged prefix, the new last slot is the default one, and other days are untouched |
| Routine.RemoveSlot | src/components/admin/RoutineManagementPanel.tsx:181-195 | at most one slot: no change; otherwise exactly the slot at a valid index goes and the rest keep their order; an index out of range changes nothing; a day with slots keeps at least one |
| Routine.AddThenRemoveLastRestores | src/components/admin/RoutineManagementPanel.tsx:171-195 | appending a slot and then removing the last index restores the routine when the day had a slot |
| Routine.EditingKeepsSlotsEveryDay | src/components/admin/RoutineManagementPanel.tsx:182 | the default template has a slot on every day and each of the four edits keeps that true |
| Routine.Read | src/components/admin/RoutineManagementPanel.tsx:119-122 | a read that goes through finds the stored document for that location, or reports it missing |
| Routine.SelectLocation | src/components/admin/RoutineManagementPanel.tsx:113-137 | the load runs only when the selection changes: choosing the selected location again, or no location, keeps the routine in memory with its unsaved edits; otherwise a found document replaces the routine, a missing one gives the template, and a failed read keeps the routine in memory |
| Routine.MissingDocumentLoadsTemplate | src/components/admin/RoutineManagementPanel.tsx:124-127 | switching to a location without a document loads the all-unavailable template, whatever was being edited |
| Routine.SaveRoutine | src/components/admin/RoutineManagementPanel.tsx:197-210 | no location or a failed write leaves the stored documents as they were; a successful save overwrites exactly the selected location's document with the whole routine |
| Routine.SaveIsIdempotent | src/components/admin/RoutineManagementPanel.tsx:202 | saving the same routine twice stores the same documents as saving it once |
| Routine.SaveThenReloadRoundTrip | src/components/admin/RoutineManagementPanel.tsx:119-123 | after a successful save, coming back to the location from another one loads exactly the saved routine |
| Routine.MondayEditScenario | src/components/admin/RoutineManagementPanel.tsx:143-210 | toggling Monday on, adding a 13:00–15:00 slot for 5 and saving then reloading gives an available Monday with the two slots in insertion order |
| Text.Trim | src/components/admin/MessagesPanel.tsx:85 | `trim()` gives the empty string exactly when every character is ECMAScript white space |
| Text.IncludesIffOccurs | src/components/admin/MessagesPanel.tsx:89-91 | `includes` holds exactly when the needle occurs at some position of the text |
| Seqs.FilterMeetsSpec | src/components/admin/MessagesPanel.tsx:88-92 | `filter` keeps the order and keeps each element that satisfies the callback as often as the input has it, and nothing else |
| Seqs.FilterUnique | src/components/admin/MessagesPanel.tsx:88-92 | any list meeting that specification is the filter's result |
| Seqs.FilterCommutes | src/components/admin/MessagesPanel.tsx:113-114 | two filters applied one after the other give the same list in either order |
| Messages.Search | src/components/admin/MessagesPanel.tsx:84-95 | a term that trims to nothing shows the full list; otherwise exactly the messages whose lower-cased name, e-mail or text includes the lower-cased untrimmed term, as an order-preserving subsequence |
| Messages.ApplySearch | src/components/admin/MessagesPanel.tsx:84-95 | the search effect changes only the displayed list, never the full list |
| Messages.NoMatchShowsNothing | src/components/admin/MessagesPanel.tsx:88-93 | a non-blank term that no message matches shows an empty list |
| Messages.ViewMessage | src/components/admin/MessagesPanel.tsx:97-99 | opening a message sets the detail view to it and leaves both lists, the search term and the pending delete alone |
| Messages.DeletePrompt | src/components/admin/MessagesPanel.tsx:101-104 | the delete prompt records the message and leaves both lists, the search term and the detail view alone |
| Messages.DeleteFromView | src/components/admin/MessagesPanel.tsx:263-269 | the detail view's Delete button makes the viewed message the pending delete and closes the view; with no message viewed nothing changes; the lists stay |
| Messages.DeleteMessage | src/components/admin/MessagesPanel.tsx:106-127 | with nothing pending or a failed delete nothing changes; on success no message with the id remains in either list, the others keep their order and count, and the view closes exactly when it showed that id |
| Messages.DeleteAgreesWithSearch | src/components/admin/MessagesPanel.tsx:113-114 | when the displayed list was the search result, the hand-updated displayed list after a delete equals the search result of the shortened full list |
| Messages.DeleteViewedMessageScenario | src/components/admin/MessagesPanel.tsx:119-122 | when the pending delete is the message still open in the detail view, a successful delete removes it from both lists and closes the view |
| Messages.DeleteFromViewScenario | src/components/admin/MessagesPanel.tsx:97-127 | opening a message, pressing Delete in its view and confirming removes every message with its id from both lists, keeps the others in order, and leaves the view closed |
| LocationData.ChangeHour | src/components/admin/ChamberLocationsPanel.tsx:156-160 | one field of the line at the index takes the value; the other field, the other lines and the length stay; an index without a line changes nothing |
| LocationData.OperatingDays | src/components/admin/ChamberLocationsPanel.tsx:227-230 | the column lists, in order, the day of every line whose time is not exactly "Closed" |
| LocationData.OperatingDaysMembership | src/components/admin/ChamberLocationsPanel.tsx:227-230 | a day is listed exactly when some line with that day is not "Closed" |
| LocationData.AllClosedHasNoOperatingDays | src/components/admin/ChamberLocationsPanel.tsx:227-228 | hours that are all "Closed" list no operating day |
| Chambers.HandleEdit | src/components/admin/ChamberLocationsPanel.tsx:84-89 | opening the edit dialog copies the location's name and address into the dialog and leaves the list alone |
| Chambers.HandleEditHours | src/components/admin/ChamberLocationsPanel.tsx:92-96 | opening the hours dialog puts the location's hours in the dialog and leaves the list alone |
| Chambers.HandleDeletePrompt | src/components/admin/ChamberLocationsPanel.tsx:99-102 | opening the delete prompt only records the location |
| Chambers.HandleHourChange | src/components/admin/ChamberLocationsPanel.tsx:156-160 | corrected edit: only the named field of line `index` of the dialog changes, and the list is untouched |
| Chambers.HandleHourChangeAsWritten | src/components/admin/ChamberLocationsPanel.tsx:156-160 | the edit as written: the dialog changes as above, and every listed location with the current id gets the same line at that index while its id, name, address and other lines stay; other locations, the current location and the name/address dialog are untouched |
| Chambers.SaveLocationChanges | src/components/admin/ChamberLocationsPanel.tsx:105-128 | no current location or a failed write: no change; success: length and order kept, and only the matching locations' name and address change, to the edited values |
| Chambers.SaveHoursChanges | src/components/admin/ChamberLocationsPanel.tsx:131-153 | no current location or a failed write: no change; success: only the matching locations' hours change, to the dialog's hours |
| Chambers.SaveLocationKeepsOperatingDays | src/components/admin/ChamberLocationsPanel.tsx:116-120 | a name/address save never changes any location's Operating Days, and after a successful save reopening the edit dialog on the saved location shows the typed name and address |
| Chambers.SavesCommute | src/components/admin/ChamberLocationsPanel.tsx:105-153 | the name/address save and the hours save give the same panel in either order, whatever their outcomes |
| Chambers.DeleteLocation | src/components/admin/ChamberLocationsPanel.tsx:163-178 | no current location or a failed delete: no change; success: exactly the locations with that id are removed and the rest keep their order |
| Chambers.ApplyHourEdits | src/components/admin/ChamberLocationsPanel.tsx:156-160 | any sequence of corrected edits leaves the list, the current location and the number of lines as they were |
| Chambers.HoursDialogOnlyWritesOnSuccess | src/components/admin/ChamberLocationsPanel.tsx:131-160 | with corrected edits, cancelling or a failed save leaves the list as before the dialog opened, and a successful save touches only the edited location |
| Chambers.HourEditLeaksIntoList | src/components/admin/ChamberLocationsPanel.tsx:156-160 | for one concrete location, the edit as written has changed the listed hours after a failed save, and the corrected edit has not |
| AddLocation.ValidateLocation | src/components/admin/AddLocationPanel.tsx:33-42 | the form is accepted iff the name has at least 2 and the address at least 5 characters (untrimmed); each failing field is reported with its message |
| AddLocation.HoursNeverDecideValidity | src/components/admin/AddLocationPanel.tsx:36-41 | the optional hours, present or absent, never change whether the form is accepted |
| AddLocation.DefaultFormIsRejected | src/components/admin/AddLocationPanel.tsx:55-61 | the empty default form is rejected on name and on address |
| AddLocation.DefaultHours | src/components/admin/AddLocationPanel.tsx:48-53 | the hours template is seven lines, Monday to Sunday in order, each "Closed" |
| AddLocation.DefaultHoursHaveNoOperatingDays | src/components/admin/AddLocationPanel.tsx:48-53 | a location saved with the template lists no operating day |
| AddLocation.InitialPanel | src/components/admin/AddLocationPanel.tsx:47-61 | the panel starts from the empty form and the template hours |
| AddLocation.HandleHourChange | src/components/admin/AddLocationPanel.tsx:88-92 | only the time of the line at the index changes; day labels, other lines and the form stay |
| AddLocation.ApplyTimeEdits | src/components/admin/AddLocationPanel.tsx:88-92 | any sequence of time edits keeps the form, the number of lines and every line's day |
| AddLocation.LocationDataOf | src/components/admin/AddLocationPanel.tsx:66-69 | the added document takes name and address from the values and its hours from the panel, whatever hours the values held |
| AddLocation.Submit | src/components/admin/AddLocationPanel.tsx:63-86 | a rejected form or a failed write adds nothing and keeps the panel; success adds the document and resets form and hours to their defaults |
| AddLocation.TimeEditsKeepTheWeek | src/components/admin/AddLocationPanel.tsx:48-92 | after any time edits from the template there are still seven lines labelled Monday to Sunday, and a successful submit of an accepted form adds exactly those hours and returns the panel to its initial state |
| Forms.CheckMin | src/components/admin/DoctorInfoPanel.tsx:25-30 | a `min(n)` rule reports no issue iff the value's length is at least n, otherwise exactly one issue for its field with its message |
| Forms.MinLengthCountsCodeUnits | src/components/admin/DoctorInfoPanel.tsx:25 | white space is not trimmed before counting, and a character outside the Basic Multilingual Plane counts as two |
| Forms.MinLengthOfBmp | src/components/admin/AddLocationPanel.tsx:34-35 | for text without characters outside the Basic Multilingual Plane, the rule is a plain character count |
| DoctorInfo.IssuesFor | src/components/admin/DoctorInfoPanel.tsx:24-31 | the issue list reports exactly the given fields whose rule fails, each with its schema message |
| DoctorInfo.Validate | src/components/admin/DoctorInfoPanel.tsx:24-32 | the profile is accepted iff name, title, qualifications and specialization have ≥ 2, experience ≥ 1 and bio ≥ 10 characters; otherwise every failing field and no other is reported |
| DoctorInfo.QuoteIsNeverRejected | src/components/admin/DoctorInfoPanel.tsx:31 | the quote, absent or any string including the empty one, never changes the verdict |
| DoctorInfo.DefaultValuesAreRejected | src/components/admin/DoctorInfoPanel.tsx:42-50 | the all-empty defaults are rejected, on every checked field |
| DoctorInfo.ShortestAcceptedProfile | src/components/admin/DoctorInfoPanel.tsx:25-31 | a profile at exactly the minimum lengths with an empty quote is accepted |
| DoctorInfo.NineCharacterBioIsRejected | src/components/admin/DoctorInfoPanel.tsx:30 | a bio one character short of ten is rejected |
| DoctorInfo.OnFetched | src/components/admin/DoctorInfoPanel.tsx:54-73 | an existing profile document replaces the form values; a missing document or a failed read leaves the form as it was (the defaults on first load) |
| DoctorInfo.Submit | src/components/admin/DoctorInfoPanel.tsx:75-86 | a rejected form or a failed write leaves the stored profile; otherwise the stored profile becomes the form values |
| DoctorInfo.SaveThenLoadRoundTrip | src/components/admin/DoctorInfoPanel.tsx:57-78 | a profile that was saved is what the next load puts in the form |

## Left out

- Remote database calls, listing queries (`getDocs`, `orderBy("timestamp", "desc")`) and document ids: these belong to the database SDK. Each write is a `Success`/`Failure` parameter and each read a `FetchOutcome`.
- Fetching the location list in the routine editor, and selecting the first location from it (RoutineManagementPanel.tsx:87-110): this is list loading with no rule of its own beyond "first id".
- Stale responses when the location changes during a read, batched React updates, and last-write-wins between admin sessions: these are concurrency. Each operation is modelled as one step on the current state. The `removeSlot` guard reads the render-time routine and the update reads the latest one; in a sequential model these are the same.
- Dialog open/close flags, loading/saving spinners, toasts, animation and all rendering.
- Joining the operating days with ", " for display: this is string formatting only.
- Message timestamps and their relative-date formatting (`date-fns`).
- `toLowerCase` is an abstract parameter. Unicode case mapping is not modelled.
- `parseInt` on the capacity input, which can yield `NaN`: capacity is an unbounded integer.
- Routine.UpdateSlot: requires an index within the day's slots. An index past the end makes the source create a partial slot object, which the typed model cannot represent. The editor only calls it with the index of a rendered slot.
- A stored routine document that lacks a weekday: the record type always holds seven days, so a malformed document cannot be expressed.
- Authentication, the dashboard's route guard, the public site sections, and the appointment and contact forms. The two forms only log and reset.

## Findings

| source | as written | input that shows it | evidently intended | confidence | as-written member | corrected member |
|---|---|---|---|---|---|---|
| src/components/admin/ChamberLocationsPanel.tsx:156-160 | `handleHourChange` copies only the array (`[...editHours]`) and then assigns `updatedHours[index][field] = value`. `handleEditHours` copied the array the same way (line 94). So the edited line object is the one the listed location's `hours` holds, and the list changes before any save. | Open the hours dialog of a location whose only line is Monday/"Closed". Type "9:00 AM - 5:00 PM" into the time. Then cancel, or save with a failed write. The list now shows the new time, and "Monday" as an operating day (`Chambers.HourEditLeaksIntoList`). | Edits stay in the dialog until a successful save, as with the name/address dialog. Copy the line before changing it. | medium; not executed | Chambers.HandleHourChangeAsWritten | Chambers.HandleHourChange |
