/** The add-location form: name and address validated by the location
    schema, seven editable opening-hours lines held beside the form, and a
    submit that adds one location document and resets the form. */
module AddLocation {
  import opened Common
  import opened Forms
  import opened Week
  import opened LocationData

  /** The form's values. `hours` is optional in the schema and the form has
      no input for it, so it is normally absent. */
  datatype LocationForm = LocationForm(name: string, address: string, hours: Option<seq<LocationHours>>)

  /** The form's default values (`defaultValues`), also what `reset` restores. */
  const DefaultForm := LocationForm("", "", None)

  /** The fields the location schema checks. */
  datatype Field = NameField | AddressField

  /** The message the schema gives for each failing field. */
  function MessageOf(f: Field): string {
    match f
    case NameField => "Name must be at least 2 characters."
    case AddressField => "Please enter a valid address"
  }

  /** `locationSchema`: the name needs at least 2 and the address at least 5
      characters, counted as JavaScript does and without trimming. Any
      `hours`, present or not, passes: each line only has to hold a string
      day and a string time. A rejected form reports one issue per failing
      field, with the schema's message. */
  function ValidateLocation(f: LocationForm): (v: Validation<LocationForm, Field>)
    ensures v.Valid? <==> MinLength(f.name, 2) && MinLength(f.address, 5)
    ensures v.Valid? ==> v.values == f
    ensures v.Invalid? ==> |v.issues| <= 2
    ensures v.Invalid? ==> forall i :: 0 <= i < |v.issues| ==> v.issues[i].message == MessageOf(v.issues[i].field)
    ensures v.Invalid? ==> (Reports(v.issues, NameField) <==> !MinLength(f.name, 2))
    ensures v.Invalid? ==> (Reports(v.issues, AddressField) <==> !MinLength(f.address, 5))
  {
    var a := CheckMin(NameField, f.name, 2, MessageOf(NameField));
    var b := CheckMin(AddressField, f.address, 5, MessageOf(AddressField));
    ReportsAppend(a, b, NameField);
    ReportsAppend(a, b, AddressField);
    if a + b == [] then Valid(f) else Invalid(a + b)
  }

  /** The optional `hours` never decides whether the form is accepted. */
  lemma HoursNeverDecideValidity(f: LocationForm, h: Option<seq<LocationHours>>)
    ensures ValidateLocation(f.(hours := h)).Valid? == ValidateLocation(f).Valid?
  {
  }

  /** The empty default form is rejected on both fields. */
  lemma DefaultFormIsRejected()
    ensures ValidateLocation(DefaultForm) == Invalid([Issue(NameField, MessageOf(NameField)), Issue(AddressField, MessageOf(AddressField))])
  {
  }

  /** The opening hours a fresh form starts with and returns to after a
      submit: seven lines, Monday to Sunday in order, each "Closed". */
  function DefaultHours(): (hours: seq<LocationHours>)
    ensures |hours| == 7
    ensures forall i :: 0 <= i < 7 ==> hours[i].time == "Closed"
    ensures [hours[0].day, hours[1].day, hours[2].day, hours[3].day, hours[4].day, hours[5].day, hours[6].day]
         == ["Monday", "Tuesday", "Wednesday", "Thursday", "Friday", "Saturday", "Sunday"]
  {
    seq(|DaysOfWeek|, i requires 0 <= i < |DaysOfWeek| => LocationHours(DayName(DaysOfWeek[i]), "Closed"))
  }

  /** A location added with the default hours shows no operating day. */
  lemma DefaultHoursHaveNoOperatingDays()
    ensures OperatingDays(DefaultHours()) == []
  {
    AllClosedHasNoOperatingDays(DefaultHours());
  }

  /** The panel's state: the form and the hours lines beside it. */
  datatype AddPanel = AddPanel(form: LocationForm, hours: seq<LocationHours>)

  /** The panel as first shown. */
  function InitialPanel(): (p: AddPanel)
    ensures p.form == DefaultForm && p.hours == DefaultHours()
  {
    AddPanel(DefaultForm, DefaultHours())
  }

  /** `handleHourChange`: sets the time of one line; every day label, the
      other lines and the form stay. An index without a line changes
      nothing (the source throws there before storing anything). */
  function HandleHourChange(p: AddPanel, index: int, value: string): (r: AddPanel)
    ensures r.form == p.form
    ensures |r.hours| == |p.hours|
    ensures forall j :: 0 <= j < |p.hours| ==> r.hours[j].day == p.hours[j].day
    ensures forall j :: 0 <= j < |p.hours| && j != index ==> r.hours[j] == p.hours[j]
    ensures 0 <= index < |p.hours| ==> r.hours[index].time == value
    ensures !(0 <= index < |p.hours|) ==> r == p
  {
    p.(hours := ChangeHour(p.hours, index, TimeField, value))
  }

  /** One edit of the time input of an hours line. */
  datatype TimeEdit = TimeEdit(index: int, value: string)

  /** A sequence of time edits, applied in order: the form, the number of
      lines and every line's day stay as they were. */
  function ApplyTimeEdits(p: AddPanel, edits: seq<TimeEdit>): (r: AddPanel)
    ensures r.form == p.form
    ensures |r.hours| == |p.hours|
    ensures forall j :: 0 <= j < |p.hours| ==> r.hours[j].day == p.hours[j].day
    decreases |edits|
  {
    if |edits| == 0 then p
    else
      var e := edits[|edits| - 1];
      HandleHourChange(ApplyTimeEdits(p, edits[..|edits| - 1]), e.index, e.value)
  }

  /** The document `addDoc` receives: name and address from the validated
      values, and the hours of the panel. */
  datatype LocationDocument = LocationDocument(name: string, address: string, hours: seq<LocationHours>)

  /** `{ ...values, hours }`: the panel's hours replace whatever `hours` the
      validated values held. */
  function LocationDataOf(values: LocationForm, hours: seq<LocationHours>): (d: LocationDocument)
    ensures d.name == values.name && d.address == values.address
    ensures d.hours == hours
  {
    LocationDocument(values.name, values.address, hours)
  }

  /** Result of a submit: the panel afterwards and the document added, if any. */
  datatype SubmitResult = SubmitResult(panel: AddPanel, added: Option<LocationDocument>)

  /** Submitting the form. A rejected form makes no write and changes
      nothing. An accepted form is written with the panel's hours; when the
      write succeeds that document is added and the form and hours return to
      their defaults, and when it fails nothing is added and the panel keeps
      what was typed. */
  function Submit(p: AddPanel, outcome: WriteOutcome): (r: SubmitResult)
    ensures ValidateLocation(p.form).Invalid? ==> r == SubmitResult(p, None)
    ensures outcome.Failure? ==> r == SubmitResult(p, None)
    ensures ValidateLocation(p.form).Valid? && outcome.Success? ==>
      && r.added == Some(LocationDocument(p.form.name, p.form.address, p.hours))
      && r.panel.form == DefaultForm
      && r.panel.hours == DefaultHours()
    ensures r.added.Some? ==> MinLength(r.added.value.name, 2) && MinLength(r.added.value.address, 5)
  {
    match ValidateLocation(p.form)
    case Invalid(_) => SubmitResult(p, None)
    case Valid(values) =>
      match outcome
      case Failure => SubmitResult(p, None)
      case Success => SubmitResult(AddPanel(DefaultForm, DefaultHours()), Some(LocationDataOf(values, p.hours)))
  }

  /** Whatever times are typed from the initial hours, the panel still
      holds seven lines labelled Monday to Sunday; a successful submit of an
      accepted form then adds exactly those hours and brings back the
      template. */
  lemma TimeEditsKeepTheWeek(form: LocationForm, edits: seq<TimeEdit>)
    ensures
      var q := ApplyTimeEdits(AddPanel(form, DefaultHours()), edits);
      && |q.hours| == 7
      && [q.hours[0].day, q.hours[1].day, q.hours[2].day, q.hours[3].day, q.hours[4].day, q.hours[5].day, q.hours[6].day]
         == ["Monday", "Tuesday", "Wednesday", "Thursday", "Friday", "Saturday", "Sunday"]
    ensures
      var q := ApplyTimeEdits(AddPanel(form, DefaultHours()), edits);
      ValidateLocation(form).Valid? ==>
        && Submit(q, Success).added == Some(LocationDocument(form.name, form.address, q.hours))
        && Submit(q, Success).panel == InitialPanel()
  {
    var q := ApplyTimeEdits(AddPanel(form, DefaultHours()), edits);
    var d := DefaultHours();
    assert q.hours[0].day == d[0].day && q.hours[1].day == d[1].day && q.hours[2].day == d[2].day;
    assert q.hours[3].day == d[3].day && q.hours[4].day == d[4].day;
    assert q.hours[5].day == d[5].day && q.hours[6].day == d[6].day;
  }
}
