/** The doctor-profile form: a single stored profile document, loaded into
    the form when it exists, validated field by field and written back
    whole. */
module DoctorInfo {
  import opened Common
  import opened Forms

  /** The profile's fields; `quote` is optional. */
  datatype Profile = Profile(
    name: string,
    title: string,
    qualifications: string,
    experience: string,
    specialization: string,
    bio: string,
    quote: Option<string>)

  /** The form's default values: every field empty. */
  const DefaultValues := Profile("", "", "", "", "", "", Some(""))

  /** Accepted iff the field meets its minimum length. */
  predicate NameOk(p: Profile) { MinLength(p.name, 2) }
  predicate TitleOk(p: Profile) { MinLength(p.title, 2) }
  predicate QualificationsOk(p: Profile) { MinLength(p.qualifications, 2) }
  predicate ExperienceOk(p: Profile) { MinLength(p.experience, 1) }
  predicate SpecializationOk(p: Profile) { MinLength(p.specialization, 2) }
  predicate BioOk(p: Profile) { MinLength(p.bio, 10) }

  /** The profile fields the schema checks. */
  datatype Field = NameField | TitleField | QualificationsField | ExperienceField | SpecializationField | BioField

  /** The message the schema gives for each failing field. */
  function MessageOf(f: Field): string {
    match f
    case NameField => "Name must be at least 2 characters."
    case TitleField => "Title is required"
    case QualificationsField => "Qualifications are required"
    case ExperienceField => "Experience is required"
    case SpecializationField => "Specialization is required"
    case BioField => "Bio must be at least 10 characters"
  }

  /** The checked fields in the schema's order. */
  const SchemaFields := [NameField, TitleField, QualificationsField, ExperienceField, SpecializationField, BioField]

  /** The rule for one field holds of the profile. */
  predicate FieldOk(p: Profile, f: Field) {
    match f
    case NameField => NameOk(p)
    case TitleField => TitleOk(p)
    case QualificationsField => QualificationsOk(p)
    case ExperienceField => ExperienceOk(p)
    case SpecializationField => SpecializationOk(p)
    case BioField => BioOk(p)
  }

  /** The issues reported for the given fields, in their order: one for each
      field whose rule fails, none for the others. */
  function IssuesFor(p: Profile, fields: seq<Field>): (issues: seq<Issue<Field>>)
    ensures |issues| <= |fields|
    ensures forall i :: 0 <= i < |issues| ==> issues[i].message == MessageOf(issues[i].field)
    ensures forall g :: Reports(issues, g) <==> g in fields && !FieldOk(p, g)
  {
    if |fields| == 0 then []
    else
      var rest := IssuesFor(p, fields[1..]);
      var f := fields[0];
      if FieldOk(p, f) then
        assert fields == [f] + fields[1..];
        rest
      else
        ReportsCons(Issue(f, MessageOf(f)), rest);
        assert fields == [f] + fields[1..];
        [Issue(f, MessageOf(f))] + rest
  }

  /** Prepending an issue adds exactly its field to the reported ones. */
  lemma ReportsCons(issue: Issue<Field>, rest: seq<Issue<Field>>)
    ensures forall g :: Reports([issue] + rest, g) <==> Reports(rest, g) || g == issue.field
  {
    forall g ensures Reports([issue] + rest, g) <==> Reports(rest, g) || g == issue.field {
      ReportsAppend([issue], rest, g);
      if g == issue.field {
        assert [issue][0].field == g;
      }
    }
  }

  /** The schema checks every field of the `Field` type. */
  lemma SchemaFieldsComplete()
    ensures forall g: Field :: g in SchemaFields
  {
    forall g: Field ensures g in SchemaFields {
      match g
      case NameField => assert SchemaFields[0] == g;
      case TitleField => assert SchemaFields[1] == g;
      case QualificationsField => assert SchemaFields[2] == g;
      case ExperienceField => assert SchemaFields[3] == g;
      case SpecializationField => assert SchemaFields[4] == g;
      case BioField => assert SchemaFields[5] == g;
    }
  }

  /** `doctorInfoSchema`: name, title, qualifications and specialization need
      at least 2 characters, experience at least 1 and the bio at least 10;
      the quote may be absent or any string, the empty one included. The
      profile is accepted exactly when every rule holds; otherwise every
      failing field, and no other, is reported with the schema's message. */
  function Validate(p: Profile): (v: Validation<Profile, Field>)
    ensures v.Valid? <==> NameOk(p) && TitleOk(p) && QualificationsOk(p) && ExperienceOk(p) && SpecializationOk(p) && BioOk(p)
    ensures v.Valid? ==> v.values == p
    ensures v.Invalid? ==> |v.issues| <= 6
    ensures v.Invalid? ==> forall i :: 0 <= i < |v.issues| ==> v.issues[i].message == MessageOf(v.issues[i].field)
    ensures v.Invalid? ==> forall g :: Reports(v.issues, g) <==> !FieldOk(p, g)
  {
    var issues := IssuesFor(p, SchemaFields);
    SchemaFieldsComplete();
    if issues == [] then
      assert !Reports(issues, NameField) && !Reports(issues, TitleField) && !Reports(issues, QualificationsField);
      assert !Reports(issues, ExperienceField) && !Reports(issues, SpecializationField) && !Reports(issues, BioField);
      Valid(p)
    else
      assert Reports(issues, issues[0].field);
      Invalid(issues)
  }

  /** The quote never decides whether a profile is accepted. */
  lemma QuoteIsNeverRejected(p: Profile, q: Option<string>)
    ensures Validate(p.(quote := q)).Valid? == Validate(p).Valid?
  {
  }

  /** The all-empty default values fail on every checked field; only the
      quote passes. */
  lemma DefaultValuesAreRejected()
    ensures Validate(DefaultValues).Invalid?
    ensures forall g :: Reports(Validate(DefaultValues).issues, g)
  {
    assert !NameOk(DefaultValues);
  }

  /** The shortest profile the schema accepts: two characters for name,
      title, qualifications and specialization, one for experience, ten for
      the bio, and an empty quote. */
  lemma ShortestAcceptedProfile()
    ensures Validate(Profile("Dr", "MD", "BS", "5", "Eye", "0123456789", Some(""))).Valid?
  {
    var p := Profile("Dr", "MD", "BS", "5", "Eye", "0123456789", Some(""));
    MinLengthOfBmp("Dr", 2);
    MinLengthOfBmp("MD", 2);
    MinLengthOfBmp("BS", 2);
    MinLengthOfBmp("5", 1);
    MinLengthOfBmp("Eye", 2);
    MinLengthOfBmp("0123456789", 10);
    assert NameOk(p) && TitleOk(p) && QualificationsOk(p) && ExperienceOk(p) && SpecializationOk(p) && BioOk(p);
  }

  /** A nine-character bio is one too short. */
  lemma NineCharacterBioIsRejected()
    ensures Validate(Profile("Dr", "MD", "BS", "5", "Eye", "012345678", None)).Invalid?
  {
    var p := Profile("Dr", "MD", "BS", "5", "Eye", "012345678", None);
    MinLengthOfBmp("012345678", 10);
    assert !BioOk(p);
  }

  /** Loading the profile: an existing document replaces the form's values;
      a missing document or a failed read leaves them as they were. */
  function OnFetched(form: Profile, fetched: FetchOutcome<Profile>): (r: Profile)
    ensures fetched.Found? ==> r == fetched.value
    ensures !fetched.Found? ==> r == form
  {
    match fetched
    case Found(stored) => stored
    case _ => form
  }

  /** Saving the profile (`setDoc` on the single profile document): nothing
      is written when the form is rejected or the write fails; otherwise the
      stored profile becomes exactly the form's values. */
  function Submit(stored: Option<Profile>, form: Profile, outcome: WriteOutcome): (r: Option<Profile>)
    ensures Validate(form).Invalid? || outcome.Failure? ==> r == stored
    ensures Validate(form).Valid? && outcome.Success? ==> r == Some(form)
    ensures r != stored ==> r.Some? && Validate(r.value).Valid?
  {
    if Validate(form).Valid? && outcome.Success? then Some(form) else stored
  }

  /** A saved profile is what the next load puts in the form. */
  lemma SaveThenLoadRoundTrip(stored: Option<Profile>, form: Profile, other: Profile)
    requires Validate(form).Valid?
    ensures
      var saved := Submit(stored, form, Success);
      OnFetched(other, if saved.Some? then Found(saved.value) else Missing) == form
  {
  }
}
