/**
 * Hospital registration: the form's validation schema, the row it inserts
 * into the `hospitals` table (facilities split on commas and trimmed,
 * operating hours wrapped as the JSON text `{"hours":...}`), and the form
 * whose submit handler inserts the row and then navigates to the hospital
 * dashboard.
 */
module HospitalRegistration {
  import opened Text
  import opened Schema
  import opened Effects
  import Json
  import opened Seqs

  /** The values the form collects. */
  datatype HospitalInput = HospitalInput(
    name: string, address: string, contact_number: string, email: string,
    license_number: string, facilities: string, operating_hours: string)

  /** The row inserted into the `hospitals` table. */
  datatype HospitalRow = HospitalRow(
    name: string, address: string, contact_number: string, email: string,
    license_number: string, facilities: seq<string>, operating_hours: string,
    verified: bool)

  const Registered := "Hospital registered successfully"
  const RegisterFailed := "Failed to register hospital"
  const FacilitiesMissing := "Facilities required"
  const OperatingHoursMissing := "Operating hours required"
  /** Where the form goes after a successful registration. */
  const Dashboard := "/hospital"

  /** The schema's violations, in field order. The email rule belongs to the
      validation library and is a parameter here. */
  function HospitalIssues(d: HospitalInput, isEmail: string -> bool): (issues: seq<Issue>)
    ensures issues == [] <==>
      && |d.name| >= 2 && |d.address| >= 5 && |d.contact_number| >= 10 && isEmail(d.email)
      && |d.license_number| >= 5 && |d.facilities| >= 2 && |d.operating_hours| >= 2
  {
    MinLength(Name, d.name, 2, NameTooShort)
    + MinLength(Address, d.address, 5, AddressTooShort)
    + MinLength(ContactNumber, d.contact_number, 10, ContactTooShort)
    + Rule(Email, isEmail(d.email), InvalidEmail)
    + MinLength(LicenseNumber, d.license_number, 5, LicenseTooShort)
    + MinLength(Facilities, d.facilities, 2, FacilitiesMissing)
    + MinLength(OperatingHours, d.operating_hours, 2, OperatingHoursMissing)
  }

  /** The schema's rule for one field, stated field by field. */
  predicate HospitalRuleFails(d: HospitalInput, isEmail: string -> bool, field: Field) {
    match field
    case Name => |d.name| < 2
    case Address => |d.address| < 5
    case ContactNumber => |d.contact_number| < 10
    case Email => !isEmail(d.email)
    case LicenseNumber => |d.license_number| < 5
    case Facilities => |d.facilities| < 2
    case OperatingHours => |d.operating_hours| < 2
    case TotalCapacity => false
    case ServiceAreas => false
  }

  /** Each field is reported exactly when its own rule fails. */
  lemma HospitalIssuesPerField(d: HospitalInput, isEmail: string -> bool, field: Field)
    ensures HasIssue(HospitalIssues(d, isEmail), field) <==> HospitalRuleFails(d, isEmail, field)
  {
    var a := MinLength(Name, d.name, 2, NameTooShort);
    var b := MinLength(Address, d.address, 5, AddressTooShort);
    var c := MinLength(ContactNumber, d.contact_number, 10, ContactTooShort);
    var e := Rule(Email, isEmail(d.email), InvalidEmail);
    var f := MinLength(LicenseNumber, d.license_number, 5, LicenseTooShort);
    var g := MinLength(Facilities, d.facilities, 2, FacilitiesMissing);
    var h := MinLength(OperatingHours, d.operating_hours, 2, OperatingHoursMissing);
    OnlyItsField(a, Name, field);
    OnlyItsField(b, Address, field);
    OnlyItsField(c, ContactNumber, field);
    OnlyItsField(e, Email, field);
    OnlyItsField(f, LicenseNumber, field);
    OnlyItsField(g, Facilities, field);
    OnlyItsField(h, OperatingHours, field);
    HasIssueOfSeven(a, b, c, e, f, g, h, field);
  }

  /** The row the submit handler inserts. */
  function BuildHospitalRow(d: HospitalInput): HospitalRow {
    HospitalRow(d.name, d.address, d.contact_number, d.email, d.license_number,
                SplitTrimmed(d.facilities, ','), Json.StringifyHours(d.operating_hours), false)
  }

  /** The row keeps the typed values, lists the facilities one per
      comma-separated entry, trimmed, is not verified, and stores operating
      hours as JSON text that parses back to exactly the typed hours. */
  lemma HospitalRowFields(d: HospitalInput)
    ensures var row := BuildHospitalRow(d);
      && row.name == d.name && row.address == d.address && row.contact_number == d.contact_number
      && row.email == d.email && row.license_number == d.license_number
      && !row.verified
      && |row.facilities| == Count(d.facilities, ',') + 1
      && (forall i :: 0 <= i < |row.facilities| ==> row.facilities[i] == Trim(Split(d.facilities, ',')[i]))
      && Json.ParseHours(row.operating_hours) == Some(d.operating_hours)
  {
    Json.HoursRoundTrip(d.operating_hours);
  }

  /** Facilities typed as a comma-separated list come back one per entry,
      trimmed, empty entries included. */
  lemma FacilitiesOfList(d: HospitalInput, facilities: seq<string>)
    requires facilities != [] && d.facilities == Join(facilities, ',')
    requires forall i, j :: 0 <= i < |facilities| && 0 <= j < |facilities[i]| ==> facilities[i][j] != ','
    ensures var row := BuildHospitalRow(d);
      |row.facilities| == |facilities| && forall i :: 0 <= i < |facilities| ==> row.facilities[i] == Trim(facilities[i])
  {
    SplitJoin(facilities, ',');
  }

  /** What the submit handler does for a validated row. */
  function HospitalSubmitEffects(row: HospitalRow, insert: Outcome): seq<Effect<HospitalRow>> {
    [SetBusy(true), Send(row)]
    + (if insert.Succeeded? then [ToastSuccess(Registered), Navigate(Dashboard)] else [ToastError(RegisterFailed)])
    + [SetBusy(false)]
  }

  /** The form navigates to the hospital dashboard exactly when the insert
      reports no error, and shows the failure toast exactly when it does;
      the row is inserted once, while `isSubmitting` is on, which is off at
      the end. */
  lemma HospitalSubmitOutcome(row: HospitalRow, insert: Outcome)
    ensures var t := HospitalSubmitEffects(row, insert);
      && (Navigate(Dashboard) in t <==> insert.Succeeded?)
      && (ToastSuccess(Registered) in t <==> insert.Succeeded?)
      && (ToastError(RegisterFailed) in t <==> insert.Failed?)
      && SendCount(t) == 1 && t[1] == Send(row) && SentWhileBusy(false, t) && !BusyAfter(false, t)
  {
    assert HospitalSubmitEffects(row, insert)
        == Submission(row, insert.Succeeded?, [ToastSuccess(Registered), Navigate(Dashboard)], [ToastError(RegisterFailed)]);
    SubmissionLifecycle(false, row, insert.Succeeded?, [ToastSuccess(Registered), Navigate(Dashboard)], [ToastError(RegisterFailed)]);
  }

  /** The hospital registration form. */
  class HospitalRegistrationForm {
    var isSubmitting: bool
    var errors: seq<Issue>
    var effects: seq<Effect<HospitalRow>>

    /** `isSubmitting` is the busy flag the recorded effects leave behind. */
    ghost predicate Valid()
      reads this
    {
      isSubmitting == BusyAfter(false, effects)
    }

    constructor ()
      ensures Valid() && !isSubmitting && errors == [] && effects == []
    {
      isSubmitting, errors, effects := false, [], [];
    }

    /** `onSubmit`: called with values that passed the schema. */
    method OnSubmit(data: HospitalInput, insert: Outcome)
      requires Valid()
      modifies this
      ensures Valid() && !isSubmitting && errors == old(errors)
      ensures effects == old(effects) + HospitalSubmitEffects(BuildHospitalRow(data), insert)
    {
      isSubmitting := true;
      var trace := [SetBusy(true)];
      var row := BuildHospitalRow(data);
      trace := trace + [Send(row)];
      if insert.Succeeded? {
        trace := trace + [ToastSuccess(Registered), Navigate(Dashboard)];
      } else {
        trace := trace + [ToastError(RegisterFailed)];
      }
      isSubmitting := false;
      trace := trace + [SetBusy(false)];
      assert trace == HospitalSubmitEffects(row, insert);
      effects := effects + trace;
      EndsIdle(false, effects);
    }

    /** Submitting the form: only values the schema accepts reach
        `onSubmit`; otherwise its messages are shown and nothing else
        happens. */
    method HandleSubmit(data: HospitalInput, isEmail: string -> bool, insert: Outcome)
      requires Valid()
      modifies this
      ensures Valid() && errors == HospitalIssues(data, isEmail)
      ensures errors == [] ==> !isSubmitting && effects == old(effects) + HospitalSubmitEffects(BuildHospitalRow(data), insert)
      ensures errors != [] ==> isSubmitting == old(isSubmitting) && effects == old(effects)
    {
      var issues := HospitalIssues(data, isEmail);
      errors := issues;
      if issues == [] {
        OnSubmit(data, insert);
      }
    }
  }
}
