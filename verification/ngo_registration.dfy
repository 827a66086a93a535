/**
 * NGO registration: the form's validation schema, the row it inserts into
 * the `ngos` table, and the page form whose submit handler inserts the row
 * and then navigates to the NGO dashboard. The registration dialog
 * (module NgoModal) carries an identical copy of the schema and of the
 * row construction, which the model states once, here.
 */
module NgoRegistration {
  import opened Text
  import opened Schema
  import opened Effects

  /** The values the form collects. */
  datatype NgoInput = NgoInput(
    name: string, address: string, contact_number: string, email: string,
    license_number: string, total_capacity: Number, service_areas: string)

  /** The row inserted into the `ngos` table. */
  datatype NgoRow = NgoRow(
    name: string, address: string, contact_number: string, email: string,
    license_number: string, total_capacity: real, service_areas: seq<string>,
    current_capacity: real, verified: bool)

  const Registered := "NGO registered successfully"
  const RegisterFailed := "Failed to register NGO"
  const CapacityTooSmall := "Capacity must be at least 1"
  const ServiceAreasMissing := "Service areas required"
  /** Where the page goes after a successful registration. */
  const Dashboard := "/ngo"

  /** The schema's violations, in field order. The email rule belongs to the
      validation library and is a parameter here. */
  function NgoIssues(d: NgoInput, isEmail: string -> bool): (issues: seq<Issue>)
    ensures issues == [] <==>
      && |d.name| >= 2 && |d.address| >= 5 && |d.contact_number| >= 10 && isEmail(d.email)
      && |d.license_number| >= 5 && d.total_capacity.Num? && d.total_capacity.value >= 1.0
      && |d.service_areas| >= 2
  {
    MinLength(Name, d.name, 2, NameTooShort)
    + MinLength(Address, d.address, 5, AddressTooShort)
    + MinLength(ContactNumber, d.contact_number, 10, ContactTooShort)
    + Rule(Email, isEmail(d.email), InvalidEmail)
    + MinLength(LicenseNumber, d.license_number, 5, LicenseTooShort)
    + MinNumber(TotalCapacity, d.total_capacity, 1.0, CapacityTooSmall)
    + MinLength(ServiceAreas, d.service_areas, 2, ServiceAreasMissing)
  }

  /** The schema's rule for one field, stated field by field. */
  predicate NgoRuleFails(d: NgoInput, isEmail: string -> bool, field: Field) {
    match field
    case Name => |d.name| < 2
    case Address => |d.address| < 5
    case ContactNumber => |d.contact_number| < 10
    case Email => !isEmail(d.email)
    case LicenseNumber => |d.license_number| < 5
    case TotalCapacity => !(d.total_capacity.Num? && d.total_capacity.value >= 1.0)
    case ServiceAreas => |d.service_areas| < 2
    case Facilities => false
    case OperatingHours => false
  }

  /** Each field is reported exactly when its own rule fails. */
  lemma NgoIssuesPerField(d: NgoInput, isEmail: string -> bool, field: Field)
    ensures HasIssue(NgoIssues(d, isEmail), field) <==> NgoRuleFails(d, isEmail, field)
  {
    var a := MinLength(Name, d.name, 2, NameTooShort);
    var b := MinLength(Address, d.address, 5, AddressTooShort);
    var c := MinLength(ContactNumber, d.contact_number, 10, ContactTooShort);
    var e := Rule(Email, isEmail(d.email), InvalidEmail);
    var f := MinLength(LicenseNumber, d.license_number, 5, LicenseTooShort);
    var g := MinNumber(TotalCapacity, d.total_capacity, 1.0, CapacityTooSmall);
    var h := MinLength(ServiceAreas, d.service_areas, 2, ServiceAreasMissing);
    OnlyItsField(a, Name, field);
    OnlyItsField(b, Address, field);
    OnlyItsField(c, ContactNumber, field);
    OnlyItsField(e, Email, field);
    OnlyItsField(f, LicenseNumber, field);
    OnlyItsField(g, TotalCapacity, field);
    OnlyItsField(h, ServiceAreas, field);
    HasIssueOfSeven(a, b, c, e, f, g, h, field);
  }

  /** The row the submit handler inserts: the validated values, the service
      areas split on commas and trimmed, the current capacity starting at the
      total capacity, and not verified. */
  function BuildNgoRow(d: NgoInput): NgoRow
    requires d.total_capacity.Num?
  {
    NgoRow(d.name, d.address, d.contact_number, d.email, d.license_number, d.total_capacity.value,
           SplitTrimmed(d.service_areas, ','), d.total_capacity.value, false)
  }

  lemma NgoRowFields(d: NgoInput)
    requires d.total_capacity.Num?
    ensures var row := BuildNgoRow(d);
      && row.name == d.name && row.address == d.address && row.contact_number == d.contact_number
      && row.email == d.email && row.license_number == d.license_number
      && row.total_capacity == d.total_capacity.value
      && row.current_capacity == row.total_capacity
      && !row.verified
      && |row.service_areas| == Count(d.service_areas, ',') + 1
      && forall i :: 0 <= i < |row.service_areas| ==> row.service_areas[i] == Trim(Split(d.service_areas, ',')[i])
  {
  }

  /** Areas typed as a comma-separated list come back one per entry,
      trimmed, empty entries included. */
  lemma ServiceAreasOfList(d: NgoInput, areas: seq<string>)
    requires d.total_capacity.Num?
    requires areas != [] && d.service_areas == Join(areas, ',')
    requires forall i, j :: 0 <= i < |areas| && 0 <= j < |areas[i]| ==> areas[i][j] != ','
    ensures var row := BuildNgoRow(d);
      |row.service_areas| == |areas| && forall i :: 0 <= i < |areas| ==> row.service_areas[i] == Trim(areas[i])
  {
    SplitJoin(areas, ',');
  }

  /** What the page form's submit handler does for a validated row. */
  function FormSubmitEffects(row: NgoRow, insert: Outcome): seq<Effect<NgoRow>> {
    [SetBusy(true), Send(row)]
    + (if insert.Succeeded? then [ToastSuccess(Registered), Navigate(Dashboard)] else [ToastError(RegisterFailed)])
    + [SetBusy(false)]
  }

  /** The page navigates to the NGO dashboard exactly when the insert
      reports no error, and shows the failure toast exactly when it does;
      the row is inserted once, while `isSubmitting` is on, which is off at
      the end. */
  lemma FormSubmitOutcome(row: NgoRow, insert: Outcome)
    ensures var t := FormSubmitEffects(row, insert);
      && (Navigate(Dashboard) in t <==> insert.Succeeded?)
      && (ToastError(RegisterFailed) in t <==> insert.Failed?)
      && SendCount(t) == 1 && t[1] == Send(row) && SentWhileBusy(false, t) && !BusyAfter(false, t)
  {
    assert FormSubmitEffects(row, insert)
        == Submission(row, insert.Succeeded?, [ToastSuccess(Registered), Navigate(Dashboard)], [ToastError(RegisterFailed)]);
    SubmissionLifecycle(false, row, insert.Succeeded?, [ToastSuccess(Registered), Navigate(Dashboard)], [ToastError(RegisterFailed)]);
  }

  /** The registration page's form. */
  class NgoRegistrationForm {
    var isSubmitting: bool
    var errors: seq<Issue>
    var effects: seq<Effect<NgoRow>>

    /** `isSubmitting` is the busy flag the recorded effects leave behind. */
    ghost predicate Valid()
      reads this
    {
      isSubmitting == BusyAfter(false, effects)
    }

    constructor ()
      ensures Valid() && !isSubmitting && errors == [] && effects == []
    {
      isSubmitting, errors, effects := false, [], [];
    }

    /** `onSubmit`: called with values that passed the schema. */
    method OnSubmit(data: NgoInput, insert: Outcome)
      requires Valid() && data.total_capacity.Num?
      modifies this
      ensures Valid() && !isSubmitting && errors == old(errors)
      ensures effects == old(effects) + FormSubmitEffects(BuildNgoRow(data), insert)
    {
      isSubmitting := true;
      var trace := [SetBusy(true)];
      var row := BuildNgoRow(data);
      trace := trace + [Send(row)];
      if insert.Succeeded? {
        trace := trace + [ToastSuccess(Registered), Navigate(Dashboard)];
      } else {
        trace := trace + [ToastError(RegisterFailed)];
      }
      isSubmitting := false;
      trace := trace + [SetBusy(false)];
      assert trace == FormSubmitEffects(row, insert);
      effects := effects + trace;
      EndsIdle(false, effects);
    }

    /** Submitting the form: the schema runs first; only values it accepts
        reach `onSubmit`, otherwise its messages are shown and nothing else
        happens. */
    method HandleSubmit(data: NgoInput, isEmail: string -> bool, insert: Outcome)
      requires Valid()
      modifies this
      ensures Valid() && errors == NgoIssues(data, isEmail)
      ensures errors == [] ==> !isSubmitting && effects == old(effects) + FormSubmitEffects(BuildNgoRow(data), insert)
      ensures errors != [] ==> isSubmitting == old(isSubmitting) && effects == old(effects)
    {
      var issues := NgoIssues(data, isEmail);
      errors := issues;
      if issues == [] {
        OnSubmit(data, insert);
      }
    }
  }
}
