/**
 * The building blocks of the registration forms' validation schemas: a
 * minimum-length rule for text fields and a minimum rule for a number
 * field, each reporting an issue against its field with the message the
 * form shows under it.
 */
module Schema {

  /** The registration form fields the schemas check. */
  datatype Field =
    | Name | Address | ContactNumber | Email | LicenseNumber
    | TotalCapacity | ServiceAreas | Facilities | OperatingHours

  /** A schema violation: the field it concerns and its message. */
  datatype Issue = Issue(field: Field, message: string)

  /** A number input read with `valueAsNumber`: an empty or unparsable
      field reads as NaN. */
  datatype Number = Num(value: real) | NaN

  /** The messages of the rules both registration schemas share. */
  const NameTooShort := "Name must be at least 2 characters"
  const AddressTooShort := "Address must be at least 5 characters"
  const ContactTooShort := "Contact number must be at least 10 characters"
  const InvalidEmail := "Invalid email address"
  const LicenseTooShort := "License number must be at least 5 characters"

  /** The message for a number field holding NaN. */
  const NotANumberMessage := "Expected number, received nan"

  /** Some issue concerns `field`. */
  predicate HasIssue(issues: seq<Issue>, field: Field) {
    issues != [] && (issues[0].field == field || HasIssue(issues[1..], field))
  }

  /** A text field with at least `min` characters. */
  function MinLength(field: Field, value: string, min: nat, message: string): (r: seq<Issue>)
    ensures |r| <= 1 && (r != [] ==> r[0].field == field)
    ensures r == [] <==> |value| >= min
    ensures HasIssue(r, field) <==> |value| < min
  {
    var r := if |value| < min then [Issue(field, message)] else [];
    assert r != [] ==> r[1..] == [];
    r
  }

  /** A number field that is a number and at least `min`. */
  function MinNumber(field: Field, value: Number, min: real, message: string): (r: seq<Issue>)
    ensures |r| <= 1 && (r != [] ==> r[0].field == field)
    ensures r == [] <==> value.Num? && value.value >= min
    ensures HasIssue(r, field) <==> !(value.Num? && value.value >= min)
  {
    var r := match value
      case NaN => [Issue(field, NotANumberMessage)]
      case Num(v) => if v < min then [Issue(field, message)] else [];
    assert r != [] ==> r[1..] == [];
    r
  }

  /** A rule decided outside the schema (the validation library's email
      check). */
  function Rule(field: Field, ok: bool, message: string): (r: seq<Issue>)
    ensures |r| <= 1 && (r != [] ==> r[0].field == field)
    ensures r == [] <==> ok
    ensures HasIssue(r, field) <==> !ok
  {
    var r := if ok then [] else [Issue(field, message)];
    assert r != [] ==> r[1..] == [];
    r
  }

  /** A list of at most one issue against `field` concerns no other field. */
  lemma OnlyItsField(r: seq<Issue>, field: Field, other: Field)
    requires |r| <= 1 && (r != [] ==> r[0].field == field)
    ensures HasIssue(r, other) <==> r != [] && other == field
  {
    if r != [] {
      assert r[1..] == [];
    }
  }

  /** The issues of two rule lists together concern exactly the fields
      either of them concerns. */
  lemma {:induction false} HasIssueAppend(a: seq<Issue>, b: seq<Issue>, field: Field)
    ensures HasIssue(a + b, field) <==> HasIssue(a, field) || HasIssue(b, field)
  {
    if a == [] {
      assert a + b == b;
    } else {
      assert (a + b)[0] == a[0] && (a + b)[1..] == a[1..] + b;
      HasIssueAppend(a[1..], b, field);
    }
  }

  /** The issues of the seven rule lists of a schema concern exactly the
      fields one of the lists concerns. */
  lemma HasIssueOfSeven(a: seq<Issue>, b: seq<Issue>, c: seq<Issue>, e: seq<Issue>,
                        f: seq<Issue>, g: seq<Issue>, h: seq<Issue>, field: Field)
    ensures HasIssue(a + b + c + e + f + g + h, field) <==>
      HasIssue(a, field) || HasIssue(b, field) || HasIssue(c, field) || HasIssue(e, field)
      || HasIssue(f, field) || HasIssue(g, field) || HasIssue(h, field)
  {
    HasIssueAppend(a, b, field);
    HasIssueAppend(a + b, c, field);
    HasIssueAppend(a + b + c, e, field);
    HasIssueAppend(a + b + c + e, f, field);
    HasIssueAppend(a + b + c + e + f, g, field);
    HasIssueAppend(a + b + c + e + f + g, h, field);
  }
}
