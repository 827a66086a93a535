# Sahara referral dashboard: data endpoint and registration forms

Sahara is a dashboard that hospitals and NGOs use to refer patients to each
other. This project models the parts of it that hold logic of their own:

- the fixture-backed `GET /api/data` endpoint. It serves patients, hospitals or
  NGOs from three JSON files. Patients can be filtered by hospital and by
  status. Hospitals and NGOs can be looked up by id.
- the NGO registration form and the NGO registration dialog. Each carries its
  own copy of the validation schema and of the row construction; the two
  copies are textually identical and are modelled once. Both build a row for
  the `ngos` table: service areas are
  split on commas and trimmed, the current capacity starts at the total
  capacity, and the NGO starts unverified.
- the hospital registration form. Facilities are split and trimmed, and the
  operating hours are stored as the JSON text `{"hours":...}`.
- the account registration page. It holds a field-update handler and a
  register handler. The register handler checks the passwords, then calls the
  auth backend's sign-up.

Modules:

- `Seqs`: `Option`, an order-keeping filter, and first-match lookup.
- `Text`: ECMAScript `trim`, `split` on one character, and `join`.
- `Json`: `JSON.stringify({ hours: s })`, following sections 4 and 7 of
  RFC 8259 and ECMAScript's QuoteJSONString. It also holds a reader for that
  object.
- `DataRoute`: the endpoint, as a pure function of the query and the fixtures.
- `Schema`: the length and number rules the schemas are built from.
- `Effects`: the effect trace every submit handler produces. A submission
  turns its busy flag on, sends one request, reacts to the outcome, and turns
  the flag off in `finally`. The register page's two password checks instead
  refuse early: busy on, an error toast, busy off outside any `finally`, and
  nothing sent.
- `NgoRegistration`, `NgoModal`, `HospitalRegistration`, `Register`: one per
  component. `NgoRegistration` and `HospitalRegistration` each hold a
  validation schema and a row builder. `NgoModal` reuses those of
  `NgoRegistration`. `Register` holds the password checks (`PasswordProblem`)
  and the sign-up payload (`SignUpOf`). Each module has a class whose fields
  are the component's state: the busy flag (`isSubmitting` or `loading`);
  then either the shown schema errors (the three registration components) or
  the form data (the register page); and the trace of effects performed so
  far. The class invariant ties the busy flag to that trace.

Inputs the program does not compute become parameters:

- a fixture file is either its parsed records or `Unreadable`.
- an insert or sign-up call reports `Succeeded` or `Failed(message)`. An empty
  message stands for a missing one.
- the validation library's email rule is a predicate `isEmail`.
- a number input read with `valueAsNumber` is `Num(value)` or `NaN`.

## Model

| member | source | states |
|---|---|---|
| DataRoute.Get | app/api/data/route.ts:12-64 | The status is 200, 400 or 500. 400 with "Invalid data type requested" exactly when the type is none of patients/hospitals/ngos. 500 with "Failed to read data" exactly when the requested fixture cannot be read. Otherwise the body has the kind of the requested type. |
| DataRoute.PatientsRequest | app/api/data/route.ts:21-33 | A patients request answers exactly the stored patients passing every given filter, in stored order. The answer is a subsequence of the stored list. A patient is in it iff it is stored and matches. |
| DataRoute.FilterPatients | app/api/data/route.ts:25-31 | The two optional filters applied one after the other, each only when its parameter is non-empty. `FilterPatientsIsConjunction` proves this is one order-keeping filter by `PatientMatches`, and `PatientsRequest` gives membership and subsequence. |
| DataRoute.FilterPatientsIsConjunction | app/api/data/route.ts:25-31 | The hospital filter followed by the status filter equals one filter by their conjunction. |
| DataRoute.EmptyFilterIsNoFilter | app/api/data/route.ts:26-29 | A missing or empty `hospitalId`/`status` applies no filter: the whole stored list is answered. |
| DataRoute.PatientsIgnoreId | app/api/data/route.ts:21-33 | Changing `id` does not change a patients response. |
| DataRoute.HospitalLookup | app/api/data/route.ts:39-42 | With a non-empty `id`: null iff no hospital has that id; otherwise the first hospital with that id. |
| DataRoute.HospitalsWithoutId | app/api/data/route.ts:44 | Without a non-empty `id` the stored hospital list is answered unchanged. |
| DataRoute.NgoLookup | app/api/data/route.ts:50-53 | With a non-empty `id`: null iff no NGO has that id; otherwise the first NGO with that id. |
| DataRoute.NgosWithoutId | app/api/data/route.ts:55 | Without a non-empty `id` the stored NGO list is answered unchanged. |
| DataRoute.UnknownKindReadsNothing | app/api/data/route.ts:57-58 | An unknown or missing type gives the 400 response whatever the fixtures hold, so nothing is read. |
| DataRoute.OnlyRequestedFixtureRead | app/api/data/route.ts:20-62 | The response depends only on the fixture of the requested type. A read failure elsewhere cannot affect it. |
| Seqs.Filter | app/api/data/route.ts:27 | `Array.prototype.filter`: an element is in the result iff it is in the input and kept. The result is no longer than the input. |
| Seqs.FilterIsSubsequence | app/api/data/route.ts:27-30 | A filter result is a subsequence of its input. |
| Seqs.FilterTwice | app/api/data/route.ts:27-30 | Filtering by `p` then by `q` is filtering by their conjunction. |
| Seqs.Find | app/api/data/route.ts:40 | `Array.prototype.find`: none iff no element matches. Otherwise an element that matches, with no match before it. |
| Text.Trim | components/forms/NGORegistrationForm.tsx:50 | `trim()`: the result is a slice of the input between whitespace-only margins, and its ends are not whitespace. |
| Text.TrimIdempotent | components/forms/NGORegistrationForm.tsx:50 | Trimming twice is trimming once. |
| Text.Split | components/forms/NGORegistrationForm.tsx:48-49 | `split(",")`: one more piece than there are commas, with no comma inside a piece. |
| Text.JoinSplit | components/forms/NGORegistrationForm.tsx:48-49 | Joining the pieces with the separator gives back the input. |
| Text.SplitJoin | components/forms/HospitalRegistrationForm.tsx:48-49 | Splitting comma-free pieces joined by commas gives back the pieces. |
| Text.SplitTrimmed | components/forms/HospitalRegistrationForm.tsx:48-50 | `split(",").map(trim)`: one entry per comma plus one, each the trimmed piece. |
| Schema.MinLength | components/forms/NGORegistrationForm.tsx:17 | A text rule reports at most one issue. The issue is against its own field, and it appears iff the value is shorter than the minimum. |
| Schema.MinNumber | components/forms/NGORegistrationForm.tsx:26 | A number rule reports an issue iff the value is NaN or below the minimum. |
| Schema.Rule | components/forms/NGORegistrationForm.tsx:22 | The email rule reports an issue iff the library's check fails. |
| Schema.HasIssueAppend | components/forms/NGORegistrationForm.tsx:16-28 | The issues of two rule lists together concern exactly the fields either list concerns. |
| NgoRegistration.NgoIssues | components/forms/NGORegistrationForm.tsx:16-28 | No issue iff name ≥ 2, address ≥ 5, contact number ≥ 10, email valid, licence ≥ 5, capacity a number ≥ 1, service areas ≥ 2. |
| NgoRegistration.NgoIssuesPerField | components/forms/NGORegistrationForm.tsx:16-28 | Each field is reported iff its own rule fails. |
| NgoRegistration.BuildNgoRow | components/forms/NGORegistrationForm.tsx:45-53 | The inserted row. `NgoRowFields` proves it copies the fields, splits and trims the areas, starts current capacity at total capacity, and is unverified; `ServiceAreasOfList` gives the list round trip. |
| NgoRegistration.NgoRowFields | components/forms/NGORegistrationForm.tsx:45-53 | The row copies the validated fields unchanged. Service areas are the comma pieces trimmed, one per comma plus one. `current_capacity` equals `total_capacity`. `verified` is false. |
| NgoRegistration.ServiceAreasOfList | components/forms/NGORegistrationForm.tsx:48-50 | Areas typed as a comma-separated list come back one per entry, each trimmed, empty entries included. |
| NgoRegistration.FormSubmitEffects | components/forms/NGORegistrationForm.tsx:42-66 | The page form's submit trace for a row and an insert outcome; `FormSubmitOutcome` states what it guarantees. |
| NgoRegistration.FormSubmitOutcome | components/forms/NGORegistrationForm.tsx:42-66 | Navigation to "/ngo" happens iff the insert succeeds. The failure toast shows iff it fails. The row is inserted once, while `isSubmitting` is on. `isSubmitting` is off at the end. |
| NgoRegistration.NgoRegistrationForm.constructor | components/forms/NGORegistrationForm.tsx:32 | `useState(false)`: not submitting, no errors shown, nothing performed; the class invariant holds. |
| NgoRegistration.NgoRegistrationForm.OnSubmit | components/forms/NGORegistrationForm.tsx:42-66 | Appends exactly the submission effects for the built row to the trace. `isSubmitting` ends false, and the class invariant is kept. |
| NgoRegistration.NgoRegistrationForm.HandleSubmit | components/forms/NGORegistrationForm.tsx:39 | The errors shown are the schema's. `onSubmit` runs iff there are none; otherwise state and trace are unchanged. |
| NgoModal.ModalSubmitEffects | components/NGORegistrationModal.tsx:54-80 | The dialog's submit trace for a row, an insert outcome and whether `onSuccess` is given; `ModalSubmitOutcome` states what it guarantees. |
| NgoModal.ModalSubmitOutcome | components/NGORegistrationModal.tsx:54-80 | On success: reset, then close request, then `onSuccess` (iff given). On failure: none of them, and the dialog stays open. The success toast shows iff the insert succeeds and the failure toast iff it fails. One insert while busy; not busy at the end. |
| NgoModal.NgoRegistrationModal.constructor | components/NGORegistrationModal.tsx:43 | `useState(false)`: not submitting, no errors shown, nothing performed; the class invariant holds. |
| NgoModal.NgoRegistrationModal.OnSubmit | components/NGORegistrationModal.tsx:54-80 | Appends exactly the dialog's submission effects for the row built as on the form page. `isSubmitting` ends false. |
| NgoModal.NgoRegistrationModal.HandleSubmit | components/NGORegistrationModal.tsx:18-30 | The errors shown are those of the dialog's NGO schema, a copy identical to the form page's and modelled by the same function. `onSubmit` runs iff there are none. |
| Json.EscapeAll | components/forms/HospitalRegistrationForm.tsx:51-53 | The JSON escaping of a string's characters. `ParseEscaped` proves the reader decodes it back, `EscapeAllPrintable` that no raw control character remains, and `EscapeAllPlain` that plain text is left as is. |
| Json.Quote | components/forms/HospitalRegistrationForm.tsx:51-53 | The quoted JSON string: it starts and ends with a double quote; `ParseQuoted` proves it reads back exactly. |
| Json.StringifyHours | components/forms/HospitalRegistrationForm.tsx:51-53 | `JSON.stringify({ hours: s })`: `HoursRoundTrip` proves reading it gives back exactly `s`. |
| Json.HexDigit | components/forms/HospitalRegistrationForm.tsx:51-53 | The digit written is a decimal digit or a lower-case letter `a`-`f`, and it reads back as its value. |
| Json.EscapeChar | components/forms/HospitalRegistrationForm.tsx:51-53 | An escaped code point is non-empty, starts with no quote, and holds no raw control character. |
| Json.EscapeAllPrintable | components/forms/HospitalRegistrationForm.tsx:51-53 | A stringified value holds no raw control character, as section 7 of RFC 8259 requires. |
| Json.ParseQuoted | components/forms/HospitalRegistrationForm.tsx:51-53 | A JSON-quoted string, followed by anything, reads back exactly. |
| Json.HoursRoundTrip | components/forms/HospitalRegistrationForm.tsx:51-53 | Reading the stored `{"hours":...}` text gives back exactly the entered operating hours. |
| HospitalRegistration.HospitalIssues | components/forms/HospitalRegistrationForm.tsx:16-28 | No issue iff name ≥ 2, address ≥ 5, contact number ≥ 10, email valid, licence ≥ 5, facilities ≥ 2, operating hours ≥ 2. |
| HospitalRegistration.HospitalIssuesPerField | components/forms/HospitalRegistrationForm.tsx:16-28 | Each field is reported iff its own rule fails. |
| HospitalRegistration.BuildHospitalRow | components/forms/HospitalRegistrationForm.tsx:45-55 | The inserted row. `HospitalRowFields` proves it copies the fields, splits and trims the facilities, stores hours that parse back, and is unverified; `FacilitiesOfList` gives the list round trip. |
| HospitalRegistration.HospitalRowFields | components/forms/HospitalRegistrationForm.tsx:45-55 | The row copies the validated fields unchanged. Facilities are the comma pieces trimmed, one per comma plus one. `verified` is false. The operating-hours text parses back to the entered hours. |
| HospitalRegistration.FacilitiesOfList | components/forms/HospitalRegistrationForm.tsx:48-50 | Facilities typed as a comma-separated list come back one per entry, trimmed. |
| HospitalRegistration.HospitalSubmitEffects | components/forms/HospitalRegistrationForm.tsx:42-68 | The submit handler's trace for a row and an insert outcome; `HospitalSubmitOutcome` states what it guarantees. |
| HospitalRegistration.HospitalSubmitOutcome | components/forms/HospitalRegistrationForm.tsx:42-68 | The redirect to "/hospital" and the success toast happen iff the insert succeeds. The failure toast shows iff it fails. One insert while `isSubmitting` is on; off at the end. |
| HospitalRegistration.HospitalRegistrationForm.constructor | components/forms/HospitalRegistrationForm.tsx:32 | `useState(false)`: not submitting, no errors shown, nothing performed; the class invariant holds. |
| HospitalRegistration.HospitalRegistrationForm.OnSubmit | components/forms/HospitalRegistrationForm.tsx:42-68 | Appends exactly the submission effects for the built row. `isSubmitting` ends false. |
| HospitalRegistration.HospitalRegistrationForm.HandleSubmit | components/forms/HospitalRegistrationForm.tsx:39 | The errors shown are the schema's. `onSubmit` runs iff there are none. |
| Register.Change | app/auth/register/page.tsx:24-29 | The named field gets the new value. Every other field keeps its presence and its value. |
| Register.ChangeKeepsFields | app/auth/register/page.tsx:24-29 | A change never removes one of the five fields the page reads. |
| Register.OrganizationTypeStaysAChoice | app/auth/register/page.tsx:133-156 | The radio inputs keep the organisation type "ngo" or "hospital". |
| Register.PasswordProblem | app/auth/register/page.tsx:36-46 | No problem iff the passwords match and have at least 6 characters. "Passwords do not match" iff they differ, even when also short. The length message appears iff they match but are short. |
| Register.FailureMessage | app/auth/register/page.tsx:71 | The failure toast is never empty. It is the error's message when that is non-empty, else "Failed to register". |
| Register.SignUpOf | app/auth/register/page.tsx:50-59 | The sign-up payload: the form's email and password, with its name and organisation type as metadata; `RegisterOutcome` proves this is what is sent. |
| Register.RegisterEffects | app/auth/register/page.tsx:31-75 | The register handler's trace for a form and a sign-up outcome; `RegisterOutcome` states what it guarantees. |
| Register.RegisterOutcome | app/auth/register/page.tsx:31-75 | The sign-up call is made iff the passwords match and are long enough. It is made once, while `loading` is on, carrying the form's email, password, name and organisation type. Mismatch and shortness give exactly the refusal. The login page opens iff sign-up is called and succeeds. `loading` is off at the end. |
| Register.RegisterPage.constructor | app/auth/register/page.tsx:15-22 | All fields start empty, except the organisation type, which starts as "ngo". Not loading. |
| Register.RegisterPage.HandleChange | app/auth/register/page.tsx:24-29 | The form data becomes the changed form. Loading and the trace are untouched. |
| Register.RegisterPage.HandleRegister | app/auth/register/page.tsx:31-75 | Appends exactly the register effects for the current form to the trace. `loading` ends false, and the form data is unchanged. |
| Effects.SubmissionLifecycle | components/forms/NGORegistrationForm.tsx:43-65 | Every try/finally submission sends exactly one request, sends it while busy, and ends not busy. |
| Effects.RefusalLifecycle | app/auth/register/page.tsx:36-46 | An early return sends nothing and ends not busy. |

## Left out

- Reading the fixture files (`fs`, `JSON.parse`) is not modelled; each fixture is an input that is either its parsed records or unreadable. Any exception on that path is the 500 response.
- Records carry the fields the endpoint compares (`hospital_id` and `status` of a patient, `id` of a hospital or NGO) plus a few it never reads (a patient's `id`, `first_name` and `last_name`, a hospital's or NGO's `name`). The latter are kept only so that records agreeing on the compared fields stay distinct, which gives "the first match" and "in stored order" their meaning. The other columns pass through untouched and are not modelled.
- The insert into `ngos`/`hospitals` and the auth sign-up are backend calls; their result is an input (`Succeeded` or `Failed(message)`), and what the backend stores is not modelled.
- The email rule of the validation library is not part of this model; it enters as a predicate `isEmail`.
- `console.error` logging and all rendering (labels, disabled buttons, error text placement) are left out.
- Text.Trim, Text.Split, Register.PasswordProblem: strings are sequences of Unicode code points; JavaScript's UTF-16 code units, and so `length` of astral characters, are not modelled; a password of three astral characters has `length` 6 in JavaScript but 3 in the model.
- Schema.MinLength: counts code points, not UTF-16 code units, for the same reason.
- Schema.MinNumber: the number is a real; JavaScript's double rounding and infinities are not modelled.
- NgoRegistration.BuildNgoRow: the row spreads whatever the schema-parsed data holds; the model's row holds exactly the schema's fields.
- Hospital row `operating_hours` is checked against a reader for the one-member object only; a general JSON parser is not part of this model.
- NgoModal.ModalSubmitEffects: the success toast, `reset()`, `onOpenChange(false)` and `onSuccess?.()` are assumed not to throw. In the source they run inside the `try`, so a throw from the owner's `onOpenChange` or `onSuccess` after a successful insert skips the remaining reactions and shows "Failed to register NGO" for an NGO that was registered.
- NgoRegistration.FormSubmitEffects, HospitalRegistration.HospitalSubmitEffects: `toast.success` and `router.push` are assumed not to throw; in the source a throw there would show the failure toast after a successful insert.
- Register.RegisterEffects: likewise `toast.success` and `router.push` are assumed not to throw.
- NgoRegistration.NgoRegistrationForm.HandleSubmit, NgoModal.NgoRegistrationModal.HandleSubmit, HospitalRegistration.HospitalRegistrationForm.HandleSubmit, Register.RegisterPage.HandleRegister: the browser's own form validation runs first and is not modelled. It covers `required` inputs, `type="email"` inputs, and `type="number"` inputs with the default step 1. It can stop the submit event, so no handler runs; for example, the register page with an empty email sends nothing, and the NGO forms refuse a total capacity of 1.5. The contracts describe each handler from the moment it runs.
- Register.RegisterPage.HandleChange: the event's target is reduced to its name and value.
- The button disabled while `loading`/`isSubmitting` is rendering; handlers are modelled as running one at a time to completion.
- The patient-acceptance workflow, the data-access helpers, the auth hook, the login page, the capacity update page and the patient registration form are not part of this model.
