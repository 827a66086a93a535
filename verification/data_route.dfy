/**
 * The fixture-backed `GET /api/data` endpoint: the query's `type` picks one
 * of three JSON fixture files (patients, hospitals, NGOs); patients can be
 * narrowed by `hospitalId` and `status`, hospitals and NGOs looked up by
 * `id`. An unknown type is a 400 response, a fixture that cannot be read or
 * parsed a 500 response.
 *
 * Reading a fixture is an input here: each file is either its parsed list
 * of records or unreadable.
 */
module DataRoute {
  import opened Seqs

  /** The record fields the endpoint compares (a patient's `hospital_id`
      and `status`, a hospital's or NGO's `id`), plus a few it never reads
      that keep records agreeing on those fields distinct; other columns
      travel with the record and are not modelled. */
  datatype Patient = Patient(id: string, hospital_id: string, status: string, first_name: string, last_name: string)
  datatype Hospital = Hospital(id: string, name: string)
  datatype Ngo = Ngo(id: string, name: string)

  /** A fixture file: its parsed records, or a read or parse failure. */
  datatype Fixture<T> = Loaded(records: seq<T>) | Unreadable

  datatype Fixtures = Fixtures(patients: Fixture<Patient>, hospitals: Fixture<Hospital>, ngos: Fixture<Ngo>)

  /** The search parameters; `searchParams.get` yields null for a missing one. */
  datatype Query = Query(kind: Option<string>, id: Option<string>, status: Option<string>, hospitalId: Option<string>)

  /** JSON bodies the endpoint answers with. */
  datatype Body =
    | PatientList(patients: seq<Patient>)
    | HospitalList(hospitals: seq<Hospital>)
    | OneHospital(hospital: Option<Hospital>)   // None is JSON null
    | NgoList(ngos: seq<Ngo>)
    | OneNgo(ngo: Option<Ngo>)                  // None is JSON null
    | Error(message: string)

  datatype Response = Response(status: nat, body: Body)

  const InvalidType := "Invalid data type requested"
  const ReadFailed := "Failed to read data"

  /** JavaScript truthiness of a query parameter: present and non-empty. */
  predicate Truthy(p: Option<string>) {
    p.Some? && p.value != ""
  }

  predicate KnownKind(kind: Option<string>) {
    kind == Some("patients") || kind == Some("hospitals") || kind == Some("ngos")
  }

  /** The patients list after the optional hospital filter, then the
      optional status filter, as the endpoint applies them. */
  function FilterPatients(patients: seq<Patient>, hospitalId: Option<string>, status: Option<string>): seq<Patient> {
    var byHospital := if Truthy(hospitalId) then Filter(patients, (p: Patient) => p.hospital_id == hospitalId.value) else patients;
    if Truthy(status) then Filter(byHospital, (p: Patient) => p.status == status.value) else byHospital
  }

  /** What the patients request asks of one record: each filter that is given. */
  predicate PatientMatches(p: Patient, hospitalId: Option<string>, status: Option<string>) {
    (Truthy(hospitalId) ==> p.hospital_id == hospitalId.value) && (Truthy(status) ==> p.status == status.value)
  }

  function Get(q: Query, files: Fixtures): (r: Response)
    ensures r.status == 200 || r.status == 400 || r.status == 500
    ensures r.status == 400 <==> !KnownKind(q.kind)
    ensures r.status == 400 ==> r.body == Error(InvalidType)
    ensures r.status == 500 <==>
      || (q.kind == Some("patients") && files.patients.Unreadable?)
      || (q.kind == Some("hospitals") && files.hospitals.Unreadable?)
      || (q.kind == Some("ngos") && files.ngos.Unreadable?)
    ensures r.status == 500 ==> r.body == Error(ReadFailed)
    ensures r.status == 200 && q.kind == Some("patients") ==> r.body.PatientList?
    ensures r.status == 200 && q.kind == Some("hospitals") ==> r.body.HospitalList? || r.body.OneHospital?
    ensures r.status == 200 && q.kind == Some("ngos") ==> r.body.NgoList? || r.body.OneNgo?
  {
    if q.kind == Some("patients") then
      match files.patients
      case Unreadable => Response(500, Error(ReadFailed))
      case Loaded(patients) => Response(200, PatientList(FilterPatients(patients, q.hospitalId, q.status)))
    else if q.kind == Some("hospitals") then
      match files.hospitals
      case Unreadable => Response(500, Error(ReadFailed))
      case Loaded(hospitals) =>
        if Truthy(q.id) then Response(200, OneHospital(Find(hospitals, (h: Hospital) => h.id == q.id.value)))
        else Response(200, HospitalList(hospitals))
    else if q.kind == Some("ngos") then
      match files.ngos
      case Unreadable => Response(500, Error(ReadFailed))
      case Loaded(ngos) =>
        if Truthy(q.id) then Response(200, OneNgo(Find(ngos, (n: Ngo) => n.id == q.id.value)))
        else Response(200, NgoList(ngos))
    else
      Response(400, Error(InvalidType))
  }

  /** The two filters in sequence are one filter by their conjunction. */
  lemma FilterPatientsIsConjunction(patients: seq<Patient>, hospitalId: Option<string>, status: Option<string>)
    ensures FilterPatients(patients, hospitalId, status) == Filter(patients, (p: Patient) => PatientMatches(p, hospitalId, status))
  {
    var matches := (p: Patient) => PatientMatches(p, hospitalId, status);
    if Truthy(hospitalId) && Truthy(status) {
      var h, s := hospitalId.value, status.value;
      FilterTwice(patients, (p: Patient) => p.hospital_id == h, (p: Patient) => p.status == s, matches);
    } else if Truthy(hospitalId) {
      var h := hospitalId.value;
      FilterCongruent(patients, (p: Patient) => p.hospital_id == h, matches);
    } else if Truthy(status) {
      var s := status.value;
      FilterCongruent(patients, (p: Patient) => p.status == s, matches);
    } else {
      FilterKeepsAll(patients, matches);
    }
  }

  /** A patients request answers exactly the stored patients that pass every
      given filter, in stored order. */
  lemma PatientsRequest(q: Query, files: Fixtures)
    requires q.kind == Some("patients") && files.patients.Loaded?
    ensures var r := Get(q, files); var all := files.patients.records;
      && r.status == 200 && r.body.PatientList?
      && r.body.patients == Filter(all, (p: Patient) => PatientMatches(p, q.hospitalId, q.status))
      && IsSubsequence(r.body.patients, all)
      && forall p :: p in r.body.patients <==> p in all && PatientMatches(p, q.hospitalId, q.status)
  {
    var all := files.patients.records;
    FilterPatientsIsConjunction(all, q.hospitalId, q.status);
    FilterIsSubsequence(all, (p: Patient) => PatientMatches(p, q.hospitalId, q.status));
  }

  /** A missing and an empty filter parameter both mean "no filter". */
  lemma EmptyFilterIsNoFilter(q: Query, files: Fixtures)
    requires q.hospitalId.Some? ==> q.hospitalId.value == ""
    requires q.status.Some? ==> q.status.value == ""
    requires q.kind == Some("patients") && files.patients.Loaded?
    ensures Get(q, files) == Response(200, PatientList(files.patients.records))
  {
    FilterKeepsAll(files.patients.records, (p: Patient) => PatientMatches(p, q.hospitalId, q.status));
    FilterPatientsIsConjunction(files.patients.records, q.hospitalId, q.status);
  }

  /** `id` plays no part in a patients request. */
  lemma PatientsIgnoreId(q: Query, id: Option<string>, files: Fixtures)
    requires q.kind == Some("patients")
    ensures Get(q.(id := id), files) == Get(q, files)
  {
  }

  /** With a truthy `id`, a hospitals request answers the first hospital with
      that id, or null when none has it. */
  lemma HospitalLookup(q: Query, files: Fixtures)
    requires q.kind == Some("hospitals") && files.hospitals.Loaded? && Truthy(q.id)
    ensures var r := Get(q, files); var all := files.hospitals.records;
      && r.status == 200 && r.body.OneHospital?
      && (r.body.hospital.None? <==> forall i :: 0 <= i < |all| ==> all[i].id != q.id.value)
      && (r.body.hospital.Some? ==>
            exists k :: 0 <= k < |all| && all[k] == r.body.hospital.value && all[k].id == q.id.value
                        && forall i :: 0 <= i < k ==> all[i].id != q.id.value)
  {
  }

  /** Without a truthy `id`, a hospitals request answers the whole list. */
  lemma HospitalsWithoutId(q: Query, files: Fixtures)
    requires q.kind == Some("hospitals") && files.hospitals.Loaded? && !Truthy(q.id)
    ensures Get(q, files) == Response(200, HospitalList(files.hospitals.records))
  {
  }

  /** With a truthy `id`, an NGOs request answers the first NGO with that id,
      or null when none has it. */
  lemma NgoLookup(q: Query, files: Fixtures)
    requires q.kind == Some("ngos") && files.ngos.Loaded? && Truthy(q.id)
    ensures var r := Get(q, files); var all := files.ngos.records;
      && r.status == 200 && r.body.OneNgo?
      && (r.body.ngo.None? <==> forall i :: 0 <= i < |all| ==> all[i].id != q.id.value)
      && (r.body.ngo.Some? ==>
            exists k :: 0 <= k < |all| && all[k] == r.body.ngo.value && all[k].id == q.id.value
                        && forall i :: 0 <= i < k ==> all[i].id != q.id.value)
  {
  }

  /** Without a truthy `id`, an NGOs request answers the whole list. */
  lemma NgosWithoutId(q: Query, files: Fixtures)
    requires q.kind == Some("ngos") && files.ngos.Loaded? && !Truthy(q.id)
    ensures Get(q, files) == Response(200, NgoList(files.ngos.records))
  {
  }

  /** An unknown or missing type is refused before any fixture is read: the
      answer does not depend on the fixtures at all. */
  lemma UnknownKindReadsNothing(q: Query, files: Fixtures, other: Fixtures)
    requires !KnownKind(q.kind)
    ensures Get(q, files) == Get(q, other) == Response(400, Error(InvalidType))
  {
  }

  /** Only the fixture of the requested type is read: the other two do not
      affect the answer. */
  lemma OnlyRequestedFixtureRead(q: Query, files: Fixtures, other: Fixtures)
    requires q.kind == Some("patients") ==> files.patients == other.patients
    requires q.kind == Some("hospitals") ==> files.hospitals == other.hospitals
    requires q.kind == Some("ngos") ==> files.ngos == other.ngos
    ensures Get(q, files) == Get(q, other)
  {
  }
}
