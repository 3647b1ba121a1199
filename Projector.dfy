/** The canonical-to-FHIR projector of `src/udm_mapper_enhanced.py`:
    canonical patient, condition and observation records are projected to
    FHIR R4 Patient, Condition and Observation resources and back, system
    URIs are reversed, and records are assembled into transaction bundles. */
module Projector {
  import opened Wrappers
  import opened Text
  import opened Fhir
  import opened Terminology

  // ---------------------------------------------------------------------------
  // Canonical records
  // ---------------------------------------------------------------------------

  datatype Contact = Contact(phone: Option<string>, email: Option<string>)

  datatype PostalAddress = PostalAddress(
    street: Option<string>,
    city: Option<string>,
    state: Option<string>,
    zip: Option<string>)

  /** A canonical observation value: a Python int or float, or anything else
      (held as its `str()`). */
  datatype Value = Number(n: real) | Text(s: string)

  /** A canonical dict. Each field is `None` when the key is absent. `id` is
      `Some(None)` when the key holds None; every other key is read with
      `get` (where absent and None agree) or holds a non-None value. */
  datatype Record = Record(
    recordType: Option<string>,
    id: Option<Option<string>>,
    patientId: Option<string>,
    name: Option<string>,
    gender: Option<string>,
    birthDate: Option<string>,
    contact: Option<Contact>,
    address: Option<PostalAddress>,
    code: Option<string>,
    system: Option<string>,
    display: Option<string>,
    value: Option<Value>,
    unit: Option<string>,
    onsetDate: Option<string>,
    abatementDate: Option<string>,
    effectiveDateTime: Option<string>)

  const EmptyRecord: Record :=
    Record(None, None, None, None, None, None, None, None, None, None, None, None, None, None, None, None)

  // ---------------------------------------------------------------------------
  // Canonical to FHIR
  // ---------------------------------------------------------------------------

  /** The forward gender table `{"M", "F", "O"}`, default "unknown". */
  function ForwardGender(g: string): (r: string)
    ensures r in AdministrativeGender
  {
    var genderMap := map["M" := "male", "F" := "female", "O" := "other"];
    if g in genderMap then genderMap[g] else "unknown"
  }

  /** The telecom list: phone then email, only those with a truthy value. */
  function Telecom(c: Contact): (t: seq<ContactPoint>)
    ensures |t| == (if Truthy(c.phone) then 1 else 0) + (if Truthy(c.email) then 1 else 0)
    ensures forall i :: 0 <= i < |t| ==> t[i].value != ""
    ensures ContactPoint("phone", c.phone.GetOr("")) in t <==> Truthy(c.phone)
    ensures ContactPoint("email", c.email.GetOr("")) in t <==> Truthy(c.email)
    ensures Truthy(c.phone) ==> t[0] == ContactPoint("phone", c.phone.value)
  {
    var phone: seq<ContactPoint> := if Truthy(c.phone) then [ContactPoint("phone", c.phone.value)] else [];
    var email: seq<ContactPoint> := if Truthy(c.email) then [ContactPoint("email", c.email.value)] else [];
    phone + email
  }

  /** The single address, every missing part defaulting to "". */
  function FhirAddress(a: PostalAddress): (r: Address)
    ensures r.line == [a.street.GetOr("")]
    ensures r.city == a.city.GetOr("") && r.state == a.state.GetOr("") && r.postalCode == a.zip.GetOr("")
  {
    Address([a.street.GetOr("")], a.city.GetOr(""), a.state.GetOr(""), a.zip.GetOr(""))
  }

  /** `udm_to_fhir_patient`: each element only when its key is present. */
  function UdmToFhirPatient(r: Record): (p: Patient)
    ensures p.id == r.patientId
    ensures p.name.Some? <==> r.name.Some?
    ensures r.name.Some? ==> p.name.value == [HumanName(r.name, [], None)]
    ensures p.gender.Some? <==> r.gender.Some?
    ensures p.gender.Some? ==> p.gender.value in AdministrativeGender
    ensures r.gender.Some? ==> p.gender.value == ForwardGender(r.gender.value)
    ensures p.birthDate == r.birthDate
    ensures p.telecom.Some? <==> r.contact.Some?
    ensures r.contact.Some? ==> p.telecom.value == Telecom(r.contact.value)
    ensures p.address.Some? <==> r.address.Some?
    ensures r.address.Some? ==> p.address.value == [FhirAddress(r.address.value)]
  {
    Patient(
      r.patientId,
      if r.name.Some? then Some([HumanName(Some(r.name.value), [], None)]) else None,
      if r.gender.Some? then Some(ForwardGender(r.gender.value)) else None,
      if r.birthDate.Some? then Some(r.birthDate.value) else None,
      if r.contact.Some? then Some(Telecom(r.contact.value)) else None,
      if r.address.Some? then Some([FhirAddress(r.address.value)]) else None)
  }

  /** Only M, F and O keep their meaning; any other code, U included,
      becomes "unknown". */
  lemma ForwardGenderMeaning(g: string)
    ensures ForwardGender(g) == "male" <==> g == "M"
    ensures ForwardGender(g) == "female" <==> g == "F"
    ensures ForwardGender(g) == "other" <==> g == "O"
    ensures ForwardGender(g) == "unknown" <==> g !in {"M", "F", "O"}
  {
  }

  /** The default id `udm_record.get("id", "<prefix><timestamp>")`; `clock`
      stands for the timestamp. */
  function IdOrDefault(id: Option<Option<string>>, prefix: string, clock: string): (r: Option<string>)
    ensures id.None? ==> r == Some(prefix + clock)
    ensures id.Some? ==> r == id.value
  {
    if id.Some? then id.value else Some(prefix + clock)
  }

  /** The condition code: mapped toward SNOMED CT when `map_code` answers,
      else left under its own system without a display. */
  function ConditionCode(code: string, system: string): (cc: CodeableConcept)
    ensures MapCode(Some(code), system, "snomed").Some? ==>
      var m := MapCode(Some(code), system, "snomed").value;
      cc == CreateFhirCodeableConcept(m.code, "snomed", Some(m.display))
    ensures MapCode(Some(code), system, "snomed").None? ==> cc == CreateFhirCodeableConcept(code, system, None)
  {
    var mapped := MapCode(Some(code), system, "snomed");
    if mapped.Some? then CreateFhirCodeableConcept(mapped.value.code, "snomed", Some(mapped.value.display))
    else CreateFhirCodeableConcept(code, system, None)
  }

  /** `udm_to_fhir_condition`. */
  function UdmToFhirCondition(r: Record, patientId: string, clock: string): (c: Condition)
    ensures c.id == IdOrDefault(r.id, "cond-", clock)
    ensures c.subject == Some(PatientReference(patientId))
    ensures c.code.Some? <==> r.code.Some?
    ensures r.code.Some? ==> c.code.value == ConditionCode(r.code.value, r.system.GetOr("icd10"))
    ensures c.onsetDateTime == r.onsetDate && c.abatementDateTime == r.abatementDate
  {
    Condition(
      IdOrDefault(r.id, "cond-", clock),
      Some(PatientReference(patientId)),
      if r.code.Some? then Some(ConditionCode(r.code.value, r.system.GetOr("icd10"))) else None,
      if r.onsetDate.Some? then Some(r.onsetDate.value) else None,
      if r.abatementDate.Some? then Some(r.abatementDate.value) else None)
  }

  /** A nonempty condition code always lands under SNOMED CT, whatever its
      system: `map_code` toward a registered target never answers none, so
      the unmapped branch is taken only for an empty code. */
  lemma ConditionCodeUnderSnomed(code: string, system: string)
    requires code != ""
    ensures ConditionCode(code, system).coding[0].system == "http://snomed.info/sct"
  {
    if system != "snomed" && !CrosswalkHit(code, "snomed") {
      TableMiss(code, system, "snomed");
    }
  }

  /** The condition of the projector tests: J45 under ICD-10 becomes SNOMED CT
      195967001 "Asthma" for `Patient/p-001`. */
  lemma AsthmaCondition()
    ensures var c := UdmToFhirCondition(
        EmptyRecord.(id := Some(Some("c1")), code := Some("J45"), system := Some("icd10"), onsetDate := Some("2020-01-01")),
        "p-001", "0");
      && c.id == Some("c1")
      && c.subject == Some(Reference("Patient/p-001"))
      && c.code.value.coding == [Coding("http://snomed.info/sct", "195967001", "Asthma")]
      && c.onsetDateTime == Some("2020-01-01")
  {
    assert MapCode(Some("J45"), "icd10", "snomed") == Some(MappedCode("195967001", "snomed", "Asthma"));
    assert "Patient/" + "p-001" == "Patient/p-001";
  }

  /** `udm_to_fhir_observation`. */
  function UdmToFhirObservation(r: Record, patientId: string, clock: string): (o: Observation)
    ensures o.id == IdOrDefault(r.id, "obs-", clock)
    ensures o.status == "final" && o.subject == Some(PatientReference(patientId))
    ensures o.code.Some? <==> r.code.Some?
    ensures r.code.Some? ==> o.code.value == CreateFhirCodeableConcept(r.code.value, "loinc", r.display)
    ensures o.effectiveDateTime == r.effectiveDateTime
  {
    var quantity := if r.value.Some? && r.value.value.Number? then
      Some(Quantity(r.value.value.n, r.unit.GetOr(""), UcumSystem)) else None;
    var text := if r.value.Some? && r.value.value.Text? then Some(r.value.value.s) else None;
    Observation(
      IdOrDefault(r.id, "obs-", clock),
      "final",
      Some(PatientReference(patientId)),
      if r.code.Some? then Some(CreateFhirCodeableConcept(r.code.value, "loinc", r.display)) else None,
      quantity,
      text,
      if r.effectiveDateTime.Some? then Some(r.effectiveDateTime.value) else None)
  }

  /** Exactly one value kind when a value is present, none otherwise: a
      number gives a UCUM quantity (unit default ""), anything else its text. */
  lemma ObservationValueKind(r: Record, patientId: string, clock: string)
    ensures var o := UdmToFhirObservation(r, patientId, clock);
      && (r.value.None? ==> o.valueQuantity.None? && o.valueString.None?)
      && (r.value.Some? ==> (o.valueQuantity.Some? <==> o.valueString.None?))
      && (r.value.Some? && r.value.value.Number? ==>
            o.valueQuantity == Some(Quantity(r.value.value.n, r.unit.GetOr(""), UcumSystem)))
      && (r.value.Some? && r.value.value.Text? ==> o.valueString == Some(r.value.value.s))
  {
  }

  /** The observation of the projector tests: LOINC 85354-9 at 120 mmHg for
      `Patient/p-001`, displayed from the table as "Blood pressure panel". */
  lemma BloodPressureObservation()
    ensures var o := UdmToFhirObservation(
        EmptyRecord.(id := Some(Some("o1")), code := Some("85354-9"), value := Some(Number(120.0)),
                     unit := Some("mmHg"), effectiveDateTime := Some("2024-01-01T12:00:00")),
        "p-001", "0");
      && o.id == Some("o1")
      && o.subject == Some(Reference("Patient/p-001"))
      && o.code.value.coding == [Coding("http://loinc.org", "85354-9", "Blood pressure panel")]
      && o.valueQuantity == Some(Quantity(120.0, "mmHg", UcumSystem))
      && o.valueString.None?
      && o.effectiveDateTime == Some("2024-01-01T12:00:00")
  {
    assert "Patient/" + "p-001" == "Patient/p-001";
  }

  // ---------------------------------------------------------------------------
  // FHIR to canonical
  // ---------------------------------------------------------------------------

  /** The reverse gender table, default "U". */
  function ReverseGender(g: string): (r: string)
    ensures r in {"M", "F", "O", "U"}
  {
    var genderReverse := map["male" := "M", "female" := "F", "other" := "O", "unknown" := "U"];
    if g in genderReverse then genderReverse[g] else "U"
  }

  /** male, female, other and unknown become M, F, O and U; any other
      value becomes U as well. */
  lemma ReverseGenderMeaning(g: string)
    ensures ReverseGender(g) == "M" <==> g == "male"
    ensures ReverseGender(g) == "F" <==> g == "female"
    ensures ReverseGender(g) == "O" <==> g == "other"
    ensures ReverseGender(g) == "U" <==> g !in {"male", "female", "other"}
  {
  }

  /** `" ".join(filter(None, [a, b]))`. */
  function JoinTruthy(a: Option<string>, b: Option<string>): (s: string)
    ensures !Truthy(a) && !Truthy(b) ==> s == ""
    ensures Truthy(a) && !Truthy(b) ==> s == a.value
    ensures !Truthy(a) && Truthy(b) ==> s == b.value
    ensures Truthy(a) && Truthy(b) ==> s == a.value + " " + b.value
  {
    if Truthy(a) && Truthy(b) then a.value + " " + b.value
    else if Truthy(a) then a.value
    else if Truthy(b) then b.value
    else ""
  }

  /** The canonical name of a FHIR name: its text when nonempty, else the
      nonempty parts of the first given name and the family name. */
  function NameText(h: HumanName): (s: string)
    ensures Truthy(h.text) ==> s == h.text.value
    ensures !Truthy(h.text) ==> s == JoinTruthy(if |h.given| > 0 then Some(h.given[0]) else None, h.family)
  {
    if Truthy(h.text) then h.text.value
    else JoinTruthy(if |h.given| > 0 then Some(h.given[0]) else None, h.family)
  }

  /** `_fhir_patient_to_udm`. */
  function FhirPatientToUdm(p: Patient): (r: Record)
    ensures r.recordType == Some("patient") && r.patientId == p.id
    ensures r.name.Some? <==> p.name.Some? && |p.name.value| > 0
    ensures r.name.Some? ==> r.name.value == NameText(p.name.value[0])
    ensures r.gender.Some? <==> Truthy(p.gender)
    ensures r.gender.Some? ==> r.gender.value == ReverseGender(p.gender.value)
    ensures r.birthDate.Some? <==> Truthy(p.birthDate)
    ensures r.birthDate.Some? ==> r.birthDate == p.birthDate
  {
    EmptyRecord.(
      recordType := Some("patient"),
      patientId := p.id,
      name := if p.name.Some? && |p.name.value| > 0 then Some(NameText(p.name.value[0])) else None,
      gender := if Truthy(p.gender) then Some(ReverseGender(p.gender.value)) else None,
      birthDate := if Truthy(p.birthDate) then Some(p.birthDate.value) else None)
  }

  /** Python's `reference.split("/")[-1]`. */
  function IdFromReference(reference: string): (id: string)
    ensures '/' !in id
  {
    Last(Split(reference, '/'))
  }

  /** The id after the last `/` comes back exactly when it has no `/` itself. */
  lemma ReferenceRoundTrip(patientId: string)
    ensures IdFromReference(PatientReference(patientId).reference) == patientId <==> '/' !in patientId
  {
    assert PatientReference(patientId).reference == "Patient" + ['/'] + patientId;
    LastAfterSeparator("Patient", patientId, '/');
    if '/' !in patientId {
      SplitWithoutSeparator(patientId, '/');
    }
  }

  /** `_parse_system_from_uri`'s table, URI to system identifier. */
  const UriSystems: map<string, string> := map[
    "http://hl7.org/fhir/sid/icd-10-cm" := "icd10",
    "http://snomed.info/sct" := "snomed",
    "http://loinc.org" := "loinc",
    "http://www.ama-assn.org/go/cpt" := "cpt",
    "http://www.nlm.nih.gov/research/umls/rxnorm" := "rxnorm"
  ]

  /** `_parse_system_from_uri`: the system identifier of a registered URI,
      else the URI itself. */
  function ParseSystemFromUri(uri: string): (r: string)
    ensures uri in UriSystems ==> r == UriSystems[uri]
    ensures r == uri <==> uri !in UriSystems
  {
    if uri in UriSystems then UriSystems[uri] else uri
  }

  /** The two tables are inverse to each other. */
  lemma UriTablesAreInverse()
    ensures forall s :: s in SystemUris ==> SystemUris[s] in UriSystems && UriSystems[SystemUris[s]] == s
    ensures forall u :: u in UriSystems ==> UriSystems[u] in SystemUris && SystemUris[UriSystems[u]] == u
  {
    forall s | s in SystemUris ensures SystemUris[s] in UriSystems && UriSystems[SystemUris[s]] == s {
      assert s == "icd10" || s == "snomed" || s == "loinc" || s == "cpt" || s == "rxnorm";
    }
    forall u | u in UriSystems ensures UriSystems[u] in SystemUris && SystemUris[UriSystems[u]] == u {
      assert u == "http://hl7.org/fhir/sid/icd-10-cm" || u == "http://snomed.info/sct" || u == "http://loinc.org"
        || u == "http://www.ama-assn.org/go/cpt" || u == "http://www.nlm.nih.gov/research/umls/rxnorm";
    }
  }

  /** URI of a system then back gives the system, unless the identifier is
      itself one of the registered URIs. */
  lemma SystemUriRoundTrip(system: string)
    ensures ParseSystemFromUri(GetSystemUri(system)) == system <==> system !in UriSystems
  {
    UriTablesAreInverse();
    if system in SystemUris {
      assert system == "icd10" || system == "snomed" || system == "loinc" || system == "cpt" || system == "rxnorm";
    }
  }

  /** System of a URI then back gives the URI, unless the string is itself one
      of the five system identifiers. */
  lemma UriSystemRoundTrip(uri: string)
    ensures GetSystemUri(ParseSystemFromUri(uri)) == uri <==> uri !in SystemUris
  {
    UriTablesAreInverse();
    if uri in SystemUris {
      assert uri == "icd10" || uri == "snomed" || uri == "loinc" || uri == "cpt" || uri == "rxnorm";
    }
  }

  /** The patient id of a subject reference, None without a subject. */
  function SubjectPatientId(subject: Option<Reference>): (r: Option<string>)
    ensures r.Some? <==> subject.Some?
    ensures r.Some? ==> r.value == IdFromReference(subject.value.reference)
  {
    if subject.Some? then Some(IdFromReference(subject.value.reference)) else None
  }

  /** `_fhir_condition_to_udm`. */
  function FhirConditionToUdm(c: Condition): (r: Record)
    ensures r.recordType == Some("condition") && r.id == Some(c.id)
    ensures r.patientId == SubjectPatientId(c.subject)
    ensures r.code.Some? <==> c.code.Some? && |c.code.value.coding| > 0
    ensures r.code.Some? ==> var coding := c.code.value.coding[0];
      r.code == Some(coding.code) && r.system == Some(ParseSystemFromUri(coding.system)) && r.display == Some(coding.display)
    ensures r.onsetDate.Some? <==> Truthy(c.onsetDateTime)
    ensures r.onsetDate.Some? ==> r.onsetDate == c.onsetDateTime
    ensures r.abatementDate.None?
  {
    var hasCoding := c.code.Some? && |c.code.value.coding| > 0;
    var coding := if hasCoding then c.code.value.coding[0] else Coding("", "", "");
    EmptyRecord.(
      recordType := Some("condition"),
      id := Some(c.id),
      patientId := SubjectPatientId(c.subject),
      code := if hasCoding then Some(coding.code) else None,
      system := if hasCoding then Some(ParseSystemFromUri(coding.system)) else None,
      display := if hasCoding then Some(coding.display) else None,
      onsetDate := if Truthy(c.onsetDateTime) then Some(c.onsetDateTime.value) else None)
  }

  /** `_fhir_observation_to_udm`: value and unit come only from valueQuantity. */
  function FhirObservationToUdm(o: Observation): (r: Record)
    ensures r.recordType == Some("observation") && r.id == Some(o.id)
    ensures r.patientId == SubjectPatientId(o.subject)
    ensures r.code.Some? <==> o.code.Some? && |o.code.value.coding| > 0
    ensures r.code.Some? ==> r.code == Some(o.code.value.coding[0].code) && r.display == Some(o.code.value.coding[0].display)
    ensures r.system.None?
    ensures r.value.Some? <==> o.valueQuantity.Some?
    ensures r.value.Some? ==> r.value == Some(Number(o.valueQuantity.value.value)) && r.unit == Some(o.valueQuantity.value.unit)
  {
    var hasCoding := o.code.Some? && |o.code.value.coding| > 0;
    var coding := if hasCoding then o.code.value.coding[0] else Coding("", "", "");
    EmptyRecord.(
      recordType := Some("observation"),
      id := Some(o.id),
      patientId := SubjectPatientId(o.subject),
      code := if hasCoding then Some(coding.code) else None,
      display := if hasCoding then Some(coding.display) else None,
      value := if o.valueQuantity.Some? then Some(Number(o.valueQuantity.value.value)) else None,
      unit := if o.valueQuantity.Some? then Some(o.valueQuantity.value.unit) else None)
  }

  /** `fhir_to_udm`: dispatch on the resource type. */
  function FhirToUdm(res: Resource): (r: Record)
    ensures res.PatientResource? ==> r.recordType == Some("patient")
    ensures res.ConditionResource? ==> r.recordType == Some("condition")
    ensures res.ObservationResource? ==> r.recordType == Some("observation")
  {
    match res
    case PatientResource(p) => FhirPatientToUdm(p)
    case ConditionResource(c) => FhirConditionToUdm(c)
    case ObservationResource(o) => FhirObservationToUdm(o)
  }

  /** Each resource type reaches its own reverse mapper. */
  lemma DispatchByResourceType(res: Resource)
    ensures res.PatientResource? ==> FhirToUdm(res) == FhirPatientToUdm(res.patient)
    ensures res.ConditionResource? ==> FhirToUdm(res) == FhirConditionToUdm(res.condition)
    ensures res.ObservationResource? ==> FhirToUdm(res) == FhirObservationToUdm(res.observation)
  {
  }

  // ---------------------------------------------------------------------------
  // Round trips
  // ---------------------------------------------------------------------------

  /** Forward then back preserves the patient id and the name, the gender
      when it is M, F, O or U (any other becomes U), and a nonempty birth
      date; an empty birth date is dropped. */
  lemma PatientRoundTrip(r: Record)
    ensures var back := FhirPatientToUdm(UdmToFhirPatient(r));
      && back.recordType == Some("patient")
      && back.patientId == r.patientId
      && back.name == r.name
      && (r.gender.Some? && r.gender.value in {"M", "F", "O", "U"} ==> back.gender == r.gender)
      && (r.gender.Some? && r.gender.value !in {"M", "F", "O", "U"} ==> back.gender == Some("U"))
      && (r.gender.None? ==> back.gender.None?)
      && (r.birthDate.Some? && r.birthDate.value != "" ==> back.birthDate == r.birthDate)
      && (r.birthDate.None? || r.birthDate.value == "" ==> back.birthDate.None?)
  {
  }

  /** The Jane Doe record of the projector tests. */
  const JaneDoe: Record := EmptyRecord.(
    patientId := Some("p-001"), name := Some("Jane Doe"), gender := Some("F"), birthDate := Some("1990-05-20"),
    contact := Some(Contact(Some("+15551234567"), Some("jane@example.com"))),
    address := Some(PostalAddress(Some("1 Health Way"), Some("City"), Some("ST"), Some("12345"))))

  /** Jane Doe projects with her id, name, gender and both contact points, and
      reads back with the same id, name, gender and birth date. */
  lemma JaneDoeRoundTrip()
    ensures UdmToFhirPatient(JaneDoe).id == Some("p-001")
    ensures UdmToFhirPatient(JaneDoe).name == Some([HumanName(Some("Jane Doe"), [], None)])
    ensures UdmToFhirPatient(JaneDoe).gender == Some("female")
    ensures UdmToFhirPatient(JaneDoe).telecom ==
      Some([ContactPoint("phone", "+15551234567"), ContactPoint("email", "jane@example.com")])
    ensures var back := FhirPatientToUdm(UdmToFhirPatient(JaneDoe));
      && back.patientId == Some("p-001") && back.name == Some("Jane Doe")
      && back.gender == Some("F") && back.birthDate == Some("1990-05-20")
  {
    var c := JaneDoe.contact.value;
    assert c.phone.value[0] == '+' && c.email.value[0] == 'j';
    assert Telecom(c) == [ContactPoint("phone", "+15551234567")] + [ContactPoint("email", "jane@example.com")];
    assert JaneDoe.name.value[0] == 'J' && JaneDoe.birthDate.value[0] == '1';
    var p := UdmToFhirPatient(JaneDoe);
    assert p.gender == Some("female") && p.gender.value[0] == 'f';
    assert NameText(p.name.value[0]) == "Jane Doe";
    assert p.telecom == Some(Telecom(c));
    assert Telecom(c) == [ContactPoint("phone", "+15551234567"), ContactPoint("email", "jane@example.com")];
  }

  /** Forward then back: the subject id returns when it has no `/`, a
      nonempty code comes back under "snomed", and a nonempty onset date
      is kept. */
  lemma ConditionRoundTrip(r: Record, patientId: string, clock: string)
    ensures var back := FhirConditionToUdm(UdmToFhirCondition(r, patientId, clock));
      && back.recordType == Some("condition")
      && back.id == Some(IdOrDefault(r.id, "cond-", clock))
      && (back.patientId == Some(patientId) <==> '/' !in patientId)
      && (r.code.Some? && r.code.value != "" ==> back.system == Some("snomed"))
      && (r.onsetDate.Some? && r.onsetDate.value != "" ==> back.onsetDate == r.onsetDate)
  {
    ReferenceRoundTrip(patientId);
    if r.code.Some? && r.code.value != "" {
      ConditionCodeUnderSnomed(r.code.value, r.system.GetOr("icd10"));
      UriTablesAreInverse();
      assert "snomed" in SystemUris;
    }
  }

  /** Forward then back keeps a numeric value and its unit; a text value is
      lost, since only valueQuantity is read back. */
  lemma ObservationRoundTrip(r: Record, patientId: string, clock: string)
    ensures var back := FhirObservationToUdm(UdmToFhirObservation(r, patientId, clock));
      && back.recordType == Some("observation")
      && (back.patientId == Some(patientId) <==> '/' !in patientId)
      && (r.value.Some? && r.value.value.Number? ==>
            back.value == r.value && back.unit == Some(r.unit.GetOr("")))
      && (r.value.None? || r.value.value.Text? ==> back.value.None?)
  {
    ReferenceRoundTrip(patientId);
  }

  // ---------------------------------------------------------------------------
  // create_fhir_bundle
  // ---------------------------------------------------------------------------

  /** `record.get("type", "").lower()`. */
  function RecordKind(r: Record): string {
    Lower(r.recordType.GetOr(""))
  }

  /** The records that produce an entry: conditions and observations. */
  predicate ProducesEntry(r: Record) {
    RecordKind(r) == "condition" || RecordKind(r) == "observation"
  }

  /** The resource a kept record projects to. */
  function ProjectRecord(r: Record, patientId: string, clock: string): Resource
    requires ProducesEntry(r)
  {
    if RecordKind(r) == "condition" then ConditionResource(UdmToFhirCondition(r, patientId, clock))
    else ObservationResource(UdmToFhirObservation(r, patientId, clock))
  }

  /** The kept records, in input order. */
  function KeptRecords(records: seq<Record>): (kept: seq<Record>)
    ensures |kept| <= |records|
    ensures forall k :: 0 <= k < |kept| ==> ProducesEntry(kept[k])
    decreases |records|
  {
    if |records| == 0 then []
    else
      var rest := KeptRecords(records[..|records| - 1]);
      if ProducesEntry(records[|records| - 1]) then rest + [records[|records| - 1]] else rest
  }

  /** The entries the bundle lists, one per kept record, in input order. */
  function BundleEntries(records: seq<Record>, patientId: string, clock: string): (entries: seq<Resource>)
    decreases |records|
  {
    if |records| == 0 then []
    else
      var rest := BundleEntries(records[..|records| - 1], patientId, clock);
      var last := records[|records| - 1];
      if ProducesEntry(last) then rest + [ProjectRecord(last, patientId, clock)] else rest
  }

  /** `create_fhir_bundle`. */
  method CreateFhirBundle(records: seq<Record>, patientId: string, clock: string) returns (bundle: Bundle)
    ensures bundle == Bundle("transaction", BundleEntries(records, patientId, clock))
  {
    var entries: seq<Resource> := [];
    var i := 0;
    while i < |records|
      invariant 0 <= i <= |records|
      invariant entries == BundleEntries(records[..i], patientId, clock)
    {
      var record := records[i];
      var recordType := Lower(record.recordType.GetOr(""));
      assert records[..i + 1][..i] == records[..i];
      if recordType == "condition" {
        var resource := ConditionResource(UdmToFhirCondition(record, patientId, clock));
        entries := entries + [resource];
      } else if recordType == "observation" {
        var resource := ObservationResource(UdmToFhirObservation(record, patientId, clock));
        entries := entries + [resource];
      } else {
        i := i + 1;
        continue;
      }
      i := i + 1;
    }
    assert records[..i] == records;
    bundle := Bundle("transaction", entries);
  }

  /** Entry k is the projection of the k-th kept record: input order is kept,
      and the count is the number of condition and observation records. */
  lemma {:induction false} BundleEntriesAreKeptProjections(records: seq<Record>, patientId: string, clock: string)
    ensures |BundleEntries(records, patientId, clock)| == |KeptRecords(records)|
    ensures forall k :: 0 <= k < |KeptRecords(records)| ==>
      BundleEntries(records, patientId, clock)[k] == ProjectRecord(KeptRecords(records)[k], patientId, clock)
    decreases |records|
  {
    if |records| > 0 {
      BundleEntriesAreKeptProjections(records[..|records| - 1], patientId, clock);
    }
  }

  /** A bundle holds no Patient: every entry is a Condition or an Observation. */
  lemma {:induction false} BundleHasNoPatients(records: seq<Record>, patientId: string, clock: string)
    ensures forall k :: 0 <= k < |BundleEntries(records, patientId, clock)| ==>
      !BundleEntries(records, patientId, clock)[k].PatientResource?
    decreases |records|
  {
    if |records| > 0 {
      BundleHasNoPatients(records[..|records| - 1], patientId, clock);
    }
  }

  /** A record of type "patient" (in any letter case), or of any type other
      than condition and observation, adds nothing to the bundle. */
  lemma SkippedRecord(records: seq<Record>, r: Record, patientId: string, clock: string)
    requires !ProducesEntry(r)
    ensures BundleEntries(records + [r], patientId, clock) == BundleEntries(records, patientId, clock)
  {
    assert (records + [r])[..|records|] == records;
  }

  /** A patient record is skipped. */
  lemma PatientRecordSkipped(r: Record)
    requires r.recordType == Some("patient")
    ensures !ProducesEntry(r)
  {
    assert RecordKind(r)[0] == 'p';
  }

  /** The type is matched after ASCII lower-casing: "Condition" counts. */
  lemma KindIgnoresCase(r: Record)
    requires r.recordType == Some("Condition")
    ensures RecordKind(r) == "condition"
  {
  }
}
