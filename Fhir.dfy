/** The HL7 FHIR R4 resource shapes the engine produces and reads back, as
    plain values: only the elements the engine touches. An element that the
    source leaves out of the constructed resource is `None`. */
module Fhir {
  import opened Wrappers

  /** The AdministrativeGender value set bound to Patient.gender. */
  const AdministrativeGender: set<string> := {"male", "female", "other", "unknown"}

  /** The UCUM system URI used on every Quantity. */
  const UcumSystem: string := "http://unitsofmeasure.org"

  datatype Coding = Coding(system: string, code: string, display: string)

  datatype CodeableConcept = CodeableConcept(coding: seq<Coding>, text: string)

  datatype Reference = Reference(reference: string)

  datatype HumanName = HumanName(text: Option<string>, given: seq<string>, family: Option<string>)

  datatype ContactPoint = ContactPoint(system: string, value: string)

  datatype Address = Address(line: seq<string>, city: string, state: string, postalCode: string)

  /** A measured value; `value` stands for the Python float or int. */
  datatype Quantity = Quantity(value: real, unit: string, system: string)

  datatype Patient = Patient(
    id: Option<string>,
    name: Option<seq<HumanName>>,
    gender: Option<string>,
    birthDate: Option<string>,
    telecom: Option<seq<ContactPoint>>,
    address: Option<seq<Address>>)

  datatype Condition = Condition(
    id: Option<string>,
    subject: Option<Reference>,
    code: Option<CodeableConcept>,
    onsetDateTime: Option<string>,
    abatementDateTime: Option<string>)

  datatype Observation = Observation(
    id: Option<string>,
    status: string,
    subject: Option<Reference>,
    code: Option<CodeableConcept>,
    valueQuantity: Option<Quantity>,
    valueString: Option<string>,
    effectiveDateTime: Option<string>)

  datatype Resource =
    | PatientResource(patient: Patient)
    | ConditionResource(condition: Condition)
    | ObservationResource(observation: Observation)

  /** A Bundle; every bundle the engine builds has type "transaction". */
  datatype Bundle = Bundle(bundleType: string, entry: seq<Resource>)

  /** `"Patient/<id>"`, the reference the engine puts in every subject. */
  function PatientReference(patientId: string): Reference {
    Reference("Patient/" + patientId)
  }
}
