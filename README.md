# Healthcare data standardization core, modelled in Dafny

This project models the standards core of a healthcare data platform. The
core has four parts:

- the terminology mapper (`src/healthcare_standards.py`): code translation
  between ICD-10, SNOMED CT, LOINC, CPT and RxNorm, display texts, FHIR
  system URIs and CodeableConcept construction;
- the HL7 v2 converter (`src/hl7v2_converter.py`): it splits a pipe-delimited
  message into segments and turns PID, OBX and DG1 segments into a FHIR R4
  transaction Bundle of one Patient, Observations and Conditions;
- the source mapper (`src/udm_mapper.py`): it maps Epic, Cerner and generic
  EHR patient records to the canonical data model, standardizing dates to
  `YYYY-MM-DD` and genders to the FHIR AdministrativeGender value set;
- the canonical-to-FHIR projector (`src/udm_mapper_enhanced.py`): it
  projects canonical patient, condition and observation records to FHIR and
  back, and assembles transaction bundles.

Modules:

| module | contents |
|---|---|
| `Wrappers` | `Option` |
| `Text` | Python string operations the core relies on: truthiness, `or`, `strip`, `split`/`join` on one character, ASCII `upper`/`lower`, digit strings and zero padding |
| `Dates` | calendar dates, validity (leap years), ISO rendering |
| `Fhir` | the FHIR R4 resource shapes the core builds and reads, as values |
| `Terminology` | `HealthcareStandardsMapper` |
| `Hl7v2` | `HL7v2Parser` and `HL7v2ToFHIRConverter` |
| `SourceMapper` | `UDMMapper` |
| `Projector` | `EnhancedUDMMapper` |

The mappers hold only tables fixed at construction, so they are constants
and functions. The loops of `parse_message`, `convert_message` and
`create_fhir_bundle` are `while` loops in methods. Each method is proved
equal to a recursive specification function, and the properties are proved
about those functions.

Some behaviour of the code is kept as written and stated by a lemma:
- `Terminology.SystolicDisplayIsSentinel`: systolic blood pressure (`8480-6`)
  is in the observation table but not in the display table, so its display
  is the "Unknown" sentinel.
- `Terminology.ObservationCodesPassThrough`: `map_code` never reads the
  observation table.
- `SourceMapper.GenderCodeMeaning`: the full-word keys of the gender table
  (`male`, `female`, ...) can never match, because the looked-up key
  is upper-cased first.
- `Hl7v2.BlankLinesRecorded`: a blank line of an HL7 message is recorded
  under the segment id "". The `if not parts` guard cannot fire, since a
  split always yields at least one part.
- `Projector.BundleHasNoPatients`: the projector's bundle drops patient
  records.

## Model

| member | source | states |
|---|---|---|
| Terminology.LoadCommonMappings | src/healthcare_standards.py:24-41 | the quick-lookup tables have exactly the categories "conditions" and "observations" |
| Terminology.ConditionsTable | src/healthcare_standards.py:27-34 | the conditions crosswalk holds exactly the four entries J45, 195967001, I10 and 38341003, each with its counterpart and display |
| Terminology.ConditionsAreBidirectional | src/healthcare_standards.py:27-34 | every conditions entry has a display, and every translation points to an entry with the same display |
| Terminology.GetDisplay | src/healthcare_standards.py:101-111 | the display text is never empty |
| Terminology.DisplaySentinel | src/healthcare_standards.py:101-111 | the display is the "Unknown <system> code: <code>" sentinel exactly when the code is not in the table; a table code has the same display under every system |
| Terminology.SystolicDisplayIsSentinel | src/healthcare_standards.py:101-111 | the display of 8480-6 is the sentinel under any system |
| Terminology.GetSystemUri | src/healthcare_standards.py:69-78 | registered identifiers give their URI; the result equals the input exactly when the identifier is unregistered |
| Terminology.MapIcd10 | src/healthcare_standards.py:80-83 | the code comes back unchanged under "icd10" with its display, whatever the source |
| Terminology.MapSnomed | src/healthcare_standards.py:85-87 | the code comes back unchanged under "snomed" with its display, whatever the source |
| Terminology.MapLoinc | src/healthcare_standards.py:89-91 | the code comes back unchanged under "loinc" with its display, whatever the source |
| Terminology.MapCpt | src/healthcare_standards.py:93-95 | the code comes back unchanged under "cpt" with its display, whatever the source |
| Terminology.MapRxnorm | src/healthcare_standards.py:97-99 | the code comes back unchanged under "rxnorm" with its display, whatever the source |
| Terminology.TerminologyService | src/healthcare_standards.py:13-19 | a resolver exists exactly for the five registered targets, and each echoes the code under the target with its display |
| Terminology.MapCode | src/healthcare_standards.py:43-61 | none exactly for a falsy code, or for a cross-system request with neither a crosswalk hit nor a registered target; any answer is labelled with the target; a same-system request echoes the code |
| Terminology.CrosswalkTranslation | src/healthcare_standards.py:52-54 | a crosswalk hit returns the entry's code and display |
| Terminology.CrosswalkIsMutualInverse | src/healthcare_standards.py:27-34 | every crosswalk translation is undone by translating back to the system it came from |
| Terminology.HypertensionToSnomed | src/healthcare_standards.py:32 | I10 maps from ICD-10 to SNOMED CT 38341003 "Hypertension" |
| Terminology.TableMiss | src/healthcare_standards.py:56-61 | without a crosswalk hit, a registered target echoes a nonempty code and an unregistered one gives none |
| Terminology.ObservationCodesPassThrough | src/healthcare_standards.py:52-59 | observation-table codes are not translated |
| Terminology.CreateFhirCodeableConcept | src/healthcare_standards.py:63-67 | one coding with the code, the system URI, and the supplied display if truthy (else the table display); the text repeats that display |
| Hl7v2.MessageLines | src/hl7v2_converter.py:22 | a message always yields at least one line |
| Hl7v2.SplitFields | src/hl7v2_converter.py:26-28 | a line always yields at least one field, so the empty-parts guard never fires |
| Hl7v2.Occurrences | src/hl7v2_converter.py:30-34 | every recorded occurrence has at least its segment id |
| Hl7v2.GroupLinesMeaning | src/hl7v2_converter.py:25-34 | the grouping records exactly the segment ids of the lines, and under each id the field lists of its lines in message order |
| Hl7v2.OccurrencesOfAbsentTag | src/hl7v2_converter.py:31-34 | an id that no line carries has no occurrences |
| Hl7v2.ParseMessage | src/hl7v2_converter.py:20-36 | the loop computes the grouping of the stripped message's lines |
| Hl7v2.ParsedSegmentsMeaning | src/hl7v2_converter.py:20-36 | the parse's keys are the segment ids of the message's lines, and each value lists that id's lines in order |
| Hl7v2.TotalOccurrencesRecord | src/hl7v2_converter.py:31-34 | appending one line adds exactly one occurrence in total |
| Hl7v2.GroupLinesTotal | src/hl7v2_converter.py:25-34 | the occurrences across all ids number exactly the lines |
| Hl7v2.ParsedOccurrencesCountLines | src/hl7v2_converter.py:20-36 | no line of a message is lost or duplicated by the parse |
| Hl7v2.OccurrencesRejoin | src/hl7v2_converter.py:26-34 | joining each occurrence's fields with the field separator gives back its line |
| Hl7v2.BlankLinesRecorded | src/hl7v2_converter.py:26-34 | a blank line is recorded as `[""]` under the id "" |
| Hl7v2.TaggedLinesContain | src/hl7v2_converter.py:30-34 | every line is among the lines of its own segment id |
| Hl7v2.OccurrenceFields | src/hl7v2_converter.py:26-34 | the k-th occurrence of an id is the field split of the k-th line with that id |
| Hl7v2.EmptyMessage | src/hl7v2_converter.py:22-36 | the empty message parses to one blank segment under "" |
| Hl7v2.ParseHl7Date | src/hl7v2_converter.py:93-108 | a result exactly when the text has eight leading digits naming a real calendar date |
| Hl7v2.Hl7DateLayout | src/hl7v2_converter.py:98-104 | the result is `YYYY-MM-DDT00:00:00` built from those digits; anything after them is ignored |
| Hl7v2.PidGender | src/hl7v2_converter.py:52-54 | M, F, O and U are kept; any other code becomes U |
| Hl7v2.PidName | src/hl7v2_converter.py:45-50 | the `"<given> <family>"` text has no surrounding whitespace; its value is given by PidNameFamilyOnly for one component and PidNameComponents for two or more |
| Hl7v2.PidNameComponents | src/hl7v2_converter.py:45-50 | with two or more components, the name is the stripped `"<component 1> <component 0>"`, either part possibly empty, later components ignored |
| Hl7v2.MiddleInitialIgnored | src/hl7v2_converter.py:45-50 | `Doe^John^Q` gives "John Doe" |
| Hl7v2.PidNameOrder | src/hl7v2_converter.py:45-50 | `family^given` gives "given family" |
| Hl7v2.PidNameFamilyOnly | src/hl7v2_converter.py:46-50 | a name without components gives the stripped family name |
| Hl7v2.ParsePidSegment | src/hl7v2_converter.py:38-59 | each element is present exactly when its field index exists; id, name, birth date and gender come from fields 3, 5, 7 and 8, the name through PidName and the gender through PidGender |
| Hl7v2.ParseObxSegment | src/hl7v2_converter.py:61-77 | code (first component of field 3), value, unit and effective date are each present exactly when their field exists |
| Hl7v2.ParseDg1Segment | src/hl7v2_converter.py:79-91 | code and description from the components of field 3 (description "" when there is one component), diagnosis date from field 5 |
| Hl7v2.Hl7GenderToFhir | src/hl7v2_converter.py:164-166 | the FHIR gender is male, female or other exactly for M, F or O, and unknown exactly for every other code, U included |
| Hl7v2.CreateFhirPatient | src/hl7v2_converter.py:154-171 | id is the PID id or the timestamped default; name, gender and birth date each appear exactly when parsed; the name is the text-only HumanName and the gender is the Hl7GenderToFhir word of the PID code |
| Hl7v2.PidGenderToFhir | src/hl7v2_converter.py:164-166 | end to end from PID-8: M, F and O give male, female and other, and any other field gives unknown |
| Hl7v2.CreateFhirObservation | src/hl7v2_converter.py:173-203 | subject and status "final"; a LOINC code; a value gives a UCUM quantity exactly when it reads as a float, else its text; the effective time appears only when truthy |
| Hl7v2.CreateFhirCondition | src/hl7v2_converter.py:205-230 | subject; a code exactly when DG1 has one; onset exactly when the diagnosis date is truthy |
| Hl7v2.DiagnosisCodeUnderSnomed | src/hl7v2_converter.py:213-225 | a nonempty diagnosis code always becomes a SNOMED CT coding; only the empty code falls back to ICD-10 with the description |
| Hl7v2.HypertensionDiagnosis | src/hl7v2_converter.py:213-221 | DG1 code I10 becomes SNOMED CT 38341003 "Hypertension" |
| Hl7v2.ObservationEntriesAt | src/hl7v2_converter.py:133-137 | the k-th observation entry is built from the k-th OBX occurrence |
| Hl7v2.ConditionEntriesAt | src/hl7v2_converter.py:140-144 | the k-th condition entry is built from the k-th DG1 occurrence |
| Hl7v2.AppendObservations | src/hl7v2_converter.py:133-137 | the OBX loop appends one Observation per occurrence, in order |
| Hl7v2.AppendConditions | src/hl7v2_converter.py:140-144 | the DG1 loop appends one Condition per occurrence, in order |
| Hl7v2.ConvertSegments | src/hl7v2_converter.py:123-152 | the bundle is a transaction: the Patient of the first PID, then the observations, then the conditions |
| Hl7v2.ConvertMessage | src/hl7v2_converter.py:118-152 | the bundle is that of the parsed message |
| Hl7v2.ConvertedLayout | src/hl7v2_converter.py:123-144 | the entry count is one per PID-bearing message, plus the OBX and DG1 occurrences; the Patient comes first |
| Hl7v2.ConvertedObservations | src/hl7v2_converter.py:130-137 | right after the optional Patient come exactly the OBX observations, in order, built with the Patient's id, or "unknown" without PID |
| Hl7v2.ConvertedConditions | src/hl7v2_converter.py:130-144 | after the Patient and the observations, the rest of the bundle is exactly the DG1 conditions, in order, built with the same subject id |
| Hl7v2.ConvertedEntryCount | src/hl7v2_converter.py:118-144 | end to end: the entry count is the PID flag plus the number of OBX and DG1 lines in the message |
| Dates.DateFromDigits | src/hl7v2_converter.py:100-103 | a date exactly when the digit groups name a real calendar date |
| Dates.IsoDate | src/udm_mapper.py:130 | ten characters: the year in four zero-padded digits, '-', the month in two, '-', the day in two |
| Dates.IsoDateReadsBack | src/udm_mapper.py:130 | the rendering of a valid date has the ISO shape and reads back as that date |
| Dates.IsoDateOfDigits | src/udm_mapper.py:129-130 | a date read from four and two and two digits renders as those digits |
| SourceMapper.LoadMappingRules | src/udm_mapper.py:27-33 | the rule sets are exactly epic, cerner and generic, each its vendor table |
| SourceMapper.ParseWithFormat | src/udm_mapper.py:127-130 | whatever a format reads is a real calendar date |
| SourceMapper.FirstMatch | src/udm_mapper.py:127-132 | a result exactly when some format reads the text, and it is the reading of the first format that does |
| SourceMapper.StandardizeDate | src/udm_mapper.py:120-137 | none for a falsy input; otherwise a result exactly when a format reads it, and then the YYYY-MM-DD rendering of the first format's reading |
| SourceMapper.IsoDashReadsIsoDate | src/udm_mapper.py:127-130 | the first format reads back every date rendered by the output format |
| SourceMapper.StandardizeDateIdempotent | src/udm_mapper.py:120-137 | standardizing a standardized date changes nothing |
| SourceMapper.SlashDateIsMonthFirst | src/udm_mapper.py:127 | an ambiguous slash date is read month first |
| SourceMapper.SlashDateFallsBackToDayFirst | src/udm_mapper.py:127-132 | a slash date that is not month-first is read day first |
| SourceMapper.UnparseableDate | src/udm_mapper.py:133-134 | a text no format reads gives none |
| SourceMapper.MonthFirstExample | src/udm_mapper.py:127-130 | "03/04/2020" becomes "2020-03-04" |
| SourceMapper.DayFirstExample | src/udm_mapper.py:127-132 | "15/01/1990" becomes "1990-01-15" |
| SourceMapper.IsoExample | src/udm_mapper.py:127-130 | "1990-01-15" is kept |
| SourceMapper.MapGenderCode | src/udm_mapper.py:139-151 | the result is always in AdministrativeGender |
| SourceMapper.UpperTableKey | src/udm_mapper.py:151 | the upper-cased key is M, F, O or U exactly for that letter in either case, and never a full word |
| SourceMapper.GenderCodeMeaning | src/udm_mapper.py:139-151 | male, female and other exactly for M, F and O in either case; every other code, None included, gives unknown |
| SourceMapper.MapCodeText | src/udm_mapper.py:153-163 | none exactly for a falsy code, else the code as text |
| SourceMapper.MapEpicToUdm | src/udm_mapper.py:84-94 | the Epic fields read into the patient, with the date and gender standardized |
| SourceMapper.MapCernerToUdm | src/udm_mapper.py:96-104 | the Cerner fields read into the patient, without race or ethnicity |
| SourceMapper.MapGenericToUdm | src/udm_mapper.py:106-118 | each element from the first truthy of its alternative keys |
| SourceMapper.SelectRuleSet | src/udm_mapper.py:77-79 | a known source system picks its own rules, any other the generic ones |
| SourceMapper.MapEhrToUdm | src/udm_mapper.py:73-82 | every mapped record is a Patient with an AdministrativeGender |
| SourceMapper.DispatchBySourceSystem | src/udm_mapper.py:77-82 | epic and cerner choose their mapper, every other system the generic one |
| SourceMapper.EpicReadsItsRuleFields | src/udm_mapper.py:37-44 | the Epic result depends only on the fields its patient rules name |
| SourceMapper.CernerReadsItsRuleFields | src/udm_mapper.py:54-58 | the Cerner result depends only on the fields its patient rules name |
| SourceMapper.GenericReadsItsRuleFields | src/udm_mapper.py:106-118 | the generic result depends only on its rule fields plus `patient_id` |
| SourceMapper.EpicExample | src/udm_mapper.py:84-94 | TEST123 born 1990-01-15, sex M, maps to a male patient with that date and empty race and ethnicity |
| Projector.ForwardGender | src/udm_mapper_enhanced.py:37-39 | the FHIR gender is in AdministrativeGender |
| Projector.ForwardGenderMeaning | src/udm_mapper_enhanced.py:37-39 | male, female and other exactly for M, F and O; every other code, U included, gives unknown |
| Projector.Telecom | src/udm_mapper_enhanced.py:45-55 | one contact point per truthy value and no other, none empty; phone and email each present exactly when truthy; phone first |
| Projector.FhirAddress | src/udm_mapper_enhanced.py:57-67 | one line, with every missing part defaulting to "" |
| Projector.UdmToFhirPatient | src/udm_mapper_enhanced.py:25-69 | the id is the patient id; name, gender, telecom and address each appear exactly when their key does; the gender is ForwardGender of the code, the telecom list is Telecom of the contact and the address list is the one FhirAddress |
| Projector.ConditionCode | src/udm_mapper_enhanced.py:82-93 | SNOMED CT coding when map_code answers, else the code under its own system |
| Projector.IdOrDefault | src/udm_mapper_enhanced.py:77 | the stored id when the key is present, None included, else the prefix followed by the timestamp (also line 111 for observations) |
| Projector.UdmToFhirCondition | src/udm_mapper_enhanced.py:71-103 | id or the timestamped default, the patient subject, the code mapped with system default icd10, onset and abatement copied |
| Projector.ConditionCodeUnderSnomed | src/udm_mapper_enhanced.py:86-93 | a nonempty condition code always ends up under SNOMED CT, whatever its system |
| Projector.AsthmaCondition | src/udm_mapper_enhanced.py:71-103 | J45 under icd10 for p-001 becomes SNOMED CT 195967001 "Asthma" with subject Patient/p-001 |
| Projector.UdmToFhirObservation | src/udm_mapper_enhanced.py:105-138 | id or default, status "final", the patient subject, a LOINC code with the record's display, the effective time copied |
| Projector.ObservationValueKind | src/udm_mapper_enhanced.py:122-132 | exactly one value kind when a value is present: a number becomes a UCUM quantity, anything else its text |
| Projector.BloodPressureObservation | src/udm_mapper_enhanced.py:105-138 | 85354-9 at 120 mmHg becomes a "Blood pressure panel" quantity of 120 mmHg |
| Projector.ReverseGender | src/udm_mapper_enhanced.py:166-168 | the result is M, F, O or U |
| Projector.ReverseGenderMeaning | src/udm_mapper_enhanced.py:166-168 | M, F and O exactly for male, female and other; every other value, unknown included, gives U |
| Projector.JoinTruthy | src/udm_mapper_enhanced.py:162-164 | the truthy parts joined by one space, "" when there are none |
| Projector.NameText | src/udm_mapper_enhanced.py:161-164 | the name text when nonempty, else the first given and the family name joined |
| Projector.FhirPatientToUdm | src/udm_mapper_enhanced.py:154-173 | type patient with the id; name exactly when a name exists; gender and birth date exactly when truthy |
| Projector.IdFromReference | src/udm_mapper_enhanced.py:180 | the id after the last slash contains no slash |
| Projector.ReferenceRoundTrip | src/udm_mapper_enhanced.py:180 | the subject id comes back from `Patient/<id>` exactly when the id has no slash |
| Projector.ParseSystemFromUri | src/udm_mapper_enhanced.py:213-222 | registered URIs give their identifier; the result equals the input exactly when the URI is unregistered |
| Projector.UriTablesAreInverse | src/udm_mapper_enhanced.py:215-221 | the URI table is the exact inverse of the system URI table |
| Projector.SystemUriRoundTrip | src/udm_mapper_enhanced.py:213-222 | identifier to URI and back is the identity, except on the five URIs themselves |
| Projector.UriSystemRoundTrip | src/udm_mapper_enhanced.py:213-222 | URI to identifier and back is the identity, except on the five identifiers themselves |
| Projector.SubjectPatientId | src/udm_mapper_enhanced.py:180 | an id exactly when there is a subject |
| Projector.FhirConditionToUdm | src/udm_mapper_enhanced.py:175-192 | type condition with the id and subject id; code, system and display from the first coding when there is one; onset exactly when truthy |
| Projector.FhirObservationToUdm | src/udm_mapper_enhanced.py:194-211 | type observation with the id and subject id; code and display from the first coding; value and unit exactly when there is a quantity |
| Projector.FhirToUdm | src/udm_mapper_enhanced.py:140-149 | the record type is patient, condition or observation after the resource type |
| Projector.DispatchByResourceType | src/udm_mapper_enhanced.py:140-149 | a Patient, Condition or Observation gives exactly the output of its own reverse mapper |
| Projector.PatientRoundTrip | src/udm_mapper_enhanced.py:154-173 | forward then back keeps the id and the name, the gender when M, F, O or U (any other becomes U), and a nonempty birth date |
| Projector.JaneDoeRoundTrip | src/udm_mapper_enhanced.py:25-69 | Jane Doe gets her id, name, female gender and both contact points, and reads back to the same id, name, gender and birth date |
| Projector.ConditionRoundTrip | src/udm_mapper_enhanced.py:175-192 | forward then back: subject id kept exactly when it has no slash, a nonempty code returns under snomed, a nonempty onset is kept |
| Projector.ObservationRoundTrip | src/udm_mapper_enhanced.py:194-211 | forward then back keeps a numeric value and its unit, and loses a text value |
| Projector.CreateFhirBundle | src/udm_mapper_enhanced.py:224-246 | the loop builds the transaction bundle of the bundle-entry specification |
| Projector.BundleEntriesAreKeptProjections | src/udm_mapper_enhanced.py:228-238 | one entry per condition or observation record, in input order, each its projection |
| Projector.BundleHasNoPatients | src/udm_mapper_enhanced.py:228-236 | no bundle entry is a Patient |
| Projector.SkippedRecord | src/udm_mapper_enhanced.py:235-236 | a record of any other type adds nothing |
| Projector.PatientRecordSkipped | src/udm_mapper_enhanced.py:229-236 | a patient record is skipped |
| Projector.KindIgnoresCase | src/udm_mapper_enhanced.py:229 | the type is matched after lower-casing |

## Left out

- Timestamps from `datetime.now()` are the `clock` parameter. One value serves a whole call, so two default ids made in one call are equal in the model.
- Python's `float()` on OBX values is the `toFloat` parameter, with none standing for `ValueError`. A `real` cannot hold what `float()` returns for "nan", "inf" or "-inf"; such values, which the code turns into a `valueQuantity`, are outside the model.
- Python numbers are `real`. Integer versus float, and `bool` as an int, are not distinguished.
- FHIR library behaviour is not modelled: pydantic validation, `construct`, and `BundleEntry` wrapping (an entry is its resource).
- `fhir_to_udm`'s generic fallback (`resource_type` and `dict()`) is left out, because the resource type admits only Patient, Condition and Observation.
- `supported_resources` is left out; no operation reads it.
- HL7 v2 escape sequences, repetitions (`~`) and the encoding characters of MSH-2 are not modelled; like the code, the model splits on fixed one-character separators.
- Input dictionaries hold one value type per key. A vendor record (`SourceMapper.RawRecord`) maps keys to strings. A canonical record (`Projector.Record`) holds strings, except `contact` and `address` (dicts of strings), `value` (a number, or anything else given by its `str()`) and `id`, which may also hold None. A value of another type under a key, such as a number where a string is expected or None under a key other than `id`, is not modelled. Dicts the code builds with None under a present key use a nested Option: the PID birth date, the OBX and DG1 dates, and the Epic race and ethnicity.
- `datetime.strptime` is modelled for zero-padded two-digit fields and ASCII digits only. Its acceptance of one-digit months and days, and of non-ASCII digits, is left out.
- Hl7v2.ParseHl7Date: the year, month and day groups must be ASCII digits. Python's `int()` also accepts a sign, surrounding whitespace, underscores between digits and non-ASCII decimal digits; a group such as `"+020"` or `" 3"` gives a date in the code and None in the model.
- SourceMapper.StandardizeDateIdempotent and SourceMapper.IsoDashReadsIsoDate hold for years 1 to 999 only because the model's `strftime("%Y")` pads the year to four digits. glibc prints year 999 as "999", so there `_standardize_date("0999-01-01")` gives "999-01-01", and standardizing that again gives None.
- `str.upper`/`str.lower` are modelled on ASCII letters. For the keys compared here ("M", "condition", ...) this agrees with Python's Unicode rules. `str.strip` uses Python's full whitespace set.
- Logging, the logical-model CSV (`_load_logical_model`, `get_entity_attributes`), the HTTP client import, the data pipeline and the machine-learning module are not part of this model.
- The global singleton instances are not modelled; each module's functions take their tables as constants.
- Hl7v2.ConvertMessage: its loops live in `AppendObservations` and `AppendConditions`, and the part after parsing in `ConvertSegments`; together they state the same result as one method.
- Projector.UdmToFhirPatient: the name element is modelled as a FHIR HumanName with only text, where the code passes a dict to `construct`.
