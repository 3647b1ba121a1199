/** The source-system mapper of `src/udm_mapper.py`: vendor records (Epic,
    Cerner, anything else) are renamed into the canonical patient shape, with
    dates standardised to ISO 8601 and gender codes normalised to the FHIR
    AdministrativeGender value set. */
module SourceMapper {
  import opened Wrappers
  import opened Text
  import opened Dates
  import opened Fhir

  /** A raw EHR record: field name to its (string) value. */
  type RawRecord = map<string, string>

  /** `record.get(key)`. */
  function Get(raw: RawRecord, key: string): (r: Option<string>)
    ensures r.Some? <==> key in raw
    ensures r.Some? ==> r.value == raw[key]
  {
    if key in raw then Some(raw[key]) else None
  }

  // ---------------------------------------------------------------------------
  // Mapping rules
  // ---------------------------------------------------------------------------

  /** Vendor field name to canonical field name, per entity. */
  type RuleSet = map<string, map<string, string>>

  const EpicPatientRules: map<string, string> := map[
    "PAT_MRN" := "id",
    "BIRTH_DATE" := "birthDate",
    "SEX" := "gender",
    "RACE" := "race",
    "ETHNICITY" := "ethnicity"
  ]

  const EpicConditionRules: map<string, string> := map[
    "PROBLEM_LIST" := "Condition",
    "DIAGNOSIS" := "Condition"
  ]

  const CernerPatientRules: map<string, string> := map[
    "PATIENT_ID" := "id",
    "DOB" := "birthDate",
    "GENDER" := "gender"
  ]

  const GenericPatientRules: map<string, string> := map[
    "id" := "id",
    "birth_date" := "birthDate",
    "birthdate" := "birthDate",
    "gender" := "gender",
    "sex" := "gender"
  ]

  /** `_get_epic_mapping_rules`. */
  const EpicRules: RuleSet := map["patient" := EpicPatientRules, "condition" := EpicConditionRules]

  /** `_get_cerner_mapping_rules`. */
  const CernerRules: RuleSet := map["patient" := CernerPatientRules]

  /** `_get_generic_mapping_rules`. */
  const GenericRules: RuleSet := map["patient" := GenericPatientRules]

  /** `_load_mapping_rules`: the three registered rule sets. */
  function LoadMappingRules(): (rules: map<string, RuleSet>)
    ensures rules.Keys == {"epic", "cerner", "generic"}
    ensures rules["epic"] == EpicRules && rules["cerner"] == CernerRules && rules["generic"] == GenericRules
  {
    map["epic" := EpicRules, "cerner" := CernerRules, "generic" := GenericRules]
  }

  const MappingRules: map<string, RuleSet> := LoadMappingRules()

  // ---------------------------------------------------------------------------
  // Canonical records
  // ---------------------------------------------------------------------------

  /** `{"text": ...}`. */
  datatype CodeText = CodeText(text: string)

  /** The canonical patient dict. `race` and `ethnicity` are `None` when the
      key is absent (Cerner, generic) and `Some(None)` when it holds None. */
  datatype UdmPatient = UdmPatient(
    resourceType: string,
    id: Option<string>,
    birthDate: Option<string>,
    gender: string,
    race: Option<Option<CodeText>>,
    ethnicity: Option<Option<CodeText>>)

  /** `{"patient": {...}}`. */
  datatype UdmRecord = UdmRecord(patient: UdmPatient)

  // ---------------------------------------------------------------------------
  // _standardize_date
  // ---------------------------------------------------------------------------

  /** The four patterns `_standardize_date` tries: `%Y-%m-%d`, `%m/%d/%Y`,
      `%d/%m/%Y` and `%Y%m%d`, read at their fixed widths. */
  datatype DateFormat = IsoDash | MonthFirstSlash | DayFirstSlash | Compact

  const DateFormats: seq<DateFormat> := [IsoDash, MonthFirstSlash, DayFirstSlash, Compact]

  /** `YYYY-MM-DD` with digits. */
  predicate IsoDashShape(s: string) {
    |s| == 10 && s[4] == '-' && s[7] == '-' && AllDigits(s[..4]) && AllDigits(s[5..7]) && AllDigits(s[8..])
  }

  /** `NN/NN/YYYY` with digits. */
  predicate SlashShape(s: string) {
    |s| == 10 && s[2] == '/' && s[5] == '/' && AllDigits(s[..2]) && AllDigits(s[3..5]) && AllDigits(s[6..])
  }

  /** `strptime(s, fmt)`: the date the pattern reads, if the whole string
      matches and names a real date. */
  function ParseWithFormat(s: string, fmt: DateFormat): (r: Option<Date>)
    ensures r.Some? ==> IsValidDate(r.value)
  {
    match fmt
    case IsoDash => if IsoDashShape(s) then DateFromDigits(s[..4], s[5..7], s[8..]) else None
    case MonthFirstSlash => if SlashShape(s) then DateFromDigits(s[6..], s[..2], s[3..5]) else None
    case DayFirstSlash => if SlashShape(s) then DateFromDigits(s[6..], s[3..5], s[..2]) else None
    case Compact => if |s| == 8 && AllDigits(s) then DateFromDigits(s[..4], s[4..6], s[6..]) else None
  }

  /** The date read by the first pattern that matches. */
  function FirstMatch(s: string, formats: seq<DateFormat>): (r: Option<Date>)
    ensures r.Some? <==> exists i :: 0 <= i < |formats| && ParseWithFormat(s, formats[i]).Some?
    ensures r.Some? ==> exists i ::
      && 0 <= i < |formats|
      && ParseWithFormat(s, formats[i]) == r
      && forall j :: 0 <= j < i ==> ParseWithFormat(s, formats[j]).None?
    decreases |formats|
  {
    if |formats| == 0 then None
    else
      var parsed := ParseWithFormat(s, formats[0]);
      if parsed.Some? then
        assert ParseWithFormat(s, formats[0]) == parsed;
        parsed
      else
        var rest := FirstMatch(s, formats[1..]);
        assert forall i :: 1 <= i < |formats| ==> formats[i] == formats[1..][i - 1];
        rest
  }

  /** `_standardize_date`: none for a falsy input or when no pattern
      matches; otherwise the first match rendered `YYYY-MM-DD`. */
  function StandardizeDate(date: Option<string>): (r: Option<string>)
    ensures !Truthy(date) ==> r.None?
    ensures Truthy(date) ==> (r.Some? <==> FirstMatch(date.value, DateFormats).Some?)
    ensures r.Some? ==> IsIsoDateText(r.value)
    ensures r.Some? ==> r.value == IsoDate(FirstMatch(date.value, DateFormats).value)
  {
    if !Truthy(date) then None
    else match FirstMatch(date.value, DateFormats)
      case Some(d) => IsoDateReadsBack(d); Some(IsoDate(d))
      case None => None
  }

  /** A valid date's rendering is read back by the first pattern. */
  lemma IsoDashReadsIsoDate(d: Date)
    requires IsValidDate(d)
    ensures ParseWithFormat(IsoDate(d), IsoDash) == Some(d)
  {
    IsoDateReadsBack(d);
  }

  /** `_standardize_date` is idempotent: its output is returned unchanged. */
  lemma StandardizeDateIdempotent(date: Option<string>)
    requires StandardizeDate(date).Some?
    ensures StandardizeDate(StandardizeDate(date)) == StandardizeDate(date)
  {
    var d := FirstMatch(date.value, DateFormats).value;
    var s := IsoDate(d);
    assert IsValidDate(d);
    IsoDashReadsIsoDate(d);
    assert DateFormats[0] == IsoDash;
    assert FirstMatch(s, DateFormats) == Some(d);
  }

  /** A slash date is read month-first whenever that reading is a real date,
      so an ambiguous `03/04/2020` is March 4. */
  lemma SlashDateIsMonthFirst(s: string)
    requires ParseWithFormat(s, MonthFirstSlash).Some?
    ensures StandardizeDate(Some(s)) == Some(IsoDate(ParseWithFormat(s, MonthFirstSlash).value))
  {
    assert !IsoDashShape(s) by {
      assert s[4] != '-' by { assert s[4] == s[3..5][1]; }
    }
    assert DateFormats[0] == IsoDash && DateFormats[1] == MonthFirstSlash;
    assert DateFormats[1..][0] == MonthFirstSlash;
  }

  /** A slash date whose first part is not a month is read day-first. */
  lemma SlashDateFallsBackToDayFirst(s: string)
    requires ParseWithFormat(s, MonthFirstSlash).None? && ParseWithFormat(s, DayFirstSlash).Some?
    ensures StandardizeDate(Some(s)) == Some(IsoDate(ParseWithFormat(s, DayFirstSlash).value))
  {
    assert !IsoDashShape(s) by {
      assert s[4] != '-' by { assert s[4] == s[3..5][1]; }
    }
    assert DateFormats[0] == IsoDash && DateFormats[1..][1..][0] == DayFirstSlash;
  }

  /** No pattern matches, so none. */
  lemma UnparseableDate(s: string)
    requires forall i :: 0 <= i < |DateFormats| ==> ParseWithFormat(s, DateFormats[i]).None?
    ensures StandardizeDate(Some(s)) == None
  {
  }

  /** `%m/%d/%Y` reads `03/04/2020` as March 4, 2020. */
  lemma MonthFirstReading()
    ensures ParseWithFormat("03/04/2020", MonthFirstSlash) == Some(Date(2020, 3, 4))
  {
    var s := "03/04/2020";
    assert s[6..] == "2020" && s[..2] == "03" && s[3..5] == "04";
    NumberValueOfFour("2020");
    NumberValueOfTwo("03");
    NumberValueOfTwo("04");
    assert SlashShape(s);
  }

  // Proof helpers for the example lemmas below: the zero-padded parts of
  // the example dates, one fact each, so that no example evaluates Pad itself.
  lemma Pad2020() ensures Pad(2020, 4) == "2020" {}
  lemma Pad1990() ensures Pad(1990, 4) == "1990" {}
  lemma Pad01() ensures Pad(1, 2) == "01" {}
  lemma Pad03() ensures Pad(3, 2) == "03" {}
  lemma Pad04() ensures Pad(4, 2) == "04" {}
  lemma Pad15() ensures Pad(15, 2) == "15" {}

  /** March 4, 2020 renders as `2020-03-04`. */
  lemma RenderMarchFourth()
    ensures IsoDate(Date(2020, 3, 4)) == "2020-03-04"
  {
    Pad2020();
    Pad03();
    Pad04();
  }

  /** An ambiguous `03/04/2020` is March 4. */
  lemma MonthFirstExample()
    ensures StandardizeDate(Some("03/04/2020")) == Some("2020-03-04")
  {
    MonthFirstReading();
    SlashDateIsMonthFirst("03/04/2020");
    RenderMarchFourth();
  }

  /** `%m/%d/%Y` rejects `15/01/1990`: there is no month 15. */
  lemma NoMonthFifteen()
    ensures ParseWithFormat("15/01/1990", MonthFirstSlash) == None
  {
    var s := "15/01/1990";
    assert s[..2] == "15";
    NumberValueOfTwo("15");
  }

  /** `%d/%m/%Y` reads `15/01/1990` as January 15, 1990. */
  lemma DayFirstReading()
    ensures ParseWithFormat("15/01/1990", DayFirstSlash) == Some(Date(1990, 1, 15))
  {
    var s := "15/01/1990";
    assert s[6..] == "1990" && s[3..5] == "01" && s[..2] == "15";
    NumberValueOfFour("1990");
    NumberValueOfTwo("01");
    NumberValueOfTwo("15");
    assert SlashShape(s);
  }

  /** January 15, 1990 renders as `1990-01-15`. */
  lemma RenderJanuaryFifteenth()
    ensures IsoDate(Date(1990, 1, 15)) == "1990-01-15"
  {
    Pad1990();
    Pad01();
    Pad15();
  }

  /** `15/01/1990` has no month 15 and is read as January 15. */
  lemma DayFirstExample()
    ensures StandardizeDate(Some("15/01/1990")) == Some("1990-01-15")
  {
    NoMonthFifteen();
    DayFirstReading();
    SlashDateFallsBackToDayFirst("15/01/1990");
    RenderJanuaryFifteenth();
  }

  /** `%Y-%m-%d` reads `1990-01-15` as January 15, 1990. */
  lemma IsoReading()
    ensures ParseWithFormat("1990-01-15", IsoDash) == Some(Date(1990, 1, 15))
  {
    var s := "1990-01-15";
    assert s[..4] == "1990" && s[5..7] == "01" && s[8..] == "15";
    NumberValueOfFour("1990");
    NumberValueOfTwo("01");
    NumberValueOfTwo("15");
    assert IsoDashShape(s);
  }

  /** An ISO date is kept as it is. */
  lemma IsoExample()
    ensures StandardizeDate(Some("1990-01-15")) == Some("1990-01-15")
  {
    IsoReading();
    assert DateFormats[0] == IsoDash;
    RenderJanuaryFifteenth();
  }


  // ---------------------------------------------------------------------------
  // Gender, race and ethnicity
  // ---------------------------------------------------------------------------

  /** The `gender_map` of `_map_gender_code`. */
  const GenderTable: map<string, string> := map[
    "M" := "male",
    "F" := "female",
    "U" := "unknown",
    "O" := "other",
    "male" := "male",
    "female" := "female",
    "unknown" := "unknown",
    "other" := "other"
  ]

  /** `str(value)` of a string or None. */
  function PyStr(o: Option<string>): string {
    if o.Some? then o.value else "None"
  }

  /** `_map_gender_code`: the upper-cased code looked up in the table,
      default "unknown". */
  function MapGenderCode(code: Option<string>): (g: string)
    ensures g in AdministrativeGender
  {
    var key := Upper(PyStr(code));
    if key in GenderTable then GenderTable[key] else "unknown"
  }

  /** An upper-cased string is one of the table's letters only when the input
      is that letter in either case; it is never one of the full words. */
  lemma UpperTableKey(s: string)
    ensures Upper(s) == "M" <==> s == "M" || s == "m"
    ensures Upper(s) == "F" <==> s == "F" || s == "f"
    ensures Upper(s) == "O" <==> s == "O" || s == "o"
    ensures Upper(s) == "U" <==> s == "U" || s == "u"
    ensures Upper(s) !in {"male", "female", "unknown", "other"}
  {
    var u := Upper(s);
    if |s| == 1 {
      assert u == [UpperChar(s[0])];
    }
    if |s| > 0 {
      assert u[0] == UpperChar(s[0]);
    }
  }

  /** Only the single letters m, f, o (in either case) name a gender other
      than "unknown"; full words such as "male" and None give "unknown". */
  lemma GenderCodeMeaning(code: Option<string>)
    ensures MapGenderCode(code) == "male" <==> code == Some("M") || code == Some("m")
    ensures MapGenderCode(code) == "female" <==> code == Some("F") || code == Some("f")
    ensures MapGenderCode(code) == "other" <==> code == Some("O") || code == Some("o")
    ensures MapGenderCode(code) == "unknown" <==>
      !(code.Some? && code.value in {"M", "m", "F", "f", "O", "o"})
  {
    var key := Upper(PyStr(code));
    UpperTableKey(PyStr(code));
    if key in GenderTable {
      assert key == "M" || key == "F" || key == "U" || key == "O";
    }
    if code.None? {
      assert Upper("None")[0] == 'N';
    }
  }

  /** `_map_race_code` and `_map_ethnicity_code`: none for a falsy code,
      otherwise `{"text": code}`. */
  function MapCodeText(code: Option<string>): (r: Option<CodeText>)
    ensures r.None? <==> !Truthy(code)
    ensures r.Some? ==> r.value.text == code.value
  {
    if !Truthy(code) then None else Some(CodeText(code.value))
  }

  // ---------------------------------------------------------------------------
  // Vendor mappers and dispatch
  // ---------------------------------------------------------------------------

  /** `_map_epic_to_udm`. */
  function MapEpicToUdm(raw: RawRecord): (r: UdmRecord)
    ensures r.patient.resourceType == "Patient"
    ensures r.patient.id == Get(raw, "PAT_MRN")
    ensures r.patient.birthDate == StandardizeDate(Get(raw, "BIRTH_DATE"))
    ensures r.patient.gender == MapGenderCode(Get(raw, "SEX"))
    ensures r.patient.race == Some(MapCodeText(Get(raw, "RACE")))
    ensures r.patient.ethnicity == Some(MapCodeText(Get(raw, "ETHNICITY")))
  {
    UdmRecord(UdmPatient(
      "Patient",
      Get(raw, "PAT_MRN"),
      StandardizeDate(Get(raw, "BIRTH_DATE")),
      MapGenderCode(Get(raw, "SEX")),
      Some(MapCodeText(Get(raw, "RACE"))),
      Some(MapCodeText(Get(raw, "ETHNICITY")))))
  }

  /** `_map_cerner_to_udm`: no race or ethnicity keys. */
  function MapCernerToUdm(raw: RawRecord): (r: UdmRecord)
    ensures r.patient.resourceType == "Patient"
    ensures r.patient.id == Get(raw, "PATIENT_ID")
    ensures r.patient.birthDate == StandardizeDate(Get(raw, "DOB"))
    ensures r.patient.gender == MapGenderCode(Get(raw, "GENDER"))
    ensures r.patient.race.None? && r.patient.ethnicity.None?
  {
    UdmRecord(UdmPatient(
      "Patient",
      Get(raw, "PATIENT_ID"),
      StandardizeDate(Get(raw, "DOB")),
      MapGenderCode(Get(raw, "GENDER")),
      None,
      None))
  }

  /** `_map_generic_to_udm`: the first truthy of each pair of alternatives. */
  function MapGenericToUdm(raw: RawRecord): (r: UdmRecord)
    ensures r.patient.resourceType == "Patient"
    ensures r.patient.id == Or(Get(raw, "id"), Get(raw, "patient_id"))
    ensures r.patient.birthDate == StandardizeDate(Or(Get(raw, "birth_date"), Get(raw, "birthdate")))
    ensures r.patient.gender == MapGenderCode(Or(Get(raw, "gender"), Get(raw, "sex")))
    ensures r.patient.race.None? && r.patient.ethnicity.None?
  {
    UdmRecord(UdmPatient(
      "Patient",
      Or(Get(raw, "id"), Get(raw, "patient_id")),
      StandardizeDate(Or(Get(raw, "birth_date"), Get(raw, "birthdate"))),
      MapGenderCode(Or(Get(raw, "gender"), Get(raw, "sex"))),
      None,
      None))
  }

  /** The rule set `map_ehr_to_udm` uses: the registered name itself, else "generic". */
  function SelectRuleSet(sourceSystem: string): (name: string)
    ensures name in MappingRules
    ensures sourceSystem in MappingRules ==> name == sourceSystem
    ensures sourceSystem !in MappingRules ==> name == "generic"
  {
    if sourceSystem in MappingRules then sourceSystem else "generic"
  }

  /** `map_ehr_to_udm`: dispatch to `_map_<name>_to_udm`. */
  function MapEhrToUdm(raw: RawRecord, sourceSystem: string): (r: UdmRecord)
    ensures r.patient.resourceType == "Patient"
    ensures r.patient.gender in AdministrativeGender
  {
    match SelectRuleSet(sourceSystem)
    case "epic" => MapEpicToUdm(raw)
    case "cerner" => MapCernerToUdm(raw)
    case _ => MapGenericToUdm(raw)
  }

  /** Each registered name reaches its own routine; every other name is
      mapped as generic. */
  lemma DispatchBySourceSystem(raw: RawRecord, sourceSystem: string)
    ensures sourceSystem == "epic" ==> MapEhrToUdm(raw, sourceSystem) == MapEpicToUdm(raw)
    ensures sourceSystem == "cerner" ==> MapEhrToUdm(raw, sourceSystem) == MapCernerToUdm(raw)
    ensures sourceSystem != "epic" && sourceSystem != "cerner" ==>
      MapEhrToUdm(raw, sourceSystem) == MapGenericToUdm(raw)
  {
  }

  /** Two records agree on the given fields. */
  predicate AgreeOn(raw1: RawRecord, raw2: RawRecord, fields: set<string>) {
    forall k :: k in fields ==> Get(raw1, k) == Get(raw2, k)
  }

  /** The Epic mapper reads exactly the vendor fields its patient rules name. */
  lemma EpicReadsItsRuleFields(raw1: RawRecord, raw2: RawRecord)
    requires AgreeOn(raw1, raw2, EpicPatientRules.Keys)
    ensures MapEpicToUdm(raw1) == MapEpicToUdm(raw2)
  {
    var keys := EpicPatientRules.Keys;
    assert "PAT_MRN" in keys && "BIRTH_DATE" in keys && "SEX" in keys && "RACE" in keys && "ETHNICITY" in keys;
  }

  /** The Cerner mapper reads exactly the vendor fields its patient rules name. */
  lemma CernerReadsItsRuleFields(raw1: RawRecord, raw2: RawRecord)
    requires AgreeOn(raw1, raw2, CernerPatientRules.Keys)
    ensures MapCernerToUdm(raw1) == MapCernerToUdm(raw2)
  {
    var keys := CernerPatientRules.Keys;
    assert "PATIENT_ID" in keys && "DOB" in keys && "GENDER" in keys;
  }

  /** The generic mapper reads its rule fields and also `patient_id`, which
      its rule table does not list. */
  lemma GenericReadsItsRuleFields(raw1: RawRecord, raw2: RawRecord)
    requires AgreeOn(raw1, raw2, GenericPatientRules.Keys + {"patient_id"})
    ensures MapGenericToUdm(raw1) == MapGenericToUdm(raw2)
  {
    var keys := GenericPatientRules.Keys + {"patient_id"};
    assert "id" in keys && "patient_id" in keys && "birth_date" in keys && "birthdate" in keys;
    assert "gender" in keys && "sex" in keys;
  }

  /** The Epic record of the mapper tests: id TEST123, gender male, the ISO
      date kept, and race and ethnicity present but None. */
  lemma EpicExample()
    ensures var p := MapEhrToUdm(map["PAT_MRN" := "TEST123", "BIRTH_DATE" := "1990-01-15", "SEX" := "M"], "epic").patient;
      && p.id == Some("TEST123")
      && p.gender == "male"
      && p.birthDate == Some("1990-01-15")
      && p.race == Some(None) && p.ethnicity == Some(None)
  {
    var raw := map["PAT_MRN" := "TEST123", "BIRTH_DATE" := "1990-01-15", "SEX" := "M"];
    DispatchBySourceSystem(raw, "epic");
    assert Get(raw, "PAT_MRN") == Some("TEST123") && Get(raw, "SEX") == Some("M");
    assert Get(raw, "BIRTH_DATE") == Some("1990-01-15");
    assert Get(raw, "RACE") == None && Get(raw, "ETHNICITY") == None;
    IsoExample();
    GenderCodeMeaning(Some("M"));
  }
}
