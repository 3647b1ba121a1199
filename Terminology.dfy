/** The terminology mapper of `src/healthcare_standards.py`: code translation
    through a static crosswalk with placeholder resolvers per target system,
    display text with a sentinel fallback, system URIs, and CodeableConcept
    construction. All tables are built once and never change, so the mapper is
    a set of constants and functions. */
module Terminology {
  import opened Wrappers
  import opened Text
  import opened Fhir

  /** The dictionary `map_code` returns: `{"code", "system", "display"}`. */
  datatype MappedCode = MappedCode(code: string, system: string, display: string)

  // ---------------------------------------------------------------------------
  // Tables
  // ---------------------------------------------------------------------------

  /** Every entry of a crosswalk category carries a display text, and each
      translation `c -> t: c'` is answered by an entry for `c'` that carries
      the same display. (That `c'` also translates back to `c` is
      CrosswalkIsMutualInverse.) */
  ghost predicate IsBidirectional(table: map<string, map<string, string>>) {
    && (forall c | c in table :: "display" in table[c])
    && (forall c, t | c in table && t in table[c] && t != "display" ::
          && table[c][t] in table
          && table[table[c][t]]["display"] == table[c]["display"])
  }

  /** The quick-lookup tables: a "conditions" crosswalk between ICD-10 and
      SNOMED CT and an "observations" table of LOINC display texts. */
  function LoadCommonMappings(): (m: map<string, map<string, map<string, string>>>)
    ensures m.Keys == {"conditions", "observations"}
  {
    map[
      "conditions" := map[
        "J45" := map["snomed" := "195967001", "display" := "Asthma"],
        "195967001" := map["icd10" := "J45", "display" := "Asthma"],
        "I10" := map["snomed" := "38341003", "display" := "Hypertension"],
        "38341003" := map["icd10" := "I10", "display" := "Hypertension"]
      ],
      "observations" := map[
        "85354-9" := map["display" := "Blood pressure panel"],
        "8462-4" := map["display" := "Diastolic blood pressure"],
        "8480-6" := map["display" := "Systolic blood pressure"]
      ]
    ]
  }

  const CommonMappings: map<string, map<string, map<string, string>>> := LoadCommonMappings()

  /** The "conditions" crosswalk spelled out. */
  lemma ConditionsTable()
    ensures Conditions == map[
        "J45" := map["snomed" := "195967001", "display" := "Asthma"],
        "195967001" := map["icd10" := "J45", "display" := "Asthma"],
        "I10" := map["snomed" := "38341003", "display" := "Hypertension"],
        "38341003" := map["icd10" := "I10", "display" := "Hypertension"]
      ]
  {
  }

  /** The "conditions" crosswalk is bidirectional. */
  lemma ConditionsAreBidirectional()
    ensures IsBidirectional(Conditions)
  {
    ConditionsTable();
    forall c, t | c in Conditions && t in Conditions[c] && t != "display"
      ensures Conditions[c][t] in Conditions
      ensures Conditions[Conditions[c][t]]["display"] == Conditions[c]["display"]
    {
      assert c == "J45" || c == "195967001" || c == "I10" || c == "38341003";
    }
  }

  /** `common_mappings.get("conditions", {})`; the only category `map_code` reads. */
  const Conditions: map<string, map<string, string>> :=
    if "conditions" in CommonMappings then CommonMappings["conditions"] else map[]

  /** The display texts `_get_display` knows, whatever the system. */
  const DisplayMap: map<string, string> := map[
    "J45" := "Asthma",
    "195967001" := "Asthma",
    "I10" := "Hypertension",
    "38341003" := "Hypertension",
    "85354-9" := "Blood pressure panel",
    "8462-4" := "Diastolic blood pressure"
  ]

  /** The FHIR system URIs `_get_system_uri` knows. */
  const SystemUris: map<string, string> := map[
    "icd10" := "http://hl7.org/fhir/sid/icd-10-cm",
    "snomed" := "http://snomed.info/sct",
    "loinc" := "http://loinc.org",
    "cpt" := "http://www.ama-assn.org/go/cpt",
    "rxnorm" := "http://www.nlm.nih.gov/research/umls/rxnorm"
  ]

  /** The target systems that have a resolver (`terminology_services`). */
  const TerminologySystems: set<string> := {"icd10", "snomed", "loinc", "cpt", "rxnorm"}

  // ---------------------------------------------------------------------------
  // Display text and system URIs
  // ---------------------------------------------------------------------------

  /** The fallback display text for a code the table does not know. */
  function UnknownDisplay(code: string, system: string): string {
    "Unknown " + system + " code: " + code
  }

  /** `_get_display`: the table text, else the sentinel `Unknown <system> code: <code>`. */
  function GetDisplay(code: string, system: string): (r: string)
    ensures r != ""
  {
    if code in DisplayMap then DisplayMap[code] else UnknownDisplay(code, system)
  }

  /** `_get_system_uri`: the registered URI, else the identifier itself. */
  function GetSystemUri(system: string): (r: string)
    ensures system in SystemUris ==> r == SystemUris[system]
    ensures r == system <==> system !in SystemUris
  {
    if system in SystemUris then SystemUris[system] else system
  }

  /** The display is the sentinel exactly when the code is not in the table;
      a table code has the same display under every system. */
  lemma DisplaySentinel(code: string, system: string, other: string)
    ensures GetDisplay(code, system) == UnknownDisplay(code, system) <==> code !in DisplayMap
    ensures code in DisplayMap ==> GetDisplay(code, system) == GetDisplay(code, other)
  {
    if code in DisplayMap {
      var u := UnknownDisplay(code, system);
      assert u[0] == 'U';
      assert DisplayMap[code][0] != 'U';
    }
  }

  /** Systolic blood pressure, `8480-6`, is listed among the observations but
      not in the display table, so its display is the sentinel. */
  lemma SystolicDisplayIsSentinel(system: string)
    ensures GetDisplay("8480-6", system) == "Unknown " + system + " code: 8480-6"
  {
  }

  // ---------------------------------------------------------------------------
  // Resolvers (placeholders) and map_code
  // ---------------------------------------------------------------------------

  // The five `_map_*` resolvers are placeholders: each echoes the code
  // unchanged under its own system label, whatever the source system.

  function MapIcd10(code: string, source: string): (r: MappedCode)
    ensures r.code == code && r.system == "icd10"
    ensures r.display == GetDisplay(code, "icd10") && r.display != ""
  {
    MappedCode(code, "icd10", GetDisplay(code, "icd10"))
  }

  function MapSnomed(code: string, source: string): (r: MappedCode)
    ensures r.code == code && r.system == "snomed"
    ensures r.display == GetDisplay(code, "snomed") && r.display != ""
  {
    MappedCode(code, "snomed", GetDisplay(code, "snomed"))
  }

  function MapLoinc(code: string, source: string): (r: MappedCode)
    ensures r.code == code && r.system == "loinc"
    ensures r.display == GetDisplay(code, "loinc") && r.display != ""
  {
    MappedCode(code, "loinc", GetDisplay(code, "loinc"))
  }

  function MapCpt(code: string, source: string): (r: MappedCode)
    ensures r.code == code && r.system == "cpt"
    ensures r.display == GetDisplay(code, "cpt") && r.display != ""
  {
    MappedCode(code, "cpt", GetDisplay(code, "cpt"))
  }

  function MapRxnorm(code: string, source: string): (r: MappedCode)
    ensures r.code == code && r.system == "rxnorm"
    ensures r.display == GetDisplay(code, "rxnorm") && r.display != ""
  {
    MappedCode(code, "rxnorm", GetDisplay(code, "rxnorm"))
  }

  /** `terminology_services.get(target)` applied to the code: every registered
      resolver echoes the code under the target label. */
  function TerminologyService(target: string, code: string, source: string): (r: Option<MappedCode>)
    ensures r.Some? <==> target in TerminologySystems
    ensures r.Some? ==> r.value == MappedCode(code, target, GetDisplay(code, target))
  {
    match target
    case "icd10" => Some(MapIcd10(code, source))
    case "snomed" => Some(MapSnomed(code, source))
    case "loinc" => Some(MapLoinc(code, source))
    case "cpt" => Some(MapCpt(code, source))
    case "rxnorm" => Some(MapRxnorm(code, source))
    case _ => None
  }

  /** The code has a "conditions" entry that names the target. */
  predicate CrosswalkHit(code: string, target: string) {
    code in Conditions && target in Conditions[code]
  }

  /** `map_code`. */
  function MapCode(code: Option<string>, source: string, target: string): (r: Option<MappedCode>)
    ensures r.None? <==>
      !Truthy(code) || (source != target && !CrosswalkHit(code.value, target) && target !in TerminologySystems)
    ensures r.Some? ==> r.value.system == target
    ensures r.Some? && source == target ==>
      r.value == MappedCode(code.value, source, GetDisplay(code.value, source))
  {
    if !Truthy(code) then None
    else if source == target then Some(MappedCode(code.value, source, GetDisplay(code.value, source)))
    else if CrosswalkHit(code.value, target) then
      Some(MappedCode(Conditions[code.value][target], target, Conditions[code.value]["display"]))
    else TerminologyService(target, code.value, source)
  }

  /** A crosswalk hit returns the entry's code and display. */
  lemma CrosswalkTranslation(code: string, source: string, target: string)
    requires code != "" && source != target && CrosswalkHit(code, target)
    ensures MapCode(Some(code), source, target)
      == Some(MappedCode(Conditions[code][target], target, Conditions[code]["display"]))
  {
  }

  /** Every crosswalk translation is undone by translating back under the
      system the code came from (J45 and 195967001, I10 and 38341003). */
  lemma CrosswalkIsMutualInverse(code: string, target: string)
    requires CrosswalkHit(code, target) && target != "display"
    ensures exists source ::
      && source != target
      && MapCode(Some(code), source, target)
           == Some(MappedCode(Conditions[code][target], target, Conditions[code]["display"]))
      && MapCode(Some(Conditions[code][target]), target, source)
           == Some(MappedCode(code, source, Conditions[code]["display"]))
  {
    ConditionsTable();
    var source := if target == "snomed" then "icd10" else "snomed";
    var back := Conditions[code][target];
    assert code != "" && back != "";
    assert CrosswalkHit(back, source) && Conditions[back][source] == code;
    assert Conditions[back]["display"] == Conditions[code]["display"];
    CrosswalkTranslation(code, source, target);
    CrosswalkTranslation(back, target, source);
  }

  /** Hypertension: I10 from ICD-10 to SNOMED CT is 38341003. */
  lemma HypertensionToSnomed()
    ensures MapCode(Some("I10"), "icd10", "snomed") == Some(MappedCode("38341003", "snomed", "Hypertension"))
  {
  }

  /** On a table miss a registered target echoes the code unchanged under the
      target label, so a nonempty code never maps to none there; an
      unregistered target without a table hit maps to none. */
  lemma TableMiss(code: string, source: string, target: string)
    requires code != "" && source != target && !CrosswalkHit(code, target)
    ensures target in TerminologySystems ==>
      MapCode(Some(code), source, target) == Some(MappedCode(code, target, GetDisplay(code, target)))
    ensures target !in TerminologySystems ==> MapCode(Some(code), source, target) == None
  {
  }

  /** The "observations" table is never consulted: an observation code maps
      like any code the crosswalk does not know. */
  lemma ObservationCodesPassThrough(code: string, source: string, target: string)
    requires code in CommonMappings["observations"] && source != target && target in TerminologySystems
    ensures MapCode(Some(code), source, target) == Some(MappedCode(code, target, GetDisplay(code, target)))
  {
  }

  // ---------------------------------------------------------------------------
  // CodeableConcept construction
  // ---------------------------------------------------------------------------

  /** `create_fhir_codeable_concept`: one coding whose code is the input,
      whose system is the registered URI and whose display is the supplied one
      if nonempty, else `_get_display`; the text repeats that display. */
  function CreateFhirCodeableConcept(code: string, system: string, display: Option<string>): (cc: CodeableConcept)
    ensures |cc.coding| == 1
    ensures cc.coding[0].code == code && cc.coding[0].system == GetSystemUri(system)
    ensures cc.coding[0].display == if Truthy(display) then display.value else GetDisplay(code, system)
    ensures cc.text == cc.coding[0].display
  {
    var coding := Coding(GetSystemUri(system), code, if Truthy(display) then display.value else GetDisplay(code, system));
    CodeableConcept([coding], if Truthy(display) then display.value else coding.display)
  }
}
