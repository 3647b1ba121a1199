/** The HL7 v2 parser and converter of `src/hl7v2_converter.py`. A message is
    split into lines on "\n" and each line into fields on the field separator
    (HL7 v2.5.1, chapter 2, section 2.5.4); occurrences are grouped by their
    first field, the segment tag. PID (section 3.4.2), OBX (section 7.4.2) and
    DG1 (section 6.5.2) fields are then extracted and projected to a FHIR R4
    bundle: the Patient first, then one Observation per OBX, then one
    Condition per DG1. */
module Hl7v2 {
  import opened Wrappers
  import opened Text
  import opened Dates
  import opened Fhir
  import opened Terminology

  /** The delimiters an `HL7v2Parser` is constructed with. The repetition
      separator is stored but never used. */
  datatype Hl7Parser = Hl7Parser(fieldSep: char, componentSep: char, repeatSep: char)

  const DefaultParser: Hl7Parser := Hl7Parser('|', '^', '~')

  /** A parsed message: segment tag to its occurrences, each the full list of
      fields of one line, the tag included. */
  type Segments = map<string, seq<seq<string>>>

  // ---------------------------------------------------------------------------
  // parse_message
  // ---------------------------------------------------------------------------

  /** `message.strip().split("\n")`: never empty. */
  function MessageLines(message: string): (lines: seq<string>)
    ensures |lines| >= 1
  {
    Split(Strip(message), '\n')
  }

  function SplitFields(p: Hl7Parser, line: string): (fields: seq<string>)
    ensures |fields| >= 1
  {
    Split(line, p.fieldSep)
  }

  /** The segment tag of a line: its first field. */
  function SegmentTag(p: Hl7Parser, line: string): string {
    SplitFields(p, line)[0]
  }

  /** The lines whose tag is `t`, in message order. */
  function TaggedLines(p: Hl7Parser, lines: seq<string>, t: string): seq<string>
    decreases |lines|
  {
    if |lines| == 0 then []
    else
      var rest := TaggedLines(p, lines[..|lines| - 1], t);
      if SegmentTag(p, lines[|lines| - 1]) == t then rest + [lines[|lines| - 1]] else rest
  }

  /** The field lists of the lines whose tag is `t`, in message order. */
  function Occurrences(p: Hl7Parser, lines: seq<string>, t: string): (r: seq<seq<string>>)
    ensures forall k :: 0 <= k < |r| ==> |r[k]| >= 1
    decreases |lines|
  {
    if |lines| == 0 then []
    else
      var rest := Occurrences(p, lines[..|lines| - 1], t);
      if SegmentTag(p, lines[|lines| - 1]) == t then rest + [SplitFields(p, lines[|lines| - 1])] else rest
  }

  /** The tags that occur among the lines. */
  function Tags(p: Hl7Parser, lines: seq<string>): set<string> {
    set i | 0 <= i < |lines| :: SegmentTag(p, lines[i])
  }

  /** One line's fields appended under its tag. */
  function Record(segments: Segments, fields: seq<string>): Segments
    requires |fields| >= 1
  {
    var t := fields[0];
    segments[t := (if t in segments then segments[t] else []) + [fields]]
  }

  /** The segments after recording the lines one after another. */
  function GroupLines(p: Hl7Parser, lines: seq<string>): Segments
    decreases |lines|
  {
    if |lines| == 0 then map[]
    else Record(GroupLines(p, lines[..|lines| - 1]), SplitFields(p, lines[|lines| - 1]))
  }

  /** The value `parse_message` returns. */
  function ParsedSegments(p: Hl7Parser, message: string): Segments {
    GroupLines(p, MessageLines(message))
  }

  /** Grouping records exactly the tags of the lines, and under each tag the
      field lists of its lines in line order. */
  lemma {:induction false} GroupLinesMeaning(p: Hl7Parser, lines: seq<string>)
    ensures GroupLines(p, lines).Keys == Tags(p, lines)
    ensures forall t :: t in GroupLines(p, lines) ==> GroupLines(p, lines)[t] == Occurrences(p, lines, t)
    decreases |lines|
  {
    if |lines| > 0 {
      var init := lines[..|lines| - 1];
      var last := lines[|lines| - 1];
      GroupLinesMeaning(p, init);
      assert Tags(p, lines) == Tags(p, init) + {SegmentTag(p, last)} by {
        forall t | t in Tags(p, lines) ensures t in Tags(p, init) + {SegmentTag(p, last)} {
          var i :| 0 <= i < |lines| && SegmentTag(p, lines[i]) == t;
          if i < |lines| - 1 { assert init[i] == lines[i]; }
        }
        forall t | t in Tags(p, init) ensures t in Tags(p, lines) {
          var i :| 0 <= i < |init| && SegmentTag(p, init[i]) == t;
          assert lines[i] == init[i];
        }
      }
      forall t | t in GroupLines(p, lines)
        ensures GroupLines(p, lines)[t] == Occurrences(p, lines, t)
      {
        if t != SegmentTag(p, last) {
          assert t in Tags(p, init);
        } else if t !in Tags(p, init) {
          assert Occurrences(p, init, t) == [] by { OccurrencesOfAbsentTag(p, init, t); }
        }
      }
    }
  }

  /** A tag no line carries has no occurrences. */
  lemma {:induction false} OccurrencesOfAbsentTag(p: Hl7Parser, lines: seq<string>, t: string)
    requires t !in Tags(p, lines)
    ensures Occurrences(p, lines, t) == []
    decreases |lines|
  {
    if |lines| > 0 {
      var init := lines[..|lines| - 1];
      forall i | 0 <= i < |init| ensures SegmentTag(p, init[i]) != t {
        assert init[i] == lines[i];
      }
      assert SegmentTag(p, lines[|lines| - 1]) != t;
      OccurrencesOfAbsentTag(p, init, t);
    }
  }

  /** `parse_message`: records each line of the stripped message, split on the
      field separator, under its first field. `if not parts` can never fire,
      since a split always has at least one piece. */
  method ParseMessage(p: Hl7Parser, message: string) returns (segments: Segments)
    ensures segments == ParsedSegments(p, message)
  {
    var lines := Split(Strip(message), '\n');
    segments := map[];
    var i := 0;
    while i < |lines|
      invariant 0 <= i <= |lines|
      invariant segments == GroupLines(p, lines[..i])
    {
      var parts := Split(lines[i], p.fieldSep);
      var segmentId := parts[0];
      if segmentId !in segments {
        segments := segments[segmentId := []];
      }
      segments := segments[segmentId := segments[segmentId] + [parts]];
      assert lines[..i + 1][..i] == lines[..i];
      i := i + 1;
    }
    assert lines[..i] == lines;
  }

  /** A parsed message holds exactly the tags of its lines, and under each tag
      the field lists of the lines carrying it, in line order. */
  lemma ParsedSegmentsMeaning(p: Hl7Parser, message: string)
    ensures ParsedSegments(p, message).Keys == Tags(p, MessageLines(message))
    ensures forall t :: t in ParsedSegments(p, message) ==>
      ParsedSegments(p, message)[t] == Occurrences(p, MessageLines(message), t)
  {
    GroupLinesMeaning(p, MessageLines(message));
  }

  /** Some tag of a nonempty parse. */
  ghost function PickTag(segments: Segments): (t: string)
    requires |segments| > 0
    ensures t in segments
  {
    var t :| t in segments; t
  }

  /** The sum over all tags of the number of occurrences. */
  ghost function TotalOccurrences(segments: Segments): nat
    decreases segments.Keys
  {
    if |segments| == 0 then 0
    else
      var t := PickTag(segments);
      |segments[t]| + TotalOccurrences(segments - {t})
  }

  lemma {:induction false} TotalOccurrencesRemove(segments: Segments, t: string)
    requires t in segments
    ensures TotalOccurrences(segments) == |segments[t]| + TotalOccurrences(segments - {t})
    decreases segments.Keys
  {
    var u := PickTag(segments);
    if u != t {
      assert (segments - {u}).Keys < segments.Keys;
      assert (segments - {t}).Keys < segments.Keys;
      TotalOccurrencesRemove(segments - {u}, t);
      TotalOccurrencesRemove(segments - {t}, u);
      assert segments - {u} - {t} == segments - {t} - {u};
    }
  }

  lemma TotalOccurrencesRecord(segments: Segments, fields: seq<string>)
    requires |fields| >= 1
    ensures TotalOccurrences(Record(segments, fields)) == TotalOccurrences(segments) + 1
  {
    var t := fields[0];
    var r := Record(segments, fields);
    TotalOccurrencesRemove(r, t);
    if t in segments {
      TotalOccurrencesRemove(segments, t);
      assert r - {t} == segments - {t};
    } else {
      assert r - {t} == segments;
    }
  }

  /** Every line becomes exactly one occurrence. */
  lemma {:induction false} GroupLinesTotal(p: Hl7Parser, lines: seq<string>)
    ensures TotalOccurrences(GroupLines(p, lines)) == |lines|
    decreases |lines|
  {
    if |lines| == 0 {
      assert GroupLines(p, lines) == map[];
    } else {
      GroupLinesTotal(p, lines[..|lines| - 1]);
      TotalOccurrencesRecord(GroupLines(p, lines[..|lines| - 1]), SplitFields(p, lines[|lines| - 1]));
    }
  }

  /** The total number of occurrences in a parsed message is its number of lines. */
  lemma ParsedOccurrencesCountLines(p: Hl7Parser, message: string)
    ensures TotalOccurrences(ParsedSegments(p, message)) == |MessageLines(message)|
  {
    GroupLinesTotal(p, MessageLines(message));
  }

  /** Joining a stored occurrence with the field separator gives back its line. */
  lemma {:induction false} OccurrencesRejoin(p: Hl7Parser, lines: seq<string>, t: string)
    ensures |Occurrences(p, lines, t)| == |TaggedLines(p, lines, t)|
    ensures forall k :: 0 <= k < |Occurrences(p, lines, t)| ==>
      Join(Occurrences(p, lines, t)[k], p.fieldSep) == TaggedLines(p, lines, t)[k]
    decreases |lines|
  {
    if |lines| > 0 {
      OccurrencesRejoin(p, lines[..|lines| - 1], t);
      SplitJoin(lines[|lines| - 1], p.fieldSep);
    }
  }

  /** A blank line is not skipped: it is recorded as `[""]` under the tag "".
      An empty message is therefore one blank line. */
  lemma BlankLinesRecorded(p: Hl7Parser, message: string, i: nat)
    requires i < |MessageLines(message)| && MessageLines(message)[i] == ""
    ensures "" in ParsedSegments(p, message)
    ensures [""] in ParsedSegments(p, message)[""]
  {
    var lines := MessageLines(message);
    GroupLinesMeaning(p, lines);
    assert SegmentTag(p, lines[i]) == "";
    assert "" in Tags(p, lines);
    OccurrencesRejoin(p, lines, "");
    TaggedLinesContain(p, lines, i);
    var k :| 0 <= k < |TaggedLines(p, lines, "")| && TaggedLines(p, lines, "")[k] == "";
    var occ := Occurrences(p, lines, "")[k];
    OccurrenceFields(p, lines, "", k);
    assert occ == SplitFields(p, "");
  }

  /** Each line is among the lines of its own tag. */
  lemma {:induction false} TaggedLinesContain(p: Hl7Parser, lines: seq<string>, i: nat)
    requires i < |lines|
    ensures lines[i] in TaggedLines(p, lines, SegmentTag(p, lines[i]))
    decreases |lines|
  {
    if i < |lines| - 1 {
      TaggedLinesContain(p, lines[..|lines| - 1], i);
    }
  }

  /** The k-th occurrence of a tag is the field list of the k-th line of that tag. */
  lemma {:induction false} OccurrenceFields(p: Hl7Parser, lines: seq<string>, t: string, k: nat)
    requires k < |Occurrences(p, lines, t)|
    ensures |Occurrences(p, lines, t)| == |TaggedLines(p, lines, t)|
    ensures Occurrences(p, lines, t)[k] == SplitFields(p, TaggedLines(p, lines, t)[k])
    decreases |lines|
  {
    OccurrencesRejoin(p, lines, t);
    var init := lines[..|lines| - 1];
    OccurrencesRejoin(p, init, t);
    if k < |Occurrences(p, init, t)| {
      OccurrenceFields(p, init, t, k);
    }
  }

  /** The empty message parses to one blank segment, not to an empty result. */
  lemma EmptyMessage(p: Hl7Parser)
    ensures ParsedSegments(p, "") == map["" := [[""]]]
  {
    assert Strip("") == "";
    assert MessageLines("") == [""];
    assert [""][..0] == [];
    assert SplitFields(p, "") == [""];
    assert GroupLines(p, [""]) == Record(GroupLines(p, []), [""]);
    var blank: seq<string> := [""];
    var none: Segments := map[];
    assert [] + [blank] == [blank];
    assert Record(none, blank) == map["" := [blank]];
  }

  // ---------------------------------------------------------------------------
  // _parse_hl7_date
  // ---------------------------------------------------------------------------

  /** The calendar date in the first eight characters `YYYYMMDD`, if they are
      digits and name a real date. */
  predicate HasHl7Date(s: string) {
    && |s| >= 8
    && AllDigits(s[..8])
    && IsValidDate(Date(NumberValue(s[..4]), NumberValue(s[4..6]), NumberValue(s[6..8])))
  }

  /** `_parse_hl7_date`: `YYYY-MM-DDT00:00:00` from the first eight
      characters, or none for empty, short, non-numeric or impossible dates. */
  function ParseHl7Date(s: string): (r: Option<string>)
    ensures r.Some? <==> HasHl7Date(s)
  {
    if s == "" then None
    else if |s| < 8 then None
    else if !AllDigits(s[..8]) then None
    else
      DigitGroups(s);
      match DateFromDigits(s[..4], s[4..6], s[6..8])
      case Some(d) => Some(IsoDate(d) + "T00:00:00")
      case None => None
  }

  /** A parsed HL7 date reuses the input digits: `YYYYMMDD...` becomes
      `YYYY-MM-DDT00:00:00`, whatever follows the eighth character. */
  lemma Hl7DateLayout(s: string)
    requires HasHl7Date(s)
    ensures ParseHl7Date(s) == Some(s[..4] + "-" + s[4..6] + "-" + s[6..8] + "T00:00:00")
  {
    DigitGroups(s);
    IsoDateOfDigits(s[..4], s[4..6], s[6..8]);
  }

  /** Eight leading digits are three digit groups. */
  lemma DigitGroups(s: string)
    requires |s| >= 8 && AllDigits(s[..8])
    ensures AllDigits(s[..4]) && AllDigits(s[4..6]) && AllDigits(s[6..8])
  {
    assert forall i :: 0 <= i < 4 ==> s[..4][i] == s[..8][i];
    assert forall i :: 0 <= i < 2 ==> s[4..6][i] == s[..8][4 + i] && s[6..8][i] == s[..8][6 + i];
  }

  // ---------------------------------------------------------------------------
  // Segment extraction
  // ---------------------------------------------------------------------------

  /** The dictionary `parse_pid_segment` returns; `birthDate` is
      `Some(None)` when PID-7 is present but holds no date. */
  datatype PidData = PidData(
    patientId: Option<string>,
    name: Option<string>,
    gender: Option<string>,
    birthDate: Option<Option<string>>)

  /** The dictionary `parse_obx_segment` returns. */
  datatype ObxData = ObxData(
    code: Option<string>,
    value: Option<string>,
    unit: Option<string>,
    effectiveDateTime: Option<Option<string>>)

  /** The dictionary `parse_dg1_segment` returns. */
  datatype Dg1Data = Dg1Data(
    code: Option<string>,
    description: Option<string>,
    diagnosisDate: Option<Option<string>>)

  const PidGenders: set<string> := {"M", "F", "O", "U"}

  /** PID-8 through the identity table `{"M", "F", "O", "U"}`, default "U". */
  function PidGender(code: string): (g: string)
    ensures g in PidGenders
    ensures code in PidGenders ==> g == code
    ensures code !in PidGenders ==> g == "U"
  {
    var genderMap := map["M" := "M", "F" := "F", "O" := "O", "U" := "U"];
    if code in genderMap then genderMap[code] else "U"
  }

  /** PID-5 as `"<given> <family>"`, stripped: component 1 then component 0. */
  function PidName(p: Hl7Parser, field: string): (name: string)
    ensures |name| > 0 ==> !IsSpace(name[0]) && !IsSpace(name[|name| - 1])
  {
    var nameParts := Split(field, p.componentSep);
    var family := nameParts[0];
    var given := if |nameParts| > 1 then nameParts[1] else "";
    Strip(given + " " + family)
  }

  /** `Doe^John` gives "John Doe": two nonblank components without surrounding
      whitespace are joined given name first. */
  lemma PidNameOrder(p: Hl7Parser, family: string, given: string)
    requires p.componentSep !in family && p.componentSep !in given
    requires family != "" && given != ""
    requires !IsSpace(given[0]) && !IsSpace(family[|family| - 1])
    ensures PidName(p, family + [p.componentSep] + given) == given + " " + family
  {
    SplitConcat(family, given, p.componentSep);
    SplitWithoutSeparator(family, p.componentSep);
    SplitWithoutSeparator(given, p.componentSep);
    StripUnchanged(given + " " + family);
  }

  /** Any PID-5 with at least two components: the first two are the family
      and given names, either may be empty, and later components (middle
      name, suffix, ...) are ignored. `Doe^John^Q` gives "John Doe". */
  lemma {:induction false} PidNameComponents(p: Hl7Parser, family: string, given: string, rest: string)
    requires p.componentSep !in family && p.componentSep !in given
    requires rest == "" || rest[0] == p.componentSep
    ensures PidName(p, family + [p.componentSep] + given + rest) == Strip(given + " " + family)
  {
    var sep := p.componentSep;
    assert family + [sep] + given + rest == family + [sep] + (given + rest);
    SplitConcat(family, given + rest, sep);
    SplitWithoutSeparator(family, sep);
    if rest == "" {
      assert given + rest == given;
      SplitWithoutSeparator(given, sep);
    } else {
      assert given + rest == given + [sep] + rest[1..];
      SplitConcat(given, rest[1..], sep);
      SplitWithoutSeparator(given, sep);
    }
    var parts := Split(family + [sep] + given + rest, sep);
    assert parts[0] == family && parts[1] == given;
  }

  /** The usual three-component layout: `Doe^John^Q` gives "John Doe". */
  lemma MiddleInitialIgnored()
    ensures PidName(DefaultParser, "Doe^John^Q") == "John Doe"
  {
    JohnDoeField();
    PidNameComponents(DefaultParser, "Doe", "John", "^Q");
    JohnDoeText();
  }

  // Proof helpers for MiddleInitialIgnored, one literal fact each.
  lemma JohnDoeField() ensures "Doe^John^Q" == "Doe" + ['^'] + "John" + "^Q" {}
  lemma JohnDoeText() ensures Strip("John" + " " + "Doe") == "John Doe" {
    assert "John" + " " + "Doe" == "John Doe";
    StripUnchanged("John Doe");
  }

  /** A name without a given component is the stripped family name. */
  lemma PidNameFamilyOnly(p: Hl7Parser, family: string)
    requires p.componentSep !in family
    ensures PidName(p, family) == Strip(family)
  {
    SplitWithoutSeparator(family, p.componentSep);
    assert "" + " " + family == [' '] + family;
    StripIgnoresLeadingSpace(' ', family);
  }

  /** `parse_pid_segment`: each key only when its field exists. */
  function ParsePidSegment(p: Hl7Parser, fields: seq<string>): (r: PidData)
    ensures r.patientId.Some? <==> |fields| > 3
    ensures |fields| > 3 ==> r.patientId.value == fields[3]
    ensures r.name.Some? <==> |fields| > 5
    ensures |fields| > 5 ==> r.name.value == PidName(p, fields[5])
    ensures r.birthDate.Some? <==> |fields| > 7
    ensures |fields| > 7 ==> r.birthDate.value == ParseHl7Date(fields[7])
    ensures r.gender.Some? <==> |fields| > 8
    ensures r.gender.Some? ==> r.gender.value in PidGenders
    ensures |fields| > 8 ==> r.gender.value == PidGender(fields[8])
  {
    PidData(
      if |fields| > 3 then Some(fields[3]) else None,
      if |fields| > 5 then Some(PidName(p, fields[5])) else None,
      if |fields| > 8 then Some(PidGender(fields[8])) else None,
      if |fields| > 7 then Some(ParseHl7Date(fields[7])) else None)
  }

  /** `parse_obx_segment`: code is the first component of OBX-3 ("" for an
      empty field), value OBX-5 and unit OBX-6 verbatim, date from OBX-14. */
  function ParseObxSegment(p: Hl7Parser, fields: seq<string>): (r: ObxData)
    ensures r.code.Some? <==> |fields| > 3
    ensures |fields| > 3 ==> r.code.value == Split(fields[3], p.componentSep)[0]
    ensures r.value.Some? <==> |fields| > 5
    ensures |fields| > 5 ==> r.value.value == fields[5]
    ensures r.unit.Some? <==> |fields| > 6
    ensures |fields| > 6 ==> r.unit.value == fields[6]
    ensures r.effectiveDateTime.Some? <==> |fields| > 14
    ensures |fields| > 14 ==> r.effectiveDateTime.value == ParseHl7Date(fields[14])
  {
    ObxData(
      if |fields| > 3 then Some(if fields[3] != "" then Split(fields[3], p.componentSep)[0] else "") else None,
      if |fields| > 5 then Some(fields[5]) else None,
      if |fields| > 6 then Some(fields[6]) else None,
      if |fields| > 14 then Some(ParseHl7Date(fields[14])) else None)
  }

  /** `parse_dg1_segment`: code and description are components 0 and 1 of
      DG1-3 (description "" when absent), the date comes from DG1-5. */
  function ParseDg1Segment(p: Hl7Parser, fields: seq<string>): (r: Dg1Data)
    ensures r.code.Some? <==> |fields| > 3
    ensures r.description.Some? <==> |fields| > 3
    ensures |fields| > 3 ==> r.code.value == Split(fields[3], p.componentSep)[0]
    ensures |fields| > 3 && |Split(fields[3], p.componentSep)| > 1 ==>
      r.description.value == Split(fields[3], p.componentSep)[1]
    ensures |fields| > 3 && |Split(fields[3], p.componentSep)| == 1 ==> r.description.value == ""
    ensures r.diagnosisDate.Some? <==> |fields| > 5
    ensures |fields| > 5 ==> r.diagnosisDate.value == ParseHl7Date(fields[5])
  {
    var codeInfo := if |fields| > 3 then Split(fields[3], p.componentSep) else [""];
    Dg1Data(
      if |fields| > 3 then Some(codeInfo[0]) else None,
      if |fields| > 3 then Some(if |codeInfo| > 1 then codeInfo[1] else "") else None,
      if |fields| > 5 then Some(ParseHl7Date(fields[5])) else None)
  }

  // ---------------------------------------------------------------------------
  // Projection to FHIR
  // ---------------------------------------------------------------------------

  /** The PID gender letter to AdministrativeGender, default "unknown". */
  function Hl7GenderToFhir(g: string): (r: string)
    ensures r in AdministrativeGender
    ensures r == "male" <==> g == "M"
    ensures r == "female" <==> g == "F"
    ensures r == "other" <==> g == "O"
    ensures r == "unknown" <==> g !in {"M", "F", "O"}
  {
    var genderMap := map["M" := "male", "F" := "female", "O" := "other", "U" := "unknown"];
    if g in genderMap then genderMap[g] else "unknown"
  }

  /** `_create_fhir_patient`; `clock` stands for the timestamp of the default id. */
  function CreateFhirPatient(pid: PidData, clock: string): (pat: Patient)
    ensures pat.id == Some(pid.patientId.GetOr("hl7-patient-" + clock))
    ensures pat.name.Some? <==> pid.name.Some?
    ensures pid.name.Some? ==> pat.name.value == [HumanName(pid.name, [], None)]
    ensures pat.gender.Some? <==> pid.gender.Some?
    ensures pat.gender.Some? ==> pat.gender.value in AdministrativeGender
    ensures pid.gender.Some? ==> pat.gender.value == Hl7GenderToFhir(pid.gender.value)
    ensures pat.birthDate == if pid.birthDate.Some? then pid.birthDate.value else None
  {
    Patient(
      Some(pid.patientId.GetOr("hl7-patient-" + clock)),
      if pid.name.Some? then Some([HumanName(Some(pid.name.value), [], None)]) else None,
      if pid.gender.Some? then Some(Hl7GenderToFhir(pid.gender.value)) else None,
      if pid.birthDate.Some? then pid.birthDate.value else None,
      None,
      None)
  }

  /** PID-8 to the Patient's gender, end to end: M, F and O become male,
      female and other, and any other field, U included, becomes unknown. */
  lemma PidGenderToFhir(p: Hl7Parser, fields: seq<string>, clock: string)
    requires |fields| > 8
    ensures var g := CreateFhirPatient(ParsePidSegment(p, fields), clock).gender;
      && (fields[8] == "M" ==> g == Some("male"))
      && (fields[8] == "F" ==> g == Some("female"))
      && (fields[8] == "O" ==> g == Some("other"))
      && (fields[8] !in {"M", "F", "O"} ==> g == Some("unknown"))
  {
  }

  /** `_create_fhir_observation`. `toFloat` stands for Python's `float()`:
      `Some(v)` where it returns `v`, `None` where it raises ValueError. */
  function CreateFhirObservation(obs: ObxData, patientId: string, clock: string, toFloat: string -> Option<real>): (o: Observation)
    ensures o.subject == Some(PatientReference(patientId)) && o.status == "final"
    ensures o.code.Some? <==> obs.code.Some?
    ensures obs.code.Some? ==> o.code.value == CreateFhirCodeableConcept(obs.code.value, "loinc", None)
    ensures obs.value.None? ==> o.valueQuantity.None? && o.valueString.None?
    ensures obs.value.Some? ==> (o.valueQuantity.Some? <==> o.valueString.None?)
    ensures o.valueQuantity.Some? ==>
      && toFloat(obs.value.value) == Some(o.valueQuantity.value.value)
      && o.valueQuantity.value.unit == obs.unit.GetOr("")
      && o.valueQuantity.value.system == UcumSystem
    ensures o.valueString.Some? ==> toFloat(obs.value.value).None? && o.valueString.value == obs.value.value
    ensures o.effectiveDateTime.Some? <==> obs.effectiveDateTime.Some? && Truthy(obs.effectiveDateTime.value)
    ensures o.effectiveDateTime.Some? ==> o.effectiveDateTime == obs.effectiveDateTime.value
  {
    var numeric := if obs.value.Some? then toFloat(obs.value.value) else None;
    var quantity := if numeric.Some? then Some(Quantity(numeric.value, obs.unit.GetOr(""), UcumSystem)) else None;
    var text := if obs.value.Some? && numeric.None? then Some(obs.value.value) else None;
    Observation(
      Some("hl7-obs-" + clock),
      "final",
      Some(PatientReference(patientId)),
      if obs.code.Some? then Some(CreateFhirCodeableConcept(obs.code.value, "loinc", None)) else None,
      quantity,
      text,
      if obs.effectiveDateTime.Some? && Truthy(obs.effectiveDateTime.value) then obs.effectiveDateTime.value else None)
  }

  /** `_create_fhir_condition`: the DG1 code is mapped from ICD-10 to SNOMED
      CT; the ICD-10 fallback carries the DG1 description. */
  function CreateFhirCondition(dg: Dg1Data, patientId: string, clock: string): (c: Condition)
    ensures c.subject == Some(PatientReference(patientId))
    ensures c.code.Some? <==> dg.code.Some?
    ensures c.onsetDateTime.Some? <==> dg.diagnosisDate.Some? && Truthy(dg.diagnosisDate.value)
    ensures c.onsetDateTime.Some? ==> c.onsetDateTime == dg.diagnosisDate.value
    ensures c.abatementDateTime.None?
  {
    Condition(
      Some("hl7-cond-" + clock),
      Some(PatientReference(patientId)),
      if dg.code.None? then None
      else
        var mapped := MapCode(Some(dg.code.value), "icd10", "snomed");
        if mapped.Some? then Some(CreateFhirCodeableConcept(mapped.value.code, "snomed", Some(mapped.value.display)))
        else Some(CreateFhirCodeableConcept(dg.code.value, "icd10", dg.description)),
      if dg.diagnosisDate.Some? && Truthy(dg.diagnosisDate.value) then dg.diagnosisDate.value else None,
      None)
  }

  /** A nonempty DG1 code always ends up under SNOMED CT with the display of
      `map_code(code, "icd10", "snomed")`; the ICD-10 fallback with the DG1
      description is taken only for an empty code. */
  lemma DiagnosisCodeUnderSnomed(dg: Dg1Data, patientId: string, clock: string)
    requires dg.code.Some?
    ensures var cc := CreateFhirCondition(dg, patientId, clock).code.value;
      && (dg.code.value != "" ==>
            var m := MapCode(Some(dg.code.value), "icd10", "snomed").value;
            cc == CreateFhirCodeableConcept(m.code, "snomed", Some(m.display))
            && cc.coding[0].system == "http://snomed.info/sct")
      && (dg.code.value == "" ==> cc == CreateFhirCodeableConcept("", "icd10", dg.description))
  {
  }

  /** DG1 code I10 becomes SNOMED CT 38341003 "Hypertension". */
  lemma HypertensionDiagnosis(patientId: string, clock: string, date: Option<Option<string>>)
    ensures var cc := CreateFhirCondition(Dg1Data(Some("I10"), Some("Hypertension"), date), patientId, clock).code.value;
      cc.coding == [Coding("http://snomed.info/sct", "38341003", "Hypertension")] && cc.text == "Hypertension"
  {
    HypertensionToSnomed();
  }

  // ---------------------------------------------------------------------------
  // convert_message
  // ---------------------------------------------------------------------------

  /** One Observation per OBX occurrence, in order. */
  function ObservationEntries(segs: seq<seq<string>>, patientId: string, clock: string, toFloat: string -> Option<real>): (r: seq<Resource>)
    ensures |r| == |segs|
    decreases |segs|
  {
    if |segs| == 0 then []
    else
      ObservationEntries(segs[..|segs| - 1], patientId, clock, toFloat)
        + [ObservationResource(CreateFhirObservation(ParseObxSegment(DefaultParser, segs[|segs| - 1]), patientId, clock, toFloat))]
  }

  /** One Condition per DG1 occurrence, in order. */
  function ConditionEntries(segs: seq<seq<string>>, patientId: string, clock: string): (r: seq<Resource>)
    ensures |r| == |segs|
    decreases |segs|
  {
    if |segs| == 0 then []
    else
      ConditionEntries(segs[..|segs| - 1], patientId, clock)
        + [ConditionResource(CreateFhirCondition(ParseDg1Segment(DefaultParser, segs[|segs| - 1]), patientId, clock))]
  }

  /** Entry k is the Observation of OBX occurrence k (so its subject is
      `Patient/<patientId>`, by CreateFhirObservation). */
  lemma {:induction false} ObservationEntriesAt(segs: seq<seq<string>>, patientId: string, clock: string, toFloat: string -> Option<real>)
    ensures forall k :: 0 <= k < |segs| ==>
      ObservationEntries(segs, patientId, clock, toFloat)[k]
        == ObservationResource(CreateFhirObservation(ParseObxSegment(DefaultParser, segs[k]), patientId, clock, toFloat))
    decreases |segs|
  {
    if |segs| > 0 {
      ObservationEntriesAt(segs[..|segs| - 1], patientId, clock, toFloat);
    }
  }

  /** Entry k is the Condition of DG1 occurrence k (so its subject is
      `Patient/<patientId>`, by CreateFhirCondition). */
  lemma {:induction false} ConditionEntriesAt(segs: seq<seq<string>>, patientId: string, clock: string)
    ensures forall k :: 0 <= k < |segs| ==>
      ConditionEntries(segs, patientId, clock)[k]
        == ConditionResource(CreateFhirCondition(ParseDg1Segment(DefaultParser, segs[k]), patientId, clock))
    decreases |segs|
  {
    if |segs| > 0 {
      ConditionEntriesAt(segs[..|segs| - 1], patientId, clock);
    }
  }

  /** The occurrences of a tag, none when the tag is absent. */
  function SegmentsOf(segments: Segments, t: string): seq<seq<string>> {
    if t in segments then segments[t] else []
  }

  predicate HasPid(segments: Segments) {
    "PID" in segments && |segments["PID"]| > 0
  }

  /** The Patient built from the first PID occurrence. */
  function FirstPatient(segments: Segments, clock: string): Patient
    requires HasPid(segments)
  {
    CreateFhirPatient(ParsePidSegment(DefaultParser, segments["PID"][0]), clock)
  }

  /** The id every subject refers to: the Patient's, else "unknown". */
  function SubjectId(segments: Segments, clock: string): string {
    if HasPid(segments) then FirstPatient(segments, clock).id.value else "unknown"
  }

  /** The Patient entry, present exactly when a PID occurrence is. */
  function PatientPart(segments: Segments, clock: string): (r: seq<Resource>)
    ensures |r| == if HasPid(segments) then 1 else 0
  {
    if HasPid(segments) then [PatientResource(FirstPatient(segments, clock))] else []
  }

  /** The entries `convert_message` assembles from parsed segments. */
  function ConvertedEntries(segments: Segments, clock: string, toFloat: string -> Option<real>): seq<Resource> {
    PatientPart(segments, clock)
      + ObservationEntries(SegmentsOf(segments, "OBX"), SubjectId(segments, clock), clock, toFloat)
      + ConditionEntries(SegmentsOf(segments, "DG1"), SubjectId(segments, clock), clock)
  }

  /** The OBX loop of `convert_message`: one Observation per occurrence,
      appended in order. */
  method AppendObservations(entries: seq<Resource>, obxSegments: seq<seq<string>>, patientId: string, clock: string, toFloat: string -> Option<real>)
    returns (result: seq<Resource>)
    ensures result == entries + ObservationEntries(obxSegments, patientId, clock, toFloat)
  {
    result := entries;
    var i := 0;
    while i < |obxSegments|
      invariant 0 <= i <= |obxSegments|
      invariant result == entries + ObservationEntries(obxSegments[..i], patientId, clock, toFloat)
    {
      var obsData := ParseObxSegment(DefaultParser, obxSegments[i]);
      var obs := CreateFhirObservation(obsData, patientId, clock, toFloat);
      result := result + [ObservationResource(obs)];
      assert obxSegments[..i + 1][..i] == obxSegments[..i];
      i := i + 1;
    }
    assert obxSegments[..i] == obxSegments;
  }

  /** The DG1 loop of `convert_message`: one Condition per occurrence,
      appended in order. */
  method AppendConditions(entries: seq<Resource>, dg1Segments: seq<seq<string>>, patientId: string, clock: string)
    returns (result: seq<Resource>)
    ensures result == entries + ConditionEntries(dg1Segments, patientId, clock)
  {
    result := entries;
    var i := 0;
    while i < |dg1Segments|
      invariant 0 <= i <= |dg1Segments|
      invariant result == entries + ConditionEntries(dg1Segments[..i], patientId, clock)
    {
      var diagnosisData := ParseDg1Segment(DefaultParser, dg1Segments[i]);
      var condition := CreateFhirCondition(diagnosisData, patientId, clock);
      result := result + [ConditionResource(condition)];
      assert dg1Segments[..i + 1][..i] == dg1Segments[..i];
      i := i + 1;
    }
    assert dg1Segments[..i] == dg1Segments;
  }

  /** `convert_message`: the transaction bundle of the message's entries. */
  method ConvertMessage(message: string, clock: string, toFloat: string -> Option<real>) returns (bundle: Bundle)
    ensures bundle == Bundle("transaction", ConvertedEntries(ParsedSegments(DefaultParser, message), clock, toFloat))
  {
    var segments := ParseMessage(DefaultParser, message);
    bundle := ConvertSegments(segments, clock, toFloat);
  }

  /** The part of `convert_message` after parsing: Patient, Observations and
      Conditions appended in that order. */
  method ConvertSegments(segments: Segments, clock: string, toFloat: string -> Option<real>) returns (bundle: Bundle)
    ensures bundle == Bundle("transaction", ConvertedEntries(segments, clock, toFloat))
  {
    var entries: seq<Resource> := [];

    var patient: Option<Patient> := None;
    if "PID" in segments && |segments["PID"]| > 0 {
      var patientData := ParsePidSegment(DefaultParser, segments["PID"][0]);
      patient := Some(CreateFhirPatient(patientData, clock));
      entries := entries + [PatientResource(patient.value)];
    }
    var patientId := if patient.Some? then patient.value.id.GetOr("") else "unknown";
    assert patientId == SubjectId(segments, clock);
    ghost var patientPart := entries;
    assert patientPart == PatientPart(segments, clock);
    ghost var observations := ObservationEntries(SegmentsOf(segments, "OBX"), patientId, clock, toFloat);
    ghost var conditions := ConditionEntries(SegmentsOf(segments, "DG1"), patientId, clock);
    assert ConvertedEntries(segments, clock, toFloat) == patientPart + observations + conditions;

    if "OBX" in segments {
      entries := AppendObservations(entries, segments["OBX"], patientId, clock, toFloat);
    } else {
      assert observations == [];
    }
    assert entries == patientPart + observations;
    if "DG1" in segments {
      entries := AppendConditions(entries, segments["DG1"], patientId, clock);
    } else {
      assert conditions == [];
    }
    assert entries == patientPart + observations + conditions;
    bundle := Bundle("transaction", entries);
  }

  /** The bundle starts with at most one Patient, built from the first PID
      occurrence, followed by one entry per OBX and per DG1 occurrence. */
  lemma ConvertedLayout(segments: Segments, clock: string, toFloat: string -> Option<real>)
    ensures var entries := ConvertedEntries(segments, clock, toFloat);
      && |entries| == (if HasPid(segments) then 1 else 0) + |SegmentsOf(segments, "OBX")| + |SegmentsOf(segments, "DG1")|
      && (HasPid(segments) ==> entries[0] == PatientResource(FirstPatient(segments, clock)))
  {
  }

  /** The Observations follow the Patient: the entries after it are one per
      OBX occurrence in order, built with the Patient's id, or "unknown"
      without a PID (what each one is: ObservationEntriesAt). */
  lemma ConvertedObservations(segments: Segments, clock: string, toFloat: string -> Option<real>)
    ensures var entries := ConvertedEntries(segments, clock, toFloat);
      var head := if HasPid(segments) then 1 else 0;
      var obx := SegmentsOf(segments, "OBX");
      && head + |obx| <= |entries|
      && entries[head..head + |obx|] == ObservationEntries(obx, SubjectId(segments, clock), clock, toFloat)
  {
    var pid := SubjectId(segments, clock);
    var patientPart := PatientPart(segments, clock);
    var observations := ObservationEntries(SegmentsOf(segments, "OBX"), pid, clock, toFloat);
    var conditions := ConditionEntries(SegmentsOf(segments, "DG1"), pid, clock);
    assert ConvertedEntries(segments, clock, toFloat) == patientPart + observations + conditions;
    assert (patientPart + observations + conditions)[|patientPart|..|patientPart| + |observations|] == observations;
  }

  /** The Conditions close the bundle: after the Patient and the Observations
      come one entry per DG1 occurrence in order, built with the same subject
      id (what each one is: ConditionEntriesAt). */
  lemma ConvertedConditions(segments: Segments, clock: string, toFloat: string -> Option<real>)
    ensures var entries := ConvertedEntries(segments, clock, toFloat);
      var front := (if HasPid(segments) then 1 else 0) + |SegmentsOf(segments, "OBX")|;
      && front <= |entries|
      && entries[front..] == ConditionEntries(SegmentsOf(segments, "DG1"), SubjectId(segments, clock), clock)
  {
    var pid := SubjectId(segments, clock);
    var front := PatientPart(segments, clock) + ObservationEntries(SegmentsOf(segments, "OBX"), pid, clock, toFloat);
    assert ConvertedEntries(segments, clock, toFloat) == front + ConditionEntries(SegmentsOf(segments, "DG1"), pid, clock);
  }

  /** End to end: the number of entries is [a PID line exists] plus the
      number of OBX lines plus the number of DG1 lines. */
  lemma ConvertedEntryCount(message: string, clock: string, toFloat: string -> Option<real>)
    ensures var lines := MessageLines(message);
      |ConvertedEntries(ParsedSegments(DefaultParser, message), clock, toFloat)|
        == (if "PID" in Tags(DefaultParser, lines) then 1 else 0)
           + |TaggedLines(DefaultParser, lines, "OBX")|
           + |TaggedLines(DefaultParser, lines, "DG1")|
  {
    var p := DefaultParser;
    var lines := MessageLines(message);
    var segments := ParsedSegments(p, message);
    GroupLinesMeaning(p, lines);
    ConvertedLayout(segments, clock, toFloat);
    OccurrencesRejoin(p, lines, "OBX");
    OccurrencesRejoin(p, lines, "DG1");
    OccurrencesRejoin(p, lines, "PID");
    if "PID" in Tags(p, lines) {
      var i :| 0 <= i < |lines| && SegmentTag(p, lines[i]) == "PID";
      TaggedLinesContain(p, lines, i);
    }
    if "OBX" !in segments { OccurrencesOfAbsentTag(p, lines, "OBX"); }
    if "DG1" !in segments { OccurrencesOfAbsentTag(p, lines, "DG1"); }
  }
}
