/** The SOAP-style note of a session (generateNoteForSession in app.js): a
    header line and the Subjektiv, Objektiv, Assessment and Plan paragraphs,
    separated by blank lines. Each paragraph is built by appending fixed
    sentences according to the session record. */
module NoteGenerator {
  import opened Wrappers
  import opened Text
  import opened Scoring
  import opened Catalog
  import opened Records

  const NoDateLabel: string := "ohne Datum"
  const UnspecifiedRegion: string := "nicht n\U{00E4}her spezifiziert"
  const SectionSeparator: string := "\n\n"

  const SubjectiveHeading: string := "Subjektiv: "
  const ObjectiveHeading: string := "Objektiv: "
  const AssessmentHeading: string := "Assessment: "
  const PlanHeading: string := "Plan: "

  const ReportOpening: string := "Patient:in berichtet \U{00FC}ber "

  const ReducedMobilitySentence: string := "Beweglichkeit in der betroffenen Region reduziert. "
  const WeaknessSentence: string := "Kraftdefizite in relevanten Muskelgruppen. "
  const InstabilitySentence: string :=
    "subjektives Instabilit\U{00E4}tsgef\U{00FC}hl, Stabilit\U{00E4}tskontrolle \U{00FC}berpr\U{00FC}ft. "
  const OrientingExamSentence: string :=
    "Muskel- und Gelenkfunktion orientierend untersucht, weitere Tests je nach Verlauf. "

  const SymptomOrientedSentence: string := "Heutige Behandlung symptomorientiert durchgef\U{00FC}hrt. "
  const ContinuationSentence: string :=
    "Fortf\U{00FC}hrung der Behandlung, Anpassung der Belastung im Alltag, Heim\U{00FC}bungsprogramm je nach Verlauf. "

  function TypeLabel(t: SessionType): string {
    match t
    case Initial => "Erstbefund"
    case Followup => "Folgetermin"
  }

  /** The header's date: "ohne Datum" when the session has none, otherwise what
      the locale date formatting (formatDateShort, a parameter here) makes of it. */
  function DateLabel(date: string, formatDateShort: string -> string): string {
    if date == "" then NoDateLabel else formatDateShort(date)
  }

  /** The region the note names: the session's own region, else the patient's
      main region, else "nicht näher spezifiziert"; never empty. */
  function RegionLabel(patient: Patient, session: Session): (r: string)
    ensures r != ""
    ensures session.region != "" ==> r == session.region
    ensures session.region == "" && patient.mainRegion != "" ==> r == patient.mainRegion
    ensures session.region == "" && patient.mainRegion == "" ==> r == UnspecifiedRegion
  {
    if session.region != "" then session.region
    else if patient.mainRegion != "" then patient.mainRegion
    else UnspecifiedRegion
  }

  /** The score the note reports: the cached score when the session has one,
      otherwise the score of its ratings (5 where a rating is missing) and of
      the number of selected complaint ids, unknown ids included. */
  function NoteScore(session: Session): (k: int)
    ensures session.score.Some? ==> k == session.score.value
    ensures session.score.None? ==>
      k == 4 * (session.pain.GetOr(DefaultRating) + session.func.GetOr(DefaultRating)
                + Min(|session.complaints|, ComplaintCap))
    ensures WellFormedSession(session) ==> 0 <= k <= 100
  {
    match session.score
    case Some(v) => v
    case None =>
      CalculateScore(session.pain.GetOr(DefaultRating), session.func.GetOr(DefaultRating),
                     |Labels(ComplaintOptions, session.complaints)|)
  }

  // ----- Subjektiv -----

  function ReportSentence(complaintLabels: seq<string>, region: string): string {
    if |complaintLabels| > 0 then
      ReportOpening + Join(complaintLabels, ", ") + " im Bereich " + region + ". "
    else
      ReportOpening + "Beschwerden im Bereich " + region + ". "
  }

  /** The pain sentence: present exactly when a pain rating is stored, and then
      it prints that rating out of 10. */
  function PainSentence(pain: Option<int>): (r: string)
    ensures r == "" <==> pain.None?
    ensures pain.Some? ==> "Schmerzintensit\U{00E4}t aktuell " + IntToDecimal(pain.value) + "/10" <= r
  {
    match pain
    case None => ""
    case Some(p) =>
      var rated := "Schmerzintensit\U{00E4}t aktuell " + IntToDecimal(p) + "/10";
      PrefixOfAppend(rated, ". ");
      rated + ". "
  }

  /** The limitation sentence: present exactly when a function rating is
      stored, and then it prints that rating out of 10. */
  function FuncSentence(func: Option<int>): (r: string)
    ensures r == "" <==> func.None?
    ensures func.Some? ==> "Alltags\U{00AD}einschr\U{00E4}nkung wird mit " + IntToDecimal(func.value) + "/10" <= r
  {
    match func
    case None => ""
    case Some(f) =>
      var rated := "Alltags\U{00AD}einschr\U{00E4}nkung wird mit " + IntToDecimal(f) + "/10";
      PrefixOfAppend(rated, " angegeben. ");
      rated + " angegeben. "
  }

  function Subjective(complaintLabels: seq<string>, region: string, pain: Option<int>, func: Option<int>): string {
    SubjectiveHeading + ReportSentence(complaintLabels, region) + PainSentence(pain) + FuncSentence(func)
  }

  // ----- Objektiv -----

  function IfPresent(flag: string, complaints: seq<string>, sentence: string): string {
    if flag in complaints then sentence else ""
  }

  /** The section as app.js builds it: append the sentence of each flag present,
      then add the orienting-exam sentence if nothing was appended. */
  function Objective(complaints: seq<string>): string {
    var o := ObjectiveHeading
      + IfPresent("limited_rom", complaints, ReducedMobilitySentence)
      + IfPresent("weakness", complaints, WeaknessSentence)
      + IfPresent("instability", complaints, InstabilitySentence);
    if o == ObjectiveHeading then o + OrientingExamSentence else o
  }

  /** The complaint flags that carry an objective finding, each with its sentence,
      in the order the section lists them. */
  const FindingTable: seq<(string, string)> := [
    ("limited_rom", ReducedMobilitySentence),
    ("weakness", WeaknessSentence),
    ("instability", InstabilitySentence)
  ]

  /** The sentence of one table row when its flag is among the complaints. */
  function Finding(row: (string, string), complaints: seq<string>): seq<string> {
    if row.0 in complaints then [row.1] else []
  }

  /** The sentences of the table rows whose flag is among the complaints, in table order. */
  function Findings(table: seq<(string, string)>, complaints: seq<string>): seq<string> {
    if table == [] then [] else Finding(table[0], complaints) + Findings(table[1..], complaints)
  }

  function Concat(parts: seq<string>): string {
    if parts == [] then "" else parts[0] + Concat(parts[1..])
  }

  lemma {:induction false} ConcatAppend(a: seq<string>, b: seq<string>)
    ensures Concat(a + b) == Concat(a) + Concat(b)
  {
    if a == [] {
      assert a + b == b;
    } else {
      ConcatAppend(a[1..], b);
      assert (a + b)[1..] == a[1..] + b;
    }
  }

  /** The sentences of the Objektiv section, stated declaratively: the findings
      of the flags present, or the orienting-exam sentence alone when there are none. */
  function ObjectiveSentences(complaints: seq<string>): seq<string> {
    var f := Findings(FindingTable, complaints);
    if f == [] then [OrientingExamSentence] else f
  }

  lemma FindingsOfTable(complaints: seq<string>)
    ensures Findings(FindingTable, complaints)
      == Finding(FindingTable[0], complaints) + Finding(FindingTable[1], complaints)
         + Finding(FindingTable[2], complaints)
  {
    var t := FindingTable;
    assert t[1..][0] == t[1] && t[1..][1..][0] == t[2] && t[1..][1..][1..] == [];
    assert Findings(t[1..][1..], complaints) == Finding(t[2], complaints);
  }

  /** The section app.js builds is the heading followed by the declarative
      sentence list: testing whether the section is still just its heading is
      the same as "no finding applies", because every finding sentence is
      non-empty. */
  lemma ObjectiveMatchesSentences(complaints: seq<string>)
    ensures Objective(complaints) == ObjectiveHeading + Concat(ObjectiveSentences(complaints))
  {
    var t := FindingTable;
    var a := Finding(t[0], complaints);
    var b := Finding(t[1], complaints);
    var c := Finding(t[2], complaints);
    FindingsOfTable(complaints);
    ConcatAppend(a + b, c);
    ConcatAppend(a, b);
    var body := Concat(a) + Concat(b) + Concat(c);
    ObjectiveByBody(complaints, body);
    assert body == "" <==> a + b + c == [];
  }

  lemma ObjectiveByBody(complaints: seq<string>, body: string)
    requires body == IfPresent("limited_rom", complaints, ReducedMobilitySentence)
      + IfPresent("weakness", complaints, WeaknessSentence)
      + IfPresent("instability", complaints, InstabilitySentence)
    ensures Objective(complaints)
      == if body == "" then ObjectiveHeading + OrientingExamSentence else ObjectiveHeading + body
  {
    AppendedOrFallback(ObjectiveHeading,
      IfPresent("limited_rom", complaints, ReducedMobilitySentence),
      IfPresent("weakness", complaints, WeaknessSentence),
      IfPresent("instability", complaints, InstabilitySentence),
      OrientingExamSentence);
  }

  /** Appending clauses to a heading and testing whether the result is still the
      bare heading is the same as testing whether the clauses are all empty. */
  lemma AppendedOrFallback(heading: string, a: string, b: string, c: string, fallback: string)
    ensures (var o := heading + a + b + c; if o == heading then o + fallback else o)
      == if a + b + c == "" then heading + fallback else heading + (a + b + c)
  {
    assert heading + a + b + c == heading + (a + b + c);
    assert |heading + (a + b + c)| == |heading| + |a + b + c|;
  }

  /** The orienting-exam sentence appears exactly when none of limited_rom,
      weakness and instability is selected, and each specific sentence appears
      exactly when its flag is selected: specific findings and the generic
      fallback never appear together. */
  lemma ObjectiveFallbackExclusive(complaints: seq<string>)
    ensures OrientingExamSentence in ObjectiveSentences(complaints)
      <==> "limited_rom" !in complaints && "weakness" !in complaints && "instability" !in complaints
    ensures ReducedMobilitySentence in ObjectiveSentences(complaints) <==> "limited_rom" in complaints
    ensures WeaknessSentence in ObjectiveSentences(complaints) <==> "weakness" in complaints
    ensures InstabilitySentence in ObjectiveSentences(complaints) <==> "instability" in complaints
  {
    FindingsOfTable(complaints);
    assert |OrientingExamSentence| != |ReducedMobilitySentence|;
    assert |OrientingExamSentence| != |WeaknessSentence|;
    assert |OrientingExamSentence| != |InstabilitySentence|;
    assert |ReducedMobilitySentence| != |WeaknessSentence|;
    assert |ReducedMobilitySentence| != |InstabilitySentence|;
    assert |WeaknessSentence| != |InstabilitySentence|;
  }

  /** The findings keep the fixed order limited_rom, weakness, instability,
      whatever the order of the selection. */
  lemma ObjectiveOrderFixed(complaints: seq<string>)
    requires "limited_rom" in complaints && "instability" in complaints
    ensures ObjectiveSentences(complaints)[0] == ReducedMobilitySentence
    ensures ObjectiveSentences(complaints)[|ObjectiveSentences(complaints)| - 1] == InstabilitySentence
  {
    FindingsOfTable(complaints);
  }

  // ----- Assessment -----

  function ScoreSentence(score: int): string {
    "Beschwerde-Score " + IntToDecimal(score) + "/100 (" + ScoreCategoryFromValue(score).Text() + "). "
  }

  function PrognosisSentence(region: string): string {
    "Klinischer Befund vereinbar mit funktionellen Einschr\U{00E4}nkungen der Region " + region
      + ". Prognose abh\U{00E4}ngig von Therapieadh\U{00E4}renz und Belastungsanpassung. "
  }

  /** The dictated notes, trimmed, as one more clause; nothing when they are blank. */
  function SpeechClause(speechNotes: string): (r: string)
    ensures r == "" <==> AllWhitespace(speechNotes)
  {
    TrimEmptyIffBlank(speechNotes);
    if Trim(speechNotes) != "" then "Zusatznotizen: " + Trim(speechNotes) + " " else ""
  }

  function Assessment(score: int, region: string, speechNotes: string): string {
    AssessmentHeading + ScoreSentence(score) + PrognosisSentence(region) + SpeechClause(speechNotes)
  }

  // ----- Plan -----

  function MeasuresSentence(measureLabels: seq<string>): string {
    if |measureLabels| > 0 then "Heute durchgef\U{00FC}hrt: " + Join(measureLabels, ", ") + ". "
    else SymptomOrientedSentence
  }

  function Plan(measureLabels: seq<string>): string {
    PlanHeading + MeasuresSentence(measureLabels) + ContinuationSentence
  }

  // ----- The whole note -----

  datatype NoteSections = NoteSections(
    header: string, subjective: string, objective: string, assessment: string, plan: string)

  function Sections(patient: Patient, session: Session, formatDateShort: string -> string): NoteSections {
    var region := RegionLabel(patient, session);
    NoteSections(
      Header(session.sessionType, DateLabel(session.date, formatDateShort), region),
      Subjective(Labels(ComplaintOptions, session.complaints), region, session.pain, session.func),
      Objective(session.complaints),
      Assessment(NoteScore(session), region, session.speechNotes),
      Plan(Labels(MeasureOptions, session.measures)))
  }

  /** "<Erstbefund|Folgetermin> am <date> – Region: <region>". */
  function Header(t: SessionType, dateLabel: string, region: string): string {
    TypeLabel(t) + " am " + dateLabel + " \U{2013} Region: " + region
  }

  function Render(n: NoteSections): string {
    n.header + SectionSeparator + n.subjective + SectionSeparator + n.objective
      + SectionSeparator + n.assessment + SectionSeparator + n.plan
  }

  /** generateNoteForSession. */
  function GenerateNoteForSession(patient: Patient, session: Session, formatDateShort: string -> string): string {
    Render(Sections(patient, session, formatDateShort))
  }

  /** The note is the header and the four sections joined in their fixed order
      by blank lines: each part can be cut back out of the note at the offset the
      preceding parts and separators fix, the header first and the plan last. */
  lemma RenderLayout(h: string, sub: string, obj: string, asm: string, pl: string)
    ensures var r := Render(NoteSections(h, sub, obj, asm, pl));
      var s1 := |h| + 2;
      var s2 := s1 + |sub| + 2;
      var s3 := s2 + |obj| + 2;
      var s4 := s3 + |asm| + 2;
      && |r| == s4 + |pl|
      && r[..|h|] == h
      && r[|h|..s1] == SectionSeparator
      && r[s1..s1 + |sub|] == sub
      && r[s2..s2 + |obj|] == obj
      && r[s3..s3 + |asm|] == asm
      && r[s4..] == pl
  {
    var a := h + SectionSeparator;
    var b := a + sub + SectionSeparator;
    var c := b + obj + SectionSeparator;
    var d := c + asm + SectionSeparator;
    var r := d + pl;
    assert r == Render(NoteSections(h, sub, obj, asm, pl));
    assert r[..|h|] == h;
    assert r[|h|..|a|] == SectionSeparator;
    assert r[|a|..|a| + |sub|] == sub;
    assert r[|b|..|b| + |obj|] == obj;
    assert r[|c|..|c| + |asm|] == asm;
    assert r[|d|..] == pl;
  }

  /** Every section starts with its heading. */
  lemma SectionHeadings(patient: Patient, session: Session, formatDateShort: string -> string)
    ensures var n := Sections(patient, session, formatDateShort);
      && SubjectiveHeading <= n.subjective && ObjectiveHeading <= n.objective
      && AssessmentHeading <= n.assessment && PlanHeading <= n.plan
  {
    var region := RegionLabel(patient, session);
    HeadingOpens(SubjectiveHeading, ReportSentence(Labels(ComplaintOptions, session.complaints), region),
                 PainSentence(session.pain), FuncSentence(session.func));
    ObjectiveMatchesSentences(session.complaints);
    PrefixOfAppend(ObjectiveHeading, Concat(ObjectiveSentences(session.complaints)));
    HeadingOpens(AssessmentHeading, ScoreSentence(NoteScore(session)), PrognosisSentence(region),
                 SpeechClause(session.speechNotes));
    HeadingOpens(PlanHeading, MeasuresSentence(Labels(MeasureOptions, session.measures)), ContinuationSentence, "");
  }

  /** A heading followed by three pieces opens the text they make. */
  lemma HeadingOpens(heading: string, a: string, b: string, c: string)
    ensures heading <= heading + a + b + c
    ensures heading <= heading + a + b
  {
    assert (heading + a + b + c)[..|heading|] == heading;
    assert (heading + a + b)[..|heading|] == heading;
  }

  lemma PrefixOfAppend(a: string, b: string)
    ensures a <= a + b
  {
    assert (a + b)[..|a|] == a;
  }

  lemma HeaderShape(t: SessionType, dateLabel: string, region: string)
    ensures var h := Header(t, dateLabel, region);
      && TypeLabel(t) + " am " <= h
      && TypeLabel(t) + " am " + dateLabel <= h
      && TypeLabel(t) + " am " + dateLabel + " \U{2013} Region: " <= h
      && |region| <= |h| && h[|h| - |region|..] == region
  {
    FourPartShape(TypeLabel(t), " am ", dateLabel, " \U{2013} Region: " + region);
    FourPartShape(TypeLabel(t) + " am ", dateLabel, " \U{2013} Region: ", region);
    PrefixOfAppend(TypeLabel(t) + " am " + dateLabel + " \U{2013} Region: ", region);
  }

  /** The header names the session type ("Erstbefund" for an initial session,
      "Folgetermin" otherwise) and the date label ("ohne Datum" when no date is
      set, the formatted date otherwise), then " \U{2013} Region: ", and ends with
      the region label. */
  lemma NoteHeader(patient: Patient, session: Session, formatDateShort: string -> string)
    ensures var h := Sections(patient, session, formatDateShort).header;
      var region := RegionLabel(patient, session);
      && (session.sessionType == Initial ==> "Erstbefund" + " am " <= h)
      && (session.sessionType == Followup ==> "Folgetermin" + " am " <= h)
      && (session.date == "" ==> TypeLabel(session.sessionType) + " am " + NoDateLabel + " \U{2013} Region: " <= h)
      && (session.date != "" ==>
            TypeLabel(session.sessionType) + " am " + formatDateShort(session.date) + " \U{2013} Region: " <= h)
      && |region| <= |h| && h[|h| - |region|..] == region
  {
    HeaderShape(session.sessionType, DateLabel(session.date, formatDateShort), RegionLabel(patient, session));
  }

  lemma AssessmentShape(score: int, region: string, speechNotes: string)
    ensures var a := Assessment(score, region, speechNotes);
      var tail := PrognosisSentence(region) + SpeechClause(speechNotes);
      && AssessmentHeading + ScoreSentence(score) <= a
      && |tail| <= |a| && a[|a| - |tail|..] == tail
  {
    var a, b, c, d := AssessmentHeading, ScoreSentence(score), PrognosisSentence(region), SpeechClause(speechNotes);
    assert Assessment(score, region, speechNotes) == a + b + c + d;
    FourPartShape(a, b, c, d);
  }

  /** The Assessment section opens with the score the note uses and its tier
      label: the cached score, or else four points per unit of pain and of
      function limitation (5 when missing) and per selected complaint id up to five. */
  lemma NoteReportsScore(patient: Patient, session: Session, formatDateShort: string -> string)
    ensures var k := if session.score.Some? then session.score.value
                     else 4 * (session.pain.GetOr(5) + session.func.GetOr(5) + Min(|session.complaints|, 5));
      AssessmentHeading + ScoreSentence(k) <= Sections(patient, session, formatDateShort).assessment
  {
    AssessmentShape(NoteScore(session), RegionLabel(patient, session), session.speechNotes);
  }

  /** The score sentence gives the score in decimal digits and then the text of
      its tier. */
  lemma ScoreSentenceShape(score: int)
    ensures "Beschwerde-Score " + IntToDecimal(score) <= ScoreSentence(score)
    ensures var t := ScoreCategoryFromValue(score).Text() + "). ";
      |t| <= |ScoreSentence(score)| && ScoreSentence(score)[|ScoreSentence(score)| - |t|..] == t
  {
    FourPartShape("Beschwerde-Score ", IntToDecimal(score), "/100 (", ScoreCategoryFromValue(score).Text() + "). ");
  }

  /** The Assessment section ends with the prognosis sentence naming the region,
      followed by the trimmed dictated notes when they are not blank and by
      nothing otherwise. */
  lemma NoteSpeechNotes(patient: Patient, session: Session, formatDateShort: string -> string)
    ensures var a := Sections(patient, session, formatDateShort).assessment;
      var tail := PrognosisSentence(RegionLabel(patient, session)) + SpeechClause(session.speechNotes);
      && |tail| <= |a| && a[|a| - |tail|..] == tail
      && (AllWhitespace(session.speechNotes) <==> SpeechClause(session.speechNotes) == "")
      && (!AllWhitespace(session.speechNotes) ==>
            SpeechClause(session.speechNotes) == "Zusatznotizen: " + Trim(session.speechNotes) + " ")
  {
    AssessmentShape(NoteScore(session), RegionLabel(patient, session), session.speechNotes);
    TrimEmptyIffBlank(session.speechNotes);
  }

  lemma SubjectiveShape(labels: seq<string>, region: string, pain: Option<int>, func: Option<int>)
    ensures var sub := Subjective(labels, region, pain, func);
      && SubjectiveHeading + ReportSentence(labels, region) <= sub
      && (pain.None? && func.None? ==> sub == SubjectiveHeading + ReportSentence(labels, region))
      && (pain.Some? ==> SubjectiveHeading + ReportSentence(labels, region) + PainSentence(pain) <= sub)
      && (pain.None? ==> sub == SubjectiveHeading + ReportSentence(labels, region) + FuncSentence(func))
      && |FuncSentence(func)| <= |sub| && sub[|sub| - |FuncSentence(func)|..] == FuncSentence(func)
  {
    var a, b, c, d := SubjectiveHeading, ReportSentence(labels, region), PainSentence(pain), FuncSentence(func);
    FourPartShape(a, b, c, d);
    PrefixOfAppend(a + b + c, d);
    if pain.None? {
      assert a + b + c == a + b;
    }
  }

  /** Prefix and suffix facts of a string assembled from four pieces. */
  lemma FourPartShape(a: string, b: string, c: string, d: string)
    ensures a + b <= a + b + c + d
    ensures c == "" && d == "" ==> a + b + c + d == a + b
    ensures |d| <= |a + b + c + d| && (a + b + c + d)[|a + b + c + d| - |d|..] == d
    ensures |c + d| <= |a + b + c + d| && (a + b + c + d)[|a + b + c + d| - |c + d|..] == c + d
  {
    assert (a + b + c + d)[..|a + b|] == a + b;
  }

  /** The report sentence lists the complaint labels joined by ", " when there
      are any, and speaks of "Beschwerden" otherwise. */
  lemma ReportSentenceShape(labels: seq<string>, region: string)
    ensures |labels| > 0 ==> ReportOpening + Join(labels, ", ") <= ReportSentence(labels, region)
    ensures |labels| == 0 ==> ReportOpening + "Beschwerden im Bereich " <= ReportSentence(labels, region)
    ensures |region + ". "| <= |ReportSentence(labels, region)|
      && ReportSentence(labels, region)[|ReportSentence(labels, region)| - |region + ". "|..] == region + ". "
  {
    if |labels| > 0 {
      FourPartShape(ReportOpening, Join(labels, ", "), " im Bereich ", region + ". ");
    } else {
      FourPartShape(ReportOpening, "Beschwerden im Bereich ", region, ". ");
    }
  }

  /** The Subjektiv section starts with the report sentence over the complaint
      labels (in selection order, unknown ids as they are) and the region; the
      pain sentence follows it when a pain rating is stored, and the limitation
      sentence ends the section when a function rating is stored. */
  lemma NoteSubjective(patient: Patient, session: Session, formatDateShort: string -> string)
    ensures var sub := Sections(patient, session, formatDateShort).subjective;
      var labels := Labels(ComplaintOptions, session.complaints);
      && SubjectiveHeading + ReportSentence(labels, RegionLabel(patient, session)) <= sub
      && (session.pain.None? && session.func.None? ==>
            sub == SubjectiveHeading + ReportSentence(labels, RegionLabel(patient, session)))
      && (session.pain.Some? ==>
            SubjectiveHeading + ReportSentence(labels, RegionLabel(patient, session)) + PainSentence(session.pain) <= sub)
      && (session.pain.None? ==>
            sub == SubjectiveHeading + ReportSentence(labels, RegionLabel(patient, session)) + FuncSentence(session.func))
      && (session.func.Some? ==>
            |FuncSentence(session.func)| <= |sub| && sub[|sub| - |FuncSentence(session.func)|..] == FuncSentence(session.func))
  {
    SubjectiveShape(Labels(ComplaintOptions, session.complaints), RegionLabel(patient, session), session.pain, session.func);
  }

  lemma PlanShape(measureLabels: seq<string>)
    ensures var pl := Plan(measureLabels);
      && (|measureLabels| > 0 ==>
            PlanHeading + "Heute durchgef\U{00FC}hrt: " + Join(measureLabels, ", ") + ". " <= pl)
      && (|measureLabels| == 0 ==> pl == PlanHeading + SymptomOrientedSentence + ContinuationSentence)
      && |ContinuationSentence| <= |pl| && pl[|pl| - |ContinuationSentence|..] == ContinuationSentence
  {
    var pl := Plan(measureLabels);
    var head := PlanHeading + MeasuresSentence(measureLabels);
    assert pl == head + ContinuationSentence;
    assert pl[|head|..] == ContinuationSentence;
    if |measureLabels| > 0 {
      assert pl[..|head|] == head;
    }
  }

  /** The Plan section lists the measures by label, or says the treatment was
      symptom-oriented when none is selected, and always ends with the
      continuation and home-exercise sentence. */
  lemma NotePlan(patient: Patient, session: Session, formatDateShort: string -> string)
    ensures var pl := Sections(patient, session, formatDateShort).plan;
      && (|session.measures| > 0 ==>
            PlanHeading + "Heute durchgef\U{00FC}hrt: " + Join(Labels(MeasureOptions, session.measures), ", ") + ". " <= pl)
      && (|session.measures| == 0 ==> pl == PlanHeading + SymptomOrientedSentence + ContinuationSentence)
      && |ContinuationSentence| <= |pl| && pl[|pl| - |ContinuationSentence|..] == ContinuationSentence
  {
    PlanShape(Labels(MeasureOptions, session.measures));
  }
}
