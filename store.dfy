/** The application state (`state` in app.js) and the event handlers that
    change it: a new patient, a new session, a generated note, a deleted
    session, edits of the selected session's fields and chip clicks. */
module Store {
  import opened Wrappers
  import opened Seqs
  import opened Text
  import opened Scoring
  import opened Records
  import opened Catalog
  import opened Selection
  import opened NoteGenerator
  import opened Chart

  // ----- Lookups -----

  function HasPatientId(id: Id): Patient -> bool {
    (p: Patient) => p.id == id
  }

  function HasSessionId(id: Id): Session -> bool {
    (s: Session) => s.id == id
  }

  /** The selected patient: the first patient whose id is the selected id;
      no patient matches while nothing is selected. */
  function FindPatient(patients: seq<Patient>, selected: Option<Id>): (r: Option<nat>)
    ensures r.Some? ==> r.value < |patients| && selected.Some? && patients[r.value].id == selected.value
    ensures r.None? <==> selected.None? || forall k :: 0 <= k < |patients| ==> patients[k].id != selected.value
  {
    match selected
    case None => None
    case Some(id) => FirstIndex(patients, HasPatientId(id))
  }

  /** The selected session: the first of the patient's sessions whose id is
      the selected id; none while nothing is selected. */
  function FindSession(sessions: seq<Session>, selected: Option<Id>): (r: Option<nat>)
    ensures r.Some? ==> r.value < |sessions| && selected.Some? && sessions[r.value].id == selected.value
    ensures r.None? <==> selected.None? || forall k :: 0 <= k < |sessions| ==> sessions[k].id != selected.value
  {
    match selected
    case None => None
    case Some(id) => FirstIndex(sessions, HasSessionId(id))
  }

  /** The lookup every session handler starts with: the selected patient, then
      the selected session among its sessions; None when either is missing. */
  function Locate(patients: seq<Patient>, patientId: Option<Id>, sessionId: Option<Id>): (r: Option<(nat, nat)>)
    ensures r.Some? ==>
      && r.value.0 < |patients| && r.value.1 < |patients[r.value.0].sessions|
      && patientId == Some(patients[r.value.0].id)
      && sessionId == Some(patients[r.value.0].sessions[r.value.1].id)
    ensures r.None? <==>
      FindPatient(patients, patientId).None?
      || FindSession(patients[FindPatient(patients, patientId).value].sessions, sessionId).None?
  {
    match FindPatient(patients, patientId)
    case None => None
    case Some(i) =>
      match FindSession(patients[i].sessions, sessionId)
      case None => None
      case Some(j) => Some((i, j))
  }

  /** The state with session j of patient i replaced and everything else kept. */
  function WithSession(patients: seq<Patient>, i: nat, j: nat, s: Session): seq<Patient>
    requires i < |patients| && j < |patients[i].sessions|
  {
    patients[i := patients[i].(sessions := patients[i].sessions[j := s])]
  }

  // ----- Invariants the handlers keep -----

  predicate DistinctPatientIds(patients: seq<Patient>) {
    forall i, j :: 0 <= i < j < |patients| ==> patients[i].id != patients[j].id
  }

  predicate DistinctSessionIds(sessions: seq<Session>) {
    forall i, j :: 0 <= i < j < |sessions| ==> sessions[i].id != sessions[j].id
  }

  predicate FreshPatientId(patients: seq<Patient>, id: Id) {
    forall k :: 0 <= k < |patients| ==> patients[k].id != id
  }

  predicate FreshSessionId(sessions: seq<Session>, id: Id) {
    forall k :: 0 <= k < |sessions| ==> sessions[k].id != id
  }

  predicate WellFormedPatient(p: Patient) {
    && DistinctSessionIds(p.sessions)
    && forall k :: 0 <= k < |p.sessions| ==> WellFormedSession(p.sessions[k])
  }

  /** Ids are unique (as uuid() makes them) and every session's numbers are in range. */
  predicate WellFormedStore(patients: seq<Patient>) {
    && DistinctPatientIds(patients)
    && forall k :: 0 <= k < |patients| ==> WellFormedPatient(patients[k])
  }

  /** A selected session is one of the selected patient's sessions. */
  predicate ConsistentSelection(patients: seq<Patient>, patientId: Option<Id>, sessionId: Option<Id>) {
    sessionId.Some? ==> Locate(patients, patientId, sessionId).Some?
  }

  // ----- New patient -----

  /** The record the new-patient form creates from its (already trimmed) name. */
  function NewPatientRecord(id: Id, name: string, birthYear: Option<int>, mainRegion: string): (p: Patient)
    ensures p.id == id && p.name == name && p.birthYear == birthYear && p.mainRegion == mainRegion
    ensures WellFormedPatient(p) && p.sessions == []
  {
    Patient(id, name, birthYear, mainRegion, [])
  }

  /** A patient with a fresh id keeps the store well formed. */
  lemma NewPatientPreservesStore(patients: seq<Patient>, p: Patient)
    requires WellFormedStore(patients) && FreshPatientId(patients, p.id) && WellFormedPatient(p)
    ensures WellFormedStore(patients + [p])
  {
    var ps := patients + [p];
    forall i, j | 0 <= i < j < |ps|
      ensures ps[i].id != ps[j].id
    {
      if j == |patients| {
        assert ps[i] == patients[i];
      } else {
        assert ps[i] == patients[i] && ps[j] == patients[j];
      }
    }
  }

  // ----- New session -----

  /** The session the add-session button creates: "initial" exactly when the
      patient has no sessions yet, dated today, in the patient's main region,
      nothing selected, both ratings at 5, no score and no note. */
  function NewSession(existing: seq<Session>, id: Id, today: string, mainRegion: string): (s: Session)
    ensures s.id == id && s.date == today && s.region == mainRegion
    ensures s.sessionType == Initial <==> |existing| == 0
    ensures s.complaints == [] && s.measures == [] && s.speechNotes == "" && s.note == ""
    ensures s.pain == Some(DefaultRating) && s.func == Some(DefaultRating) && s.score == None
    ensures WellFormedSession(s)
    ensures NoteScore(s) == 40
  {
    Session(id, if |existing| > 0 then Followup else Initial, today, mainRegion,
            [], [], Some(DefaultRating), Some(DefaultRating), "", "", None)
  }

  /** The patient after add-session: its sessions followed by the new one. */
  function WithNewSession(p: Patient, id: Id, today: string): (r: Patient)
    ensures r.(sessions := p.sessions) == p
    ensures |r.sessions| == |p.sessions| + 1 && r.sessions[..|p.sessions|] == p.sessions
    ensures r.sessions[|p.sessions|] == NewSession(p.sessions, id, today, p.mainRegion)
  {
    p.(sessions := p.sessions + [NewSession(p.sessions, id, today, p.mainRegion)])
  }

  /** Only the first session of a patient is an initial examination when every
      session is added by the add-session button. */
  lemma {:induction false} OnlyFirstSessionIsInitial(p: Patient, ids: seq<Id>, today: string)
    requires p.sessions == []
    ensures var q := AddSessions(p, ids, today);
      && |q.sessions| == |ids|
      && forall k :: 0 <= k < |ids| ==> (q.sessions[k].sessionType == Initial <==> k == 0)
  {
    if |ids| > 0 {
      var q := AddSessions(p, ids[..|ids| - 1], today);
      OnlyFirstSessionIsInitial(p, ids[..|ids| - 1], today);
      assert AddSessions(p, ids, today) == WithNewSession(q, ids[|ids| - 1], today);
    }
  }

  /** The patient after one add-session click per id, in order. */
  function AddSessions(p: Patient, ids: seq<Id>, today: string): Patient {
    if ids == [] then p else WithNewSession(AddSessions(p, ids[..|ids| - 1], today), ids[|ids| - 1], today)
  }

  lemma NewSessionPreservesPatient(p: Patient, id: Id, today: string)
    requires WellFormedPatient(p) && FreshSessionId(p.sessions, id)
    ensures WellFormedPatient(WithNewSession(p, id, today))
  {
    var ss := WithNewSession(p, id, today).sessions;
    assert ss == p.sessions + [NewSession(p.sessions, id, today, p.mainRegion)];
    forall i, j | 0 <= i < j < |ss|
      ensures ss[i].id != ss[j].id
    {
      assert ss[i] == p.sessions[i];
    }
  }

  // ----- Replacing a patient or a session -----

  /** Replacing a patient by one with the same id and the same session ids does
      not change what the selection finds. */
  lemma ReplaceKeepsLookups(patients: seq<Patient>, i: nat, p: Patient, patientId: Option<Id>, sessionId: Option<Id>)
    requires i < |patients| && p.id == patients[i].id
    requires |p.sessions| == |patients[i].sessions|
    requires forall k :: 0 <= k < |p.sessions| ==> p.sessions[k].id == patients[i].sessions[k].id
    ensures FindPatient(patients[i := p], patientId) == FindPatient(patients, patientId)
    ensures Locate(patients[i := p], patientId, sessionId) == Locate(patients, patientId, sessionId)
  {
    if patientId.Some? {
      FirstIndexAgrees(patients[i := p], patients, HasPatientId(patientId.value));
      var found := FindPatient(patients, patientId);
      if found.Some? && sessionId.Some? {
        var q := patients[i := p][found.value];
        FirstIndexAgrees(q.sessions, patients[found.value].sessions, HasSessionId(sessionId.value));
      }
    }
  }

  lemma ReplacePatientPreservesStore(patients: seq<Patient>, i: nat, p: Patient)
    requires WellFormedStore(patients) && i < |patients|
    requires p.id == patients[i].id && WellFormedPatient(p)
    ensures WellFormedStore(patients[i := p])
  {
  }

  /** Replacing one session by a well-formed session with the same id keeps the
      store well formed and the selection consistent. */
  lemma WithSessionPreservesStore(patients: seq<Patient>, i: nat, j: nat, s: Session,
                                  patientId: Option<Id>, sessionId: Option<Id>)
    requires WellFormedStore(patients) && i < |patients| && j < |patients[i].sessions|
    requires s.id == patients[i].sessions[j].id && WellFormedSession(s)
    ensures WellFormedStore(WithSession(patients, i, j, s))
    ensures Locate(WithSession(patients, i, j, s), patientId, sessionId) == Locate(patients, patientId, sessionId)
  {
    var p := patients[i].(sessions := patients[i].sessions[j := s]);
    assert WellFormedPatient(patients[i]);
    ReplacePatientPreservesStore(patients, i, p);
    ReplaceKeepsLookups(patients, i, p, patientId, sessionId);
  }

  // ----- Delete session -----

  /** The sessions left after deleting: every session whose id differs from
      the deleted one, in their order. */
  function RemoveSession(sessions: seq<Session>, id: Id): (r: seq<Session>)
    ensures |r| <= |sessions|
    ensures forall k :: 0 <= k < |r| ==> r[k] in sessions && r[k].id != id
    ensures forall k :: 0 <= k < |sessions| && sessions[k].id != id ==> sessions[k] in r
  {
    Filter(sessions, (s: Session) => s.id != id)
  }

  /** With unique session ids, deleting removes exactly the one session and
      keeps the others in their order. */
  lemma RemoveSessionExactlyOne(sessions: seq<Session>, j: nat)
    requires DistinctSessionIds(sessions) && j < |sessions|
    ensures RemoveSession(sessions, sessions[j].id) == sessions[..j] + sessions[j + 1..]
  {
    FilterDropsOnlyRejected(sessions, (s: Session) => s.id != sessions[j].id, j);
  }

  lemma RemoveSessionPreservesPatient(p: Patient, j: nat)
    requires WellFormedPatient(p) && j < |p.sessions|
    ensures WellFormedPatient(p.(sessions := RemoveSession(p.sessions, p.sessions[j].id)))
  {
    RemoveSessionExactlyOne(p.sessions, j);
    CutKeepsSessionsWellFormed(p.sessions, j);
  }

  lemma CutKeepsSessionsWellFormed(sessions: seq<Session>, j: nat)
    requires j < |sessions| && DistinctSessionIds(sessions)
    requires forall k :: 0 <= k < |sessions| ==> WellFormedSession(sessions[k])
    ensures var ss := sessions[..j] + sessions[j + 1..];
      && DistinctSessionIds(ss)
      && forall k :: 0 <= k < |ss| ==> WellFormedSession(ss[k])
  {
    var ss := sessions[..j] + sessions[j + 1..];
    assert forall k :: 0 <= k < |ss| ==> ss[k] == sessions[if k < j then k else k + 1];
  }

  // ----- Generate note -----

  /** The score the generate-note handler stores: ratings 5 where missing and
      the number of selected complaint ids, unknown ids included. */
  function WithFreshScore(session: Session): (r: Session)
    ensures r.(score := session.score) == session
    ensures r.score == Some(4 * (session.pain.GetOr(DefaultRating) + session.func.GetOr(DefaultRating)
                                 + Min(|session.complaints|, ComplaintCap)))
    ensures WellFormedSession(session) ==> WellFormedSession(r)
  {
    session.(score := Some(CalculateScore(session.pain.GetOr(DefaultRating), session.func.GetOr(DefaultRating),
                                          |session.complaints|)))
  }

  /** The generate-note handler on one session: store the fresh score, then
      store the note generated from the session with that score; no other
      field changes. */
  function WithGeneratedNote(patient: Patient, session: Session, formatDateShort: string -> string): (r: Session)
    ensures r.(note := session.note) == WithFreshScore(session)
  {
    var scored := WithFreshScore(session);
    scored.(note := GenerateNoteForSession(patient, scored, formatDateShort))
  }

  /** The stored note is exactly the note the updated session itself renders. */
  lemma GeneratedNoteIsOwnNote(patient: Patient, session: Session, formatDateShort: string -> string)
    ensures var r := WithGeneratedNote(patient, session, formatDateShort);
      r.note == GenerateNoteForSession(patient, r, formatDateShort)
  {
    var r := WithGeneratedNote(patient, session, formatDateShort);
    NoteIgnoresStoredNote(patient, r.(note := session.note), r, formatDateShort);
  }

  /** The note generator does not read the session's stored note. */
  lemma NoteIgnoresStoredNote(patient: Patient, s: Session, t: Session, formatDateShort: string -> string)
    requires s.(note := "") == t.(note := "")
    ensures GenerateNoteForSession(patient, s, formatDateShort) == GenerateNoteForSession(patient, t, formatDateShort)
  {
    assert Sections(patient, s, formatDateShort) == Sections(patient, t, formatDateShort);
  }

  /** Generating twice stores the same score and note as generating once. */
  lemma GenerateNoteIdempotent(patient: Patient, session: Session, formatDateShort: string -> string)
    ensures var once := WithGeneratedNote(patient, session, formatDateShort);
      WithGeneratedNote(patient, once, formatDateShort) == once
  {
    var once := WithGeneratedNote(patient, session, formatDateShort);
    NoteIgnoresStoredNote(patient, once.(note := session.note), once, formatDateShort);
  }

  /** After generation the stored note's Assessment opens with the stored
      score and its tier, so note and score agree. */
  lemma GeneratedNoteReportsScore(patient: Patient, session: Session, formatDateShort: string -> string)
    ensures var r := WithGeneratedNote(patient, session, formatDateShort);
      AssessmentHeading + ScoreSentence(r.score.value) <= Sections(patient, r, formatDateShort).assessment
  {
    NoteReportsScore(patient, WithGeneratedNote(patient, session, formatDateShort), formatDateShort);
  }

  /** A fresh session documented as is: the note reports 40/100 ("moderate
      Beschwerden"), the orienting-exam sentence as the objective finding and a
      symptom-oriented treatment as the plan. */
  lemma DefaultSessionNote(patient: Patient, id: Id, today: string, formatDateShort: string -> string)
    requires patient.sessions == []
    ensures var g := WithGeneratedNote(patient, NewSession(patient.sessions, id, today, patient.mainRegion), formatDateShort);
      && g.score == Some(40) && g.sessionType == Initial
      && ScoreCategoryFromValue(40) == Moderate
      && Sections(patient, g, formatDateShort).objective == ObjectiveHeading + OrientingExamSentence
      && Sections(patient, g, formatDateShort).plan == PlanHeading + SymptomOrientedSentence + ContinuationSentence
  {
    var g := WithGeneratedNote(patient, NewSession(patient.sessions, id, today, patient.mainRegion), formatDateShort);
    ObjectiveFallbackExclusive(g.complaints);
    ObjectiveMatchesSentences(g.complaints);
    PlanShape(Labels(MeasureOptions, g.measures));
  }

  /** A first visit of a patient without birth year, region "Knie", with pain
      7, limitation 6 and the complaints "pain" and "limited_rom": the session
      is an initial one, the score is 4 * (7 + 6 + 2) = 60 in the moderate tier,
      and reduced mobility is the only objective finding, without the
      orienting-exam fallback. */
  lemma FirstVisitExample(formatDateShort: string -> string)
    ensures var p := NewPatientRecord("p1", "Anna Muster", None, "Knie");
      var s := NewSession(p.sessions, "s1", "2024-05-01", p.mainRegion).(pain := Some(7), func := Some(6),
                                                                         complaints := ["pain", "limited_rom"]);
      var g := WithGeneratedNote(p, s, formatDateShort);
      && g.score == Some(60) && g.sessionType == Initial
      && ScoreCategoryFromValue(60) == Moderate
      && Sections(p, g, formatDateShort).objective == ObjectiveHeading + ReducedMobilitySentence
  {
    var p := NewPatientRecord("p1", "Anna Muster", None, "Knie");
    var s := NewSession(p.sessions, "s1", "2024-05-01", p.mainRegion).(pain := Some(7), func := Some(6),
                                                                       complaints := ["pain", "limited_rom"]);
    var complaints := ["pain", "limited_rom"];
    assert "limited_rom" in complaints && "weakness" !in complaints && "instability" !in complaints;
    ObjectiveByBody(complaints, ReducedMobilitySentence);
  }

  /** After generation a dated session appears on its patient's score chart. */
  lemma GeneratedSessionIsPlotted(patients: seq<Patient>, i: nat, j: nat, formatDateShort: string -> string)
    requires i < |patients| && j < |patients[i].sessions| && patients[i].sessions[j].date != ""
    ensures var ps := WithSession(patients, i, j, WithGeneratedNote(patients[i], patients[i].sessions[j], formatDateShort));
      ChartFor(ps[i]).Plot? && ps[i].sessions[j] in ChartFor(ps[i]).points
  {
    var ps := WithSession(patients, i, j, WithGeneratedNote(patients[i], patients[i].sessions[j], formatDateShort));
    ScoredSessionIsPlotted(ps[i], j);
  }

  // ----- Field edits (updateCurrentSession and its callers) -----

  /** The updaters the input handlers pass to updateCurrentSession: the two
      sliders, the type, date and region selectors and the two text areas. */
  datatype SessionEdit =
    | SetPain(pain: int)
    | SetFunction(func: int)
    | SetType(sessionType: SessionType)
    | SetDate(date: string)
    | SetRegion(region: string)
    | SetSpeechNotes(speechNotes: string)
    | SetNote(note: string)

  /** The sliders run from 0 to 10. */
  predicate EditInRange(e: SessionEdit) {
    match e
    case SetPain(v) => 0 <= v <= 10
    case SetFunction(v) => 0 <= v <= 10
    case _ => true
  }

  /** An edit writes its one field and leaves every other field alone; in
      particular the cached score is kept, so a stored score can be stale until
      the next note generation. */
  function ApplyEdit(s: Session, e: SessionEdit): (r: Session)
    ensures e.SetPain? ==> r.pain == Some(e.pain) && r.(pain := s.pain) == s
    ensures e.SetFunction? ==> r.func == Some(e.func) && r.(func := s.func) == s
    ensures e.SetType? ==> r.sessionType == e.sessionType && r.(sessionType := s.sessionType) == s
    ensures e.SetDate? ==> r.date == e.date && r.(date := s.date) == s
    ensures e.SetRegion? ==> r.region == e.region && r.(region := s.region) == s
    ensures e.SetSpeechNotes? ==> r.speechNotes == e.speechNotes && r.(speechNotes := s.speechNotes) == s
    ensures e.SetNote? ==> r.note == e.note && r.(note := s.note) == s
    ensures r.id == s.id && r.score == s.score
    ensures WellFormedSession(s) && EditInRange(e) ==> WellFormedSession(r)
  {
    match e
    case SetPain(v) => s.(pain := Some(v))
    case SetFunction(v) => s.(func := Some(v))
    case SetType(t) => s.(sessionType := t)
    case SetDate(d) => s.(date := d)
    case SetRegion(g) => s.(region := g)
    case SetSpeechNotes(n) => s.(speechNotes := n)
    case SetNote(n) => s.(note := n)
  }

  /** Which chip row was clicked. */
  datatype ChipGroup = Complaints | Measures

  /** A chip click toggles the id in the clicked row's selection and changes
      no other field of the session. */
  function WithToggledChip(s: Session, group: ChipGroup, id: string): (r: Session)
    ensures group == Complaints ==> r.complaints == Toggled(s.complaints, id) && r.(complaints := s.complaints) == s
    ensures group == Measures ==> r.measures == Toggled(s.measures, id) && r.(measures := s.measures) == s
  {
    match group
    case Complaints => s.(complaints := Toggled(s.complaints, id))
    case Measures => s.(measures := Toggled(s.measures, id))
  }

  // ----- The state object -----

  class AppState {
    var patients: seq<Patient>
    var selectedPatientId: Option<Id>
    var selectedSessionId: Option<Id>

    predicate Valid()
      reads this
    {
      WellFormedStore(patients) && ConsistentSelection(patients, selectedPatientId, selectedSessionId)
    }

    /** The state a first start (or a failed load) begins with. */
    constructor ()
      ensures patients == [] && selectedPatientId == None && selectedSessionId == None
      ensures Valid()
    {
      patients := [];
      selectedPatientId := None;
      selectedSessionId := None;
    }

    /** The new-patient form: rejected when the trimmed name is empty, otherwise
        the patient is appended with no sessions and becomes the selection. */
    method NewPatient(nameInput: string, birthYear: Option<int>, regionInput: string, freshId: Id)
      returns (accepted: bool)
      modifies this
      ensures accepted <==> Trim(nameInput) != ""
      ensures !accepted ==> unchanged(this)
      ensures accepted ==>
        && patients == old(patients) + [NewPatientRecord(freshId, Trim(nameInput), birthYear, regionInput)]
        && selectedPatientId == Some(freshId) && selectedSessionId == None
      ensures old(Valid()) && FreshPatientId(old(patients), freshId) ==> Valid()
    {
      var name := Trim(nameInput);
      if name == "" {
        return false;
      }
      var patient := NewPatientRecord(freshId, name, birthYear, regionInput);
      if Valid() && FreshPatientId(patients, freshId) {
        NewPatientPreservesStore(patients, patient);
      }
      patients := patients + [patient];
      selectedPatientId := Some(freshId);
      selectedSessionId := None;
      return true;
    }

    /** A click on a patient in the list. */
    method SelectPatient(id: Id)
      modifies this
      ensures patients == old(patients)
      ensures selectedPatientId == Some(id) && selectedSessionId == None
      ensures old(Valid()) ==> Valid()
    {
      selectedPatientId := Some(id);
      selectedSessionId := None;
    }

    /** A click on a session of the selected patient. */
    method SelectSession(id: Id)
      modifies this
      ensures patients == old(patients) && selectedPatientId == old(selectedPatientId)
      ensures selectedSessionId == Some(id)
      ensures old(Valid()) && Locate(patients, selectedPatientId, Some(id)).Some? ==> Valid()
    {
      selectedSessionId := Some(id);
    }

    /** The add-session button: nothing without a selected patient; otherwise
        the new session is appended to that patient and selected. */
    method AddSession(today: string, freshId: Id) returns (added: bool)
      modifies this
      ensures added <==> FindPatient(old(patients), old(selectedPatientId)).Some?
      ensures !added ==> unchanged(this)
      ensures added ==>
        var i := FindPatient(old(patients), old(selectedPatientId)).value;
        && patients == old(patients)[i := WithNewSession(old(patients)[i], freshId, today)]
        && selectedPatientId == old(selectedPatientId) && selectedSessionId == Some(freshId)
      ensures added && old(Valid()) ==>
        var i := FindPatient(old(patients), old(selectedPatientId)).value;
        FreshSessionId(old(patients)[i].sessions, freshId) ==> Valid()
    {
      var found := FindPatient(patients, selectedPatientId);
      if found.None? {
        return false;
      }
      var i := found.value;
      var p := WithNewSession(patients[i], freshId, today);
      if Valid() && FreshSessionId(patients[i].sessions, freshId) {
        assert WellFormedPatient(patients[i]);
        NewSessionPreservesPatient(patients[i], freshId, today);
        ReplacePatientPreservesStore(patients, i, p);
        var ps := patients[i := p];
        FirstIndexAgrees(ps, patients, HasPatientId(selectedPatientId.value));
        assert p.sessions[|patients[i].sessions|].id == freshId;
      }
      patients := patients[i := p];
      selectedSessionId := Some(freshId);
      return true;
    }

    /** Write an updated version of the selected session (session j of
        patient i) back into the state; the selection stays as it was. */
    method StoreSelectedSession(i: nat, j: nat, s: Session)
      requires Locate(patients, selectedPatientId, selectedSessionId) == Some((i, j))
      requires s.id == patients[i].sessions[j].id
      modifies this
      ensures patients == WithSession(old(patients), i, j, s)
      ensures selectedPatientId == old(selectedPatientId) && selectedSessionId == old(selectedSessionId)
      ensures old(Valid()) && WellFormedSession(s) ==> Valid()
    {
      if Valid() && WellFormedSession(s) {
        assert WellFormedPatient(patients[i]);
        WithSessionPreservesStore(patients, i, j, s, selectedPatientId, selectedSessionId);
      }
      patients := WithSession(patients, i, j, s);
    }

    /** The generate-note button: nothing without a selected session; otherwise
        its score is recomputed and its note overwritten. */
    method GenerateNote(formatDateShort: string -> string) returns (generated: bool)
      modifies this
      ensures generated <==> Locate(old(patients), old(selectedPatientId), old(selectedSessionId)).Some?
      ensures !generated ==> unchanged(this)
      ensures generated ==>
        var (i, j) := Locate(old(patients), old(selectedPatientId), old(selectedSessionId)).value;
        patients == WithSession(old(patients), i, j,
                                WithGeneratedNote(old(patients)[i], old(patients)[i].sessions[j], formatDateShort))
      ensures selectedPatientId == old(selectedPatientId) && selectedSessionId == old(selectedSessionId)
      ensures old(Valid()) ==> Valid()
    {
      var found := Locate(patients, selectedPatientId, selectedSessionId);
      if found.None? {
        return false;
      }
      var (i, j) := found.value;
      var s := WithGeneratedNote(patients[i], patients[i].sessions[j], formatDateShort);
      if Valid() {
        assert WellFormedPatient(patients[i]);
      }
      StoreSelectedSession(i, j, s);
      return true;
    }

    /** The delete button: nothing without a selected session or without the
        user's confirmation; otherwise every session with the selected id is
        filtered out and the session selection is cleared. */
    method DeleteSession(confirmed: bool) returns (deleted: bool)
      modifies this
      ensures deleted <==> Locate(old(patients), old(selectedPatientId), old(selectedSessionId)).Some? && confirmed
      ensures !deleted ==> unchanged(this)
      ensures deleted ==>
        var i := Locate(old(patients), old(selectedPatientId), old(selectedSessionId)).value.0;
        && patients == old(patients)[i := old(patients)[i].(sessions :=
             RemoveSession(old(patients)[i].sessions, old(selectedSessionId).value))]
        && selectedPatientId == old(selectedPatientId) && selectedSessionId == None
      ensures old(Valid()) ==> Valid()
    {
      var found := Locate(patients, selectedPatientId, selectedSessionId);
      if found.None? || !confirmed {
        return false;
      }
      var (i, j) := found.value;
      var p := patients[i].(sessions := RemoveSession(patients[i].sessions, patients[i].sessions[j].id));
      if Valid() {
        assert WellFormedPatient(patients[i]);
        RemoveSessionPreservesPatient(patients[i], j);
        ReplacePatientPreservesStore(patients, i, p);
      }
      patients := patients[i := p];
      selectedSessionId := None;
      return true;
    }

    /** updateCurrentSession: apply the edit to the selected session, if any. */
    method UpdateCurrentSession(edit: SessionEdit) returns (applied: bool)
      modifies this
      ensures applied <==> Locate(old(patients), old(selectedPatientId), old(selectedSessionId)).Some?
      ensures !applied ==> unchanged(this)
      ensures applied ==>
        var (i, j) := Locate(old(patients), old(selectedPatientId), old(selectedSessionId)).value;
        patients == WithSession(old(patients), i, j, ApplyEdit(old(patients)[i].sessions[j], edit))
      ensures selectedPatientId == old(selectedPatientId) && selectedSessionId == old(selectedSessionId)
      ensures old(Valid()) && EditInRange(edit) ==> Valid()
    {
      var found := Locate(patients, selectedPatientId, selectedSessionId);
      if found.None? {
        return false;
      }
      var (i, j) := found.value;
      var s := ApplyEdit(patients[i].sessions[j], edit);
      if Valid() {
        assert WellFormedPatient(patients[i]);
      }
      StoreSelectedSession(i, j, s);
      return true;
    }

    /** A click on a complaint or measure chip of the session editor: the
        selection array is toggled in place and copied back into the session. */
    method ToggleChip(group: ChipGroup, id: string) returns (applied: bool)
      modifies this
      ensures applied <==> Locate(old(patients), old(selectedPatientId), old(selectedSessionId)).Some?
      ensures !applied ==> unchanged(this)
      ensures applied ==>
        var (i, j) := Locate(old(patients), old(selectedPatientId), old(selectedSessionId)).value;
        patients == WithSession(old(patients), i, j, WithToggledChip(old(patients)[i].sessions[j], group, id))
      ensures selectedPatientId == old(selectedPatientId) && selectedSessionId == old(selectedSessionId)
      ensures old(Valid()) ==> Valid()
    {
      var found := Locate(patients, selectedPatientId, selectedSessionId);
      if found.None? {
        return false;
      }
      var (i, j) := found.value;
      var s := patients[i].sessions[j];
      var selection := new IdArray(if group == Complaints then s.complaints else s.measures);
      selection.Toggle(id);
      s := if group == Complaints then s.(complaints := selection.elements) else s.(measures := selection.elements);
      if Valid() {
        assert WellFormedPatient(patients[i]);
      }
      StoreSelectedSession(i, j, s);
      return true;
    }
  }
}
