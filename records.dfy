/** The patient and session records the application keeps (the objects held in
    `state.patients` of app.js). */
module Records {
  import opened Wrappers

  /** The opaque identifiers that uuid() produces. */
  type Id = string

  /** The value of `session.type`: "initial" renders as Erstbefund, anything else
      as Folgetermin. */
  datatype SessionType = Initial | Followup

  /** One documented encounter. `pain`, `func` and `score` are None where the
      record holds no number; `date` is an ISO date string, "" when not set. */
  datatype Session = Session(
    id: Id,
    sessionType: SessionType,
    date: string,
    region: string,
    complaints: seq<string>,
    measures: seq<string>,
    pain: Option<int>,
    func: Option<int>,
    speechNotes: string,
    note: string,
    score: Option<int>)

  datatype Patient = Patient(
    id: Id,
    name: string,
    birthYear: Option<int>,
    mainRegion: string,
    sessions: seq<Session>)

  /** The pain or function-limitation value the editor and the score use when the
      record holds none: the slider midpoint. */
  const DefaultRating: int := 5

  predicate RatingInRange(r: Option<int>) {
    r.None? || 0 <= r.value <= 10
  }

  predicate ScoreInRange(r: Option<int>) {
    r.None? || 0 <= r.value <= 100
  }

  /** The ranges a session's numbers keep: ratings 0..10 from the sliders, a
      cached score 0..100. */
  predicate WellFormedSession(s: Session) {
    RatingInRange(s.pain) && RatingInRange(s.func) && ScoreInRange(s.score)
  }
}
