/** What the score chart of a patient shows (renderScoreChart in app.js): a
    placeholder text when there is nothing to plot, otherwise the sessions
    that have both a score and a date. */
module Chart {
  import opened Seqs
  import opened Records

  const NoSessionsText: string := "Noch keine Scores vorhanden"
  const NoScoresText: string := "Scores erscheinen hier, sobald berechnet wurde."

  datatype ChartView =
    | Placeholder(text: string)
    | Plot(points: seq<Session>)

  predicate Plottable(s: Session) {
    s.score.Some? && s.date != ""
  }

  function ScoredSessions(sessions: seq<Session>): (r: seq<Session>)
    ensures |r| <= |sessions|
    ensures forall k :: 0 <= k < |r| ==> r[k] in sessions && Plottable(r[k])
    ensures forall k :: 0 <= k < |sessions| && Plottable(sessions[k]) ==> sessions[k] in r
  {
    Filter(sessions, Plottable)
  }

  /** The first placeholder when the patient has no sessions, the second when
      none of them has both a score and a date, otherwise the plot. */
  function ChartFor(patient: Patient): (v: ChartView)
    ensures v == Placeholder(NoSessionsText) <==> |patient.sessions| == 0
    ensures v == Placeholder(NoScoresText) <==>
      |patient.sessions| > 0 && forall k :: 0 <= k < |patient.sessions| ==> !Plottable(patient.sessions[k])
    ensures v.Plot? ==> |v.points| > 0 && v.points == ScoredSessions(patient.sessions)
  {
    if |patient.sessions| == 0 then Placeholder(NoSessionsText)
    else
      var points := ScoredSessions(patient.sessions);
      if |points| == 0 then Placeholder(NoScoresText)
      else
        assert points[0] in patient.sessions && Plottable(points[0]);
        Plot(points)
  }

  /** Generating a note for a session with a date puts that session on the chart. */
  lemma ScoredSessionIsPlotted(patient: Patient, k: nat)
    requires k < |patient.sessions| && Plottable(patient.sessions[k])
    ensures ChartFor(patient).Plot? && patient.sessions[k] in ChartFor(patient).points
  {
  }
}
