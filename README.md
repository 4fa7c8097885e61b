# Physio documentation pilot: a Dafny model of its core

The application is a single-page tool for physiotherapists. It keeps a list of
patients. Each patient has treatment sessions, and each session holds:

- the session type (initial examination or follow-up), a date and a body region
- selected complaint and measure ids, picked from two fixed catalogs with German labels
- a pain rating and a function-limitation rating (sliders 0..10)
- dictated notes
- a cached complaint score and a generated German SOAP note: a header line,
  then the sections Subjektiv, Objektiv, Assessment and Plan

This project models the logic of `app.js` that decides what is stored and what the note says:

- the two catalogs (`Catalog`)
- the complaint score and its three tiers (`Scoring`)
- the note generator (`NoteGenerator`)
- the in-place toggle of a chip selection array (`Selection.IdArray`)
- the placeholder-or-points decision of the score chart (`Chart`)
- the application state and its handlers (`Store.AppState`): new patient, add
  session, generate note, delete session, the field edits that go through
  `updateCurrentSession`, chip clicks, and selecting a patient or a session

`Text` models the JavaScript string operations the note relies on:
`String.prototype.trim`, `Array.prototype.join` and decimal formatting of
integers. `Seqs` models `Array.prototype.findIndex`/`find` and `filter`.

Records are values (`Records.Patient`, `Records.Session`). The state object is
a class whose methods reassign its fields. Handlers that do nothing (no patient
selected, no session selected, an empty name, a refused confirmation) return
`false` and leave the state unchanged.

The state invariant `Store.AppState.Valid` has two parts:

- every id is unique and every stored rating and score is in range
- a selected session belongs to the selected patient

Every handler preserves it, given fresh ids and slider values in range. Selecting a session preserves it when the clicked session belongs to the selected patient; the session list shows only that patient's sessions, so a click always meets this.

The score is stated in closed form: `4 * (pain + function + min(complaints, 5))`.
This is proved equal to `Math.round` of the weighted sum in `calculateScore`.

## Model

| member | source | states |
|---|---|---|
| Scoring.Round | app.js:345 | the result is the integer nearest to the real argument, halves rounded up, as `Math.round` does |
| Scoring.WeightedScore | app.js:340-344 | the exact weighted sum before rounding (no contract of its own); Scoring.ClosedForm states its value |
| Scoring.ClosedForm | app.js:340-344 | for all inputs the weighted sum equals 4 * (pain + function + min(count, 5)), so it is an integer and rounding cannot change it |
| Scoring.CalculateScore | app.js:335-346 | the rounded weighted score equals 4 * (pain + function + min(count, 5)) |
| Scoring.ScoreRange | app.js:335-346 | with both ratings in 0..10 the score lies in 0..100; it is 0 exactly with no pain, no limitation and no complaints, and 100 exactly with both ratings at 10 and at least five complaints |
| Scoring.ScoreSaturates | app.js:342 | complaints beyond the fifth do not change the score |
| Scoring.ScoreMonotone | app.js:335-346 | raising pain, limitation or the complaint count never lowers the score |
| Scoring.ScoreCategoryFromValue | app.js:348-354 | mild exactly below 34, moderate exactly from 34 to 66, pronounced exactly from 67 |
| Scoring.Category.Text | app.js:349-353 | the tier's display text (no contract of its own); Scoring.CategoryTextsDistinct proves that the text identifies the tier |
| Scoring.Category.Color | app.js:349-353 | the tier's chart colour (no contract of its own); the colour is used for display only and has no property beyond its value |
| Scoring.CategoryMonotone | app.js:348-354 | a higher score never falls into a milder tier |
| Scoring.CategoryTextsDistinct | app.js:348-354 | the three tier texts differ, so the text identifies the tier |
| Catalog.CatalogIdsDistinct | app.js:13-31 | within each catalog no id occurs twice |
| Catalog.LabelFor | app.js:364-372 | an id outside the catalog is rendered as the id itself |
| Catalog.KnownIdRendersLabel | app.js:364-372 | an id of the catalog is rendered as that entry's label |
| Catalog.Labels | app.js:364-372 | one label per selected id, in selection order, each the label of that id |
| Catalog.LabelsAreLabelsOrUnknownIds | app.js:364-372 | each rendered label is the catalog label of a known id, or the id itself when unknown |
| Text.TrimStart | app.js:602 | the result is a suffix of the input; it drops only whitespace and starts with non-whitespace |
| Text.TrimEnd | app.js:602 | the result is a prefix of the input; it drops only whitespace and ends with non-whitespace |
| Text.Trim | app.js:602 | the result is the slice left after removing leading and trailing whitespace, and neither end is whitespace |
| Text.TrimEmptyIffBlank | app.js:608 | the trimmed name is empty exactly when the input is all whitespace, which is the new-patient form's rejection condition |
| Text.TrimIdempotent | app.js:564-565 | trimming twice is trimming once, so the dictated notes, which speech capture stores already trimmed, read the same after the note trims them again (app.js:417) |
| Text.Join | app.js:387 | the length is the parts' lengths plus one separator between neighbours; a single part is returned as is; the first part opens the result; Text.JoinCons gives the full contents |
| Text.JoinCons | app.js:387 | for two or more parts, the join is the first part, the separator, and the join of the remaining parts; so every part appears once, in order, with one separator between neighbours |
| Text.NatToDecimal | app.js:392 | at least one decimal digit, with no leading zero except for 0 itself |
| Text.IntToDecimal | app.js:392 | non-empty, with a leading minus exactly for negative numbers; the digits (after the minus, if any) read back as the number's absolute value |
| Text.NatToDecimalRoundTrip | app.js:392 | reading the digits back gives the number |
| Text.IntToDecimalInjective | app.js:413 | different numbers print differently, so a note's score text determines the score |
| Seqs.FirstIndex | app.js:633-635 | None exactly when no element matches; otherwise the index of a matching element with none before it |
| Seqs.Filter | app.js:768-770 | keeps exactly the elements that pass, each taken from the input |
| Seqs.FilterAppend | app.js:768-770 | filtering a concatenation is concatenating the filtered parts |
| Seqs.FilterDropsOnlyRejected | app.js:768-770 | when only element j fails the test, filtering cuts out exactly that element |
| Seqs.FilterKeepsAll | app.js:768-770 | when every element passes, filtering returns the input |
| Seqs.FirstIndexAgrees | app.js:782-788 | two sequences that match the predicate at the same positions have the same first match |
| NoteGenerator.RegionLabel | app.js:359 | the session's region, else the patient's main region, else "nicht näher spezifiziert"; never empty |
| NoteGenerator.TypeLabel | app.js:357 | "Erstbefund" for an initial session, "Folgetermin" otherwise (no contract of its own); NoteGenerator.NoteHeader states how the header uses it |
| NoteGenerator.DateLabel | app.js:358 | "ohne Datum" without a date, the formatted date otherwise (no contract of its own); NoteGenerator.NoteHeader states both cases |
| NoteGenerator.NoteScore | app.js:374-381 | the cached score when present, else the closed-form score with 5 for missing ratings; in 0..100 for a well-formed session |
| NoteGenerator.PainSentence | app.js:391-393 | the pain sentence is present exactly when a pain rating is stored, and then it opens with "Schmerzintensität aktuell " and that rating in decimal, out of 10 |
| NoteGenerator.FuncSentence | app.js:394-396 | the limitation sentence is present exactly when a function rating is stored, and then it prints that rating in decimal, out of 10 |
| NoteGenerator.ReportSentence | app.js:386-390 | the opening sentence of Subjektiv (no contract of its own); NoteGenerator.ReportSentenceShape states its shape |
| NoteGenerator.Subjective | app.js:385-396 | the Subjektiv section (no contract of its own); NoteGenerator.SubjectiveShape and NoteGenerator.NoteSubjective state its opening, where the pain sentence sits, its ending and the no-ratings case |
| NoteGenerator.SubjectiveShape | app.js:385-396 | Subjektiv opens with its heading and the report sentence; with a pain rating the pain sentence follows directly; without a pain rating the limitation sentence (if any) follows directly; without ratings it is only the opening; it ends with the limitation sentence |
| NoteGenerator.Objective | app.js:398-410 | the Objektiv section built by the string test of the source (no contract of its own); NoteGenerator.ObjectiveMatchesSentences proves it equal to the table-driven definition |
| NoteGenerator.ObjectiveMatchesSentences | app.js:398-410 | the Objektiv section is its heading followed by the finding sentences of the flagged complaints, in the fixed order |
| NoteGenerator.ObjectiveFallbackExclusive | app.js:398-410 | the orienting-exam sentence appears exactly when none of limited_rom, weakness and instability is selected; each finding appears exactly when its flag is selected |
| NoteGenerator.ObjectiveOrderFixed | app.js:398-407 | the findings follow the fixed order and not the selection order: reduced mobility first, instability last |
| NoteGenerator.SpeechClause | app.js:416-418 | the dictated-notes clause is empty exactly when the notes are blank |
| NoteGenerator.ScoreSentence | app.js:413 | the score sentence (no contract of its own); NoteGenerator.ScoreSentenceShape states its shape |
| NoteGenerator.PrognosisSentence | app.js:414 | the fixed prognosis sentence naming the region (no contract of its own); NoteGenerator.NoteSpeechNotes states where it sits in Assessment |
| NoteGenerator.Assessment | app.js:412-418 | the Assessment section (no contract of its own); NoteGenerator.AssessmentShape states its opening and ending |
| NoteGenerator.AssessmentShape | app.js:412-418 | Assessment opens with its heading and the score sentence, and ends with the prognosis sentence followed by the dictated-notes clause |
| NoteGenerator.MeasuresSentence | app.js:421-425 | the measures sentence or the symptom-oriented fallback (no contract of its own); NoteGenerator.PlanShape states both cases |
| NoteGenerator.Plan | app.js:420-426 | the Plan section (no contract of its own); NoteGenerator.PlanShape states its opening and ending |
| NoteGenerator.PlanShape | app.js:420-426 | with measures, Plan opens with "Heute durchgeführt: " and the labels joined by ", "; without measures, it is the symptom-oriented sentence then the continuation sentence; it always ends with the continuation sentence |
| NoteGenerator.Header | app.js:428 | the header line (no contract of its own); NoteGenerator.HeaderShape states its pieces in order |
| NoteGenerator.HeaderShape | app.js:428 | the header opens with the type label, " am ", the date label and " – Region: ", and ends with the region |
| NoteGenerator.Sections | app.js:356-426 | the five parts of the note for a patient and a session (no contract of its own); the lemmas named in the rows above and below state each part |
| NoteGenerator.Render | app.js:429 | the five parts joined by blank lines (no contract of its own); NoteGenerator.RenderLayout states where each part sits |
| NoteGenerator.GenerateNoteForSession | app.js:356-430 | the note for a patient and a session (no contract of its own); RenderLayout gives the layout, the section lemmas give the contents, and Store.NoteIgnoresStoredNote shows it does not read the stored note |
| NoteGenerator.RenderLayout | app.js:428-429 | header, Subjektiv, Objektiv, Assessment and Plan appear in this order at fixed offsets, separated by blank lines, and each can be cut back out of the note |
| NoteGenerator.SectionHeadings | app.js:385-426 | every section starts with its heading |
| NoteGenerator.NoteHeader | app.js:357-359 | the header opens with "Erstbefund am" or "Folgetermin am" by session type, then "ohne Datum" when no date is set or the formatted date otherwise, then " – Region: ", and ends with the region label |
| NoteGenerator.NoteSubjective | app.js:385-396 | Subjektiv opens with the report sentence over the complaint labels and the region; a stored pain rating's sentence follows directly, and without one the limitation sentence (if any) follows directly; without ratings it is only the opening; with a function rating it ends with the limitation sentence |
| NoteGenerator.ReportSentenceShape | app.js:386-390 | the labels are listed joined by ", ", or "Beschwerden" is used when none is selected; the sentence ends with the region |
| NoteGenerator.NoteReportsScore | app.js:374-383 | Assessment opens with the score the note uses: the cached one, else the closed form with defaults |
| NoteGenerator.ScoreSentenceShape | app.js:413 | the score sentence prints the score in decimal and ends with its tier's text |
| NoteGenerator.NoteSpeechNotes | app.js:412-418 | Assessment ends with the prognosis sentence naming the region, followed by "Zusatznotizen: " and the trimmed notes when they are not blank, and by nothing when they are |
| NoteGenerator.NotePlan | app.js:420-426 | Plan lists the measure labels, or says the treatment was symptom-oriented when none is selected; it always ends with the continuation sentence |
| Selection.IdArray.Toggle | app.js:327-331 | the array afterwards is the old one with the id appended when absent, or with its first occurrence cut out when present |
| Selection.Toggled | app.js:327-331 | the selection after a click (no contract of its own); Selection.ToggleCounts, ToggleFlipsMembership, ToggleKeepsOrderOfOthers and the toggle-twice lemmas state its properties |
| Selection.ToggleCounts | app.js:327-331 | the multiset of ids gains one copy of an absent id and loses one copy of a present id |
| Selection.ToggleFlipsMembership | app.js:327-331 | on a duplicate-free selection the id's membership flips, all other ids keep theirs, and the result stays duplicate-free |
| Selection.ToggleKeepsOrderOfOthers | app.js:327-331 | the other ids keep their relative order |
| Selection.ToggleTwiceAbsent | app.js:327-331 | selecting and deselecting an id that was absent restores the selection exactly |
| Selection.ToggleTwicePresent | app.js:327-331 | deselecting and reselecting a present id keeps the same multiset of ids but moves that id to the end |
| Selection.ToggleTwiceReorders | app.js:327-331 | a concrete instance: toggling "pain" twice in ["pain", "weakness"] gives ["weakness", "pain"] |
| Chart.ScoredSessions | app.js:446-447 | keeps exactly the sessions that have both a score and a date |
| Chart.ChartFor | app.js:439-455 | the "no scores yet" placeholder exactly when there are no sessions; the "scores appear once computed" placeholder exactly when no session has both a score and a date; otherwise a non-empty plot of those sessions |
| Chart.ScoredSessionIsPlotted | app.js:446-447 | a session with a score and a date makes the chart a plot that includes it |
| Store.FindPatient | app.js:633-636 | finds the selected patient's index; nothing when nothing is selected or no patient has the id |
| Store.FindSession | app.js:710-713 | finds the selected session's index among the patient's sessions; nothing when no session has the id |
| Store.Locate | app.js:706-713 | a pair of indexes whose patient and session carry the selected ids; nothing exactly when either lookup fails |
| Store.NewPatientRecord | app.js:613-619 | a well-formed patient with the given id, name, birth year and main region, and no sessions |
| Store.NewPatientPreservesStore | app.js:620 | appending a well-formed patient with a fresh id keeps the store well formed |
| Store.AppState.NewPatient | app.js:600-630 | accepted exactly when the trimmed name is not empty; if rejected, nothing changes; if accepted, the patient is appended with the trimmed name and no sessions, becomes the selected patient, and the session selection is cleared; the invariant is kept |
| Store.NewSession | app.js:639-651 | "initial" exactly when the patient has no sessions yet; dated today; the patient's main region; nothing selected; both ratings 5; no score; no note; well formed; its note would report 40 |
| Store.WithNewSession | app.js:652 | the patient keeps every field and every session, and gains the new session at the end |
| Store.OnlyFirstSessionIsInitial | app.js:641 | among sessions added one by one with the button, exactly the first is an initial examination |
| Store.NewSessionPreservesPatient | app.js:652 | appending a session with a fresh id keeps the patient well formed |
| Store.AppState.AddSession | app.js:632-656 | without a selected patient nothing changes; otherwise that patient gains the new session, which becomes the selected session; the invariant is kept for a fresh id |
| Store.RemoveSession | app.js:768-770 | keeps exactly the sessions whose id differs from the deleted one |
| Store.RemoveSessionExactlyOne | app.js:768-770 | with unique ids, deleting removes exactly the chosen session and keeps the others in order |
| Store.RemoveSessionPreservesPatient | app.js:768-770 | deleting a session keeps the patient well formed |
| Store.AppState.DeleteSession | app.js:754-774 | deletes exactly when a session is selected and the user confirms; the selected patient loses that session and the session selection is cleared; otherwise nothing changes; the invariant is kept |
| Store.WithFreshScore | app.js:715-722 | only the score changes; it becomes the closed-form score, with 5 for missing ratings and the count of selected complaint ids |
| Store.WithGeneratedNote | app.js:715-725 | apart from the note, the result is the freshly scored session |
| Store.GeneratedNoteIsOwnNote | app.js:721-725 | the stored note is the note the stored session itself generates |
| Store.NoteIgnoresStoredNote | app.js:356-430 | two sessions that differ only in their stored note get the same generated note |
| Store.GenerateNoteIdempotent | app.js:705-729 | generating a second time changes neither the score nor the note |
| Store.GeneratedNoteReportsScore | app.js:721-725 | after generation, the note's Assessment reports the stored score |
| Store.DefaultSessionNote | app.js:632-656 | a patient's first session, generated without edits: an initial examination scored 40 (moderate); the objective falls back to the orienting exam; the plan is symptom-oriented |
| Store.FirstVisitExample | app.js:705-729 | a concrete first visit (pain 7, limitation 6, two complaints including limited_rom) scores 60 (moderate); reduced mobility is the only objective finding |
| Store.GeneratedSessionIsPlotted | app.js:446-447 | after generation, a dated session is among its patient's chart points |
| Store.AppState.GenerateNote | app.js:705-729 | without a selected session nothing changes; otherwise only that session changes, to its freshly scored and noted version; the selection is kept; the invariant is kept |
| Store.ReplaceKeepsLookups | app.js:781-792 | replacing a patient by one with the same id and the same session ids leaves every lookup unchanged |
| Store.ReplacePatientPreservesStore | app.js:781-792 | replacing a patient by a well-formed one with the same id keeps the store well formed |
| Store.WithSessionPreservesStore | app.js:781-792 | replacing a session by a well-formed one with the same id keeps the store well formed and the lookups unchanged |
| Store.ApplyEdit | app.js:658-703 | each edit sets its one field to the given value and leaves every other field unchanged, the cached score included (which can therefore go stale); a well-formed session stays well formed for slider values in 0..10 |
| Store.AppState.UpdateCurrentSession | app.js:781-792 | without a selected session nothing changes; otherwise only that session changes, by the edit; the selection is kept; the invariant is kept for slider values in range |
| Store.AppState.StoreSelectedSession | app.js:790 | only the selected session is replaced; the selection is kept; the invariant is kept for a well-formed replacement |
| Store.WithToggledChip | app.js:275-279 | a chip click toggles the id in the clicked group's selection; every other field of the session is unchanged |
| Store.AppState.ToggleChip | app.js:275-296 | without a selected session nothing changes; otherwise the selected session's complaint or measure selection is toggled in place; the invariant is kept |
| Store.AppState.SelectPatient | app.js:168-171 | the clicked patient becomes the selection and the session selection is cleared; the patients are untouched |
| Store.AppState.SelectSession | app.js:240-243 | the clicked session becomes the selection; the patients are untouched; the invariant is kept when the session belongs to the selected patient |
| Store.AppState.constructor | app.js:7-11 | the empty initial state, which satisfies the invariant |

## Left out

- Rendering, DOM event wiring and the input elements are not modelled. Each handler takes the values it reads from the page as parameters.
- `saveState`/`loadState` (localStorage) are not modelled. The model holds the in-memory state only.
- `uuid()`: the fresh id is a parameter. The invariant is kept under the hypothesis that the id is fresh.
- `new Date()`: today's ISO date is a parameter of add-session.
- `formatDateShort` (locale date formatting) is a function parameter of the note generator.
- The `parseInt` of the birth year and of the slider values is not modelled. The birth year is an optional integer and the slider values are integers.
- Chart.ChartFor: the plotted points keep the sessions' stored order. The sort by `new Date(date)` is not modelled, because it needs date parsing. Canvas drawing (scales, dots, lines, labels) is left out as output only.
- Speech recognition (start, stop, appending recognised text to the notes) is left out as browser I/O. Its effect on the state is a `SetSpeechNotes` edit.
- The clipboard, the save button's alert and the `alert` calls are left out as output only. `confirm` becomes the `confirmed` parameter of delete.
- Scoring.CalculateScore: the weighted sum is computed in exact real arithmetic. The source computes it in floating point, and a rounding error at a .5 boundary is not modelled.
- Records.SessionType: any stored `type` other than "initial" is modelled as a follow-up. The note treats such values the same way.
- Patients and sessions are modelled as values that the handlers replace. The aliasing between the rendered editor's captured objects and the state is not captured.
- Records.Session: `complaints` and `measures` are always sequences. The source's `|| []` and `?.` guards against missing arrays are therefore not needed.
- The sliders' range is not enforced by the model: Store.ApplyEdit accepts any integer. Preserving the invariant needs values in 0..10, as the slider guarantees.
