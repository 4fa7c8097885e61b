/** The severity score of a session and its three-tier category
    (calculateScore and scoreCategoryFromValue in app.js). */
module Scoring {

  const PainWeight: real := 0.4
  const FuncWeight: real := 0.4
  const ComplaintWeight: real := 0.2
  /** Complaint counts above this cap add nothing to the score. */
  const ComplaintCap: nat := 5
  /** Lowest score of the "moderate" tier. */
  const ModerateFrom: int := 34
  /** Lowest score of the "pronounced" tier. */
  const PronouncedFrom: int := 67

  function Min(a: nat, b: nat): nat {
    if a <= b then a else b
  }

  /** Math.round: the nearest integer, a half rounded up towards +infinity. */
  function Round(x: real): (r: int)
    ensures r as real - 0.5 <= x < r as real + 0.5
  {
    (x + 0.5).Floor
  }

  /** The weighted sum before rounding, computed exactly: pain and function as
      percentages of 10, the capped complaint count as a percentage of 5. */
  function WeightedScore(pain: int, func: int, complaintsCount: nat): real {
    var painNorm := pain as real / 10.0 * 100.0;
    var funcNorm := func as real / 10.0 * 100.0;
    var compNorm := Min(complaintsCount, ComplaintCap) as real / ComplaintCap as real * 100.0;
    painNorm * PainWeight + funcNorm * FuncWeight + compNorm * ComplaintWeight
  }

  /** calculateScore: on integer inputs the weighted sum is already an integer,
      four points per unit of pain, of function limitation and of complaint
      count up to the cap, so rounding leaves it unchanged. */
  function CalculateScore(pain: int, func: int, complaintsCount: nat): (r: int)
    ensures r == 4 * (pain + func + Min(complaintsCount, ComplaintCap))
  {
    ClosedForm(pain, func, complaintsCount);
    Round(WeightedScore(pain, func, complaintsCount))
  }

  lemma ClosedForm(pain: int, func: int, complaintsCount: nat)
    ensures WeightedScore(pain, func, complaintsCount)
      == (4 * (pain + func + Min(complaintsCount, ComplaintCap))) as real
  {
    var c := Min(complaintsCount, ComplaintCap);
    assert pain as real / 10.0 * 100.0 * 0.4 == (4 * pain) as real;
    assert func as real / 10.0 * 100.0 * 0.4 == (4 * func) as real;
    assert c as real / 5.0 * 100.0 * 0.2 == (4 * c) as real;
  }

  /** For ratings in 0..10 the score lies in 0..100, reaches 0 only with no pain,
      no limitation and no complaint, and 100 only with both ratings at 10 and
      at least five complaints. */
  lemma ScoreRange(pain: int, func: int, complaintsCount: nat)
    requires 0 <= pain <= 10 && 0 <= func <= 10
    ensures 0 <= CalculateScore(pain, func, complaintsCount) <= 100
    ensures CalculateScore(pain, func, complaintsCount) == 0
      <==> pain == 0 && func == 0 && complaintsCount == 0
    ensures CalculateScore(pain, func, complaintsCount) == 100
      <==> pain == 10 && func == 10 && complaintsCount >= ComplaintCap
  {
  }

  /** Complaints beyond the fifth do not change the score. */
  lemma ScoreSaturates(pain: int, func: int, complaintsCount: nat)
    requires complaintsCount >= ComplaintCap
    ensures CalculateScore(pain, func, complaintsCount) == CalculateScore(pain, func, ComplaintCap)
  {
  }

  /** The score never decreases when any input grows. */
  lemma ScoreMonotone(pain: int, func: int, count: nat, pain': int, func': int, count': nat)
    requires pain <= pain' && func <= func' && count <= count'
    ensures CalculateScore(pain, func, count) <= CalculateScore(pain', func', count')
  {
  }

  /** The three tiers of scoreCategoryFromValue, with their display text and colour. */
  datatype Category = Mild | Moderate | Pronounced {
    function Text(): string {
      match this
      case Mild => "milde Beschwerden"
      case Moderate => "moderate Beschwerden"
      case Pronounced => "ausgepr\U{00E4}gte Beschwerden"
    }

    function Color(): string {
      match this
      case Mild => "#9ae6b4"
      case Moderate => "#faf089"
      case Pronounced => "#feb2b2"
    }
  }

  /** scoreCategoryFromValue: exactly one tier applies to every score, by the
      half-open intervals below 34, 34 up to 66, and 67 and above. */
  function ScoreCategoryFromValue(score: int): (c: Category)
    ensures c == Mild <==> score < ModerateFrom
    ensures c == Moderate <==> ModerateFrom <= score < PronouncedFrom
    ensures c == Pronounced <==> PronouncedFrom <= score
  {
    if score < ModerateFrom then Mild
    else if score < PronouncedFrom then Moderate
    else Pronounced
  }

  /** The tier is monotone in the score. */
  lemma CategoryMonotone(s: int, t: int)
    requires s <= t
    ensures ScoreCategoryFromValue(s) == Mild || ScoreCategoryFromValue(t) != Mild
    ensures ScoreCategoryFromValue(s) == Pronounced ==> ScoreCategoryFromValue(t) == Pronounced
  {
  }

  /** The three display texts are distinct, so the text identifies the tier. */
  lemma CategoryTextsDistinct(c: Category, d: Category)
    requires c.Text() == d.Text()
    ensures c == d
  {
  }
}
