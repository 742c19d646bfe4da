/**
 * The lead scoring engine (lib/scoring.ts): five independent dimensions award
 * bucketed points, the sum is clamped to [0, 10] and mapped to a category.
 */
module Scoring {
  import opened Undefined
  import opened Types

  /** A) Life situation: high-urgency profiles score more. */
  const ProfileTable: map<string, int> := map[
    "Heredé un piso y no sé qué hacer con él" := 2,
    "Tengo un piso alquilado y estoy harto de gestionarlo" := 2,
    "El piso lleva tiempo vacío y pagando gastos" := 2,
    "Hay un tema familiar sin resolver (herencia, separación)" := 2,
    "Quiero cambiar de vida pero el piso me lo impide" := 1,
    "Tengo capital bloqueado en ladrillo y necesito liquidez" := 1
  ]

  /** B) What holds the owner back: the more concrete and solvable by the agency, the more points. */
  const FrenoTable: map<string, int> := map[
    "No sé cuánto vale realmente mi propiedad" := 2,
    "No sé si es buen momento para vender o alquilar" := 1,
    "Miedo a arrepentirme o tomar la decisión equivocada" := 1,
    "Los trámites y la burocracia me agobian" := 1
  ]

  /** D) Time horizon. */
  const IntentTable: map<string, int> := map[
    "0–6 meses" := 3,
    "6–12 meses" := 2,
    "12–24 meses" := 1,
    "No lo sé" := 1
  ]

  /** E) How long the property has been owned. */
  const PurchaseRangeTable: map<string, int> := map[
    "Más de 20 años" := 1,
    "10–20 años" := 1,
    "Herencia" := 1
  ]

  /** A `switch` over string constants with no default: an unmatched value adds nothing. */
  function Points(table: map<string, int>, key: Option<string>): int {
    match key
    case Some(k) => if k in table then table[k] else 0
    case None => 0
  }

  /** Every award in the table lies in [0, max]. */
  predicate Bounded(table: map<string, int>, max: int) {
    forall k :: k in table ==> 0 <= table[k] <= max
  }

  /** A listed answer adds its award, which lies in [0, max]; an unmatched or missing answer adds exactly 0. */
  lemma PointsBounded(table: map<string, int>, max: int, key: Option<string>)
    requires Bounded(table, max) && max >= 0
    ensures 0 <= Points(table, key) <= max
    ensures key.Some? && key.value in table ==> Points(table, key) == table[key.value]
    ensures key.None? || key.value !in table ==> Points(table, key) == 0
  {
  }

  /** The per-dimension maxima of the table-driven dimensions: 2, 2, 3 and 1. */
  lemma TablesBounded()
    ensures Bounded(ProfileTable, 2)
    ensures Bounded(FrenoTable, 2)
    ensures Bounded(IntentTable, 3)
    ensures Bounded(PurchaseRangeTable, 1)
  {
    ProfileTableBounded();
    FrenoTableBounded();
    IntentTableBounded();
  }

  lemma ProfileTableBounded()
    ensures Bounded(ProfileTable, 2)
  {
  }

  lemma FrenoTableBounded()
    ensures Bounded(FrenoTable, 2)
  {
  }

  lemma IntentTableBounded()
    ensures Bounded(IntentTable, 3)
  {
  }

  /** C) Discomfort on a 1 (none) to 5 (much) scale: 4 and above give 2, exactly 3 gives 1, anything else 0. */
  function SatisfactionPoints(sat: real): (r: int)
    ensures 0 <= r <= 2
  {
    if sat >= 4.0 then 2 else if sat == 3.0 then 1 else 0
  }

  /** The five contributions, before clamping. */
  function RawScore(w: WizardData): int {
    Points(ProfileTable, Some(w.profile))
    + Points(FrenoTable, w.freno)
    + SatisfactionPoints(w.satisfaction)
    + Points(IntentTable, Some(w.intent))
    + Points(PurchaseRangeTable, Some(w.purchaseRange))
  }

  function Clamp(x: int): int {
    if x > 10 then 10 else if x < 0 then 0 else x
  }

  /** The category thresholds: up to 3 is C, 4 to 6 is B, 7 and above is A. */
  function Classify(score: int): (c: Category)
    ensures c == C <==> score <= 3
    ensures c == B <==> 4 <= score <= 6
    ensures c == A <==> score >= 7
  {
    if score <= 3 then C else if score <= 6 then B else A
  }

  /** `computeScore`: the clamped sum of the five dimensions and its category. */
  function ComputeScore(w: WizardData): (r: ScoreResult)
    ensures 0 <= r.score <= 10
    ensures r.category == C <==> r.score <= 3
    ensures r.category == B <==> 4 <= r.score <= 6
    ensures r.category == A <==> r.score >= 7
  {
    var score := Clamp(RawScore(w));
    ScoreResult(score, Classify(score))
  }

  // ---- properties ----

  /** The per-dimension maxima add up to exactly 10, so the clamp never changes the sum. */
  lemma RawScoreInRange(w: WizardData)
    ensures 0 <= RawScore(w) <= 10
    ensures ComputeScore(w).score == RawScore(w)
  {
    TablesBounded();
    PointsBounded(ProfileTable, 2, Some(w.profile));
    PointsBounded(FrenoTable, 2, w.freno);
    PointsBounded(IntentTable, 3, Some(w.intent));
    PointsBounded(PurchaseRangeTable, 1, Some(w.purchaseRange));
  }

  /** The maximum of 10 is reached. */
  lemma TopScoreReachable(w: WizardData)
    requires w.profile == "Heredé un piso y no sé qué hacer con él"
    requires w.freno == Some("No sé cuánto vale realmente mi propiedad")
    requires w.satisfaction >= 4.0
    requires w.intent == "0–6 meses"
    requires w.purchaseRange == "Herencia"
    ensures ComputeScore(w) == ScoreResult(10, A)
  {
  }

  /** Only profile, freno, satisfaction, intent and purchase range matter; every other field is ignored. */
  lemma OnlyScoredFieldsMatter(w: WizardData, v: WizardData)
    requires w.profile == v.profile && w.freno == v.freno && w.satisfaction == v.satisfaction
    requires w.intent == v.intent && w.purchaseRange == v.purchaseRange
    ensures ComputeScore(w) == ComputeScore(v)
  {
  }

  /** Over whole numbers, a higher satisfaction never lowers the award. */
  lemma SatisfactionMonotoneOnWholeNumbers(s: int, t: int)
    requires s <= t
    ensures SatisfactionPoints(s as real) <= SatisfactionPoints(t as real)
  {
  }

  /**
   * Over all reals the award drops exactly when going from 3 to a value
   * strictly between 3 and 4: such values match neither `sat >= 4` nor
   * `sat === 3`.
   */
  lemma SatisfactionDropCharacterised(s: real, t: real)
    requires s <= t
    ensures SatisfactionPoints(s) > SatisfactionPoints(t) <==> s == 3.0 && 3.0 < t < 4.0
  {
  }

  /** A non-integer answer such as 3.5 earns nothing for discomfort. */
  lemma HalfPointEarnsNothing()
    ensures SatisfactionPoints(3.5) == 0 && SatisfactionPoints(3.0) == 1
  {
  }

  /** Raising satisfaction (other fields fixed) never lowers the score, for whole-number answers. */
  lemma ScoreMonotoneInSatisfaction(w: WizardData, s: int, t: int)
    requires s <= t
    ensures ComputeScore(w.(satisfaction := s as real)).score <= ComputeScore(w.(satisfaction := t as real)).score
  {
    RawScoreInRange(w.(satisfaction := s as real));
    RawScoreInRange(w.(satisfaction := t as real));
    SatisfactionMonotoneOnWholeNumbers(s, t);
  }

  /** An empty flat with high discomfort, a short horizon and long ownership is an A lead whatever the freno. */
  lemma HighUrgencyExample(w: WizardData)
    requires w.profile == "El piso lleva tiempo vacío y pagando gastos"
    requires w.intent == "0–6 meses"
    requires w.satisfaction == 5.0
    requires w.purchaseRange == "Más de 20 años"
    ensures ComputeScore(w).score >= 8
    ensures ComputeScore(w).category == A
  {
    RawScoreInRange(w);
    TablesBounded();
    PointsBounded(FrenoTable, 2, w.freno);
  }

  /** Low discomfort, no horizon, an unmatched profile and no ownership bonus give at most 2: a C lead. */
  lemma LowUrgencyExample(w: WizardData)
    requires w.profile !in ProfileTable
    requires w.satisfaction == 1.0
    requires w.intent == "Más adelante"
    requires Points(PurchaseRangeTable, Some(w.purchaseRange)) == 0
    ensures ComputeScore(w).score <= 2
    ensures ComputeScore(w).category == C
  {
    RawScoreInRange(w);
    TablesBounded();
    PointsBounded(FrenoTable, 2, w.freno);
  }

  /** Without a freno answer that dimension adds nothing, so the score is at most 8. */
  lemma NoFrenoAtMostEight(w: WizardData)
    requires w.freno.None?
    ensures ComputeScore(w).score <= 8
  {
    RawScoreInRange(w);
    TablesBounded();
    PointsBounded(ProfileTable, 2, Some(w.profile));
    PointsBounded(IntentTable, 3, Some(w.intent));
    PointsBounded(PurchaseRangeTable, 1, Some(w.purchaseRange));
  }
}
