/** The records of the lead funnel (lib/types.ts). */
module Types {
  import opened Undefined

  /**
   * A complete, validated set of wizard answers. `freno` (what holds the owner
   * back) is read by the scoring engine but is not part of the submitted
   * record type, so it is optional here.
   */
  datatype WizardData = WizardData(
    profile: string,
    freno: Option<string>,
    zone: string,
    propertyType: string,
    purchaseRange: string,
    satisfaction: real,
    intent: string,
    analysisCommitment: string,
    name: string,
    email: string,
    phone: string,
    consent: bool)

  datatype Category = A | B | C

  datatype ScoreResult = ScoreResult(score: int, category: Category)

  /** The lead record sent to the automation webhook: the answers plus agency, score and a timestamp. */
  datatype SubmitPayload = SubmitPayload(
    data: WizardData,
    agencyId: string,
    agencyName: string,
    score: int,
    category: Category,
    submittedAt: string)

  datatype AgencyConfig = AgencyConfig(
    agencyId: string,
    agencyName: string,
    brandColor: string,
    webhookEnvKey: string)

  /** Market commentary for a zone: trend, opportunity and caution sentences. */
  datatype ZoneInfo = ZoneInfo(tendencia: string, oportunidad: string, alerta: string)

  /** The JSON answer of the submit endpoint. */
  datatype ApiSubmitResponse =
    | Accepted(score: int, category: Category, resultCopy: string, delivered: bool)
    | Rejected(error: string)
}
