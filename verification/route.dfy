/**
 * The submit endpoint (app/api/submit/route.ts): parse, validate, score,
 * build the result copy, hand the lead to the agency's webhook, answer.
 *
 * The request body arrives already parsed (or not), the webhook's answer and
 * the clock are parameters, and the zone record the copy is drawn from is a
 * parameter too: the deployed endpoint passes `Zones.ZoneTable`, and every
 * property below holds whatever the record holds.
 */
module SubmitRoute {
  import opened Undefined
  import opened Json
  import opened Types
  import opened Scoring
  import opened Validators
  import opened Zones
  import opened Agencies

  // ---- result copy ----

  // Each lead is split after its opening words, which differ between categories.
  const LeadA: string := "Tu perfil" + " encaja con propietarios que habitualmente avanzan en un plazo de pocos meses."
  const LeadB: string := "Tu situación" + " muestra interés real, aunque aún con margen de reflexión."
  const LeadC: string := "De momento" + " no parece haber urgencia, pero conocer el valor de tu vivienda siempre es un punto de partida inteligente."

  /** The opening sentence of each category's copy. */
  function Lead(c: Category): string {
    match c
    case A => LeadA
    case B => LeadB
    case C => LeadC
  }

  /** The zone sentences that follow the lead: A adds the opportunity, B the caution, C nothing more. */
  function ZoneSentences(info: ZoneInfo, c: Category): seq<string> {
    match c
    case A => [info.tendencia, info.oportunidad]
    case B => [info.tendencia, info.alerta]
    case C => [info.tendencia]
  }

  /** Sentences joined by single spaces. */
  function Unwords(xs: seq<string>): string {
    if xs == [] then "" else if |xs| == 1 then xs[0] else xs[0] + " " + Unwords(xs[1..])
  }

  /** The pair of sentences is joined by one space. */
  lemma UnwordsTwo(a: string, b: string)
    ensures Unwords([a]) == a
    ensures Unwords([a, b]) == a + " " + b
  {
    assert [a, b][1..] == [b];
  }

  /** The `categoryPhrasing` template for one category. */
  function CopyFor(info: ZoneInfo, c: Category): string {
    match c
    case A => LeadA + " " + info.tendencia + " " + info.oportunidad
    case B => LeadB + " " + info.tendencia + " " + info.alerta
    case C => LeadC + " " + info.tendencia
  }

  /**
   * `buildResultCopy`: the category's template filled with the zone's
   * commentary; a listed zone gets its own sentences, any other string the
   * default ones, and the copy always opens with the category's marker.
   */
  function BuildResultCopy(zone: string, c: Category): (r: string)
    ensures forall i :: 0 <= i < |ZoneEntries| && ZoneEntries[i].0 == zone ==> r == CopyFor(ZoneEntries[i].1, c)
    ensures zone !in ZoneNames ==> r == CopyFor(DefaultZoneInfo, c)
    ensures |r| > 3 && r[3] == Marker(c)
  {
    CopyMarker(GetZoneInfo(zone), c);
    CopyFor(GetZoneInfo(zone), c)
  }

  /** The fourth character of each lead sentence differs ('p', 's', 'm'). */
  function Marker(c: Category): char {
    match c
    case A => 'p'
    case B => 's'
    case C => 'm'
  }

  lemma LeadMarkers(c: Category)
    ensures |Lead(c)| > 3 && Lead(c)[3] == Marker(c)
  {
  }

  /** The copy is the category's lead, a space, and the category's zone sentences joined by spaces. */
  lemma CopyIsLeadThenZone(info: ZoneInfo, c: Category)
    ensures CopyFor(info, c) == Lead(c) + " " + Unwords(ZoneSentences(info, c))
  {
    UnwordsTwo(info.tendencia, info.oportunidad);
    UnwordsTwo(info.tendencia, info.alerta);
  }

  /** The fourth character of the copy names the category. */
  lemma CopyMarker(info: ZoneInfo, c: Category)
    ensures |CopyFor(info, c)| > 3 && CopyFor(info, c)[3] == Marker(c)
  {
    LeadMarkers(c);
    CopyIsLeadThenZone(info, c);
  }

  /** The copy determines the category: two copies that read the same were built for the same category. */
  lemma CopyDeterminesCategory(i1: ZoneInfo, c1: Category, i2: ZoneInfo, c2: Category)
    requires CopyFor(i1, c1) == CopyFor(i2, c2)
    ensures c1 == c2
  {
    CopyMarker(i1, c1);
    CopyMarker(i2, c2);
  }

  /** A zone outside `ZONE_NAMES`, free text included, gets the default commentary rather than an error. */
  lemma UnknownZoneCopy(zone: string, c: Category)
    requires zone !in ZoneNames
    ensures BuildResultCopy(zone, c) == CopyFor(DefaultZoneInfo, c)
  {
  }

  // ---- the endpoint ----

  const BadJsonMessage: string := "Cuerpo de la petición no es JSON válido."

  /** A request: its JSON body (None when it does not parse) and the `agency` query parameter. */
  datatype Request = Request(body: Option<Json>, agency: Option<string>)

  /** How the webhook call ended: an HTTP status, or an exception (network failure, 10 s timeout). */
  datatype WebhookOutcome = Responded(status: int) | Failed

  /** `res.ok`: a 2xx status. */
  predicate WebhookOk(o: WebhookOutcome) {
    o.Responded? && 200 <= o.status <= 299
  }

  /** The lead sent to the webhook. */
  datatype WebhookCall = WebhookCall(url: string, payload: SubmitPayload)

  /** The HTTP status and JSON of the answer, and the webhook call made on the way, if any. */
  datatype Reply = Reply(status: int, response: ApiSubmitResponse, call: Option<WebhookCall>)

  /**
   * `POST`: a body that does not parse and a body the validator rejects are
   * both answered 400 with the corresponding message; a valid one is scored,
   * described, sent to the agency's webhook when a URL is configured, and
   * answered 200 with `delivered` telling whether the webhook accepted it.
   */
  function Post(zones: map<string, ZoneInfo>, req: Request, env: map<string, string>,
                outcome: WebhookOutcome, now: string): (r: Reply)
    ensures r.status == 400 <==> r.response.Rejected?
    ensures r.response.Rejected? ==> r.call.None?
  {
    match req.body
    case None => Reply(400, Rejected(BadJsonMessage), None)
    case Some(body) =>
      var agency := GetAgencyConfig(req.agency);
      match Validate(body)
      case Invalid(e) => Reply(400, Rejected(Message(e)), None)
      case Valid(w) =>
        var s := ComputeScore(w);
        var copy := CopyFor(LookupZone(zones, w.zone), s.category);
        var payload := SubmitPayload(w, agency.agencyId, agency.agencyName, s.score, s.category, now);
        var url := GetWebhookUrl(agency, env);
        var call := if url != "" then Some(WebhookCall(url, payload)) else None;
        var delivered := url != "" && WebhookOk(outcome);
        Reply(200, Accepted(s.score, s.category, copy, delivered), call)
  }

  // ---- properties ----

  /** An unparseable body is answered 400 with the JSON message; nothing is scored or sent. */
  lemma UnparseableRejected(zones: map<string, ZoneInfo>, req: Request, env: map<string, string>,
                            outcome: WebhookOutcome, now: string)
    requires req.body.None?
    ensures Post(zones, req, env, outcome, now) == Reply(400, Rejected(BadJsonMessage), None)
  {
  }

  /** A rejected body is answered 400 with the validator's message; nothing is scored or sent. */
  lemma InvalidRejected(zones: map<string, ZoneInfo>, req: Request, env: map<string, string>,
                        outcome: WebhookOutcome, now: string, e: ValidationError)
    requires req.body.Some? && Validate(req.body.value) == Invalid(e)
    ensures Post(zones, req, env, outcome, now) == Reply(400, Rejected(Message(e)), None)
  {
  }

  /** The two kinds of 400 answer are told apart by their message: no validator message is the JSON message. */
  lemma RejectionMessagesDistinct(e: ValidationError)
    ensures Message(e) != BadJsonMessage
  {
    if e.Missing? {
      assert Message(e)[0] != BadJsonMessage[0];
    }
  }

  /** The answer is positive exactly when the body parses and passes validation. */
  lemma AcceptedIffValid(zones: map<string, ZoneInfo>, req: Request, env: map<string, string>,
                         outcome: WebhookOutcome, now: string)
    ensures Post(zones, req, env, outcome, now).response.Accepted?
        <==> req.body.Some? && Validate(req.body.value).Valid?
  {
  }

  /**
   * A valid body is answered 200 with the score and category `computeScore`
   * gives the validated record and the copy for its zone and category.
   */
  lemma AcceptedIsScored(zones: map<string, ZoneInfo>, req: Request, env: map<string, string>,
                         outcome: WebhookOutcome, now: string, w: WizardData)
    requires req.body.Some? && Validate(req.body.value) == Valid(w)
    ensures var r := Post(zones, req, env, outcome, now);
      && r.status == 200 && r.response.Accepted?
      && r.response.score == ComputeScore(w).score
      && r.response.category == ComputeScore(w).category
      && r.response.resultCopy == CopyFor(LookupZone(zones, w.zone), ComputeScore(w).category)
  {
  }

  /**
   * The webhook is called exactly when the resolved URL is non-empty, and the
   * lead counts as delivered exactly when it was called and answered 2xx.
   */
  lemma DeliveredIff(zones: map<string, ZoneInfo>, req: Request, env: map<string, string>,
                     outcome: WebhookOutcome, now: string)
    requires req.body.Some? && Validate(req.body.value).Valid?
    ensures var r := Post(zones, req, env, outcome, now);
      var url := GetWebhookUrl(GetAgencyConfig(req.agency), env);
      && (r.call.Some? <==> url != "")
      && (r.call.Some? ==> r.call.value.url == url)
      && (r.response.delivered <==> url != "" && WebhookOk(outcome))
  {
  }

  /** The payload is the validated record plus the agency's id and name, the score, the category and the timestamp. */
  lemma PayloadShape(zones: map<string, ZoneInfo>, req: Request, env: map<string, string>,
                     outcome: WebhookOutcome, now: string, w: WizardData)
    requires req.body.Some? && Validate(req.body.value) == Valid(w)
    requires GetWebhookUrl(GetAgencyConfig(req.agency), env) != ""
    ensures var r := Post(zones, req, env, outcome, now);
      var agency := GetAgencyConfig(req.agency);
      r.call.Some? && r.call.value.payload
        == SubmitPayload(w, agency.agencyId, agency.agencyName, ComputeScore(w).score, ComputeScore(w).category, now)
  {
  }

  /**
   * A zone the record does not hold, free text included, is answered with
   * the default commentary rather than an error. For the deployed record the
   * keys are exactly `ZONE_NAMES` (`Zones.ZoneNamesAreTheKeys`), and the copy
   * is then `BuildResultCopy` (`UnknownZoneCopy`).
   */
  lemma EndpointUnknownZoneCopy(zones: map<string, ZoneInfo>, req: Request, env: map<string, string>,
                                outcome: WebhookOutcome, now: string, w: WizardData)
    requires req.body.Some? && Validate(req.body.value) == Valid(w)
    requires w.zone !in zones
    ensures var r := Post(zones, req, env, outcome, now);
      r.response.Accepted? && r.response.resultCopy == CopyFor(DefaultZoneInfo, ComputeScore(w).category)
  {
    AcceptedIsScored(zones, req, env, outcome, now, w);
  }

  /** The validator never passes a freno on, so through this endpoint the score is at most 8. */
  lemma EndpointScoreAtMostEight(zones: map<string, ZoneInfo>, req: Request, env: map<string, string>,
                                 outcome: WebhookOutcome, now: string)
    ensures var r := Post(zones, req, env, outcome, now);
      r.response.Accepted? ==> r.response.score <= 8
  {
    if req.body.Some? && Validate(req.body.value).Valid? {
      NoFrenoAtMostEight(Validate(req.body.value).data);
    }
  }
}
