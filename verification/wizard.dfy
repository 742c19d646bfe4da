/**
 * The non-rendering logic of the wizard (components/WizardShell.tsx): the
 * draft answers, per-step validation, navigation between the ten steps,
 * the custom-zone handlers, reset, restoring a saved draft, submission, and
 * the profile-specific title of the contact step.
 *
 * The draft is a `Partial<WizardData>`: a record from answer keys to JSON
 * values, exactly what is saved in storage and sent as the request body.
 */
module Wizard {
  import opened Undefined
  import opened Text
  import opened Json
  import opened Types
  import Scoring
  import Validators

  /** `TOTAL_STEPS`: step 1 is the introduction, step 10 the contact form. */
  const TotalSteps: real := 10.0

  /** The answers of the wizard, by their key in `WizardData`. */
  datatype Slot =
    | Profile | Freno | Zone | PropertyType | PurchaseRange | Satisfaction
    | Intent | AnalysisCommitment | Name | Email | Phone | Consent

  function SlotKey(k: Slot): string {
    match k
    case Profile => "profile"
    case Freno => "freno"
    case Zone => "zone"
    case PropertyType => "propertyType"
    case PurchaseRange => "purchaseRange"
    case Satisfaction => "satisfaction"
    case Intent => "intent"
    case AnalysisCommitment => "analysisCommitment"
    case Name => "name"
    case Email => "email"
    case Phone => "phone"
    case Consent => "consent"
  }

  /** The two error keys that are not answers. */
  const CustomZoneKey: string := "customZone"
  const FormKey: string := "form"

  /** What the result screen shows. */
  datatype ResultData = ResultData(score: int, category: Category, resultCopy: string, delivered: bool)

  datatype State = State(
    step: real,
    data: map<string, Json>,
    errors: map<string, string>,
    submitting: bool,
    result: Option<ResultData>,
    customZoneMode: bool,
    customZoneText: string)

  /** The state before anything is restored or answered. */
  const Initial: State := State(1.0, map[], map[], false, None, false, "")

  /** The step is one of the wizard's pages. */
  predicate InRange(s: State) {
    1.0 <= s.step <= TotalSteps
  }

  // ---- messages ----

  const PickOne: string := "Por favor, selecciona una opción."
  const WriteZone: string := "Por favor, escribe tu municipio o zona."
  const PickZone: string := "Por favor, selecciona tu zona."
  const PickPropertyType: string := "Por favor, selecciona el tipo de propiedad."
  const PickScore: string := "Por favor, selecciona una puntuación."
  const NameRequired: string := "El nombre es obligatorio."
  const EmailRequired: string := "El email es obligatorio."
  const EmailInvalid: string := "Introduce un email válido."
  const PhoneRequired: string := "El teléfono es obligatorio."
  const ConsentRequired: string := "Debes aceptar el consentimiento para continuar."
  const SendFailed: string := "Error de conexión. Comprueba tu red e inténtalo de nuevo."

  // ---- per-step validation ----

  /** `!data.key`: the answer is missing or falsy. */
  function Require(data: map<string, Json>, k: Slot, msg: string): (e: map<string, string>) {
    if Truthy(Get(data, SlotKey(k))) then map[] else map[SlotKey(k) := msg]
  }

  /** A text answer that is not blank once trimmed. */
  predicate HasText(data: map<string, Json>, k: Slot) {
    var v := Get(data, SlotKey(k));
    v.Some? && v.value.JStr? && Trim(v.value.s) != ""
  }

  /** `!data.key?.trim()`: the answer is missing or blank; a non-text answer counts as missing. */
  function RequireText(data: map<string, Json>, k: Slot, msg: string): (e: map<string, string>) {
    if HasText(data, k) then map[] else map[SlotKey(k) := msg]
  }

  /** The e-mail of the contact step: required, then the same pattern as the server after trimming. */
  function EmailErrors(data: map<string, Json>): (e: map<string, string>) {
    if !HasText(data, Email) then map[SlotKey(Email) := EmailRequired]
    else if Validators.IsEmail(Trim(Get(data, SlotKey(Email)).value.s)) then map[]
    else map[SlotKey(Email) := EmailInvalid]
  }

  /** The question asked on each page from 2 to 9. */
  function Question(step: int): Slot
    requires 2 <= step <= 9
  {
    [Profile, Freno, Zone, PropertyType, PurchaseRange, Satisfaction, Intent, AnalysisCommitment][step - 2]
  }

  /** The message shown when the question of a page from 2 to 9 is left unanswered. */
  function QuestionMessage(step: int): string
    requires 2 <= step <= 9
  {
    if step == 4 then PickZone
    else if step == 5 then PickPropertyType
    else if step == 7 then PickScore
    else PickOne
  }

  /** The four checks of the contact page, whose errors are collected together. */
  function ContactUnion(data: map<string, Json>): map<string, string> {
    RequireText(data, Name, NameRequired) + EmailErrors(data)
    + RequireText(data, Phone, PhoneRequired) + Require(data, Consent, ConsentRequired)
  }

  lemma ContactUnionKeys(data: map<string, Json>)
    ensures var n, e, p, c := RequireText(data, Name, NameRequired), EmailErrors(data),
                              RequireText(data, Phone, PhoneRequired), Require(data, Consent, ConsentRequired);
      ContactUnion(data).Keys == n.Keys + e.Keys + p.Keys + c.Keys
  {
    var n, e, p, c := RequireText(data, Name, NameRequired), EmailErrors(data),
                      RequireText(data, Phone, PhoneRequired), Require(data, Consent, ConsentRequired);
    UnionFacts(n, e);
    UnionFacts(n + e, p);
    UnionFacts(n + e + p, c);
  }

  lemma ContactUnionEmpty(data: map<string, Json>)
    ensures |ContactUnion(data)| == 0 <==>
      HasText(data, Name) && EmailAccepted(data) && HasText(data, Phone) && Truthy(Get(data, SlotKey(Consent)))
  {
    var n, e, p, c := RequireText(data, Name, NameRequired), EmailErrors(data),
                      RequireText(data, Phone, PhoneRequired), Require(data, Consent, ConsentRequired);
    RequireTextFacts(data, Name, NameRequired);
    EmailFacts(data);
    RequireTextFacts(data, Phone, PhoneRequired);
    RequireFacts(data, Consent, ConsentRequired);
    UnionFacts(n, e);
    UnionFacts(n + e, p);
    UnionFacts(n + e + p, c);
  }

  lemma ContactUnionNames(data: map<string, Json>)
    ensures forall key :: key in ContactUnion(data) ==>
      key == SlotKey(Name) || key == SlotKey(Email) || key == SlotKey(Phone) || key == SlotKey(Consent)
  {
    var n, e, p, c := RequireText(data, Name, NameRequired), EmailErrors(data),
                      RequireText(data, Phone, PhoneRequired), Require(data, Consent, ConsentRequired);
    ContactUnionKeys(data);
    assert n.Keys <= {SlotKey(Name)} by {
      RequireTextFacts(data, Name, NameRequired);
    }
    assert e.Keys <= {SlotKey(Email)} by {
      EmailFacts(data);
    }
    assert p.Keys <= {SlotKey(Phone)} by {
      RequireTextFacts(data, Phone, PhoneRequired);
    }
    assert c.Keys <= {SlotKey(Consent)} by {
      RequireFacts(data, Consent, ConsentRequired);
    }
  }

  lemma ContactUnionEmail(data: map<string, Json>)
    ensures SlotKey(Email) in ContactUnion(data) <==> !EmailAccepted(data)
  {
    var n, e, p, c := RequireText(data, Name, NameRequired), EmailErrors(data),
                      RequireText(data, Phone, PhoneRequired), Require(data, Consent, ConsentRequired);
    ContactUnionKeys(data);
    assert SlotKey(Email) !in n.Keys by {
      RequireTextFacts(data, Name, NameRequired);
      SlotKeysDistinct(Email, Name);
    }
    assert SlotKey(Email) !in p.Keys by {
      RequireTextFacts(data, Phone, PhoneRequired);
      SlotKeysDistinct(Email, Phone);
    }
    assert SlotKey(Email) !in c.Keys by {
      RequireFacts(data, Consent, ConsentRequired);
      SlotKeysDistinct(Email, Consent);
    }
    EmailFacts(data);
  }

  /**
   * The errors of the contact page: none exactly when the name and phone are
   * non-blank text, the trimmed e-mail matches the pattern and consent is
   * truthy; only those four answers are ever named.
   */
  function ContactErrors(data: map<string, Json>): (e: map<string, string>)
    ensures |e| == 0 <==>
      HasText(data, Name) && EmailAccepted(data) && HasText(data, Phone) && Truthy(Get(data, SlotKey(Consent)))
    ensures forall key :: key in e ==>
      key == SlotKey(Name) || key == SlotKey(Email) || key == SlotKey(Phone) || key == SlotKey(Consent)
    ensures SlotKey(Email) in e <==> !EmailAccepted(data)
  {
    ContactUnionEmpty(data);
    ContactUnionNames(data);
    ContactUnionEmail(data);
    ContactUnion(data)
  }

  /** The check of a question page: its answer must be present and truthy. */
  function QuestionErrors(data: map<string, Json>, page: int): (e: map<string, string>)
    requires 2 <= page <= 9
    ensures |e| == 0 <==> Truthy(Get(data, SlotKey(Question(page))))
    ensures e.Keys <= {SlotKey(Question(page))}
  {
    RequireFacts(data, Question(page), QuestionMessage(page));
    Require(data, Question(page), QuestionMessage(page))
  }

  /** The check of the zone page in custom mode: the typed text must not be blank. */
  function CustomZoneErrors(text: string): (e: map<string, string>)
    ensures |e| == 0 <==> Trim(text) != ""
    ensures e.Keys <= {CustomZoneKey}
  {
    if Trim(text) == "" then map[CustomZoneKey := WriteZone] else map[]
  }

  /**
   * `validateStep`: the errors of one step; the step passes when there are
   * none. A question page checks its own answer, the zone page in custom mode
   * the typed text, the contact page its four answers, and any other step
   * nothing.
   */
  function StepErrors(s: State, step: real): (e: map<string, string>)
    ensures 2.0 <= step <= 9.0 && step == step.Floor as real && !(step == 4.0 && s.customZoneMode) ==>
      var key := SlotKey(Question(step.Floor));
      (|e| == 0 <==> Truthy(Get(s.data, key))) && e.Keys <= {key}
    ensures step == 4.0 && s.customZoneMode ==>
      (|e| == 0 <==> Trim(s.customZoneText) != "") && e.Keys <= {CustomZoneKey}
    ensures step == 10.0 ==>
      (|e| == 0 <==> HasText(s.data, Name) && EmailAccepted(s.data) && HasText(s.data, Phone)
                     && Truthy(Get(s.data, SlotKey(Consent))))
    ensures step != 10.0 && !(2.0 <= step <= 9.0 && step == step.Floor as real) ==> e == map[]
  {
    if step == 10.0 then ContactErrors(s.data)
    else if step == 4.0 && s.customZoneMode then CustomZoneErrors(s.customZoneText)
    else if 2.0 <= step <= 9.0 && step == step.Floor as real then QuestionErrors(s.data, step.Floor)
    else map[]
  }

  // ---- transitions ----

  /** `handleNext`: the introduction always advances; any other step advances only when it validates, and never past the last. */
  function Next(s: State): (r: State)
    ensures r.data == s.data && r.customZoneMode == s.customZoneMode && r.customZoneText == s.customZoneText
    ensures s.step <= TotalSteps ==> s.step <= r.step <= s.step + 1.0 && r.step <= TotalSteps
    ensures r.step != s.step <==> s.step == 1.0 || (|StepErrors(s, s.step)| == 0 && s.step != TotalSteps)
  {
    if s.step == 1.0 then s.(step := 2.0)
    else
      var e := StepErrors(s, s.step);
      if |e| == 0 then s.(errors := e, step := if s.step + 1.0 < TotalSteps then s.step + 1.0 else TotalSteps)
      else s.(errors := e)
  }

  /** `handleBack`: clears every error and goes back one step, never before the first. */
  function Back(s: State): (r: State)
    ensures r.errors == map[]
    ensures r.data == s.data && r.customZoneMode == s.customZoneMode && r.customZoneText == s.customZoneText
  {
    s.(errors := map[], step := if s.step - 1.0 > 1.0 then s.step - 1.0 else 1.0)
  }

  /** `handleReset`. */
  function Reset(s: State): (r: State)
    ensures r.step == 1.0 && r.data == map[] && r.errors == map[] && r.result.None?
    ensures !r.submitting && !r.customZoneMode && r.customZoneText == ""
  {
    Initial
  }

  /**
   * `updateField`: sets exactly the one answer and drops only its error;
   * choosing a zone also leaves custom mode and forgets the typed text.
   */
  function UpdateField(s: State, k: Slot, v: Json): (r: State)
    ensures Get(r.data, SlotKey(k)) == Some(v) && SlotKey(k) !in r.errors
    ensures forall key :: key != SlotKey(k) ==> Get(r.data, key) == Get(s.data, key)
    ensures forall key :: key != SlotKey(k) ==> Get(r.errors, key) == Get(s.errors, key)
    ensures r.step == s.step && r.result == s.result && r.submitting == s.submitting
    ensures k == Zone ==> !r.customZoneMode && r.customZoneText == ""
    ensures k != Zone ==> r.customZoneMode == s.customZoneMode && r.customZoneText == s.customZoneText
  {
    var t := s.(data := s.data[SlotKey(k) := v], errors := s.errors - {SlotKey(k)});
    if k == Zone then t.(customZoneMode := false, customZoneText := "") else t
  }

  /** `handleSelectCustomZone`: custom mode on, the zone emptied, the zone errors dropped, nothing else touched. */
  function SelectCustomZone(s: State): (r: State)
    ensures r.customZoneMode && r.customZoneText == s.customZoneText
    ensures Get(r.data, SlotKey(Zone)) == Some(JStr(""))
    ensures forall key :: key != SlotKey(Zone) ==> Get(r.data, key) == Get(s.data, key)
    ensures forall key :: key in r.errors <==> key in s.errors && key != SlotKey(Zone) && key != CustomZoneKey
    ensures r.step == s.step && r.result == s.result
  {
    s.(customZoneMode := true, data := s.data[SlotKey(Zone) := JStr("")],
       errors := s.errors - {SlotKey(Zone), CustomZoneKey})
  }

  /** `handleCustomZoneTextChange`: the raw text is kept, the zone answer is its trimmed form, the zone errors dropped. */
  function CustomZoneTextChange(s: State, v: string): (r: State)
    ensures r.customZoneText == v && r.customZoneMode == s.customZoneMode
    ensures Get(r.data, SlotKey(Zone)) == Some(JStr(Trim(v)))
    ensures forall key :: key != SlotKey(Zone) ==> Get(r.data, key) == Get(s.data, key)
    ensures forall key :: key in r.errors <==> key in s.errors && key != SlotKey(Zone) && key != CustomZoneKey
    ensures r.step == s.step && r.result == s.result
  {
    s.(customZoneText := v, data := s.data[SlotKey(Zone) := JStr(Trim(v))],
       errors := s.errors - {CustomZoneKey, SlotKey(Zone)})
  }

  /** A saved draft, as far as it parsed: each part is present only when the stored record holds it. */
  datatype Saved = Saved(step: Option<real>, data: Option<map<string, Json>>,
                         customZoneMode: Option<bool>, customZoneText: Option<string>)

  /**
   * The restore effect on mount: a stored step is taken only when it lies in
   * [1, 10]; custom mode only when true, custom text only when non-empty.
   * `None` is no draft, or one that does not parse.
   */
  function Hydrate(saved: Option<Saved>): (r: State)
    ensures InRange(r)
  {
    match saved
    case None => Initial
    case Some(p) =>
      var step := if p.step.Some? && 1.0 <= p.step.value <= TotalSteps then p.step.value else 1.0;
      var data := if p.data.Some? then p.data.value else map[];
      var mode := p.customZoneMode == Some(true);
      var text := if p.customZoneText.Some? then p.customZoneText.value else "";
      Initial.(step := step, data := data, customZoneMode := mode, customZoneText := text)
  }

  /** How the request of `handleSubmit` ended: the endpoint's answer, or a network or parse failure. */
  datatype ServerAnswer = Answered(response: ApiSubmitResponse) | Unreachable

  /**
   * `handleSubmit`, once settled: nothing is sent unless the contact step
   * validates; an acceptance shows the result, a rejection shows the
   * server's message, a failure the connection message.
   */
  function Submit(s: State, answer: ServerAnswer): (r: State)
    ensures r.step == s.step && r.data == s.data
  {
    var e := StepErrors(s, 10.0);
    if |e| != 0 then s.(errors := e)
    else match answer
      case Answered(Accepted(score, category, copy, delivered)) =>
        s.(errors := map[], submitting := false, result := Some(ResultData(score, category, copy, delivered)))
      case Answered(Rejected(message)) =>
        s.(errors := map[FormKey := message], submitting := false)
      case Unreachable =>
        s.(errors := map[FormKey := SendFailed], submitting := false)
  }

  // ---- contact title ----

  datatype ContactCopy = ContactCopy(title: string, subtitle: string)

  /** The contact step's copy for each of the six situations with a personalised title. */
  const ContactTable: map<string, ContactCopy> := map[
    "Heredé un piso y no sé qué hacer con él" := ContactCopy(
      "Te orientamos sin rodeos jurídicos ni presión",
      "Dinos dónde contactarte y te explicamos tus opciones reales en 10 minutos."),
    "Tengo un piso alquilado y estoy harto de gestionarlo" := ContactCopy(
      "Hay opciones para dejar de gestionar hoy mismo",
      "Te contamos alternativas reales — venta, gestión delegada, o algo intermedio."),
    "El piso lleva tiempo vacío y pagando gastos" := ContactCopy(
      "Calculamos exactamente cuánto te cuesta cada mes de espera",
      "Es un dato que necesitas conocer para decidir con cabeza, no con emoción."),
    "Quiero cambiar de vida pero el piso me lo impide" := ContactCopy(
      "Te ayudamos a dar el paso con seguridad y sin sustos",
      "Muchos propietarios descubren que el proceso es mucho más sencillo de lo que imaginaban."),
    "Tengo capital bloqueado en ladrillo y necesito liquidez" := ContactCopy(
      "Te mostramos qué rendimiento real podrías obtener",
      "Comparamos el coste de oportunidad de tu piso con alternativas de inversión actuales."),
    "Hay un tema familiar sin resolver (herencia, separación)" := ContactCopy(
      "Lo analizamos con discreción, sin juzgar y sin complicarlo",
      "Estas situaciones tienen más salida de la que parece. Te la explicamos.")
  ]

  const DefaultContact: ContactCopy := ContactCopy(
    "¿A dónde te enviamos tu informe de mercado?",
    "Solo te contactaremos para enviarte el informe solicitado. Sin spam.")

  /** `getContactTitle`: the personalised copy for a listed profile, otherwise the generic one. */
  function GetContactTitle(profile: Option<string>): (r: ContactCopy)
    ensures profile.Some? && profile.value in ContactTable ==> r == ContactTable[profile.value]
    ensures profile.None? || profile.value !in ContactTable ==> r == DefaultContact
  {
    match profile
    case Some(p) => if p in ContactTable then ContactTable[p] else DefaultContact
    case None => DefaultContact
  }

  // ---- properties: navigation ----

  /** Next and back keep the step within [1, 10]. */
  lemma NavigationInRange(s: State)
    requires InRange(s)
    ensures InRange(Next(s)) && InRange(Back(s))
  {
  }

  /** A stored step is restored exactly when it lies in [1, 10]; otherwise the wizard starts at 1. */
  lemma HydrateStep(p: Saved)
    ensures p.step.Some? && 1.0 <= p.step.value <= TotalSteps ==> Hydrate(Some(p)).step == p.step.value
    ensures !(p.step.Some? && 1.0 <= p.step.value <= TotalSteps) ==> Hydrate(Some(p)).step == 1.0
  {
  }

  /** The introduction advances to step 2 whatever has been answered, and leaves the errors alone. */
  lemma IntroAlwaysAdvances(s: State)
    requires s.step == 1.0
    ensures Next(s).step == 2.0 && Next(s).errors == s.errors
  {
  }

  /** A `Require` check passes exactly when the answer is truthy, and otherwise reports that answer alone. */
  lemma RequireFacts(data: map<string, Json>, k: Slot, msg: string)
    ensures |Require(data, k, msg)| == 0 <==> Truthy(Get(data, SlotKey(k)))
    ensures Truthy(Get(data, SlotKey(k))) ==> Require(data, k, msg) == map[]
    ensures !Truthy(Get(data, SlotKey(k))) ==> Require(data, k, msg).Keys == {SlotKey(k)}
  {
  }

  /** Next on a page whose only check is a `Require` on answer `k`. */
  lemma NextOnRequirePage(s: State, k: Slot, msg: string)
    requires 2.0 <= s.step <= 9.0 && StepErrors(s, s.step) == Require(s.data, k, msg)
    ensures Next(s).step == s.step + 1.0 <==> Truthy(Get(s.data, SlotKey(k)))
    ensures Truthy(Get(s.data, SlotKey(k))) ==> Next(s).errors == map[]
    ensures !Truthy(Get(s.data, SlotKey(k))) ==> Next(s).step == s.step && Next(s).errors.Keys == {SlotKey(k)}
  {
    RequireFacts(s.data, k, msg);
  }

  /**
   * On a question page the wizard advances exactly when that page's answer is
   * present and truthy; otherwise it stays and reports an error on that
   * answer only.
   */
  lemma QuestionPageAdvancesIff(s: State, step: int)
    requires 2 <= step <= 9 && s.step == step as real
    requires !(step == 4 && s.customZoneMode)
    ensures var key := SlotKey(Question(step));
      && (Next(s).step == s.step + 1.0 <==> Truthy(Get(s.data, key)))
      && (Truthy(Get(s.data, key)) ==> Next(s).errors == map[])
      && (!Truthy(Get(s.data, key)) ==> Next(s).step == s.step && Next(s).errors.Keys == {key})
  {
    if step == 2 {
      NextOnRequirePage(s, Profile, PickOne);
    } else if step == 3 {
      NextOnRequirePage(s, Freno, PickOne);
    } else if step == 4 {
      NextOnRequirePage(s, Zone, PickZone);
    } else if step == 5 {
      NextOnRequirePage(s, PropertyType, PickPropertyType);
    } else if step == 6 {
      NextOnRequirePage(s, PurchaseRange, PickOne);
    } else if step == 7 {
      NextOnRequirePage(s, Satisfaction, PickScore);
    } else if step == 8 {
      NextOnRequirePage(s, Intent, PickOne);
    } else {
      NextOnRequirePage(s, AnalysisCommitment, PickOne);
    }
  }

  /** In custom mode the zone page checks the typed text instead of the zone answer. */
  lemma CustomZonePageAdvancesIff(s: State)
    requires s.step == 4.0 && s.customZoneMode
    ensures Next(s).step == 5.0 <==> Trim(s.customZoneText) != ""
    ensures Trim(s.customZoneText) == "" ==> Next(s).errors == map[CustomZoneKey := WriteZone]
  {
    assert Trim(s.customZoneText) == "" ==> CustomZoneKey in StepErrors(s, 4.0);
  }

  /** The e-mail answer is non-blank text whose trimmed form matches the pattern. */
  predicate EmailAccepted(data: map<string, Json>) {
    HasText(data, Email) && Validators.IsEmail(Trim(Get(data, SlotKey(Email)).value.s))
  }

  lemma RequireTextFacts(data: map<string, Json>, k: Slot, msg: string)
    ensures |RequireText(data, k, msg)| == 0 <==> HasText(data, k)
    ensures RequireText(data, k, msg).Keys <= {SlotKey(k)}
  {
  }

  lemma EmailFacts(data: map<string, Json>)
    ensures |EmailErrors(data)| == 0 <==> EmailAccepted(data)
    ensures EmailErrors(data).Keys == if EmailAccepted(data) then {} else {SlotKey(Email)}
  {
  }

  /** The union of two error records is empty exactly when both are, and holds the keys of both. */
  lemma UnionFacts(a: map<string, string>, b: map<string, string>)
    ensures (a + b).Keys == a.Keys + b.Keys
    ensures |a + b| == 0 <==> |a| == 0 && |b| == 0
  {
    if |a| != 0 {
      var k :| k in a;
      assert k in a + b;
    }
    if |b| != 0 {
      var k :| k in b;
      assert k in a + b;
    }
  }

  /** The contact page's errors are the union of its four checks. */
  lemma ContactErrorsSplit(s: State)
    ensures var n, e, p, c := RequireText(s.data, Name, NameRequired), EmailErrors(s.data),
                              RequireText(s.data, Phone, PhoneRequired), Require(s.data, Consent, ConsentRequired);
      && StepErrors(s, 10.0) == n + e + p + c
      && StepErrors(s, 10.0).Keys == n.Keys + e.Keys + p.Keys + c.Keys
  {
    var n, e, p, c := RequireText(s.data, Name, NameRequired), EmailErrors(s.data),
                      RequireText(s.data, Phone, PhoneRequired), Require(s.data, Consent, ConsentRequired);
    UnionFacts(n, e);
    UnionFacts(n + e, p);
    UnionFacts(n + e + p, c);
  }

  /**
   * The contact page passes exactly when the name and phone are non-blank
   * text, the trimmed e-mail matches the pattern and consent is truthy.
   */
  lemma ContactPageValidIff(s: State)
    ensures |StepErrors(s, 10.0)| == 0 <==>
      HasText(s.data, Name) && EmailAccepted(s.data) && HasText(s.data, Phone) && Truthy(Get(s.data, "consent"))
  {
    var n, e, p, c := RequireText(s.data, Name, NameRequired), EmailErrors(s.data),
                      RequireText(s.data, Phone, PhoneRequired), Require(s.data, Consent, ConsentRequired);
    ContactErrorsSplit(s);
    RequireTextFacts(s.data, Name, NameRequired);
    EmailFacts(s.data);
    RequireTextFacts(s.data, Phone, PhoneRequired);
    RequireFacts(s.data, Consent, ConsentRequired);
    UnionFacts(n, e);
    UnionFacts(n + e, p);
    UnionFacts(n + e + p, c);
  }

  /** The contact page's errors name only the name, e-mail, phone and consent answers. */
  lemma ContactErrorKeys(s: State)
    ensures forall key :: key in StepErrors(s, 10.0) ==>
      key == SlotKey(Name) || key == SlotKey(Email) || key == SlotKey(Phone) || key == SlotKey(Consent)
  {
    var n, e, p, c := RequireText(s.data, Name, NameRequired), EmailErrors(s.data),
                      RequireText(s.data, Phone, PhoneRequired), Require(s.data, Consent, ConsentRequired);
    ContactErrorsSplit(s);
    assert n.Keys <= {SlotKey(Name)} by {
      RequireTextFacts(s.data, Name, NameRequired);
    }
    assert e.Keys <= {SlotKey(Email)} by {
      EmailFacts(s.data);
    }
    assert p.Keys <= {SlotKey(Phone)} by {
      RequireTextFacts(s.data, Phone, PhoneRequired);
    }
    assert c.Keys <= {SlotKey(Consent)} by {
      RequireFacts(s.data, Consent, ConsentRequired);
    }
  }

  /** The e-mail error is reported exactly when the e-mail answer is not accepted. */
  lemma ContactEmailError(s: State)
    ensures SlotKey(Email) in StepErrors(s, 10.0) <==> !EmailAccepted(s.data)
  {
    var n, e, p, c := RequireText(s.data, Name, NameRequired), EmailErrors(s.data),
                      RequireText(s.data, Phone, PhoneRequired), Require(s.data, Consent, ConsentRequired);
    ContactErrorsSplit(s);
    assert SlotKey(Email) !in n.Keys by {
      RequireTextFacts(s.data, Name, NameRequired);
      SlotKeysDistinct(Email, Name);
    }
    assert SlotKey(Email) !in p.Keys by {
      RequireTextFacts(s.data, Phone, PhoneRequired);
      SlotKeysDistinct(Email, Phone);
    }
    assert SlotKey(Email) !in c.Keys by {
      RequireFacts(s.data, Consent, ConsentRequired);
      SlotKeysDistinct(Email, Consent);
    }
    EmailFacts(s.data);
  }

  /** Passing the contact page keeps the wizard on the last page. */
  lemma LastPageIsLast(s: State)
    requires s.step == 10.0
    ensures Next(s).step == 10.0
  {
  }

  /** Back clears every error and goes back exactly one page, except from the first. */
  lemma BackOnePage(s: State)
    requires InRange(s)
    ensures Back(s).errors == map[]
    ensures s.step >= 2.0 ==> Back(s).step == s.step - 1.0
    ensures s.step < 2.0 ==> Back(s).step == 1.0
  {
  }

  /** Reset returns to the initial state from anywhere, and the introduction then leads to step 2. */
  lemma ResetIsInitial(s: State)
    ensures Reset(s) == Initial && InRange(Reset(s))
    ensures Next(Reset(s)).step == 2.0
  {
  }

  // ---- properties: answers ----

  /** Different answers are stored under different keys. */
  lemma SlotKeysDistinct(j: Slot, k: Slot)
    requires j != k
    ensures SlotKey(j) != SlotKey(k)
  {
  }

  /**
   * `updateField` sets exactly the one answer and clears only its error;
   * every other answer and error, and the page, are unchanged.
   */
  lemma UpdateFieldIsLocal(s: State, k: Slot, v: Json)
    ensures var r := UpdateField(s, k, v);
      && Get(r.data, SlotKey(k)) == Some(v) && SlotKey(k) !in r.errors && r.step == s.step
      && (forall key :: key != SlotKey(k) ==> Get(r.data, key) == Get(s.data, key))
      && (forall key :: key != SlotKey(k) ==> Get(r.errors, key) == Get(s.errors, key))
  {
  }

  /** Any other answer keeps its value. */
  lemma UpdateFieldKeepsOthers(s: State, k: Slot, v: Json, j: Slot)
    requires j != k
    ensures Get(UpdateField(s, k, v).data, SlotKey(j)) == Get(s.data, SlotKey(j))
  {
    SlotKeysDistinct(j, k);
    UpdateFieldIsLocal(s, k, v);
  }

  /** Choosing a zone leaves custom mode and forgets the typed text; any other answer leaves both alone. */
  lemma UpdateFieldCustomMode(s: State, k: Slot, v: Json)
    ensures k == Zone ==> !UpdateField(s, k, v).customZoneMode && UpdateField(s, k, v).customZoneText == ""
    ensures k != Zone ==> UpdateField(s, k, v).customZoneMode == s.customZoneMode
                          && UpdateField(s, k, v).customZoneText == s.customZoneText
  {
  }

  /** A preset zone chosen on the zone page lets it pass exactly when the name is non-empty. */
  lemma PresetZonePage(s: State, zone: string)
    requires s.step == 4.0
    ensures var r := UpdateField(s, Zone, JStr(zone));
      Next(r).step == 5.0 <==> zone != ""
  {
  }

  /**
   * Choosing the custom option empties the zone and turns custom mode on;
   * typing then stores the trimmed text as the zone, and the zone page
   * passes exactly when that text is not blank.
   */
  lemma CustomZoneFlow(s: State, v: string)
    requires s.step == 4.0
    ensures var c := SelectCustomZone(s);
      c.customZoneMode && Get(c.data, SlotKey(Zone)) == Some(JStr(""))
      && SlotKey(Zone) !in c.errors && CustomZoneKey !in c.errors
    ensures var t := CustomZoneTextChange(SelectCustomZone(s), v);
      && t.customZoneMode && t.customZoneText == v
      && Get(t.data, SlotKey(Zone)) == Some(JStr(Trim(v)))
      && (Next(t).step == 5.0 <==> Trim(v) != "")
  {
  }

  // ---- properties: client and server agree ----

  /**
   * The contact page and the endpoint use the same e-mail pattern on the
   * trimmed text: for a text answer, the page reports no e-mail error
   * exactly when the validator's e-mail check passes on the body the wizard
   * sends.
   */
  lemma ClientEmailIffServerEmail(s: State, t: string)
    requires Get(s.data, SlotKey(Email)) == Some(JStr(t))
    ensures SlotKey(Email) !in StepErrors(s, 10.0)
        <==> !Validators.Blank(s.data, Validators.Email)
             && Validators.IsEmail(Validators.FieldText(s.data, Validators.Email))
  {
    ContactEmailError(s);
  }

  // ---- properties: submission ----

  /** When the contact page does not validate nothing is sent: the server's answer cannot matter. */
  lemma BlockedSubmitSendsNothing(s: State, a1: ServerAnswer, a2: ServerAnswer)
    requires |StepErrors(s, 10.0)| != 0
    ensures Submit(s, a1) == Submit(s, a2) == s.(errors := StepErrors(s, 10.0))
  {
  }

  /**
   * The result screen appears exactly when the contact page validates and
   * the endpoint accepts; it shows what the endpoint returned.
   */
  lemma ResultShownIff(s: State, a: ServerAnswer)
    requires s.result.None?
    ensures Submit(s, a).result.Some? <==> |StepErrors(s, 10.0)| == 0 && a.Answered? && a.response.Accepted?
    ensures Submit(s, a).result.Some? ==>
      var x := a.response;
      Submit(s, a).result == Some(ResultData(x.score, x.category, x.resultCopy, x.delivered))
  {
  }

  /** A rejection or a failure leaves the answers in place and shows one form-level message. */
  lemma FailedSubmitKeepsDraft(s: State, a: ServerAnswer)
    requires |StepErrors(s, 10.0)| == 0
    requires !(a.Answered? && a.response.Accepted?)
    ensures var r := Submit(s, a);
      r.data == s.data && r.result == s.result && !r.submitting && r.errors.Keys == {FormKey}
  {
  }

  // ---- properties: contact title ----

  /** The six personalised titles are exactly for the six situations the scoring engine awards points. */
  lemma ContactTitlesFollowScoredProfiles()
    ensures forall p :: p in ContactTable <==> p in Scoring.ProfileTable
  {
  }

  /** The contact copy is personalised exactly for a listed profile. */
  lemma PersonalisedIff(profile: Option<string>)
    ensures GetContactTitle(profile) != DefaultContact <==> profile.Some? && profile.value in ContactTable
  {
    if profile.Some? && profile.value in ContactTable {
      TitlesAreNotDefault(profile.value);
    }
  }

  lemma TitlesAreNotDefault(p: string)
    requires p in ContactTable
    ensures ContactTable[p].title != DefaultContact.title
  {
  }

  /** The valuation-only profile, the one option without a table entry, gets the generic copy. */
  lemma ValuationOnlyGetsDefault()
    ensures GetContactTitle(Some("Solo quiero saber cuánto vale mi propiedad")) == DefaultContact
  {
  }
}
