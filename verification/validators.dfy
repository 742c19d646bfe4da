/**
 * The submit-body validator (lib/validators.ts): a fail-fast sequence of
 * checks over an untyped body that either rejects it with one message or
 * returns a trimmed, normalised answer record.
 */
module Validators {
  import opened Undefined
  import opened Text
  import opened Json
  import opened Types

  /** Why a body was rejected; `Message` gives the text the endpoint returns. */
  datatype ValidationError =
    | BadBody
    | Missing(field: Field)
    | BadEmail
    | BadSatisfaction
    | NoConsent

  datatype ValidationResult = Valid(data: WizardData) | Invalid(error: ValidationError)

  /**
   * The text of each rejection; a missing-field message names the field
   * between its opening words and its closing quote.
   */
  function Message(e: ValidationError): (r: string)
    ensures e.Missing? ==> |r| == 27 + |Key(e.field)| && r[10..10 + |Key(e.field)|] == Key(e.field)
  {
    match e
    case BadBody => "Invalid request body."
    case Missing(f) => "El campo \"" + Key(f) + "\" es obligatorio."
    case BadEmail => "El email no tiene un formato válido."
    case BadSatisfaction => "La satisfacción debe ser un número entre 1 y 5."
    case NoConsent => "Es necesario aceptar el consentimiento para continuar."
  }

  /** The required text fields of the body. */
  datatype Field = Profile | Zone | PropertyType | PurchaseRange | Intent | AnalysisCommitment | Name | Email | Phone

  /** The body key of a field. */
  function Key(f: Field): string {
    match f
    case Profile => "profile"
    case Zone => "zone"
    case PropertyType => "propertyType"
    case PurchaseRange => "purchaseRange"
    case Intent => "intent"
    case AnalysisCommitment => "analysisCommitment"
    case Name => "name"
    case Email => "email"
    case Phone => "phone"
  }

  /** Different fields have different keys. */
  lemma KeyInjective(f: Field, g: Field)
    requires Key(f) == Key(g)
    ensures f == g
  {
  }

  /** Every rejection has its own text: the message tells which check failed and, for a missing field, which field. */
  lemma MessageInjective(e1: ValidationError, e2: ValidationError)
    requires Message(e1) == Message(e2)
    ensures e1 == e2
  {
    if e1.Missing? && e2.Missing? {
      KeyInjective(e1.field, e2.field);
    }
  }

  /** The required text fields, in the order they are checked. */
  const RequiredFields: seq<Field> :=
    [Profile, Zone, PropertyType, PurchaseRange, Intent, AnalysisCommitment, Name, Email, Phone]

  // ---- the e-mail pattern ^[^\s@]+@[^\s@]+\.[^\s@]+$ ----

  /** A character of the class `[^\s@]`. */
  predicate EmailChar(c: char) {
    c != '@' && !IsSpace(c)
  }

  /**
   * The language of the e-mail regular expression: a non-empty local part,
   * one '@', then a non-empty run, a '.', and a non-empty run; no white space
   * and no other '@' anywhere.
   */
  ghost predicate EmailPattern(s: string) {
    exists i, j ::
      && 0 < i && i + 1 < j && j + 1 < |s|
      && s[i] == '@' && s[j] == '.'
      && forall k :: 0 <= k < |s| && k != i ==> EmailChar(s[k])
  }

  /** The matcher: split at the first '@', then look for a '.' strictly inside the domain part. */
  predicate MatchesEmail(s: string) {
    var i := IndexOf(s, '@');
    && 0 < i < |s|
    && NoSpace(s)
    && var dom := s[i + 1..];
    && IndexOf(dom, '@') == |dom|
    && |dom| >= 3
    && IndexOf(dom[1..|dom| - 1], '.') < |dom| - 2
  }

  lemma MatcherSound(s: string)
    requires MatchesEmail(s)
    ensures EmailPattern(s)
  {
    var i := IndexOf(s, '@');
    var dom := s[i + 1..];
    var inner := dom[1..|dom| - 1];
    var j := i + 2 + IndexOf(inner, '.');
    assert s[j] == inner[j - i - 2];
    forall k | 0 <= k < |s| && k != i
      ensures EmailChar(s[k])
    {
      if k > i {
        assert s[k] == dom[k - i - 1];
      }
    }
  }

  lemma MatcherComplete(s: string, i: int, j: int)
    requires 0 < i && i + 1 < j && j + 1 < |s|
    requires s[i] == '@' && s[j] == '.'
    requires forall k :: 0 <= k < |s| && k != i ==> EmailChar(s[k])
    ensures MatchesEmail(s)
  {
    assert IndexOf(s, '@') == i;
    var dom := s[i + 1..];
    assert forall k :: 0 <= k < |dom| ==> dom[k] == s[i + 1 + k];
    var inner := dom[1..|dom| - 1];
    assert inner[j - i - 2] == '.';
  }

  /** The matcher accepts exactly the language of the pattern. */
  lemma MatcherIsPattern(s: string)
    ensures MatchesEmail(s) <==> EmailPattern(s)
  {
    if MatchesEmail(s) {
      MatcherSound(s);
    }
    if EmailPattern(s) {
      var i, j :| && 0 < i && i + 1 < j && j + 1 < |s|
                  && s[i] == '@' && s[j] == '.'
                  && forall k :: 0 <= k < |s| && k != i ==> EmailChar(s[k]);
      MatcherComplete(s, i, j);
    }
  }

  /** `EMAIL_RE.test`: accepts exactly the strings in the language of the e-mail pattern. */
  predicate IsEmail(s: string)
    ensures IsEmail(s) <==> EmailPattern(s)
  {
    MatcherIsPattern(s);
    MatchesEmail(s)
  }

  /** Lower-casing keeps an address in the language of the pattern. */
  lemma LowerKeepsEmail(s: string)
    requires IsEmail(s)
    ensures IsEmail(Lower(s))
  {
    var i, j :| && 0 < i && i + 1 < j && j + 1 < |s|
                && s[i] == '@' && s[j] == '.'
                && forall k :: 0 <= k < |s| && k != i ==> EmailChar(s[k]);
    var t := Lower(s);
    forall k | 0 <= k < |s| {
      LowerCharKeeps(s[k]);
    }
    assert t[i] == '@' && t[j] == '.';
    MatcherComplete(t, i, j);
    MatcherIsPattern(t);
  }

  // ---- required fields ----

  /** A field that is missing, null, or blank once stringified and trimmed. */
  predicate Blank(d: map<string, Json>, f: Field) {
    Key(f) !in d || d[Key(f)].JNull? || Trim(ToText(d[Key(f)])) == []
  }

  /** The position of the first element of `xs` at or after `from` that satisfies `p`, if any: the early `return` of a `for ... of` loop. */
  function FirstWhere<T>(p: T -> bool, xs: seq<T>, from: nat): (r: Option<nat>)
    requires from <= |xs|
    ensures r.Some? ==> from <= r.value < |xs|
    decreases |xs| - from
  {
    if from == |xs| then None
    else if p(xs[from]) then Some(from)
    else FirstWhere(p, xs, from + 1)
  }

  /** `FirstWhere` finds the earliest match, and finds none only when there is none. */
  lemma {:induction false} FirstWhereIsFirst<T>(p: T -> bool, xs: seq<T>, from: nat)
    requires from <= |xs|
    ensures var r := FirstWhere(p, xs, from);
      && (r.Some? ==> p(xs[r.value]) && forall j :: from <= j < r.value ==> !p(xs[j]))
      && (r.None? <==> forall j :: from <= j < |xs| ==> !p(xs[j]))
    decreases |xs| - from
  {
    if from < |xs| && !p(xs[from]) {
      FirstWhereIsFirst(p, xs, from + 1);
    }
  }

  /** Blankness of the fields of one body, as a predicate on fields. */
  function BlankIn(d: map<string, Json>): Field -> bool {
    f => Blank(d, f)
  }

  /** The position in `RequiredFields` of the first blank field, if any. */
  function FirstBlank(d: map<string, Json>): Option<nat> {
    FirstWhere(BlankIn(d), RequiredFields, 0)
  }

  /** Skipping a non-matching element does not change the search. */
  lemma FirstWhereSkip<T>(p: T -> bool, xs: seq<T>, k: nat)
    requires k < |xs| && !p(xs[k])
    ensures FirstWhere(p, xs, k) == FirstWhere(p, xs, k + 1)
  {
  }

  /** An element that matches, with none before it, is the one found. */
  lemma FirstWhereFinds<T>(p: T -> bool, xs: seq<T>, i: nat)
    requires i < |xs| && p(xs[i])
    requires forall j :: 0 <= j < i ==> !p(xs[j])
    ensures FirstWhere(p, xs, 0) == Some(i)
  {
    FirstWhereIsFirst(p, xs, 0);
  }

  /** Predicates that agree on the elements searched find the same position. */
  lemma {:induction false} FirstWhereAgrees<T>(p: T -> bool, q: T -> bool, xs: seq<T>, from: nat)
    requires from <= |xs|
    requires forall j :: from <= j < |xs| ==> p(xs[j]) == q(xs[j])
    ensures FirstWhere(p, xs, from) == FirstWhere(q, xs, from)
    decreases |xs| - from
  {
    if from < |xs| {
      FirstWhereAgrees(p, q, xs, from + 1);
    }
  }

  /** With no blank required field, each of the nine is present with non-blank text. */
  lemma RequiredPresent(d: map<string, Json>)
    requires FirstBlank(d).None?
    ensures AllFilled(d)
  {
    var p, fs := BlankIn(d), RequiredFields;
    FirstWhereIsFirst(p, fs, 0);
    assert !p(fs[0]) && !p(fs[1]) && !p(fs[2]) && !p(fs[3]) && !p(fs[4]);
    assert !p(fs[5]) && !p(fs[6]) && !p(fs[7]) && !p(fs[8]);
  }

  /** A search over nine elements none of which matches finds nothing. */
  lemma NoneOfNine<T>(p: T -> bool, xs: seq<T>, a0: T, a1: T, a2: T, a3: T, a4: T, a5: T, a6: T, a7: T, a8: T)
    requires xs == [a0, a1, a2, a3, a4, a5, a6, a7, a8]
    requires !p(a0) && !p(a1) && !p(a2) && !p(a3) && !p(a4) && !p(a5) && !p(a6) && !p(a7) && !p(a8)
    ensures FirstWhere(p, xs, 0).None?
  {
    FirstWhereIsFirst(p, xs, 0);
  }

  /** Conversely, with every required field filled there is no blank one. */
  lemma NoneBlank(d: map<string, Json>)
    requires AllFilled(d)
    ensures FirstBlank(d).None?
  {
    NoneOfNine(BlankIn(d), RequiredFields,
      Profile, Zone, PropertyType, PurchaseRange, Intent, AnalysisCommitment, Name, Email, Phone);
  }

  /** A present, non-null field whose trimmed text is non-empty. */
  predicate Filled(d: map<string, Json>, f: Field) {
    !Blank(d, f)
  }

  /** `String(d[f]).trim()` for a field known to be present. */
  function FieldText(d: map<string, Json>, f: Field): string
    requires Key(f) in d
  {
    Trim(ToText(d[Key(f)]))
  }

  /** Non-empty and free of white space at either end. */
  predicate Clean(s: string) {
    s != [] && Trimmed(s)
  }

  /** Each required field is present with non-blank text. */
  predicate AllFilled(d: map<string, Json>) {
    && Filled(d, Profile) && Filled(d, Zone) && Filled(d, PropertyType)
    && Filled(d, PurchaseRange) && Filled(d, Intent) && Filled(d, AnalysisCommitment)
    && Filled(d, Name) && Filled(d, Email) && Filled(d, Phone)
  }

  /** Everything the validator guarantees of the record it returns. */
  predicate WellFormed(w: WizardData) {
    && Clean(w.profile) && Clean(w.zone) && Clean(w.propertyType) && Clean(w.purchaseRange)
    && Clean(w.intent) && Clean(w.analysisCommitment) && Clean(w.name) && Clean(w.email)
    && Clean(w.phone)
    && Lower(w.email) == w.email
    && IsEmail(w.email)
    && 1.0 <= w.satisfaction <= 5.0
    && w.consent
    && w.freno.None?
  }

  /**
   * `validateSubmitBody`: the body must be an object; then each required
   * field in order must be non-blank; then the trimmed e-mail must match the
   * pattern; then `Number(satisfaction)` must be finite and within [1, 5];
   * then consent must be truthy. The first failing check names the error.
   */
  function Validate(body: Json): (r: ValidationResult)
    ensures !body.JObj? <==> r == Invalid(BadBody)
    ensures r.Valid? ==> body.JObj? && WellFormed(r.data)
  {
    if body.JObj? then ValidateFields(body.fields) else Invalid(BadBody)
  }

  /** The checks after the shape check, on the body's fields. */
  function ValidateFields(d: map<string, Json>): (r: ValidationResult)
    ensures r.Valid? ==> WellFormed(r.data)
    ensures r != Invalid(BadBody)
  {
    match FirstBlank(d)
    case Some(i) => Invalid(Missing(RequiredFields[i]))
    case None =>
      RequiredPresent(d);
      CheckEmail(d)
  }

  /** The e-mail check, reached once every required field is filled. */
  function CheckEmail(d: map<string, Json>): (r: ValidationResult)
    requires AllFilled(d)
    ensures r.Valid? ==> WellFormed(r.data)
    ensures r.Invalid? ==> r.error == BadEmail || r.error == BadSatisfaction || r.error == NoConsent
    ensures r == Invalid(BadEmail) <==> !IsEmail(FieldText(d, Email))
  {
    if !IsEmail(FieldText(d, Email)) then Invalid(BadEmail) else CheckSatisfaction(d)
  }

  /** The satisfaction check: `Number(satisfaction)` must be finite and within [1, 5]. */
  function CheckSatisfaction(d: map<string, Json>): (r: ValidationResult)
    requires AllFilled(d) && IsEmail(FieldText(d, Email))
    ensures r.Valid? ==> WellFormed(r.data)
    ensures r.Invalid? ==> r.error == BadSatisfaction || r.error == NoConsent
    ensures r == Invalid(BadSatisfaction) <==> !InRange(NumberOf(Get(d, "satisfaction")))
  {
    var sat := NumberOf(Get(d, "satisfaction"));
    if !InRange(sat) then Invalid(BadSatisfaction) else CheckConsent(d, sat.value)
  }

  /** A finite number within [1, 5]. */
  predicate InRange(n: Num) {
    n.Finite? && 1.0 <= n.value <= 5.0
  }

  /** The consent check, then the record. */
  function CheckConsent(d: map<string, Json>, sat: real): (r: ValidationResult)
    requires AllFilled(d) && IsEmail(FieldText(d, Email)) && 1.0 <= sat <= 5.0
    ensures r.Valid? ==> WellFormed(r.data)
    ensures r.Invalid? ==> r.error == NoConsent
    ensures r.Valid? <==> Truthy(Get(d, "consent"))
  {
    if !Truthy(Get(d, "consent")) then Invalid(NoConsent) else Valid(Record(d, sat))
  }

  /** The accepted record: trimmed texts, the lower-cased e-mail, the coerced satisfaction, consent `true`, no freno. */
  function Record(d: map<string, Json>, sat: real): (w: WizardData)
    requires AllFilled(d) && IsEmail(FieldText(d, Email)) && 1.0 <= sat <= 5.0
    ensures WellFormed(w)
  {
    LowerKeepsEmail(FieldText(d, Email));
    LowerKeepsTrimmed(FieldText(d, Email));
    LowerIdempotent(FieldText(d, Email));
    WizardData(
      profile := FieldText(d, Profile),
      freno := None,
      zone := FieldText(d, Zone),
      propertyType := FieldText(d, PropertyType),
      purchaseRange := FieldText(d, PurchaseRange),
      satisfaction := sat,
      intent := FieldText(d, Intent),
      analysisCommitment := FieldText(d, AnalysisCommitment),
      name := FieldText(d, Name),
      email := Lower(FieldText(d, Email)),
      phone := FieldText(d, Phone),
      consent := true)
  }

  // ---- properties ----

  /** Fail-fast: the first blank required field, in the listed order, is the one reported. */
  lemma FirstBlankFieldReported(d: map<string, Json>, i: nat)
    requires i < |RequiredFields| && Blank(d, RequiredFields[i])
    requires forall j :: 0 <= j < i ==> !Blank(d, RequiredFields[j])
    ensures Validate(JObj(d)) == Invalid(Missing(RequiredFields[i]))
  {
    FirstWhereFinds(BlankIn(d), RequiredFields, i);
  }

  /** Conversely, a required-field error always names the first blank field; no later check was reached. */
  lemma RequiredErrorIsFirstBlank(d: map<string, Json>, f: Field)
    requires Validate(JObj(d)) == Invalid(Missing(f))
    ensures exists i :: 0 <= i < |RequiredFields| && RequiredFields[i] == f && Blank(d, f)
                        && forall j :: 0 <= j < i ==> !Blank(d, RequiredFields[j])
  {
    FirstWhereIsFirst(BlankIn(d), RequiredFields, 0);
    if FirstBlank(d).None? {
      RequiredPresent(d);
      assert false;
    } else {
      var i := FirstBlank(d).value;
      assert RequiredFields[i] == f;
    }
  }

  /** Once every required field is filled, the e-mail check decides: it rejects exactly the trimmed addresses outside the pattern. */
  lemma EmailRejectedIffNoMatch(d: map<string, Json>)
    requires FirstBlank(d).None?
    ensures Key(Email) in d
    ensures Validate(JObj(d)) == Invalid(BadEmail) <==> !EmailPattern(FieldText(d, Email))
  {
    RequiredPresent(d);
    assert Validate(JObj(d)) == CheckEmail(d);
  }

  /** After the e-mail check, satisfaction is rejected exactly when `Number(satisfaction)` is not finite or lies outside [1, 5]. */
  lemma SatisfactionRejectedIffOutOfRange(d: map<string, Json>)
    requires FirstBlank(d).None?
    requires Key(Email) in d && IsEmail(FieldText(d, Email))
    ensures var n := NumberOf(Get(d, "satisfaction"));
      Validate(JObj(d)) == Invalid(BadSatisfaction) <==> !(n.Finite? && 1.0 <= n.value <= 5.0)
  {
    RequiredPresent(d);
    assert Validate(JObj(d)) == CheckSatisfaction(d);
  }

  /** Past every other check, a falsy consent is rejected and any truthy one is accepted. */
  lemma ConsentDecides(d: map<string, Json>)
    requires FirstBlank(d).None?
    requires Key(Email) in d && IsEmail(FieldText(d, Email))
    requires var n := NumberOf(Get(d, "satisfaction")); n.Finite? && 1.0 <= n.value <= 5.0
    ensures Validate(JObj(d)).Valid? <==> Truthy(Get(d, "consent"))
    ensures !Truthy(Get(d, "consent")) ==> Validate(JObj(d)) == Invalid(NoConsent)
  {
    RequiredPresent(d);
    assert Validate(JObj(d)) == CheckConsent(d, NumberOf(Get(d, "satisfaction")).value);
  }

  /** An accepted body passed every check, and the record is the one `Record` builds from it. */
  lemma AcceptedIsRecord(d: map<string, Json>, w: WizardData)
    requires Validate(JObj(d)) == Valid(w)
    ensures AllFilled(d) && IsEmail(FieldText(d, Email))
    ensures InRange(NumberOf(Get(d, "satisfaction"))) && Truthy(Get(d, "consent"))
    ensures w == Record(d, NumberOf(Get(d, "satisfaction")).value)
  {
    RequiredPresent(d);
  }

  /**
   * On success every text field is the trimmed text of the input, the e-mail
   * is additionally lower-cased, satisfaction is the coerced number, consent
   * is `true` and no freno is carried.
   */
  lemma AcceptedRecordIsNormalisedInput(d: map<string, Json>, w: WizardData)
    requires Validate(JObj(d)) == Valid(w)
    ensures Filled(d, Profile) && w.profile == FieldText(d, Profile)
    ensures Filled(d, Zone) && w.zone == FieldText(d, Zone)
    ensures Filled(d, PropertyType) && w.propertyType == FieldText(d, PropertyType)
    ensures Filled(d, PurchaseRange) && w.purchaseRange == FieldText(d, PurchaseRange)
    ensures Filled(d, Intent) && w.intent == FieldText(d, Intent)
    ensures Filled(d, AnalysisCommitment) && w.analysisCommitment == FieldText(d, AnalysisCommitment)
    ensures Filled(d, Name) && w.name == FieldText(d, Name)
    ensures Filled(d, Email) && w.email == Lower(FieldText(d, Email))
    ensures Filled(d, Phone) && w.phone == FieldText(d, Phone)
    ensures NumberOf(Get(d, "satisfaction")) == Finite(w.satisfaction)
    ensures Truthy(Get(d, "consent")) && w.consent
    ensures w.freno.None?
  {
    AcceptedIsRecord(d, w);
  }

  /** The body a validated record serialises to, with satisfaction written as the decimal `sat`. */
  function AsBody(w: WizardData, sat: Decimal): Json {
    JObj(map[
      "profile" := JStr(w.profile),
      "zone" := JStr(w.zone),
      "propertyType" := JStr(w.propertyType),
      "purchaseRange" := JStr(w.purchaseRange),
      "satisfaction" := JNum(sat),
      "intent" := JStr(w.intent),
      "analysisCommitment" := JStr(w.analysisCommitment),
      "name" := JStr(w.name),
      "email" := JStr(w.email),
      "phone" := JStr(w.phone),
      "consent" := JBool(w.consent)])
  }

  /** A string field holding clean text reads back as that text. */
  lemma CleanFieldReads(d: map<string, Json>, f: Field, s: string)
    requires Key(f) in d && d[Key(f)] == JStr(s) && Clean(s)
    ensures !Blank(d, f) && Filled(d, f) && FieldText(d, f) == s
  {
    TrimOfTrimmed(s);
  }

  /** A body that holds the record's nine texts as strings, its satisfaction as something `Number` reads back, and its consent flag. */
  predicate Carries(d: map<string, Json>, w: WizardData) {
    && Get(d, Key(Profile)) == Some(JStr(w.profile))
    && Get(d, Key(Zone)) == Some(JStr(w.zone))
    && Get(d, Key(PropertyType)) == Some(JStr(w.propertyType))
    && Get(d, Key(PurchaseRange)) == Some(JStr(w.purchaseRange))
    && Get(d, Key(Intent)) == Some(JStr(w.intent))
    && Get(d, Key(AnalysisCommitment)) == Some(JStr(w.analysisCommitment))
    && Get(d, Key(Name)) == Some(JStr(w.name))
    && Get(d, Key(Email)) == Some(JStr(w.email))
    && Get(d, Key(Phone)) == Some(JStr(w.phone))
    && NumberOf(Get(d, "satisfaction")) == Finite(w.satisfaction)
    && Get(d, "consent") == Some(JBool(w.consent))
  }

  /** The serialised record carries it. */
  lemma AsBodyCarries(w: WizardData, sat: Decimal)
    requires Value(sat) == w.satisfaction
    ensures Carries(AsBody(w, sat).fields, w)
  {
  }

  /** Every well-formed record passes validation unchanged from any body that carries it. */
  lemma WellFormedRevalidates(d: map<string, Json>, w: WizardData)
    requires WellFormed(w) && Carries(d, w)
    ensures Validate(JObj(d)) == Valid(w)
  {
    CleanFieldReads(d, Profile, w.profile);
    CleanFieldReads(d, Zone, w.zone);
    CleanFieldReads(d, PropertyType, w.propertyType);
    CleanFieldReads(d, PurchaseRange, w.purchaseRange);
    CleanFieldReads(d, Intent, w.intent);
    CleanFieldReads(d, AnalysisCommitment, w.analysisCommitment);
    CleanFieldReads(d, Name, w.name);
    CleanFieldReads(d, Email, w.email);
    CleanFieldReads(d, Phone, w.phone);
    NoneBlank(d);
    assert Validate(JObj(d)) == CheckEmail(d);
    assert CheckEmail(d) == Valid(Record(d, w.satisfaction));
  }

  /**
   * Normalisation is idempotent: validating the output of a successful
   * validation, serialised with its satisfaction written as a decimal, gives
   * the same record back.
   */
  lemma ValidateIdempotent(body: Json, w: WizardData, sat: Decimal)
    requires Validate(body) == Valid(w)
    requires Value(sat) == w.satisfaction
    ensures Validate(AsBody(w, sat)) == Valid(w)
  {
    AsBodyCarries(w, sat);
    WellFormedRevalidates(AsBody(w, sat).fields, w);
  }

  /** Two bodies that hold the same nine texts, coerce satisfaction to the same number and consent to the same truth value. */
  ghost predicate SameInputs(d1: map<string, Json>, d2: map<string, Json>) {
    && (forall f: Field :: Get(d1, Key(f)) == Get(d2, Key(f)))
    && NumberOf(Get(d1, "satisfaction")) == NumberOf(Get(d2, "satisfaction"))
    && Truthy(Get(d1, "consent")) == Truthy(Get(d2, "consent"))
  }

  /** The validator reads nothing else: bodies with the same inputs get the same verdict and record. */
  lemma ValidateReadsOnlyItsInputs(d1: map<string, Json>, d2: map<string, Json>)
    requires SameInputs(d1, d2)
    ensures Validate(JObj(d1)) == Validate(JObj(d2))
  {
    forall f: Field
      ensures BlankIn(d1)(f) == BlankIn(d2)(f)
    {
      assert Get(d1, Key(f)) == Get(d2, Key(f));
    }
    FirstWhereAgrees(BlankIn(d1), BlankIn(d2), RequiredFields, 0);
    if FirstBlank(d1).None? {
      RequiredPresent(d1);
      RequiredPresent(d2);
      assert Validate(JObj(d1)) == CheckEmail(d1);
      assert Validate(JObj(d2)) == CheckEmail(d2);
      FieldTextsAgree(d1, d2);
    }
  }

  /** Past the required-field check, equal inputs give equal outcomes. */
  lemma FieldTextsAgree(d1: map<string, Json>, d2: map<string, Json>)
    requires AllFilled(d1) && AllFilled(d2) && SameInputs(d1, d2)
    ensures CheckEmail(d1) == CheckEmail(d2)
  {
    var sat := NumberOf(Get(d1, "satisfaction"));
    SameLookup(d1, d2, Email);
    if IsEmail(FieldText(d1, Email)) && InRange(sat) {
      SameLookup(d1, d2, Profile);
      SameLookup(d1, d2, Zone);
      SameLookup(d1, d2, PropertyType);
      SameLookup(d1, d2, PurchaseRange);
      SameLookup(d1, d2, Intent);
      SameLookup(d1, d2, AnalysisCommitment);
      SameLookup(d1, d2, Name);
      SameLookup(d1, d2, Phone);
      assert Record(d1, sat.value) == Record(d2, sat.value);
    }
  }

  lemma SameLookup(d1: map<string, Json>, d2: map<string, Json>, f: Field)
    requires Key(f) in d1 && Get(d1, Key(f)) == Get(d2, Key(f))
    ensures Key(f) in d2 && d1[Key(f)] == d2[Key(f)]
  {
  }

  /** Neither `satisfaction` nor `consent` is a required text key. */
  lemma KeysDistinct(f: Field)
    ensures Key(f) != "satisfaction" && Key(f) != "consent"
  {
  }

  /** Rewriting `satisfaction` leaves the nine text fields and consent as they were. */
  lemma SatisfactionOnlyChanges(d: map<string, Json>, v1: Json, v2: Json)
    ensures var d1, d2 := d["satisfaction" := v1], d["satisfaction" := v2];
      && (forall f: Field :: Get(d1, Key(f)) == Get(d2, Key(f)))
      && Get(d1, "consent") == Get(d2, "consent")
  {
    forall f: Field
      ensures Get(d["satisfaction" := v1], Key(f)) == Get(d["satisfaction" := v2], Key(f))
    {
      KeysDistinct(f);
    }
  }

  /** The string spelling of a number (say "4" for 4) is accepted as satisfaction exactly like the number itself. */
  lemma NumericTextSatisfaction(d: map<string, Json>, n: Decimal)
    ensures Validate(JObj(d["satisfaction" := JStr(DecimalText(n))]))
         == Validate(JObj(d["satisfaction" := JNum(n)]))
  {
    DecimalTextToNumber(n);
    SatisfactionOnlyChanges(d, JStr(DecimalText(n)), JNum(n));
    ValidateReadsOnlyItsInputs(d["satisfaction" := JStr(DecimalText(n))], d["satisfaction" := JNum(n)]);
  }

  /** A key the validator does not read can be added or changed without effect. */
  lemma UnreadKeyIgnored(d: map<string, Json>, k: string, v: Json)
    requires k != "satisfaction" && k != "consent"
    requires forall f: Field :: Key(f) != k
    ensures Validate(JObj(d[k := v])) == Validate(JObj(d))
  {
    ValidateReadsOnlyItsInputs(d[k := v], d);
  }
}
