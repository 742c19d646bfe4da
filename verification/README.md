# Radar Propietario lead funnel — a Dafny model

This project models the logic of a small lead-qualification funnel for
property owners in A Coruña. It covers:

- the ten-step wizard the owner fills in;
- the submit endpoint that re-validates the answers, scores them, writes a
  short zone-specific market comment and forwards the lead to the agency's
  automation webhook;
- the static zone and agency directories both sides use.

Everything is stated as pure functions over immutable datatypes, and each
module mirrors one source file:

| module | source | what it holds |
|---|---|---|
| `Types` | lib/types.ts | the answer record (`WizardData`, with an optional `freno`), category, score, payload, agency and zone records, API response |
| `Text` | — | JavaScript `trim()` over the full ECMAScript white-space set, Latin-1 `toLowerCase()`, digit strings |
| `Undefined` | — | JavaScript's `undefined` as an optional value, `??`, and key lookup in a record |
| `Json` | — | an untyped parsed body (`null`, booleans, exact decimals, strings, arrays, objects) with `String(x)`, `Number(x)` and truthiness |
| `Scoring` | lib/scoring.ts | `computeScore`: five bucketed dimensions, the clamp and the thresholds |
| `Validators` | lib/validators.ts | `validateSubmitBody`: the fail-fast checks and the normalised record |
| `Zones` | lib/zones.ts | the twelve zones, the default commentary, `getZoneInfo`, `ZONE_NAMES` |
| `Agencies` | lib/agencies.ts | the agency record, `getAgencyConfig`, `getWebhookUrl` with the environment as a map |
| `SubmitRoute` | app/api/submit/route.ts | `buildResultCopy` and the decision flow of `POST` |
| `Wizard` | components/WizardShell.tsx | step validation, next/back/reset, restoring a draft, the answer and custom-zone handlers, submission, the contact-step title |

Two behaviours of the code are worth knowing. The model follows the code in
both:

- Satisfaction is meant as an integer from 1 to 5. The validator accepts
  any finite number in [1, 5], and the model does the same.
- The scoring engine is only monotone in satisfaction over whole numbers.
  A value of 3 earns one point, but 3.5 earns nothing (`Scoring.SatisfactionDropCharacterised`).

`SubmitRoute.Post` takes the zone record as a parameter. The deployed
endpoint passes `Zones.ZoneTable`, so `SubmitRoute.BuildResultCopy` equals
`CopyFor(LookupZone(ZoneTable, zone), c)`. Every endpoint property is proved
for any zone record, the deployed one included.

## Model

| member | source | states |
|---|---|---|
| Scoring.ComputeScore | lib/scoring.ts:99-110 | the score lies in [0, 10]; the category is C iff score ≤ 3, B iff 4 ≤ score ≤ 6, A iff score ≥ 7 |
| Scoring.Classify | lib/scoring.ts:101-108 | the three thresholds partition the integers: exactly one category holds for every score |
| Scoring.SatisfactionPoints | lib/scoring.ts:60-66 | the discomfort dimension awards between 0 and 2 points |
| Scoring.PointsBounded | lib/scoring.ts:18-97 | a `switch` over a table whose awards lie in [0, max] adds between 0 and max; an unmatched or missing answer adds 0 |
| Scoring.ProfileTableBounded | lib/scoring.ts:18-38 | every profile award lies in [0, 2] |
| Scoring.FrenoTableBounded | lib/scoring.ts:41-56 | every freno award lies in [0, 2] |
| Scoring.IntentTableBounded | lib/scoring.ts:69-83 | every time-horizon award lies in [0, 3] |
| Scoring.TablesBounded | lib/scoring.ts:18-97 | the per-dimension maxima are 2, 2, 3 and 1 for profile, freno, intent and purchase range |
| Scoring.RawScoreInRange | lib/scoring.ts:14-99 | the unclamped sum already lies in [0, 10], so the clamp never changes it |
| Scoring.TopScoreReachable | lib/scoring.ts:14-110 | the maximum of 10 (category A) is reached by the top answer in every dimension |
| Scoring.OnlyScoredFieldsMatter | lib/scoring.ts:14-110 | zone, property type, analysis commitment, name, e-mail, phone and consent do not affect the result |
| Scoring.SatisfactionMonotoneOnWholeNumbers | lib/scoring.ts:60-66 | over whole numbers a higher satisfaction never earns fewer points |
| Scoring.SatisfactionDropCharacterised | lib/scoring.ts:60-66 | over all reals the award drops between s ≤ t exactly when s = 3 and 3 < t < 4 |
| Scoring.HalfPointEarnsNothing | lib/scoring.ts:60-66 | 3.5 earns 0 for discomfort while 3 earns 1 |
| Scoring.ScoreMonotoneInSatisfaction | lib/scoring.ts:60-99 | with the other answers fixed, raising a whole-number satisfaction never lowers the score |
| Scoring.HighUrgencyExample | lib/scoring.ts:18-108 | an empty flat, satisfaction 5, a 0–6 month horizon and over 20 years of ownership score at least 8, category A, whatever the freno |
| Scoring.LowUrgencyExample | lib/scoring.ts:41-104 | satisfaction 1, horizon "Más adelante", an unmatched profile and a zero-point ownership bucket score at most 2, category C |
| Scoring.NoFrenoAtMostEight | lib/scoring.ts:41-99 | without a freno answer the score is at most 8 |
| Text.Trim | lib/validators.ts:33 | `trim()` leaves no white space at either end and never lengthens the text |
| Text.TrimEmptyIffAllSpace | lib/validators.ts:33 | a field trims to "" exactly when it consists of white space only |
| Text.TrimIdempotent | lib/validators.ts:64-73 | trimming an already trimmed field changes nothing |
| Text.LowerIdempotent | lib/validators.ts:72 | lower-casing an already lower-cased e-mail changes nothing |
| Json.DecimalTextToNumber | lib/validators.ts:45 | `Number(String(n))` gives back the value of every JSON number n |
| Validators.IsEmail | lib/validators.ts:7 | `EMAIL_RE.test` accepts exactly the strings of `^[^\s@]+@[^\s@]+\.[^\s@]+$` |
| Validators.MatcherIsPattern | lib/validators.ts:7 | the executable matcher, which splits at the first '@' and looks for an inner '.', accepts exactly the language of the pattern |
| Validators.MatcherSound | lib/validators.ts:7 | an accepted e-mail has the shape: non-empty local part without white space or '@', one '@', a domain with a '.' neither first nor last |
| Validators.MatcherComplete | lib/validators.ts:7 | any string with that shape is accepted |
| Validators.LowerKeepsEmail | lib/validators.ts:72 | lower-casing an accepted e-mail keeps it accepted |
| Validators.Message | lib/validators.ts:9-59 | a missing-field message names the missing field's key between its opening words and its closing quote |
| Validators.MessageInjective | lib/validators.ts:9-59 | distinct rejections have distinct messages, so the text tells which check failed and, for a missing field, which field |
| Validators.FirstWhereIsFirst | lib/validators.ts:29-37 | the loop's early return reports the first field in order that fails, and none when every field passes |
| Validators.RequiredPresent | lib/validators.ts:29-37 | when no required field is blank, all nine are present with non-blank text |
| Validators.NoneBlank | lib/validators.ts:29-37 | when all nine fields are filled the loop finds no blank field |
| Validators.Validate | lib/validators.ts:9-77 | a body is rejected with "Invalid request body." exactly when it is not a plain object; an accepted record is well formed: trimmed non-empty text, lower-cased matching e-mail, satisfaction in [1, 5], consent true, no freno |
| Validators.ValidateFields | lib/validators.ts:14-76 | after the shape check, never the body error; an accepted record is well formed |
| Validators.CheckEmail | lib/validators.ts:39-76 | the e-mail error is returned exactly when the trimmed e-mail does not match the pattern |
| Validators.CheckSatisfaction | lib/validators.ts:44-76 | the satisfaction error is returned exactly when `Number(satisfaction)` is not finite or lies outside [1, 5] |
| Validators.CheckConsent | lib/validators.ts:53-76 | the body is accepted exactly when consent is truthy |
| Validators.Record | lib/validators.ts:61-76 | the normalised record built from checked fields is well formed |
| Validators.FirstBlankFieldReported | lib/validators.ts:17-37 | when field i is blank and all before it are filled, the error names field i |
| Validators.RequiredErrorIsFirstBlank | lib/validators.ts:17-37 | a missing-field error names a required field that is blank in the body |
| Validators.EmailRejectedIffNoMatch | lib/validators.ts:39-42 | once the required fields are present, the e-mail error occurs exactly when the trimmed e-mail does not match the pattern |
| Validators.SatisfactionRejectedIffOutOfRange | lib/validators.ts:44-51 | once the e-mail passes, the satisfaction error occurs exactly when the coerced number is not finite or lies outside [1, 5] |
| Validators.ConsentDecides | lib/validators.ts:53-59 | once everything else passes, the body is accepted exactly when consent is truthy, and rejected with the consent error otherwise |
| Validators.AcceptedIsRecord | lib/validators.ts:61-76 | an accepted body passed every check, and the record is the normalisation of its fields |
| Validators.AcceptedRecordIsNormalisedInput | lib/validators.ts:61-76 | every text field of an accepted record is the trimmed input, the e-mail additionally lower-cased; satisfaction is the coerced number; consent is true; freno is absent |
| Validators.WellFormedRevalidates | lib/validators.ts:9-77 | a body carrying a well-formed record's values is accepted with exactly that record |
| Validators.ValidateIdempotent | lib/validators.ts:61-76 | re-validating the body of an accepted record accepts it again with the same record |
| Validators.ValidateReadsOnlyItsInputs | lib/validators.ts:14-59 | two bodies that agree on the nine fields, satisfaction and consent get the same verdict |
| Validators.NumericTextSatisfaction | lib/validators.ts:45 | satisfaction sent as the text of a number is treated exactly like the number |
| Validators.UnreadKeyIgnored | lib/validators.ts:14-59 | adding or changing a key the validator does not read has no effect |
| Zones.KeysOf | lib/zones.ts:108 | `Object.keys` lists the keys of the entries in declaration order |
| Zones.LookupZone | lib/zones.ts:104-106 | a key of the record gives its entry; any other string gives the default |
| Zones.TableKeys | lib/zones.ts:3-94 | an object literal's keys are exactly the keys it lists |
| Zones.TableSize | lib/zones.ts:3-94 | with distinct keys the record has one key per entry |
| Zones.TableEntry | lib/zones.ts:3-94 | with distinct keys every key is bound to its own entry |
| Zones.TableValues | lib/zones.ts:3-94 | every value of the record is the value of one of its entries under that key |
| Zones.ZoneNamesListed | lib/zones.ts:3-108 | `ZONE_NAMES` is the twelve names, in declaration order |
| Zones.ZoneNamesAreTheKeys | lib/zones.ts:3-108 | `ZONE_NAMES` lists exactly the keys of the record: twelve distinct names |
| Zones.EntriesComplete | lib/zones.ts:3-102 | every entry and the default have three non-empty sentences |
| Zones.GetZoneInfo | lib/zones.ts:104-106 | a string outside `ZONE_NAMES` gets the default; a listed zone gets its own entry; the commentary always has three non-empty sentences |
| Zones.DirectoryLookup | lib/zones.ts:3-106 | looking a zone up in the declared record gives its entry when listed, the default otherwise, and never an incomplete commentary |
| Zones.ZoneInfoComplete | lib/zones.ts:104-106 | every zone string, named or not, gets three non-empty sentences |
| Zones.ZoneInfoFromDirectory | lib/zones.ts:3-106 | a listed zone gets its own entry; a string outside `ZONE_NAMES` gets the default |
| Zones.LookupIsExact | lib/zones.ts:104-106 | "Centro" gets its entry while "centro" and " Centro" get the default: no trimming, no case folding |
| Agencies.GetAgencyConfig | lib/agencies.ts:24-27 | a missing or empty parameter gives DEFAULT; a known key gives its entry; an unknown key gives DEFAULT |
| Agencies.GetWebhookUrl | lib/agencies.ts:34-38 | the agency's variable when it is set and non-empty, else `MAKE_WEBHOOK_DEFAULT` as it is, else "" |
| Agencies.AlwaysAnEntry | lib/agencies.ts:3-27 | the resolved agency is always one of the record's entries |
| Agencies.KnownKeys | lib/agencies.ts:3-27 | "coruna01" and "DEFAULT" resolve to their own entries |
| Agencies.DefaultIdIsNotAKey | lib/agencies.ts:3-27 | DEFAULT's id "default" is not a key, so the parameter "default" (or "Coruna01") falls back to DEFAULT |
| Agencies.WebhookUrlEmptyIff | lib/agencies.ts:34-38 | the URL is "" exactly when neither the agency's variable nor the default one holds a non-empty value |
| Agencies.WebhookUrlFromEnv | lib/agencies.ts:34-38 | a non-empty URL is the value of one of those two variables |
| Agencies.DefaultAgencyWebhook | lib/agencies.ts:3-38 | for DEFAULT the URL is `MAKE_WEBHOOK_DEFAULT` or "" |
| SubmitRoute.BuildResultCopy | app/api/submit/route.ts:10-20 | a listed zone's copy is the template filled with its own entry, any other string's with the default commentary; the copy opens with its category's marker |
| SubmitRoute.LeadMarkers | app/api/submit/route.ts:14-16 | the three lead sentences differ at their fourth character |
| SubmitRoute.CopyIsLeadThenZone | app/api/submit/route.ts:13-17 | the copy is the category's lead sentence then its zone sentences, space-separated: A adds tendencia and oportunidad, B tendencia and alerta, C tendencia only |
| SubmitRoute.CopyMarker | app/api/submit/route.ts:13-19 | the fourth character of the copy names its category |
| SubmitRoute.CopyDeterminesCategory | app/api/submit/route.ts:10-20 | two equal copies were built for the same category |
| SubmitRoute.UnknownZoneCopy | app/api/submit/route.ts:10-20 | a zone outside `ZONE_NAMES`, free text included, gets the copy built from the default commentary rather than an error |
| SubmitRoute.Post | app/api/submit/route.ts:22-95 | the status is 400 exactly when the answer is negative, and a negative answer never calls the webhook |
| SubmitRoute.EndpointUnknownZoneCopy | app/api/submit/route.ts:10-53 | a valid body whose zone the record does not hold is answered with the copy built from the default commentary, not an error |
| SubmitRoute.RejectionMessagesDistinct | app/api/submit/route.ts:26-44 | no validator message equals the JSON message, so the two kinds of 400 answer are told apart |
| SubmitRoute.UnparseableRejected | app/api/submit/route.ts:24-32 | an unparseable body is answered 400 with the JSON message; nothing is scored or sent |
| SubmitRoute.InvalidRejected | app/api/submit/route.ts:38-45 | a body the validator rejects is answered 400 with the validator's message; nothing is scored or sent |
| SubmitRoute.AcceptedIffValid | app/api/submit/route.ts:22-95 | the answer is positive exactly when the body parses and the validator accepts it |
| SubmitRoute.AcceptedIsScored | app/api/submit/route.ts:47-53 | a valid body is answered 200 with `computeScore` of the validated record and the copy for its zone and category |
| SubmitRoute.DeliveredIff | app/api/submit/route.ts:65-94 | the webhook is called exactly when the resolved URL is non-empty; `delivered` is true exactly when it was called and answered 2xx |
| SubmitRoute.PayloadShape | app/api/submit/route.ts:55-63 | the payload is the validated record plus the agency's id and name, the score, the category and the timestamp |
| SubmitRoute.EndpointScoreAtMostEight | app/api/submit/route.ts:47-50 | the validator never passes a freno on, so every score the endpoint returns is at most 8 |
| Wizard.Next | components/WizardShell.tsx:712-720 | next never changes the answers or custom-zone state; from a step up to 10 it moves forward by at most one and never past 10; it moves exactly when the step is the introduction, or the step validates and is not the last |
| Wizard.StepErrors | components/WizardShell.tsx:661-709 | a question page passes exactly when its own answer is truthy and can only report that answer; in custom mode the zone page passes exactly when the typed text is not blank; the contact page passes exactly when name, phone, e-mail and consent do; any other step reports nothing |
| Wizard.QuestionErrors | components/WizardShell.tsx:665-692 | a question page's check passes exactly when the page's answer is truthy, and names only that answer |
| Wizard.CustomZoneErrors | components/WizardShell.tsx:671-674 | the custom-zone check passes exactly when the trimmed text is not empty, and names only the custom-zone key |
| Wizard.ContactErrors | components/WizardShell.tsx:693-704 | the contact checks pass exactly when name and phone are non-blank text, the trimmed e-mail matches the pattern and consent is truthy; only those four answers are named; the e-mail is named exactly when it is not accepted |
| Wizard.Back | components/WizardShell.tsx:722-725 | back clears every error and keeps the answers and custom-zone state |
| Wizard.Reset | components/WizardShell.tsx:649-658 | reset gives step 1, no answers, no errors, no result, not submitting, custom mode off, no custom text |
| Wizard.Hydrate | components/WizardShell.tsx:581-602 | the restored state's step lies in [1, 10] |
| Wizard.Submit | components/WizardShell.tsx:728-761 | submitting never changes the step or the answers |
| Wizard.GetContactTitle | components/WizardShell.tsx:84-122 | a listed profile gets its personalised title and subtitle; any other profile, or none, gets the generic one |
| Wizard.NavigationInRange | components/WizardShell.tsx:712-725 | next and back keep the step within [1, 10] |
| Wizard.HydrateStep | components/WizardShell.tsx:591-593 | a stored step is restored exactly when it lies in [1, 10]; otherwise the wizard starts at step 1 |
| Wizard.IntroAlwaysAdvances | components/WizardShell.tsx:713-716 | next from step 1 goes to step 2 unconditionally and leaves the errors alone |
| Wizard.QuestionPageAdvancesIff | components/WizardShell.tsx:661-719 | on pages 2–9, next advances exactly when that page's answer is truthy; otherwise the step stays and the only error is on that answer |
| Wizard.CustomZonePageAdvancesIff | components/WizardShell.tsx:671-677 | in custom mode the zone page advances exactly when the typed text is not blank, and otherwise reports the custom-zone error |
| Wizard.ContactPageValidIff | components/WizardShell.tsx:693-708 | the contact page passes exactly when name and phone are non-blank text, the trimmed e-mail matches the pattern and consent is truthy |
| Wizard.ContactErrorKeys | components/WizardShell.tsx:693-704 | the contact page's errors name only the name, e-mail, phone and consent answers |
| Wizard.ContactEmailError | components/WizardShell.tsx:695-700 | the e-mail error is reported exactly when the e-mail answer is not accepted |
| Wizard.LastPageIsLast | components/WizardShell.tsx:717-719 | next from step 10 stays on step 10 |
| Wizard.BackOnePage | components/WizardShell.tsx:722-725 | back clears every error and goes back exactly one step, but never before step 1 |
| Wizard.ResetIsInitial | components/WizardShell.tsx:649-658 | reset returns to the initial state from anywhere, and the introduction then leads to step 2 |
| Wizard.UpdateField | components/WizardShell.tsx:618-633 | sets exactly that answer and clears only its error; every other answer and error, the step, the result and the submitting flag are unchanged; a zone leaves custom mode and forgets the typed text, any other answer leaves both alone |
| Wizard.SelectCustomZone | components/WizardShell.tsx:636-640 | custom mode is on, the zone answer is "", the zone and custom-zone errors are dropped and nothing else changes |
| Wizard.CustomZoneTextChange | components/WizardShell.tsx:642-646 | the typed text is kept as it is, the zone answer becomes its trimmed form, the zone and custom-zone errors are dropped and nothing else changes |
| Wizard.UpdateFieldIsLocal | components/WizardShell.tsx:618-625 | `updateField` sets exactly that answer and clears only its error; every other answer, every other error and the step are unchanged |
| Wizard.UpdateFieldKeepsOthers | components/WizardShell.tsx:618-625 | updating one answer leaves every other answer's value unchanged |
| Wizard.UpdateFieldCustomMode | components/WizardShell.tsx:626-630 | choosing a zone leaves custom mode and forgets the typed text; any other answer leaves both alone |
| Wizard.PresetZonePage | components/WizardShell.tsx:618-677 | after a preset zone is chosen, the zone page passes exactly when the zone is non-empty |
| Wizard.CustomZoneFlow | components/WizardShell.tsx:636-646 | the custom option empties the zone and turns custom mode on; typing stores the trimmed text as the zone; the zone page then passes exactly when that text is not blank |
| Wizard.ClientEmailIffServerEmail | components/WizardShell.tsx:695-700 | for a text e-mail, the contact page reports no e-mail error exactly when the server validator's e-mail check passes on the body the wizard sends |
| Wizard.BlockedSubmitSendsNothing | components/WizardShell.tsx:728-729 | when the contact page does not validate, the server's answer cannot matter and only the step errors are shown |
| Wizard.ResultShownIff | components/WizardShell.tsx:728-755 | the result screen appears exactly when the contact page validates and the endpoint accepts, and it shows what the endpoint returned |
| Wizard.FailedSubmitKeepsDraft | components/WizardShell.tsx:753-760 | a rejection or a network failure keeps the answers, shows no result, ends submitting and shows exactly one form-level message |
| Wizard.ContactTitlesFollowScoredProfiles | components/WizardShell.tsx:84-122 | the profiles with a personalised contact title are exactly the profiles the scoring engine awards points |
| Wizard.PersonalisedIff | components/WizardShell.tsx:84-122 | the contact copy differs from the generic one exactly for a listed profile |
| Wizard.ValuationOnlyGetsDefault | components/WizardShell.tsx:116-120 | the valuation-only profile, the seventh option, gets the generic contact copy |

## Left out

- Rendering is left out: every JSX component, `ResultScreen`, `StepContent`, the progress bar and its percentage. It is presentation only.
- Storage and network I/O are left out: localStorage reads and writes, `fetch`, the 10-second timeout, and logging to the console.
  - The saved draft, the server's answer and the webhook's outcome are parameters instead.
  - The timestamp `new Date().toISOString()` is a parameter `now`.
  - `process.env` is a map.
- Wizard.Hydrate takes the stored draft already parsed. A stored step is a number. A stored value of another JSON type is not modelled, because the wizard only ever writes numbers there.
- Wizard.StepErrors treats a name, e-mail or phone answer that is not text as missing. In JavaScript, `?.trim()` would throw on such a value. The wizard itself only stores text there.
- Wizard.Submit does not model the `?? "Error al enviar. Inténtalo de nuevo."` fallback. The modelled endpoint always includes an error message.
- `PRESET_ZONE_NAMES` and `CUSTOM_ZONE_LABEL` are left out. components/WizardShell.tsx imports them, but lib/zones.ts does not define them. Zone answers are arbitrary text here.
- Text.Lower lower-cases ASCII and Latin-1 letters only, not the full Unicode case mapping.
- Json.TextToNumber parses decimal and exponent notation and the infinities. It does not parse hexadecimal, octal or binary literals.
- Json.ToText renders numbers in plain decimal notation, not JavaScript's exponent form for very large or very small magnitudes.
- Numbers are exact decimals. Binary floating-point rounding is not modelled.
- Record lookups range over the declared keys only. Inherited object keys such as "constructor" are a JavaScript runtime artefact and are not modelled.
- The scoring engine's earlier revision with an inverted satisfaction scale is not part of this model. The code models only the current scale.
- `Scoring.ComputeScore` takes a validated record in which satisfaction is already a number. The `Number(data.satisfaction)` coercion is modelled in the validator. `Partial<WizardData>` input with missing fields is not modelled.
- The `runtime` export and the Next.js request and response objects are left out: they do not affect any decision.
- The agency's brand colour is carried in `AgencyConfig`, but no decision reads it.
- Wizard.Submit models only the settled state after the request. The intermediate state, with `submitting` set and the errors cleared while the request is in flight (components/WizardShell.tsx:730-731), is left out, because nothing is decided in it.
- SubmitRoute.CopyFor carries no contract of its own. Its facts are stated by SubmitRoute.CopyIsLeadThenZone and SubmitRoute.CopyMarker, and on the endpoint's side by SubmitRoute.BuildResultCopy.
