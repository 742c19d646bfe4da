/**
 * The agency directory (lib/agencies.ts): which agency a funnel link belongs
 * to, and where that agency's leads are delivered.
 */
module Agencies {
  import opened Undefined
  import opened Types

  const DefaultAgency: AgencyConfig :=
    AgencyConfig("default", "Radar Propietario – A Coruña", "#1d4ed8", "MAKE_WEBHOOK_DEFAULT")

  const Coruna01: AgencyConfig :=
    AgencyConfig("coruna01", "Inmobiliaria Coruña 01", "#0f766e", "MAKE_WEBHOOK_CORUNA01")

  /** The `agencies` record, keyed by the `agency` query parameter. */
  const AgencyTable: map<string, AgencyConfig> := map["DEFAULT" := DefaultAgency, "coruna01" := Coruna01]

  /** The environment variable every agency falls back to. */
  const DefaultWebhookKey: string := "MAKE_WEBHOOK_DEFAULT"

  /**
   * `getAgencyConfig`: a missing (`undefined` or `null`) or empty parameter
   * gives DEFAULT; otherwise the entry under that exact key, or DEFAULT when
   * there is none.
   */
  function GetAgencyConfig(param: Option<string>): (r: AgencyConfig)
    ensures param.None? || param == Some("") ==> r == DefaultAgency
    ensures param.Some? && param.value in AgencyTable ==> r == AgencyTable[param.value]
    ensures param.Some? && param.value !in AgencyTable ==> r == DefaultAgency
  {
    match param
    case None => DefaultAgency
    case Some(p) =>
      if p == "" then DefaultAgency
      else if p in AgencyTable then AgencyTable[p]
      else DefaultAgency
  }

  /** An environment variable is set to something non-empty, which is what `if (specificUrl)` tests. */
  predicate IsSet(env: map<string, string>, key: string) {
    key in env && env[key] != ""
  }

  /**
   * `getWebhookUrl`: the agency's own variable when it is set and non-empty,
   * otherwise `MAKE_WEBHOOK_DEFAULT` as it is (even when empty), otherwise "".
   */
  function GetWebhookUrl(config: AgencyConfig, env: map<string, string>): (r: string)
    ensures IsSet(env, config.webhookEnvKey) ==> r == env[config.webhookEnvKey]
    ensures !IsSet(env, config.webhookEnvKey) && DefaultWebhookKey in env ==> r == env[DefaultWebhookKey]
    ensures !IsSet(env, config.webhookEnvKey) && DefaultWebhookKey !in env ==> r == ""
  {
    var specific := Get(env, config.webhookEnvKey);
    if specific.Some? && specific.value != "" then specific.value
    else Coalesce(Get(env, DefaultWebhookKey), "")
  }

  // ---- properties ----

  /** The result is always one of the record's entries. */
  lemma AlwaysAnEntry(param: Option<string>)
    ensures var r := GetAgencyConfig(param);
      exists k :: k in AgencyTable && AgencyTable[k] == r
  {
    var r := GetAgencyConfig(param);
    if r == DefaultAgency {
      assert AgencyTable["DEFAULT"] == r;
    } else {
      assert AgencyTable["coruna01"] == r;
    }
  }

  /** A known key gets its own entry. */
  lemma KnownKeys()
    ensures GetAgencyConfig(Some("coruna01")) == Coruna01
    ensures GetAgencyConfig(Some("DEFAULT")) == DefaultAgency
  {
  }

  /**
   * The agency id of DEFAULT is "default", but the table is keyed by
   * "DEFAULT": the parameter "default" is unknown and resolves to DEFAULT
   * anyway. Keys are case-sensitive.
   */
  lemma DefaultIdIsNotAKey()
    ensures DefaultAgency.agencyId == "default" && "default" !in AgencyTable
    ensures GetAgencyConfig(Some("default")) == DefaultAgency
    ensures GetAgencyConfig(Some("Coruna01")) == DefaultAgency
  {
  }

  /** The URL is empty exactly when neither the agency's variable nor the default one holds a non-empty value. */
  lemma WebhookUrlEmptyIff(config: AgencyConfig, env: map<string, string>)
    ensures GetWebhookUrl(config, env) == "" <==> !IsSet(env, config.webhookEnvKey) && !IsSet(env, DefaultWebhookKey)
  {
  }

  /** A non-empty URL is the value of one of the two variables. */
  lemma WebhookUrlFromEnv(config: AgencyConfig, env: map<string, string>)
    ensures var r := GetWebhookUrl(config, env);
      r != "" ==>
        || (config.webhookEnvKey in env && r == env[config.webhookEnvKey])
        || (DefaultWebhookKey in env && r == env[DefaultWebhookKey])
  {
  }

  /** For the DEFAULT agency both lookups read the same variable: the URL is `MAKE_WEBHOOK_DEFAULT` or "". */
  lemma DefaultAgencyWebhook(env: map<string, string>)
    ensures GetWebhookUrl(DefaultAgency, env) == Coalesce(Get(env, DefaultWebhookKey), "")
  {
  }
}
