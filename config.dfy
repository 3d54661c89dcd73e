/**
 * `Config._validate_config`: the checks run on the loaded configuration
 * object, the warnings they log and the first error they raise.
 */
module ConfigCheck {
  import opened Wrappers

  /** A value decoded from JSON. Numbers are kept as reals; an integer is a real with no fraction. */
  datatype Json =
    | JNull
    | JBool(b: bool)
    | JNum(n: real)
    | JStr(s: string)
    | JArr(items: seq<Json>)
    | JObj(fields: map<string, Json>)

  /** Python truthiness of a decoded JSON value. */
  predicate Truthy(j: Json)
  {
    match j
    case JNull => false
    case JBool(b) => b
    case JNum(n) => n != 0.0
    case JStr(s) => s != []
    case JArr(items) => items != []
    case JObj(fields) => fields != map[]
  }

  /** `d.get(key)`: `None` (here `JNull`) for a missing key. */
  function Get(d: map<string, Json>, key: string): Json
  {
    if key in d then d[key] else JNull
  }

  /** The exceptions `_validate_config` lets out. */
  datatype ConfigError =
    | MissingSection(section: string)       // ValueError
    | NotAnObject(section: string)          // AttributeError from `.get` on a non-dict
    | UnsupportedProvider(provider: Json)   // ValueError
    | NoWebsites                            // ValueError
    | NoKeywords                            // ValueError

  /** The warnings it logs. */
  datatype Warning = IncompleteEmail | NoLlmApiKey

  /** The warnings logged, in order, and the error raised, if any. */
  datatype Validation = Validation(warnings: seq<Warning>, error: Option<ConfigError>)

  const RequiredSections := ["websites", "keywords", "email", "llm"]

  /** The first of `sections` that the configuration lacks. */
  function FirstMissing(config: map<string, Json>, sections: seq<string>): (r: Option<string>)
    ensures r.None? <==> forall i :: 0 <= i < |sections| ==> sections[i] in config
    ensures r.Some? ==> exists i :: 0 <= i < |sections| && sections[i] == r.value && r.value !in config
                                    && forall j :: 0 <= j < i ==> sections[j] in config
    decreases |sections|
  {
    if sections == [] then None
    else if sections[0] !in config then Some(sections[0])
    else
      var rest := FirstMissing(config, sections[1..]);
      assert forall i :: 1 <= i < |sections| ==> sections[i] == sections[1..][i - 1];
      if rest.Some? then
        var i :| 0 <= i < |sections[1..]| && sections[1..][i] == rest.value && rest.value !in config
                 && forall j :: 0 <= j < i ==> sections[1..][j] in config;
        assert sections[i + 1] == rest.value;
        rest
      else rest
  }

  predicate EmailComplete(email: map<string, Json>)
  {
    Truthy(Get(email, "sender_email")) && Truthy(Get(email, "recipients")) && Truthy(Get(email, "api_key"))
  }

  /** `llm_cfg.get("provider", "anthropic")`. */
  function Provider(llm: map<string, Json>): Json
  {
    if "provider" in llm then llm["provider"] else JStr("anthropic")
  }

  predicate SupportedProvider(provider: Json)
  {
    provider == JStr("anthropic") || provider == JStr("openai")
  }

  /**
   * `_validate_config()`: required sections first, in order; then the email
   * section (a warning when incomplete), the LLM section (an error for an
   * unknown provider, a warning without an API key), then non-empty
   * websites and keywords.
   */
  function ValidateConfig(config: map<string, Json>): Validation
  {
    match FirstMissing(config, RequiredSections)
    case Some(section) => Validation([], Some(MissingSection(section)))
    case None =>
      if !config["email"].JObj? then Validation([], Some(NotAnObject("email")))
      else
        var emailWarnings := if EmailComplete(config["email"].fields) then [] else [IncompleteEmail];
        if !config["llm"].JObj? then Validation(emailWarnings, Some(NotAnObject("llm")))
        else
          var llm := config["llm"].fields;
          if !SupportedProvider(Provider(llm)) then
            Validation(emailWarnings, Some(UnsupportedProvider(Provider(llm))))
          else
            var warnings := emailWarnings + (if Truthy(Get(llm, "api_key")) then [] else [NoLlmApiKey]);
            if !Truthy(config["websites"]) then Validation(warnings, Some(NoWebsites))
            else if !Truthy(config["keywords"]) then Validation(warnings, Some(NoKeywords))
            else Validation(warnings, None)
  }

  /** Nothing is raised exactly when every check passes. */
  lemma AcceptedIff(config: map<string, Json>)
    ensures ValidateConfig(config).error.None? <==>
            && (forall i :: 0 <= i < |RequiredSections| ==> RequiredSections[i] in config)
            && config["email"].JObj? && config["llm"].JObj?
            && SupportedProvider(Provider(config["llm"].fields))
            && Truthy(config["websites"]) && Truthy(config["keywords"])
  {
  }

  /** A missing section is reported by name, the first missing one in the order websites, keywords, email, llm. */
  lemma MissingSectionReported(config: map<string, Json>, k: nat)
    requires k < |RequiredSections| && RequiredSections[k] !in config
    requires forall j :: 0 <= j < k ==> RequiredSections[j] in config
    ensures ValidateConfig(config) == Validation([], Some(MissingSection(RequiredSections[k])))
  {
  }

  /** The configuration of the tests with its `websites` section deleted is refused for that section. */
  lemma WebsitesMissing(config: map<string, Json>)
    requires "websites" !in config
    ensures ValidateConfig(config).error == Some(MissingSection("websites"))
  {
    MissingSectionReported(config, 0);
  }

  /** Empty or missing email fields and a missing LLM key only warn; they never make validation fail. */
  lemma WarningsDoNotRefuse(config: map<string, Json>, email: map<string, Json>, llm: map<string, Json>)
    requires "websites" in config && "keywords" in config && "email" in config && "llm" in config
    requires config["email"] == JObj(email) && config["llm"] == JObj(llm)
    requires SupportedProvider(Provider(llm))
    requires Truthy(config["websites"]) && Truthy(config["keywords"])
    ensures ValidateConfig(config).error == None
    ensures IncompleteEmail in ValidateConfig(config).warnings <==> !EmailComplete(email)
    ensures NoLlmApiKey in ValidateConfig(config).warnings <==> !Truthy(Get(llm, "api_key"))
  {
  }

  /** An LLM section without a provider gets `anthropic`, which is supported. */
  lemma DefaultProviderSupported(llm: map<string, Json>)
    requires "provider" !in llm
    ensures SupportedProvider(Provider(llm))
  {
  }
}
