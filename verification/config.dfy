/** Derivation of the run's configuration from the environment: required
    inputs in a fixed order, the base URL, the trimmed name and body texts and
    the two boolean flags. */
module Config {

  import opened Wrappers
  import opened Text
  import opened Api
  import opened Errors
  import opened Host

  const TagVar := "DRONE_TAG"
  const RepoVar := "DRONE_REPO"
  const ApiKeyVar := "PLUGIN_API_KEY"
  const BaseUrlVar := "PLUGIN_BASE_URL"
  const RepoLinkVar := "DRONE_REPO_LINK"
  const NameVar := "PLUGIN_NAME"
  const BodyVar := "PLUGIN_BODY"
  const DraftVar := "PLUGIN_DRAFT"
  const PrereleaseVar := "PLUGIN_PRERELEASE"
  const AssetsVar := "PLUGIN_ASSETS"

  /** Everything `main` computes before the first request. */
  datatype Configuration = Configuration(
    tagName: string,
    ownerAndRepo: string,
    apiKey: string,
    baseUrl: string,
    name: Option<string>,
    body: Option<string>,
    draft: Option<bool>,
    prerelease: Option<bool>)

  /** The JSON body of the create request: an unset optional setting is
      `null` in the payload, never an empty string or a default flag. */
  function PayloadOf(cfg: Configuration): (p: Payload)
    ensures p.tagName == cfg.tagName
    ensures p.name == cfg.name && p.body == cfg.body
    ensures p.prerelease == cfg.prerelease && p.draft == cfg.draft
  {
    Payload(cfg.tagName, cfg.name, cfg.body, cfg.prerelease, cfg.draft)
  }

  /** The literal `bool::from_str` accepts for `b`. */
  function BoolLiteral(b: bool): string {
    if b then "true" else "false"
  }

  /** `bool::from_str`: exactly "true" or "false", nothing else. */
  function ParseBool(s: string): (r: Option<bool>)
    ensures r == Some(true) <==> s == "true"
    ensures r == Some(false) <==> s == "false"
    ensures r.None? <==> s != "true" && s != "false"
  {
    if s == "true" then Some(true) else if s == "false" then Some(false) else None
  }

  /** A string parses to `b` exactly when it is the literal for `b`. */
  lemma ParseBoolLiteral(s: string, b: bool)
    ensures ParseBool(s) == Some(b) <==> s == BoolLiteral(b)
  {
  }

  /** PLUGIN_BASE_URL when set, else DRONE_REPO_LINK with `ownerAndRepo`
      stripped from its end. */
  function ResolveBaseUrl(env: Env, ownerAndRepo: string): (r: Result<string, Error>)
    ensures HasText(env, BaseUrlVar) ==> r == Success(env[BaseUrlVar].text)
    ensures BaseUrlVar in env && env[BaseUrlVar].NotUnicode? ==> r == Failure(VarNotUnicode(BaseUrlVar))
    ensures BaseUrlVar !in env ==>
      (r.Success? <==> HasText(env, RepoLinkVar) && EndsWith(env[RepoLinkVar].text, ownerAndRepo))
    ensures BaseUrlVar !in env && r.Success? ==> r.value + ownerAndRepo == env[RepoLinkVar].text
    ensures BaseUrlVar !in env && r.Failure? ==> r.error == BaseUrlUnresolved
  {
    var explicit :- OptionalVar(env, BaseUrlVar);
    match explicit
    case Some(url) => Success(url)
    case None =>
      match VarIfText(env, RepoLinkVar)
      case None => Failure(BaseUrlUnresolved)
      case Some(link) =>
        match StripSuffix(link, ownerAndRepo)
        case None => Failure(BaseUrlUnresolved)
        case Some(base) => Success(base)
  }

  /** A derived base URL is the repository link with exactly the `owner/repo`
      suffix removed. */
  lemma DerivedBaseUrl(env: Env, origin: string, ownerAndRepo: string)
    requires BaseUrlVar !in env
    requires RepoLinkVar in env && env[RepoLinkVar] == Unicode(origin + ownerAndRepo)
    ensures ResolveBaseUrl(env, ownerAndRepo) == Success(origin)
  {
    StripSuffixOfConcat(origin, ownerAndRepo);
  }

  /** PLUGIN_NAME or PLUGIN_BODY: the named file's text, whitespace-trimmed. */
  function TextSetting(env: Env, files: Files, name: string): (r: Result<Option<string>, Error>)
    ensures r == Success(None) <==> name !in env
    ensures name in env && env[name].NotUnicode? ==> r == Failure(VarNotUnicode(name))
    ensures HasText(env, name) ==> match FileText(files, env[name].text)
      case Failure(e) => r == Failure(e)
      case Success(text) => r == Success(Some(Trim(text)))
    ensures r.Success? && r.value.Some? ==> Trim(r.value.value) == r.value.value
  {
    var path :- OptionalVar(env, name);
    match path
    case None => Success(None)
    case Some(p) =>
      var text :- FileText(files, p);
      TrimIdempotent(text);
      Success(Some(Trim(text)))
  }

  /** PLUGIN_DRAFT or PLUGIN_PRERELEASE. */
  function BoolSetting(env: Env, name: string): (r: Result<Option<bool>, Error>)
    ensures name !in env ==> r == Success(None)
    ensures name in env && env[name].NotUnicode? ==> r == Failure(VarNotUnicode(name))
    ensures name in env && env[name] == Unicode("true") ==> r == Success(Some(true))
    ensures name in env && env[name] == Unicode("false") ==> r == Success(Some(false))
    ensures HasText(env, name) && env[name].text != "true" && env[name].text != "false" ==>
      r == Failure(InvalidBoolean(name))
  {
    var text :- OptionalVar(env, name);
    match text
    case None => Success(None)
    case Some(s) =>
      match ParseBool(s)
      case None => Failure(InvalidBoolean(name))
      case Some(b) => Success(Some(b))
  }

  /** The inputs without which no release can be addressed. */
  datatype Coordinates = Coordinates(tagName: string, ownerAndRepo: string, apiKey: string, baseUrl: string)

  /** The first part of `main`: tag, repository, API key, then base URL, each
      consulted only when the ones before it are present. */
  function ResolveCoordinates(env: Env): (r: Result<Coordinates, Error>)
    ensures !HasText(env, TagVar) ==> r == Failure(RequiredVarMissing(TagVar))
    ensures HasText(env, TagVar) && !HasText(env, RepoVar) ==> r == Failure(RequiredVarMissing(RepoVar))
    ensures HasText(env, TagVar) && HasText(env, RepoVar) && !HasText(env, ApiKeyVar) ==>
      r == Failure(RequiredVarMissing(ApiKeyVar))
    ensures HasText(env, TagVar) && HasText(env, RepoVar) && HasText(env, ApiKeyVar) ==>
      match ResolveBaseUrl(env, env[RepoVar].text)
      case Failure(e) => r == Failure(e)
      case Success(base) => r.Success? && r.value.baseUrl == base
    ensures r.Success? ==>
      && HasText(env, TagVar) && r.value.tagName == env[TagVar].text
      && HasText(env, RepoVar) && r.value.ownerAndRepo == env[RepoVar].text
      && HasText(env, ApiKeyVar) && r.value.apiKey == env[ApiKeyVar].text
  {
    var tag :- RequiredVar(env, TagVar);
    var ownerAndRepo :- RequiredVar(env, RepoVar);
    var apiKey :- RequiredVar(env, ApiKeyVar);
    var base :- ResolveBaseUrl(env, ownerAndRepo);
    Success(Coordinates(tag, ownerAndRepo, apiKey, base))
  }

  /** The optional settings of a release. */
  datatype Settings = Settings(name: Option<string>, body: Option<string>, draft: Option<bool>, prerelease: Option<bool>)

  /** The second part of `main`: name, body, draft, then prerelease. Each
      is absent exactly when its variable is unset; texts come trimmed. */
  function ResolveSettings(env: Env, files: Files): (r: Result<Settings, Error>)
    ensures r.Success? ==> (r.value.name.None? <==> NameVar !in env)
    ensures r.Success? ==> (r.value.body.None? <==> BodyVar !in env)
    ensures r.Success? && r.value.name.Some? ==> Trim(r.value.name.value) == r.value.name.value
    ensures r.Success? && r.value.body.Some? ==> Trim(r.value.body.value) == r.value.body.value
    ensures r.Success? ==> (r.value.draft.None? <==> DraftVar !in env)
    ensures r.Success? ==> (r.value.prerelease.None? <==> PrereleaseVar !in env)
    ensures r.Success? && r.value.draft.Some? ==> env[DraftVar] == Unicode(BoolLiteral(r.value.draft.value))
    ensures r.Success? && r.value.prerelease.Some? ==>
      env[PrereleaseVar] == Unicode(BoolLiteral(r.value.prerelease.value))
    ensures TextSetting(env, files, NameVar).Failure? ==> r == Failure(TextSetting(env, files, NameVar).error)
    ensures TextSetting(env, files, NameVar).Success? && TextSetting(env, files, BodyVar).Failure? ==>
      r == Failure(TextSetting(env, files, BodyVar).error)
    ensures (TextSetting(env, files, NameVar).Success? && TextSetting(env, files, BodyVar).Success?
             && BoolSetting(env, DraftVar).Failure?) ==>
      r == Failure(BoolSetting(env, DraftVar).error)
    ensures (TextSetting(env, files, NameVar).Success? && TextSetting(env, files, BodyVar).Success?
             && BoolSetting(env, DraftVar).Success? && BoolSetting(env, PrereleaseVar).Failure?) ==>
      r == Failure(BoolSetting(env, PrereleaseVar).error)
    ensures r.Success? <==>
      && TextSetting(env, files, NameVar).Success? && TextSetting(env, files, BodyVar).Success?
      && BoolSetting(env, DraftVar).Success? && BoolSetting(env, PrereleaseVar).Success?
    ensures r.Success? ==> r.value == Settings(
      TextSetting(env, files, NameVar).value, TextSetting(env, files, BodyVar).value,
      BoolSetting(env, DraftVar).value, BoolSetting(env, PrereleaseVar).value)
  {
    var name :- TextSetting(env, files, NameVar);
    var body :- TextSetting(env, files, BodyVar);
    var draft :- BoolSetting(env, DraftVar);
    var prerelease :- BoolSetting(env, PrereleaseVar);
    Success(Settings(name, body, draft, prerelease))
  }

  /** The configuration part of `main`: the coordinates first, then the
      optional settings; the first failure ends the run. */
  function ResolveConfig(env: Env, files: Files): (r: Result<Configuration, Error>)
    ensures ResolveCoordinates(env).Failure? ==> r == Failure(ResolveCoordinates(env).error)
    ensures ResolveCoordinates(env).Success? && ResolveSettings(env, files).Failure? ==>
      r == Failure(ResolveSettings(env, files).error)
    ensures r.Success? <==> ResolveCoordinates(env).Success? && ResolveSettings(env, files).Success?
    ensures r.Success? ==>
      var c := ResolveCoordinates(env).value;
      var s := ResolveSettings(env, files).value;
      r.value == Configuration(c.tagName, c.ownerAndRepo, c.apiKey, c.baseUrl, s.name, s.body, s.draft, s.prerelease)
  {
    var c :- ResolveCoordinates(env);
    var s :- ResolveSettings(env, files);
    Success(Configuration(c.tagName, c.ownerAndRepo, c.apiKey, c.baseUrl, s.name, s.body, s.draft, s.prerelease))
  }

  /** A resolved configuration carries PLUGIN_API_KEY verbatim. */
  lemma ResolvedApiKey(env: Env, files: Files)
    requires ResolveConfig(env, files).Success?
    ensures HasText(env, ApiKeyVar) && ResolveConfig(env, files).value.apiKey == env[ApiKeyVar].text
  {
    assert ResolveCoordinates(env).Success?;
  }
}
