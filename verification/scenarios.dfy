/** Concrete example runs of the publish step, each derived from the
    general lemmas of the model. */
module Scenarios {

  import opened Wrappers
  import opened Text
  import opened Decimal
  import opened Api
  import opened Errors
  import opened Host
  import opened Config
  import opened Assets
  import opened Pipeline

  const Base := "https://git.example.com"
  const Repo := "acme/widget"
  /** https://git.example.com/api/v1/repos/acme/widget/releases */
  const Releases := Base + "/api/v1/repos/" + Repo + "/releases"
  const ReleasePage := "https://git.example.com/acme/widget/releases/42"

  /** Tag v1.2.0 of acme/widget on https://git.example.com, nothing optional set. */
  const ExampleEnv: Env :=
    map[
      TagVar := Unicode("v1.2.0"),
      RepoVar := Unicode(Repo),
      ApiKeyVar := Unicode("secret"),
      BaseUrlVar := Unicode(Base)]

  const Pattern := "dist/*.tar.gz"

  /** The same run with PLUGIN_ASSETS set to one pattern. */
  const AssetsEnv: Env := ExampleEnv[AssetsVar := Unicode(Pattern)]

  /** The settings of the example configuration that do not involve assets. */
  lemma ExampleSettings(env: Env)
    requires env == ExampleEnv || env == AssetsEnv
    ensures HasText(env, TagVar) && env[TagVar].text == "v1.2.0"
    ensures HasText(env, RepoVar) && env[RepoVar].text == Repo
    ensures HasText(env, ApiKeyVar) && env[ApiKeyVar].text == "secret"
    ensures HasText(env, BaseUrlVar) && env[BaseUrlVar].text == Base
    ensures NameVar !in env && BodyVar !in env && DraftVar !in env && PrereleaseVar !in env
    ensures env == ExampleEnv ==> AssetsVar !in env
    ensures env == AssetsEnv ==> HasText(env, AssetsVar) && env[AssetsVar].text == Pattern
  {
  }

  /** Both example environments resolve to the same configuration. */
  lemma ExampleConfig(env: Env, files: Files)
    requires env == ExampleEnv || env == AssetsEnv
    ensures ResolveConfig(env, files) == Success(Configuration("v1.2.0", Repo, "secret", Base, None, None, None, None))
  {
    ExampleSettings(env);
  }

  /** PLUGIN_NAME names a file holding "  hello world  \n": the release name
      is that text with its surrounding whitespace removed. */
  lemma TrimmedReleaseName(env: Env, files: Files, path: string, bytes: seq<byte>)
    requires NameVar in env && env[NameVar] == Unicode(path)
    requires files.read(path) == Some(bytes)
    requires files.decode(bytes) == Some("  hello world  \n")
    ensures TextSetting(env, files, NameVar) == Success(Some("hello world"))
  {
    assert FileText(files, path) == Success("  hello world  \n");
    assert "  hello world  \n" == "  " + "hello world" + "  \n";
    TrimUnique("  ", "hello world", "  \n");
  }

  lemma BaseHasNoTrailingSlash()
    ensures TrimEndWhile(Base, IsSlash) == Base
  {
    assert Base[|Base| - 1] == 'm';
    assert Base + [] == Base;
    TrimEndUnique(Base, [], IsSlash);
  }

  /** The releases URL of the example. */
  lemma ExampleReleasesUrl()
    ensures ReleasesUrl(Base, Repo) == Releases
  {
    BaseHasNoTrailingSlash();
  }

  /** A trailing slash on the example's base URL gives the same releases URL. */
  lemma ExampleReleasesUrlWithSlash()
    ensures ReleasesUrl(Base + "/", Repo) == Releases
  {
    assert All("/", IsSlash);
    ReleasesUrlIgnoresTrailingSlashes(Base, "/", Repo);
    ExampleReleasesUrl();
  }

  /** The asset URL of release 42 of the example. */
  lemma ExampleAssetsUrl()
    ensures AssetsUrl(Releases, 42) == Releases + "/42/assets"
  {
    assert ToDecimal(4) == "4";
    assert ToDecimal(42) == "42";
  }

  /** Two comma-separated patterns split into exactly those two patterns. */
  lemma ExampleSplit()
    ensures Split("dist/*.tar.gz,docs/*.pdf", ',') == [Pattern, "docs/*.pdf"]
  {
    var pieces := [Pattern, "docs/*.pdf"];
    assert Join(pieces, ',') == "dist/*.tar.gz,docs/*.pdf";
    SplitJoin(pieces, ',');
  }

  /** Without assets the run sends one create request to the releases URL and
      reports the created release's URL. */
  lemma NoAssetsRun(w: World)
    requires w.env == ExampleEnv
    requires w.createResponse == Received(201)
    requires w.createdBody == Some(ReleaseCreated(42, ReleasePage))
    ensures Publish(w) == Run(
      [CreateRelease(Releases, Auth(UserAgent(w.version), "secret"), Payload("v1.2.0", None, None, None, None))],
      Success(ReleasePage))
  {
    ExampleReleasesUrl();
    ExampleAssetsUrl();
    ExampleConfig(w.env, w.files);
    ExampleSettings(w.env);
  }

  lemma PatternIsOnePiece()
    ensures Split(Pattern, ',') == [Pattern]
  {
    assert ',' !in Pattern;
    SplitWithoutSeparator(Pattern, ',');
  }

  lemma TwoRegularFiles(isFile: string -> bool, first: string, second: string)
    requires isFile(first) && isFile(second)
    ensures FilesOf([Path(first), Path(second)], isFile) == [first, second]
  {
    var entries := [Path(first), Path(second)];
    assert entries[1..] == [Path(second)];
    assert FilesOf([Path(second)], isFile) == [second];
  }

  lemma OnePatternTwoFiles(glob: string -> GlobResult, isFile: string -> bool, first: string, second: string)
    requires glob(Pattern) == Matches([Path(first), Path(second)])
    requires isFile(first) && isFile(second)
    ensures CollectAssets([Pattern], glob, isFile) == Success([first, second])
  {
    assert AllClean([Pattern], glob) by {
      assert Clean(glob([Pattern][0]));
    }
    TwoRegularFiles(isFile, first, second);
    assert Expected([Pattern], glob, isFile) == [first, second] + [];
    assert [first, second] + [] == [first, second];
  }

  /** The example pattern expands to its two matches, in match order. */
  lemma ExampleAssets(w: World, first: string, second: string)
    requires w.glob(Pattern) == Matches([Path(first), Path(second)])
    requires w.isFile(first) && w.isFile(second)
    ensures AssetsOf(w, Pattern) == Success([first, second])
  {
    PatternIsOnePiece();
    OnePatternTwoFiles(w.glob, w.isFile, first, second);
  }

  /** Two delivered uploads are exactly two requests to the asset URL. */
  lemma TwoUploads(w: World, url: string, auth: Auth, first: string, second: string)
    requires Delivered(w, [first, second], 0) && Delivered(w, [first, second], 1)
    ensures UploadAll(w, url, auth, [first, second])
      == Uploaded([UploadAsset(url, auth, first), UploadAsset(url, auth, second)], None)
  {
    assert FirstUndelivered(w, [first, second], 2);
  }

  /** Up to the create response the asset run is the plain example run. */
  lemma ExampleCreated(w: World)
    requires w.env == AssetsEnv
    requires w.createResponse == Received(201)
    requires w.createdBody == Some(ReleaseCreated(42, ReleasePage))
    ensures Publish(w) == AfterCreation(w,
      CreateRelease(Releases, Auth(UserAgent(w.version), "secret"), Payload("v1.2.0", None, None, None, None)),
      ReleaseCreated(42, ReleasePage))
  {
    ExampleReleasesUrl();
    ExampleConfig(w.env, w.files);
    var cfg := Configuration("v1.2.0", Repo, "secret", Base, None, None, None, None);
    assert Publish(w) == Created(w, cfg);
  }

  /** With one pattern matching two regular files that upload fine, the run
      sends the create request and two uploads to the release's asset URL. */
  lemma TwoAssetsRun(w: World, first: string, second: string)
    requires w.env == AssetsEnv
    requires w.createResponse == Received(201)
    requires w.createdBody == Some(ReleaseCreated(42, ReleasePage))
    requires w.glob(Pattern) == Matches([Path(first), Path(second)])
    requires w.isFile(first) && w.isFile(second)
    requires Delivered(w, [first, second], 0) && Delivered(w, [first, second], 1)
    ensures var auth := Auth(UserAgent(w.version), "secret");
      Publish(w) == Run(
        [ CreateRelease(Releases, auth, Payload("v1.2.0", None, None, None, None)),
          UploadAsset(Releases + "/42/assets", auth, first),
          UploadAsset(Releases + "/42/assets", auth, second) ],
        Success(ReleasePage))
  {
    var auth := Auth(UserAgent(w.version), "secret");
    var create := CreateRelease(Releases, auth, Payload("v1.2.0", None, None, None, None));
    var release := ReleaseCreated(42, ReleasePage);
    ExampleCreated(w);
    ExampleAssetsUrl();
    ExampleSettings(w.env);
    ExampleAssets(w, first, second);
    TwoUploads(w, Releases + "/42/assets", auth, first, second);
    assert OptionalVar(w.env, AssetsVar) == Success(Some(Pattern));
  }
}
