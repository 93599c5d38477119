/** The whole run of the step as a fail-fast fold: resolve the configuration,
    create the release, expand the asset patterns and upload each asset in
    order, stopping at the first failure. Everything the program learns from
    outside (environment, files, glob, HTTP responses) comes from a `World`. */
module Pipeline {

  import opened Wrappers
  import opened Text
  import opened Api
  import opened Errors
  import opened Host
  import opened Config
  import opened Assets

  /** The oracles a run consults. `uploadResponse(i)` is the forge's answer to
      the i-th upload request of the run. */
  datatype World = World(
    env: Env,
    files: Files,
    version: string,
    createResponse: Response,
    createdBody: Option<ReleaseCreated>,
    glob: string -> GlobResult,
    isFile: string -> bool,
    formEncodes: seq<byte> -> bool,
    uploadResponse: nat -> Response)

  /** The requests a run sends, in order, and how it ends: the created
      release's URL, or the first failure. */
  datatype Run = Run(requests: seq<Request>, outcome: Result<string, Error>)

  datatype Uploaded = Uploaded(requests: seq<Request>, failure: Option<Error>)

  // ---------------------------------------------------------------------------
  // The upload loop

  /** The upload request for asset `i` is sent: its file reads and its body encodes. */
  predicate Sent(w: World, assets: seq<string>, i: int)
    requires 0 <= i < |assets|
  {
    w.files.read(assets[i]).Some? && w.formEncodes(w.files.read(assets[i]).value)
  }

  /** Asset `i` is sent and accepted with a 2xx status. */
  predicate Delivered(w: World, assets: seq<string>, i: int)
    requires 0 <= i < |assets|
  {
    Sent(w, assets, i) && IsSuccess(w.uploadResponse(i))
  }

  /** Asset `k` is the first one not delivered, or `k` is the list length. */
  predicate FirstUndelivered(w: World, assets: seq<string>, k: int) {
    && 0 <= k <= |assets|
    && (forall j :: 0 <= j < k ==> Delivered(w, assets, j))
    && (k < |assets| ==> !Delivered(w, assets, k))
  }

  /** The failure reported for an asset that is not delivered. */
  function UploadFailure(w: World, assets: seq<string>, i: int): (e: Error)
    requires 0 <= i < |assets|
  {
    var path := assets[i];
    if w.files.read(path).None? then AssetUnreadable(path)
    else if !w.formEncodes(w.files.read(path).value) then FormEncodingFailed(path)
    else UploadRejected(path, w.uploadResponse(i))
  }

  /** The loop body for assets `i..`: read, encode, send, check the status. */
  function UploadFrom(w: World, url: string, auth: Auth, assets: seq<string>, i: nat): (u: Uploaded)
    requires i <= |assets|
    ensures |u.requests| <= |assets| - i
    ensures forall j :: 0 <= j < |u.requests| ==> u.requests[j] == UploadAsset(url, auth, assets[i + j])
    ensures u.failure.None? ==> |u.requests| == |assets| - i
    decreases |assets| - i
  {
    if i == |assets| then Uploaded([], None)
    else
      var path := assets[i];
      match w.files.read(path)
      case None => Uploaded([], Some(AssetUnreadable(path)))
      case Some(bytes) =>
        if !w.formEncodes(bytes) then Uploaded([], Some(FormEncodingFailed(path)))
        else
          var request := UploadAsset(url, auth, path);
          var response := w.uploadResponse(i);
          if !IsSuccess(response) then Uploaded([request], Some(UploadRejected(path, response)))
          else
            var rest := UploadFrom(w, url, auth, assets, i + 1);
            Uploaded([request] + rest.requests, rest.failure)
  }

  lemma {:induction false} UploadFromSpec(w: World, url: string, auth: Auth, assets: seq<string>, i: nat, k: nat)
    requires i <= k && FirstUndelivered(w, assets, k)
    ensures var u := UploadFrom(w, url, auth, assets, i);
      && |u.requests| == k - i + (if k < |assets| && Sent(w, assets, k) then 1 else 0)
      && (forall j :: 0 <= j < |u.requests| ==> u.requests[j] == UploadAsset(url, auth, assets[i + j]))
      && (k == |assets| ==> u.failure.None?)
      && (k < |assets| ==> u.failure == Some(UploadFailure(w, assets, k)))
    decreases |assets| - i
  {
    if i < k {
      assert Delivered(w, assets, i);
      UploadFromSpec(w, url, auth, assets, i + 1, k);
      var rest := UploadFrom(w, url, auth, assets, i + 1);
      var u := UploadFrom(w, url, auth, assets, i);
      assert u.requests == [UploadAsset(url, auth, assets[i])] + rest.requests;
      forall j | 0 <= j < |u.requests|
        ensures u.requests[j] == UploadAsset(url, auth, assets[i + j])
      {
        if j > 0 { assert u.requests[j] == rest.requests[j - 1]; }
      }
    }
  }

  /** Linear search for the first asset that is not delivered. */
  function FirstUndeliveredFrom(w: World, assets: seq<string>, i: nat): (k: nat)
    requires i <= |assets|
    requires forall j :: 0 <= j < i ==> Delivered(w, assets, j)
    ensures i <= k && FirstUndelivered(w, assets, k)
    decreases |assets| - i
  {
    if i == |assets| || !Delivered(w, assets, i) then i
    else FirstUndeliveredFrom(w, assets, i + 1)
  }

  /** The upload loop of `main`. Requests go to `url` for a prefix of the
      asset list, in order; every asset before the last one sent was
      delivered; the loop ends after asset `k`, the first not delivered
      (after sending it if it was sent), or after the whole list. */
  function UploadAll(w: World, url: string, auth: Auth, assets: seq<string>): (u: Uploaded)
    ensures |u.requests| <= |assets|
    ensures forall j :: 0 <= j < |u.requests| ==> u.requests[j] == UploadAsset(url, auth, assets[j])
    ensures forall j :: 0 <= j < |u.requests| - 1 ==> Delivered(w, assets, j)
    ensures u.failure.None? <==> forall j :: 0 <= j < |assets| ==> Delivered(w, assets, j)
    ensures u.failure.None? ==> |u.requests| == |assets|
    ensures forall k :: FirstUndelivered(w, assets, k) ==>
      && |u.requests| == k + (if k < |assets| && Sent(w, assets, k) then 1 else 0)
      && (k < |assets| ==> u.failure == Some(UploadFailure(w, assets, k)))
  {
    var k := FirstUndeliveredFrom(w, assets, 0);
    UploadFromSpec(w, url, auth, assets, 0, k);
    assert forall k' :: FirstUndelivered(w, assets, k') ==> k' == k;
    UploadFrom(w, url, auth, assets, 0)
  }

  /** Three assets whose second upload is refused: exactly two uploads are
      sent and the run names the second file. */
  lemma SecondOfThreeRejected(w: World, url: string, auth: Auth, a: string, b: string, c: string)
    requires Delivered(w, [a, b, c], 0)
    requires Sent(w, [a, b, c], 1) && !IsSuccess(w.uploadResponse(1))
    ensures UploadAll(w, url, auth, [a, b, c]).requests == [UploadAsset(url, auth, a), UploadAsset(url, auth, b)]
    ensures UploadAll(w, url, auth, [a, b, c]).failure == Some(UploadRejected(b, w.uploadResponse(1)))
  {
    assert FirstUndelivered(w, [a, b, c], 1);
  }

  // ---------------------------------------------------------------------------
  // The whole run

  /** The files named by PLUGIN_ASSETS, split on commas and expanded: the
      list exists exactly when every comma-separated pattern expands cleanly,
      and it is then the regular files of each pattern in pattern order and
      match order; otherwise the error is that of the first failing pattern. */
  function AssetsOf(w: World, globs: string): (r: Result<seq<string>, Error>)
    ensures r.Success? <==> AllClean(Split(globs, ','), w.glob)
    ensures r.Success? ==> r.value == Expected(Split(globs, ','), w.glob, w.isFile)
    ensures r.Success? ==> forall k :: 0 <= k < |r.value| ==> w.isFile(r.value[k])
    ensures r.Failure? ==> var patterns := Split(globs, ',');
      exists i :: FirstUnclean(patterns, w.glob, i) && r.error == GlobFailure(patterns[i], w.glob(patterns[i]))
  {
    CollectAssets(Split(globs, ','), w.glob, w.isFile)
  }

  /** The steps of `main` once PLUGIN_ASSETS was read as `globs`: the glob
      expansion and then the upload loop to the release's asset URL. */
  function Expanded(w: World, create: Request, release: ReleaseCreated, globs: string): (r: Run)
    ensures |r.requests| >= 1 && r.requests[0] == create
    ensures var url := AssetsUrl(create.url, release.id);
      forall j :: 1 <= j < |r.requests| ==>
        && r.requests[j].UploadAsset?
        && r.requests[j].url == url
        && r.requests[j].auth == create.auth
    ensures r.outcome.Success? ==> r.outcome.value == release.url
    ensures AssetsOf(w, globs).Failure? ==> r == Run([create], Failure(AssetsOf(w, globs).error))
    ensures var expanded := AssetsOf(w, globs);
      expanded.Success? ==>
        var u := UploadAll(w, AssetsUrl(create.url, release.id), create.auth, expanded.value);
        r == Run([create] + u.requests, if u.failure.Some? then Failure(u.failure.value) else Success(release.url))
  {
    match AssetsOf(w, globs)
    case Failure(e) => Run([create], Failure(e))
    case Success(assets) => Uploading(w, create, release, assets)
  }

  /** The create request followed by the upload loop over `assets`, which
      decides the outcome. */
  function Uploading(w: World, create: Request, release: ReleaseCreated, assets: seq<string>): (r: Run)
    ensures |r.requests| >= 1 && r.requests[0] == create
    ensures var url := AssetsUrl(create.url, release.id);
      forall j :: 1 <= j < |r.requests| ==>
        && r.requests[j].UploadAsset?
        && r.requests[j].url == url
        && r.requests[j].auth == create.auth
    ensures r.outcome.Success? ==> r.outcome.value == release.url
    ensures var u := UploadAll(w, AssetsUrl(create.url, release.id), create.auth, assets);
      && r.requests == [create] + u.requests
      && (r.outcome.Success? <==> u.failure.None?)
      && (u.failure.Some? ==> r.outcome == Failure(u.failure.value))
  {
    var u := UploadAll(w, AssetsUrl(create.url, release.id), create.auth, assets);
    var r := Run([create] + u.requests, if u.failure.Some? then Failure(u.failure.value) else Success(release.url));
    assert r.requests[1..] == u.requests;
    r
  }

  /** The steps of `main` after the release was created and its response
      parsed: the PLUGIN_ASSETS lookup, the glob expansion and the upload loop. */
  function AfterCreation(w: World, create: Request, release: ReleaseCreated): (r: Run)
    ensures |r.requests| >= 1 && r.requests[0] == create
    ensures forall j :: 1 <= j < |r.requests| ==>
      && r.requests[j].UploadAsset?
      && r.requests[j].url == AssetsUrl(create.url, release.id)
      && r.requests[j].auth == create.auth
    ensures r.outcome.Success? ==> r.outcome.value == release.url
    ensures AssetsVar !in w.env ==> r == Run([create], Success(release.url))
    ensures AssetsVar in w.env && w.env[AssetsVar].NotUnicode? ==>
      r == Run([create], Failure(VarNotUnicode(AssetsVar)))
    ensures HasText(w.env, AssetsVar) && AssetsOf(w, w.env[AssetsVar].text).Failure? ==>
      r == Run([create], Failure(AssetsOf(w, w.env[AssetsVar].text).error))
    ensures HasText(w.env, AssetsVar) && AssetsOf(w, w.env[AssetsVar].text).Success? ==>
      var assets := AssetsOf(w, w.env[AssetsVar].text).value;
      var u := UploadAll(w, AssetsUrl(create.url, release.id), create.auth, assets);
      r == Run([create] + u.requests, if u.failure.Some? then Failure(u.failure.value) else Success(release.url))
  {
    match OptionalVar(w.env, AssetsVar)
    case Failure(e) => Run([create], Failure(e))
    case Success(None) => Run([create], Success(release.url))
    case Success(Some(globs)) => Expanded(w, create, release, globs)
  }

  /** The create request a resolved configuration leads to. */
  function CreateRequest(w: World, cfg: Configuration): (q: Request) {
    CreateRelease(ReleasesUrl(cfg.baseUrl, cfg.ownerAndRepo), Auth(UserAgent(w.version), cfg.apiKey), PayloadOf(cfg))
  }

  /** `main` from the create request on, for a resolved configuration. */
  function Created(w: World, cfg: Configuration): (r: Run)
    ensures |r.requests| >= 1
    ensures r.requests[0] == CreateRelease(
      ReleasesUrl(cfg.baseUrl, cfg.ownerAndRepo), Auth(UserAgent(w.version), cfg.apiKey), PayloadOf(cfg))
    ensures forall j :: 1 <= j < |r.requests| ==>
      && r.requests[j].UploadAsset?
      && w.createdBody.Some?
      && r.requests[j].url == AssetsUrl(r.requests[0].url, w.createdBody.value.id)
      && r.requests[j].auth == r.requests[0].auth
    ensures !IsSuccess(w.createResponse) ==> r == Run([r.requests[0]], Failure(CreationRejected(w.createResponse)))
    ensures r.outcome.Success? ==>
      IsSuccess(w.createResponse) && w.createdBody.Some? && r.outcome.value == w.createdBody.value.url
    ensures IsSuccess(w.createResponse) && w.createdBody.Some? ==>
      && (AssetsVar !in w.env ==> r == Run([r.requests[0]], Success(w.createdBody.value.url)))
      && (AssetsVar in w.env && w.env[AssetsVar].NotUnicode? ==>
            r == Run([r.requests[0]], Failure(VarNotUnicode(AssetsVar))))
  {
    var create := CreateRequest(w, cfg);
    if !IsSuccess(w.createResponse) then Run([create], Failure(CreationRejected(w.createResponse)))
    else match w.createdBody
      case None => Run([create], Failure(CreationResponseUnparsable))
      case Some(release) => AfterCreation(w, create, release)
  }

  /** `main`: no request at all when the configuration fails, otherwise the
      create request first and only uploads after it, all with the same
      credentials. */
  function Publish(w: World): (r: Run)
    ensures r.requests == [] <==> ResolveConfig(w.env, w.files).Failure?
    ensures ResolveConfig(w.env, w.files).Failure? ==> r.outcome == Failure(ResolveConfig(w.env, w.files).error)
    ensures ResolveConfig(w.env, w.files).Success? ==> r == Created(w, ResolveConfig(w.env, w.files).value)
    ensures forall j :: 0 <= j < |r.requests| ==>
      r.requests[j].auth == Auth(UserAgent(w.version), w.env[ApiKeyVar].text)
  {
    match ResolveConfig(w.env, w.files)
    case Failure(e) => Run([], Failure(e))
    case Success(cfg) =>
      ResolvedApiKey(w.env, w.files);
      Created(w, cfg)
  }

  /** With assets requested and expanded, a run is the create request
      followed by the upload loop over the expanded list. */
  lemma PublishWithAssets(w: World, assets: seq<string>)
    requires ResolveConfig(w.env, w.files).Success?
    requires IsSuccess(w.createResponse) && w.createdBody.Some?
    requires HasText(w.env, AssetsVar)
    requires AssetsOf(w, w.env[AssetsVar].text) == Success(assets)
    ensures var create := CreateRequest(w, ResolveConfig(w.env, w.files).value);
      var u := UploadAll(w, AssetsUrl(create.url, w.createdBody.value.id), create.auth, assets);
      Publish(w) == Run([create] + u.requests,
        if u.failure.Some? then Failure(u.failure.value) else Success(w.createdBody.value.url))
  {
    var cfg := ResolveConfig(w.env, w.files).value;
    assert Publish(w) == Created(w, cfg) == AfterCreation(w, CreateRequest(w, cfg), w.createdBody.value);
  }

  /** With assets requested and expanded, a run sends the create request and
      then uploads the asset list in order up to the first asset not
      delivered, and succeeds exactly when every asset is delivered. */
  lemma PublishUploadsFailFast(w: World, assets: seq<string>)
    requires ResolveConfig(w.env, w.files).Success?
    requires IsSuccess(w.createResponse) && w.createdBody.Some?
    requires HasText(w.env, AssetsVar)
    requires AssetsOf(w, w.env[AssetsVar].text) == Success(assets)
    ensures forall j :: 1 <= j < |Publish(w).requests| ==> Publish(w).requests[j].name == assets[j - 1]
    ensures Publish(w).outcome.Success? <==> forall j :: 0 <= j < |assets| ==> Delivered(w, assets, j)
    ensures forall k :: FirstUndelivered(w, assets, k) ==>
      && |Publish(w).requests| == 1 + k + (if k < |assets| && Sent(w, assets, k) then 1 else 0)
      && (k < |assets| ==> Publish(w).outcome == Failure(UploadFailure(w, assets, k)))
  {
    PublishWithAssets(w, assets);
    var create := CreateRequest(w, ResolveConfig(w.env, w.files).value);
    UploadRunFailsFast(w, assets, create, AssetsUrl(create.url, w.createdBody.value.id), w.createdBody.value.url, Publish(w));
  }

  /** A run made of one request followed by the upload loop names the assets
      in order and stops at the first asset not delivered. */
  lemma UploadRunFailsFast(w: World, assets: seq<string>, create: Request, url: string, page: string, r: Run)
    requires var u := UploadAll(w, url, create.auth, assets);
      r == Run([create] + u.requests, if u.failure.Some? then Failure(u.failure.value) else Success(page))
    ensures forall j :: 1 <= j < |r.requests| ==> r.requests[j].name == assets[j - 1]
    ensures r.outcome.Success? <==> forall j :: 0 <= j < |assets| ==> Delivered(w, assets, j)
    ensures forall k :: FirstUndelivered(w, assets, k) ==>
      && |r.requests| == 1 + k + (if k < |assets| && Sent(w, assets, k) then 1 else 0)
      && (k < |assets| ==> r.outcome == Failure(UploadFailure(w, assets, k)))
  {
    var u := UploadAll(w, url, create.auth, assets);
    forall j | 1 <= j < |r.requests| ensures r.requests[j].name == assets[j - 1] {
      assert r.requests[j] == u.requests[j - 1];
    }
  }

  /** A pattern that does not compile, or a match that cannot be read, ends
      the run after the create request and before any upload. */
  lemma FailedExpansionUploadsNothing(w: World)
    requires ResolveConfig(w.env, w.files).Success?
    requires IsSuccess(w.createResponse) && w.createdBody.Some?
    requires HasText(w.env, AssetsVar)
    requires AssetsOf(w, w.env[AssetsVar].text).Failure?
    ensures |Publish(w).requests| == 1 && Publish(w).requests[0].CreateRelease?
    ensures Publish(w).outcome == Failure(AssetsOf(w, w.env[AssetsVar].text).error)
    ensures exists i :: FirstUnclean(Split(w.env[AssetsVar].text, ','), w.glob, i)
  {
    var cfg := ResolveConfig(w.env, w.files).value;
    assert Publish(w) == Created(w, cfg) == AfterCreation(w, CreateRequest(w, cfg), w.createdBody.value);
  }

  /** A failed create call means no upload at all. */
  lemma RejectedCreationUploadsNothing(w: World)
    requires ResolveConfig(w.env, w.files).Success?
    requires !IsSuccess(w.createResponse)
    ensures Publish(w).requests == [Publish(w).requests[0]]
    ensures Publish(w).requests[0].CreateRelease?
    ensures Publish(w).outcome == Failure(CreationRejected(w.createResponse))
  {
  }
}
