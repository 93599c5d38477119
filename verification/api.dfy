/** The forge's release API as the workflow sees it: endpoint URLs, request
    and response shapes, and the success rule for a response. */
module Api {

  import opened Wrappers
  import opened Text
  import opened Decimal

  type u64 = n: nat | n < 0x1_0000_0000_0000_0000

  /** The outcome of sending one HTTP request: a status code, or a transport
      failure (the `send()` call itself returning an error). */
  datatype Response = Received(status: int) | SendFailed

  /** attohttpc's `is_success`: a status in 200..=299, that is, a status
      whose hundreds digit is 2; a request that was never answered is not a success. */
  predicate IsSuccess(r: Response)
    ensures IsSuccess(r) <==> r.Received? && r.status / 100 == 2
  {
    r.Received? && 200 <= r.status <= 299
  }

  /** The headers every request carries: a user agent and a bearer token. */
  datatype Auth = Auth(userAgent: string, bearer: string)

  /** The JSON object sent to create a release; `None` fields serialise as `null`. */
  datatype Payload = Payload(
    tagName: string,
    name: Option<string>,
    body: Option<string>,
    prerelease: Option<bool>,
    draft: Option<bool>)

  datatype Request =
    | CreateRelease(url: string, auth: Auth, payload: Payload)
    | UploadAsset(url: string, auth: Auth, name: string)

  /** The fields read from a successful creation response. */
  datatype ReleaseCreated = ReleaseCreated(id: u64, url: string)

  const ProductName := "drone-plugin-gitea/"

  /** The `User-Agent` of every request: the product name, then the crate version. */
  function UserAgent(version: string): (ua: string)
    ensures |ua| == |ProductName| + |version|
    ensures ua[..|ProductName|] == ProductName && ua[|ProductName|..] == version
  {
    ProductName + version
  }

  function ReleasesPath(ownerAndRepo: string): string {
    "/api/v1/repos/" + ownerAndRepo + "/releases"
  }

  const AssetsSuffix := "/assets"

  /** The releases collection of a repository: the base URL without its
      trailing slashes, followed by the API path of the repository. */
  function ReleasesUrl(base: string, ownerAndRepo: string): (url: string)
    ensures EndsWith(url, ReleasesPath(ownerAndRepo))
    ensures var origin := url[..|url| - |ReleasesPath(ownerAndRepo)|];
      && |origin| <= |base|
      && origin == base[..|origin|]
      && All(base[|origin|..], IsSlash)
      && (origin == [] || origin[|origin| - 1] != '/')
  {
    var origin := TrimEndWhile(base, IsSlash);
    var url := origin + ReleasesPath(ownerAndRepo);
    assert url[..|url| - |ReleasesPath(ownerAndRepo)|] == origin;
    assert url[|url| - |ReleasesPath(ownerAndRepo)|..] == ReleasesPath(ownerAndRepo);
    url
  }

  /** Extra trailing slashes on the base URL do not change the endpoint. */
  lemma ReleasesUrlIgnoresTrailingSlashes(base: string, slashes: string, ownerAndRepo: string)
    requires All(slashes, IsSlash)
    ensures ReleasesUrl(base + slashes, ownerAndRepo) == ReleasesUrl(base, ownerAndRepo)
  {
    var origin := TrimEndWhile(base, IsSlash);
    var tail := base[|origin|..] + slashes;
    assert base + slashes == origin + tail;
    TrimEndUnique(origin, tail, IsSlash);
  }

  /** The asset collection of release `id`: the releases URL, a slash, the id
      in decimal, and `/assets`. */
  function AssetsUrl(releasesUrl: string, id: u64): (url: string)
    ensures |releasesUrl| + 1 < |url| - |AssetsSuffix|
    ensures url[..|releasesUrl| + 1] == releasesUrl + "/"
    ensures EndsWith(url, AssetsSuffix)
    ensures var idText := url[|releasesUrl| + 1..|url| - |AssetsSuffix|];
      Canonical(idText) && ValueOf(idText) == id
  {
    var idText := ToDecimal(id);
    var url := releasesUrl + "/" + idText + AssetsSuffix;
    assert url[..|releasesUrl| + 1] == releasesUrl + "/";
    assert url[|releasesUrl| + 1..|url| - |AssetsSuffix|] == idText;
    assert url[|url| - |AssetsSuffix|..] == AssetsSuffix;
    ValueOfToDecimal(id);
    url
  }

  /** Different releases of one repository have different asset URLs. */
  lemma AssetsUrlInjective(releasesUrl: string, a: u64, b: u64)
    requires AssetsUrl(releasesUrl, a) == AssetsUrl(releasesUrl, b)
    ensures a == b
  {
  }
}
