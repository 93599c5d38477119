# Gitea release step, modelled in Dafny

This project models the core of a CI step written in Rust. The step creates a
release on a Gitea forge and attaches build artifacts to it. The whole program
is `main` in `src/main.rs`. It reads its settings from environment variables
and sends one `POST .../releases` request. If `PLUGIN_ASSETS` is set, it
expands the comma-separated glob patterns and uploads each matching regular
file with `POST .../releases/{id}/assets`. It panics on the first error.

The model is functional. A `Pipeline.World` value holds everything the program
learns from outside:

- the environment, as a map from name to a Unicode or non-Unicode value;
- file reads and UTF-8 decoding;
- glob expansion and the `is_file` test;
- whether an upload body can be form-encoded;
- the forge's response to each request.

`Pipeline.Publish` maps a world to a `Run`: the requests sent, in order, and
the outcome. The outcome is the created release's URL or the first error.
Every panic the program can reach maps to a constructor of `Errors.Error` that records the failing step and the value it names. Some constructors serve several sites. `RequiredVarMissing(name)` covers the three required lookups (src/main.rs:51, 52, 55). `CreationRejected` covers both a failed `send()` (line 101) and a non-2xx status (line 104). `UploadRejected` likewise covers lines 142 and 145. The `.json(..).expect` at line 99 has no constructor, because serialising that payload cannot fail (see "Left out").

Modules, leaf first:

- `Wrappers`: `Option` and `Result` with `:-` support.
- `Text`: `trim`, `trim_end_matches`, `strip_suffix` and `split`, each with an independent characterisation. `join` is the helper inverse that characterises `split`.
- `Decimal`: decimal rendering of `u64`, with its inverse.
- `Api`: request and response shapes, the 2xx rule, and the releases and assets URLs.
- `Errors`: the failure taxonomy.
- `Host`: environment lookups (`env::var`, `optional_env_var`) and whole-file text reads.
- `Config`: derivation of the configuration in the program's order.
- `Assets`: the glob-expansion loop and its reference definition.
- `Pipeline`: the upload fold and the whole run.
- `Scenarios`: concrete example runs, derived from the general lemmas.

Some behaviours of the program worth stating plainly:

- Asset paths are not deduplicated. A file matched by two patterns is uploaded twice.
- Assets are expanded whenever `PLUGIN_ASSETS` is set, even to the empty string. The empty string is one empty pattern.
- The creation response must contain both `id` and `url`. `url` is not optional.
- Trailing slashes are removed from the base URL only when the releases URL is built, not when the base URL is derived. The resulting URLs are the same.
- `PLUGIN_ASSETS` is read after the create request. A non-Unicode value therefore fails the run after one request.

## Model

| member | source | states |
|---|---|---|
| Host.RequiredVar | src/main.rs:51-55 | a required variable yields its text exactly when it is set and Unicode; otherwise the run fails naming that variable |
| Host.OptionalVar | src/main.rs:23-34 | an unset variable is `None`, a Unicode value is `Some(text)`, and a non-Unicode value is an error naming the variable |
| Host.FileText | src/main.rs:44-47 | a file's text is available exactly when both the read and the UTF-8 decoding succeed; a read failure and a decoding failure are distinct errors naming the path |
| Config.ParseBool | src/main.rs:81-84 | only "true" gives true and only "false" gives false; every other string is rejected |
| Config.ParseBoolLiteral | src/main.rs:81-84 | a string parses to `b` if and only if it is the literal spelling of `b` |
| Config.BoolSetting | src/main.rs:81-84 | PLUGIN_DRAFT / PLUGIN_PRERELEASE: unset gives None, "true" and "false" give Some, any other text is a configuration error |
| Config.ResolveBaseUrl | src/main.rs:57-66 | an explicit PLUGIN_BASE_URL is used unchanged, even when empty; otherwise the base is DRONE_REPO_LINK minus exactly the `owner/repo` suffix, and the run fails when the link is missing or lacks that suffix |
| Config.DerivedBaseUrl | src/main.rs:57-66 | a repository link of the form `origin + owner/repo` yields exactly `origin` as the base URL |
| Config.TextSetting | src/main.rs:73-78 | PLUGIN_NAME / PLUGIN_BODY is absent exactly when unset; when present it is the named file's text with surrounding whitespace removed, which trimming again leaves unchanged; read and decode failures are propagated |
| Config.ResolveCoordinates | src/main.rs:51-66 | tag, repository, API key and base URL are consulted in that order, and the first missing one is the error reported |
| Config.ResolveSettings | src/main.rs:73-84 | name, body, draft and prerelease fail in that order; the settings exist exactly when all four lookups succeed, and they are then exactly those four values; each is absent exactly when its variable is unset; name and body come back trimmed; a flag is Some(b) only for the literal spelling of b |
| Config.PayloadOf | src/main.rs:86-92 | the create payload carries the tag, the trimmed name and body, and the prerelease and draft flags each in its own field, with no field swapped or dropped |
| Host.VarIfText | src/main.rs:59-60 | `env::var(..).ok()`: a variable yields its text exactly when it is set and Unicode, and otherwise nothing |
| Config.ResolveConfig | src/main.rs:51-84 | coordinate failures take precedence over setting failures, and a configuration exists exactly when both stages succeed |
| Config.ResolvedApiKey | src/main.rs:55 | a resolved configuration's API key is exactly the text of PLUGIN_API_KEY |
| Text.TrimEndWhile | src/main.rs:69-70 | the result is a prefix of the input, the removed suffix consists only of matching characters, and the result does not end in one |
| Text.TrimStartWhile | src/main.rs:75 | the result is a suffix of the input, the removed prefix consists only of matching characters, and the result does not start with one |
| Text.TrimEndUnique | src/main.rs:69-70 | trimming `core + tail`, where `tail` is all matching characters and `core` does not end in one, gives exactly `core` |
| Text.TrimStartUnique | src/main.rs:75 | trimming `lead + core`, where `lead` is all matching characters and `core` does not start with one, gives exactly `core` |
| Text.TrimEndIdempotent | src/main.rs:69-70 | trimming trailing slashes twice is the same as trimming once |
| Text.Trim | src/main.rs:75 | the result neither starts nor ends with whitespace and sits inside the input with only whitespace around it |
| Text.TrimUnique | src/main.rs:78 | a whitespace-free-edged core padded with whitespace on either side trims back to the core |
| Text.TrimIdempotent | src/main.rs:73-78 | trimming the release name or body again changes nothing |
| Text.StripSuffix | src/main.rs:62-63 | stripping succeeds exactly when the string ends with the suffix, and the remainder followed by the suffix is the string |
| Text.StripSuffixOfConcat | src/main.rs:62-63 | stripping a suffix that was appended returns the original prefix |
| Text.Split | src/main.rs:120 | splitting on `,` yields at least one piece, and no piece contains a comma |
| Text.JoinSplit | src/main.rs:120 | joining the pieces with `,` reproduces the input |
| Text.SplitCount | src/main.rs:120 | there is one more piece than there are commas, empty pieces included |
| Text.SplitJoin | src/main.rs:120 | splitting the join of comma-free pieces returns exactly those pieces |
| Decimal.ToDecimal | src/main.rs:115 | the id renders as a non-empty string of digits with no leading zero |
| Decimal.ValueOfToDecimal | src/main.rs:115 | reading the rendered digits back gives the id |
| Decimal.ToDecimalValueOf | src/main.rs:115 | every canonical numeral is the rendering of its value |
| Decimal.ToDecimalInjective | src/main.rs:115 | distinct ids render differently |
| Api.IsSuccess | src/main.rs:103 | a response counts as a success exactly when it was received with a status whose hundreds digit is 2; a failed send never does |
| Api.UserAgent | src/main.rs:37 | the user agent is `drone-plugin-gitea/` followed by exactly the crate version |
| Api.ReleasesUrl | src/main.rs:69-70 | the URL ends with `/api/v1/repos/{owner/repo}/releases`; what precedes it is the base URL minus its trailing slashes and never ends in `/` |
| Api.ReleasesUrlIgnoresTrailingSlashes | src/main.rs:69-70 | appending slashes to the base URL does not change the releases URL |
| Api.AssetsUrl | src/main.rs:115 | the URL is the releases URL, `/`, a canonical decimal numeral whose value is the release id, then `/assets` |
| Api.AssetsUrlInjective | src/main.rs:115 | two releases of one repository never share an asset URL |
| Assets.FilesOf | src/main.rs:122-127 | every path kept from a pattern's matches is a regular file |
| Assets.Expected | src/main.rs:120-128 | every path of the reference asset list is a regular file |
| Assets.ExpectedAppend | src/main.rs:120-128 | expanding `p + q` is expanding `p` followed by expanding `q`, so nothing is dropped across patterns |
| Assets.RepeatedPatternRepeatsFiles | src/main.rs:120-128 | a pattern listed twice contributes its files twice, with no deduplication |
| Assets.PushMatches | src/main.rs:122-127 | when the inner loop completes, the list it started from is kept as a prefix and everything it pushed is a regular file |
| Assets.CollectFrom | src/main.rs:120-128 | when the outer loop completes, the list it started from is kept as a prefix and everything it pushed is a regular file |
| Assets.PushMatchesSpec | src/main.rs:122-127 | the inner loop appends the pattern's regular files in match order, or aborts when any entry is unreadable |
| Assets.CollectFromSpec | src/main.rs:120-128 | the nested loop yields the reference list when every pattern is clean, and otherwise the failure of the first pattern that is not |
| Assets.CollectAssets | src/main.rs:120-128 | the asset list exists exactly when every pattern compiles and every match is readable; it then equals the per-pattern regular files in pattern order and match order; otherwise the error names the first failing pattern |
| Pipeline.UploadFrom | src/main.rs:130-152 | from position i, the upload requests name the assets i, i+1, … in list order, one request each at most, all to one URL with one set of credentials; when no upload fails every remaining asset is sent |
| Pipeline.UploadFromSpec | src/main.rs:130-152 | from position i, the loop sends uploads for assets i up to the first undelivered one, sending that one too when its file reads and encodes |
| Pipeline.UploadAll | src/main.rs:130-152 | uploads go in list order to one URL with one set of credentials; every asset before the last one sent was accepted; the loop succeeds exactly when every status is 2xx; the request count is the first failing index (plus one when that upload was sent) or the full list length |
| Pipeline.SecondOfThreeRejected | src/main.rs:130-152 | with three assets and the second upload refused, exactly two uploads are sent and the failure names the second file |
| Pipeline.AssetsOf | src/main.rs:114-128 | PLUGIN_ASSETS yields an asset list exactly when every comma-separated pattern expands cleanly. The list is then the reference expansion of the comma-separated pieces: the regular files of each pattern, in pattern order and then match order, all regular files. Otherwise the error is that of the first pattern that fails to compile or has an unreadable match |
| Pipeline.Expanded | src/main.rs:115-153 | a failed expansion ends the run after the create request with that failure; otherwise the create request is followed by the upload loop over the expanded list to the release's asset URL, and the run fails with the loop's failure or reports the release URL |
| Pipeline.Uploading | src/main.rs:130-153 | the create request is followed by exactly the upload loop's requests to the release's asset URL with the same credentials; the run succeeds, reporting the release URL, exactly when the loop does, and otherwise fails with the loop's failure |
| Pipeline.AfterCreation | src/main.rs:114-153 | after creation, an unset PLUGIN_ASSETS ends the run with success after one request, and a non-Unicode value ends it with failure after one request; a failed glob expansion ends it with that failure after one request; otherwise the create request is followed by exactly the upload loop's requests, and the outcome is the loop's failure or the release URL |
| Pipeline.Created | src/main.rs:86-112 | the first request is the create call to the releases URL with the configured payload and credentials; a non-2xx creation stops the run after that one request; success implies a 2xx creation and reports the parsed release URL |
| Pipeline.Publish | src/main.rs:36-101 | no request is sent when the configuration fails; every request carries the user agent `drone-plugin-gitea/{version}` and the API key as bearer token |
| Pipeline.PublishWithAssets | src/main.rs:114-153 | with assets requested and expanded, the run is the create request followed by the upload loop over the expanded list |
| Pipeline.PublishUploadsFailFast | src/main.rs:103-152 | with assets requested, the run sends 1 + (index of first failing upload, plus one if it was sent) requests, or 1 + the list length; uploads name the assets in list order; the run succeeds exactly when every upload succeeds |
| Pipeline.UploadRunFailsFast | src/main.rs:130-152 | a run made of the create request and the upload loop names the assets in list order, stops after the first undelivered asset with that asset's failure, and succeeds exactly when every asset is delivered |
| Pipeline.FailedExpansionUploadsNothing | src/main.rs:114-128 | when a pattern fails to compile or a match is unreadable, the run sends only the create request, fails with the expansion error, and some first pattern is the culprit |
| Pipeline.RejectedCreationUploadsNothing | src/main.rs:103-109 | a non-2xx creation means a single request and zero uploads |
| Scenarios.TrimmedReleaseName | src/main.rs:73-75 | PLUGIN_NAME naming a file that decodes to "  hello world  \n" yields the release name "hello world" |
| Scenarios.ExampleReleasesUrl | src/main.rs:69-70 | base `https://git.example.com` and repository `acme/widget` give `https://git.example.com/api/v1/repos/acme/widget/releases` |
| Scenarios.ExampleReleasesUrlWithSlash | src/main.rs:69-70 | the same base with a trailing slash gives the same releases URL |
| Scenarios.ExampleAssetsUrl | src/main.rs:115 | release 42 has the asset URL `.../releases/42/assets` |
| Scenarios.ExampleSplit | src/main.rs:120 | "dist/*.tar.gz,docs/*.pdf" splits into those two patterns |
| Scenarios.ExampleConfig | src/main.rs:51-84 | the example environment resolves to tag v1.2.0, repository acme/widget, the explicit base URL and no optional settings |
| Scenarios.ExampleAssets | src/main.rs:120-128 | one pattern matching two regular files expands to those two files in match order |
| Scenarios.NoAssetsRun | src/main.rs:49-112 | without assets, the example run sends exactly one create request to the releases URL and reports the created release's URL |
| Scenarios.TwoAssetsRun | src/main.rs:49-153 | with one pattern matching two files, the run sends the create request and then two uploads to `.../releases/42/assets`, and succeeds |

## Left out

- Reading the process environment: the environment is a map, and `VarError::NotUnicode` is a `NotUnicode` value.
- File reads, UTF-8 decoding, glob matching and `is_file` are oracles in `World`. Their own semantics are not modelled.
- HTTP transport: each request's answer is an oracle `Response`. A failed `send()` is `SendFailed`, which counts as a sent request that did not succeed.
- The `Accept` header, the bearer-token header encoding, and the extra `content-type` query parameter on the create request are not represented. `Request` keeps only the URL, the user agent, the token and the payload or asset name.
- The form encoding of an upload body is the oracle `formEncodes`. The uploaded bytes themselves are not part of `Request`.
- The `.json(..)` serialisation of the create payload is left out. Serialising a JSON value of strings, booleans and nulls cannot fail.
- The JSON decoding of the creation response is the oracle `createdBody`: either an `(id, url)` pair or a parse failure.
- `to_string_lossy` on asset paths: paths are strings throughout.
- Panic messages and `println!` output. Only the failing step and the value it names are kept.
- `VERSION`, the crate version compiled into the user agent, is a parameter (`World.version`).
- Glob expansion being repeatable on one file-system snapshot holds because `glob` is a function of the pattern. No lemma states it.
