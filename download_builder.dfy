/**
 * The older "Download Packages" build step (`DownloadPackagesBuilder`): read
 * the requested identities from its text field, build the client
 * configuration, hand both to the download callable in the chosen local
 * directory, and fold the callable's result into the build's.
 */
module DownloadBuilder {
  import opened JavaLang
  import opened PackIds
  import opened BuildResults
  import opened Configuration
  import opened BuilderText
  import DeployBuilder

  /** The builder's settings; a build only reads them. */
  datatype LegacyDownloadPackagesBuilder = LegacyDownloadPackagesBuilder(
    packageIds: Option<string>,
    baseUrl: Option<string>,
    username: Option<string>,
    password: Option<string>,
    signatureLogin: bool,
    localDirectory: Option<string>,
    ignoreErrors: bool,
    requestTimeout: i64,
    serviceTimeout: i64)

  /** What the download callable is given: its client config, the identities, the error mode and the directory it runs in. */
  datatype DownloadRequest = DownloadRequest(
    config: LegacyClientConfig,
    packIds: seq<PackId>,
    ignoreErrors: bool,
    directory: string)

  /**
   * `getLocalDirectory`: "." when unset or blank, the stored value as it is
   * otherwise (the newer deployment builder trims it instead).
   */
  function LegacyLocalDirectoryOf(localDirectory: Option<string>): (r: string)
    ensures !IsBlank(r)
    ensures localDirectory.None? || IsBlank(localDirectory.value) ==> r == "."
    ensures localDirectory.Some? && !IsBlank(localDirectory.value) ==> r == localDirectory.value
  {
    TrimOfTrimmed(".");
    if localDirectory.None? || IsBlank(localDirectory.value) then "." else localDirectory.value
  }

  /** The two versions pick the same directory up to the surrounding whitespace the older one keeps. */
  lemma LocalDirectoriesAgreeUpToTrim(localDirectory: Option<string>)
    ensures Trim(LegacyLocalDirectoryOf(localDirectory)) == DeployBuilder.LocalDirectoryOf(localDirectory)
  {
    TrimOfTrimmed(".");
  }

  /** `listPackIds`: the identities the lines of the trimmed `packageIds` text parse to, in line order. */
  method ListPackIds(b: LegacyDownloadPackagesBuilder, parsePid: string -> Option<PackId>) returns (ids: seq<PackId>)
    ensures ids == ParsedIds(SplitLines(TextOf(b.packageIds)), parsePid)
  {
    var text := TextOf(b.packageIds);
    ids := ListParsed(SplitLines(text), parsePid);
  }

  /** The client config of `perform`: the trimmed base URL, the credentials as stored, both timeouts normalised. */
  function ConfigOf(b: LegacyDownloadPackagesBuilder): LegacyClientConfig {
    LegacyGetClientConfig(Some(TextOf(b.baseUrl)), b.username, b.password, b.signatureLogin,
                          b.requestTimeout, b.serviceTimeout)
  }

  function RequestOf(b: LegacyDownloadPackagesBuilder, parsePid: string -> Option<PackId>): DownloadRequest {
    DownloadRequest(ConfigOf(b), ParsedIds(SplitLines(TextOf(b.packageIds)), parsePid), b.ignoreErrors,
                    LegacyLocalDirectoryOf(b.localDirectory))
  }

  /**
   * What the callable receives: a base URL without surrounding whitespace,
   * timeouts that are positive or -1, a directory that is not blank, and
   * exactly the identities some requested line parses to.
   */
  lemma RequestIsNormalised(b: LegacyDownloadPackagesBuilder, parsePid: string -> Option<PackId>, id: PackId)
    ensures var q := RequestOf(b, parsePid);
      q.config.baseUrl.Some? && Trim(q.config.baseUrl.value) == q.config.baseUrl.value &&
      (q.config.requestTimeout > 0 || q.config.requestTimeout == -1) &&
      (q.config.serviceTimeout > 0 || q.config.serviceTimeout == -1) &&
      !IsBlank(q.directory) && q.ignoreErrors == b.ignoreErrors &&
      (id in q.packIds <==> exists l :: l in SplitLines(TextOf(b.packageIds)) && parsePid(l) == Some(id))
  {
    if b.baseUrl.Some? {
      TrimIdempotent(b.baseUrl.value);
    }
    ParsedIdsMembers(SplitLines(TextOf(b.packageIds)), parsePid, id);
  }

  /**
   * `perform`: a build without a result counts as SUCCESS; the callable's
   * result is combined into it, and the step succeeds iff the combination is
   * no worse than UNSTABLE, that is iff neither the build nor the download
   * had failed. The combined result is not stored on the build.
   */
  method Perform(b: LegacyDownloadPackagesBuilder, prior: Option<BuildResult>, parsePid: string -> Option<PackId>,
                 download: DownloadRequest -> BuildResult)
    returns (ok: bool, result: BuildResult)
    ensures result == Combine(StartOf(prior), download(RequestOf(b, parsePid)))
    ensures ok <==> prior != Some(FAILURE) && download(RequestOf(b, parsePid)) != FAILURE
  {
    result := StartOf(prior);
    var config := LegacyGetClientConfig(Some(TextOf(b.baseUrl)), b.username, b.password, b.signatureLogin,
                                        b.requestTimeout, b.serviceTimeout);
    var ids := ListPackIds(b, parsePid);
    var directory := LegacyLocalDirectoryOf(b.localDirectory);
    result := Combine(result, download(DownloadRequest(config, ids, b.ignoreErrors, directory)));
    ok := IsBetterOrEqualTo(result, UNSTABLE);
  }
}
