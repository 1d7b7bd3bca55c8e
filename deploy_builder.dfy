/**
 * The "Deploy Content Packages" build step of both versions: for every base
 * URL, select the packages of the workspace and deploy each of them, folding
 * the outcomes into the build's result (newer) or into a Boolean (older).
 */
module DeployBuilder {
  import opened JavaLang
  import opened PackIds
  import opened BuildResults
  import opened Configuration
  import opened Packman
  import opened Deployment
  import opened AhcFactory
  import opened ClientExecutor
  import opened Callables
  import opened Selection
  import opened BuilderText

  // ---------------------------------------------------------------------------
  // The builders' settings and the world a build runs in
  // ---------------------------------------------------------------------------

  /** The newer builder's settings; a build only reads them. */
  datatype DeployPackagesBuilder = DeployPackagesBuilder(
    packageIdFilters: Option<string>,
    baseUrls: Option<string>,
    credentialsId: Option<string>,
    localDirectory: Option<string>,
    behavior: Option<string>,
    recursive: bool,
    autosave: i32,
    acHandling: Option<string>,
    disableForJobTesting: bool,
    requestTimeout: i64,
    serviceTimeout: i64)

  /** The older builder's settings. */
  datatype LegacyDeployPackagesBuilder = LegacyDeployPackagesBuilder(
    packageIdFilters: Option<string>,
    baseUrls: Option<string>,
    username: Option<string>,
    password: Option<string>,
    sshKeyLogin: bool,
    behavior: Option<string>,
    recursive: bool,
    autosave: i32,
    acHandling: Option<string>,
    disableForJobTesting: bool,
    requestTimeout: i64,
    serviceTimeout: i64)

  /**
   * What a build sees: the package files listed under each directory of the
   * workspace, the server behind each base URL, the credentials the
   * configured id resolves to, the login environment, and the order of
   * package identities. Each deployment meets its server as it was before
   * the build step: what earlier deployments of the step sent is not part of
   * the history the server answers from.
   */
  datatype Site = Site(
    workspace: string -> seq<Candidate>,
    servers: string -> Server,
    resolved: Option<Credentials>,
    env: Environment,
    keys: seq<SshUserPrivateKey>,
    less: (PackId, PackId) -> bool)

  /** One package deployed to one base URL, and its outcome. */
  datatype Deployed<R> = Deployed(baseUrl: string, id: PackId, outcome: R)

  /** `getLocalDirectory`: "." when unset or blank, the trimmed value otherwise. */
  function LocalDirectoryOf(localDirectory: Option<string>): (r: string)
    ensures !IsBlank(r)
    ensures localDirectory.None? || IsBlank(localDirectory.value) ==> r == "."
    ensures localDirectory.Some? && !IsBlank(localDirectory.value) ==> r == Trim(localDirectory.value)
  {
    TrimOfTrimmed(".");
    if localDirectory.None? || IsBlank(localDirectory.value) then "."
    else
      TrimIdempotent(localDirectory.value);
      Trim(localDirectory.value)
  }

  /** Normalising a directory that `getLocalDirectory` returned changes nothing. */
  lemma LocalDirectoryIdempotent(localDirectory: Option<string>)
    ensures LocalDirectoryOf(Some(LocalDirectoryOf(localDirectory))) == LocalDirectoryOf(localDirectory)
  {
    var r := LocalDirectoryOf(localDirectory);
    if r == "." {
      TrimOfTrimmed(".");
    } else {
      TrimIdempotent(localDirectory.value);
    }
  }

  function InstallOptionsOf(b: DeployPackagesBuilder): PackageInstallOptions {
    GetPackageInstallOptions(b.recursive, b.autosave, b.acHandling)
  }

  /** The config of the client for one base URL: `new GraniteClientConfig(baseUrl, credentialsId, …)`. */
  function ConfigFor(b: DeployPackagesBuilder, site: Site, baseUrl: string): GraniteClientConfig {
    NewClientConfig(Some(baseUrl), b.credentialsId, b.requestTimeout, b.serviceTimeout, site.resolved)
  }

  /**
   * The result of deploying one package to one base URL: SUCCESS when
   * deployment is disabled for testing, the result of the deployment
   * callable otherwise.
   */
  function DeployOutcome(b: DeployPackagesBuilder, site: Site, baseUrl: string, id: PackId): BuildResult {
    if b.disableForJobTesting then SUCCESS
    else
      var job := DeployJob(ExistingPackageBehaviorOf(b.behavior), InstallOptionsOf(b), id);
      DeployResult(ExecuteSpec(site.servers(baseUrl), job, ConfigFor(b, site, baseUrl), site.env).out)
  }

  /** The package files of the configured local directory, as `selectPackages` lists them. */
  function ListedFor(b: DeployPackagesBuilder, site: Site): seq<Candidate> {
    site.workspace(LocalDirectoryOf(b.localDirectory))
  }

  /** When `r` is an exception, `spec` is one too, with the same message. */
  predicate FailsLike<T, U>(r: Outcome<T>, spec: Outcome<U>) {
    r.Exc? ==> spec.Exc? && r.error == spec.error
  }

  /** Every filter line includes some identity found. */
  predicate AllMatched(found: map<PackId, Candidate>, filters: seq<FilterEntry>) {
    forall j :: 0 <= j < |filters| ==> MatchedBy(found.Keys, filters[j]) != {}
  }

  /** The identities a selection holds: those some line includes that are the highest of their family. */
  function Chosen(found: map<PackId, Candidate>, filters: seq<FilterEntry>, less: (PackId, PackId) -> bool): set<PackId> {
    set id | id in MatchedByAny(found.Keys, filters) && IsFamilyMax(id, found.Keys, less)
  }

  /** Every deployment went to one of the base URLs, deployed a chosen identity and had the outcome `outcomes` gives. */
  predicate Logged<R(==)>(ds: seq<Deployed<R>>, urls: seq<string>, chosen: set<PackId>, outcomes: (string, PackId) -> R) {
    forall d :: d in ds ==> d.baseUrl in urls && d.id in chosen && d.outcome == outcomes(d.baseUrl, d.id)
  }

  lemma PrefixSnoc(urls: seq<string>, u: nat)
    requires u < |urls|
    ensures urls[..u + 1] == urls[..u] + [urls[u]]
  {
  }

  /** Every chosen identity was deployed to every base URL. */
  predicate Covers<R(==)>(ds: seq<Deployed<R>>, urls: seq<string>, ids: set<PackId>) {
    forall url, id :: url in urls && id in ids ==> exists d :: d in ds && d.baseUrl == url && d.id == id
  }

  /** The entries `ds` added to `ds0` each deployed a package of `sel` to `url`, with the outcome `outcomes` gives. */
  predicate NewlyLogged<R(==)>(ds0: seq<Deployed<R>>, ds: seq<Deployed<R>>, url: string, sel: seq<Entry>,
                               outcomes: (string, PackId) -> R) {
    forall d :: d in ds ==> d in ds0 || (d.baseUrl == url && d.id in Ids(sel) && d.outcome == outcomes(url, d.id))
  }

  /** Every package of `sel` was deployed to `url`. */
  predicate AllDeployedTo<R(==)>(ds: seq<Deployed<R>>, url: string, sel: seq<Entry>) {
    forall e :: e in sel ==> exists d :: d in ds && d.baseUrl == url && d.id == e.id
  }

  /** The deployments to one more base URL keep the log as `Logged` describes it. */
  lemma LoggedExtends<R>(before: seq<Deployed<R>>, ds: seq<Deployed<R>>, urls: seq<string>, u: nat,
                             chosen: set<PackId>, sel: seq<Entry>, outcomes: (string, PackId) -> R)
    requires u < |urls| && Ids(sel) == chosen
    requires Logged(before, urls, chosen, outcomes) && NewlyLogged(before, ds, urls[u], sel, outcomes)
    ensures Logged(ds, urls, chosen, outcomes)
  {
  }

  /** Deploying every selected package to one more base URL extends the coverage to it. */
  lemma CoversExtends<R>(before: seq<Deployed<R>>, ds: seq<Deployed<R>>, urls: seq<string>, u: nat,
                             chosen: set<PackId>, sel: seq<Entry>)
    requires u < |urls| && Ids(sel) == chosen
    requires Covers(before, urls[..u], chosen) && (forall d :: d in before ==> d in ds)
    requires AllDeployedTo(ds, urls[u], sel)
    ensures Covers(ds, urls[..u + 1], chosen)
  {
    var pre := urls[..u + 1];
    PrefixSnoc(urls, u);
    forall url, id | url in pre && id in chosen ensures exists d :: d in ds && d.baseUrl == url && d.id == id {
      if url in urls[..u] {
        var d :| d in before && d.baseUrl == url && d.id == id;
        assert d in ds;
      } else {
        var e :| e in sel && e.id == id;
      }
    }
  }

  /** The base URL and the identity of each deployment of a log, in order. */
  function Targets<R>(ds: seq<Deployed<R>>): seq<(string, PackId)> {
    if ds == [] then [] else Targets(ds[..|ds| - 1]) + [(ds[|ds| - 1].baseUrl, ds[|ds| - 1].id)]
  }

  lemma TargetsSnoc<R>(ds: seq<Deployed<R>>, d: Deployed<R>)
    ensures Targets(ds + [d]) == Targets(ds) + [(d.baseUrl, d.id)]
  {
    assert (ds + [d])[..|ds|] == ds;
  }

  /** What the inner loop deploys to one base URL when nothing stops it: every selected package, in selection order. */
  function Row(url: string, sel: seq<Entry>): seq<(string, PackId)> {
    if sel == [] then [] else Row(url, sel[..|sel| - 1]) + [(url, sel[|sel| - 1].id)]
  }

  lemma RowSnoc(url: string, sel: seq<Entry>, j: nat)
    requires j < |sel|
    ensures Row(url, sel[..j + 1]) == Row(url, sel[..j]) + [(url, sel[j].id)]
  {
    assert sel[..j + 1][..j] == sel[..j];
  }

  /** The packages deployed before the inner loop stopped are a prefix of its whole row. */
  lemma {:induction false} RowPrefix(url: string, sel: seq<Entry>, j: nat)
    requires j <= |sel|
    ensures Row(url, sel[..j]) <= Row(url, sel)
  {
    if j < |sel| {
      var n := |sel| - 1;
      assert sel[..n][..j] == sel[..j];
      RowPrefix(url, sel[..n], j);
      assert Row(url, sel[..n]) <= Row(url, sel);
    } else {
      assert sel[..j] == sel;
    }
  }

  /**
   * What the outer loop deploys when nothing stops it: base URL by base URL,
   * in the order listed, the row of the selection made for that URL.
   */
  function Plan(urls: seq<string>, sels: seq<seq<Entry>>): seq<(string, PackId)>
    requires |sels| <= |urls|
    decreases |sels|
  {
    if sels == [] then [] else Plan(urls, sels[..|sels| - 1]) + Row(urls[|sels| - 1], sels[|sels| - 1])
  }

  lemma PlanSnoc(urls: seq<string>, sels: seq<seq<Entry>>, sel: seq<Entry>)
    requires |sels| < |urls|
    ensures Plan(urls, sels + [sel]) == Plan(urls, sels) + Row(urls[|sels|], sel)
  {
    assert (sels + [sel])[..|sels|] == sels;
  }

  /** The log went through the plan in order: what it deployed where is a prefix of the plan. */
  predicate FollowsPlan<R>(ds: seq<Deployed<R>>, urls: seq<string>, sels: seq<seq<Entry>>) {
    |sels| <= |urls| && Targets(ds) <= Plan(urls, sels)
  }

  /** The log went through the whole plan, with a selection for every base URL. */
  predicate CompletesPlan<R>(ds: seq<Deployed<R>>, urls: seq<string>, sels: seq<seq<Entry>>) {
    |sels| == |urls| && Targets(ds) == Plan(urls, sels)
  }

  /** Each base URL visited got a selection of the packages found, as `selectPackages` makes it. */
  predicate SelectionsOf(sels: seq<seq<Entry>>, found: map<PackId, Candidate>, filters: seq<FilterEntry>,
                         less: (PackId, PackId) -> bool) {
    forall k :: 0 <= k < |sels| ==> Selects(sels[k], found, MatchedByAny(found.Keys, filters), filters, less)
  }

  // ---------------------------------------------------------------------------
  // The newer build step: a running build result
  // ---------------------------------------------------------------------------

  /** The running build, whose result the step reads and sets. */
  class Build {
    var result: Option<BuildResult>

    constructor(result: Option<BuildResult>)
      ensures this.result == result
    {
      this.result := result;
    }

    method SetResult(r: BuildResult)
      modifies this
      ensures result == Some(r)
    {
      result := Some(r);
    }
  }

  /** The running result after the deployments `ds`, starting from `start`. */
  function Worst(start: BuildResult, ds: seq<Deployed<BuildResult>>): BuildResult {
    if ds == [] then start else Combine(Worst(start, ds[..|ds| - 1]), ds[|ds| - 1].outcome)
  }

  /** The running result is the worst of the start and of every outcome, and it is one of them. */
  lemma {:induction false} WorstIsWorst(start: BuildResult, ds: seq<Deployed<BuildResult>>)
    ensures IsBetterOrEqualTo(start, Worst(start, ds))
    ensures forall d :: d in ds ==> IsBetterOrEqualTo(d.outcome, Worst(start, ds))
    ensures Worst(start, ds) == start || exists d :: d in ds && d.outcome == Worst(start, ds)
  {
    if ds != [] {
      var init := ds[..|ds| - 1];
      WorstIsWorst(start, init);
      assert ds == init + [ds[|ds| - 1]];
    }
  }

  lemma WorstSnoc(start: BuildResult, ds: seq<Deployed<BuildResult>>, d: Deployed<BuildResult>)
    ensures Worst(start, ds + [d]) == Combine(Worst(start, ds), d.outcome)
  {
    assert (ds + [d])[..|ds|] == ds;
  }

  /**
   * No deployment runs once the running result is worse than UNSTABLE: with
   * three levels that is FAILURE, so the build had not failed before the
   * first deployment and only the last one can have failed.
   */
  predicate StopsAfterFailure(start: BuildResult, ds: seq<Deployed<BuildResult>>) {
    (ds != [] ==> start != FAILURE) &&
    forall k :: 0 <= k < |ds| - 1 ==> ds[k].outcome != FAILURE
  }

  /** Each deployment of such a log ran while the running result was still UNSTABLE or better. */
  lemma {:induction false} StopsMeansRanWhileUnstable(start: BuildResult, ds: seq<Deployed<BuildResult>>)
    requires StopsAfterFailure(start, ds)
    ensures forall k :: 0 <= k < |ds| ==> IsBetterOrEqualTo(Worst(start, ds[..k]), UNSTABLE)
  {
    if ds != [] {
      var n := |ds| - 1;
      var init := ds[..n];
      assert StopsAfterFailure(start, init);
      StopsMeansRanWhileUnstable(start, init);
      forall k | 0 <= k < |ds| ensures IsBetterOrEqualTo(Worst(start, ds[..k]), UNSTABLE) {
        if k < n {
          assert ds[..k] == init[..k];
        } else {
          assert ds[..k] == init;
          WorstIsWorst(start, init);
          if Worst(start, init) != start {
            var d :| d in init && d.outcome == Worst(start, init);
            var i :| 0 <= i < n && init[i] == d;
          }
        }
      }
    }
  }

  /** A step that returns false saw the build already failed or a deployment fail. */
  lemma FalseMeansAFailure(start: BuildResult, ds: seq<Deployed<BuildResult>>)
    requires !IsBetterOrEqualTo(Worst(start, ds), UNSTABLE)
    ensures start == FAILURE || exists d :: d in ds && d.outcome == FAILURE
  {
    WorstIsWorst(start, ds);
  }

  /**
   * The step's verdict, stated without the log: once every deployment the
   * log holds is one `outcomes` describes, and a result of UNSTABLE or better
   * means every chosen package reached every base URL, that result is UNSTABLE
   * or better exactly when the build had not failed before the step and no
   * chosen package fails on any base URL.
   */
  lemma Verdict(start: BuildResult, ds: seq<Deployed<BuildResult>>, urls: seq<string>, chosen: set<PackId>,
                outcomes: (string, PackId) -> BuildResult)
    requires Logged(ds, urls, chosen, outcomes)
    requires IsBetterOrEqualTo(Worst(start, ds), UNSTABLE) ==> Covers(ds, urls, chosen)
    ensures IsBetterOrEqualTo(Worst(start, ds), UNSTABLE) <==>
            start != FAILURE && forall u, i :: u in urls && i in chosen ==> outcomes(u, i) != FAILURE
  {
    WorstIsWorst(start, ds);
    if !IsBetterOrEqualTo(Worst(start, ds), UNSTABLE) {
      FalseMeansAFailure(start, ds);
      if start != FAILURE {
        var d :| d in ds && d.outcome == FAILURE;
        assert d.baseUrl in urls && d.id in chosen && outcomes(d.baseUrl, d.id) == FAILURE;
      }
    } else {
      forall u, i | u in urls && i in chosen ensures outcomes(u, i) != FAILURE {
        var d :| d in ds && d.baseUrl == u && d.id == i;
        assert IsBetterOrEqualTo(d.outcome, Worst(start, ds));
      }
    }
  }

  /**
   * `outcomes` gives the outcome of deploying each package to each base URL.
   * The trigger keeps the deployment itself folded away until a call of the
   * deployment callable brings it in.
   */
  ghost predicate Describes(outcomes: (string, PackId) -> BuildResult, b: DeployPackagesBuilder, site: Site) {
    forall u, i {:trigger DeployOutcome(b, site, u, i)} :: outcomes(u, i) == DeployOutcome(b, site, u, i)
  }

  lemma OutcomesOf(b: DeployPackagesBuilder, site: Site) returns (outcomes: (string, PackId) -> BuildResult)
    ensures Describes(outcomes, b, site)
  {
    outcomes := (u, i) => DeployOutcome(b, site, u, i);
  }

  /** The callable of one package: the debugging one when deployment is disabled, the deployment callable otherwise. */
  method DeployOne(b: DeployPackagesBuilder, site: Site, factory: GraniteAHCFactory, url: string, id: PackId)
    returns (outcome: BuildResult)
    ensures outcome == DeployOutcome(b, site, url, id)
  {
    if b.disableForJobTesting {
      outcome := SUCCESS;
    } else {
      var client;
      outcome, client := DeployInvoke(factory, site.servers(url), ConfigFor(b, site, url), site.env,
                                      id, InstallOptionsOf(b), ExistingPackageBehaviorOf(b.behavior));
    }
  }

  /** One package of the inner loop: deploy it, combine the outcome into the running result and set that on the build. */
  method DeployNext(build: Build, b: DeployPackagesBuilder, site: Site, factory: GraniteAHCFactory,
                    url: string, id: PackId, ghost start: BuildResult, result0: BuildResult,
                    ghost deployed0: seq<Deployed<BuildResult>>, ghost outcomes: (string, PackId) -> BuildResult)
    returns (result: BuildResult, ghost deployed: seq<Deployed<BuildResult>>)
    requires Describes(outcomes, b, site)
    requires result0 == Worst(start, deployed0) && StopsAfterFailure(start, deployed0)
    requires IsBetterOrEqualTo(result0, UNSTABLE)
    modifies build
    ensures deployed == deployed0 + [Deployed(url, id, outcomes(url, id))]
    ensures Targets(deployed) == Targets(deployed0) + [(url, id)]
    ensures result == Worst(start, deployed) && StopsAfterFailure(start, deployed)
    ensures build.result == Some(result)
  {
    var outcome := DeployOne(b, site, factory, url, id);
    assert outcome == outcomes(url, id);
    var d := Deployed(url, id, outcome);
    WorstIsWorst(start, deployed0);
    WorstSnoc(start, deployed0, d);
    TargetsSnoc(deployed0, d);
    if deployed0 != [] {
      assert deployed0[|deployed0| - 1] in deployed0;
    }
    deployed := deployed0 + [d];
    result := Combine(result0, outcome);
    build.SetResult(result);
  }

  /** The log after one more package of the inner loop: its row and its coverage grow by that package. */
  lemma LogOneMore<R>(ds0: seq<Deployed<R>>, prev: seq<Deployed<R>>, ds: seq<Deployed<R>>, url: string,
                      sel: seq<Entry>, j: nat, outcomes: (string, PackId) -> R)
    requires j < |sel| && ds == prev + [Deployed(url, sel[j].id, outcomes(url, sel[j].id))]
    requires ds0 <= prev && Targets(prev) == Targets(ds0) + Row(url, sel[..j])
    requires NewlyLogged(ds0, prev, url, sel, outcomes) && AllDeployedTo(prev, url, sel[..j])
    ensures ds0 <= ds && Targets(ds) == Targets(ds0) + Row(url, sel[..j + 1])
    ensures NewlyLogged(ds0, ds, url, sel, outcomes) && AllDeployedTo(ds, url, sel[..j + 1])
  {
    TargetsSnoc(prev, Deployed(url, sel[j].id, outcomes(url, sel[j].id)));
    RowSnoc(url, sel, j);
    assert sel[j] in sel;
    assert sel[..j + 1] == sel[..j] + [sel[j]];
  }

  /**
   * The inner loop of the newer `perform` for one base URL: before each
   * selected package it gives up (the source's `return false`) once the
   * running result is worse than UNSTABLE; otherwise it deploys the package.
   * The log grows by a prefix of the URL's row, all of it unless it gave up.
   */
  method DeployTo(build: Build, b: DeployPackagesBuilder, site: Site, factory: GraniteAHCFactory,
                  url: string, sel: seq<Entry>, ghost start: BuildResult, ghost initial: Option<BuildResult>,
                  result0: BuildResult, ghost deployed0: seq<Deployed<BuildResult>>,
                  ghost outcomes: (string, PackId) -> BuildResult)
    returns (stopped: bool, result: BuildResult, ghost deployed: seq<Deployed<BuildResult>>)
    requires Describes(outcomes, b, site)
    requires result0 == Worst(start, deployed0) && StopsAfterFailure(start, deployed0)
    requires build.result == (if deployed0 == [] then initial else Some(result0))
    modifies build
    ensures result == Worst(start, deployed) && StopsAfterFailure(start, deployed)
    ensures build.result == (if deployed == [] then initial else Some(result))
    ensures deployed0 <= deployed
    ensures Targets(deployed) <= Targets(deployed0) + Row(url, sel)
    ensures !stopped ==> Targets(deployed) == Targets(deployed0) + Row(url, sel)
    ensures NewlyLogged(deployed0, deployed, url, sel, outcomes)
    ensures stopped ==> !IsBetterOrEqualTo(result, UNSTABLE)
    ensures IsBetterOrEqualTo(result, UNSTABLE) ==> AllDeployedTo(deployed, url, sel)
  {
    result, deployed, stopped := result0, deployed0, false;
    for j := 0 to |sel|
      invariant result == Worst(start, deployed) && StopsAfterFailure(start, deployed)
      invariant build.result == (if deployed == [] then initial else Some(result))
      invariant deployed0 <= deployed
      invariant Targets(deployed) == Targets(deployed0) + Row(url, sel[..j])
      invariant NewlyLogged(deployed0, deployed, url, sel, outcomes)
      invariant IsBetterOrEqualTo(result, UNSTABLE) ==> AllDeployedTo(deployed, url, sel[..j])
    {
      if !IsBetterOrEqualTo(result, UNSTABLE) {
        stopped := true;
        RowPrefix(url, sel, j);
        return;
      }
      ghost var prev := deployed;
      result, deployed := DeployNext(build, b, site, factory, url, sel[j].id, start, result, deployed, outcomes);
      LogOneMore(deployed0, prev, deployed, url, sel, j, outcomes);
    }
    assert sel[..|sel|] == sel;
  }

  /**
   * The newer `perform`. For each base URL, while the running result is
   * UNSTABLE or better, the packages are selected (an unmatched filter line
   * throws) and deployed one by one. It returns whether the final result is
   * UNSTABLE or better: whether the build had not failed before the step and
   * no chosen package fails on any base URL. The log runs base URL by base
   * URL through the selections made (`sels`), stops right after the first
   * failure, and covers every selection when the step returns true.
   */
  method Perform(build: Build, b: DeployPackagesBuilder, site: Site, factory: GraniteAHCFactory)
    returns (r: Outcome<bool>, ghost deployed: seq<Deployed<BuildResult>>, ghost sels: seq<seq<Entry>>)
    requires IsStrictTotalOrder(site.less)
    modifies build
    ensures var start := StartOf(old(build.result));
      var urls := NonBlank(SplitLines(TextOf(b.baseUrls)));
      var found := FoundSpec(ListedFor(b, site));
      var filters := FiltersOf(TextOf(b.packageIdFilters));
      var chosen := Chosen(found, filters, site.less);
      (r.Exc? <==> urls != [] && IsBetterOrEqualTo(start, UNSTABLE) && !AllMatched(found, filters)) &&
      FailsLike(r, SelectedSpec(found.Keys, filters)) &&
      (r.Ok? ==> r == Ok(start != FAILURE &&
                         forall u, i :: u in urls && i in chosen ==> DeployOutcome(b, site, u, i) != FAILURE))
    ensures var start := StartOf(old(build.result));
      var urls := NonBlank(SplitLines(TextOf(b.baseUrls)));
      var found := FoundSpec(ListedFor(b, site));
      var filters := FiltersOf(TextOf(b.packageIdFilters));
      var chosen := Chosen(found, filters, site.less);
      (r.Exc? ==> deployed == []) &&
      (r.Ok? ==> r == Ok(IsBetterOrEqualTo(Worst(start, deployed), UNSTABLE))) &&
      build.result == (if deployed == [] then old(build.result) else Some(Worst(start, deployed))) &&
      StopsAfterFailure(start, deployed) &&
      LoggedAs(deployed, urls, chosen, b, site) &&
      (r == Ok(true) ==> Covers(deployed, urls, chosen))
    ensures var urls := NonBlank(SplitLines(TextOf(b.baseUrls)));
      var found := FoundSpec(ListedFor(b, site));
      var filters := FiltersOf(TextOf(b.packageIdFilters));
      SelectionsOf(sels, found, filters, site.less) && FollowsPlan(deployed, urls, sels) &&
      (r == Ok(true) ==> CompletesPlan(deployed, urls, sels))
  {
    var urlText := TextOf(b.baseUrls);
    var urls := ParseBaseUrls(urlText);
    var filterText := TextOf(b.packageIdFilters);
    var filters := ListPackageFilters(filterText);
    ghost var found := FoundSpec(ListedFor(b, site));
    ghost var chosen := Chosen(found, filters, site.less);
    ghost var outcomes := OutcomesOf(b, site);
    r, deployed, sels := DeployAll(build, b, site, factory, urls, filters, found, chosen, outcomes);
    LoggedOutcomes(deployed, urls, chosen, outcomes, b, site);
    assert forall u, i :: outcomes(u, i) == DeployOutcome(b, site, u, i);
  }

  /**
   * The log after one more base URL: a log that followed the plan so far and
   * then a prefix of the new URL's row, all of it when `full`, follows the
   * plan extended by that row.
   */
  lemma PlanOneMore<R>(urls: seq<string>, sels: seq<seq<Entry>>, row: seq<Entry>, prev: seq<Deployed<R>>,
                       ds: seq<Deployed<R>>, full: bool)
    requires |sels| < |urls| && Targets(prev) == Plan(urls, sels)
    requires Targets(ds) <= Targets(prev) + Row(urls[|sels|], row)
    requires full ==> Targets(ds) == Targets(prev) + Row(urls[|sels|], row)
    ensures Targets(ds) <= Plan(urls, sels + [row])
    ensures full ==> Targets(ds) == Plan(urls, sels + [row])
  {
    PlanSnoc(urls, sels, row);
  }

  /** A log that follows the plan so far, with nothing deployed to one more base URL, follows the extended plan. */
  lemma PlanGrows<R>(urls: seq<string>, sels: seq<seq<Entry>>, row: seq<Entry>, ds: seq<Deployed<R>>)
    requires |sels| < |urls| && Targets(ds) <= Plan(urls, sels)
    ensures Targets(ds) <= Plan(urls, sels + [row])
  {
    PlanSnoc(urls, sels, row);
  }

  lemma SelectionsSnoc(sels: seq<seq<Entry>>, row: seq<Entry>, found: map<PackId, Candidate>, filters: seq<FilterEntry>,
                       less: (PackId, PackId) -> bool)
    requires SelectionsOf(sels, found, filters, less) && Selects(row, found, MatchedByAny(found.Keys, filters), filters, less)
    ensures SelectionsOf(sels + [row], found, filters, less)
  {
    assert forall k :: 0 <= k < |sels| ==> (sels + [row])[k] == sels[k];
  }

  /** The outer loop of the newer `perform` over the base URLs, given the filters map. */
  method DeployAll(build: Build, b: DeployPackagesBuilder, site: Site, factory: GraniteAHCFactory,
                   urls: seq<string>, filters: seq<FilterEntry>, ghost found: map<PackId, Candidate>,
                   ghost chosen: set<PackId>, ghost outcomes: (string, PackId) -> BuildResult)
    returns (r: Outcome<bool>, ghost deployed: seq<Deployed<BuildResult>>, ghost sels: seq<seq<Entry>>)
    requires IsStrictTotalOrder(site.less)
    requires found == FoundSpec(ListedFor(b, site)) && chosen == Chosen(found, filters, site.less)
    requires Describes(outcomes, b, site)
    modifies build
    ensures var start := StartOf(old(build.result));
      (r.Exc? <==> urls != [] && IsBetterOrEqualTo(start, UNSTABLE) && !AllMatched(found, filters)) &&
      (r.Exc? ==> deployed == [] && SelectedSpec(found.Keys, filters).Exc? &&
                  r.error == SelectedSpec(found.Keys, filters).error) &&
      (r.Ok? ==> r == Ok(IsBetterOrEqualTo(Worst(start, deployed), UNSTABLE))) &&
      (r.Ok? ==> (r.value <==> start != FAILURE && forall u, i :: u in urls && i in chosen ==> outcomes(u, i) != FAILURE)) &&
      build.result == (if deployed == [] then old(build.result) else Some(Worst(start, deployed))) &&
      StopsAfterFailure(start, deployed) && Logged(deployed, urls, chosen, outcomes) &&
      (r == Ok(true) ==> Covers(deployed, urls, chosen))
    ensures SelectionsOf(sels, found, filters, site.less) && FollowsPlan(deployed, urls, sels)
    ensures r == Ok(true) ==> CompletesPlan(deployed, urls, sels)
  {
    ghost var initial := build.result;
    var start := StartOf(build.result);
    var result := start;
    deployed, sels := [], [];
    for u := 0 to |urls|
      invariant result == Worst(start, deployed) && StopsAfterFailure(start, deployed)
      invariant build.result == (if deployed == [] then initial else Some(result))
      invariant Logged(deployed, urls, chosen, outcomes)
      invariant u == 0 ==> deployed == []
      invariant u > 0 && IsBetterOrEqualTo(start, UNSTABLE) ==> AllMatched(found, filters)
      invariant IsBetterOrEqualTo(result, UNSTABLE) ==> Covers(deployed, urls[..u], chosen)
      invariant |sels| <= u && SelectionsOf(sels, found, filters, site.less)
      invariant Targets(deployed) <= Plan(urls, sels)
      invariant IsBetterOrEqualTo(result, UNSTABLE) ==> |sels| == u && Targets(deployed) == Plan(urls, sels)
    {
      WorstIsWorst(start, deployed);
      if IsBetterOrEqualTo(result, UNSTABLE) {
        var step;
        ghost var row;
        ghost var deployed0 := deployed;
        step, result, deployed, row := DeployToUrl(build, b, site, factory, urls, u, start, initial, result, deployed,
                                                   found, filters, chosen, outcomes);
        if step.Exc? {
          r := Exc(step.error);
          return;
        }
        PlanOneMore(urls, sels, row, deployed0, deployed, step == Ok(true));
        SelectionsSnoc(sels, row, found, filters, site.less);
        sels := sels + [row];
        if !step.value {
          Verdict(start, deployed, urls, chosen, outcomes);
          r := Ok(false);
          return;
        }
      }
    }
    assert urls[..|urls|] == urls;
    Verdict(start, deployed, urls, chosen, outcomes);
    r := Ok(IsBetterOrEqualTo(result, UNSTABLE));
  }

  /**
   * One iteration of the outer loop of the newer `perform`, entered while the
   * running result is UNSTABLE or better: select the packages (`row`), then
   * deploy them to the base URL. `Exc` is the selection's exception,
   * `Ok(false)` the source's `return false`, `Ok(true)` going on with the
   * next base URL.
   */
  method DeployToUrl(build: Build, b: DeployPackagesBuilder, site: Site, factory: GraniteAHCFactory,
                     urls: seq<string>, u: nat, ghost start: BuildResult, ghost initial: Option<BuildResult>,
                     result0: BuildResult, ghost deployed0: seq<Deployed<BuildResult>>,
                     ghost found: map<PackId, Candidate>, filters: seq<FilterEntry>, ghost chosen: set<PackId>,
                     ghost outcomes: (string, PackId) -> BuildResult)
    returns (r: Outcome<bool>, result: BuildResult, ghost deployed: seq<Deployed<BuildResult>>, ghost row: seq<Entry>)
    requires u < |urls| && IsStrictTotalOrder(site.less)
    requires found == FoundSpec(ListedFor(b, site)) && chosen == Chosen(found, filters, site.less)
    requires Describes(outcomes, b, site)
    requires result0 == Worst(start, deployed0) && StopsAfterFailure(start, deployed0)
    requires IsBetterOrEqualTo(result0, UNSTABLE)
    requires build.result == (if deployed0 == [] then initial else Some(result0))
    requires Logged(deployed0, urls, chosen, outcomes) && Covers(deployed0, urls[..u], chosen)
    modifies build
    ensures r.Exc? <==> !AllMatched(found, filters)
    ensures r.Exc? ==> deployed == deployed0 && result == result0 && SelectedSpec(found.Keys, filters).Exc? &&
                       r.error == SelectedSpec(found.Keys, filters).error
    ensures r.Ok? ==> Selects(row, found, MatchedByAny(found.Keys, filters), filters, site.less)
    ensures result == Worst(start, deployed) && StopsAfterFailure(start, deployed)
    ensures build.result == (if deployed == [] then initial else Some(result))
    ensures Logged(deployed, urls, chosen, outcomes)
    ensures deployed0 <= deployed && Targets(deployed) <= Targets(deployed0) + Row(urls[u], row)
    ensures r == Ok(true) ==> Targets(deployed) == Targets(deployed0) + Row(urls[u], row)
    ensures r == Ok(false) ==> !IsBetterOrEqualTo(result, UNSTABLE)
    ensures r.Ok? && IsBetterOrEqualTo(result, UNSTABLE) ==> Covers(deployed, urls[..u + 1], chosen)
  {
    var sel := SelectPackages(ListedFor(b, site), filters, site.less);
    if sel.Exc? {
      r, result, deployed, row := Exc(sel.error), result0, deployed0, [];
      assert Targets(deployed0) + Row(urls[u], row) == Targets(deployed0);
      return;
    }
    var stopped;
    row := sel.value;
    stopped, result, deployed := DeployTo(build, b, site, factory, urls[u], sel.value, start, initial, result0, deployed0, outcomes);
    LoggedExtends(deployed0, deployed, urls, u, chosen, row, outcomes);
    if !stopped && IsBetterOrEqualTo(result, UNSTABLE) {
      CoversExtends(deployed0, deployed, urls, u, chosen, row);
    }
    r := Ok(!stopped);
  }

  /** Every deployment went to one of `urls`, of a package in `chosen`, with the outcome `DeployOutcome` gives. */
  predicate LoggedAs(ds: seq<Deployed<BuildResult>>, urls: seq<string>, chosen: set<PackId>, b: DeployPackagesBuilder, site: Site) {
    forall d :: d in ds ==> d.baseUrl in urls && d.id in chosen && d.outcome == DeployOutcome(b, site, d.baseUrl, d.id)
  }

  lemma LoggedOutcomes(ds: seq<Deployed<BuildResult>>, urls: seq<string>, chosen: set<PackId>,
                       outcomes: (string, PackId) -> BuildResult, b: DeployPackagesBuilder, site: Site)
    requires Describes(outcomes, b, site) && Logged(ds, urls, chosen, outcomes)
    ensures LoggedAs(ds, urls, chosen, b, site)
  {
  }

  // ---------------------------------------------------------------------------
  // The older build step: a Boolean
  // ---------------------------------------------------------------------------

  /** What the older callable reads from its builder. */
  function LegacyRequestOf(b: LegacyDeployPackagesBuilder): LegacyRequest {
    LegacyRequest(GetPackageInstallOptions(b.recursive, b.autosave, b.acHandling),
                  LegacyExistingPackageBehaviorOf(b.behavior), b.sshKeyLogin, b.username, b.password)
  }

  /** Whether deploying one package to one base URL succeeded in the older step. */
  function LegacyDeployOutcome(b: LegacyDeployPackagesBuilder, site: Site, baseUrl: string, id: PackId): bool {
    b.disableForJobTesting || LegacyInvokeSpec(site.servers(baseUrl), LegacyRequestOf(b), site.keys, id).0
  }

  /** Deploying every package of `chosen` to every base URL of `urls` succeeds in the older step. */
  predicate SucceedsEverywhere(b: LegacyDeployPackagesBuilder, site: Site, urls: seq<string>, chosen: set<PackId>) {
    forall u, i :: u in urls && i in chosen ==> LegacyDeployOutcome(b, site, u, i)
  }

  /** The package files the older step lists, at the workspace root. */
  function LegacyListed(site: Site): seq<Candidate> {
    site.workspace(".")
  }

  /** `outcomes` tells whether deploying each package to each base URL succeeds in the older step. */
  ghost predicate LegacyDescribes(outcomes: (string, PackId) -> bool, b: LegacyDeployPackagesBuilder, site: Site) {
    forall u, i {:trigger LegacyDeployOutcome(b, site, u, i)} :: outcomes(u, i) == LegacyDeployOutcome(b, site, u, i)
  }

  lemma LegacyOutcomesOf(b: LegacyDeployPackagesBuilder, site: Site) returns (outcomes: (string, PackId) -> bool)
    ensures LegacyDescribes(outcomes, b, site)
  {
    outcomes := (u, i) => LegacyDeployOutcome(b, site, u, i);
  }

  /** Every deployment went to one of `urls`, of a package in `chosen`, with the outcome `LegacyDeployOutcome` gives. */
  predicate LegacyLoggedAs(ds: seq<Deployed<bool>>, urls: seq<string>, chosen: set<PackId>, b: LegacyDeployPackagesBuilder, site: Site) {
    forall d :: d in ds ==> d.baseUrl in urls && d.id in chosen && d.outcome == LegacyDeployOutcome(b, site, d.baseUrl, d.id)
  }

  lemma LegacyLoggedOutcomes(ds: seq<Deployed<bool>>, urls: seq<string>, chosen: set<PackId>,
                             outcomes: (string, PackId) -> bool, b: LegacyDeployPackagesBuilder, site: Site)
    requires LegacyDescribes(outcomes, b, site) && Logged(ds, urls, chosen, outcomes)
    ensures LegacyLoggedAs(ds, urls, chosen, b, site)
  {
  }

  /** Every deployment but the last succeeded: `success && …` skips the callable once it is false. */
  predicate ShortCircuits(ds: seq<Deployed<bool>>) {
    forall k :: 0 <= k < |ds| - 1 ==> ds[k].outcome
  }

  /** A deployment that runs while every earlier one succeeded keeps the log short-circuited. */
  lemma ShortCircuitsSnoc(ds: seq<Deployed<bool>>, d: Deployed<bool>)
    requires ShortCircuits(ds) && forall x :: x in ds ==> x.outcome
    ensures ShortCircuits(ds + [d]) && ((forall x :: x in ds + [d] ==> x.outcome) <==> d.outcome)
  {
    assert forall k :: 0 <= k < |ds| ==> (ds + [d])[k] == ds[k] && ds[k] in ds;
  }

  /** The older callable of one package, or the debugging one. */
  method LegacyDeployOne(b: LegacyDeployPackagesBuilder, site: Site, url: string, id: PackId) returns (ok: bool)
    ensures ok == LegacyDeployOutcome(b, site, url, id)
  {
    if b.disableForJobTesting {
      ok := true;
    } else {
      var client;
      ok, client := LegacyInvoke(site.servers(url), LegacyRequestOf(b), site.keys, Some(url), id,
                                 NormalizeTimeout(b.requestTimeout), NormalizeTimeout(b.serviceTimeout));
    }
  }

  /**
   * The older step's verdict, stated without the log: once every deployment
   * the log holds is one `outcomes` describes, and all of them succeeding
   * means every chosen package reached every base URL, all of them succeeded
   * exactly when every chosen package succeeds on every base URL.
   */
  lemma LegacyVerdict(ds: seq<Deployed<bool>>, urls: seq<string>, chosen: set<PackId>, outcomes: (string, PackId) -> bool)
    requires Logged(ds, urls, chosen, outcomes)
    requires (forall d :: d in ds ==> d.outcome) ==> Covers(ds, urls, chosen)
    ensures (forall d :: d in ds ==> d.outcome) <==> forall u, i :: u in urls && i in chosen ==> outcomes(u, i)
  {
    if forall d :: d in ds ==> d.outcome {
      forall u, i | u in urls && i in chosen ensures outcomes(u, i) {
        var d :| d in ds && d.baseUrl == u && d.id == i;
      }
    } else {
      var d :| d in ds && !d.outcome;
      assert d.baseUrl in urls && d.id in chosen && !outcomes(d.baseUrl, d.id);
    }
  }

  /**
   * The inner loop of the older `perform` for one base URL: each package is
   * deployed while every deployment so far succeeded. The log grows by a
   * prefix of the URL's row, all of it when every deployment succeeded, and
   * not at all when one had already failed.
   */
  method LegacyDeployTo(b: LegacyDeployPackagesBuilder, site: Site, url: string, sel: seq<Entry>,
                        success0: bool, ghost deployed0: seq<Deployed<bool>>, ghost outcomes: (string, PackId) -> bool)
    returns (success: bool, ghost deployed: seq<Deployed<bool>>)
    requires LegacyDescribes(outcomes, b, site)
    requires ShortCircuits(deployed0) && (success0 <==> forall d :: d in deployed0 ==> d.outcome)
    ensures ShortCircuits(deployed) && (success <==> forall d :: d in deployed ==> d.outcome)
    ensures deployed0 <= deployed && Targets(deployed) <= Targets(deployed0) + Row(url, sel)
    ensures success ==> Targets(deployed) == Targets(deployed0) + Row(url, sel)
    ensures !success0 ==> deployed == deployed0
    ensures NewlyLogged(deployed0, deployed, url, sel, outcomes)
    ensures success ==> AllDeployedTo(deployed, url, sel)
  {
    success, deployed := success0, deployed0;
    ghost var m := 0;
    for j := 0 to |sel|
      invariant ShortCircuits(deployed) && (success <==> forall d :: d in deployed ==> d.outcome)
      invariant m <= j && (success ==> m == j) && (!success0 ==> deployed == deployed0)
      invariant deployed0 <= deployed && Targets(deployed) == Targets(deployed0) + Row(url, sel[..m])
      invariant NewlyLogged(deployed0, deployed, url, sel, outcomes)
      invariant AllDeployedTo(deployed, url, sel[..m])
    {
      var id := sel[j].id;
      if success {
        var ok := LegacyDeployOne(b, site, url, id);
        assert ok == outcomes(url, id);
        ghost var prev := deployed;
        deployed := deployed + [Deployed(url, id, ok)];
        ShortCircuitsSnoc(prev, Deployed(url, id, ok));
        LogOneMore(deployed0, prev, deployed, url, sel, m, outcomes);
        m := m + 1;
        success := ok;
      }
    }
    RowPrefix(url, sel, m);
    assert sel[..|sel|] == sel;
  }

  /**
   * One iteration of the outer loop of the older `perform`: select the
   * packages (`row`), then deploy them to the base URL.
   */
  method LegacyDeployToUrl(b: LegacyDeployPackagesBuilder, site: Site, urls: seq<string>, u: nat, success0: bool,
                           ghost deployed0: seq<Deployed<bool>>, ghost found: map<PackId, Candidate>,
                           filters: seq<FilterEntry>, ghost chosen: set<PackId>,
                           ghost outcomes: (string, PackId) -> bool)
    returns (r: Outcome<bool>, ghost deployed: seq<Deployed<bool>>, ghost row: seq<Entry>)
    requires u < |urls| && IsStrictTotalOrder(site.less)
    requires found == FoundSpec(LegacyListed(site)) && chosen == Chosen(found, filters, site.less)
    requires LegacyDescribes(outcomes, b, site)
    requires ShortCircuits(deployed0) && (success0 <==> forall d :: d in deployed0 ==> d.outcome)
    requires Logged(deployed0, urls, chosen, outcomes)
    requires success0 ==> Covers(deployed0, urls[..u], chosen)
    ensures r.Exc? <==> !AllMatched(found, filters)
    ensures r.Exc? ==> deployed == deployed0 && SelectedSpec(found.Keys, filters).Exc? &&
                       r.error == SelectedSpec(found.Keys, filters).error
    ensures r.Ok? ==> Selects(row, found, MatchedByAny(found.Keys, filters), filters, site.less)
    ensures r.Ok? ==> ShortCircuits(deployed) && (r.value <==> forall d :: d in deployed ==> d.outcome)
    ensures r.Ok? ==> Logged(deployed, urls, chosen, outcomes)
    ensures deployed0 <= deployed && Targets(deployed) <= Targets(deployed0) + Row(urls[u], row)
    ensures r == Ok(true) ==> Targets(deployed) == Targets(deployed0) + Row(urls[u], row)
    ensures !success0 ==> deployed == deployed0
    ensures r == Ok(true) ==> Covers(deployed, urls[..u + 1], chosen)
  {
    var sel := SelectPackages(LegacyListed(site), filters, site.less);
    if sel.Exc? {
      r, deployed, row := Exc(sel.error), deployed0, [];
      assert Targets(deployed0) + Row(urls[u], row) == Targets(deployed0);
      return;
    }
    var success;
    row := sel.value;
    success, deployed := LegacyDeployTo(b, site, urls[u], sel.value, success0, deployed0, outcomes);
    LoggedExtends(deployed0, deployed, urls, u, chosen, row, outcomes);
    if success {
      CoversExtends(deployed0, deployed, urls, u, chosen, row);
    }
    r := Ok(success);
  }

  /**
   * The older `perform`: for every base URL the packages are selected (an
   * unmatched filter line throws) and deployed while every deployment so far
   * succeeded; it returns whether all of them did, that is whether every
   * chosen package succeeds on every base URL. The log runs base URL by base
   * URL through the selections made (`sels`, one per base URL), stops right
   * after the first failure, and covers every selection when the step
   * returns true.
   */
  method LegacyPerform(b: LegacyDeployPackagesBuilder, site: Site)
    returns (r: Outcome<bool>, ghost deployed: seq<Deployed<bool>>, ghost sels: seq<seq<Entry>>)
    requires IsStrictTotalOrder(site.less)
    ensures var urls := NonBlank(SplitLines(TextOf(b.baseUrls)));
      var found := FoundSpec(LegacyListed(site));
      var filters := FiltersOf(TextOf(b.packageIdFilters));
      var chosen := Chosen(found, filters, site.less);
      (r.Exc? <==> urls != [] && !AllMatched(found, filters)) &&
      FailsLike(r, SelectedSpec(found.Keys, filters)) &&
      (r.Ok? ==> r == Ok(SucceedsEverywhere(b, site, urls, chosen)))
    ensures var urls := NonBlank(SplitLines(TextOf(b.baseUrls)));
      var found := FoundSpec(LegacyListed(site));
      var filters := FiltersOf(TextOf(b.packageIdFilters));
      var chosen := Chosen(found, filters, site.less);
      (r.Exc? ==> deployed == []) &&
      (r.Ok? ==> r == Ok(forall d :: d in deployed ==> d.outcome)) &&
      ShortCircuits(deployed) &&
      LegacyLoggedAs(deployed, urls, chosen, b, site) &&
      (r == Ok(true) ==> Covers(deployed, urls, chosen))
    ensures var urls := NonBlank(SplitLines(TextOf(b.baseUrls)));
      var found := FoundSpec(LegacyListed(site));
      var filters := FiltersOf(TextOf(b.packageIdFilters));
      (r.Ok? ==> |sels| == |urls|) && SelectionsOf(sels, found, filters, site.less) && FollowsPlan(deployed, urls, sels) &&
      (r == Ok(true) ==> CompletesPlan(deployed, urls, sels))
  {
    var urlText := TextOf(b.baseUrls);
    var urls := ParseBaseUrls(urlText);
    var filterText := TextOf(b.packageIdFilters);
    var filters := ListPackageFilters(filterText);
    ghost var found := FoundSpec(LegacyListed(site));
    ghost var chosen := Chosen(found, filters, site.less);
    ghost var outcomes := LegacyOutcomesOf(b, site);
    r, deployed, sels := LegacyDeployAll(b, site, urls, filters, found, chosen, outcomes);
    LegacyLoggedOutcomes(deployed, urls, chosen, outcomes, b, site);
    assert forall u, i :: outcomes(u, i) == LegacyDeployOutcome(b, site, u, i);
  }

  /** The outer loop of the older `perform` over the base URLs, given the filters map. */
  method LegacyDeployAll(b: LegacyDeployPackagesBuilder, site: Site, urls: seq<string>, filters: seq<FilterEntry>,
                         ghost found: map<PackId, Candidate>, ghost chosen: set<PackId>,
                         ghost outcomes: (string, PackId) -> bool)
    returns (r: Outcome<bool>, ghost deployed: seq<Deployed<bool>>, ghost sels: seq<seq<Entry>>)
    requires IsStrictTotalOrder(site.less)
    requires found == FoundSpec(LegacyListed(site)) && chosen == Chosen(found, filters, site.less)
    requires LegacyDescribes(outcomes, b, site)
    ensures r.Exc? <==> urls != [] && !AllMatched(found, filters)
    ensures r.Exc? ==> deployed == [] && SelectedSpec(found.Keys, filters).Exc? &&
                       r.error == SelectedSpec(found.Keys, filters).error
    ensures r.Ok? ==> r == Ok(forall d :: d in deployed ==> d.outcome)
    ensures r.Ok? ==> (r.value <==> forall u, i :: u in urls && i in chosen ==> outcomes(u, i))
    ensures ShortCircuits(deployed) && Logged(deployed, urls, chosen, outcomes)
    ensures r == Ok(true) ==> Covers(deployed, urls, chosen)
    ensures (r.Ok? ==> |sels| == |urls|) && SelectionsOf(sels, found, filters, site.less) && FollowsPlan(deployed, urls, sels)
    ensures r == Ok(true) ==> CompletesPlan(deployed, urls, sels)
  {
    var success := true;
    deployed, sels := [], [];
    for u := 0 to |urls|
      invariant ShortCircuits(deployed) && (success <==> forall d :: d in deployed ==> d.outcome)
      invariant Logged(deployed, urls, chosen, outcomes)
      invariant u == 0 ==> deployed == []
      invariant u > 0 ==> AllMatched(found, filters)
      invariant success ==> Covers(deployed, urls[..u], chosen)
      invariant |sels| == u && SelectionsOf(sels, found, filters, site.less)
      invariant Targets(deployed) <= Plan(urls, sels)
      invariant success ==> Targets(deployed) == Plan(urls, sels)
    {
      var step;
      ghost var row;
      ghost var deployed0 := deployed;
      step, deployed, row := LegacyDeployToUrl(b, site, urls, u, success, deployed, found, filters, chosen, outcomes);
      if step.Exc? {
        r := Exc(step.error);
        return;
      }
      if success {
        PlanOneMore(urls, sels, row, deployed0, deployed, step.value);
      } else {
        PlanGrows(urls, sels, row, deployed);
      }
      SelectionsSnoc(sels, row, found, filters, site.less);
      sels := sels + [row];
      success := step.value;
    }
    assert urls[..|urls|] == urls;
    LegacyVerdict(deployed, urls, chosen, outcomes);
    r := Ok(success);
  }
}
