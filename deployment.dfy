/**
 * `PackageDeploymentCallable`: deploying one package file to one server.
 * The newer version runs inside an already logged-in session and answers a
 * build result; the older one logs in itself, answers a Boolean and closes
 * its HTTP client. Both share the handling of an existing package and the
 * upload-then-install step, which are the same code in the two versions.
 */
module Deployment {
  import opened JavaLang
  import opened PackIds
  import opened Configuration
  import opened BuildResults
  import opened Packman

  /** The message of the exception a null result list raises when it is read. */
  const NULL_RESULTS: string := "java.lang.NullPointerException"

  /**
   * The uninstall step of `handleExisting`: wait, list the package, and
   * uninstall it only when the listing is non-empty and its first entry has
   * a snapshot (is installed). False when the uninstall was refused.
   */
  function UninstallIfInstalledSpec(s: Server, id: PackId, h: seq<Call>): Run<bool> {
    var w := WaitSpec(s, h);
    if w.out.Exc? then Run(Exc(w.out.error), w.trace)
    else
      var t := w.trace + [ListPackage(id)];
      match s.list(t)
      case Exc(e) => Run(Exc(e), t)
      case Ok(listing) =>
        if listing.results.None? then Run(Exc(NULL_RESULTS), t)
        else if |listing.results.value| > 0 && listing.results.value[0].hasSnapshot then
          var t' := t + [Uninstall(id)];
          match s.uninstall(t')
          case Exc(e) => Run(Exc(e), t')
          case Ok(d) => Run(Ok(d.success), t')
        else Run(Ok(true), t)
  }

  /** The delete step of `handleExisting`: wait, then delete. False when the delete was refused. */
  function DeleteSpec(s: Server, id: PackId, h: seq<Call>): Run<bool> {
    var w := WaitSpec(s, h);
    if w.out.Exc? then Run(Exc(w.out.error), w.trace)
    else
      var t := w.trace + [Delete(id)];
      match s.delete(t)
      case Exc(e) => Run(Exc(e), t)
      case Ok(r) => Run(Ok(r.success), t)
  }

  /**
   * `handleExisting`: IGNORE, OVERWRITE and SKIP leave the existing package
   * alone; UNINSTALL uninstalls it if installed and then deletes it; DELETE
   * deletes it. False as soon as a step is refused.
   */
  function HandleExistingSpec(s: Server, behavior: ExistingPackageBehavior, id: PackId, h: seq<Call>): Run<bool> {
    if behavior == ExistingPackageBehavior.IGNORE || behavior == ExistingPackageBehavior.OVERWRITE || behavior == SKIP then
      Run(Ok(true), h)
    else
      var u := if behavior == UNINSTALL then UninstallIfInstalledSpec(s, id, h) else Run(Ok(true), h);
      if u.out != Ok(true) then u
      // only UNINSTALL and DELETE are left, and both delete
      else DeleteSpec(s, id, u.trace)
  }

  /** Whether the package was found on the server, and if so whether handling it succeeded. */
  datatype Existing = Absent | Handled(ok: bool)

  /** Wait, ask whether the package exists and, when it does, handle it. */
  function CheckExistingSpec(s: Server, behavior: ExistingPackageBehavior, id: PackId, h: seq<Call>): Run<Existing> {
    var w := WaitSpec(s, h);
    if w.out.Exc? then Run(Exc(w.out.error), w.trace)
    else
      var t := w.trace + [ExistsOnServer(id)];
      match s.existsOnServer(t)
      case Exc(e) => Run(Exc(e), t)
      case Ok(found) =>
        if !found then Run(Ok(Absent), t)
        else
          var he := HandleExistingSpec(s, behavior, id, t);
          match he.out
          case Exc(e) => Run(Exc(e), he.trace)
          case Ok(ok) => Run(Ok(Handled(ok)), he.trace)
  }

  /**
   * Wait, upload (replacing exactly when the behaviour is OVERWRITE) and, if
   * the upload succeeded, install: the install response, or none when the
   * upload was refused.
   */
  function UploadAndInstallSpec(s: Server, behavior: ExistingPackageBehavior, options: PackageInstallOptions,
                                id: PackId, h: seq<Call>): Run<Option<DetailedResponse>> {
    var w := WaitSpec(s, h);
    if w.out.Exc? then Run(Exc(w.out.error), w.trace)
    else
      var t := w.trace + [Upload(id, behavior == ExistingPackageBehavior.OVERWRITE)];
      match s.upload(t)
      case Exc(e) => Run(Exc(e), t)
      case Ok(up) =>
        if !up.success then Run(Ok(None), t)
        else
          var t' := t + [Install(id, options)];
          match s.install(t')
          case Exc(e) => Run(Exc(e), t')
          case Ok(d) => Run(Ok(Some(d)), t')
  }

  /** The build result of an install response: FAILURE if it failed, UNSTABLE if it reported errors. */
  function InstallResult(d: DetailedResponse): BuildResult {
    if !d.success then FAILURE else if d.hasErrors then UNSTABLE else SUCCESS
  }

  /**
   * `Execution.doExecute` of the newer callable: a refused handling of an
   * existing package is FAILURE, an existing package under SKIP is SUCCESS
   * with nothing uploaded, a refused upload is FAILURE, and otherwise the
   * install response decides.
   */
  function DoExecuteSpec(s: Server, behavior: ExistingPackageBehavior, options: PackageInstallOptions,
                         id: PackId, h: seq<Call>): Run<BuildResult> {
    var c := CheckExistingSpec(s, behavior, id, h);
    match c.out
    case Exc(e) => Run(Exc(e), c.trace)
    case Ok(existing) =>
      if existing == Handled(false) then Run(Ok(FAILURE), c.trace)
      else if existing == Handled(true) && behavior == SKIP then Run(Ok(SUCCESS), c.trace)
      else
        var u := UploadAndInstallSpec(s, behavior, options, id, c.trace);
        match u.out
        case Exc(e) => Run(Exc(e), u.trace)
        case Ok(None) => Run(Ok(FAILURE), u.trace)
        case Ok(Some(d)) => Run(Ok(InstallResult(d)), u.trace)
  }

  /** The uninstall step of `handleExisting`. */
  method UninstallIfInstalled(client: PackageManagerClient, id: PackId) returns (r: Outcome<bool>)
    modifies client
    ensures client.OnlySent()
    ensures Run(r, client.trace) == UninstallIfInstalledSpec(client.server, id, old(client.trace))
  {
    var _ :- client.WaitForService();
    var listing :- client.List(id);
    if listing.results.None? {
      return Exc(NULL_RESULTS);
    }
    if |listing.results.value| > 0 && listing.results.value[0].hasSnapshot {
      var uninstalled :- client.Uninstall(id);
      if !uninstalled.success {
        return Ok(false);
      }
    }
    return Ok(true);
  }

  /** The delete step of `handleExisting`. */
  method DeleteExisting(client: PackageManagerClient, id: PackId) returns (r: Outcome<bool>)
    modifies client
    ensures client.OnlySent()
    ensures Run(r, client.trace) == DeleteSpec(client.server, id, old(client.trace))
  {
    var _ :- client.WaitForService();
    var deleted :- client.Delete(id);
    return Ok(deleted.success);
  }

  /** `handleExisting`, the same in both versions. */
  method HandleExisting(client: PackageManagerClient, behavior: ExistingPackageBehavior, id: PackId) returns (r: Outcome<bool>)
    modifies client
    ensures client.OnlySent()
    ensures Run(r, client.trace) == HandleExistingSpec(client.server, behavior, id, old(client.trace))
  {
    if behavior == ExistingPackageBehavior.IGNORE || behavior == ExistingPackageBehavior.OVERWRITE || behavior == SKIP {
      return Ok(true);
    }
    if behavior == UNINSTALL {
      var uninstalled :- UninstallIfInstalled(client, id);
      if !uninstalled {
        return Ok(false);
      }
    }
    r := DeleteExisting(client, id);
  }

  /** Wait, ask whether the package exists and handle it if so. */
  method CheckExisting(client: PackageManagerClient, behavior: ExistingPackageBehavior, id: PackId) returns (r: Outcome<Existing>)
    modifies client
    ensures client.OnlySent()
    ensures Run(r, client.trace) == CheckExistingSpec(client.server, behavior, id, old(client.trace))
  {
    var _ :- client.WaitForService();
    var found :- client.ExistsOnServer(id);
    if !found {
      return Ok(Absent);
    }
    var ok :- HandleExisting(client, behavior, id);
    return Ok(Handled(ok));
  }

  /** Wait, upload, and install what was uploaded. */
  method UploadAndInstall(client: PackageManagerClient, behavior: ExistingPackageBehavior,
                          options: PackageInstallOptions, id: PackId) returns (r: Outcome<Option<DetailedResponse>>)
    modifies client
    ensures client.OnlySent()
    ensures Run(r, client.trace) == UploadAndInstallSpec(client.server, behavior, options, id, old(client.trace))
  {
    var _ :- client.WaitForService();
    var uploaded :- client.Upload(id, behavior == ExistingPackageBehavior.OVERWRITE);
    if !uploaded.success {
      return Ok(None);
    }
    var installed :- client.Install(id, options);
    return Ok(Some(installed));
  }

  /** `Execution.doExecute` of the newer callable. */
  method DoExecute(client: PackageManagerClient, behavior: ExistingPackageBehavior,
                   options: PackageInstallOptions, id: PackId) returns (r: Outcome<BuildResult>)
    modifies client
    ensures client.OnlySent()
    ensures Run(r, client.trace) == DoExecuteSpec(client.server, behavior, options, id, old(client.trace))
  {
    var existing :- CheckExisting(client, behavior, id);
    if existing == Handled(false) {
      return Ok(FAILURE);
    } else if existing == Handled(true) && behavior == SKIP {
      return Ok(SUCCESS);
    }
    var installed :- UploadAndInstall(client, behavior, options, id);
    if installed.None? {
      return Ok(FAILURE);
    }
    return Ok(InstallResult(installed.value));
  }

  /** Every run extends the log it started from. */
  lemma DoExecuteExtends(s: Server, behavior: ExistingPackageBehavior, options: PackageInstallOptions, id: PackId, h: seq<Call>)
    ensures var run := DoExecuteSpec(s, behavior, options, id, h);
      |h| < |run.trace| && run.trace[..|h|] == h
  {
    var c := CheckExistingSpec(s, behavior, id, h);
    CheckExistingWaits(s, behavior, id, h);
    if c.out.Ok? && c.out.value != Handled(false) && !(c.out.value == Handled(true) && behavior == SKIP) {
      UploadAndInstallWaits(s, behavior, options, id, c.trace);
      ChainedRuns(c, UploadAndInstallSpec(s, behavior, options, id, c.trace), h);
    }
  }

  /** A run started from the log another run left extends the first run's starting log by both runs' requests. */
  lemma ChainedRuns<T, U>(c: Run<T>, u: Run<U>, h: seq<Call>)
    requires Extends(c, h) && Extends(u, c.trace)
    ensures Extends(u, h) && NewCalls(u, h) == NewCalls(c, h) + NewCalls(u, c.trace)
  {
    assert u.trace == c.trace + NewCalls(u, c.trace);
    assert c.trace == h + NewCalls(c, h);
  }

  /**
   * A package found on the server under SKIP is left alone: SUCCESS, and
   * nothing sent after the existence check (no uninstall, delete, upload or
   * install).
   */
  lemma SkipExistingNeverUploads(s: Server, options: PackageInstallOptions, id: PackId, h: seq<Call>)
    requires s.waitForService(h + [WaitForService]).Ok?
    requires s.existsOnServer(h + [WaitForService, ExistsOnServer(id)]) == Ok(true)
    ensures DoExecuteSpec(s, SKIP, options, id, h) == Run(Ok(SUCCESS), h + [WaitForService, ExistsOnServer(id)])
  {
    assert h + [WaitForService] + [ExistsOnServer(id)] == h + [WaitForService, ExistsOnServer(id)];
  }

  /** A package not on the server is uploaded whatever the behaviour, SKIP included. */
  lemma AbsentPackageIsUploaded(s: Server, behavior: ExistingPackageBehavior, options: PackageInstallOptions,
                                id: PackId, h: seq<Call>)
    requires s.waitForService(h + [WaitForService]).Ok?
    requires s.existsOnServer(h + [WaitForService, ExistsOnServer(id)]) == Ok(false)
    requires s.waitForService(h + [WaitForService, ExistsOnServer(id), WaitForService]).Ok?
    ensures var run := DoExecuteSpec(s, behavior, options, id, h);
      |run.trace| > |h| + 3 && run.trace[..|h| + 4] ==
        h + [WaitForService, ExistsOnServer(id), WaitForService, Upload(id, behavior == ExistingPackageBehavior.OVERWRITE)]
  {
    var t := h + [WaitForService, ExistsOnServer(id)];
    assert h + [WaitForService] + [ExistsOnServer(id)] == t;
    assert t + [WaitForService] == h + [WaitForService, ExistsOnServer(id), WaitForService];
  }

  /** A request that changes or probes the server. */
  predicate NeedsService(c: Call) {
    c.ExistsOnServer? || c.ListPackage? || c.Delete? || c.Upload?
  }

  /** Every existence check, listing, delete and upload in `calls` directly follows a `waitForService`. */
  ghost predicate WaitsBeforeRequests(calls: seq<Call>) {
    (calls != [] ==> !NeedsService(calls[0])) &&
    forall i, j :: 0 <= i < j < |calls| && j == i + 1 && NeedsService(calls[j]) ==> calls[i] == WaitForService
  }

  lemma WaitsAppend(a: seq<Call>, b: seq<Call>)
    requires WaitsBeforeRequests(a) && WaitsBeforeRequests(b)
    requires b != [] ==> b[0] == WaitForService
    ensures WaitsBeforeRequests(a + b)
    ensures NoUploadOrInstall(a) && NoUploadOrInstall(b) ==> NoUploadOrInstall(a + b)
  {
    if a == [] {
      assert a + b == b;
    }
    forall i, j | 0 <= i < j < |a + b| && j == i + 1 && NeedsService((a + b)[j])
      ensures (a + b)[i] == WaitForService
    {
      if j < |a| {
        assert (a + b)[j] == a[j] && (a + b)[i] == a[i];
      } else if j > |a| {
        assert (a + b)[j] == b[j - |a|] && (a + b)[i] == b[i - |a|];
      }
    }
  }

  /** A request of the handling phase: anything but an upload or an install. */
  predicate NoUploadOrInstall(calls: seq<Call>) {
    forall k :: 0 <= k < |calls| ==> !calls[k].Upload? && !calls[k].Install?
  }

  lemma UninstallWaits(s: Server, id: PackId, h: seq<Call>)
    ensures var run := UninstallIfInstalledSpec(s, id, h);
      Extends(run, h) && WaitsBeforeRequests(NewCalls(run, h)) && NewCalls(run, h)[0] == WaitForService &&
      NoUploadOrInstall(NewCalls(run, h))
  {
    var run := UninstallIfInstalledSpec(s, id, h);
    var n := NewCalls(run, h);
    assert n == [WaitForService] || n == [WaitForService, ListPackage(id)] ||
           n == [WaitForService, ListPackage(id), Uninstall(id)];
  }

  lemma DeleteWaits(s: Server, id: PackId, h: seq<Call>)
    ensures var run := DeleteSpec(s, id, h);
      Extends(run, h) && WaitsBeforeRequests(NewCalls(run, h)) && NewCalls(run, h)[0] == WaitForService &&
      NoUploadOrInstall(NewCalls(run, h))
  {
    var run := DeleteSpec(s, id, h);
    var n := NewCalls(run, h);
    assert n == [WaitForService] || n == [WaitForService, Delete(id)];
  }

  lemma HandleExistingWaits(s: Server, behavior: ExistingPackageBehavior, id: PackId, h: seq<Call>)
    ensures var run := HandleExistingSpec(s, behavior, id, h);
      Extends(run, h) && WaitsBeforeRequests(NewCalls(run, h)) &&
      (NewCalls(run, h) != [] ==> NewCalls(run, h)[0] == WaitForService) && NoUploadOrInstall(NewCalls(run, h))
  {
    var run := HandleExistingSpec(s, behavior, id, h);
    if behavior == DELETE {
      DeleteWaits(s, id, h);
      assert run == DeleteSpec(s, id, h);
    } else if behavior == UNINSTALL {
      var u := UninstallIfInstalledSpec(s, id, h);
      UninstallWaits(s, id, h);
      if u.out == Ok(true) {
        var d := DeleteSpec(s, id, u.trace);
        DeleteWaits(s, id, u.trace);
        assert run == d;
        var nu := NewCalls(u, h);
        var nd := NewCalls(d, u.trace);
        assert u.trace == h + nu;
        assert d.trace == u.trace + nd;
        WaitsAppend(nu, nd);
        assert NewCalls(run, h) == nu + nd;
      } else {
        assert run == u;
      }
    }
  }

  lemma CheckExistingWaits(s: Server, behavior: ExistingPackageBehavior, id: PackId, h: seq<Call>)
    ensures var run := CheckExistingSpec(s, behavior, id, h);
      Extends(run, h) && WaitsBeforeRequests(NewCalls(run, h)) && NewCalls(run, h)[0] == WaitForService &&
      NoUploadOrInstall(NewCalls(run, h)) && |run.trace| > |h|
  {
    var run := CheckExistingSpec(s, behavior, id, h);
    var t := h + [WaitForService, ExistsOnServer(id)];
    assert h + [WaitForService] + [ExistsOnServer(id)] == t;
    if s.waitForService(h + [WaitForService]).Ok? && s.existsOnServer(t) == Ok(true) {
      HandleExistingWaits(s, behavior, id, t);
      var he := HandleExistingSpec(s, behavior, id, t);
      WaitsAppend([WaitForService, ExistsOnServer(id)], NewCalls(he, t));
      assert he.trace == t + NewCalls(he, t);
      assert run.trace == he.trace;
      assert NewCalls(run, h) == [WaitForService, ExistsOnServer(id)] + NewCalls(he, t);
    }
  }

  lemma UploadAndInstallWaits(s: Server, behavior: ExistingPackageBehavior, options: PackageInstallOptions, id: PackId, h: seq<Call>)
    ensures var run := UploadAndInstallSpec(s, behavior, options, id, h);
      Extends(run, h) && WaitsBeforeRequests(NewCalls(run, h)) && NewCalls(run, h)[0] == WaitForService
  {
    var run := UploadAndInstallSpec(s, behavior, options, id, h);
    var up := Upload(id, behavior == ExistingPackageBehavior.OVERWRITE);
    var n := NewCalls(run, h);
    assert n == [WaitForService] || n == [WaitForService, up] || n == [WaitForService, up, Install(id, options)];
  }

  /**
   * Every existence check, listing, delete and upload of a deployment comes
   * directly after a `waitForService`.
   */
  lemma DoExecuteWaitsBeforeRequests(s: Server, behavior: ExistingPackageBehavior, options: PackageInstallOptions,
                                     id: PackId, h: seq<Call>)
    ensures var run := DoExecuteSpec(s, behavior, options, id, h);
      Extends(run, h) && WaitsBeforeRequests(NewCalls(run, h))
  {
    var c := CheckExistingSpec(s, behavior, id, h);
    CheckExistingWaits(s, behavior, id, h);
    if c.out.Ok? && c.out.value != Handled(false) && !(c.out.value == Handled(true) && behavior == SKIP) {
      UploadAndInstallWaits(s, behavior, options, id, c.trace);
      var u := UploadAndInstallSpec(s, behavior, options, id, c.trace);
      WaitsAppend(NewCalls(c, h), NewCalls(u, c.trace));
      ChainedRuns(c, u, h);
    }
  }

  /**
   * The upload of a deployment is its only upload and the install its only
   * install: after the handling phase come a wait, the upload with `replace`
   * set exactly when the behaviour is OVERWRITE, and the install, each only
   * if the one before it went through.
   */
  lemma DoExecuteShape(s: Server, behavior: ExistingPackageBehavior, options: PackageInstallOptions,
                       id: PackId, h: seq<Call>)
    ensures var run := DoExecuteSpec(s, behavior, options, id, h);
      var c := CheckExistingSpec(s, behavior, id, h);
      var up := Upload(id, behavior == ExistingPackageBehavior.OVERWRITE);
      Extends(c, h) && NoUploadOrInstall(NewCalls(c, h)) && |c.trace| > |h| &&
      (run.trace == c.trace || run.trace == c.trace + [WaitForService] || run.trace == c.trace + [WaitForService, up] ||
       run.trace == c.trace + [WaitForService, up, Install(id, options)])
  {
    CheckExistingWaits(s, behavior, id, h);
    var c := CheckExistingSpec(s, behavior, id, h);
    var up := Upload(id, behavior == ExistingPackageBehavior.OVERWRITE);
    assert c.trace + [WaitForService] + [up] == c.trace + [WaitForService, up];
    assert c.trace + [WaitForService, up] + [Install(id, options)] == c.trace + [WaitForService, up, Install(id, options)];
  }

  /** Every upload a deployment sends is of this package, replacing exactly when the behaviour is OVERWRITE. */
  lemma UploadReplacesIffOverwrite(s: Server, behavior: ExistingPackageBehavior, options: PackageInstallOptions,
                                   id: PackId, h: seq<Call>)
    ensures var run := DoExecuteSpec(s, behavior, options, id, h);
      |h| <= |run.trace| &&
      forall k :: |h| <= k < |run.trace| && run.trace[k].Upload? ==>
        run.trace[k] == Upload(id, behavior == ExistingPackageBehavior.OVERWRITE)
  {
    DoExecuteShape(s, behavior, options, id, h);
    var run := DoExecuteSpec(s, behavior, options, id, h);
    var c := CheckExistingSpec(s, behavior, id, h);
    forall k | |h| <= k < |run.trace| && run.trace[k].Upload?
      ensures run.trace[k] == Upload(id, behavior == ExistingPackageBehavior.OVERWRITE)
    {
    }
  }

  /** The delete of `handleExisting` is its last request, and it went through whenever the handling did. */
  lemma HandledMeansDeleted(s: Server, behavior: ExistingPackageBehavior, id: PackId, h: seq<Call>)
    requires behavior == UNINSTALL || behavior == DELETE
    ensures var run := HandleExistingSpec(s, behavior, id, h);
      run.out == Ok(true) ==>
        |run.trace| > 0 && run.trace[|run.trace| - 1] == Delete(id) &&
        s.delete(run.trace).Ok? && s.delete(run.trace).value.success
  {
  }

  /** The upload, if any, follows either an existence check that found nothing or a delete that succeeded. */
  predicate UploadJustified(s: Server, id: PackId, h: seq<Call>, trace: seq<Call>, k: nat)
    requires |h| + 2 <= |trace| && k < |trace|
  {
    (trace[|h| + 1] == ExistsOnServer(id) && s.existsOnServer(trace[..|h| + 2]) == Ok(false)) ||
    (2 <= k && trace[k - 2] == Delete(id) && s.delete(trace[..k - 1]).Ok? && s.delete(trace[..k - 1]).value.success)
  }

  /**
   * Under UNINSTALL and DELETE a package is uploaded only if it was not on
   * the server, or if its delete, sent just before the wait that precedes
   * the upload, succeeded.
   */
  lemma UploadOnlyAfterSuccessfulDelete(s: Server, behavior: ExistingPackageBehavior, options: PackageInstallOptions,
                                        id: PackId, h: seq<Call>)
    requires behavior == UNINSTALL || behavior == DELETE
    ensures var run := DoExecuteSpec(s, behavior, options, id, h);
      forall k :: |h| <= k < |run.trace| && run.trace[k].Upload? ==>
        |h| + 2 <= |run.trace| && UploadJustified(s, id, h, run.trace, k)
  {
    DoExecuteShape(s, behavior, options, id, h);
    var run := DoExecuteSpec(s, behavior, options, id, h);
    var c := CheckExistingSpec(s, behavior, id, h);
    var t := h + [WaitForService, ExistsOnServer(id)];
    assert h + [WaitForService] + [ExistsOnServer(id)] == t;
    forall k | |h| <= k < |run.trace| && run.trace[k].Upload?
      ensures |h| + 2 <= |run.trace| && UploadJustified(s, id, h, run.trace, k)
    {
      if k < |c.trace| {
        assert false;
      }
      assert k == |c.trace| + 1;
      assert c.out.Ok? && c.out.value != Handled(false);
      assert s.waitForService(h + [WaitForService]).Ok?;
      assert s.existsOnServer(t).Ok?;
      if s.existsOnServer(t) == Ok(true) {
        HandledMeansDeleted(s, behavior, id, t);
        assert run.trace[..k - 1] == c.trace;
      } else {
        assert c.trace == t;
        assert run.trace[..|h| + 2] == t;
      }
    }
  }

  /**
   * The result is UNSTABLE exactly when the last request is the install and
   * the server reported it successful but with errors; whenever the last
   * request is an answered install, that answer decides the result.
   */
  lemma InstallDecidesResult(s: Server, behavior: ExistingPackageBehavior, options: PackageInstallOptions,
                             id: PackId, h: seq<Call>)
    ensures var run := DoExecuteSpec(s, behavior, options, id, h);
      var last := run.trace[|run.trace| - 1];
      |run.trace| > 0 &&
      (last == Install(id, options) && s.install(run.trace).Ok? ==> run.out == Ok(InstallResult(s.install(run.trace).value))) &&
      (run.out == Ok(UNSTABLE) <==>
        last == Install(id, options) && s.install(run.trace).Ok? &&
        s.install(run.trace).value.success && s.install(run.trace).value.hasErrors)
  {
    DoExecuteShape(s, behavior, options, id, h);
    var run := DoExecuteSpec(s, behavior, options, id, h);
    var c := CheckExistingSpec(s, behavior, id, h);
    assert c.trace[|c.trace| - 1] == NewCalls(c, h)[|c.trace| - 1 - |h|];
  }

  /** The older callable's deployment after login: the same steps, a Boolean result, and no SKIP shortcut. */
  function LegacyDeploySpec(s: Server, behavior: ExistingPackageBehavior, options: PackageInstallOptions,
                            id: PackId, h: seq<Call>): Run<bool> {
    var c := CheckExistingSpec(s, behavior, id, h);
    match c.out
    case Exc(e) => Run(Exc(e), c.trace)
    case Ok(existing) =>
      if existing == Handled(false) then Run(Ok(false), c.trace)
      else
        var u := UploadAndInstallSpec(s, behavior, options, id, c.trace);
        match u.out
        case Exc(e) => Run(Exc(e), u.trace)
        case Ok(None) => Run(Ok(false), u.trace)
        case Ok(Some(d)) => Run(Ok(d.success), u.trace)
  }

  /** What the older callable reads from its builder (`PackageDeploymentRequest`). */
  datatype LegacyRequest = LegacyRequest(
    options: PackageInstallOptions,
    behavior: ExistingPackageBehavior,
    sshKeyLogin: bool,
    username: Option<string>,
    password: Option<string>)

  function ToSignerKey(k: SshUserPrivateKey): SignerKey {
    SignerKey(k.username, k.privateKey, k.passphrase)
  }

  /** The signer holding every SSH key of the credentials store, in lookup order. */
  function SignerKeys(keys: seq<SshUserPrivateKey>): (r: seq<SignerKey>)
    ensures |r| == |keys|
    ensures forall i :: 0 <= i < |keys| ==> r[i] == ToSignerKey(keys[i])
  {
    seq(|keys|, i requires 0 <= i < |keys| => ToSignerKey(keys[i]))
  }

  /** The login request of the older callable. */
  function LegacyLoginCall(request: LegacyRequest, keys: seq<SshUserPrivateKey>): Call {
    if request.sshKeyLogin then LoginSigner(request.username, SignerKeys(keys))
    else LoginPassword(request.username, request.password)
  }

  /**
   * `login` of the older callable: with SSH-key login, every stored key is
   * added to a signer, in order, and the user logs in with the signer;
   * otherwise with the user name and password.
   */
  method LegacyLogin(client: PackageManagerClient, request: LegacyRequest, keys: seq<SshUserPrivateKey>)
    returns (r: Outcome<bool>)
    modifies client
    ensures client.Sent(LegacyLoginCall(request, keys))
    ensures r == client.server.login(client.trace)
  {
    if request.sshKeyLogin {
      var signer: seq<SignerKey> := [];
      for i := 0 to |keys|
        invariant signer == SignerKeys(keys[..i])
      {
        signer := signer + [ToSignerKey(keys[i])];
      }
      assert keys[..|keys|] == keys;
      r := client.LoginSigner(request.username, signer);
    } else {
      r := client.LoginPassword(request.username, request.password);
    }
  }

  /**
   * `invoke` of the older callable over a new client: log in and deploy;
   * false on a refused login and on any exception. `h` is the log of the
   * new client, which starts empty.
   */
  function LegacyInvokeSpec(s: Server, request: LegacyRequest, keys: seq<SshUserPrivateKey>, id: PackId): (bool, seq<Call>) {
    var t := [LegacyLoginCall(request, keys)];
    match s.login(t)
    case Exc(_) => (false, t)
    case Ok(false) => (false, t)
    case Ok(true) =>
      var d := LegacyDeploySpec(s, request.behavior, request.options, id, t);
      (d.out == Ok(true), d.trace)
  }

  /**
   * `invoke` of the older callable: a client is made, pointed at the server
   * and logged in; the deployment runs only after a successful login; every
   * exception becomes false; the HTTP client is closed on every path.
   */
  method LegacyInvoke(server: Server, request: LegacyRequest, keys: seq<SshUserPrivateKey>, baseUrl: Option<string>,
                      id: PackId, requestTimeout: i64, serviceTimeout: i64) returns (ok: bool, client: PackageManagerClient)
    ensures fresh(client) && client.closed && client.server == server
    ensures client.baseUrl == baseUrl && client.requestTimeout == requestTimeout && client.serviceTimeout == serviceTimeout
    ensures (ok, client.trace) == LegacyInvokeSpec(server, request, keys, id)
  {
    client := new PackageManagerClient(server);
    client.SetBaseUrl(baseUrl);
    client.SetRequestTimeout(requestTimeout);
    client.SetServiceTimeout(serviceTimeout);
    ok := false;
    var loggedIn := LegacyLogin(client, request, keys);
    assert client.trace == [LegacyLoginCall(request, keys)];
    if loggedIn == Ok(true) {
      var deployed := UploadIfLoggedIn(client, request, id);
      ok := deployed == Ok(true);
    }
    client.Close();
  }

  /** The deployment steps of the older `invoke`, once logged in. */
  method UploadIfLoggedIn(client: PackageManagerClient, request: LegacyRequest, id: PackId) returns (r: Outcome<bool>)
    modifies client
    ensures client.OnlySent()
    ensures Run(r, client.trace) == LegacyDeploySpec(client.server, request.behavior, request.options, id, old(client.trace))
  {
    var existing :- CheckExisting(client, request.behavior, id);
    if existing == Handled(false) {
      return Ok(false);
    }
    var installed :- UploadAndInstall(client, request.behavior, request.options, id);
    if installed.None? {
      return Ok(false);
    }
    return Ok(installed.value.success);
  }

  /** A refused or failed login ends the older callable with false and no package request. */
  lemma LegacyFailedLoginStops(s: Server, request: LegacyRequest, keys: seq<SshUserPrivateKey>, id: PackId)
    requires s.login([LegacyLoginCall(request, keys)]) != Ok(true)
    ensures LegacyInvokeSpec(s, request, keys, id) == (false, [LegacyLoginCall(request, keys)])
  {
  }

  /**
   * The older callable answers true exactly when its last request is an
   * install that the server reported successful: there is no UNSTABLE level.
   */
  lemma LegacyResultIsInstallSuccess(s: Server, request: LegacyRequest, keys: seq<SshUserPrivateKey>, id: PackId)
    ensures var (ok, trace) := LegacyInvokeSpec(s, request, keys, id);
      |trace| > 0 &&
      (ok <==> trace[|trace| - 1] == Install(id, request.options) && s.install(trace).Ok? && s.install(trace).value.success)
  {
    var t := [LegacyLoginCall(request, keys)];
    if s.login(t) == Ok(true) {
      DoExecuteShape(s, request.behavior, request.options, id, t);
      var c := CheckExistingSpec(s, request.behavior, id, t);
      assert c.trace[|c.trace| - 1] == NewCalls(c, t)[|c.trace| - 1 - |t|];
    }
  }
}
