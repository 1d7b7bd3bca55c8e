/**
 * `invoke` of the newer deployment and download callables: run the action
 * through `GraniteClientExecutor.execute` and turn any exception, a refused
 * login included, into a build result.
 */
module Callables {
  import opened JavaLang
  import opened PackIds
  import opened BuildResults
  import opened Configuration
  import opened Packman
  import opened Deployment
  import opened Downloads
  import opened AhcFactory
  import opened ClientExecutor

  /** The build result of a deployment run: FAILURE for any exception. */
  function DeployResult(r: Outcome<JobResult>): BuildResult {
    if r.Ok? && r.value.Built? then r.value.result else FAILURE
  }

  /** The build result of a download run: UNSTABLE for an exception when errors are ignored, FAILURE otherwise. */
  function DownloadResult(r: Outcome<JobResult>, ignoreErrors: bool): BuildResult {
    if r.Ok? && r.value.Built? then r.value.result
    else if ignoreErrors then UNSTABLE
    else FAILURE
  }

  /** `PackageDeploymentCallable.invoke`. */
  method DeployInvoke(factory: GraniteAHCFactory, server: Server, config: GraniteClientConfig, env: Environment,
                      id: PackId, options: PackageInstallOptions, behavior: ExistingPackageBehavior)
    returns (result: BuildResult, client: PackageManagerClient)
    ensures fresh(client) && client.closed
    ensures var run := ExecuteSpec(server, DeployJob(behavior, options, id), config, env);
      client.trace == run.trace && result == DeployResult(run.out)
  {
    var r, settings;
    r, settings, client := Execute(factory, server, DeployJob(behavior, options, id), config, env);
    result := if r.Ok? && r.value.Built? then r.value.result else FAILURE;
  }

  /** `PackageDownloadCallable.invoke`. */
  method DownloadInvoke(factory: GraniteAHCFactory, server: Server, config: GraniteClientConfig, env: Environment,
                        ids: seq<PackId>, ignoreErrors: bool, identify: Identify)
    returns (result: BuildResult, client: PackageManagerClient)
    ensures fresh(client) && client.closed
    ensures var run := ExecuteSpec(server, DownloadJob(ids, ignoreErrors, identify), config, env);
      client.trace == run.trace && result == DownloadResult(run.out, ignoreErrors)
  {
    var r, settings;
    r, settings, client := Execute(factory, server, DownloadJob(ids, ignoreErrors, identify), config, env);
    if r.Ok? && r.value.Built? {
      result := r.value.result;
    } else if ignoreErrors {
      result := UNSTABLE;
    } else {
      result := FAILURE;
    }
  }

  /**
   * A deployment build step is SUCCESS only when the login was accepted and
   * the deployment itself came to SUCCESS; a refused login is FAILURE.
   */
  lemma DeploySuccessNeedsLogin(s: Server, config: GraniteClientConfig, env: Environment,
                                id: PackId, options: PackageInstallOptions, behavior: ExistingPackageBehavior)
    ensures var login := ConfigLoginSpec(s, config, env);
      var run := ExecuteSpec(s, DeployJob(behavior, options, id), config, env);
      (DeployResult(run.out) == SUCCESS <==>
        login.out == Ok(true) && DoExecuteSpec(s, behavior, options, id, login.trace).out == Ok(SUCCESS)) &&
      (login.out != Ok(true) ==> DeployResult(run.out) == FAILURE)
  {
    ActionRunsIffLoginAccepted(s, DeployJob(behavior, options, id), config, env);
  }

  /**
   * With errors ignored a download build step never fails outright: missing
   * packages, refused logins and exceptions all come to UNSTABLE at worst.
   * Without, it is SUCCESS or UNSTABLE only when the loop itself ran to its
   * end after an accepted login.
   */
  lemma DownloadIgnoringErrorsNeverFails(s: Server, config: GraniteClientConfig, env: Environment,
                                         ids: seq<PackId>, ignoreErrors: bool, identify: Identify)
    ensures var login := ConfigLoginSpec(s, config, env);
      var result := DownloadResult(ExecuteSpec(s, DownloadJob(ids, ignoreErrors, identify), config, env).out, ignoreErrors);
      (ignoreErrors ==> result != FAILURE) &&
      (!ignoreErrors && result != FAILURE ==>
        login.out == Ok(true) && DownloadSpec(s, ids, ignoreErrors, identify, login.trace, SUCCESS).out == Ok(result))
  {
    var login := ConfigLoginSpec(s, config, env);
    ActionRunsIffLoginAccepted(s, DownloadJob(ids, ignoreErrors, identify), config, env);
    if login.out == Ok(true) {
      FailureOnlyFromMissingPackage(s, ids, ignoreErrors, identify, login.trace, SUCCESS);
    }
  }
}
