/**
 * `GraniteClientExecutor`: every remote action of the plugin runs through
 * `execute`, which makes a package-manager client for the configured server,
 * logs in with the configured credentials and only then hands the client to
 * the action; the HTTP client is closed on every path. The credentials store
 * and PEM key parsing are not part of this model: the defaults the factory
 * supplies and whether an SSH key can be read are inputs (`Environment`).
 */
module ClientExecutor {
  import opened JavaLang
  import opened PackIds
  import opened BuildResults
  import opened Configuration
  import opened Packman
  import opened Deployment
  import opened Downloads
  import opened AhcFactory

  /** What the executor takes from outside the configuration. */
  datatype Environment = Environment(
    /** `getDefaultCredentials()` of the factory, used when the configuration has none. */
    defaultCredentials: Option<Credentials>,
    /** Whether `getKeyFromCredentials` reads a key out of the stored SSH credentials (null otherwise). */
    keyReadable: SshUserPrivateKey -> bool)

  /** `LOGIN_HANDLER`: the signature login is accepted on 405 or 200. */
  predicate LoginAccepted(statusCode: int) {
    statusCode == 405 || statusCode == 200
  }

  /** Java string concatenation of a possibly null string. */
  function Shown(s: Option<string>): string {
    if s.Some? then s.value else "null"
  }

  const SIGNATURE_LOGIN_QUERY: string := "?sling:authRequestLogin=Signature&j_validate=true"

  const SIGNATURE_LOGIN_FAILED: string := "Failed to login using HTTP Signature authentication."

  /** The URL the signed login request is sent to. */
  function ChallengeUrl(baseUrl: Option<string>): string {
    Shown(baseUrl) + SIGNATURE_LOGIN_QUERY
  }

  /** The message of the exception `execute` throws when the login is refused. */
  function LoginFailedMessage(baseUrl: Option<string>): string {
    "Failed to login to " + Shown(baseUrl)
  }

  /** The credentials `doLogin` uses: the configured ones, or the factory's defaults when there are none. */
  function EffectiveCredentials(credentials: Option<Credentials>, env: Environment): Option<Credentials> {
    if credentials.Some? then credentials else env.defaultCredentials
  }

  /**
   * `doLoginSignature`: no request and false when the key cannot be read;
   * otherwise one signed GET, whose status decides, and which throws when it
   * fails or (with a positive service timeout) does not complete in time.
   */
  function SignatureLoginSpec(s: Server, key: SshUserPrivateKey, env: Environment, baseUrl: Option<string>,
                              serviceTimeout: i64, h: seq<Call>): Run<bool> {
    if !env.keyReadable(key) then Run(Ok(false), h)
    else
      var t := h + [SignatureChallenge(ChallengeUrl(baseUrl), key.username)];
      match s.challenge(t)
      case Exc(_) => Run(Exc(SIGNATURE_LOGIN_FAILED), t)
      case Ok(response) =>
        if serviceTimeout > 0 && response.completedAfterMs > serviceTimeout as int then Run(Exc(SIGNATURE_LOGIN_FAILED), t)
        else Run(Ok(LoginAccepted(response.statusCode)), t)
  }

  /** `doLoginPOST`: the client's own login with a user name and password. */
  function PasswordLoginSpec(s: Server, username: string, password: string, h: seq<Call>): Run<bool> {
    var t := h + [LoginPassword(Some(username), Some(password))];
    Run(s.login(t), t)
  }

  /**
   * `doLogin`: an SSH key logs in by signature, a user name and password by
   * the client's login, and anything else as admin/admin.
   */
  function LoginSpec(s: Server, credentials: Option<Credentials>, env: Environment, baseUrl: Option<string>,
                     serviceTimeout: i64, h: seq<Call>): Run<bool> {
    match EffectiveCredentials(credentials, env)
    case Some(SshPrivateKey(key)) => SignatureLoginSpec(s, key, env, baseUrl, serviceTimeout, h)
    case Some(UsernamePassword(username, password)) => PasswordLoginSpec(s, username, password, h)
    case _ => PasswordLoginSpec(s, "admin", "admin", h)
  }

  method DoLoginSignature(client: PackageManagerClient, key: SshUserPrivateKey, env: Environment) returns (r: Outcome<bool>)
    modifies client
    ensures client.OnlySent()
    ensures Run(r, client.trace) ==
            SignatureLoginSpec(client.server, key, env, client.baseUrl, client.serviceTimeout, old(client.trace))
  {
    if !env.keyReadable(key) {
      return Ok(false);
    }
    var response := client.SignedGet(ChallengeUrl(client.baseUrl), key.username);
    if response.Exc? {
      return Exc(SIGNATURE_LOGIN_FAILED);
    }
    if client.serviceTimeout > 0 && response.value.completedAfterMs > client.serviceTimeout as int {
      return Exc(SIGNATURE_LOGIN_FAILED);
    }
    return Ok(LoginAccepted(response.value.statusCode));
  }

  method DoLogin(client: PackageManagerClient, credentials: Option<Credentials>, env: Environment) returns (r: Outcome<bool>)
    modifies client
    ensures client.OnlySent()
    ensures Run(r, client.trace) ==
            LoginSpec(client.server, credentials, env, client.baseUrl, client.serviceTimeout, old(client.trace))
  {
    var creds := if credentials.Some? then credentials else env.defaultCredentials;
    match creds {
      case Some(SshPrivateKey(key)) =>
        r := DoLoginSignature(client, key, env);
      case Some(UsernamePassword(username, password)) =>
        r := client.LoginPassword(Some(username), Some(password));
      case _ =>
        r := client.LoginPassword(Some("admin"), Some("admin"));
    }
  }

  /** An action handed a logged-in client (a `PackageManagerClientCallable`). */
  datatype Job =
    | DeployJob(behavior: ExistingPackageBehavior, options: PackageInstallOptions, packId: PackId)
    | DownloadJob(packIds: seq<PackId>, ignoreErrors: bool, identify: Identify)
    | ListJob(query: Option<string>)

  /** What an action returns: a build result, or a package listing. */
  datatype JobResult = Built(result: BuildResult) | Listed(listing: ListResponse)

  function AsBuilt(run: Run<BuildResult>): Run<JobResult> {
    match run.out
    case Exc(e) => Run(Exc(e), run.trace)
    case Ok(b) => Run(Ok(Built(b)), run.trace)
  }

  /** The action's own requests after the log `h`. */
  function JobSpec(s: Server, job: Job, h: seq<Call>): Run<JobResult> {
    match job
    case DeployJob(behavior, options, id) => AsBuilt(DoExecuteSpec(s, behavior, options, id, h))
    case DownloadJob(ids, ignoreErrors, identify) => AsBuilt(DownloadSpec(s, ids, ignoreErrors, identify, h, SUCCESS))
    case ListJob(query) =>
      var t := h + [ListQuery(query)];
      match s.list(t)
      case Exc(e) => Run(Exc(e), t)
      case Ok(listing) => Run(Ok(Listed(listing)), t)
  }

  method RunJob(client: PackageManagerClient, job: Job) returns (r: Outcome<JobResult>)
    modifies client
    ensures client.OnlySent()
    ensures Run(r, client.trace) == JobSpec(client.server, job, old(client.trace))
  {
    match job {
      case DeployJob(behavior, options, id) =>
        var b :- Deployment.DoExecute(client, behavior, options, id);
        r := Ok(Built(b));
      case DownloadJob(ids, ignoreErrors, identify) =>
        var b :- Downloads.DoExecute(client, ids, ignoreErrors, identify);
        r := Ok(Built(b));
      case ListJob(query) =>
        var listing :- client.ListQuery(query);
        r := Ok(Listed(listing));
    }
  }

  /** The login of a new client for `config`. */
  function ConfigLoginSpec(s: Server, config: GraniteClientConfig, env: Environment): Run<bool> {
    LoginSpec(s, config.credentials, env, config.baseUrl, config.serviceTimeout, [])
  }

  /**
   * `execute` over a new client: log in, then run the action; a refused
   * login throws "Failed to login to <base URL>" and runs nothing.
   */
  function ExecuteSpec(s: Server, job: Job, config: GraniteClientConfig, env: Environment): Run<JobResult> {
    var login := ConfigLoginSpec(s, config, env);
    match login.out
    case Exc(e) => Run(Exc(e), login.trace)
    case Ok(accepted) =>
      if !accepted then Run(Exc(LoginFailedMessage(config.baseUrl)), login.trace)
      else JobSpec(s, job, login.trace)
  }

  /** A new client pointed at the configured server, with the configured timeouts and nothing sent. */
  method NewClient(server: Server, config: GraniteClientConfig) returns (client: PackageManagerClient)
    ensures fresh(client) && client.server == server && client.trace == [] && !client.closed
    ensures client.baseUrl == config.baseUrl
    ensures client.requestTimeout == config.requestTimeout && client.serviceTimeout == config.serviceTimeout
  {
    client := new PackageManagerClient(server);
    client.SetBaseUrl(config.baseUrl);
    client.SetRequestTimeout(config.requestTimeout);
    client.SetServiceTimeout(config.serviceTimeout);
  }

  /**
   * `execute`: the HTTP client comes from the factory's `newInstance()`, so it
   * carries the factory's timeouts and no realm; the package-manager client
   * over it gets the configured base URL and timeouts; it is closed on every
   * path.
   */
  method Execute(factory: GraniteAHCFactory, server: Server, job: Job, config: GraniteClientConfig, env: Environment)
    returns (r: Outcome<JobResult>, settings: ClientSettings, client: PackageManagerClient)
    ensures settings.realm.None?
    ensures settings.connectionTimeoutInMs == factory.connectionTimeoutInMs
    ensures settings.idleConnectionTimeoutInMs == factory.idleConnectionTimeoutInMs
    ensures settings.requestTimeoutInMs == factory.requestTimeoutInMs
    ensures fresh(client) && client.closed && client.server == server && client.baseUrl == config.baseUrl
    ensures client.requestTimeout == config.requestTimeout && client.serviceTimeout == config.serviceTimeout
    ensures Run(r, client.trace) == ExecuteSpec(server, job, config, env)
  {
    settings := factory.NewInstance();
    client := NewClient(server, config);
    var loggedIn := DoLogin(client, config.credentials, env);
    if loggedIn.Exc? {
      r := Exc(loggedIn.error);
    } else if !loggedIn.value {
      r := Exc(LoginFailedMessage(config.baseUrl));
    } else {
      r := RunJob(client, job);
    }
    client.Close();
  }

  /** `checkLogin`: only the login, over a new client that is closed afterwards. */
  method CheckLogin(factory: GraniteAHCFactory, server: Server, config: GraniteClientConfig, env: Environment)
    returns (r: Outcome<bool>, client: PackageManagerClient)
    ensures fresh(client) && client.closed && client.server == server && client.baseUrl == config.baseUrl
    ensures Run(r, client.trace) == ConfigLoginSpec(server, config, env)
  {
    var settings := factory.NewInstance();
    client := NewClient(server, config);
    r := DoLogin(client, config.credentials, env);
    client.Close();
  }

  /** The one request a login sends, if any. */
  function LoginCall(credentials: Option<Credentials>, env: Environment, baseUrl: Option<string>): Option<Call> {
    match EffectiveCredentials(credentials, env)
    case Some(SshPrivateKey(key)) =>
      if env.keyReadable(key) then Some(SignatureChallenge(ChallengeUrl(baseUrl), key.username)) else None
    case Some(UsernamePassword(username, password)) => Some(LoginPassword(Some(username), Some(password)))
    case _ => Some(LoginPassword(Some("admin"), Some("admin")))
  }

  /**
   * A login sends at most one request, chosen by the credentials: a signed
   * GET to the base URL's signature-login address for a readable SSH key, a
   * login with the stored user name and password, or admin/admin when there
   * are no usable credentials. It sends nothing only for an unreadable key,
   * and then it is refused without an exception.
   */
  lemma LoginRequests(s: Server, credentials: Option<Credentials>, env: Environment, baseUrl: Option<string>,
                      serviceTimeout: i64, h: seq<Call>)
    ensures var run := LoginSpec(s, credentials, env, baseUrl, serviceTimeout, h);
      var c := LoginCall(credentials, env, baseUrl);
      (c.None? ==> run == Run(Ok(false), h)) &&
      (c.Some? ==> run.trace == h + [c.value])
    ensures LoginCall(credentials, env, baseUrl).None? <==>
            (EffectiveCredentials(credentials, env).Some? && EffectiveCredentials(credentials, env).value.SshPrivateKey? &&
             !env.keyReadable(EffectiveCredentials(credentials, env).value.key))
  {
  }

  /**
   * A signature login with a readable key succeeds exactly when the signed
   * request completed, within the service timeout when one is set, with
   * status 200 or 405; it throws exactly when the request failed or timed out.
   */
  lemma SignatureLoginAcceptedIff(s: Server, key: SshUserPrivateKey, env: Environment, baseUrl: Option<string>,
                                  serviceTimeout: i64, h: seq<Call>)
    requires env.keyReadable(key)
    ensures var run := SignatureLoginSpec(s, key, env, baseUrl, serviceTimeout, h);
      var answer := s.challenge(run.trace);
      var inTime := answer.Ok? && (serviceTimeout <= 0 || answer.value.completedAfterMs <= serviceTimeout as int);
      (run.out == Ok(true) <==> inTime && (answer.value.statusCode == 200 || answer.value.statusCode == 405)) &&
      (run.out.Exc? <==> !inTime) &&
      (run.out.Exc? ==> run.out.error == SIGNATURE_LOGIN_FAILED)
  {
  }

  /** With no configured credentials, the login is the one the factory's default credentials give. */
  lemma NullCredentialsUseDefaults(s: Server, env: Environment, baseUrl: Option<string>, serviceTimeout: i64, h: seq<Call>)
    ensures LoginSpec(s, None, env, baseUrl, serviceTimeout, h) == LoginSpec(s, env.defaultCredentials, env, baseUrl, serviceTimeout, h)
    ensures env.defaultCredentials.None? ==>
            LoginSpec(s, None, env, baseUrl, serviceTimeout, h) == PasswordLoginSpec(s, "admin", "admin", h)
  {
  }

  /**
   * The action runs exactly when the login was accepted, and then after the
   * login's requests; otherwise `execute` throws — with "Failed to login to"
   * and the base URL when the login was refused — and sends nothing after the
   * login.
   */
  lemma ActionRunsIffLoginAccepted(s: Server, job: Job, config: GraniteClientConfig, env: Environment)
    ensures var login := ConfigLoginSpec(s, config, env);
      var run := ExecuteSpec(s, job, config, env);
      (login.out == Ok(true) ==> run == JobSpec(s, job, login.trace)) &&
      (login.out != Ok(true) ==> run.out.Exc? && run.trace == login.trace && |run.trace| <= 1) &&
      (login.out == Ok(false) ==> run.out == Exc(LoginFailedMessage(config.baseUrl)))
  {
    LoginRequests(s, config.credentials, env, config.baseUrl, config.serviceTimeout, []);
  }

  /** The action's requests only extend the log. */
  lemma {:induction false} JobExtends(s: Server, job: Job, h: seq<Call>)
    ensures Extends(JobSpec(s, job, h), h)
  {
    match job {
      case DeployJob(behavior, options, id) =>
        DoExecuteExtends(s, behavior, options, id, h);
      case DownloadJob(ids, ignoreErrors, identify) =>
        DownloadExtends(s, ids, ignoreErrors, identify, h, SUCCESS);
      case ListJob(query) =>
    }
  }

  /** A deployment or download answers a build result, a listing a listing. */
  lemma JobResultKind(s: Server, job: Job, config: GraniteClientConfig, env: Environment)
    ensures var run := ExecuteSpec(s, job, config, env);
      run.out.Ok? ==> (run.out.value.Built? <==> !job.ListJob?)
  {
  }

  /**
   * Nothing reaches the package manager before the login: every request
   * `execute` sends after the first is the action's, and the first is the
   * login's whenever the login sends one.
   */
  lemma LoginComesFirst(s: Server, job: Job, config: GraniteClientConfig, env: Environment)
    ensures var run := ExecuteSpec(s, job, config, env);
      var c := LoginCall(config.credentials, env, config.baseUrl);
      (c.Some? ==> |run.trace| >= 1 && run.trace[0] == c.value) &&
      (c.None? ==> run.trace == [])
  {
    var login := ConfigLoginSpec(s, config, env);
    LoginRequests(s, config.credentials, env, config.baseUrl, config.serviceTimeout, []);
    ActionRunsIffLoginAccepted(s, job, config, env);
    if login.out == Ok(true) {
      var run := JobSpec(s, job, login.trace);
      JobExtends(s, job, login.trace);
      assert run.trace[..|login.trace|] == login.trace;
      assert run.trace[0] == login.trace[0];
    }
  }
}
