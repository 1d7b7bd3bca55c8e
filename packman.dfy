/**
 * The package-manager client the plugin drives. The client library and the
 * server are not part of this model: a `Server` value fixes what the server
 * answers to each request, as a function of every request it has received so
 * far (the request being answered included), so that one server can answer
 * the same request differently over time. The client keeps that request log
 * in `trace`, which the properties of the deployment and download code are
 * stated over.
 */
module Packman {
  import opened JavaLang
  import opened PackIds
  import opened Configuration

  /** A value, or the exception a call threw instead (its message). */
  datatype Outcome<+T> = Ok(value: T) | Exc(error: string) {
    predicate IsFailure() {
      Exc?
    }

    function PropagateFailure<U>(): Outcome<U>
      requires Exc?
    {
      Exc(error)
    }

    function Extract(): T
      requires Ok?
    {
      value
    }
  }

  datatype SimpleResponse = SimpleResponse(success: bool, message: string)

  datatype DetailedResponse = DetailedResponse(success: bool, hasErrors: bool, message: string)

  /** One entry of a package listing. */
  datatype ListResult = ListResult(packId: PackId, hasSnapshot: bool, needsRewrap: bool)

  /** A listing; its result list may be null. */
  datatype ListResponse = ListResponse(results: Option<seq<ListResult>>)

  /** Where a download was written and how many bytes it holds. */
  datatype DownloadResponse = DownloadResponse(content: string, length: i64)

  /** The HTTP status of a response and how long after the request it completed. */
  datatype HttpResponse = HttpResponse(statusCode: int, completedAfterMs: nat)

  /** A key added to a request signer. */
  datatype SignerKey = SignerKey(username: string, privateKey: string, passphrase: Option<string>)

  /** A request the client sends. */
  datatype Call =
    | WaitForService
    | ExistsOnServer(packId: PackId)
    | ListPackage(packId: PackId)
    | ListQuery(query: Option<string>)
    | Uninstall(packId: PackId)
    | Delete(packId: PackId)
    | Upload(packId: PackId, replace: bool)
    | Install(packId: PackId, options: PackageInstallOptions)
    | Download(packId: PackId)
    | LoginPassword(username: Option<string>, password: Option<string>)
    | LoginSigner(username: Option<string>, keys: seq<SignerKey>)
    | SignatureChallenge(url: string, keyUser: string)

  /** The server's answers; each is given the request log ending with the request it answers. */
  datatype Server = Server(
    waitForService: seq<Call> -> Outcome<()>,
    existsOnServer: seq<Call> -> Outcome<bool>,
    list: seq<Call> -> Outcome<ListResponse>,
    uninstall: seq<Call> -> Outcome<DetailedResponse>,
    delete: seq<Call> -> Outcome<SimpleResponse>,
    upload: seq<Call> -> Outcome<SimpleResponse>,
    install: seq<Call> -> Outcome<DetailedResponse>,
    download: seq<Call> -> Outcome<DownloadResponse>,
    login: seq<Call> -> Outcome<bool>,
    challenge: seq<Call> -> Outcome<HttpResponse>)

  class PackageManagerClient {
    const server: Server
    var baseUrl: Option<string>
    var requestTimeout: i64
    var serviceTimeout: i64
    /** Every request sent through this client, oldest first. */
    var trace: seq<Call>
    /** Whether the underlying HTTP client has been closed. */
    var closed: bool

    /** The request `c` was sent and nothing else about the client changed. */
    twostate predicate Sent(c: Call)
      reads this
    {
      trace == old(trace) + [c] && baseUrl == old(baseUrl) && requestTimeout == old(requestTimeout) &&
      serviceTimeout == old(serviceTimeout) && closed == old(closed)
    }

    /** Only requests were sent, and none before `old(trace)` was forgotten. */
    twostate predicate OnlySent()
      reads this
    {
      |old(trace)| <= |trace| && trace[..|old(trace)|] == old(trace) && baseUrl == old(baseUrl) &&
      requestTimeout == old(requestTimeout) && serviceTimeout == old(serviceTimeout) && closed == old(closed)
    }

    /** A client over a new HTTP client: nothing sent, not closed, no base URL or timeouts yet. */
    constructor (server: Server)
      ensures this.server == server && trace == [] && !closed
      ensures baseUrl.None? && requestTimeout == -1 && serviceTimeout == -1
    {
      this.server := server;
      baseUrl := None;
      requestTimeout := -1;
      serviceTimeout := -1;
      trace := [];
      closed := false;
    }

    method SetBaseUrl(url: Option<string>)
      modifies this
      ensures baseUrl == url
      ensures trace == old(trace) && closed == old(closed)
      ensures requestTimeout == old(requestTimeout) && serviceTimeout == old(serviceTimeout)
    {
      baseUrl := url;
    }

    method SetRequestTimeout(t: i64)
      modifies this
      ensures requestTimeout == t
      ensures trace == old(trace) && closed == old(closed)
      ensures baseUrl == old(baseUrl) && serviceTimeout == old(serviceTimeout)
    {
      requestTimeout := t;
    }

    method SetServiceTimeout(t: i64)
      modifies this
      ensures serviceTimeout == t
      ensures trace == old(trace) && closed == old(closed)
      ensures baseUrl == old(baseUrl) && requestTimeout == old(requestTimeout)
    {
      serviceTimeout := t;
    }

    /** Closes the underlying HTTP client. */
    method Close()
      modifies this
      ensures closed
      ensures trace == old(trace) && baseUrl == old(baseUrl)
      ensures requestTimeout == old(requestTimeout) && serviceTimeout == old(serviceTimeout)
    {
      closed := true;
    }

    method WaitForService() returns (r: Outcome<()>)
      modifies this
      ensures Sent(Call.WaitForService)
      ensures r == server.waitForService(trace)
    {
      trace := trace + [Call.WaitForService];
      r := server.waitForService(trace);
    }

    method ExistsOnServer(id: PackId) returns (r: Outcome<bool>)
      modifies this
      ensures Sent(Call.ExistsOnServer(id))
      ensures r == server.existsOnServer(trace)
    {
      trace := trace + [Call.ExistsOnServer(id)];
      r := server.existsOnServer(trace);
    }

    /** `list(packId, false)`: the listing of one package. */
    method List(id: PackId) returns (r: Outcome<ListResponse>)
      modifies this
      ensures Sent(Call.ListPackage(id))
      ensures r == server.list(trace)
    {
      trace := trace + [Call.ListPackage(id)];
      r := server.list(trace);
    }

    /** `list(query)`: the packages a free-text query (which may be null) selects. */
    method ListQuery(query: Option<string>) returns (r: Outcome<ListResponse>)
      modifies this
      ensures Sent(Call.ListQuery(query))
      ensures r == server.list(trace)
    {
      trace := trace + [Call.ListQuery(query)];
      r := server.list(trace);
    }

    method Uninstall(id: PackId) returns (r: Outcome<DetailedResponse>)
      modifies this
      ensures Sent(Call.Uninstall(id))
      ensures r == server.uninstall(trace)
    {
      trace := trace + [Call.Uninstall(id)];
      r := server.uninstall(trace);
    }

    method Delete(id: PackId) returns (r: Outcome<SimpleResponse>)
      modifies this
      ensures Sent(Call.Delete(id))
      ensures r == server.delete(trace)
    {
      trace := trace + [Call.Delete(id)];
      r := server.delete(trace);
    }

    method Upload(id: PackId, replace: bool) returns (r: Outcome<SimpleResponse>)
      modifies this
      ensures Sent(Call.Upload(id, replace))
      ensures r == server.upload(trace)
    {
      trace := trace + [Call.Upload(id, replace)];
      r := server.upload(trace);
    }

    method Install(id: PackId, options: PackageInstallOptions) returns (r: Outcome<DetailedResponse>)
      modifies this
      ensures Sent(Call.Install(id, options))
      ensures r == server.install(trace)
    {
      trace := trace + [Call.Install(id, options)];
      r := server.install(trace);
    }

    method DownloadToDirectory(id: PackId) returns (r: Outcome<DownloadResponse>)
      modifies this
      ensures Sent(Call.Download(id))
      ensures r == server.download(trace)
    {
      trace := trace + [Call.Download(id)];
      r := server.download(trace);
    }

    method LoginPassword(username: Option<string>, password: Option<string>) returns (r: Outcome<bool>)
      modifies this
      ensures Sent(Call.LoginPassword(username, password))
      ensures r == server.login(trace)
    {
      trace := trace + [Call.LoginPassword(username, password)];
      r := server.login(trace);
    }

    method LoginSigner(username: Option<string>, keys: seq<SignerKey>) returns (r: Outcome<bool>)
      modifies this
      ensures Sent(Call.LoginSigner(username, keys))
      ensures r == server.login(trace)
    {
      trace := trace + [Call.LoginSigner(username, keys)];
      r := server.login(trace);
    }

    /** A signed GET sent through the underlying HTTP client. */
    method SignedGet(url: string, keyUser: string) returns (r: Outcome<HttpResponse>)
      modifies this
      ensures Sent(Call.SignatureChallenge(url, keyUser))
      ensures r == server.challenge(trace)
    {
      trace := trace + [Call.SignatureChallenge(url, keyUser)];
      r := server.challenge(trace);
    }
  }

  /** What a run of requests returned, and the request log after it. */
  datatype Run<+T> = Run(out: Outcome<T>, trace: seq<Call>)

  /** `waitForService` appended to `h`. */
  function WaitSpec(s: Server, h: seq<Call>): Run<()> {
    Run(s.waitForService(h + [WaitForService]), h + [WaitForService])
  }

  /** The run extends the log `h` it started from. */
  predicate Extends<T>(run: Run<T>, h: seq<Call>) {
    |h| <= |run.trace| && run.trace[..|h|] == h
  }

  /** The requests of a run after the log `h` it started from. */
  function NewCalls<T>(run: Run<T>, h: seq<Call>): seq<Call>
    requires |h| <= |run.trace|
  {
    run.trace[|h|..]
  }
}
