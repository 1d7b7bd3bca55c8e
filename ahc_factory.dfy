/**
 * `GraniteAHCFactory`: the global factory of HTTP clients. It keeps three
 * timeouts that the administrator can set and copies them into every client
 * it makes; for a password-login configuration it also attaches a
 * preemptive Basic-authentication realm (section 2 of RFC 7617), defaulting
 * a missing user to "anonymous".
 */
module AhcFactory {
  import opened JavaLang

  datatype AuthScheme = BASIC

  /** The credentials realm attached to a client. */
  datatype Realm = Realm(principal: string, password: Option<string>, usePreemptiveAuth: bool, scheme: AuthScheme)

  /** What the realm decision reads from a client configuration. */
  datatype LoginView = LoginView(signatureLogin: bool, username: Option<string>, password: Option<string>)

  /** The settings a new client is built with. */
  datatype ClientSettings = ClientSettings(
    connectionTimeoutInMs: i32,
    idleConnectionTimeoutInMs: i32,
    requestTimeoutInMs: i32,
    realm: Option<Realm>)

  const ANONYMOUS: string := "anonymous"

  /** A Java string that is null or empty. */
  predicate NullOrEmpty(s: Option<string>) {
    s.None? || s.value == ""
  }

  /**
   * The realm of `newInstance(config)`: none for a null configuration or a
   * signature login; otherwise preemptive Basic with the configured user, or
   * "anonymous" when that is null or empty, in which case a null or empty
   * password becomes "anonymous" too. A configured user keeps its password
   * as given, even a null or empty one.
   */
  function RealmFor(config: Option<LoginView>): (r: Option<Realm>)
    ensures r.Some? <==> config.Some? && !config.value.signatureLogin
    ensures r.Some? ==> r.value.usePreemptiveAuth && r.value.scheme == BASIC && r.value.principal != ""
    ensures r.Some? && !NullOrEmpty(config.value.username) ==>
      r.value.principal == config.value.username.value && r.value.password == config.value.password
    ensures r.Some? && NullOrEmpty(config.value.username) ==>
      r.value.principal == ANONYMOUS && !NullOrEmpty(r.value.password)
    ensures r.Some? && NullOrEmpty(config.value.username) && !NullOrEmpty(config.value.password) ==>
      r.value.password == config.value.password
  {
    match config
    case None => None
    case Some(view) =>
      if view.signatureLogin then None
      else
        var user := if NullOrEmpty(view.username) then ANONYMOUS else view.username.value;
        var pass := if NullOrEmpty(view.username) && NullOrEmpty(view.password) then Some(ANONYMOUS) else view.password;
        Some(Realm(user, pass, true, BASIC))
  }

  /** A blank user and password log in as anonymous/anonymous; a set user with no password keeps the null. */
  lemma RealmExamples()
    ensures RealmFor(Some(LoginView(false, None, None))) == Some(Realm(ANONYMOUS, Some(ANONYMOUS), true, BASIC))
    ensures RealmFor(Some(LoginView(false, Some("admin"), None))) == Some(Realm("admin", None, true, BASIC))
    ensures RealmFor(Some(LoginView(false, Some(""), Some("secret")))) == Some(Realm(ANONYMOUS, Some("secret"), true, BASIC))
    ensures RealmFor(Some(LoginView(true, Some("admin"), Some("admin")))) == None
  {
  }

  class GraniteAHCFactory {
    var connectionTimeoutInMs: i32
    var idleConnectionTimeoutInMs: i32
    var requestTimeoutInMs: i32

    /** Starts from the HTTP client library's defaults, which are parameters here. */
    constructor (defaultConnectionTimeoutInMs: i32, defaultIdleConnectionTimeoutInMs: i32, defaultRequestTimeoutInMs: i32)
      ensures connectionTimeoutInMs == defaultConnectionTimeoutInMs
      ensures idleConnectionTimeoutInMs == defaultIdleConnectionTimeoutInMs
      ensures requestTimeoutInMs == defaultRequestTimeoutInMs
    {
      connectionTimeoutInMs := defaultConnectionTimeoutInMs;
      idleConnectionTimeoutInMs := defaultIdleConnectionTimeoutInMs;
      requestTimeoutInMs := defaultRequestTimeoutInMs;
    }

    method SetConnectionTimeoutInMs(value: i32)
      modifies this
      ensures connectionTimeoutInMs == value
      ensures idleConnectionTimeoutInMs == old(idleConnectionTimeoutInMs) && requestTimeoutInMs == old(requestTimeoutInMs)
    {
      connectionTimeoutInMs := value;
    }

    method SetIdleConnectionTimeoutInMs(value: i32)
      modifies this
      ensures idleConnectionTimeoutInMs == value
      ensures connectionTimeoutInMs == old(connectionTimeoutInMs) && requestTimeoutInMs == old(requestTimeoutInMs)
    {
      idleConnectionTimeoutInMs := value;
    }

    method SetRequestTimeoutInMs(value: i32)
      modifies this
      ensures requestTimeoutInMs == value
      ensures connectionTimeoutInMs == old(connectionTimeoutInMs) && idleConnectionTimeoutInMs == old(idleConnectionTimeoutInMs)
    {
      requestTimeoutInMs := value;
    }

    /** `newInstance()`: the factory's three timeouts and no realm. */
    method NewInstance() returns (s: ClientSettings)
      ensures s.connectionTimeoutInMs == connectionTimeoutInMs
      ensures s.idleConnectionTimeoutInMs == idleConnectionTimeoutInMs
      ensures s.requestTimeoutInMs == requestTimeoutInMs
      ensures s.realm.None?
    {
      s := ClientSettings(connectionTimeoutInMs, idleConnectionTimeoutInMs, requestTimeoutInMs, None);
    }

    /** `newInstance(config)`: the same timeouts, and the realm the configuration calls for. */
    method NewInstanceFor(config: Option<LoginView>) returns (s: ClientSettings)
      ensures s.connectionTimeoutInMs == connectionTimeoutInMs
      ensures s.idleConnectionTimeoutInMs == idleConnectionTimeoutInMs
      ensures s.requestTimeoutInMs == requestTimeoutInMs
      ensures s.realm == RealmFor(config)
    {
      var realm: Option<Realm> := None;
      if config.Some? {
        if !config.value.signatureLogin {
          var username := config.value.username;
          var password := config.value.password;
          if NullOrEmpty(username) {
            username := Some(ANONYMOUS);
            if NullOrEmpty(password) {
              password := Some(ANONYMOUS);
            }
          }
          realm := Some(Realm(username.value, password, true, BASIC));
        }
      }
      s := ClientSettings(connectionTimeoutInMs, idleConnectionTimeoutInMs, requestTimeoutInMs, realm);
    }
  }
}
