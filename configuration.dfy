/**
 * The configuration values the builders hand to the deployment and client
 * code: the two string-to-enum mappings of the deploy builders, the install
 * options value object, timeout normalisation and the client configuration.
 */
module Configuration {
  import opened JavaLang

  /** The access-control handling values the plugin can select. */
  datatype ACHandling = IGNORE | MERGE | OVERWRITE | CLEAR

  /** What to do when the package already exists on the server. */
  datatype ExistingPackageBehavior = IGNORE | UNINSTALL | DELETE | OVERWRITE | SKIP

  /** `keyword.equalsIgnoreCase(value)` with a value that may be null. */
  predicate Names(keyword: string, value: Option<string>) {
    value.Some? && EqualsIgnoreCase(keyword, value.value)
  }

  /** A string equal, ignoring case, to one keyword is not equal to a keyword of another length or first letter. */
  lemma KeywordsExclusive(k1: string, k2: string, value: Option<string>)
    requires k1 != [] && k2 != []
    requires |k1| != |k2| || k1[0] != k2[0]
    requires 'a' <= k1[0] <= 'z' && 'a' <= k2[0] <= 'z'
    ensures !(Names(k1, value) && Names(k2, value))
  {
  }

  /**
   * `getPackageInstallOptions`' mapping of the access-control handling string:
   * "merge", "overwrite" and "clear", compared ignoring case, select their
   * value; null and every other string select IGNORE.
   */
  function AcHandlingOf(value: Option<string>): (h: ACHandling)
    ensures h == ACHandling.MERGE <==> Names("merge", value)
    ensures h == ACHandling.OVERWRITE <==> Names("overwrite", value)
    ensures h == ACHandling.CLEAR <==> Names("clear", value)
    ensures h == ACHandling.IGNORE <==> !Names("merge", value) && !Names("overwrite", value) && !Names("clear", value)
  {
    KeywordsExclusive("merge", "overwrite", value);
    KeywordsExclusive("merge", "clear", value);
    KeywordsExclusive("overwrite", "clear", value);
    if value.None? then ACHandling.IGNORE
    else if EqualsIgnoreCase("merge", value.value) then ACHandling.MERGE
    else if EqualsIgnoreCase("overwrite", value.value) then ACHandling.OVERWRITE
    else if EqualsIgnoreCase("clear", value.value) then ACHandling.CLEAR
    else ACHandling.IGNORE
  }

  /**
   * `getExistingPackageBehavior` of the newer builder: "uninstall", "delete",
   * "overwrite" and "skip", compared ignoring case, select their value; null
   * and every other string select IGNORE.
   */
  function ExistingPackageBehaviorOf(value: Option<string>): (b: ExistingPackageBehavior)
    ensures b == UNINSTALL <==> Names("uninstall", value)
    ensures b == DELETE <==> Names("delete", value)
    ensures b == ExistingPackageBehavior.OVERWRITE <==> Names("overwrite", value)
    ensures b == SKIP <==> Names("skip", value)
    ensures b == ExistingPackageBehavior.IGNORE <==>
      !Names("uninstall", value) && !Names("delete", value) && !Names("overwrite", value) && !Names("skip", value)
  {
    KeywordsExclusive("uninstall", "delete", value);
    KeywordsExclusive("uninstall", "overwrite", value);
    KeywordsExclusive("uninstall", "skip", value);
    KeywordsExclusive("delete", "overwrite", value);
    KeywordsExclusive("delete", "skip", value);
    KeywordsExclusive("overwrite", "skip", value);
    if value.None? then ExistingPackageBehavior.IGNORE
    else if EqualsIgnoreCase("uninstall", value.value) then UNINSTALL
    else if EqualsIgnoreCase("delete", value.value) then DELETE
    else if EqualsIgnoreCase("overwrite", value.value) then ExistingPackageBehavior.OVERWRITE
    else if EqualsIgnoreCase("skip", value.value) then SKIP
    else ExistingPackageBehavior.IGNORE
  }

  /**
   * `getExistingPackageBehavior` of the older builder, which knows no SKIP:
   * "skip" falls through to IGNORE like any unknown string.
   */
  function LegacyExistingPackageBehaviorOf(value: Option<string>): (b: ExistingPackageBehavior)
    ensures b != SKIP
    ensures b == UNINSTALL <==> Names("uninstall", value)
    ensures b == DELETE <==> Names("delete", value)
    ensures b == ExistingPackageBehavior.OVERWRITE <==> Names("overwrite", value)
    ensures b == ExistingPackageBehavior.IGNORE <==> !Names("uninstall", value) && !Names("delete", value) && !Names("overwrite", value)
  {
    KeywordsExclusive("uninstall", "delete", value);
    KeywordsExclusive("uninstall", "overwrite", value);
    KeywordsExclusive("delete", "overwrite", value);
    if value.None? then ExistingPackageBehavior.IGNORE
    else if EqualsIgnoreCase("uninstall", value.value) then UNINSTALL
    else if EqualsIgnoreCase("delete", value.value) then DELETE
    else if EqualsIgnoreCase("overwrite", value.value) then ExistingPackageBehavior.OVERWRITE
    else ExistingPackageBehavior.IGNORE
  }

  /** The two mappings differ only where the newer one selects SKIP. */
  lemma BehaviorMappingsAgreeExceptSkip(value: Option<string>)
    ensures ExistingPackageBehaviorOf(value) != SKIP ==>
      LegacyExistingPackageBehaviorOf(value) == ExistingPackageBehaviorOf(value)
    ensures ExistingPackageBehaviorOf(value) == SKIP ==> LegacyExistingPackageBehaviorOf(value) == ExistingPackageBehavior.IGNORE
  {
  }

  /** Upper-case spellings are accepted; the older mapping ignores "skip". */
  lemma MappingExamples()
    ensures AcHandlingOf(Some("MERGE")) == ACHandling.MERGE
    ensures AcHandlingOf(Some("merge-preserve")) == ACHandling.IGNORE
    ensures ExistingPackageBehaviorOf(Some("Skip")) == SKIP
    ensures LegacyExistingPackageBehaviorOf(Some("Skip")) == ExistingPackageBehavior.IGNORE
    ensures ExistingPackageBehaviorOf(None) == ExistingPackageBehavior.IGNORE
  {
    assert EqualsIgnoreCase("merge", "MERGE");
    assert EqualsIgnoreCase("skip", "Skip");
    assert !EqualsIgnoreCase("merge", "merge-preserve");
  }

  /** `PackageInstallOptions`: an immutable value object. */
  datatype PackageInstallOptions = PackageInstallOptions(recursive: bool, autosave: i32, acHandling: ACHandling)

  /**
   * The `PackageInstallOptions` constructor: `recursive` and `autosave` are
   * stored as given, with no range check, and a null handling becomes IGNORE.
   */
  function NewPackageInstallOptions(recursive: bool, autosave: i32, acHandling: Option<ACHandling>): (o: PackageInstallOptions)
    ensures o.recursive == recursive && o.autosave == autosave
    ensures acHandling.Some? ==> o.acHandling == acHandling.value
    ensures acHandling.None? ==> o.acHandling == ACHandling.IGNORE
  {
    PackageInstallOptions(recursive, autosave, if acHandling.Some? then acHandling.value else ACHandling.IGNORE)
  }

  /**
   * The builders' `getPackageInstallOptions`: the flags as configured and the
   * handling mapped from its string, which is never null by the time it
   * reaches the constructor.
   */
  function GetPackageInstallOptions(recursive: bool, autosave: i32, acHandling: Option<string>): (o: PackageInstallOptions)
    ensures o.recursive == recursive && o.autosave == autosave
    ensures o.acHandling != ACHandling.IGNORE ==> acHandling.Some?
    ensures o.acHandling == AcHandlingOf(acHandling)
  {
    NewPackageInstallOptions(recursive, autosave, Some(AcHandlingOf(acHandling)))
  }

  /** `t > 0L ? t : -1L`: every non-positive timeout means "no timeout" and is written -1. */
  function NormalizeTimeout(t: i64): (r: i64)
    ensures r > 0 || r == -1
    ensures t > 0 ==> r == t
    ensures t <= 0 ==> r == -1
  {
    if t > 0 then t else -1
  }

  /** Normalising twice changes nothing. */
  lemma NormalizeTimeoutIdempotent(t: i64)
    ensures NormalizeTimeout(NormalizeTimeout(t)) == NormalizeTimeout(t)
  {
  }

  /** The credentials a credentials id resolves to (the lookup itself is not modelled). */
  datatype SshUserPrivateKey = SshUserPrivateKey(username: string, privateKey: string, passphrase: Option<string>)

  datatype Credentials =
    | SshPrivateKey(key: SshUserPrivateKey)
    | UsernamePassword(username: string, password: string)
    | OtherCredentials

  /** The newer `GraniteClientConfig`; fields are final. */
  datatype GraniteClientConfig = GraniteClientConfig(
    baseUrl: Option<string>,
    credentialsId: Option<string>,
    requestTimeout: i64,
    serviceTimeout: i64,
    credentials: Option<Credentials>)

  /** A stored timeout is positive or exactly -1. */
  predicate TimeoutsNormal(c: GraniteClientConfig) {
    (c.requestTimeout > 0 || c.requestTimeout == -1) && (c.serviceTimeout > 0 || c.serviceTimeout == -1)
  }

  /**
   * The `GraniteClientConfig` constructor. `resolved` is what the credentials
   * lookup returns for `credentialsId`. The base URL and id are kept as given
   * and both timeouts are normalised.
   */
  function NewClientConfig(baseUrl: Option<string>, credentialsId: Option<string>, requestTimeout: i64,
                           serviceTimeout: i64, resolved: Option<Credentials>): (c: GraniteClientConfig)
    ensures TimeoutsNormal(c)
    ensures c.baseUrl == baseUrl && c.credentialsId == credentialsId && c.credentials == resolved
    ensures requestTimeout > 0 ==> c.requestTimeout == requestTimeout
    ensures serviceTimeout > 0 ==> c.serviceTimeout == serviceTimeout
    ensures requestTimeout <= 0 ==> c.requestTimeout == -1
    ensures serviceTimeout <= 0 ==> c.serviceTimeout == -1
  {
    GraniteClientConfig(baseUrl, credentialsId, NormalizeTimeout(requestTimeout), NormalizeTimeout(serviceTimeout), resolved)
  }

  /** `isSignatureLogin`: the resolved credentials are an SSH private key. */
  function IsSignatureLogin(c: GraniteClientConfig): (b: bool)
    ensures b <==> c.credentials.Some? && c.credentials.value.SshPrivateKey?
    ensures c.credentials.None? ==> !b
  {
    match c.credentials
    case Some(SshPrivateKey(_)) => true
    case _ => false
  }

  /**
   * The older client configuration, built by the older parameter definition
   * from its own fields with both timeouts normalised.
   */
  datatype LegacyClientConfig = LegacyClientConfig(
    baseUrl: Option<string>,
    username: Option<string>,
    password: Option<string>,
    signatureLogin: bool,
    requestTimeout: i64,
    serviceTimeout: i64)

  /** The older `getGraniteClientConfig`. */
  function LegacyGetClientConfig(baseUrl: Option<string>, username: Option<string>, password: Option<string>,
                                 signatureLogin: bool, requestTimeout: i64, serviceTimeout: i64): (c: LegacyClientConfig)
    ensures c.baseUrl == baseUrl && c.username == username && c.password == password
    ensures c.signatureLogin == signatureLogin
    ensures c.requestTimeout > 0 || c.requestTimeout == -1
    ensures c.serviceTimeout > 0 || c.serviceTimeout == -1
    ensures requestTimeout > 0 ==> c.requestTimeout == requestTimeout
    ensures serviceTimeout > 0 ==> c.serviceTimeout == serviceTimeout
  {
    LegacyClientConfig(baseUrl, username, password, signatureLogin,
                       NormalizeTimeout(requestTimeout), NormalizeTimeout(serviceTimeout))
  }
}
