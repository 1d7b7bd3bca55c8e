# Granite client plugin for Jenkins — a verified model of its package decisions

This project models, in Dafny, the decision logic of the Jenkins plugin that
deploys and downloads content packages to and from Granite
servers through the package manager. The plugin ships two generations of the
same logic: the newer classes in `org.jenkinsci.plugins.graniteclient` and the
older ones in `net.adamcin.jenkins.granite`. Where the two are the same code,
one Dafny member models both; where they differ (the older behaviour mapping
knows no SKIP, the older deployment answers a Boolean and logs in by itself,
the older build steps fold Booleans), each version gets its own member, whose
name starts with `Legacy`.

What is modelled, module by module:

- `JavaLang`: the parts of `java.lang` the decisions depend on, with Java's
  semantics: `String.trim`, `String.split` (a separator-free string comes back
  whole, trailing empty strings are removed), the split on `\r?\n`, `String.join`,
  and `equalsIgnoreCase`.
- `BuildResults`: Jenkins' `Result` restricted to SUCCESS < UNSTABLE < FAILURE,
  with `combine` as worse-of.
- `PackIds`: package identities, the `group:name` family key, and the
  line-by-line parsing of identities (`listPackIds`, `getSelectedPackIds`).
- `PackIdFilters`: `DefaultPackIdFilter.includes` and `parse`.
- `Configuration`: the string-to-enum mappings of the deploy builders,
  `PackageInstallOptions`, `GraniteClientConfig` and timeout normalisation.
- `AhcFactory`: `GraniteAHCFactory`, its timeouts and the Basic realm of
  `newInstance(config)`.
- `Packman`: the package-manager client as a class whose answers come from a
  `Server` value, with the log of every request sent. It is the library's
  interface, not the plugin's code.
- `ClientExecutor`: `GraniteClientExecutor`, covering the login dispatch, the
  signature login, `execute` and `checkLogin`.
- `Deployment`: both `PackageDeploymentCallable`s, covering the existence check,
  `handleExisting`, the upload and the install.
- `Downloads`: the download-and-verify loop of `PackageDownloadCallable`.
- `Callables`: the `invoke` methods of the newer callables, which turn
  exceptions into build results.
- `BuilderText`: the builders' text fields, covering the base-URL lines and
  the filters map.
- `Selection`: `selectPackages`. Candidate files are sorted newest first, the
  first file of each identity is kept, the filter lines are matched, and the
  highest version of each family is kept.
- `DeployBuilder`: both `DeployPackagesBuilder.perform`s with their result
  folds. A ghost log records each deployment's base URL, identity and
  outcome. The plan is each base URL in turn with the packages of the
  selection made for it, in selection order. The log is a prefix of the plan,
  and all of it when the step returns true.
- `DownloadBuilder`: the older `DownloadPackagesBuilder`.
- `ChoiceParameter`: both `PackageChoiceParameterDefinition`s, covering the
  list filtering, the selected identities and the creation of values.

Remote calls are methods of `Packman.PackageManagerClient` that append to the
client's request log. Each of them is specified by a function of the log
before it: `XSpec(server, …, h)` returns a `Run(out, trace)`, and the plugin's
methods promise `Run(r, client.trace) == XSpec(…, old(client.trace))`. The
lemmas about the `XSpec` functions then state what the plugin promises: which
requests come in which order, and what result follows from which answers.

## Model

All source paths are relative to the repository root.

| member | source | states |
|---|---|---|
| `JavaLang.Trim` | src/main/java/org/jenkinsci/plugins/graniteclient/DeployPackagesBuilder.java:101-105 | `String.trim` as the getters use it: no longer than the input, and neither end of the result is a char up to U+0020 |
| `JavaLang.TrimEmptyIff` | src/main/java/org/jenkinsci/plugins/graniteclient/DeployPackagesBuilder.java:389 | a string trims to "" exactly when every char of it is at most U+0020, which is the blank-line test of the line loops |
| `JavaLang.TrimIdempotent` | src/main/java/org/jenkinsci/plugins/graniteclient/PackageChoiceParameterDefinition.java:277-283 | trimming a trimmed string changes nothing |
| `JavaLang.Split` | src/main/java/org/jenkinsci/plugins/graniteclient/DefaultPackIdFilter.java:70 | Java's `split(":")`: a string without ':' comes back whole ("" gives [""]), otherwise the pieces without their trailing empty ones; no piece holds the separator |
| `JavaLang.JoinPieces` | src/main/java/org/jenkinsci/plugins/graniteclient/DefaultPackIdFilter.java:70 | joining the raw pieces of a string with its separator gives the string back |
| `JavaLang.PiecesJoin` | src/main/java/org/jenkinsci/plugins/graniteclient/DefaultPackIdFilter.java:70 | the raw pieces of a join of separator-free strings are those strings |
| `JavaLang.SplitLosesOnlyTrailingSeparators` | src/main/java/org/jenkinsci/plugins/graniteclient/DefaultPackIdFilter.java:70 | the split pieces joined back are a prefix of the input, and what is missing is only separators |
| `JavaLang.SplitLines` | src/main/java/org/jenkinsci/plugins/graniteclient/DeployPackagesBuilder.java:388 | `split("\\r?\\n")`: a text without '\n' is one line, no line holds a '\n', and trailing empty lines are dropped |
| `JavaLang.SplitLinesJoin` | src/main/java/org/jenkinsci/plugins/graniteclient/PackageChoiceParameterDefinition.java:158 | splitting lines joined with "\n" gives the lines back, when no line holds '\n', only the last may end in '\r' and the last is not empty |
| `BuildResults.Combine` | src/main/java/org/jenkinsci/plugins/graniteclient/DeployPackagesBuilder.java:266 | `combine` is the worse of its two arguments: no better than either, and equal to one of them |
| `BuildResults.CombineCommutative` | src/main/java/org/jenkinsci/plugins/graniteclient/DeployPackagesBuilder.java:266 | the order of combining does not matter |
| `BuildResults.CombineAssociative` | src/main/java/org/jenkinsci/plugins/graniteclient/DeployPackagesBuilder.java:266 | combining is associative, so a fold may be regrouped |
| `BuildResults.CombineIdentity` | src/main/java/org/jenkinsci/plugins/graniteclient/PackageDownloadCallable.java:64 | SUCCESS is the neutral starting value of a fold |
| `BuildResults.FoldIsWorst` | src/main/java/org/jenkinsci/plugins/graniteclient/DeployPackagesBuilder.java:247-270 | the running result of a sequence of outcomes is the worst of them: every outcome is at least as good, it is one of them, and it is SUCCESS when there is none |
| `BuildResults.FoldAppend` | src/main/java/org/jenkinsci/plugins/graniteclient/DeployPackagesBuilder.java:247-270 | folding two runs one after the other combines their folds |
| `BuildResults.StartOf` | src/main/java/org/jenkinsci/plugins/graniteclient/DeployPackagesBuilder.java:238-241 | a build without a result counts as SUCCESS; otherwise its result is used |
| `PackIds.FamilyKeyCollision` | src/main/java/org/jenkinsci/plugins/graniteclient/DeployPackagesBuilder.java:336 | the key `group + ":" + name` is not injective: groups and names that hold ':' let two different families share a key, so the selection treats them as one |
| `PackIds.ParsedIds` | src/main/java/net/adamcin/jenkins/granite/DownloadPackagesBuilder.java:160-171 | the identities parsed from the lines are no more than the lines |
| `PackIds.ParsedIdsMembers` | src/main/java/net/adamcin/jenkins/granite/DownloadPackagesBuilder.java:160-171 | an identity is listed exactly when some line parses to it; lines that parse to nothing are dropped |
| `PackIds.ParsedIdsAppend` | src/main/java/org/jenkinsci/plugins/graniteclient/PackageChoiceParameterDefinition.java:153-165 | parsing keeps line order: it distributes over concatenation of the lines |
| `PackIds.ListParsed` | src/main/java/net/adamcin/jenkins/granite/DownloadPackagesBuilder.java:161-170 | the append loop produces exactly the parsed identities of the lines, in order |
| `PackIdFilters.Parse` | src/main/java/org/jenkinsci/plugins/graniteclient/DefaultPackIdFilter.java:66-78 | null gives the include-all filter; otherwise one, two or three segments of the trimmed string set the name, group and name, or all three, and any other count gives include-all (the older copy at net/.../DefaultPackIdFilter.java:35-47 is the same) |
| `PackIdFilters.IncludeAllIncludesEvery` | src/main/java/org/jenkinsci/plugins/graniteclient/DefaultPackIdFilter.java:38 | the include-all filter includes every identity |
| `PackIdFilters.ParseKeepsSegments` | src/main/java/org/jenkinsci/plugins/graniteclient/DefaultPackIdFilter.java:70-75 | no parsed segment holds ':'; unless the result is include-all, the segments joined with ':' are a prefix of the trimmed string and only colons follow |
| `PackIdFilters.ParseBlankIncludesAll` | src/main/java/org/jenkinsci/plugins/graniteclient/DefaultPackIdFilter.java:72 | a blank filter string, "" included, includes every identity: an empty segment imposes nothing |
| `PackIdFilters.ParseColonsIncludesAll` | src/main/java/org/jenkinsci/plugins/graniteclient/DefaultPackIdFilter.java:75 | a string of colons only, such as "::", splits to no segment and includes every identity |
| `PackIdFilters.ParseLiteralIncludesExactly` | src/main/java/org/jenkinsci/plugins/graniteclient/DefaultPackIdFilter.java:52-64 | a literal `group:name:version` includes exactly the identity it spells, by case-sensitive equality |
| `PackIdFilters.ParseWildcardsIncludeAnyGroupAndVersion` | src/main/java/org/jenkinsci/plugins/graniteclient/DefaultPackIdFilter.java:55-61 | `*:name:*` includes an identity exactly when its name matches, whatever its group and version |
| `PackIdFilters.ParseOneSegment` | src/main/java/org/jenkinsci/plugins/graniteclient/DefaultPackIdFilter.java:72 | a single segment constrains only the name |
| `PackIdFilters.ParseTwoSegments` | src/main/java/org/jenkinsci/plugins/graniteclient/DefaultPackIdFilter.java:73 | two segments constrain the group and the name, never the version |
| `PackIdFilters.ParseTrailingColonDropped` | src/main/java/org/jenkinsci/plugins/graniteclient/DefaultPackIdFilter.java:70 | `group:name:` parses as `group:name`, because split drops the trailing empty segment |
| `PackIdFilters.ParseFourSegmentsIncludesAll` | src/main/java/org/jenkinsci/plugins/graniteclient/DefaultPackIdFilter.java:75 | four or more segments fall back to the include-all filter |
| `Configuration.KeywordsExclusive` | src/main/java/org/jenkinsci/plugins/graniteclient/DeployPackagesBuilder.java:218-232 | a string that equals one keyword ignoring case equals no keyword of another length or first letter, so the order of the tests does not matter |
| `Configuration.AcHandlingOf` | src/main/java/org/jenkinsci/plugins/graniteclient/DeployPackagesBuilder.java:203-216 | "merge", "overwrite" and "clear", compared ignoring case, select their handling, and null or any other string selects IGNORE (the older copy at net/.../DeployPackagesBuilder.java:178-191 is the same) |
| `Configuration.ExistingPackageBehaviorOf` | src/main/java/org/jenkinsci/plugins/graniteclient/DeployPackagesBuilder.java:218-232 | "uninstall", "delete", "overwrite" and "skip", compared ignoring case, select their behaviour, and null or any other string selects IGNORE |
| `Configuration.LegacyExistingPackageBehaviorOf` | src/main/java/net/adamcin/jenkins/granite/DeployPackagesBuilder.java:193-205 | the older mapping recognises only "uninstall", "delete" and "overwrite"; "skip" selects IGNORE |
| `Configuration.BehaviorMappingsAgreeExceptSkip` | src/main/java/net/adamcin/jenkins/granite/DeployPackagesBuilder.java:193-205 | the two mappings agree on every string except those the newer one maps to SKIP, which the older maps to IGNORE |
| `Configuration.MappingExamples` | src/main/java/org/jenkinsci/plugins/graniteclient/DeployPackagesBuilder.java:218-232 | upper-case spellings select the behaviour, and the older mapping ignores "skip" |
| `Configuration.NewPackageInstallOptions` | src/main/java/org/jenkinsci/plugins/graniteclient/PackageInstallOptions.java:47-63 | `recursive` and `autosave` are kept as given with no range check; a null handling becomes IGNORE and any other is kept (the older copy at net/.../PackageInstallOptions.java:20-36 is the same) |
| `Configuration.GetPackageInstallOptions` | src/main/java/org/jenkinsci/plugins/graniteclient/DeployPackagesBuilder.java:203-216 | the builders' options carry the configured flags and the handling mapped from its string |
| `Configuration.NormalizeTimeout` | src/main/java/org/jenkinsci/plugins/graniteclient/GraniteClientConfig.java:51-52 | a positive timeout is kept and any other becomes -1, so a stored timeout is positive or exactly -1 |
| `Configuration.NormalizeTimeoutIdempotent` | src/main/java/org/jenkinsci/plugins/graniteclient/GraniteClientConfig.java:51-52 | normalising a normalised timeout changes nothing |
| `Configuration.NewClientConfig` | src/main/java/org/jenkinsci/plugins/graniteclient/GraniteClientConfig.java:48-54 | the base URL and credentials id are kept as given, and both timeouts are positive or -1, the positive ones unchanged |
| `Configuration.IsSignatureLogin` | src/main/java/org/jenkinsci/plugins/graniteclient/GraniteClientConfig.java:64-66 | true exactly when the resolved credentials are an SSH private key; no credentials give false |
| `Configuration.LegacyGetClientConfig` | src/main/java/net/adamcin/jenkins/granite/PackageChoiceParameterDefinition.java:293-300 | the older config keeps the base URL and the user's login and normalises both timeouts to positive or -1 |
| `AhcFactory.RealmFor` | src/main/java/org/jenkinsci/plugins/graniteclient/GraniteAHCFactory.java:117-136 | no realm for a null config or a signature login; otherwise preemptive Basic with the user, or "anonymous" when it is null or empty, and the password, or "anonymous" when the user and the password were both null or empty |
| `AhcFactory.RealmExamples` | src/main/java/org/jenkinsci/plugins/graniteclient/GraniteAHCFactory.java:121-129 | a blank user and password become anonymous/anonymous, and a set user keeps a null password |
| `AhcFactory.GraniteAHCFactory.constructor` | src/main/java/org/jenkinsci/plugins/graniteclient/GraniteAHCFactory.java:75-93 | a new factory starts from the client library's default timeouts |
| `AhcFactory.GraniteAHCFactory.SetConnectionTimeoutInMs` | src/main/java/org/jenkinsci/plugins/graniteclient/GraniteAHCFactory.java:75-77 | sets the connection timeout and changes nothing else |
| `AhcFactory.GraniteAHCFactory.SetIdleConnectionTimeoutInMs` | src/main/java/org/jenkinsci/plugins/graniteclient/GraniteAHCFactory.java:83-85 | sets the idle timeout and changes nothing else |
| `AhcFactory.GraniteAHCFactory.SetRequestTimeoutInMs` | src/main/java/org/jenkinsci/plugins/graniteclient/GraniteAHCFactory.java:91-93 | sets the request timeout and changes nothing else |
| `AhcFactory.GraniteAHCFactory.NewInstance` | src/main/java/org/jenkinsci/plugins/graniteclient/GraniteAHCFactory.java:100-108 | a client with the factory's three timeouts and no realm |
| `AhcFactory.GraniteAHCFactory.NewInstanceFor` | src/main/java/org/jenkinsci/plugins/graniteclient/GraniteAHCFactory.java:110-137 | a client with the factory's three timeouts and the realm the configuration calls for |
| `ClientExecutor.DoLoginSignature` | src/main/java/org/jenkinsci/plugins/graniteclient/GraniteClientExecutor.java:116-146 | sends nothing and answers false for an unreadable key; otherwise one signed GET to the signature-login address, accepted on status 200 or 405, which throws when it fails or times out |
| `ClientExecutor.DoLogin` | src/main/java/org/jenkinsci/plugins/graniteclient/GraniteClientExecutor.java:100-114 | the login the credentials call for, with the factory's defaults standing in for null credentials |
| `ClientExecutor.RunJob` | src/main/java/org/jenkinsci/plugins/graniteclient/GraniteClientExecutor.java:93 | runs the action and sends only the action's requests |
| `ClientExecutor.NewClient` | src/main/java/org/jenkinsci/plugins/graniteclient/GraniteClientExecutor.java:81-88 | a fresh package-manager client with the configured base URL and timeouts, and nothing sent |
| `ClientExecutor.Execute` | src/main/java/org/jenkinsci/plugins/graniteclient/GraniteClientExecutor.java:77-98 | the HTTP client carries the factory's timeouts and no realm; the package-manager client gets the configured base URL and timeouts; it is closed on every path; the requests and the answer are those of login-then-action |
| `ClientExecutor.CheckLogin` | src/main/java/org/jenkinsci/plugins/graniteclient/GraniteClientExecutor.java:153-167 | only the login is sent, over a new client that is closed afterwards |
| `ClientExecutor.LoginRequests` | src/main/java/org/jenkinsci/plugins/graniteclient/GraniteClientExecutor.java:100-151 | a login sends at most one request, chosen by the credentials: a signed GET for a readable SSH key, the user's name and password for password credentials, admin/admin otherwise, and none for an unreadable key |
| `ClientExecutor.SignatureLoginAcceptedIff` | src/main/java/org/jenkinsci/plugins/graniteclient/GraniteClientExecutor.java:66-71 | a signature login succeeds exactly when the signed request completed, within the service timeout when one is set, with status 200 or 405, and throws exactly when it failed or timed out |
| `ClientExecutor.NullCredentialsUseDefaults` | src/main/java/org/jenkinsci/plugins/graniteclient/GraniteClientExecutor.java:102-103 | with no credentials, the login is the one the default credentials give, and admin/admin when there are none |
| `ClientExecutor.ActionRunsIffLoginAccepted` | src/main/java/org/jenkinsci/plugins/graniteclient/GraniteClientExecutor.java:89-94 | the action runs exactly when the login was accepted, after the login's requests; a refused login throws "Failed to login to" with the base URL and nothing is sent after it |
| `ClientExecutor.JobExtends` | src/main/java/org/jenkinsci/plugins/graniteclient/GraniteClientExecutor.java:93 | an action only appends to the request log |
| `ClientExecutor.JobResultKind` | src/main/java/org/jenkinsci/plugins/graniteclient/GraniteClientExecutor.java:93 | a deployment or download answers a build result and a listing answers a listing |
| `ClientExecutor.LoginComesFirst` | src/main/java/org/jenkinsci/plugins/graniteclient/GraniteClientExecutor.java:89-94 | nothing reaches the package manager before the login: the first request is the login's whenever it sends one, and all later ones are the action's |
| `Deployment.UninstallIfInstalled` | src/main/java/org/jenkinsci/plugins/graniteclient/PackageDeploymentCallable.java:129-144 | waits, lists the package, and uninstalls only when the listing's first entry has a snapshot; answers whether the uninstall went through |
| `Deployment.DeleteExisting` | src/main/java/org/jenkinsci/plugins/graniteclient/PackageDeploymentCallable.java:146-156 | waits, deletes, and answers whether the delete went through |
| `Deployment.HandleExisting` | src/main/java/org/jenkinsci/plugins/graniteclient/PackageDeploymentCallable.java:121-159 | IGNORE, OVERWRITE and SKIP send nothing; UNINSTALL uninstalls if installed and then deletes; DELETE deletes; false as soon as a step is refused (the older copy at net/.../PackageDeploymentCallable.java:107-143 is the same) |
| `Deployment.CheckExisting` | src/main/java/org/jenkinsci/plugins/graniteclient/PackageDeploymentCallable.java:67-76 | waits, checks existence, and handles the package only when it exists |
| `Deployment.UploadAndInstall` | src/main/java/org/jenkinsci/plugins/graniteclient/PackageDeploymentCallable.java:78-102 | waits, uploads (replacing exactly under OVERWRITE) and installs only an upload that went through |
| `Deployment.DoExecute` | src/main/java/org/jenkinsci/plugins/graniteclient/PackageDeploymentCallable.java:65-108 | the requests and result of the deployment: FAILURE on a refused handling or upload, SUCCESS for an existing package under SKIP, the install's result otherwise |
| `Deployment.DoExecuteExtends` | src/main/java/org/jenkinsci/plugins/graniteclient/PackageDeploymentCallable.java:65-108 | a deployment only appends to the request log |
| `Deployment.SkipExistingNeverUploads` | src/main/java/org/jenkinsci/plugins/graniteclient/PackageDeploymentCallable.java:72-75 | a package found on the server under SKIP gives SUCCESS, and nothing is sent after the existence check |
| `Deployment.AbsentPackageIsUploaded` | src/main/java/org/jenkinsci/plugins/graniteclient/PackageDeploymentCallable.java:68-81 | a package not on the server is uploaded whatever the behaviour, SKIP included |
| `Deployment.HandleExistingWaits` | src/main/java/org/jenkinsci/plugins/graniteclient/PackageDeploymentCallable.java:129-156 | every listing and delete of the handling comes directly after a wait, and the handling never uploads or installs |
| `Deployment.DoExecuteWaitsBeforeRequests` | src/main/java/org/jenkinsci/plugins/graniteclient/PackageDeploymentCallable.java:67-81 | every existence check, listing, delete and upload of a deployment comes directly after `waitForService` |
| `Deployment.DoExecuteShape` | src/main/java/org/jenkinsci/plugins/graniteclient/PackageDeploymentCallable.java:78-102 | the upload is the deployment's only upload and the install its only install, in that order after the handling phase, and nothing follows the install |
| `Deployment.UploadReplacesIffOverwrite` | src/main/java/org/jenkinsci/plugins/graniteclient/PackageDeploymentCallable.java:81 | every upload is of this package and replaces exactly when the behaviour is OVERWRITE |
| `Deployment.HandledMeansDeleted` | src/main/java/org/jenkinsci/plugins/graniteclient/PackageDeploymentCallable.java:146-158 | under UNINSTALL and DELETE the delete is the handling's last request, and the handling succeeds only when the delete did |
| `Deployment.UploadOnlyAfterSuccessfulDelete` | src/main/java/org/jenkinsci/plugins/graniteclient/PackageDeploymentCallable.java:68-81 | under UNINSTALL and DELETE a package is uploaded only when it was not on the server or its delete succeeded |
| `Deployment.InstallDecidesResult` | src/main/java/org/jenkinsci/plugins/graniteclient/PackageDeploymentCallable.java:91-102 | the result is UNSTABLE exactly when the last request is an install reported successful with errors; an answered install decides the result |
| `Deployment.SignerKeys` | src/main/java/net/adamcin/jenkins/granite/PackageDeploymentCallable.java:149-156 | one signer key per stored SSH key, in lookup order |
| `Deployment.LegacyLogin` | src/main/java/net/adamcin/jenkins/granite/PackageDeploymentCallable.java:145-162 | the older login sends one request: the signer with every key when SSH-key login is set, the user's name and password otherwise |
| `Deployment.LegacyInvoke` | src/main/java/net/adamcin/jenkins/granite/PackageDeploymentCallable.java:47-105 | a fresh client with the request's base URL and timeouts, closed on every path; the deployment runs only after an accepted login, and any exception gives false |
| `Deployment.UploadIfLoggedIn` | src/main/java/net/adamcin/jenkins/granite/PackageDeploymentCallable.java:60-92 | the older deployment steps after the login: the same handling, upload and install, with a Boolean result and no SKIP |
| `Deployment.LegacyFailedLoginStops` | src/main/java/net/adamcin/jenkins/granite/PackageDeploymentCallable.java:60 | a refused or failed login gives false, and no package request follows it |
| `Deployment.LegacyResultIsInstallSuccess` | src/main/java/net/adamcin/jenkins/granite/PackageDeploymentCallable.java:78-89 | the older callable answers true exactly when its last request is an install reported successful; there is no UNSTABLE level |
| `Downloads.DoExecute` | src/main/java/org/jenkinsci/plugins/graniteclient/PackageDownloadCallable.java:63-95 | the requests and result of the download loop over the ids in order, starting from SUCCESS |
| `Downloads.StepShape` | src/main/java/org/jenkinsci/plugins/graniteclient/PackageDownloadCallable.java:65-91 | one id sends a wait, the existence check and, when found, the download; it is verified exactly when found and identified as itself, and stops the loop exactly when missing while errors are not ignored |
| `Downloads.DownloadExtends` | src/main/java/org/jenkinsci/plugins/graniteclient/PackageDownloadCallable.java:63-95 | the loop only appends to the request log |
| `Downloads.FailureOnlyFromMissingPackage` | src/main/java/org/jenkinsci/plugins/graniteclient/PackageDownloadCallable.java:84-90 | FAILURE comes only from a missing package while errors are not ignored, answered at once; with errors ignored the loop never gives FAILURE |
| `Downloads.ChecksInOrder` | src/main/java/org/jenkinsci/plugins/graniteclient/PackageDownloadCallable.java:65-70 | the ids are checked in list order, each once, each right after a wait: a prefix of the list, all of it unless the loop stopped early |
| `Downloads.SuccessIffAllFound` | src/main/java/org/jenkinsci/plugins/graniteclient/PackageDownloadCallable.java:64-94 | the loop ends in SUCCESS exactly when it reached the end of the list and every existence check found its package |
| `Downloads.EveryDownloadVerified` | src/main/java/org/jenkinsci/plugins/graniteclient/PackageDownloadCallable.java:76-81 | in a completed loop every downloaded file identified as the package requested |
| `Callables.DeployInvoke` | src/main/java/org/jenkinsci/plugins/graniteclient/PackageDeploymentCallable.java:111-119 | the deployment over `execute`, with any exception, a refused login included, turned into FAILURE |
| `Callables.DownloadInvoke` | src/main/java/org/jenkinsci/plugins/graniteclient/PackageDownloadCallable.java:98-110 | the download over `execute`, with any exception turned into UNSTABLE when errors are ignored and FAILURE otherwise |
| `Callables.DeploySuccessNeedsLogin` | src/main/java/org/jenkinsci/plugins/graniteclient/PackageDeploymentCallable.java:111-119 | a deployment step is SUCCESS only when the login was accepted and the deployment itself succeeded; a refused login is FAILURE |
| `Callables.DownloadIgnoringErrorsNeverFails` | src/main/java/org/jenkinsci/plugins/graniteclient/PackageDownloadCallable.java:98-110 | with errors ignored a download step is never FAILURE, whatever the server answers |
| `BuilderText.TextOf` | src/main/java/org/jenkinsci/plugins/graniteclient/DeployPackagesBuilder.java:114-118 | a text field reads as "" when unset and trimmed otherwise |
| `BuilderText.Kept` | src/main/java/org/jenkinsci/plugins/graniteclient/DeployPackagesBuilder.java:386-394 | the kept lines are exactly the lines that are not blank, no more of them than there were |
| `BuilderText.KeptAppend` | src/main/java/org/jenkinsci/plugins/graniteclient/DeployPackagesBuilder.java:386-394 | dropping blank lines keeps the order of the others: it distributes over concatenation |
| `BuilderText.ParseBaseUrls` | src/main/java/org/jenkinsci/plugins/graniteclient/DeployPackagesBuilder.java:386-394 | the base URLs are the non-blank lines of the text, untrimmed and in order (the older `listBaseUrls` at net/.../DeployPackagesBuilder.java:321-329 is the same) |
| `BuilderText.KeepLines` | src/main/java/org/jenkinsci/plugins/graniteclient/DeployPackagesBuilder.java:389-392 | the line loop keeps exactly the non-blank lines, in order |
| `BuilderText.Distinct` | src/main/java/org/jenkinsci/plugins/graniteclient/DeployPackagesBuilder.java:364-367 | the keys of a linked map filled by `put`: every line once, nothing else |
| `BuilderText.DistinctInFirstOccurrenceOrder` | src/main/java/org/jenkinsci/plugins/graniteclient/DeployPackagesBuilder.java:364-367 | the keys come in the order of the lines' first occurrences |
| `BuilderText.DistinctOfDistinct` | src/main/java/org/jenkinsci/plugins/graniteclient/DeployPackagesBuilder.java:364-367 | lines that are already distinct are kept as they are |
| `BuilderText.ListPackageFilters` | src/main/java/org/jenkinsci/plugins/graniteclient/DeployPackagesBuilder.java:358-370 | the filters map of the filter text (the older copy at net/.../DeployPackagesBuilder.java:311-319 is the same) |
| `BuilderText.PutFilters` | src/main/java/org/jenkinsci/plugins/graniteclient/DeployPackagesBuilder.java:362-368 | the put loop builds one entry per distinct non-blank line, in first-occurrence order, each with the filter parsed from it |
| `BuilderText.PutStep` | src/main/java/org/jenkinsci/plugins/graniteclient/DeployPackagesBuilder.java:364-367 | a blank line changes nothing, a repeated line adds no key, and a new line adds one entry at the end |
| `BuilderText.FiltersMeaning` | src/main/java/org/jenkinsci/plugins/graniteclient/DeployPackagesBuilder.java:358-370 | the filters map holds one entry per distinct non-blank line, untrimmed, in first-occurrence order, each with its own line's filter |
| `BuilderText.FiltersOfText` | src/main/java/org/jenkinsci/plugins/graniteclient/DeployPackagesBuilder.java:358-370 | the same, stated for the lines of the filter text |
| `Selection.InsertNewestFirst` | src/main/java/org/jenkinsci/plugins/graniteclient/DeployPackagesBuilder.java:287-299 | inserting a file into the sorted list adds exactly that file |
| `Selection.SortNewestFirst` | src/main/java/org/jenkinsci/plugins/graniteclient/DeployPackagesBuilder.java:287-299 | the sort is a permutation of the listing |
| `Selection.SortIsNewestFirst` | src/main/java/org/jenkinsci/plugins/graniteclient/DeployPackagesBuilder.java:287-299 | the sorted list is newest first by modification time, and a permutation of the listing |
| `Selection.SortKeepsTiesInListingOrder` | src/main/java/org/jenkinsci/plugins/graniteclient/DeployPackagesBuilder.java:282-299 | the sort is stable: files modified at the same time keep their listing order, .jar before .zip |
| `Selection.FirstWinsPicksFirst` | src/main/java/org/jenkinsci/plugins/graniteclient/DeployPackagesBuilder.java:301-311 | each identity found keeps the first processed file identified as it |
| `Selection.FirstOfIsNewest` | src/main/java/org/jenkinsci/plugins/graniteclient/DeployPackagesBuilder.java:301-311 | in a newest-first list the first file of an identity exists when any does and is its newest |
| `Selection.FindPackages` | src/main/java/org/jenkinsci/plugins/graniteclient/DeployPackagesBuilder.java:301-311 | the listing loop builds the `found` map of the sorted files |
| `Selection.FoundIsNewest` | src/main/java/org/jenkinsci/plugins/graniteclient/DeployPackagesBuilder.java:301-311 | the identities found are those of the files identified before any identification threw, each with a file no other file of it is newer than |
| `Selection.SelectedSpecMeaning` | src/main/java/org/jenkinsci/plugins/graniteclient/DeployPackagesBuilder.java:316-332 | selection succeeds exactly when every filter line includes some identity found, and then selects those some line includes; it fails naming the first line that includes none |
| `Selection.FirstMatchIs` | src/main/java/org/jenkinsci/plugins/graniteclient/DeployPackagesBuilder.java:316-325 | the first line that includes an identity is the one no earlier line beats |
| `Selection.AddMatches` | src/main/java/org/jenkinsci/plugins/graniteclient/DeployPackagesBuilder.java:319-327 | one line's loop adds every identity found that the line includes and was not yet selected, and reports whether the line included any |
| `Selection.SelectMatching` | src/main/java/org/jenkinsci/plugins/graniteclient/DeployPackagesBuilder.java:316-332 | the filter loop either throws for the first line with no match or selects exactly the matched identities, each once, in the order of the lines that first include them |
| `Selection.MaxOf` | src/main/java/org/jenkinsci/plugins/graniteclient/DeployPackagesBuilder.java:343-347 | the head of a grouping sorted in reverse order is its highest identity |
| `Selection.MaxesAreFamilyMaxes` | src/main/java/org/jenkinsci/plugins/graniteclient/DeployPackagesBuilder.java:334-347 | the maxes of the groupings are exactly the identities highest in their family |
| `Selection.FamilyMaxes` | src/main/java/org/jenkinsci/plugins/graniteclient/DeployPackagesBuilder.java:334-347 | the grouping loops keep exactly the highest identity of each family found |
| `Selection.RetainAll` | src/main/java/org/jenkinsci/plugins/graniteclient/DeployPackagesBuilder.java:349 | `retainAll` keeps exactly the entries whose identity is kept |
| `Selection.RetainAllKeepsOrder` | src/main/java/org/jenkinsci/plugins/graniteclient/DeployPackagesBuilder.java:349 | retaining keeps the order of what it keeps |
| `Selection.RetainAllIds` | src/main/java/org/jenkinsci/plugins/graniteclient/DeployPackagesBuilder.java:349 | the identities kept are those selected intersected with the kept set |
| `Selection.SelectPackages` | src/main/java/org/jenkinsci/plugins/graniteclient/DeployPackagesBuilder.java:275-352 | fails naming the first filter line that includes nothing found exactly when there is one; otherwise selects the matched identities that are highest in their family among all found, each with its newest file, in filter order (the older copy at net/.../DeployPackagesBuilder.java:235-309 is the same) |
| `Selection.OnePerFamily` | src/main/java/org/jenkinsci/plugins/graniteclient/DeployPackagesBuilder.java:334-349 | at most one identity of each family key is selected |
| `Selection.LowerVersionDropped` | src/main/java/org/jenkinsci/plugins/graniteclient/DeployPackagesBuilder.java:343-349 | a matched identity is dropped whenever a higher version of its family was found |
| `DeployBuilder.LocalDirectoryOf` | src/main/java/org/jenkinsci/plugins/graniteclient/DeployPackagesBuilder.java:135-140 | "." when unset or blank, the trimmed value otherwise; never blank |
| `DeployBuilder.LocalDirectoryIdempotent` | src/main/java/org/jenkinsci/plugins/graniteclient/DeployPackagesBuilder.java:135-140 | normalising a normalised directory changes nothing |
| `DeployBuilder.Build.constructor` | src/main/java/org/jenkinsci/plugins/graniteclient/DeployPackagesBuilder.java:238 | a build with the given result, possibly none |
| `DeployBuilder.Build.SetResult` | src/main/java/org/jenkinsci/plugins/graniteclient/DeployPackagesBuilder.java:267 | sets the build's result |
| `DeployBuilder.WorstIsWorst` | src/main/java/org/jenkinsci/plugins/graniteclient/DeployPackagesBuilder.java:247-270 | the running result is the worst of the start and every outcome, and is one of them |
| `DeployBuilder.StopsMeansRanWhileUnstable` | src/main/java/org/jenkinsci/plugins/graniteclient/DeployPackagesBuilder.java:248-253 | every deployment ran while the running result was still UNSTABLE or better |
| `DeployBuilder.FalseMeansAFailure` | src/main/java/org/jenkinsci/plugins/graniteclient/DeployPackagesBuilder.java:272 | a step that returns false had a failed build or a failed deployment |
| `DeployBuilder.Verdict` | src/main/java/org/jenkinsci/plugins/graniteclient/DeployPackagesBuilder.java:247-272 | the returned `isBetterOrEqualTo(UNSTABLE)` holds exactly when the build had not failed before the step and no chosen package fails on any base URL, for any log of described outcomes that covers everything when the result is UNSTABLE or better |
| `DeployBuilder.DeployOne` | src/main/java/org/jenkinsci/plugins/graniteclient/DeployPackagesBuilder.java:255-263 | the outcome of one package at one base URL: SUCCESS when deployment is disabled for debugging, the deployment callable's otherwise |
| `DeployBuilder.DeployNext` | src/main/java/org/jenkinsci/plugins/graniteclient/DeployPackagesBuilder.java:254-268 | one package: appends its outcome to the log, combines it into the running result and sets that on the build |
| `DeployBuilder.DeployTo` | src/main/java/org/jenkinsci/plugins/graniteclient/DeployPackagesBuilder.java:250-269 | one base URL's loop: the earlier log stays a prefix, and the log grows by a prefix of that URL's selection, in selection order; it gives up only once the result is worse than UNSTABLE, and otherwise deploys every selected package there |
| `DeployBuilder.Perform` | src/main/java/org/jenkinsci/plugins/graniteclient/DeployPackagesBuilder.java:235-273 | throws exactly when a base URL is reached with the result UNSTABLE or better and some filter line matches nothing, and then deploys nothing; otherwise returns true exactly when the build had not failed before and no chosen package fails on any base URL. The log goes base URL by base URL through each URL's selection in order, stops right after the first failure, and runs the whole plan when the step returns true |
| `DeployBuilder.DeployAll` | src/main/java/org/jenkinsci/plugins/graniteclient/DeployPackagesBuilder.java:247-270 | the loop over base URLs: the running result is the worst outcome, nothing is deployed after FAILURE, the log is a prefix of the plan of selections made URL by URL, and a true result ran the whole plan, covering every URL and chosen package; true exactly when the build had not failed and no chosen package fails anywhere |
| `DeployBuilder.DeployToUrl` | src/main/java/org/jenkinsci/plugins/graniteclient/DeployPackagesBuilder.java:248-269 | one base URL: selection throws exactly when some filter line matches nothing, and then nothing is deployed; otherwise the log grows by a prefix of that URL's selection, all of it unless the step gave up |
| `DeployBuilder.LoggedOutcomes` | src/main/java/org/jenkinsci/plugins/graniteclient/DeployPackagesBuilder.java:255-266 | every logged outcome is the deployment callable's for that URL and package, against the server as it was before the build step |
| `DeployBuilder.LegacyDeployOne` | src/main/java/net/adamcin/jenkins/granite/DeployPackagesBuilder.java:219-229 | the older outcome of one package at one base URL |
| `DeployBuilder.LegacyDeployTo` | src/main/java/net/adamcin/jenkins/granite/DeployPackagesBuilder.java:219-230 | the older inner loop: the earlier log stays a prefix and grows by a prefix of the selection in order, all of it when every deployment succeeded and none of it after an earlier failure; every deployment but the last succeeded, and the step succeeds exactly when all did |
| `DeployBuilder.LegacyDeployToUrl` | src/main/java/net/adamcin/jenkins/granite/DeployPackagesBuilder.java:217-230 | one older base URL: selection throws exactly when some filter line matches nothing, and then nothing is deployed; otherwise the log grows by a prefix of that URL's selection as `LegacyDeployTo` states |
| `DeployBuilder.LegacyPerform` | src/main/java/net/adamcin/jenkins/granite/DeployPackagesBuilder.java:207-233 | the older step: throws exactly when there is a base URL and some filter line matches nothing; otherwise returns true exactly when every chosen package succeeds on every base URL. Every base URL gets a selection, `&&` skips every callable after the first false, the log goes base URL by base URL through each selection in order, and a true result ran all of it |
| `DeployBuilder.LegacyDeployAll` | src/main/java/net/adamcin/jenkins/granite/DeployPackagesBuilder.java:217-231 | the older loop over base URLs: an unmatched filter throws before any deployment; otherwise true exactly when every chosen package succeeds on every base URL; the log is a prefix of the plan of selections URL by URL, all of it when true |
| `DeployBuilder.LegacyLoggedOutcomes` | src/main/java/net/adamcin/jenkins/granite/DeployPackagesBuilder.java:219-229 | every logged older outcome is the older callable's for that URL and package, against the server as it was before the build step |
| `DeployBuilder.LegacyVerdict` | src/main/java/net/adamcin/jenkins/granite/DeployPackagesBuilder.java:211-232 | the returned `success` holds exactly when every chosen package succeeds on every base URL, for any log of described outcomes that covers everything when all of it succeeded |
| `DownloadBuilder.LegacyLocalDirectoryOf` | src/main/java/net/adamcin/jenkins/granite/DownloadPackagesBuilder.java:205-211 | "." when unset or blank, the value untrimmed otherwise; never blank |
| `DownloadBuilder.LocalDirectoriesAgreeUpToTrim` | src/main/java/net/adamcin/jenkins/granite/DownloadPackagesBuilder.java:205-211 | the older download directory, trimmed, is the newer deploy directory |
| `DownloadBuilder.ListPackIds` | src/main/java/net/adamcin/jenkins/granite/DownloadPackagesBuilder.java:160-171 | the identities of the lines of the trimmed `packageIds` text, in line order |
| `DownloadBuilder.RequestIsNormalised` | src/main/java/net/adamcin/jenkins/granite/DownloadPackagesBuilder.java:80-105 | the callable gets a trimmed base URL, timeouts positive or -1, a non-blank directory, the error mode as set, and exactly the identities some line parses to |
| `DownloadBuilder.Perform` | src/main/java/net/adamcin/jenkins/granite/DownloadPackagesBuilder.java:80-105 | the result is the download's combined with the build's (SUCCESS when none), and the step succeeds exactly when neither had failed |
| `ChoiceParameter.OfferedIds` | src/main/java/org/jenkinsci/plugins/graniteclient/PackageChoiceParameterDefinition.java:139-146 | no more choices than listed packages |
| `ChoiceParameter.OfferedIdsMembers` | src/main/java/org/jenkinsci/plugins/graniteclient/PackageChoiceParameterDefinition.java:139-146 | an identity is offered exactly when some listed package of it is installed if so required, unmodified if so required, and included by the filter |
| `ChoiceParameter.OfferedIdsAppend` | src/main/java/org/jenkinsci/plugins/graniteclient/PackageChoiceParameterDefinition.java:139-146 | filtering keeps the server's order |
| `ChoiceParameter.FilterResults` | src/main/java/org/jenkinsci/plugins/graniteclient/PackageChoiceParameterDefinition.java:139-146 | the loop over the listing produces exactly the offered identities |
| `ChoiceParameter.EffectiveValueTrimmed` | src/main/java/org/jenkinsci/plugins/graniteclient/PackageChoiceParameterDefinition.java:277-283 | the effective value has nothing left to trim, and a value that is not blank gives a non-empty one |
| `ChoiceParameter.GetSelectedPackIds` | src/main/java/org/jenkinsci/plugins/graniteclient/PackageChoiceParameterDefinition.java:153-165 | returns `SelectedIds`: the identities the lines of the effective value parse to, in line order (the older copy at net/.../PackageChoiceParameterDefinition.java:136-148 is the same) |
| `ChoiceParameter.ListOrSelect` | src/main/java/org/jenkinsci/plugins/graniteclient/PackageChoiceParameterDefinition.java:136-150 | the code after the listing computes exactly those choices |
| `ChoiceParameter.PackageListMembers` | src/main/java/org/jenkinsci/plugins/graniteclient/PackageChoiceParameterDefinition.java:136-150 | a failed listing offers exactly what some value line parses to; a listing offers exactly the listed packages that pass the flags and the filter, and nothing without results |
| `ChoiceParameter.NoFilterOffersByFlags` | src/main/java/org/jenkinsci/plugins/graniteclient/PackageChoiceParameterDefinition.java:285-287 | without a filter every listed package that passes the flags is offered |
| `ChoiceParameter.GetPackageList` | src/main/java/org/jenkinsci/plugins/graniteclient/PackageChoiceParameterDefinition.java:126-151 | lists the server's packages for the query through `execute`, and falls back to the selection on any exception |
| `ChoiceParameter.LegacyGetPackageList` | src/main/java/net/adamcin/jenkins/granite/PackageChoiceParameterDefinition.java:109-134 | the older list, given what the older executor answered: the same choices |
| `ChoiceParameter.ValueFromJson` | src/main/java/org/jenkinsci/plugins/graniteclient/PackageChoiceParameterDefinition.java:84-94 | the value carries the parameter's name; its text is that of `ValueFromRequest` for the same array (see `CreatedValuesAgree`) |
| `ChoiceParameter.ValueFromRequest` | src/main/java/org/jenkinsci/plugins/graniteclient/PackageChoiceParameterDefinition.java:96-104 | the value carries the parameter's name; its lines select back the chosen ones (see `CreatedValueSelectsChoices`) |
| `ChoiceParameter.CreatedValuesAgree` | src/main/java/org/jenkinsci/plugins/graniteclient/PackageChoiceParameterDefinition.java:84-104 | both ways of creating a value agree on the same list of choices |
| `ChoiceParameter.CreatedValueSelectsChoices` | src/main/java/org/jenkinsci/plugins/graniteclient/PackageChoiceParameterDefinition.java:96-165 | a value created from chosen lines selects back exactly what those lines parse to, when the lines survive the join and split |

## Left out

- The Jenkins UI and configuration surface is not modelled. This covers the descriptors, form validation, `configure`, display names, the credentials list box and the setters of the builders and of the parameter definition, which only store form values.
- Credential-store lookup and PEM key parsing (`GraniteNamedIdCredentials`) are not modelled. The resolved credentials, the readable key and the default credentials are inputs.
- HTTP Signatures request signing (draft-cavage-http-signatures) is not modelled. A signed GET is one request whose answer the `Server` value fixes.
- The asynchronous HTTP client, futures and real timeouts are not modelled. A response carries how long it took, and a timeout is that duration exceeding the limit.
- The package-manager client library (`granite-client-packman`) and the server are not modelled. They are a `Server` value answering each request from the log so far; `PackId`, `parsePid`, `identifyPackage` and the natural order of identities are parameters, and the order is assumed to be a strict total order.
- Listing the local directory and the files' `lastModified` times are not modelled. They are input sequences of candidate files.
- Console logging and progress output (`JenkinsResponseProgressListener`, `GraniteAnnotatorFactory`, the `listener` calls) are not modelled, because they decide nothing.
- `TokenMacro` expansion is treated as the identity.
- `DebugPackageCallable` is modelled only by its answer, SUCCESS or true.
- `InstallVaultPackageBuilder`, `AHCFactory` and `PackageDeploymentRequest` are not modelled. The first does no deciding of its own and the other two are interfaces; the older request is modelled as the values it carries.
- The older `GraniteClientConfig`, `GraniteClientExecutor` and `PackageDownloadCallable` are not part of this model. The older download step takes the callable's result as an input, and the older choice parameter takes the listing outcome as an input.
- Jenkins results other than SUCCESS, UNSTABLE and FAILURE are not modelled, because the plugin never produces them.
- `found` is a `HashMap`, whose iteration order Java leaves unspecified. The model leaves it open too. Within one filter line it visits the identities found in no fixed order, so it promises no order among the identities one line selects. Across lines the selection keeps filter-line order, as the source's `LinkedHashMap` does. Every property about a selection's contents holds for any order.
- `equalsIgnoreCase` maps only the chars whose case mapping reaches an ASCII char. This is exact here, because every keyword compared against is ASCII.
- `selectPackages` catches and logs an exception from listing or identifying the package files, then goes on with the files identified so far. The model keeps exactly the files identified before the first identification that throws. An exception from listing the directory itself is not modelled, because the listing is an input.
- `DeployBuilder.LoggedOutcomes`: every deployment of the newer step runs against the server behind its base URL as it was before the build step, with a request history of its own. A later deployment therefore does not see what an earlier one in the same step changed on that server. Examples are a base URL listed twice, or a package that an earlier package installed as a subpackage. The outcome of a package at a base URL is one fixed value (`DeployOutcome`), and `Verdict` and `Perform` state the step's result in those terms.
- `DeployBuilder.LegacyLoggedOutcomes`: the same holds for the older step. Each deployment sees its server as it was before the build step, and `LegacyDeployOutcome` is one fixed value per base URL and package, in whose terms `LegacyVerdict` and `LegacyPerform` state the result.
- The newer `perform` computes the filters map on each pass of its outer loop. The model computes it once per build step, which gives the same map, because it depends only on the builder's fields.
- A null `ListResponse` in the choice parameter is treated like any other exception, because its NullPointerException is caught by the same fallback.
- `ChoiceParameter.GetPackageList`: a list action always answers a listing, so the case where `execute` answers a build result cannot occur. It is mapped to an exception that leads to the fallback.
- The `multiselect` setting of the choice parameter is not modelled, because it only affects the form.
- `ChoiceParameter.RefusedLoginFallsBack` and `ChoiceParameter.AcceptedLoginLists` are corollaries of `PackageListSpec` with no proof of their own. They have no rows in the table.
