/**
 * `PackageChoiceParameterDefinition`, both versions: a build parameter whose
 * choices are the packages a server lists, narrowed by the installed and
 * modified flags and by an identity filter, and whose value is the chosen
 * identities, one per line. The two versions differ only in the client
 * configuration they build and in the executor that runs the listing.
 */
module ChoiceParameter {
  import opened JavaLang
  import opened PackIds
  import opened PackIdFilters
  import opened Configuration
  import opened Packman
  import opened AhcFactory
  import opened ClientExecutor
  import opened BuilderText

  /** The newer definition's settings. */
  datatype PackageChoiceParameterDefinition = PackageChoiceParameterDefinition(
    name: string,
    baseUrl: Option<string>,
    credentialsId: Option<string>,
    requestTimeout: i64,
    serviceTimeout: i64,
    multiselect: bool,
    excludeNotInstalled: bool,
    excludeModified: bool,
    query: Option<string>,
    packageIdFilter: Option<string>,
    value: Option<string>)

  /** The older definition's settings. */
  datatype LegacyPackageChoiceParameterDefinition = LegacyPackageChoiceParameterDefinition(
    name: string,
    baseUrl: Option<string>,
    username: Option<string>,
    password: Option<string>,
    signatureLogin: bool,
    requestTimeout: i64,
    serviceTimeout: i64,
    multiselect: bool,
    excludeNotInstalled: bool,
    excludeModified: bool,
    query: Option<string>,
    packageIdFilter: Option<string>,
    value: Option<string>)

  /** A `PackageChoiceParameterValue`: the parameter's name and the chosen identities, one per line. */
  datatype ChoiceValue = ChoiceValue(name: string, value: string)

  /** The "value" member of a submitted form: a string, an array of strings, or anything else. */
  datatype JsonValue = JsonString(s: string) | JsonArray(items: seq<string>) | JsonOther

  // ---------------------------------------------------------------------------
  // The listed choices
  // ---------------------------------------------------------------------------

  /** Whether one listed package is offered: installed if so required, unmodified if so required, and admitted by the filter. */
  predicate Offered(r: ListResult, excludeNotInstalled: bool, excludeModified: bool, filter: PackIdFilter) {
    (!excludeNotInstalled || r.hasSnapshot) && (!excludeModified || !r.needsRewrap) && Includes(filter, r.packId)
  }

  /** The identities of the offered packages, in the server's order. */
  function OfferedIds(results: seq<ListResult>, excludeNotInstalled: bool, excludeModified: bool,
                      filter: PackIdFilter): (r: seq<PackId>)
    ensures |r| <= |results|
  {
    if results == [] then []
    else
      var init := results[..|results| - 1];
      var last := results[|results| - 1];
      var rest := OfferedIds(init, excludeNotInstalled, excludeModified, filter);
      if Offered(last, excludeNotInstalled, excludeModified, filter) then rest + [last.packId] else rest
  }

  /** An identity is offered iff some listed package with that identity passes every check. */
  lemma {:induction false} OfferedIdsMembers(results: seq<ListResult>, excludeNotInstalled: bool, excludeModified: bool,
                                             filter: PackIdFilter, id: PackId)
    ensures id in OfferedIds(results, excludeNotInstalled, excludeModified, filter) <==>
      exists k :: 0 <= k < |results| && results[k].packId == id && Offered(results[k], excludeNotInstalled, excludeModified, filter)
  {
    if results != [] {
      var n := |results| - 1;
      var init := results[..n];
      OfferedIdsMembers(init, excludeNotInstalled, excludeModified, filter, id);
      if k :| 0 <= k < |results| && results[k].packId == id && Offered(results[k], excludeNotInstalled, excludeModified, filter) {
        if k < n {
          assert init[k] == results[k];
        }
      }
      if k :| 0 <= k < n && init[k].packId == id && Offered(init[k], excludeNotInstalled, excludeModified, filter) {
        assert results[k] == init[k];
      }
    }
  }

  /** Filtering keeps the server's order: it distributes over concatenation. */
  lemma {:induction false} OfferedIdsAppend(xs: seq<ListResult>, ys: seq<ListResult>, excludeNotInstalled: bool,
                                            excludeModified: bool, filter: PackIdFilter)
    ensures OfferedIds(xs + ys, excludeNotInstalled, excludeModified, filter) ==
            OfferedIds(xs, excludeNotInstalled, excludeModified, filter) + OfferedIds(ys, excludeNotInstalled, excludeModified, filter)
  {
    if ys == [] {
      assert xs + ys == xs;
    } else {
      var init := ys[..|ys| - 1];
      OfferedIdsAppend(xs, init, excludeNotInstalled, excludeModified, filter);
      assert (xs + ys)[..|xs + ys| - 1] == xs + init;
    }
  }

  /** The loop of `getPackageList` over the listed packages. */
  method FilterResults(results: seq<ListResult>, excludeNotInstalled: bool, excludeModified: bool, filter: PackIdFilter)
    returns (ids: seq<PackId>)
    ensures ids == OfferedIds(results, excludeNotInstalled, excludeModified, filter)
  {
    ids := [];
    for i := 0 to |results|
      invariant ids == OfferedIds(results[..i], excludeNotInstalled, excludeModified, filter)
    {
      assert results[..i + 1][..i] == results[..i];
      if (!excludeNotInstalled || results[i].hasSnapshot) && (!excludeModified || !results[i].needsRewrap)
         && Includes(filter, results[i].packId) {
        ids := ids + [results[i].packId];
      }
    }
    assert results[..|results|] == results;
  }

  // ---------------------------------------------------------------------------
  // The chosen identities
  // ---------------------------------------------------------------------------

  /**
   * `getEffectiveValue` reads the stored value as `TextOf` does; the
   * effective value has no surrounding whitespace left to trim.
   */
  lemma EffectiveValueTrimmed(value: Option<string>)
    ensures Trim(TextOf(value)) == TextOf(value)
    ensures value.Some? && !IsBlank(value.value) ==> TextOf(value) != ""
  {
    if value.Some? {
      TrimIdempotent(value.value);
    }
  }

  /** The identities the lines of the effective value parse to. */
  function SelectedIds(value: Option<string>, parsePid: string -> Option<PackId>): seq<PackId> {
    ParsedIds(SplitLines(TextOf(value)), parsePid)
  }

  /** `getSelectedPackIds`: parse each line of the effective value, dropping the lines that are no identity. */
  method GetSelectedPackIds(value: Option<string>, parsePid: string -> Option<PackId>) returns (ids: seq<PackId>)
    ensures ids == SelectedIds(value, parsePid)
  {
    var effective := TextOf(value);
    ids := ListParsed(SplitLines(effective), parsePid);
  }

  /**
   * The choices for a listing attempt: the selected identities when it threw,
   * none when the listing holds no results, the offered identities otherwise.
   */
  function PackageList(listed: Outcome<ListResponse>, value: Option<string>, excludeNotInstalled: bool,
                       excludeModified: bool, packageIdFilter: Option<string>,
                       parsePid: string -> Option<PackId>): seq<PackId> {
    match listed
    case Exc(_) => SelectedIds(value, parsePid)
    case Ok(listing) =>
      if listing.results.None? then []
      else OfferedIds(listing.results.value, excludeNotInstalled, excludeModified, Parse(packageIdFilter))
  }

  /** The body of `getPackageList` after the listing attempt, shared by both versions. */
  method ListOrSelect(listed: Outcome<ListResponse>, value: Option<string>, excludeNotInstalled: bool,
                      excludeModified: bool, packageIdFilter: Option<string>, parsePid: string -> Option<PackId>)
    returns (ids: seq<PackId>)
    ensures ids == PackageList(listed, value, excludeNotInstalled, excludeModified, packageIdFilter, parsePid)
  {
    match listed {
      case Exc(_) =>
        ids := GetSelectedPackIds(value, parsePid);
      case Ok(listing) =>
        if listing.results.None? {
          ids := [];
        } else {
          var filter := Parse(packageIdFilter);
          ids := FilterResults(listing.results.value, excludeNotInstalled, excludeModified, filter);
        }
    }
  }

  /**
   * What the choices are: when the listing threw, exactly the identities some
   * line of the value parses to; when it answered, exactly the listed
   * identities that pass the flags and the filter, and none without results.
   */
  lemma PackageListMembers(listed: Outcome<ListResponse>, value: Option<string>, excludeNotInstalled: bool,
                           excludeModified: bool, packageIdFilter: Option<string>,
                           parsePid: string -> Option<PackId>, id: PackId)
    ensures listed.Exc? ==>
      (id in PackageList(listed, value, excludeNotInstalled, excludeModified, packageIdFilter, parsePid) <==>
       exists l :: l in SplitLines(TextOf(value)) && parsePid(l) == Some(id))
    ensures listed.Ok? && listed.value.results.None? ==>
      PackageList(listed, value, excludeNotInstalled, excludeModified, packageIdFilter, parsePid) == []
    ensures listed.Ok? && listed.value.results.Some? ==>
      var rs := listed.value.results.value;
      (id in PackageList(listed, value, excludeNotInstalled, excludeModified, packageIdFilter, parsePid) <==>
       exists k :: 0 <= k < |rs| && rs[k].packId == id && Offered(rs[k], excludeNotInstalled, excludeModified, Parse(packageIdFilter)))
  {
    if listed.Exc? {
      ParsedIdsMembers(SplitLines(TextOf(value)), parsePid, id);
    } else if listed.value.results.Some? {
      OfferedIdsMembers(listed.value.results.value, excludeNotInstalled, excludeModified, Parse(packageIdFilter), id);
    }
  }

  /** Without a filter every listed package that passes the flags is offered. */
  lemma NoFilterOffersByFlags(r: ListResult, excludeNotInstalled: bool, excludeModified: bool)
    ensures Offered(r, excludeNotInstalled, excludeModified, Parse(None)) <==>
            (!excludeNotInstalled || r.hasSnapshot) && (!excludeModified || !r.needsRewrap)
  {
    IncludeAllIncludesEvery(r.packId);
  }

  // ---------------------------------------------------------------------------
  // The newer definition: the listing runs through `GraniteClientExecutor.execute`
  // ---------------------------------------------------------------------------

  /** `getGraniteClientConfig`: the stored base URL and credentials id, timeouts normalised. */
  function ConfigOf(d: PackageChoiceParameterDefinition, resolved: Option<Credentials>): GraniteClientConfig {
    NewClientConfig(d.baseUrl, d.credentialsId, d.requestTimeout, d.serviceTimeout, resolved)
  }

  /**
   * The listing as `execute` answers it. A list action always answers a
   * listing (`JobResultKind`), so the last case never occurs.
   */
  function ListingOf(out: Outcome<JobResult>): Outcome<ListResponse> {
    match out
    case Exc(e) => Exc(e)
    case Ok(Listed(listing)) => Ok(listing)
    case Ok(Built(_)) => Exc("")
  }

  /** The newer `getPackageList` against the server, with the credentials the id resolves to. */
  function PackageListSpec(d: PackageChoiceParameterDefinition, server: Server, resolved: Option<Credentials>,
                           env: Environment, parsePid: string -> Option<PackId>): seq<PackId> {
    var run := ExecuteSpec(server, ListJob(d.query), ConfigOf(d, resolved), env);
    PackageList(ListingOf(run.out), d.value, d.excludeNotInstalled, d.excludeModified, d.packageIdFilter, parsePid)
  }

  /** `getPackageList`: list the server's packages with the configured query, falling back to the selection on any exception. */
  method GetPackageList(d: PackageChoiceParameterDefinition, factory: GraniteAHCFactory, server: Server,
                        resolved: Option<Credentials>, env: Environment, parsePid: string -> Option<PackId>)
    returns (ids: seq<PackId>)
    ensures ids == PackageListSpec(d, server, resolved, env, parsePid)
  {
    var config := ConfigOf(d, resolved);
    var r, settings, client := Execute(factory, server, ListJob(d.query), config, env);
    ids := ListOrSelect(ListingOf(r), d.value, d.excludeNotInstalled, d.excludeModified, d.packageIdFilter, parsePid);
  }

  /** A refused login lists nothing: the choices are the selected identities. */
  lemma RefusedLoginFallsBack(d: PackageChoiceParameterDefinition, server: Server, resolved: Option<Credentials>,
                              env: Environment, parsePid: string -> Option<PackId>)
    requires ConfigLoginSpec(server, ConfigOf(d, resolved), env).out == Ok(false)
    ensures PackageListSpec(d, server, resolved, env, parsePid) == SelectedIds(d.value, parsePid)
  {
  }

  /** An accepted login whose listing succeeds offers the listed packages that pass the checks. */
  lemma AcceptedLoginLists(d: PackageChoiceParameterDefinition, server: Server, resolved: Option<Credentials>,
                           env: Environment, parsePid: string -> Option<PackId>)
    requires var login := ConfigLoginSpec(server, ConfigOf(d, resolved), env);
      login.out == Ok(true) && server.list(login.trace + [ListQuery(d.query)]).Ok?
    ensures var login := ConfigLoginSpec(server, ConfigOf(d, resolved), env);
      var listing := server.list(login.trace + [ListQuery(d.query)]).value;
      PackageListSpec(d, server, resolved, env, parsePid) ==
        if listing.results.None? then []
        else OfferedIds(listing.results.value, d.excludeNotInstalled, d.excludeModified, Parse(d.packageIdFilter))
  {
  }

  // ---------------------------------------------------------------------------
  // The older definition: the listing attempt's answer is an input
  // ---------------------------------------------------------------------------

  /** The older `getPackageList`, given what the older executor answered for the configured query. */
  method LegacyGetPackageList(d: LegacyPackageChoiceParameterDefinition, listed: Outcome<ListResponse>,
                              parsePid: string -> Option<PackId>)
    returns (ids: seq<PackId>)
    ensures ids == PackageList(listed, d.value, d.excludeNotInstalled, d.excludeModified, d.packageIdFilter, parsePid)
  {
    ids := ListOrSelect(listed, d.value, d.excludeNotInstalled, d.excludeModified, d.packageIdFilter, parsePid);
  }

  // ---------------------------------------------------------------------------
  // Creating a value
  // ---------------------------------------------------------------------------

  /** `createValue(req, jo)`: a string is kept verbatim, an array joined with "\n", anything else is "". */
  function ValueFromJson(name: string, v: JsonValue): (r: ChoiceValue)
    ensures r.name == name
  {
    match v
    case JsonString(s) => ChoiceValue(name, s)
    case JsonArray(items) => ChoiceValue(name, Join(items, '\n'))
    case JsonOther => ChoiceValue(name, "")
  }

  /** `createValue(req)`: no values or none at all give "", values are joined with "\n". */
  function ValueFromRequest(name: string, values: Option<seq<string>>): (r: ChoiceValue)
    ensures r.name == name
  {
    if values.None? || |values.value| == 0 then ChoiceValue(name, "")
    else ChoiceValue(name, Join(values.value, '\n'))
  }

  /** Both ways of creating a value agree on the same list of choices. */
  lemma CreatedValuesAgree(name: string, items: seq<string>)
    ensures ValueFromJson(name, JsonArray(items)) == ValueFromRequest(name, Some(items))
  {
  }

  /**
   * A value created from chosen lines selects the identities those lines
   * parse to, when no line breaks or ends in '\r' (the last may), the last is
   * not empty unless it is the only one, and the joined text has no
   * surrounding whitespace.
   */
  lemma CreatedValueSelectsChoices(name: string, ls: seq<string>, parsePid: string -> Option<PackId>)
    requires |ls| >= 1
    requires forall i :: 0 <= i < |ls| ==> '\n' !in ls[i]
    requires forall i :: 0 <= i < |ls| - 1 ==> ls[i] == [] || ls[i][|ls[i]| - 1] != '\r'
    requires |ls| == 1 || ls[|ls| - 1] != ""
    requires Trim(Join(ls, '\n')) == Join(ls, '\n')
    ensures SelectedIds(Some(ValueFromRequest(name, Some(ls)).value), parsePid) == ParsedIds(ls, parsePid)
  {
    SplitLinesJoin(ls);
  }
}
