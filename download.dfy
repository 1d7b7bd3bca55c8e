/**
 * `PackageDownloadCallable`: downloading a list of packages from one server
 * and checking that each downloaded file really is the package asked for.
 * Reading a package identity out of a file is the library's
 * `PackId.identifyPackage`, a parameter here.
 */
module Downloads {
  import opened JavaLang
  import opened PackIds
  import opened BuildResults
  import opened Packman
  import opened Deployment

  /** `PackId.identifyPackage` on a downloaded file: its identity, null when it holds none, or an exception. */
  type Identify = string -> Outcome<Option<PackId>>

  /** The message of the exception a file that is not the requested package raises. */
  function VerificationFailed(content: string): string {
    "Package verification failed: " + content
  }

  /** How the loop left one id: downloaded and verified, passed over as missing, or stopped at as missing. */
  datatype Step = Verified | Skipped | Failed

  /**
   * One id of `Execution.doExecute`: wait, check the id exists; if it does,
   * download it and require that the file identifies as that id (a null or
   * different identity throws); if it does not, pass over it when errors are
   * ignored and stop otherwise.
   */
  function StepSpec(s: Server, id: PackId, ignoreErrors: bool, identify: Identify, h: seq<Call>): Run<Step> {
    var w := WaitSpec(s, h);
    if w.out.Exc? then Run(Exc(w.out.error), w.trace)
    else
      var t := w.trace + [ExistsOnServer(id)];
      match s.existsOnServer(t)
      case Exc(e) => Run(Exc(e), t)
      case Ok(found) =>
        if found then
          var t' := t + [Download(id)];
          match s.download(t')
          case Exc(e) => Run(Exc(e), t')
          case Ok(response) =>
            match identify(response.content)
            case Exc(e) => Run(Exc(e), t')
            case Ok(reId) =>
              if reId != Some(id) then Run(Exc(VerificationFailed(response.content)), t')
              else Run(Ok(Verified), t')
        else Run(Ok(if ignoreErrors then Skipped else Failed), t)
  }

  /** The result carried past an id: unchanged for a verified package, at best UNSTABLE for a missing one. */
  function Carried(step: Step, result: BuildResult): BuildResult {
    if step == Skipped then Combine(UNSTABLE, result) else result
  }

  /**
   * The rest of `Execution.doExecute` from the result `result` so far, for the
   * ids still to do: each id in turn, stopping at the first exception or
   * FAILURE, with the worst result so far at the end.
   */
  function DownloadSpec(s: Server, ids: seq<PackId>, ignoreErrors: bool, identify: Identify,
                        h: seq<Call>, result: BuildResult): Run<BuildResult>
    decreases |ids|
  {
    if ids == [] then Run(Ok(result), h)
    else
      var one := StepSpec(s, ids[0], ignoreErrors, identify, h);
      match one.out
      case Exc(e) => Run(Exc(e), one.trace)
      case Ok(step) =>
        if step == Failed then Run(Ok(FAILURE), one.trace)
        else DownloadSpec(s, ids[1..], ignoreErrors, identify, one.trace, Carried(step, result))
  }

  /** `Execution.doExecute`: the ids in order, starting from SUCCESS. */
  method DoExecute(client: PackageManagerClient, ids: seq<PackId>, ignoreErrors: bool, identify: Identify)
    returns (r: Outcome<BuildResult>)
    modifies client
    ensures client.OnlySent()
    ensures Run(r, client.trace) == DownloadSpec(client.server, ids, ignoreErrors, identify, old(client.trace), SUCCESS)
  {
    var result := SUCCESS;
    for i := 0 to |ids|
      invariant client.OnlySent()
      invariant DownloadSpec(client.server, ids[i..], ignoreErrors, identify, client.trace, result) ==
                DownloadSpec(client.server, ids, ignoreErrors, identify, old(client.trace), SUCCESS)
    {
      assert ids[i..][0] == ids[i] && ids[i..][1..] == ids[i + 1..];
      var _ :- client.WaitForService();
      var found :- client.ExistsOnServer(ids[i]);
      if found {
        var response :- client.DownloadToDirectory(ids[i]);
        var reId :- identify(response.content);
        if reId != Some(ids[i]) {
          return Exc(VerificationFailed(response.content));
        }
      } else if ignoreErrors {
        result := Combine(UNSTABLE, result);
      } else {
        return Ok(FAILURE);
      }
    }
    return Ok(result);
  }

  /** The requests one id adds: a wait, its existence check and, when found, its download. */
  function Head(id: PackId, found: bool): seq<Call> {
    if found then [WaitForService, ExistsOnServer(id), Download(id)] else [WaitForService, ExistsOnServer(id)]
  }

  /** The identity `identify` reads from the download answered at the end of `trace`. */
  predicate VerifiedAs(s: Server, identify: Identify, trace: seq<Call>, id: PackId) {
    s.download(trace).Ok? && identify(s.download(trace).value.content) == Ok(Some(id))
  }

  /**
   * What one id sends and what decides its step: a step is taken only after
   * the existence check answered, Verified exactly when the package was there
   * and its download verified as `id`, and Failed exactly when it was missing
   * and errors are not ignored.
   */
  lemma StepShape(s: Server, id: PackId, ignoreErrors: bool, identify: Identify, h: seq<Call>)
    ensures var run := StepSpec(s, id, ignoreErrors, identify, h);
      var t := h + [WaitForService, ExistsOnServer(id)];
      Extends(run, h) && |run.trace| > |h| &&
      run.trace == h + NewCalls(run, h) &&
      (NewCalls(run, h) == [WaitForService] || NewCalls(run, h) == Head(id, false) || NewCalls(run, h) == Head(id, true)) &&
      (run.out.Ok? ==> s.waitForService(h + [WaitForService]).Ok? &&
                       s.existsOnServer(t) == Ok(run.out.value == Verified) &&
                       run.trace == h + Head(id, run.out.value == Verified)) &&
      (run.out == Ok(Verified) ==> VerifiedAs(s, identify, run.trace, id)) &&
      (run.out == Ok(Failed) <==> !ignoreErrors && s.waitForService(h + [WaitForService]).Ok? && s.existsOnServer(t) == Ok(false)) &&
      (run.out == Ok(Skipped) <==> ignoreErrors && s.waitForService(h + [WaitForService]).Ok? && s.existsOnServer(t) == Ok(false))
  {
    assert h + [WaitForService] + [ExistsOnServer(id)] == h + Head(id, false);
    assert h + Head(id, false) + [Download(id)] == h + Head(id, true);
    assert (h + [WaitForService])[|h|..] == [WaitForService];
    assert (h + Head(id, false))[|h|..] == Head(id, false);
    assert (h + Head(id, true))[|h|..] == Head(id, true);
  }

  /** A run only appends to the log. */
  lemma {:induction false} DownloadExtends(s: Server, ids: seq<PackId>, ignoreErrors: bool, identify: Identify,
                                          h: seq<Call>, result: BuildResult)
    ensures Extends(DownloadSpec(s, ids, ignoreErrors, identify, h, result), h)
    decreases |ids|
  {
    if ids != [] {
      var one := StepSpec(s, ids[0], ignoreErrors, identify, h);
      StepShape(s, ids[0], ignoreErrors, identify, h);
      if one.out.Ok? && one.out.value != Failed {
        DownloadExtends(s, ids[1..], ignoreErrors, identify, one.trace, Carried(one.out.value, result));
      }
    }
  }

  /**
   * FAILURE comes only from a package that is missing while errors are not
   * ignored, and it is answered at once: the last request is the existence
   * check that found the package missing. With errors ignored the result
   * is never FAILURE, whatever the server answers.
   */
  lemma {:induction false} FailureOnlyFromMissingPackage(s: Server, ids: seq<PackId>, ignoreErrors: bool,
                                                        identify: Identify, h: seq<Call>, result: BuildResult)
    requires result != FAILURE
    ensures var run := DownloadSpec(s, ids, ignoreErrors, identify, h, result);
      run.out == Ok(FAILURE) ==>
        !ignoreErrors && |run.trace| > 0 && run.trace[|run.trace| - 1].ExistsOnServer? &&
        s.existsOnServer(run.trace) == Ok(false)
    ensures ignoreErrors ==> DownloadSpec(s, ids, ignoreErrors, identify, h, result).out != Ok(FAILURE)
    decreases |ids|
  {
    if ids != [] {
      var one := StepSpec(s, ids[0], ignoreErrors, identify, h);
      StepShape(s, ids[0], ignoreErrors, identify, h);
      if one.out.Ok? && one.out.value != Failed {
        FailureOnlyFromMissingPackage(s, ids[1..], ignoreErrors, identify, one.trace, Carried(one.out.value, result));
      }
    }
  }

  /** The ids of the existence checks among `calls`, in order. */
  function Checked(calls: seq<Call>): seq<PackId> {
    if calls == [] then []
    else (if calls[0].ExistsOnServer? then [calls[0].packId] else []) + Checked(calls[1..])
  }

  lemma {:induction false} CheckedAppend(a: seq<Call>, b: seq<Call>)
    ensures Checked(a + b) == Checked(a) + Checked(b)
  {
    if a == [] {
      assert a + b == b;
    } else {
      assert (a + b)[0] == a[0] && (a + b)[1..] == a[1..] + b;
      CheckedAppend(a[1..], b);
    }
  }

  lemma CheckedHead(id: PackId, found: bool)
    ensures Checked(Head(id, found)) == [id] && Checked([WaitForService]) == []
    ensures WaitsBeforeRequests(Head(id, found)) && WaitsBeforeRequests([WaitForService])
  {
    assert Checked([WaitForService]) == [] by { assert [WaitForService][1..] == []; }
    assert Checked([Download(id)]) == [] by { assert [Download(id)][1..] == []; }
    assert Checked([ExistsOnServer(id)]) == [id] by { assert [ExistsOnServer(id)][1..] == []; }
    assert Checked([ExistsOnServer(id), Download(id)]) == [id] by {
      assert [ExistsOnServer(id), Download(id)][1..] == [Download(id)];
    }
    assert [WaitForService, ExistsOnServer(id)][1..] == [ExistsOnServer(id)];
    assert [WaitForService, ExistsOnServer(id), Download(id)][1..] == [ExistsOnServer(id), Download(id)];
  }

  /**
   * The requests `calls` check the ids of a prefix of `ids`, in order, each
   * right after a `waitForService`, and all of `ids` when `complete`.
   */
  ghost predicate ChecksPrefix(calls: seq<Call>, ids: seq<PackId>, complete: bool) {
    WaitsBeforeRequests(calls) && (calls != [] ==> calls[0] == WaitForService) &&
    |Checked(calls)| <= |ids| && Checked(calls) == ids[..|Checked(calls)|] &&
    (complete ==> Checked(calls) == ids)
  }

  /** The requests of one id check a prefix of the ids: nothing, or that id. */
  lemma ChecksOne(ids: seq<PackId>, head: seq<Call>, complete: bool)
    requires ids != [] && !complete
    requires head == [WaitForService] || head == Head(ids[0], false) || head == Head(ids[0], true)
    ensures ChecksPrefix(head, ids, complete)
  {
    CheckedHead(ids[0], false);
    CheckedHead(ids[0], true);
  }

  /** A run that stops at its first id has checked at most that id. */
  lemma ChecksWhenStopped(s: Server, ids: seq<PackId>, ignoreErrors: bool, identify: Identify, h: seq<Call>, result: BuildResult)
    requires ids != []
    requires var one := StepSpec(s, ids[0], ignoreErrors, identify, h); !(one.out.Ok? && one.out.value != Failed)
    ensures var run := DownloadSpec(s, ids, ignoreErrors, identify, h, result);
      Extends(run, h) && ChecksPrefix(NewCalls(run, h), ids, false) && !(run.out.Ok? && run.out.value != FAILURE)
  {
    var one := StepSpec(s, ids[0], ignoreErrors, identify, h);
    StepShape(s, ids[0], ignoreErrors, identify, h);
    ChecksOne(ids, NewCalls(one, h), false);
  }

  /** A run that goes past its first id checks that id and then what the rest of the run checks. */
  lemma ChecksWhenProceeding(ids: seq<PackId>, h: seq<Call>, head: seq<Call>, rest: seq<Call>, complete: bool)
    requires ids != [] && (head == Head(ids[0], false) || head == Head(ids[0], true))
    requires |h + head| <= |rest| && rest[..|h + head|] == h + head
    requires ChecksPrefix(rest[|h + head|..], ids[1..], complete)
    ensures |h| <= |rest| && rest[..|h|] == h && ChecksPrefix(rest[|h|..], ids, complete)
  {
    var nr := rest[|h + head|..];
    assert rest == h + head + nr;
    Drop(h, head, nr);
    CheckedHead(ids[0], false);
    CheckedHead(ids[0], true);
    ChecksCompose(ids, head, nr, complete);
  }

  /** What follows `h` in `h + x + y`. */
  lemma Drop(h: seq<Call>, x: seq<Call>, y: seq<Call>)
    ensures (h + x + y)[|h|..] == x + y
  {
  }

  /** The checks of one id followed by those of the ids after it. */
  lemma ChecksCompose(ids: seq<PackId>, head: seq<Call>, rest: seq<Call>, complete: bool)
    requires ids != [] && Checked(head) == [ids[0]]
    requires WaitsBeforeRequests(head) && head != [] && head[0] == WaitForService
    requires ChecksPrefix(rest, ids[1..], complete)
    ensures ChecksPrefix(head + rest, ids, complete)
  {
    WaitsAppend(head, rest);
    CheckedAppend(head, rest);
    assert ids == [ids[0]] + ids[1..];
  }

  /**
   * The ids are checked in list order, each once, each right after a
   * `waitForService`: the checked ids are a prefix of the list, and all of it
   * unless the run stopped early (an exception or FAILURE).
   */
  lemma {:induction false} ChecksInOrder(s: Server, ids: seq<PackId>, ignoreErrors: bool, identify: Identify,
                                        h: seq<Call>, result: BuildResult)
    ensures var run := DownloadSpec(s, ids, ignoreErrors, identify, h, result);
      Extends(run, h) && ChecksPrefix(NewCalls(run, h), ids, run.out.Ok? && run.out.value != FAILURE)
    decreases |ids|
  {
    if ids == [] {
      assert NewCalls(Run(Ok(result), h), h) == [];
    } else {
      var one := StepSpec(s, ids[0], ignoreErrors, identify, h);
      if one.out.Ok? && one.out.value != Failed {
        var rest := DownloadSpec(s, ids[1..], ignoreErrors, identify, one.trace, Carried(one.out.value, result));
        ChecksInOrder(s, ids[1..], ignoreErrors, identify, one.trace, Carried(one.out.value, result));
        StepShape(s, ids[0], ignoreErrors, identify, h);
        ChecksWhenProceeding(ids, h, NewCalls(one, h), rest.trace, rest.out.Ok? && rest.out.value != FAILURE);
      } else {
        ChecksWhenStopped(s, ids, ignoreErrors, identify, h, result);
      }
    }
  }

  /** Every existence check of `trace` from index `from` on was answered "present". */
  predicate AllFound(s: Server, trace: seq<Call>, from: nat) {
    forall k :: from <= k < |trace| && trace[k].ExistsOnServer? ==> s.existsOnServer(trace[..k + 1]) == Ok(true)
  }

  /**
   * Starting from SUCCESS, the download ends in SUCCESS exactly when it ran
   * to the end of the list and every existence check found its package
   * (every download having then been verified).
   */
  lemma {:induction false} SuccessIffAllFound(s: Server, ids: seq<PackId>, ignoreErrors: bool, identify: Identify,
                                             h: seq<Call>, result: BuildResult)
    requires result != FAILURE
    ensures var run := DownloadSpec(s, ids, ignoreErrors, identify, h, result);
      Extends(run, h) &&
      (run.out == Ok(SUCCESS) <==> result == SUCCESS && run.out.Ok? && AllFound(s, run.trace, |h|))
    decreases |ids|
  {
    var run := DownloadSpec(s, ids, ignoreErrors, identify, h, result);
    DownloadExtends(s, ids, ignoreErrors, identify, h, result);
    if ids != [] {
      var id := ids[0];
      var one := StepSpec(s, id, ignoreErrors, identify, h);
      StepShape(s, id, ignoreErrors, identify, h);
      if one.out.Ok? {
        var t := h + [WaitForService, ExistsOnServer(id)];
        var found := one.out.value == Verified;
        assert one.trace[..|h| + 2] == t && one.trace[|h| + 1] == ExistsOnServer(id);
        if one.out.value != Failed {
          SuccessIffAllFound(s, ids[1..], ignoreErrors, identify, one.trace, Carried(one.out.value, result));
        }
        assert run.trace[..|h| + 2] == t && run.trace[|h| + 1] == ExistsOnServer(id);
        if !found {
          assert !AllFound(s, run.trace, |h|);
        }
        if one.out.value != Failed {
          if found && AllFound(s, run.trace, |one.trace|) {
            forall k | |h| <= k < |run.trace| && run.trace[k].ExistsOnServer?
              ensures s.existsOnServer(run.trace[..k + 1]) == Ok(true)
            {
              if k < |one.trace| {
                assert run.trace[k] == one.trace[k];
                assert k == |h| + 1;
              }
            }
          }
        }
      }
    }
  }

  /** A download that completes verified every file it fetched as the package requested. */
  lemma {:induction false} EveryDownloadVerified(s: Server, ids: seq<PackId>, ignoreErrors: bool, identify: Identify,
                                                h: seq<Call>, result: BuildResult)
    ensures var run := DownloadSpec(s, ids, ignoreErrors, identify, h, result);
      Extends(run, h) &&
      (run.out.Ok? ==> forall k :: |h| <= k < |run.trace| && run.trace[k].Download? ==>
        VerifiedAs(s, identify, run.trace[..k + 1], run.trace[k].packId))
    decreases |ids|
  {
    var run := DownloadSpec(s, ids, ignoreErrors, identify, h, result);
    DownloadExtends(s, ids, ignoreErrors, identify, h, result);
    if ids != [] && run.out.Ok? {
      var id := ids[0];
      var one := StepSpec(s, id, ignoreErrors, identify, h);
      StepShape(s, id, ignoreErrors, identify, h);
      var found := one.out.value == Verified;
      if one.out.value != Failed {
        EveryDownloadVerified(s, ids[1..], ignoreErrors, identify, one.trace, Carried(one.out.value, result));
      }
      forall k | |h| <= k < |run.trace| && run.trace[k].Download?
        ensures VerifiedAs(s, identify, run.trace[..k + 1], run.trace[k].packId)
      {
        if k < |one.trace| {
          assert run.trace[k] == one.trace[k] == Head(id, found)[k - |h|];
          assert k == |h| + 2 && found;
          assert run.trace[..k + 1] == one.trace;
        }
      }
    }
  }
}
