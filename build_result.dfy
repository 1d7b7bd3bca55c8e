/**
 * Jenkins' build result, restricted to the three levels the plugin produces,
 * ordered SUCCESS < UNSTABLE < FAILURE, with `combine` as worse-of.
 */
module BuildResults {
  import opened JavaLang

  datatype BuildResult = SUCCESS | UNSTABLE | FAILURE

  function Ordinal(r: BuildResult): nat {
    match r
    case SUCCESS => 0
    case UNSTABLE => 1
    case FAILURE => 2
  }

  /** `Result.isBetterOrEqualTo`. */
  predicate IsBetterOrEqualTo(a: BuildResult, b: BuildResult) {
    Ordinal(a) <= Ordinal(b)
  }

  /** `Result.combine`: the worse of the two. */
  function Combine(a: BuildResult, b: BuildResult): (r: BuildResult)
    ensures r == a || r == b
    ensures IsBetterOrEqualTo(a, r) && IsBetterOrEqualTo(b, r)
  {
    if Ordinal(a) < Ordinal(b) then b else a
  }

  lemma CombineCommutative(a: BuildResult, b: BuildResult)
    ensures Combine(a, b) == Combine(b, a)
  {
  }

  lemma CombineAssociative(a: BuildResult, b: BuildResult, c: BuildResult)
    ensures Combine(Combine(a, b), c) == Combine(a, Combine(b, c))
  {
  }

  lemma CombineIdentity(a: BuildResult)
    ensures Combine(SUCCESS, a) == a && Combine(a, SUCCESS) == a
  {
  }

  /** The running result of a sequence of outcomes, starting from SUCCESS. */
  function Fold(rs: seq<BuildResult>): BuildResult
  {
    if |rs| == 0 then SUCCESS else Combine(Fold(rs[..|rs| - 1]), rs[|rs| - 1])
  }

  /**
   * The fold is the worst outcome of the sequence: every outcome is at least as
   * good as it, it is one of them, and it is SUCCESS for no outcome at all.
   */
  lemma {:induction false} FoldIsWorst(rs: seq<BuildResult>)
    ensures forall i :: 0 <= i < |rs| ==> IsBetterOrEqualTo(rs[i], Fold(rs))
    ensures rs == [] ==> Fold(rs) == SUCCESS
    ensures rs != [] ==> Fold(rs) in rs
  {
    if rs != [] {
      var init := rs[..|rs| - 1];
      FoldIsWorst(init);
      assert forall i :: 0 <= i < |init| ==> rs[i] == init[i];
    }
  }

  /** Folding two runs one after the other is combining their folds. */
  lemma {:induction false} FoldAppend(xs: seq<BuildResult>, ys: seq<BuildResult>)
    ensures Fold(xs + ys) == Combine(Fold(xs), Fold(ys))
  {
    if ys != [] {
      FoldAppend(xs, ys[..|ys| - 1]);
      assert (xs + ys)[..|xs + ys| - 1] == xs + ys[..|ys| - 1];
    } else {
      assert xs + ys == xs;
    }
  }

  /** The example fold(SUCCESS, UNSTABLE, FAILURE, SUCCESS) is FAILURE. */
  lemma FoldExample()
    ensures Fold([SUCCESS, UNSTABLE, FAILURE, SUCCESS]) == FAILURE
  {
    FoldIsWorst([SUCCESS, UNSTABLE, FAILURE, SUCCESS]);
  }

  /** A build without a result yet counts as SUCCESS. */
  function StartOf(result: Option<BuildResult>): (r: BuildResult)
    ensures result.Some? ==> r == result.value
    ensures result.None? ==> r == SUCCESS
  {
    if result.Some? then result.value else SUCCESS
  }
}
