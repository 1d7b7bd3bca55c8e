/**
 * The text fields of the deployment builders: a base URL or a filter per
 * line. Both versions split the stored text the same way.
 */
module BuilderText {
  import opened JavaLang
  import opened PackIdFilters
  import opened Selection

  /** `getBaseUrls` and `getPackageIdFilters`: the stored text trimmed, "" when there is none. */
  function TextOf(field: Option<string>): (r: string)
    ensures field.None? ==> r == ""
    ensures field.Some? ==> r == Trim(field.value)
  {
    if field.Some? then Trim(field.value) else ""
  }

  /** The lines `blank` does not reject, as they are and in order. */
  function Kept(lines: seq<string>, blank: string -> bool): (r: seq<string>)
    ensures |r| <= |lines|
    ensures forall l :: l in r <==> l in lines && !blank(l)
  {
    if lines == [] then []
    else
      var init := lines[..|lines| - 1];
      var last := lines[|lines| - 1];
      assert lines == init + [last];
      if blank(last) then Kept(init, blank) else Kept(init, blank) + [last]
  }

  /** The lines that hold something besides whitespace, untrimmed and in order. */
  function NonBlank(lines: seq<string>): seq<string> {
    Kept(lines, IsBlank)
  }

  /** Dropping lines keeps the order of the others: it distributes over concatenation. */
  lemma {:induction false} KeptAppend(xs: seq<string>, ys: seq<string>, blank: string -> bool)
    ensures Kept(xs + ys, blank) == Kept(xs, blank) + Kept(ys, blank)
  {
    if ys == [] {
      assert xs + ys == xs;
    } else {
      var init := ys[..|ys| - 1];
      KeptAppend(xs, init, blank);
      assert (xs + ys)[..|xs + ys| - 1] == xs + init;
    }
  }

  /** One more line is kept at the end, unless it is blank. */
  lemma KeptSnoc(ls: seq<string>, line: string, blank: string -> bool)
    ensures Kept(ls + [line], blank) == if blank(line) then Kept(ls, blank) else Kept(ls, blank) + [line]
  {
    assert (ls + [line])[..|ls|] == ls;
  }

  /** `parseBaseUrls` (the older `listBaseUrls`): the non-blank lines of the text, untrimmed, in order. */
  method ParseBaseUrls(value: string) returns (urls: seq<string>)
    ensures urls == NonBlank(SplitLines(value))
  {
    urls := KeepLines(SplitLines(value), IsBlank);
  }

  /** The loop of `parseBaseUrls`: every line that is not blank is added to the list. */
  method KeepLines(lines: seq<string>, blank: string -> bool) returns (kept: seq<string>)
    ensures kept == Kept(lines, blank)
  {
    kept := [];
    for i := 0 to |lines|
      invariant kept == Kept(lines[..i], blank)
    {
      assert lines[..i + 1] == lines[..i] + [lines[i]];
      KeptSnoc(lines[..i], lines[i], blank);
      if !blank(lines[i]) {
        kept := kept + [lines[i]];
      }
    }
    assert lines[..|lines|] == lines;
  }

  /** The index of the first occurrence of `x` in `xs`. */
  function FirstIndex(xs: seq<string>, x: string): (k: nat)
    requires x in xs
    ensures k < |xs| && xs[k] == x
    ensures forall i :: 0 <= i < k ==> xs[i] != x
  {
    if xs[0] == x then 0 else 1 + FirstIndex(xs[1..], x)
  }

  /** A first occurrence inside a prefix is the first occurrence in the whole. */
  lemma FirstIndexOfPrefix(xs: seq<string>, m: nat, x: string)
    requires m <= |xs| && x in xs[..m]
    ensures FirstIndex(xs[..m], x) == FirstIndex(xs, x)
  {
    var a := FirstIndex(xs[..m], x);
    assert forall i :: 0 <= i <= a ==> xs[i] == xs[..m][i];
  }

  /** Each line once, at its first occurrence: the key order of a `LinkedHashMap` filled by `put`. */
  function Distinct(xs: seq<string>): (r: seq<string>)
    ensures forall x :: x in r <==> x in xs
    ensures forall i, j :: 0 <= i < j < |r| ==> r[i] != r[j]
  {
    if xs == [] then []
    else
      var init := xs[..|xs| - 1];
      var last := xs[|xs| - 1];
      assert xs == init + [last];
      var d := Distinct(init);
      if last in d then d else d + [last]
  }

  /** The distinct lines come in the order of their first occurrences. */
  lemma {:induction false} DistinctInFirstOccurrenceOrder(xs: seq<string>)
    ensures forall i, j :: 0 <= i < j < |Distinct(xs)| ==> FirstIndex(xs, Distinct(xs)[i]) < FirstIndex(xs, Distinct(xs)[j])
  {
    if xs != [] {
      var n := |xs| - 1;
      var init, last := xs[..n], xs[n];
      assert xs == init + [last];
      DistinctInFirstOccurrenceOrder(init);
      var d := Distinct(init);
      assert forall a, b :: 0 <= a < b < |d| ==> FirstIndex(init, d[a]) < FirstIndex(init, d[b]);
      var r := Distinct(xs);
      forall i, j | 0 <= i < j < |r| ensures FirstIndex(xs, r[i]) < FirstIndex(xs, r[j]) {
        assert r[i] == d[i] && d[i] in init;
        FirstIndexOfPrefix(xs, n, r[i]);
        if j < |d| {
          assert r[j] == d[j] && d[j] in init;
          FirstIndexOfPrefix(xs, n, r[j]);
          assert FirstIndex(init, d[i]) < FirstIndex(init, d[j]);
        } else {
          assert r[j] == last && last !in init;
          assert forall k :: 0 <= k < n ==> xs[k] == init[k];
          assert FirstIndex(xs, r[j]) == n;
          assert FirstIndex(init, r[i]) < n;
        }
      }
    }
  }

  /** Lines that are already distinct are kept as they are. */
  lemma {:induction false} DistinctOfDistinct(xs: seq<string>)
    requires forall i, j :: 0 <= i < j < |xs| ==> xs[i] != xs[j]
    ensures Distinct(xs) == xs
  {
    if xs != [] {
      var n := |xs| - 1;
      var init := xs[..n];
      assert xs == init + [xs[n]];
      DistinctOfDistinct(init);
      assert xs[n] !in init;
    }
  }

  /** One filters-map entry per line, each with the filter `parse` makes of it. */
  function EntriesFor(lines: seq<string>, parse: string -> PackIdFilter): (r: seq<FilterEntry>)
    ensures |r| == |lines|
    ensures forall i :: 0 <= i < |lines| ==> r[i] == FilterEntry(lines[i], parse(lines[i]))
  {
    seq(|lines|, i requires 0 <= i < |lines| => FilterEntry(lines[i], parse(lines[i])))
  }

  /** `DefaultPackIdFilter.parse` of one filter line. */
  function LineFilter(line: string): PackIdFilter {
    Parse(Some(line))
  }

  /** The filters map of a filter text. */
  function FiltersOf(text: string): seq<FilterEntry> {
    EntriesFor(Distinct(NonBlank(SplitLines(text))), LineFilter)
  }

  /** `listPackageFilters`: the filters map of the text. */
  method ListPackageFilters(text: string) returns (filters: seq<FilterEntry>)
    ensures filters == FiltersOf(text)
  {
    filters := PutFilters(SplitLines(text), IsBlank, LineFilter);
  }

  /**
   * The loop of `listPackageFilters`: every line that is not blank is put
   * into a linked map with the filter parsed from it. A repeated line
   * replaces the value under its key, which keeps its place.
   */
  method PutFilters(lines: seq<string>, blank: string -> bool, parse: string -> PackIdFilter)
    returns (filters: seq<FilterEntry>)
    ensures filters == EntriesFor(Distinct(Kept(lines, blank)), parse)
  {
    filters := [];
    for i := 0 to |lines|
      invariant filters == EntriesFor(Distinct(Kept(lines[..i], blank)), parse)
    {
      var line := lines[i];
      assert lines[..i + 1] == lines[..i] + [line];
      PutStep(lines[..i], line, blank, parse);
      if !blank(line) {
        var entry := FilterEntry(line, parse(line));
        if exists k :: 0 <= k < |filters| && filters[k].line == line {
          var k :| 0 <= k < |filters| && filters[k].line == line;
          filters := filters[k := entry];
        } else {
          filters := filters + [entry];
        }
      }
    }
    assert lines[..|lines|] == lines;
  }

  /** What one more line does to the filters map: nothing when blank, nothing new for a present key, else one entry at the end. */
  lemma PutStep(ls: seq<string>, line: string, blank: string -> bool, parse: string -> PackIdFilter)
    ensures var fs := EntriesFor(Distinct(Kept(ls, blank)), parse);
      var next := EntriesFor(Distinct(Kept(ls + [line], blank)), parse);
      (blank(line) ==> next == fs) &&
      (!blank(line) && (exists k :: 0 <= k < |fs| && fs[k].line == line) ==>
        next == fs && forall k :: 0 <= k < |fs| && fs[k].line == line ==> fs[k := FilterEntry(line, parse(line))] == fs) &&
      (!blank(line) && !(exists k :: 0 <= k < |fs| && fs[k].line == line) ==>
        next == fs + [FilterEntry(line, parse(line))])
  {
    var d := Distinct(Kept(ls, blank));
    KeptSnoc(ls, line, blank);
    if !blank(line) {
      DistinctSnoc(Kept(ls, blank), line);
      var fs := EntriesFor(d, parse);
      if line in d {
        var k :| 0 <= k < |d| && d[k] == line;
        assert fs[k].line == line;
        forall k | 0 <= k < |fs| && fs[k].line == line ensures fs[k := FilterEntry(line, parse(line))] == fs {
          assert fs[k] == FilterEntry(line, parse(line));
        }
      } else {
        EntriesForSnoc(d, line, parse);
      }
    }
  }

  /** A line adds a key unless it is already there. */
  lemma DistinctSnoc(ls: seq<string>, line: string)
    ensures var d := Distinct(ls);
      Distinct(ls + [line]) == if line in d then d else d + [line]
  {
    assert (ls + [line])[..|ls|] == ls;
  }

  lemma EntriesForSnoc(d: seq<string>, line: string, parse: string -> PackIdFilter)
    ensures EntriesFor(d + [line], parse) == EntriesFor(d, parse) + [FilterEntry(line, parse(line))]
  {
  }

  /**
   * What the filters map holds: one entry per distinct line that is not
   * blank (a repeated line collapses into one key), untrimmed, in the order
   * the lines first occur, each with the filter parsed from its own line.
   */
  lemma FiltersMeaning(lines: seq<string>, blank: string -> bool, parse: string -> PackIdFilter)
    ensures var kept := Kept(lines, blank); var fs := EntriesFor(Distinct(kept), parse);
      (forall i, j :: 0 <= i < j < |fs| ==> fs[i].line != fs[j].line) &&
      (forall l :: (exists i :: 0 <= i < |fs| && fs[i].line == l) <==> l in lines && !blank(l)) &&
      (forall i :: 0 <= i < |fs| ==> fs[i].filter == parse(fs[i].line)) &&
      (forall i, j :: 0 <= i < j < |fs| ==> FirstIndex(kept, fs[i].line) < FirstIndex(kept, fs[j].line))
  {
    var kept := Kept(lines, blank);
    var d := Distinct(kept);
    DistinctInFirstOccurrenceOrder(kept);
    var fs := EntriesFor(d, parse);
    assert forall i :: 0 <= i < |fs| ==> fs[i].line == d[i];
    forall l ensures (exists i :: 0 <= i < |fs| && fs[i].line == l) <==> l in lines && !blank(l) {
      if l in d {
        var i :| 0 <= i < |d| && d[i] == l;
        assert fs[i].line == l;
      }
    }
  }

  /** The filters map of a text, as `FiltersMeaning` describes it for the lines of the text. */
  lemma FiltersOfText(text: string)
    ensures var fs := FiltersOf(text); var lines := SplitLines(text);
      (forall i, j :: 0 <= i < j < |fs| ==> fs[i].line != fs[j].line) &&
      (forall l :: (exists i :: 0 <= i < |fs| && fs[i].line == l) <==> l in lines && !IsBlank(l)) &&
      (forall i :: 0 <= i < |fs| ==> fs[i].filter == Parse(Some(fs[i].line)))
  {
    FiltersMeaning(SplitLines(text), IsBlank, LineFilter);
  }
}
