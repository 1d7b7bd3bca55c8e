/**
 * `DeployPackagesBuilder.selectPackages`: which package files under the
 * local directory are deployed. Files are taken newest first and the first
 * file of each identity wins; every filter line must match some identity
 * found; the identities matched are collected in filter order; and only an
 * identity that is the highest version of its `group:name` family among all
 * those found survives. The file listing, modification times and package
 * identification are inputs (`Candidate`); the identities' natural order is
 * the parameter `less`.
 */
module Selection {
  import opened JavaLang
  import opened PackIds
  import opened PackIdFilters
  import opened Packman

  /** A `.jar` or `.zip` file under the local directory: its path, modification time and what `identifyPackage` reads from it. */
  datatype Candidate = Candidate(path: string, lastModified: i64, identity: Outcome<Option<PackId>>)

  // ---------------------------------------------------------------------------
  // Newest first
  // ---------------------------------------------------------------------------

  /** Places `c` before the first file that is not newer than it. */
  function InsertNewestFirst(c: Candidate, s: seq<Candidate>): (r: seq<Candidate>)
    ensures |r| == |s| + 1
    ensures multiset(r) == multiset(s) + multiset{c}
  {
    if s == [] || s[0].lastModified <= c.lastModified then [c] + s
    else
      assert s == [s[0]] + s[1..];
      [s[0]] + InsertNewestFirst(c, s[1..])
  }

  /**
   * `Collections.sort(listed, Collections.reverseOrder(byLastModified))`: a
   * stable sort (insertion of each file before the first one not newer).
   */
  function SortNewestFirst(s: seq<Candidate>): (r: seq<Candidate>)
    ensures |r| == |s|
    ensures multiset(r) == multiset(s)
  {
    if s == [] then []
    else
      assert s == [s[0]] + s[1..];
      InsertNewestFirst(s[0], SortNewestFirst(s[1..]))
  }

  predicate NewestFirst(s: seq<Candidate>) {
    forall i, j :: 0 <= i < j < |s| ==> s[j].lastModified <= s[i].lastModified
  }

  lemma {:induction false} InsertKeepsNewestFirst(c: Candidate, s: seq<Candidate>)
    requires NewestFirst(s)
    ensures NewestFirst(InsertNewestFirst(c, s))
  {
    if s != [] && c.lastModified < s[0].lastModified {
      InsertKeepsNewestFirst(c, s[1..]);
      var t := InsertNewestFirst(c, s[1..]);
      assert forall k :: 0 <= k < |t| ==> t[k] in multiset(t);
      assert forall k :: 0 <= k < |t| ==> t[k] == c || t[k] in multiset(s[1..]);
      assert forall x :: x in multiset(s[1..]) ==> x.lastModified <= s[0].lastModified by {
        forall x | x in multiset(s[1..]) ensures x.lastModified <= s[0].lastModified {
          var k :| 0 <= k < |s[1..]| && s[1..][k] == x;
          assert s[k + 1] == x;
        }
      }
    }
  }

  /** The sort puts the files newest first, and is a permutation of the listing. */
  lemma {:induction false} SortIsNewestFirst(s: seq<Candidate>)
    ensures NewestFirst(SortNewestFirst(s))
    ensures multiset(SortNewestFirst(s)) == multiset(s)
  {
    if s != [] {
      SortIsNewestFirst(s[1..]);
      InsertKeepsNewestFirst(s[0], SortNewestFirst(s[1..]));
    }
  }

  /** The files of `s` modified at time `t`, in order. */
  function ModifiedAt(s: seq<Candidate>, t: i64): seq<Candidate> {
    if s == [] then []
    else (if s[0].lastModified == t then [s[0]] else []) + ModifiedAt(s[1..], t)
  }

  lemma {:induction false} InsertModifiedAt(c: Candidate, s: seq<Candidate>, t: i64)
    requires NewestFirst(s)
    ensures ModifiedAt(InsertNewestFirst(c, s), t) ==
            (if c.lastModified == t then [c] + ModifiedAt(s, t) else ModifiedAt(s, t))
  {
    var r := InsertNewestFirst(c, s);
    if s == [] || s[0].lastModified <= c.lastModified {
      assert r[0] == c && r[1..] == s;
    } else {
      InsertModifiedAt(c, s[1..], t);
      assert r[0] == s[0] && r[1..] == InsertNewestFirst(c, s[1..]);
      if c.lastModified == t {
        assert s[0].lastModified != t;
      }
    }
  }

  /** The sort is stable: files modified at the same time keep their listing order (`.jar` before `.zip`). */
  lemma {:induction false} SortKeepsTiesInListingOrder(s: seq<Candidate>, t: i64)
    ensures ModifiedAt(SortNewestFirst(s), t) == ModifiedAt(s, t)
  {
    if s != [] {
      SortKeepsTiesInListingOrder(s[1..], t);
      SortIsNewestFirst(s[1..]);
      InsertModifiedAt(s[0], SortNewestFirst(s[1..]), t);
    }
  }

  // ---------------------------------------------------------------------------
  // First file per identity
  // ---------------------------------------------------------------------------

  /** The files identified before the first identification that throws (the exception ends the listing loop). */
  function Processed(s: seq<Candidate>): (p: seq<Candidate>)
    ensures |p| <= |s| && p == s[..|p|]
    ensures forall k :: 0 <= k < |p| ==> p[k].identity.Ok?
  {
    if s == [] || s[0].identity.Exc? then []
    else [s[0]] + Processed(s[1..])
  }

  /** The `found` map the listing loop builds onto `acc`: each identity keeps its first file. */
  function FirstWins(s: seq<Candidate>, acc: map<PackId, Candidate>): map<PackId, Candidate> {
    if s == [] then acc
    else match s[0].identity
      case Exc(_) => acc
      case Ok(None) => FirstWins(s[1..], acc)
      case Ok(Some(id)) => FirstWins(s[1..], if id in acc then acc else acc[id := s[0]])
  }

  /** The first file of `p` identified as `id`. */
  function FirstOf(p: seq<Candidate>, id: PackId): Option<Candidate> {
    if p == [] then None
    else if p[0].identity == Ok(Some(id)) then Some(p[0])
    else FirstOf(p[1..], id)
  }

  /** Which files end up in `found`: for an identity not already there, the first processed file identified as it. */
  lemma {:induction false} FirstWinsPicksFirst(s: seq<Candidate>, acc: map<PackId, Candidate>, id: PackId)
    ensures var r := FirstWins(s, acc);
      (id in acc ==> id in r && r[id] == acc[id]) &&
      (id !in acc ==> (id in r <==> FirstOf(Processed(s), id).Some?) &&
                      (id in r ==> r[id] == FirstOf(Processed(s), id).value))
  {
    if s != [] && s[0].identity.Ok? {
      var p := Processed(s);
      assert p[0] == s[0] && p[1..] == Processed(s[1..]);
      match s[0].identity.value {
        case None =>
          FirstWinsPicksFirst(s[1..], acc, id);
        case Some(x) =>
          FirstWinsPicksFirst(s[1..], if x in acc then acc else acc[x := s[0]], id);
      }
    }
  }

  /** The first file identified as `id` in a newest-first list is the newest one, and it exists when any does. */
  lemma {:induction false} FirstOfIsNewest(p: seq<Candidate>, id: PackId)
    requires NewestFirst(p)
    ensures FirstOf(p, id).Some? <==> exists k :: 0 <= k < |p| && p[k].identity == Ok(Some(id))
    ensures FirstOf(p, id).Some? ==>
      FirstOf(p, id).value in p && FirstOf(p, id).value.identity == Ok(Some(id)) &&
      forall k :: 0 <= k < |p| && p[k].identity == Ok(Some(id)) ==> p[k].lastModified <= FirstOf(p, id).value.lastModified
  {
    if p != [] {
      FirstOfIsNewest(p[1..], id);
      if p[0].identity != Ok(Some(id)) {
        forall k | 0 <= k < |p| && p[k].identity == Ok(Some(id)) ensures exists j :: 0 <= j < |p[1..]| && p[1..][j].identity == Ok(Some(id)) {
          assert p[1..][k - 1] == p[k];
        }
        if FirstOf(p[1..], id).Some? {
          var j :| 0 <= j < |p[1..]| && p[1..][j].identity == Ok(Some(id));
          assert p[j + 1] == p[1..][j];
        }
      }
    }
  }

  /** The `found` map of `selectPackages`. */
  function FoundSpec(listed: seq<Candidate>): map<PackId, Candidate> {
    FirstWins(SortNewestFirst(listed), map[])
  }

  /** The listing loop of `selectPackages`, over the files already sorted newest first. */
  method FindPackages(listed: seq<Candidate>) returns (found: map<PackId, Candidate>)
    ensures found == FoundSpec(listed)
  {
    var sorted := SortNewestFirst(listed);
    found := map[];
    var i := 0;
    while i < |sorted|
      invariant 0 <= i <= |sorted|
      invariant FirstWins(sorted[i..], found) == FirstWins(sorted, map[])
    {
      assert sorted[i..][0] == sorted[i] && sorted[i..][1..] == sorted[i + 1..];
      var c := sorted[i];
      if c.identity.Exc? {
        break;
      }
      if c.identity.value.Some? && c.identity.value.value !in found {
        found := found[c.identity.value.value := c];
      }
      i := i + 1;
    }
  }

  /**
   * The identities found are exactly those of the files identified before
   * any identification threw, each with its newest file: no other file of
   * that identity was modified later.
   */
  lemma FoundIsNewest(listed: seq<Candidate>)
    ensures var found := FoundSpec(listed); var p := Processed(SortNewestFirst(listed));
      (forall id :: id in found <==> exists k :: 0 <= k < |p| && p[k].identity == Ok(Some(id))) &&
      (forall id :: id in found ==>
        found[id] in multiset(listed) && found[id].identity == Ok(Some(id)) &&
        forall k :: 0 <= k < |p| && p[k].identity == Ok(Some(id)) ==> p[k].lastModified <= found[id].lastModified)
  {
    var sorted := SortNewestFirst(listed);
    var p := Processed(sorted);
    SortIsNewestFirst(listed);
    assert NewestFirst(p) by {
      forall i, j | 0 <= i < j < |p| ensures p[j].lastModified <= p[i].lastModified {
        assert p[i] == sorted[i] && p[j] == sorted[j];
      }
    }
    forall id ensures var found := FoundSpec(listed);
      (id in found <==> exists k :: 0 <= k < |p| && p[k].identity == Ok(Some(id))) &&
      (id in found ==>
        found[id] in multiset(listed) && found[id].identity == Ok(Some(id)) &&
        forall k :: 0 <= k < |p| && p[k].identity == Ok(Some(id)) ==> p[k].lastModified <= found[id].lastModified)
    {
      FirstWinsPicksFirst(sorted, map[], id);
      FirstOfIsNewest(p, id);
      if FirstOf(p, id).Some? {
        var c := FirstOf(p, id).value;
        var k :| 0 <= k < |p| && p[k] == c;
        assert sorted[k] == c;
        assert c in multiset(sorted);
      }
    }
  }

  // ---------------------------------------------------------------------------
  // Filters
  // ---------------------------------------------------------------------------

  /** A selected package: its identity and the file it was found in. */
  datatype Entry = Entry(id: PackId, file: Candidate)

  /** The identities of a `selected` map, its key set. */
  function Ids(sel: seq<Entry>): set<PackId> {
    set e | e in sel :: e.id
  }

  /** No identity is selected twice. */
  predicate DistinctIds(sel: seq<Entry>) {
    forall a, b :: 0 <= a < b < |sel| ==> sel[a].id != sel[b].id
  }

  /** An entry of the filters map: a filter line and the filter parsed from it. */
  datatype FilterEntry = FilterEntry(line: string, filter: PackIdFilter)

  /** Whether the filter of `f` includes `id`. */
  predicate Matches(f: FilterEntry, id: PackId) {
    Includes(f.filter, id)
  }

  /** The message of the exception for a filter line no package matches. */
  function NoMatchMessage(f: FilterEntry): string {
    "No package found matching filter " + f.line
  }

  /** The identities of `found` a filter line includes. */
  function MatchedBy(found: set<PackId>, filter: FilterEntry): set<PackId> {
    set id | id in found && Matches(filter, id)
  }

  /** The identities of `found` some filter line includes. */
  function MatchedByAny(found: set<PackId>, filters: seq<FilterEntry>): set<PackId> {
    set id | id in found && exists j :: 0 <= j < |filters| && Matches(filters[j], id)
  }

  /**
   * The identities the filter lines select, in declaration order of the
   * lines: every line must include some identity found, or the selection
   * throws naming the first line that includes none.
   */
  function SelectedSpec(found: set<PackId>, filters: seq<FilterEntry>): Outcome<set<PackId>> {
    if filters == [] then Ok({})
    else if MatchedBy(found, filters[0]) == {} then Exc(NoMatchMessage(filters[0]))
    else match SelectedSpec(found, filters[1..])
      case Exc(e) => Exc(e)
      case Ok(rest) => Ok(MatchedBy(found, filters[0]) + rest)
  }

  /**
   * The selection succeeds exactly when every filter line includes some
   * identity found, and then selects the identities some line includes; it
   * fails naming the first line that includes none.
   */
  lemma {:induction false} SelectedSpecMeaning(found: set<PackId>, filters: seq<FilterEntry>)
    ensures var r := SelectedSpec(found, filters);
      (r.Ok? <==> forall j :: 0 <= j < |filters| ==> MatchedBy(found, filters[j]) != {}) &&
      (r.Ok? ==> r.value == MatchedByAny(found, filters)) &&
      (r.Exc? ==>
        exists j :: 0 <= j < |filters| && MatchedBy(found, filters[j]) == {} &&
          r.error == NoMatchMessage(filters[j]) &&
          forall i :: 0 <= i < j ==> MatchedBy(found, filters[i]) != {})
  {
    if filters != [] {
      SelectedSpecMeaning(found, filters[1..]);
      var r := SelectedSpec(found, filters);
      var tail := filters[1..];
      assert forall j :: 0 < j < |filters| ==> filters[j] == tail[j - 1];
      if r.Ok? {
        assert MatchedByAny(found, filters) == MatchedBy(found, filters[0]) + MatchedByAny(found, tail) by {
          forall id | id in MatchedByAny(found, filters)
            ensures id in MatchedBy(found, filters[0]) + MatchedByAny(found, tail)
          {
            var j :| 0 <= j < |filters| && Matches(filters[j], id);
            if j > 0 {
              assert Matches(tail[j - 1], id);
            }
          }
        }
      } else if MatchedBy(found, filters[0]) != {} {
        var j :| 0 <= j < |tail| && MatchedBy(found, tail[j]) == {} &&
                 r.error == NoMatchMessage(tail[j]) && forall i :: 0 <= i < j ==> MatchedBy(found, tail[i]) != {};
        assert filters[j + 1] == tail[j];
        forall i | 0 <= i < j + 1 ensures MatchedBy(found, filters[i]) != {} {
          if i > 0 {
            assert filters[i] == tail[i - 1];
          }
        }
      }
    }
  }

  /** The index of the first filter line that includes `id` (`|filters|` when none does). */
  function FirstMatch(filters: seq<FilterEntry>, id: PackId): (n: nat)
    ensures n <= |filters|
  {
    if filters == [] then 0
    else if Matches(filters[0], id) then 0
    else 1 + FirstMatch(filters[1..], id)
  }

  lemma {:induction false} FirstMatchIs(filters: seq<FilterEntry>, i: nat, id: PackId)
    requires i < |filters| && Matches(filters[i], id)
    requires forall j :: 0 <= j < i ==> !Matches(filters[j], id)
    ensures FirstMatch(filters, id) == i
  {
    if i > 0 {
      assert filters[1..][i - 1] == filters[i];
      forall j | 0 <= j < i - 1 ensures !Matches(filters[1..][j], id) {
        assert filters[1..][j] == filters[j + 1];
      }
      FirstMatchIs(filters[1..], i - 1, id);
    }
  }

  /** Identities come in the order of the filter lines that first include them. */
  predicate InFilterOrder(sel: seq<Entry>, filters: seq<FilterEntry>) {
    forall a, b :: 0 <= a < b < |sel| ==> FirstMatch(filters, sel[a].id) <= FirstMatch(filters, sel[b].id)
  }

  /** What the filter loop keeps of `selected` after the first `i` lines. */
  predicate SelectedSoFar(found: map<PackId, Candidate>, filters: seq<FilterEntry>, i: nat, sel: seq<Entry>, chosen: set<PackId>)
  {
    DistinctIds(sel) && InFilterOrder(sel, filters) && chosen == Ids(sel) &&
    (forall e :: e in sel ==> e.id in found && e.file == found[e.id]) &&
    (forall a :: 0 <= a < |sel| ==> FirstMatch(filters, sel[a].id) <= i)
  }

  /** Appending an identity first included by line `i` keeps what the loop promises. */
  lemma SelectedSoFarAppend(found: map<PackId, Candidate>, filters: seq<FilterEntry>, i: nat, sel: seq<Entry>,
                            chosen: set<PackId>, id: PackId)
    requires SelectedSoFar(found, filters, i, sel, chosen)
    requires id in found && id !in chosen && FirstMatch(filters, id) == i
    ensures SelectedSoFar(found, filters, i, sel + [Entry(id, found[id])], chosen + {id})
  {
    var sel' := sel + [Entry(id, found[id])];
    assert forall e :: e in sel' ==> e in sel || e == Entry(id, found[id]);
    forall a | 0 <= a < |sel| ensures sel'[a].id != id {
      assert sel[a] in sel;
    }
    assert Ids(sel') == Ids(sel) + {id};
  }

  /**
   * The inner loop for line `i`: every identity found that the line includes
   * joins `selected` unless already there; `matched` tells whether there was one.
   */
  method AddMatches(found: map<PackId, Candidate>, filters: seq<FilterEntry>, i: nat, selected: seq<Entry>,
                    selectedIds: set<PackId>) returns (sel: seq<Entry>, ids: set<PackId>, matched: bool)
    requires i < |filters|
    requires SelectedSoFar(found, filters, i, selected, selectedIds)
    requires forall id :: id in found && id !in selectedIds ==> forall j :: 0 <= j < i ==> !Matches(filters[j], id)
    ensures SelectedSoFar(found, filters, i, sel, ids)
    ensures matched <==> MatchedBy(found.Keys, filters[i]) != {}
    ensures ids == selectedIds + MatchedBy(found.Keys, filters[i])
  {
    sel, ids, matched := selected, selectedIds, false;
    var rest := found.Keys;
    while rest != {}
      invariant rest <= found.Keys
      invariant SelectedSoFar(found, filters, i, sel, ids)
      invariant matched <==> exists id :: id in found.Keys - rest && Matches(filters[i], id)
      invariant ids == selectedIds + (set id | id in found.Keys - rest && Matches(filters[i], id))
    {
      var id :| id in rest;
      rest := rest - {id};
      if Matches(filters[i], id) {
        matched := true;
        if id !in ids {
          FirstMatchIs(filters, i, id);
          SelectedSoFarAppend(found, filters, i, sel, ids, id);
          sel := sel + [Entry(id, found[id])];
          ids := ids + {id};
        }
      }
    }
  }

  /**
   * The filter loop of `selectPackages`: for each filter line in turn, every
   * identity found that the line includes joins `selected` unless already
   * there; a line that includes none throws. The identities of `found` are
   * visited in no fixed order, as a `HashMap`'s are, so within one line the
   * order is not determined.
   */
  method SelectMatching(found: map<PackId, Candidate>, filters: seq<FilterEntry>) returns (r: Outcome<seq<Entry>>)
    ensures var spec := SelectedSpec(found.Keys, filters);
      (r.Exc? <==> spec.Exc?) && (r.Exc? ==> r.error == spec.error) &&
      (r.Ok? ==> Ids(r.value) == spec.value && DistinctIds(r.value) && InFilterOrder(r.value, filters) &&
                 forall e :: e in r.value ==> e.id in found && e.file == found[e.id])
  {
    SelectedSpecMeaning(found.Keys, filters);
    var selected: seq<Entry> := [];
    var selectedIds: set<PackId> := {};
    for i := 0 to |filters|
      invariant forall j :: 0 <= j < i ==> MatchedBy(found.Keys, filters[j]) != {}
      invariant SelectedSoFar(found, filters, i, selected, selectedIds)
      invariant selectedIds == MatchedByAny(found.Keys, filters[..i])
    {
      UnselectedUnmatched(found, filters, i, selectedIds);
      var matched;
      selected, selectedIds, matched := AddMatches(found, filters, i, selected, selectedIds);
      if !matched {
        return Exc(NoMatchMessage(filters[i]));
      }
      MatchedByAnySnoc(found.Keys, filters, i);
    }
    assert filters[..|filters|] == filters;
    r := Ok(selected);
  }

  // ---------------------------------------------------------------------------
  // Highest version per family
  // ---------------------------------------------------------------------------

  /** An identity no earlier line selected is included by none of them. */
  lemma UnselectedUnmatched(found: map<PackId, Candidate>, filters: seq<FilterEntry>, i: nat, selectedIds: set<PackId>)
    requires i <= |filters| && selectedIds == MatchedByAny(found.Keys, filters[..i])
    ensures forall id :: id in found && id !in selectedIds ==> forall j :: 0 <= j < i ==> !Matches(filters[j], id)
  {
    forall id | id in found && id !in selectedIds ensures forall j :: 0 <= j < i ==> !Matches(filters[j], id) {
      forall j | 0 <= j < i ensures !Matches(filters[j], id) {
        assert filters[..i][j] == filters[j];
      }
    }
  }

  /** The identities the first `i + 1` lines include: those of the first `i`, and those of line `i`. */
  lemma MatchedByAnySnoc(found: set<PackId>, filters: seq<FilterEntry>, i: nat)
    requires i < |filters|
    ensures MatchedByAny(found, filters[..i + 1]) == MatchedByAny(found, filters[..i]) + MatchedBy(found, filters[i])
  {
    assert forall j :: 0 <= j < i ==> filters[..i + 1][j] == filters[..i][j];
    assert filters[..i + 1][i] == filters[i];
  }

  /** `id` is the highest version of its `group:name` family among `ids`. */
  predicate IsFamilyMax(id: PackId, ids: set<PackId>, less: (PackId, PackId) -> bool) {
    id in ids && forall other :: other in ids && FamilyKey(other) == FamilyKey(id) ==> other == id || less(other, id)
  }

  /** `Collections.sort(grouping, Collections.reverseOrder()).get(0)`: the highest identity of a grouping. */
  function MaxOf(s: seq<PackId>, less: (PackId, PackId) -> bool): (m: PackId)
    requires |s| > 0 && IsStrictTotalOrder(less)
    ensures m in s
    ensures forall x :: x in s ==> x == m || less(x, m)
  {
    if |s| == 1 then s[0]
    else
      var m := MaxOf(s[1..], less);
      assert forall x :: x in s ==> x == s[0] || x in s[1..];
      if less(m, s[0]) then s[0] else m
  }

  /** The groupings map: the identities of `ids` under their family key. */
  predicate GroupsOf(groupings: map<string, seq<PackId>>, ids: set<PackId>) {
    (forall k :: k in groupings ==> |groupings[k]| > 0) &&
    (forall id :: id in ids ==> FamilyKey(id) in groupings) &&
    (forall k, x :: k in groupings && x in groupings[k] ==> x in ids && FamilyKey(x) == k) &&
    (forall k, x :: k in groupings && x in ids && FamilyKey(x) == k ==> x in groupings[k])
  }

  /** Adding `id` to the list of its family key (created empty when missing) keeps the groupings right. */
  lemma GroupsAdd(groupings: map<string, seq<PackId>>, ids: set<PackId>, id: PackId)
    requires FamilyKey(id) in groupings && id !in ids
    requires forall k :: k in groupings && k != FamilyKey(id) ==> |groupings[k]| > 0
    requires forall x :: x in ids ==> FamilyKey(x) in groupings
    requires forall k, x :: k in groupings && x in groupings[k] ==> x in ids && FamilyKey(x) == k
    requires forall k, x :: k in groupings && x in ids && FamilyKey(x) == k ==> x in groupings[k]
    ensures GroupsOf(groupings[FamilyKey(id) := groupings[FamilyKey(id)] + [id]], ids + {id})
  {
    var key := FamilyKey(id);
    var g := groupings[key := groupings[key] + [id]];
    forall k, x | k in g && x in g[k] ensures x in ids + {id} && FamilyKey(x) == k {
      if k == key {
        assert x in groupings[key] || x == id;
      }
    }
  }

  /** The `maxes` of `selectPackages` are exactly the identities that are highest in their family. */
  lemma MaxesAreFamilyMaxes(groupings: map<string, seq<PackId>>, ids: set<PackId>, less: (PackId, PackId) -> bool)
    requires IsStrictTotalOrder(less) && GroupsOf(groupings, ids)
    ensures (set k | k in groupings :: MaxOf(groupings[k], less)) == set id | id in ids && IsFamilyMax(id, ids, less)
  {
    var maxes := set k | k in groupings :: MaxOf(groupings[k], less);
    forall id | id in maxes ensures IsFamilyMax(id, ids, less) {
      var k :| k in groupings && id == MaxOf(groupings[k], less);
    }
    forall id | id in ids && IsFamilyMax(id, ids, less) ensures id in maxes {
      var k := FamilyKey(id);
      var m := MaxOf(groupings[k], less);
      assert id in groupings[k];
      assert m in ids && FamilyKey(m) == k;
      NotBelowEachOther(m, id, less);
    }
  }

  /** Two identities neither of which is below the other are the same under a strict order. */
  lemma NotBelowEachOther(a: PackId, b: PackId, less: (PackId, PackId) -> bool)
    requires IsStrictTotalOrder(less)
    requires a == b || less(a, b)
    requires a == b || less(b, a)
    ensures a == b
  {
    assert less(a, b) && less(b, a) ==> less(a, a);
  }

  /**
   * The grouping loops of `selectPackages`: each identity found goes into
   * the list of its family key, and the highest of each list is kept.
   */
  method FamilyMaxes(found: set<PackId>, less: (PackId, PackId) -> bool) returns (maxes: set<PackId>)
    requires IsStrictTotalOrder(less)
    ensures maxes == set id | id in found && IsFamilyMax(id, found, less)
  {
    var groupings: map<string, seq<PackId>> := map[];
    var rest := found;
    while rest != {}
      invariant rest <= found
      invariant GroupsOf(groupings, found - rest)
    {
      var id :| id in rest;
      var key := FamilyKey(id);
      if key !in groupings {
        groupings := groupings[key := []];
      }
      GroupsAdd(groupings, found - rest, id);
      groupings := groupings[key := groupings[key] + [id]];
      assert found - (rest - {id}) == (found - rest) + {id};
      rest := rest - {id};
    }
    assert found - rest == found;
    maxes := {};
    var keys := groupings.Keys;
    while keys != {}
      invariant keys <= groupings.Keys
      invariant maxes == set k | k in groupings.Keys - keys :: MaxOf(groupings[k], less)
    {
      var k :| k in keys;
      keys := keys - {k};
      maxes := maxes + {MaxOf(groupings[k], less)};
    }
    MaxesAreFamilyMaxes(groupings, found, less);
  }

  // ---------------------------------------------------------------------------
  // The selection
  // ---------------------------------------------------------------------------

  /** `selected.keySet().retainAll(keep)`: the entries whose identity is kept, in order. */
  function RetainAll(sel: seq<Entry>, keep: set<PackId>): (r: seq<Entry>)
    ensures forall e :: e in r <==> e in sel && e.id in keep
  {
    if sel == [] then []
    else
      assert forall e :: e in sel <==> e == sel[0] || e in sel[1..];
      (if sel[0].id in keep then [sel[0]] else []) + RetainAll(sel[1..], keep)
  }

  /** `x` may come before `y`: a different identity, first included by the same or an earlier line. */
  predicate Before(x: Entry, y: Entry, filters: seq<FilterEntry>) {
    x.id != y.id && FirstMatch(filters, x.id) <= FirstMatch(filters, y.id)
  }

  predicate Ordered(sel: seq<Entry>, filters: seq<FilterEntry>) {
    forall a, b :: 0 <= a < b < |sel| ==> Before(sel[a], sel[b], filters)
  }

  lemma OrderedTail(sel: seq<Entry>, filters: seq<FilterEntry>)
    requires sel != [] && Ordered(sel, filters)
    ensures Ordered(sel[1..], filters)
    ensures forall e :: e in sel[1..] ==> Before(sel[0], e, filters)
  {
    var t := sel[1..];
    assert forall a :: 0 <= a < |t| ==> t[a] == sel[a + 1];
  }

  lemma OrderedCons(x: Entry, s: seq<Entry>, filters: seq<FilterEntry>)
    requires Ordered(s, filters) && forall e :: e in s ==> Before(x, e, filters)
    ensures Ordered([x] + s, filters)
  {
    var r := [x] + s;
    forall a, b | 0 <= a < b < |r| ensures Before(r[a], r[b], filters) {
      assert r[b] == s[b - 1];
      if a > 0 {
        assert r[a] == s[a - 1];
      }
    }
  }

  /** Retaining keeps the order of what it keeps. */
  lemma {:induction false} RetainAllKeepsOrder(sel: seq<Entry>, keep: set<PackId>, filters: seq<FilterEntry>)
    requires Ordered(sel, filters)
    ensures Ordered(RetainAll(sel, keep), filters)
  {
    if sel != [] {
      OrderedTail(sel, filters);
      RetainAllKeepsOrder(sel[1..], keep, filters);
      if sel[0].id in keep {
        OrderedCons(sel[0], RetainAll(sel[1..], keep), filters);
      }
    }
  }

  /** Retaining keeps exactly the identities kept. */
  lemma RetainAllIds(sel: seq<Entry>, keep: set<PackId>)
    ensures Ids(RetainAll(sel, keep)) == Ids(sel) * keep
  {
  }

  /**
   * What a selection holds: distinct identities, in the order of the filter
   * lines that first include them, each with the file found for it, and
   * exactly those of `chosen` that are the highest version of their family
   * among everything found.
   */
  predicate Selects(sel: seq<Entry>, found: map<PackId, Candidate>, chosen: set<PackId>, filters: seq<FilterEntry>,
                    less: (PackId, PackId) -> bool) {
    DistinctIds(sel) && InFilterOrder(sel, filters) &&
    (forall e :: e in sel ==> e.id in found && e.file == found[e.id]) &&
    Ids(sel) == set id | id in chosen && IsFamilyMax(id, found.Keys, less)
  }

  /**
   * `selectPackages`: fails, naming the first filter line that includes no
   * identity found, exactly when there is such a line; otherwise selects the
   * identities some line includes that are the highest of their family among
   * all identities found, each with its newest file.
   */
  method SelectPackages(listed: seq<Candidate>, filters: seq<FilterEntry>, less: (PackId, PackId) -> bool)
    returns (r: Outcome<seq<Entry>>)
    requires IsStrictTotalOrder(less)
    ensures var found := FoundSpec(listed);
      (r.Ok? <==> forall j :: 0 <= j < |filters| ==> MatchedBy(found.Keys, filters[j]) != {}) &&
      (r.Exc? ==> SelectedSpec(found.Keys, filters).Exc? && r.error == SelectedSpec(found.Keys, filters).error) &&
      (r.Ok? ==> Selects(r.value, found, MatchedByAny(found.Keys, filters), filters, less))
  {
    var found := FindPackages(listed);
    SelectedSpecMeaning(found.Keys, filters);
    var selected :- SelectMatching(found, filters);
    var maxes := FamilyMaxes(found.Keys, less);
    assert Ordered(selected, filters);
    RetainAllKeepsOrder(selected, maxes, filters);
    RetainAllIds(selected, maxes);
    r := Ok(RetainAll(selected, maxes));
  }

  /** At most one identity of each family key is selected. */
  lemma OnePerFamily(sel: seq<Entry>, found: map<PackId, Candidate>, chosen: set<PackId>, filters: seq<FilterEntry>,
                     less: (PackId, PackId) -> bool)
    requires IsStrictTotalOrder(less) && Selects(sel, found, chosen, filters, less)
    ensures forall a, b :: 0 <= a < |sel| && 0 <= b < |sel| && FamilyKey(sel[a].id) == FamilyKey(sel[b].id) ==> a == b
  {
    forall a, b | 0 <= a < |sel| && 0 <= b < |sel| && FamilyKey(sel[a].id) == FamilyKey(sel[b].id) ensures a == b {
      var x, y := sel[a].id, sel[b].id;
      assert x in Ids(sel) && y in Ids(sel);
      assert IsFamilyMax(x, found.Keys, less) && IsFamilyMax(y, found.Keys, less);
      assert x == y;
    }
  }

  /** An identity matched by a filter line is dropped whenever a higher version of its family was found. */
  lemma LowerVersionDropped(sel: seq<Entry>, found: map<PackId, Candidate>, chosen: set<PackId>, filters: seq<FilterEntry>,
                            less: (PackId, PackId) -> bool, id: PackId, higher: PackId)
    requires IsStrictTotalOrder(less) && Selects(sel, found, chosen, filters, less)
    requires higher in found && FamilyKey(higher) == FamilyKey(id) && less(id, higher)
    ensures id !in Ids(sel)
  {
    assert id in Ids(sel) ==> IsFamilyMax(id, found.Keys, less);
  }
}
