/**
 * Package identities. The identity type, its natural order, reading an
 * identity from a package file and parsing one from a string belong to the
 * package-manager client library; here the identity is a plain triple, and
 * the order and the two readers are parameters of the operations that use
 * them.
 */
module PackIds {
  import opened JavaLang

  datatype PackId = PackId(group: string, name: string, version: string)

  /** The `group + ":" + name` key the selection groups versions under. */
  function FamilyKey(id: PackId): string {
    id.group + ":" + id.name
  }

  /** What the library's natural order of identities is assumed to be: a strict total order. */
  ghost predicate IsStrictTotalOrder(less: (PackId, PackId) -> bool) {
    (forall p :: !less(p, p)) &&
    (forall p, q, r :: less(p, q) && less(q, r) ==> less(p, r)) &&
    (forall p, q :: p != q ==> less(p, q) || less(q, p))
  }

  /** Two identities of one `(group, name)` family share a key. */
  lemma SameFamilySameKey(p: PackId, q: PackId)
    requires p.group == q.group && p.name == q.name
    ensures FamilyKey(p) == FamilyKey(q)
  {
  }

  /**
   * The converse fails: a group or name holding ':' lets two different
   * families share one key, so the selection treats them as one family.
   */
  lemma FamilyKeyCollision()
    ensures var p := PackId("a:b", "c", "1"); var q := PackId("a", "b:c", "2");
      (p.group, p.name) != (q.group, q.name) && FamilyKey(p) == FamilyKey(q)
  {
    assert "a:b" + ":" + "c" == "a" + ":" + "b:c";
  }

  /** The identities `parsePid` reads from the lines, skipping the lines it rejects, in line order. */
  function ParsedIds(lines: seq<string>, parsePid: string -> Option<PackId>): (r: seq<PackId>)
    ensures |r| <= |lines|
  {
    if lines == [] then []
    else
      var init := lines[..|lines| - 1];
      var last := lines[|lines| - 1];
      match parsePid(last)
      case None => ParsedIds(init, parsePid)
      case Some(id) => ParsedIds(init, parsePid) + [id]
  }

  /** An identity is listed iff some line parses to it. */
  lemma {:induction false} ParsedIdsMembers(lines: seq<string>, parsePid: string -> Option<PackId>, id: PackId)
    ensures id in ParsedIds(lines, parsePid) <==> exists l :: l in lines && parsePid(l) == Some(id)
  {
    if lines != [] {
      var init := lines[..|lines| - 1];
      var last := lines[|lines| - 1];
      assert lines == init + [last];
      ParsedIdsMembers(init, parsePid, id);
      if id in ParsedIds(lines, parsePid) && id !in ParsedIds(init, parsePid) {
        assert parsePid(last) == Some(id);
      }
      if l :| l in lines && parsePid(l) == Some(id) {
        if l != last {
          assert l in init;
        }
      }
    }
  }

  /** Parsing keeps the line order: it distributes over concatenation. */
  lemma {:induction false} ParsedIdsAppend(xs: seq<string>, ys: seq<string>, parsePid: string -> Option<PackId>)
    ensures ParsedIds(xs + ys, parsePid) == ParsedIds(xs, parsePid) + ParsedIds(ys, parsePid)
  {
    if ys == [] {
      assert xs + ys == xs;
    } else {
      var init := ys[..|ys| - 1];
      ParsedIdsAppend(xs, init, parsePid);
      assert (xs + ys)[..|xs + ys| - 1] == xs + init;
    }
  }

  /** The loop of `listPackIds` and `getSelectedPackIds`: parse each line, keep the identities. */
  method ListParsed(lines: seq<string>, parsePid: string -> Option<PackId>) returns (ids: seq<PackId>)
    ensures ids == ParsedIds(lines, parsePid)
  {
    ids := [];
    for i := 0 to |lines|
      invariant ids == ParsedIds(lines[..i], parsePid)
    {
      assert lines[..i + 1][..i] == lines[..i];
      var parsed := parsePid(lines[i]);
      if parsed.Some? {
        ids := ids + [parsed.value];
      }
    }
    assert lines[..|lines|] == lines;
  }
}
