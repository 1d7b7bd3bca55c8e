/**
 * `DefaultPackIdFilter`: a filter over package identities read from a
 * `group:name:version` string, where a missing or empty segment imposes
 * nothing and `*` admits any value. The older copy of the class is the same
 * code and is modelled by the same members.
 */
module PackIdFilters {
  import opened JavaLang
  import opened PackIds

  /** Each segment is a Java string that may be null. */
  datatype PackIdFilter = PackIdFilter(group: Option<string>, name: Option<string>, version: Option<string>)

  const WILDCARD: string := "*"

  const INCLUDE_ALL_FILTER: PackIdFilter := PackIdFilter(None, None, None)

  /** One field check of `includes`: only a present, non-empty segment constrains the field. */
  predicate Admits(segment: Option<string>, value: string) {
    match segment
    case None => true
    case Some(s) => |s| == 0 || s == WILDCARD || s == value
  }

  /** `includes`: the conjunction of the three field checks. */
  predicate Includes(f: PackIdFilter, id: PackId) {
    Admits(f.group, id.group) && Admits(f.name, id.name) && Admits(f.version, id.version)
  }

  /** The segments a filter holds, in `group:name:version` order. */
  function Segments(f: PackIdFilter): seq<string> {
    (if f.group.Some? then [f.group.value] else []) +
    (if f.name.Some? then [f.name.value] else []) +
    (if f.version.Some? then [f.version.value] else [])
  }

  /**
   * `parse`: null gives the include-all filter; otherwise the trimmed string
   * is split on ':' with Java's rules, and one, two or three segments set the
   * name, group and name, or all three fields; any other count includes all.
   */
  function Parse(filterString: Option<string>): (f: PackIdFilter)
    ensures filterString.None? ==> f == INCLUDE_ALL_FILTER
    ensures f.version.Some? ==> f.group.Some?
    ensures f.group.Some? ==> f.name.Some?
  {
    match filterString
    case None => INCLUDE_ALL_FILTER
    case Some(s) =>
      var parts := Split(Trim(s), ':');
      if |parts| == 1 then PackIdFilter(None, Some(parts[0]), None)
      else if |parts| == 2 then PackIdFilter(Some(parts[0]), Some(parts[1]), None)
      else if |parts| == 3 then PackIdFilter(Some(parts[0]), Some(parts[1]), Some(parts[2]))
      else INCLUDE_ALL_FILTER
  }

  /** The include-all filter, and so `parse(null)`, includes every identity. */
  lemma IncludeAllIncludesEvery(id: PackId)
    ensures Includes(INCLUDE_ALL_FILTER, id) && Includes(Parse(None), id)
  {
  }

  /**
   * Parsing loses nothing but trailing colons: no segment holds a colon and,
   * unless the result is the include-all filter, the segments joined with ':'
   * are a prefix of the trimmed string and only colons follow.
   */
  lemma ParseKeepsSegments(s: string)
    ensures var f := Parse(Some(s)); var j := Join(Segments(f), ':'); var t := Trim(s);
      (forall i :: 0 <= i < |Segments(f)| ==> ':' !in Segments(f)[i]) &&
      (f != INCLUDE_ALL_FILTER ==> |j| <= |t| && j == t[..|j|] && forall i :: |j| <= i < |t| ==> t[i] == ':')
  {
    var t := Trim(s);
    var parts := Split(t, ':');
    SplitLosesOnlyTrailingSeparators(t, ':');
    var f := Parse(Some(s));
    if |parts| == 1 {
      assert Segments(f) == parts;
    } else if |parts| == 2 {
      assert Segments(f) == parts;
    } else if |parts| == 3 {
      assert Segments(f) == parts;
    } else {
      assert Segments(f) == [];
    }
  }

  /** A blank filter string (`""` among them) parses to a filter that includes every identity. */
  lemma ParseBlankIncludesAll(s: string, id: PackId)
    requires forall i :: 0 <= i < |s| ==> Trimmable(s[i])
    ensures Includes(Parse(Some(s)), id)
  {
    TrimEmptyIff(s);
    assert Split(Trim(s), ':') == [""];
  }

  /** A string of nothing but colons (`"::"`) splits into no segment and includes all. */
  lemma ParseColonsIncludesAll(n: nat)
    requires n >= 1
    ensures Parse(Some(Separators(n, ':'))) == INCLUDE_ALL_FILTER
  {
    var s := Separators(n, ':');
    TrimOfTrimmed(s);
    ColonsSplitToNothing(n);
  }

  lemma {:induction false} ColonsSplitToNothing(n: nat)
    requires n >= 1
    ensures DropTrailingEmpty(Pieces(Separators(n, ':'), ':')) == []
  {
    var s := Separators(n, ':');
    var ps := Pieces(s, ':');
    AllEmptyPieces(n);
  }

  lemma {:induction false} AllEmptyPieces(n: nat)
    ensures forall i :: 0 <= i < |Pieces(Separators(n, ':'), ':')| ==> Pieces(Separators(n, ':'), ':')[i] == ""
  {
    if n > 0 {
      AllEmptyPieces(n - 1);
      assert Separators(n, ':')[1..] == Separators(n - 1, ':');
    }
  }

  /** The pieces of `a:b:c` when no segment holds a colon. */
  lemma ThreePieces(a: string, b: string, c: string)
    requires ':' !in a && ':' !in b && ':' !in c
    ensures Pieces(a + ":" + b + ":" + c, ':') == [a, b, c]
  {
    PiecesOfPlain(c, ':');
    PiecesCons(b, ':', c);
    PiecesCons(a, ':', b + ":" + c);
    assert a + ":" + b + ":" + c == a + [':'] + (b + [':'] + c);
  }

  /**
   * A fully literal `group:name:version` string includes exactly the identity
   * it spells: literal segments compare by exact, case-sensitive equality.
   */
  lemma ParseLiteralIncludesExactly(g: string, n: string, v: string, id: PackId)
    requires g != "" && n != "" && v != ""
    requires g != WILDCARD && n != WILDCARD && v != WILDCARD
    requires ':' !in g && ':' !in n && ':' !in v
    requires !Trimmable(g[0]) && !Trimmable(v[|v| - 1])
    ensures Includes(Parse(Some(g + ":" + n + ":" + v)), id) <==> id == PackId(g, n, v)
  {
    var s := g + ":" + n + ":" + v;
    TrimOfTrimmed(s);
    ThreePieces(g, n, v);
    assert s[|g|] == ':';
    assert Parse(Some(s)) == PackIdFilter(Some(g), Some(n), Some(v));
  }

  /** `*:name:*` includes an identity exactly when its name matches, whatever its group and version. */
  lemma ParseWildcardsIncludeAnyGroupAndVersion(n: string, id: PackId)
    requires n != "" && n != WILDCARD && ':' !in n
    ensures Includes(Parse(Some("*:" + n + ":*")), id) <==> id.name == n
  {
    var s := "*:" + n + ":*";
    assert s == "*" + ":" + n + ":" + "*";
    TrimOfTrimmed(s);
    ThreePieces("*", n, "*");
    assert s[1] == ':';
    assert Parse(Some(s)) == PackIdFilter(Some("*"), Some(n), Some("*"));
  }

  /** A single segment constrains only the name. */
  lemma ParseOneSegment(n: string)
    requires ':' !in n
    requires n == [] || (!Trimmable(n[0]) && !Trimmable(n[|n| - 1]))
    ensures Parse(Some(n)) == PackIdFilter(None, Some(n), None)
  {
    TrimOfTrimmed(n);
  }

  /** Two segments constrain the group and the name. */
  lemma ParseTwoSegments(g: string, n: string)
    requires n != "" && ':' !in g && ':' !in n
    requires g == [] || !Trimmable(g[0])
    requires !Trimmable(n[|n| - 1])
    ensures Parse(Some(g + ":" + n)) == PackIdFilter(Some(g), Some(n), None)
  {
    var s2 := g + ":" + n;
    TrimOfTrimmed(s2);
    PiecesOfPlain(n, ':');
    PiecesCons(g, ':', n);
    assert s2 == g + [':'] + n && s2[|g|] == ':';
  }

  /** A trailing colon is dropped by the split, so `group:name:` parses as `group:name`. */
  lemma ParseTrailingColonDropped(g: string, n: string)
    requires n != "" && ':' !in g && ':' !in n
    requires g == [] || !Trimmable(g[0])
    requires !Trimmable(n[|n| - 1])
    ensures Parse(Some(g + ":" + n + ":")) == Parse(Some(g + ":" + n)) == PackIdFilter(Some(g), Some(n), None)
  {
    ParseTwoSegments(g, n);
    TrailingColonTrimmed(g, n);
    SplitTrailingColon(g, n);
  }

  lemma TrailingColonTrimmed(g: string, n: string)
    requires g == [] || !Trimmable(g[0])
    ensures Trim(g + ":" + n + ":") == g + ":" + n + ":"
  {
    var s3 := g + ":" + n + ":";
    assert s3[|g|] == ':' && s3[|s3| - 1] == ':';
    TrimOfTrimmed(s3);
  }

  lemma SplitTrailingColon(g: string, n: string)
    requires n != "" && ':' !in g && ':' !in n
    ensures Split(g + ":" + n + ":", ':') == [g, n]
  {
    var s3 := g + ":" + n + ":";
    assert s3 == g + ":" + n + ":" + "" && s3[|g|] == ':';
    ThreePieces(g, n, "");
    var ps := [g, n, ""];
    assert ps[..2] == [g, n];
    assert DropTrailingEmpty(ps) == DropTrailingEmpty([g, n]);
  }

  /** Four or more segments fall back to the include-all filter. */
  lemma ParseFourSegmentsIncludesAll(a: string, b: string, c: string, d: string)
    requires d != "" && ':' !in a && ':' !in b && ':' !in c && ':' !in d
    requires a == [] || !Trimmable(a[0])
    requires !Trimmable(d[|d| - 1])
    ensures Parse(Some(a + ":" + b + ":" + c + ":" + d)) == INCLUDE_ALL_FILTER
  {
    FourSegmentsTrimmed(a, b, c, d);
    SplitFourSegments(a, b, c, d);
  }

  lemma FourSegmentsTrimmed(a: string, b: string, c: string, d: string)
    requires d != ""
    requires a == [] || !Trimmable(a[0])
    requires !Trimmable(d[|d| - 1])
    ensures Trim(a + ":" + b + ":" + c + ":" + d) == a + ":" + b + ":" + c + ":" + d
  {
    var s := a + ":" + b + ":" + c + ":" + d;
    assert s[|a|] == ':' && s[|s| - 1] == d[|d| - 1];
    TrimOfTrimmed(s);
  }

  lemma SplitFourSegments(a: string, b: string, c: string, d: string)
    requires d != "" && ':' !in a && ':' !in b && ':' !in c && ':' !in d
    ensures Split(a + ":" + b + ":" + c + ":" + d, ':') == [a, b, c, d]
  {
    var rest := b + ":" + c + ":" + d;
    var s := a + ":" + b + ":" + c + ":" + d;
    assert s == a + [':'] + rest;
    assert s[|a|] == ':';
    ThreePieces(b, c, d);
    PiecesCons(a, ':', rest);
  }
}
