/**
 * The parts of Java's `java.lang` the plugin's decisions depend on, with Java's
 * own semantics: nullable references, `int`/`long`, `String.trim`,
 * `String.split` (trailing empty strings removed, a string without separator
 * returned whole), splitting on the regular expression `\r?\n`,
 * `equalsIgnoreCase`, and joining with a separator.
 */
module JavaLang {

  /** A Java reference that may be null. */
  datatype Option<+T> = None | Some(value: T)

  /** Java `int` and `long`. */
  newtype i32 = x: int | -0x8000_0000 <= x < 0x8000_0000
  newtype i64 = x: int | -0x8000_0000_0000_0000 <= x < 0x8000_0000_0000_0000

  // ---------------------------------------------------------------------------
  // String.trim
  // ---------------------------------------------------------------------------

  /** `String.trim` removes leading and trailing chars whose code is at most U+0020. */
  predicate Trimmable(c: char) {
    c <= ' '
  }

  function TrimLeading(s: string): (r: string)
    ensures |r| <= |s| && r == s[|s| - |r|..]
    ensures r == [] || !Trimmable(r[0])
    ensures forall i :: 0 <= i < |s| - |r| ==> Trimmable(s[i])
  {
    if |s| > 0 && Trimmable(s[0]) then TrimLeading(s[1..]) else s
  }

  function TrimTrailing(s: string): (r: string)
    ensures |r| <= |s| && r == s[..|r|]
    ensures r == [] || !Trimmable(r[|r| - 1])
    ensures forall i :: |r| <= i < |s| ==> Trimmable(s[i])
  {
    if |s| > 0 && Trimmable(s[|s| - 1]) then TrimTrailing(s[..|s| - 1]) else s
  }

  /** `String.trim`. */
  function Trim(s: string): (r: string)
    ensures |r| <= |s|
    ensures r == [] || (!Trimmable(r[0]) && !Trimmable(r[|r| - 1]))
  {
    var t := TrimTrailing(s);
    var r := TrimLeading(t);
    assert r != [] ==> r[|r| - 1] == t[|t| - 1];
    r
  }

  /** A string trims to nothing exactly when every char of it is trimmable. */
  lemma TrimEmptyIff(s: string)
    ensures Trim(s) == [] <==> forall i :: 0 <= i < |s| ==> Trimmable(s[i])
  {
    var t := TrimTrailing(s);
    if t != [] {
      assert TrimLeading(t) != [] by {
        assert !Trimmable(t[|t| - 1]);
      }
    }
  }

  /** `s.trim().length() == 0`: the string holds nothing but chars up to U+0020. */
  predicate IsBlank(s: string) {
    Trim(s) == []
  }

  /** A string whose ends are not trimmable is its own trim. */
  lemma TrimOfTrimmed(s: string)
    requires s == [] || (!Trimmable(s[0]) && !Trimmable(s[|s| - 1]))
    ensures Trim(s) == s
  {
  }

  lemma TrimIdempotent(s: string)
    ensures Trim(Trim(s)) == Trim(s)
  {
    TrimOfTrimmed(Trim(s));
  }

  // ---------------------------------------------------------------------------
  // Splitting and joining on one separator char
  // ---------------------------------------------------------------------------

  /** Every piece of `s` between two occurrences of `sep`, empty pieces included. */
  function Pieces(s: string, sep: char): (r: seq<string>)
    ensures |r| >= 1
    ensures forall i :: 0 <= i < |r| ==> sep !in r[i]
  {
    if |s| == 0 then [""]
    else
      var rest := Pieces(s[1..], sep);
      if s[0] == sep then [""] + rest else [[s[0]] + rest[0]] + rest[1..]
  }

  /** `String.join` with a one-char separator (also `StringUtils.join(values, "\n")`). */
  function Join(ps: seq<string>, sep: char): string
  {
    if |ps| == 0 then ""
    else if |ps| == 1 then ps[0]
    else ps[0] + [sep] + Join(ps[1..], sep)
  }

  /** Joining the pieces of a string gives the string back. */
  lemma {:induction false} JoinPieces(s: string, sep: char)
    ensures Join(Pieces(s, sep), sep) == s
  {
    if |s| > 0 {
      var rest := Pieces(s[1..], sep);
      JoinPieces(s[1..], sep);
      if s[0] == sep {
        assert Pieces(s, sep) == [""] + rest;
        assert ([""] + rest)[1..] == rest;
      } else {
        var ps := [[s[0]] + rest[0]] + rest[1..];
        assert Pieces(s, sep) == ps;
        if |rest| == 1 {
          assert s == [s[0]] + s[1..];
        } else {
          assert ps[1..] == rest[1..];
          assert Join(rest, sep) == rest[0] + [sep] + Join(rest[1..], sep);
          assert s == [s[0]] + s[1..];
        }
      }
    }
  }

  /** A piece free of the separator, followed by the separator, splits off as one piece. */
  lemma {:induction false} PiecesCons(a: string, sep: char, b: string)
    requires sep !in a
    ensures Pieces(a + [sep] + b, sep) == [a] + Pieces(b, sep)
  {
    if |a| > 0 {
      PiecesCons(a[1..], sep, b);
      assert (a + [sep] + b)[1..] == a[1..] + [sep] + b;
      assert [a[0]] + a[1..] == a;
    } else {
      assert a + [sep] + b == [sep] + b;
      assert ([sep] + b)[1..] == b;
    }
  }

  /** A string free of the separator is a single piece. */
  lemma {:induction false} PiecesOfPlain(a: string, sep: char)
    requires sep !in a
    ensures Pieces(a, sep) == [a]
  {
    if |a| > 0 {
      PiecesOfPlain(a[1..], sep);
      assert [a[0]] + a[1..] == a;
    }
  }

  /** Splitting a join of separator-free pieces gives the pieces back. */
  lemma {:induction false} PiecesJoin(ps: seq<string>, sep: char)
    requires |ps| >= 1
    requires forall i :: 0 <= i < |ps| ==> sep !in ps[i]
    ensures Pieces(Join(ps, sep), sep) == ps
  {
    if |ps| == 1 {
      PiecesOfPlain(ps[0], sep);
    } else {
      PiecesJoin(ps[1..], sep);
      PiecesCons(ps[0], sep, Join(ps[1..], sep));
      assert [ps[0]] + ps[1..] == ps;
    }
  }

  /** `String.split` drops every trailing empty string of the raw pieces. */
  function DropTrailingEmpty(ps: seq<string>): (r: seq<string>)
    ensures |r| <= |ps| && r == ps[..|r|]
    ensures r == [] || r[|r| - 1] != ""
    ensures forall i :: |r| <= i < |ps| ==> ps[i] == ""
  {
    if |ps| == 0 then []
    else if ps[|ps| - 1] == "" then DropTrailingEmpty(ps[..|ps| - 1])
    else ps
  }

  /**
   * `s.split(String.valueOf(sep))` in Java: a string without the separator is
   * returned whole (so `""` gives `[""]`); otherwise the pieces with trailing
   * empty strings removed (so `"::"` gives no piece at all).
   */
  function Split(s: string, sep: char): (r: seq<string>)
    ensures sep !in s ==> r == [s]
    ensures sep in s ==> r == [] || r[|r| - 1] != ""
    ensures forall i :: 0 <= i < |r| ==> sep !in r[i]
  {
    if sep !in s then [s] else DropTrailingEmpty(Pieces(s, sep))
  }

  /** Joining empty pieces onto a join only appends separators. */
  lemma {:induction false} JoinEmptyTail(ps: seq<string>, k: nat, sep: char)
    requires |ps| >= 1
    requires k <= |ps|
    requires forall i :: k <= i < |ps| ==> ps[i] == ""
    ensures k >= 1 ==> Join(ps, sep) == Join(ps[..k], sep) + Separators(|ps| - k, sep)
    ensures k == 0 ==> Join(ps, sep) == Separators(|ps| - 1, sep)
  {
    if |ps| == 1 {
      if k == 0 {
        assert Join(ps, sep) == "";
      } else {
        assert ps[..k] == ps;
      }
    } else {
      var tail := ps[1..];
      if k == 0 {
        JoinEmptyTail(tail, 0, sep);
        assert Join(ps, sep) == "" + [sep] + Join(tail, sep);
      } else if k == 1 {
        JoinEmptyTail(tail, 0, sep);
        assert ps[..k] == [ps[0]];
      } else {
        JoinEmptyTail(tail, k - 1, sep);
        assert tail[..k - 1] == ps[1..k];
        assert ps[..k][1..] == ps[1..k];
      }
    }
  }

  /** `n` copies of the separator. */
  function Separators(n: nat, sep: char): (r: string)
    ensures |r| == n && forall i :: 0 <= i < n ==> r[i] == sep
  {
    if n == 0 then "" else [sep] + Separators(n - 1, sep)
  }

  /**
   * `String.split` loses nothing but trailing separators: joining its result
   * back gives a prefix of the input, and the rest of the input is separators.
   */
  lemma SplitLosesOnlyTrailingSeparators(s: string, sep: char)
    ensures var j := Join(Split(s, sep), sep);
      |j| <= |s| && j == s[..|j|] && forall i :: |j| <= i < |s| ==> s[i] == sep
  {
    if sep in s {
      var ps := Pieces(s, sep);
      var r := DropTrailingEmpty(ps);
      JoinPieces(s, sep);
      JoinEmptyTail(ps, |r|, sep);
      assert ps[..|r|] == r;
    }
  }

  // ---------------------------------------------------------------------------
  // Splitting on the regular expression \r?\n
  // ---------------------------------------------------------------------------

  /** Removes one '\r' at the end, the part of a "\r\n" terminator left before the '\n'. */
  function DropCarriageReturn(p: string): (r: string)
    ensures r == p || (p == r + ['\r'])
  {
    if |p| > 0 && p[|p| - 1] == '\r' then p[..|p| - 1] else p
  }

  /** The raw pieces of a split on `\r?\n`: cut at every '\n', and a '\r' just before it goes too. */
  function LinePieces(s: string): (r: seq<string>)
    ensures |r| == |Pieces(s, '\n')| >= 1
    ensures forall i :: 0 <= i < |r| ==> '\n' !in r[i]
  {
    var ps := Pieces(s, '\n');
    seq(|ps|, i requires 0 <= i < |ps| => if i < |ps| - 1 then DropCarriageReturn(ps[i]) else ps[i])
  }

  /** `s.split("\\r?\\n")` in Java. */
  function SplitLines(s: string): (r: seq<string>)
    ensures '\n' !in s ==> r == [s]
    ensures '\n' in s ==> r == [] || r[|r| - 1] != ""
    ensures forall i :: 0 <= i < |r| ==> '\n' !in r[i]
  {
    if '\n' !in s then [s] else DropTrailingEmpty(LinePieces(s))
  }

  /**
   * Joining lines with "\n" and splitting on `\r?\n` gives the lines back,
   * provided no line holds a '\n', no line but the last ends in '\r', and the
   * last line is not empty (Java would drop it) unless it is the only one.
   */
  lemma SplitLinesJoin(ls: seq<string>)
    requires |ls| >= 1
    requires forall i :: 0 <= i < |ls| ==> '\n' !in ls[i]
    requires forall i :: 0 <= i < |ls| - 1 ==> ls[i] == [] || ls[i][|ls[i]| - 1] != '\r'
    requires |ls| == 1 || ls[|ls| - 1] != ""
    ensures SplitLines(Join(ls, '\n')) == ls
  {
    var s := Join(ls, '\n');
    if |ls| == 1 {
      assert s == ls[0];
    } else {
      PiecesJoin(ls, '\n');
      assert s == ls[0] + ['\n'] + Join(ls[1..], '\n');
      assert s[|ls[0]|] == '\n';
      assert LinePieces(s) == ls;
    }
  }

  // ---------------------------------------------------------------------------
  // String.equalsIgnoreCase
  // ---------------------------------------------------------------------------

  /**
   * `Character.toUpperCase` for every char whose upper case is an ASCII char:
   * the ASCII letters, U+0131 (dotless i) and U+017F (long s). Other chars map
   * to themselves here.
   */
  function ToUpper(c: char): char {
    if 'a' <= c <= 'z' then (c as int - 32) as char
    else if c == '\U{131}' then 'I'
    else if c == '\U{17F}' then 'S'
    else c
  }

  /**
   * `Character.toLowerCase` for every char whose lower case is an ASCII char:
   * the ASCII letters, U+0130 (dotted capital I) and U+212A (Kelvin sign).
   */
  function ToLower(c: char): char {
    if 'A' <= c <= 'Z' then (c as int + 32) as char
    else if c == '\U{130}' then 'i'
    else if c == '\U{212A}' then 'k'
    else c
  }

  /** The char test of `String.regionMatches(true, ...)`. */
  predicate CharEqualsIgnoreCase(a: char, b: char) {
    a == b || ToUpper(a) == ToUpper(b) || ToLower(ToUpper(a)) == ToLower(ToUpper(b))
  }

  /**
   * `String.equalsIgnoreCase`. Exact whenever one side is ASCII, which is how
   * the plugin uses it (against lower-case keywords).
   */
  predicate EqualsIgnoreCase(s: string, t: string) {
    |s| == |t| && forall i :: 0 <= i < |s| ==> CharEqualsIgnoreCase(s[i], t[i])
  }
}
