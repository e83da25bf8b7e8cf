/** `StringUtils.camelize(string)` with its default `uppercase_first_letter = true`
    (lib/string_utils.rb). The source is three regular-expression passes; each
    pass is one function here, and `CamelFrom` is an independent
    character-by-character definition of the same output. */
module StringUtils {
  import opened RubyText

  // The character class `[a-z\d]` of both regular expressions.
  predicate IsWordChar(c: char) {
    'a' <= c <= 'z' || '0' <= c <= '9'
  }

  predicate IsSeparator(c: char) {
    c == '_' || c == '/'
  }

  /** ASCII downcase; every other character is left alone. */
  function Downcase(c: char): (d: char)
    ensures IsUpper(c) ==> IsLower(d)
    ensures !IsUpper(c) ==> d == c
  {
    if IsUpper(c) then (c as int + 32) as char else c
  }

  function DowncaseAll(s: string): (r: string)
    ensures |r| == |s|
  {
    if s == [] then [] else [Downcase(s[0])] + DowncaseAll(s[1..])
  }

  /** `String#capitalize`: first character upcased, the rest downcased. */
  function Capitalize(s: string): string {
    if s == [] then [] else [Upcase(s[0])] + DowncaseAll(s[1..])
  }

  // Length of the longest prefix made of `[a-z\d]` characters.
  function RunLength(s: string): (n: nat)
    ensures n <= |s|
    ensures forall i :: 0 <= i < n ==> IsWordChar(s[i])
    ensures n < |s| ==> !IsWordChar(s[n])
  {
    if s == [] || !IsWordChar(s[0]) then 0 else 1 + RunLength(s[1..])
  }

  // First pass: `sub` of the leading `[a-z\d]` run by its capitalization.
  function CapitalizeLeadingRun(s: string): string {
    var n := RunLength(s);
    Capitalize(s[..n]) + s[n..]
  }

  // Second pass, the first `gsub`: every `_` or `/` together with the run of
  // `[a-z\d]` after it is replaced by the captured `/` (nothing for `_`)
  // followed by the capitalized run.
  function CapitalizeAfterSeparators(s: string): string
    decreases |s|
  {
    if s == [] then []
    else if IsSeparator(s[0]) then
      var n := RunLength(s[1..]);
      (if s[0] == '/' then "/" else "") + Capitalize(s[1..1 + n]) + CapitalizeAfterSeparators(s[1 + n..])
    else
      [s[0]] + CapitalizeAfterSeparators(s[1..])
  }

  /** Third pass: `gsub('/', '::')`. */
  function ExpandSlashes(s: string): string {
    if s == [] then []
    else (if s[0] == '/' then "::" else [s[0]]) + ExpandSlashes(s[1..])
  }

  /** `StringUtils.camelize(string)`. */
  function Camelize(s: string): string {
    ExpandSlashes(CapitalizeAfterSeparators(CapitalizeLeadingRun(s)))
  }

  /** Reference definition, one input character at a time: `_` disappears,
      `/` becomes `::`, and a character is upcased exactly when it starts the
      string or follows a separator (`boundary`). */
  function CamelFrom(s: string, boundary: bool): string {
    if s == [] then []
    else if s[0] == '_' then CamelFrom(s[1..], true)
    else if s[0] == '/' then "::" + CamelFrom(s[1..], true)
    else [if boundary then Upcase(s[0]) else s[0]] + CamelFrom(s[1..], false)
  }

  // ---------------------------------------------------------------------
  // The three passes compute the reference definition

  lemma {:induction false} DowncaseWordRun(s: string)
    requires forall i :: 0 <= i < |s| ==> IsWordChar(s[i])
    ensures DowncaseAll(s) == s
  {
    if s != [] {
      DowncaseWordRun(s[1..]);
    }
  }

  /** Behind a run of word characters the boundary flag no longer matters. */
  lemma {:induction false} CamelFromWordRun(w: string, r: string, boundary: bool)
    requires w != []
    requires forall i :: 0 <= i < |w| ==> IsWordChar(w[i])
    ensures CamelFrom(w + r, boundary) == (if boundary then Capitalize(w) else w) + CamelFrom(r, false)
  {
    assert (w + r)[1..] == w[1..] + r;
    DowncaseWordRun(w[1..]);
    if |w| > 1 {
      CamelFromWordRun(w[1..], r, false);
    } else {
      assert w[1..] + r == r;
    }
  }

  /** A boundary before a non-word character has no effect. */
  lemma CamelFromBoundaryIrrelevant(s: string)
    requires s == [] || !IsWordChar(s[0])
    ensures CamelFrom(s, true) == CamelFrom(s, false)
  {
  }

  lemma {:induction false} ExpandSlashesAppend(a: string, b: string)
    ensures ExpandSlashes(a + b) == ExpandSlashes(a) + ExpandSlashes(b)
  {
    if a == [] {
      assert a + b == b;
    } else {
      assert (a + b)[1..] == a[1..] + b;
      ExpandSlashesAppend(a[1..], b);
    }
  }

  lemma {:induction false} ExpandSlashesNoSlash(a: string)
    requires '/' !in a
    ensures ExpandSlashes(a) == a
  {
    if a != [] {
      ExpandSlashesNoSlash(a[1..]);
    }
  }

  // One step of the second pass over a character it leaves alone.
  lemma CapitalizeAfterSeparatorsCons(s: string)
    requires s != [] && !IsSeparator(s[0])
    ensures CapitalizeAfterSeparators(s) == [s[0]] + CapitalizeAfterSeparators(s[1..])
  {
  }

  // One step of the second pass over a separator and the run after it.
  lemma CapitalizeAfterSeparatorsAt(s: string)
    requires s != [] && IsSeparator(s[0])
    ensures var n := RunLength(s[1..]);
      CapitalizeAfterSeparators(s)
      == (if s[0] == '/' then "/" else "") + Capitalize(s[1..1 + n]) + CapitalizeAfterSeparators(s[1 + n..])
  {
  }

  lemma {:induction false} CapitalizeAfterSeparatorsPrefix(a: string, b: string)
    requires forall i :: 0 <= i < |a| ==> !IsSeparator(a[i])
    ensures CapitalizeAfterSeparators(a + b) == a + CapitalizeAfterSeparators(b)
  {
    if a == [] {
      assert a + b == b;
    } else {
      var ab, tail := a + b, CapitalizeAfterSeparators(b);
      assert ab[0] == a[0] && ab[1..] == a[1..] + b;
      CapitalizeAfterSeparatorsCons(ab);
      CapitalizeAfterSeparatorsPrefix(a[1..], b);
      assert [a[0]] + (a[1..] + tail) == a + tail;
    }
  }

  lemma CapitalizedRunHasNoSeparator(w: string)
    requires forall i :: 0 <= i < |w| ==> IsWordChar(w[i])
    ensures forall i :: 0 <= i < |Capitalize(w)| ==> !IsSeparator(Capitalize(w)[i])
    ensures '/' !in Capitalize(w)
  {
    if w != [] {
      DowncaseWordRun(w[1..]);
    }
  }

  /** The replacement the second pass makes for one separator, after the third pass. */
  lemma SeparatorReplacement(c: char, w: string)
    requires IsSeparator(c)
    requires forall i :: 0 <= i < |w| ==> IsWordChar(w[i])
    ensures ExpandSlashes((if c == '/' then "/" else "") + Capitalize(w))
         == (if c == '/' then "::" else "") + Capitalize(w)
  {
    CapitalizedRunHasNoSeparator(w);
    ExpandSlashesAppend(if c == '/' then "/" else "", Capitalize(w));
    ExpandSlashesNoSlash(Capitalize(w));
  }

  /** The reference definition on a separator followed by its run `w` and the rest `r`. */
  lemma CamelFromAtSeparator(s: string, w: string, r: string)
    requires s != [] && IsSeparator(s[0]) && s[1..] == w + r
    requires forall i :: 0 <= i < |w| ==> IsWordChar(w[i])
    requires r == [] || !IsWordChar(r[0])
    ensures CamelFrom(s, false) == (if s[0] == '/' then "::" else "") + Capitalize(w) + CamelFrom(r, false)
  {
    if w != [] {
      CamelFromWordRun(w, r, true);
    } else {
      assert w + r == r;
      CamelFromBoundaryIrrelevant(r);
    }
  }

  // `t` split at the end of its leading word run.
  lemma RunSplit(t: string, w: string, r: string)
    requires w == t[..RunLength(t)] && r == t[RunLength(t)..]
    ensures t == w + r
    ensures forall i :: 0 <= i < |w| ==> IsWordChar(w[i])
    ensures r == [] || !IsWordChar(r[0])
  {
    var n := RunLength(t);
    forall i | 0 <= i < |w| ensures IsWordChar(w[i]) {
      assert w[i] == t[i];
    }
    if r != [] {
      assert r[0] == t[n];
    }
  }

  // Passes two and three over a separator, its run `w` and the rest `r`.
  lemma PassesAtSeparator(s: string, w: string, r: string)
    requires s != [] && IsSeparator(s[0])
    requires w == s[1..1 + RunLength(s[1..])] && r == s[1 + RunLength(s[1..])..]
    ensures ExpandSlashes(CapitalizeAfterSeparators(s))
         == (if s[0] == '/' then "::" else "") + Capitalize(w) + ExpandSlashes(CapitalizeAfterSeparators(r))
  {
    var head, rest := (if s[0] == '/' then "/" else "") + Capitalize(w), CapitalizeAfterSeparators(r);
    CapitalizeAfterSeparatorsAt(s);
    ExpandSlashesAppend(head, rest);
    SeparatorReplacement(s[0], w);
  }

  // The separator case of `LaterPassesAreReference`: `w` is the run after the
  // separator and `r` what follows it.
  lemma LaterPassesAtSeparator(s: string, w: string, r: string)
    requires s != [] && IsSeparator(s[0])
    requires w == s[1..1 + RunLength(s[1..])] && r == s[1 + RunLength(s[1..])..]
    requires ExpandSlashes(CapitalizeAfterSeparators(r)) == CamelFrom(r, false)
    ensures ExpandSlashes(CapitalizeAfterSeparators(s)) == CamelFrom(s, false)
  {
    PassesAtSeparator(s, w, r);
    assert s[1..][..RunLength(s[1..])] == w && s[1..][RunLength(s[1..])..] == r;
    RunSplit(s[1..], w, r);
    CamelFromAtSeparator(s, w, r);
  }

  // The case of `LaterPassesAreReference` for a character the passes leave alone.
  lemma LaterPassesAtOther(s: string)
    requires s != [] && !IsSeparator(s[0])
    requires ExpandSlashes(CapitalizeAfterSeparators(s[1..])) == CamelFrom(s[1..], false)
    ensures ExpandSlashes(CapitalizeAfterSeparators(s)) == CamelFrom(s, false)
  {
    CapitalizeAfterSeparatorsCons(s);
    ExpandSlashesAppend([s[0]], CapitalizeAfterSeparators(s[1..]));
  }

  /** Passes two and three together compute `CamelFrom` with no leading boundary. */
  lemma {:induction false} LaterPassesAreReference(s: string)
    ensures ExpandSlashes(CapitalizeAfterSeparators(s)) == CamelFrom(s, false)
    decreases |s|
  {
    if s == [] {
    } else if IsSeparator(s[0]) {
      var n := RunLength(s[1..]);
      LaterPassesAreReference(s[1 + n..]);
      LaterPassesAtSeparator(s, s[1..1 + n], s[1 + n..]);
    } else {
      LaterPassesAreReference(s[1..]);
      LaterPassesAtOther(s);
    }
  }

  /** The three passes, split at the end of the leading word run. */
  lemma PassesAtLeadingRun(s: string)
    ensures Camelize(s) == Capitalize(s[..RunLength(s)]) + CamelFrom(s[RunLength(s)..], false)
  {
    var n := RunLength(s);
    var w, r := s[..n], s[n..];
    var cw, tail := Capitalize(w), CapitalizeAfterSeparators(r);
    assert CapitalizeLeadingRun(s) == cw + r;
    CapitalizedRunHasNoSeparator(w);
    CapitalizeAfterSeparatorsPrefix(cw, r);
    assert CapitalizeAfterSeparators(cw + r) == cw + tail;
    ExpandSlashesAppend(cw, tail);
    ExpandSlashesNoSlash(cw);
    LaterPassesAreReference(r);
  }

  /** The reference definition, split at the end of the leading word run. */
  lemma ReferenceAtLeadingRun(s: string)
    ensures CamelFrom(s, true) == Capitalize(s[..RunLength(s)]) + CamelFrom(s[RunLength(s)..], false)
  {
    var n := RunLength(s);
    var w, r := s[..n], s[n..];
    assert s == w + r;
    if n > 0 {
      CamelFromWordRun(w, r, true);
    } else {
      assert Capitalize(w) == [];
      CamelFromBoundaryIrrelevant(r);
    }
  }

  /** `camelize` agrees with the character-by-character reference on every string. */
  lemma CamelizeIsReference(s: string)
    ensures Camelize(s) == CamelFrom(s, true)
  {
    PassesAtLeadingRun(s);
    ReferenceAtLeadingRun(s);
  }

  // ---------------------------------------------------------------------
  // Properties of camelize

  function Occurrences(s: string, c: char): nat {
    if s == [] then 0 else (if s[0] == c then 1 else 0) + Occurrences(s[1..], c)
  }

  /** `s` with every `c` deleted. */
  function Without(s: string, c: char): string {
    if s == [] then [] else (if s[0] == c then [] else [s[0]]) + Without(s[1..], c)
  }

  /** The snake_case inputs the repository passes: `[a-z0-9_]` only. */
  predicate IsSnakeCase(s: string) {
    forall i :: 0 <= i < |s| ==> IsWordChar(s[i]) || s[i] == '_'
  }

  /** Concatenation of the capitalized pieces. */
  function JoinCapitalized(pieces: seq<string>): string {
    if pieces == [] then [] else Capitalize(pieces[0]) + JoinCapitalized(pieces[1..])
  }

  lemma {:induction false} CamelFromNoSeparators(s: string, boundary: bool)
    ensures '_' !in CamelFrom(s, boundary) && '/' !in CamelFrom(s, boundary)
  {
    if s != [] {
      CamelFromNoSeparators(s[1..], s[0] == '_' || s[0] == '/');
    }
  }

  /** The output never holds `_` or `/`, whatever the input. */
  lemma CamelizeHasNoSeparators(s: string)
    ensures '_' !in Camelize(s) && '/' !in Camelize(s)
  {
    CamelizeIsReference(s);
    CamelFromNoSeparators(s, true);
  }

  lemma {:induction false} CamelFromLength(s: string, boundary: bool)
    ensures |CamelFrom(s, boundary)| + Occurrences(s, '_') == |s| + Occurrences(s, '/')
  {
    if s != [] {
      CamelFromLength(s[1..], s[0] == '_' || s[0] == '/');
    }
  }

  /** Each `_` is dropped and each `/` becomes two characters; nothing else
      changes the length. On snake_case input the output is shorter than the
      input by exactly the number of underscores. */
  lemma CamelizeLength(s: string)
    ensures |Camelize(s)| == |s| - Occurrences(s, '_') + Occurrences(s, '/')
    ensures IsSnakeCase(s) ==> |Camelize(s)| == |s| - Occurrences(s, '_')
  {
    CamelizeIsReference(s);
    CamelFromLength(s, true);
    if IsSnakeCase(s) {
      NoSlashInSnakeCase(s);
    }
  }

  lemma {:induction false} NoSlashInSnakeCase(s: string)
    requires IsSnakeCase(s)
    ensures Occurrences(s, '/') == 0
  {
    if s != [] {
      NoSlashInSnakeCase(s[1..]);
    }
  }

  lemma {:induction false} CamelFromDowncased(s: string, boundary: bool)
    requires IsSnakeCase(s)
    ensures DowncaseAll(CamelFrom(s, boundary)) == Without(s, '_')
  {
    if s != [] {
      CamelFromDowncased(s[1..], s[0] == '_');
      if s[0] != '_' {
        var head := if boundary then Upcase(s[0]) else s[0];
        assert DowncaseAll([head] + CamelFrom(s[1..], false))
            == [Downcase(head)] + DowncaseAll(CamelFrom(s[1..], false));
      }
    }
  }

  /** On snake_case input, downcasing the output gives back the input with
      its underscores removed: the characters and their order are kept. */
  lemma CamelizeDowncased(s: string)
    requires IsSnakeCase(s)
    ensures DowncaseAll(Camelize(s)) == Without(s, '_')
  {
    CamelizeIsReference(s);
    CamelFromDowncased(s, true);
  }

  lemma {:induction false} CamelFromSegments(s: string, boundary: bool)
    requires IsSnakeCase(s)
    ensures CamelFrom(s, boundary)
         == (if boundary then Capitalize(Split(s, '_')[0]) else Split(s, '_')[0])
            + JoinCapitalized(Split(s, '_')[1..])
  {
    if s != [] {
      var rest := Split(s[1..], '_');
      CamelFromSegments(s[1..], s[0] == '_');
      if s[0] == '_' {
        assert Split(s, '_')[1..] == rest;
        assert JoinCapitalized(rest) == Capitalize(rest[0]) + JoinCapitalized(rest[1..]);
      } else {
        FirstPieceIsWordRun(s[1..]);
        CamelFromSegmentsWordStep(s, boundary, rest);
      }
    }
  }

  lemma CamelFromSegmentsWordStep(s: string, boundary: bool, rest: seq<string>)
    requires s != [] && IsWordChar(s[0]) && rest == Split(s[1..], '_')
    requires forall k :: 0 <= k < |rest[0]| ==> IsWordChar(rest[0][k])
    requires CamelFrom(s[1..], false) == rest[0] + JoinCapitalized(rest[1..])
    ensures CamelFrom(s, boundary)
         == (if boundary then Capitalize(Split(s, '_')[0]) else Split(s, '_')[0])
            + JoinCapitalized(Split(s, '_')[1..])
  {
    var first := [s[0]] + rest[0];
    var j := JoinCapitalized(rest[1..]);
    assert Split(s, '_') == [first] + rest[1..];
    assert Split(s, '_')[0] == first;
    assert Split(s, '_')[1..] == rest[1..];
    var h := if boundary then Upcase(s[0]) else s[0];
    assert CamelFrom(s, boundary) == [h] + (rest[0] + j);
    var lead := if boundary then Capitalize(first) else first;
    if boundary {
      DowncaseWordRun(rest[0]);
      assert first[1..] == rest[0];
    }
    assert lead == [h] + rest[0];
    ConcatAssociative([h], rest[0], j);
  }

  lemma ConcatAssociative(a: string, b: string, c: string)
    ensures (a + b) + c == a + (b + c)
  {
  }

  lemma {:induction false} FirstPieceIsWordRun(s: string)
    requires IsSnakeCase(s)
    ensures forall k :: 0 <= k < |Split(s, '_')[0]| ==> IsWordChar(Split(s, '_')[0][k])
  {
    if s != [] && s[0] != '_' {
      FirstPieceIsWordRun(s[1..]);
    }
  }

  /** On snake_case input the output is the underscore-separated segments,
      each capitalized, concatenated in order. */
  lemma CamelizeSegments(s: string)
    requires IsSnakeCase(s)
    ensures Camelize(s) == JoinCapitalized(Split(s, '_'))
  {
    CamelizeIsReference(s);
    CamelFromSegments(s, true);
    var pieces := Split(s, '_');
    assert JoinCapitalized(pieces) == Capitalize(pieces[0]) + JoinCapitalized(pieces[1..]);
  }

  lemma {:induction false} CamelFromFirstNotLower(s: string)
    ensures CamelFrom(s, true) == [] || !IsLower(CamelFrom(s, true)[0])
  {
    if s != [] && s[0] == '_' {
      CamelFromFirstNotLower(s[1..]);
    }
  }

  lemma {:induction false} CamelFromFixedPoint(t: string, boundary: bool)
    requires '_' !in t && '/' !in t
    requires boundary && t != [] ==> !IsLower(t[0])
    ensures CamelFrom(t, boundary) == t
  {
    if t != [] {
      CamelFromFixedPoint(t[1..], false);
    }
  }

  /** `camelize` is idempotent on every string. */
  lemma CamelizeIdempotent(s: string)
    ensures Camelize(Camelize(s)) == Camelize(s)
  {
    var t := Camelize(s);
    CamelizeIsReference(s);
    CamelizeIsReference(t);
    CamelFromNoSeparators(s, true);
    CamelFromFirstNotLower(s);
    CamelFromFixedPoint(t, true);
  }

  lemma {:induction false} CamelFromKeepsCharOut(s: string, boundary: bool, c: char)
    requires c !in s && c != ':' && !IsUpper(c)
    ensures c !in CamelFrom(s, boundary)
  {
    if s != [] {
      CamelFromKeepsCharOut(s[1..], s[0] == '_' || s[0] == '/', c);
    }
  }

  /** `camelize` introduces no character other than upper-case letters and
      `:`; in particular a key without a comma gives a name without one. */
  lemma CamelizeKeepsCharOut(s: string, c: char)
    requires c !in s && c != ':' && !IsUpper(c)
    ensures c !in Camelize(s)
  {
    CamelizeIsReference(s);
    CamelFromKeepsCharOut(s, true, c);
  }

  /** Each `/` followed by a segment becomes `::` followed by that segment capitalized. */
  lemma CamelizeSlash(a: string, b: string)
    requires a != [] && forall i :: 0 <= i < |a| ==> IsWordChar(a[i])
    requires b != [] && forall i :: 0 <= i < |b| ==> IsWordChar(b[i])
    ensures Camelize(a + "/" + b) == Capitalize(a) + "::" + Capitalize(b)
  {
    var tail := "/" + b;
    assert a + "/" + b == a + tail;
    CamelizeIsReference(a + tail);
    CamelFromWordRun(a, tail, true);
    assert tail[1..] == b;
    assert CamelFrom(tail, false) == "::" + CamelFrom(b, true);
    CamelFromWordRun(b, [], true);
    assert b + [] == b;
    assert CamelFrom(b, true) == Capitalize(b);
    ConcatAssociative(Capitalize(a), "::", Capitalize(b));
  }

  /** The empty name stays empty. */
  lemma CamelizeEmpty()
    ensures Camelize("") == ""
  {
  }

  /** Joining word segments with `_` and camelizing capitalizes each segment. */
  lemma CamelizeJoined(pieces: seq<string>)
    requires |pieces| >= 1
    requires forall i, k :: 0 <= i < |pieces| && 0 <= k < |pieces[i]| ==> IsWordChar(pieces[i][k])
    ensures Camelize(Join(pieces, '_')) == JoinCapitalized(pieces)
  {
    JoinedIsSnakeCase(pieces);
    CamelizeSegments(Join(pieces, '_'));
    assert forall i :: 0 <= i < |pieces| ==> '_' !in pieces[i];
    SplitJoin(pieces, '_');
  }

  lemma {:induction false} JoinedIsSnakeCase(pieces: seq<string>)
    requires forall i, k :: 0 <= i < |pieces| && 0 <= k < |pieces[i]| ==> IsWordChar(pieces[i][k])
    ensures IsSnakeCase(Join(pieces, '_'))
  {
    if |pieces| > 1 {
      JoinedIsSnakeCase(pieces[1..]);
      var j := Join(pieces[1..], '_');
      assert Join(pieces, '_') == pieces[0] + [('_')] + j;
      forall i | 0 <= i < |Join(pieces, '_')|
        ensures IsWordChar(Join(pieces, '_')[i]) || Join(pieces, '_')[i] == '_'
      {
        if i < |pieces[0]| {
          assert Join(pieces, '_')[i] == pieces[0][i];
        } else if i > |pieces[0]| {
          assert Join(pieces, '_')[i] == j[i - |pieces[0]| - 1];
        }
      }
    } else if |pieces| == 1 {
      assert Join(pieces, '_') == pieces[0];
    }
  }

  /** The grid-property keys the repository documents and the field names
      they become. */
  lemma CamelizeGridPropertyKeys(key: string, name: string)
    requires || (key == "row_count" && name == "RowCount")
             || (key == "column_count" && name == "ColumnCount")
             || (key == "frozen_row_count" && name == "FrozenRowCount")
             || (key == "frozen_column_count" && name == "FrozenColumnCount")
             || (key == "hide_gridlines" && name == "HideGridlines")
    ensures Camelize(key) == name
  {
    if key == "row_count" {
      CamelizeRowCount(key);
    } else if key == "column_count" {
      CamelizeColumnCount(key);
    } else if key == "hide_gridlines" {
      CamelizeHideGridlines(key);
    } else if key == "frozen_row_count" {
      CamelizeFrozenRowCount(key);
    } else {
      CamelizeFrozenColumnCount(key);
    }
  }

  lemma CamelizeRowCount(key: string)
    requires key == "row_count"
    ensures Camelize(key) == "RowCount"
  {
    CamelizeWords2(key, "row", "count", "Row", "Count", "RowCount");
  }

  lemma CamelizeColumnCount(key: string)
    requires key == "column_count"
    ensures Camelize(key) == "ColumnCount"
  {
    CamelizeWords2(key, "column", "count", "Column", "Count", "ColumnCount");
  }

  lemma CamelizeHideGridlines(key: string)
    requires key == "hide_gridlines"
    ensures Camelize(key) == "HideGridlines"
  {
    CamelizeWords2(key, "hide", "gridlines", "Hide", "Gridlines", "HideGridlines");
  }

  lemma CamelizeFrozenRowCount(key: string)
    requires key == "frozen_row_count"
    ensures Camelize(key) == "FrozenRowCount"
  {
    CamelizeWords3(key, "frozen", "row", "count", "Frozen", "Row", "Count", "FrozenRowCount");
  }

  lemma CamelizeFrozenColumnCount(key: string)
    requires key == "frozen_column_count"
    ensures Camelize(key) == "FrozenColumnCount"
  {
    CamelizeWords3(key, "frozen", "column", "count", "Frozen", "Column", "Count", "FrozenColumnCount");
  }

  /** A non-empty word capitalizes to its first letter upcased. */
  lemma CapitalizedAs(w: string, cap: string)
    requires w != [] && forall k :: 0 <= k < |w| ==> IsWordChar(w[k])
    requires cap == [Upcase(w[0])] + w[1..]
    ensures Capitalize(w) == cap
  {
    DowncaseWordRun(w[1..]);
  }

  /** A leading word followed by `_`: the word is capitalized and the rest camelized. */
  lemma CamelizeUnderscore(a: string, t: string)
    requires a != [] && forall k :: 0 <= k < |a| ==> IsWordChar(a[k])
    ensures Camelize(a + "_" + t) == Capitalize(a) + Camelize(t)
  {
    var u := "_" + t;
    assert a + "_" + t == a + u;
    CamelizeIsReference(a + u);
    CamelizeIsReference(t);
    CamelFromWordRun(a, u, true);
    assert u[1..] == t;
  }

  /** A single word is capitalized. */
  lemma CamelizeWord(a: string)
    requires forall k :: 0 <= k < |a| ==> IsWordChar(a[k])
    ensures Camelize(a) == Capitalize(a)
  {
    CamelizeIsReference(a);
    if a != [] {
      assert a + [] == a;
      CamelFromWordRun(a, [], true);
    }
  }

  lemma CamelizeWords2(s: string, a: string, b: string, ca: string, cb: string, expected: string)
    requires s == a + "_" + b
    requires a != [] && forall k :: 0 <= k < |a| ==> IsWordChar(a[k])
    requires b != [] && forall k :: 0 <= k < |b| ==> IsWordChar(b[k])
    requires ca == [Upcase(a[0])] + a[1..] && cb == [Upcase(b[0])] + b[1..]
    requires expected == ca + cb
    ensures Camelize(s) == expected
  {
    CapitalizedAs(a, ca);
    CapitalizedAs(b, cb);
    CamelizeUnderscore(a, b);
    CamelizeWord(b);
  }

  lemma CamelizeWords3(s: string, a: string, b: string, c: string, ca: string, cb: string, cc: string, expected: string)
    requires s == a + "_" + b + "_" + c
    requires a != [] && forall k :: 0 <= k < |a| ==> IsWordChar(a[k])
    requires b != [] && forall k :: 0 <= k < |b| ==> IsWordChar(b[k])
    requires c != [] && forall k :: 0 <= k < |c| ==> IsWordChar(c[k])
    requires ca == [Upcase(a[0])] + a[1..] && cb == [Upcase(b[0])] + b[1..] && cc == [Upcase(c[0])] + c[1..]
    requires expected == ca + cb + cc
    ensures Camelize(s) == expected
  {
    CapitalizedAs(a, ca);
    CapitalizedAs(b, cb);
    CapitalizedAs(c, cc);
    var t := b + "_" + c;
    assert s == a + "_" + t;
    CamelizeUnderscore(a, t);
    CamelizeUnderscore(b, c);
    CamelizeWord(c);
    ConcatAssociative(ca, cb, cc);
  }
}
