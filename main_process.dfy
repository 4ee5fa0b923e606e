/**
 * The main process's half of a comparison (main.js): `normalizeOracleCode`,
 * which rewrites the `CREATE OR REPLACE ...` header of the file's text, and
 * the `compare-code` handler, which assembles the database copy from the
 * rows of ALL_SOURCE, normalises line endings, diffs the two texts and
 * replies. The database, the diff library and the reply channel are
 * parameters and results here.
 */
module MainProcess {
  import opened Wrappers
  import opened Text
  import opened Pattern
  import opened Diff

  // ------------------------------------------------- normalizeOracleCode

  /** The words after CREATE OR REPLACE in header pattern `k`: package spec, package body, function, procedure. */
  function HeaderWords(k: nat): seq<Elem>
    requires k < 4
  {
    if k == 0 then [Lit("PACKAGE")]
    else if k == 1 then [Lit("PACKAGE"), Space, Lit("BODY")]
    else if k == 2 then [Lit("FUNCTION")]
    else [Lit("PROCEDURE")]
  }

  /** Header pattern `k`; its hole is the object name. */
  function HeaderPattern(k: nat): seq<Elem>
    requires k < 4
  {
    [Lit("CREATE"), Space, Lit("OR"), Space, Lit("REPLACE"), Space] + HeaderWords(k) + [Space, OptQualifier, Hole, Space]
  }

  const CreateOrReplaceSource: string := "CREATE\\s+OR\\s+REPLACE\\s+"
  const QualifierSource: string := "\\s+(?:\\w+\\.)?"

  function HeaderWordsSource(k: nat): string
    requires k < 4
  {
    if k == 0 then "PACKAGE"
    else if k == 1 then "PACKAGE" + "\\s+BODY"
    else if k == 2 then "FUNCTION"
    else "PROCEDURE"
  }

  /** `pattern.source` of header pattern `k`: the text of the expression, escapes included, with the name spliced in. */
  function HeaderSource(k: nat, name: string): string
    requires k < 4
  {
    CreateOrReplaceSource + HeaderWordsSource(k) + QualifierSource + name + "\\s+"
  }

  /** `/PACKAGE\s+BODY/i.test(t)`. */
  predicate MentionsBody(t: string) {
    Find([Lit("PACKAGE"), Space, Lit("BODY")], t, "").Some?
  }

  /** `/PACKAGE(?!\s+BODY)/i.test(t)`. */
  predicate MentionsPackage(t: string) {
    exists i | 0 <= i <= |t| :: LitAt(t, i, "PACKAGE") && Match([Space, Lit("BODY")], t, "", i + 7).None?
  }

  /** The keyword of the rewritten header, chosen from the object type and the pattern's source text; None when no branch applies. */
  function HeaderKeyword(objectType: string, source: string): Option<string> {
    if objectType == "PACKAGE BODY" || MentionsBody(source) then Some("PACKAGE BODY")
    else if objectType == "PACKAGE" || MentionsPackage(source) then Some("PACKAGE")
    else if objectType == "FUNCTION" then Some("FUNCTION")
    else if objectType == "PROCEDURE" then Some("PROCEDURE")
    else None
  }

  /** The four header patterns in the order they are tried. */
  function HeaderPatterns(): (ps: seq<seq<Elem>>)
    ensures |ps| == 4 && forall k :: 0 <= k < 4 ==> ps[k] == HeaderPattern(k)
  {
    [HeaderPattern(0), HeaderPattern(1), HeaderPattern(2), HeaderPattern(3)]
  }

  /** The first of `patterns[k..]` that occurs in `code`: its index and its leftmost occurrence. */
  function FirstFound(patterns: seq<seq<Elem>>, code: string, name: string, k: nat): (r: Option<(nat, Found)>)
    requires k <= |patterns|
    ensures r.Some? ==> k <= r.value.0 < |patterns| && Find(patterns[r.value.0], code, name) == Some(r.value.1)
    ensures r.Some? ==> forall j :: k <= j < r.value.0 ==> Find(patterns[j], code, name).None?
    ensures r.None? <==> forall j :: k <= j < |patterns| ==> Find(patterns[j], code, name).None?
    decreases |patterns| - k
  {
    if k == |patterns| then None
    else
      match Find(patterns[k], code, name)
      case Some(f) => Some((k, f))
      case None => FirstFound(patterns, code, name, k + 1)
  }

  /** `code` with the leftmost occurrence of header pattern `k` replaced by `<keyword> <name> `, or unchanged without a keyword. */
  function Rewritten(code: string, name: string, k: nat, keyword: Option<string>): string
    requires k < 4
  {
    match keyword
    case None => code
    case Some(w) => ReplaceFirst(HeaderPattern(k), code, name, w + " " + name + " ")
  }

  /** What `normalizeOracleCode(code, objectType, name)` returns. */
  function Normalized(code: string, objectType: string, name: string): string {
    match FirstFound(HeaderPatterns(), code, name, 0)
    case None => code
    case Some((k, _)) => Rewritten(code, name, k, HeaderKeyword(objectType, HeaderSource(k, name)))
  }

  /** `normalizeOracleCode`: the patterns in order, the first that matches rewrites its leftmost occurrence, then stop. */
  method NormalizeOracleCode(code: string, objectType: string, objectName: string) returns (normalizedCode: string)
    ensures normalizedCode == Normalized(code, objectType, objectName)
  {
    var patterns := HeaderPatterns();
    normalizedCode := code;
    var k := 0;
    while k < |patterns|
      invariant 0 <= k <= |patterns|
      invariant normalizedCode == code
      invariant FirstFound(patterns, code, objectName, 0) == FirstFound(patterns, code, objectName, k)
    {
      var pattern := patterns[k];
      if Find(pattern, code, objectName).Some? {
        var source := HeaderSource(k, objectName);
        if objectType == "PACKAGE BODY" || MentionsBody(source) {
          normalizedCode := ReplaceFirst(pattern, code, objectName, "PACKAGE BODY" + " " + objectName + " ");
        } else if objectType == "PACKAGE" || MentionsPackage(source) {
          normalizedCode := ReplaceFirst(pattern, code, objectName, "PACKAGE" + " " + objectName + " ");
        } else if objectType == "FUNCTION" {
          normalizedCode := ReplaceFirst(pattern, code, objectName, "FUNCTION" + " " + objectName + " ");
        } else if objectType == "PROCEDURE" {
          normalizedCode := ReplaceFirst(pattern, code, objectName, "PROCEDURE" + " " + objectName + " ");
        }
        break;
      }
      k := k + 1;
    }
  }

  /** Without any of the four headers the text comes back unchanged. */
  lemma NormalizeWithoutHeader(code: string, objectType: string, name: string)
    requires forall k :: 0 <= k < 4 ==> Find(HeaderPattern(k), code, name).None?
    ensures Normalized(code, objectType, name) == code
  {
  }

  /**
   * When pattern `k` is the first that occurs, the text changes at most in one
   * window: its leftmost occurrence, which becomes `<keyword> <name> `.
   */
  lemma NormalizeRewritesFirstHeader(code: string, objectType: string, name: string, k: nat)
    requires k < 4
    requires Find(HeaderPattern(k), code, name).Some?
    requires forall j :: 0 <= j < k ==> Find(HeaderPattern(j), code, name).None?
    ensures var f := Find(HeaderPattern(k), code, name).value;
      && (forall m :: 0 <= m < f.start ==> Match(HeaderPattern(k), code, name, m).None?)
      && match HeaderKeyword(objectType, HeaderSource(k, name))
         case None => Normalized(code, objectType, name) == code
         case Some(w) => Normalized(code, objectType, name) == code[..f.start] + w + " " + name + " " + code[f.end..]
  {
    FirstFoundIs(HeaderPatterns(), code, name, k, 0);
    var keyword := HeaderKeyword(objectType, HeaderSource(k, name));
    NormalizedIs(code, objectType, name, k, keyword);
    RewrittenWindow(code, name, k, keyword);
  }

  lemma NormalizedIs(code: string, objectType: string, name: string, k: nat, keyword: Option<string>)
    requires k < 4
    requires FirstFound(HeaderPatterns(), code, name, 0).Some? && FirstFound(HeaderPatterns(), code, name, 0).value.0 == k
    requires keyword == HeaderKeyword(objectType, HeaderSource(k, name))
    ensures Normalized(code, objectType, name) == Rewritten(code, name, k, keyword)
  {
  }

  lemma RewrittenWindow(code: string, name: string, k: nat, keyword: Option<string>)
    requires k < 4 && Find(HeaderPattern(k), code, name).Some?
    ensures var f := Find(HeaderPattern(k), code, name).value;
      Rewritten(code, name, k, keyword) ==
        if keyword.None? then code else code[..f.start] + keyword.value + " " + name + " " + code[f.end..]
  {
  }

  lemma {:induction false} FirstFoundIs(patterns: seq<seq<Elem>>, code: string, name: string, k: nat, j: nat)
    requires j <= k < |patterns|
    requires Find(patterns[k], code, name).Some?
    requires forall i :: j <= i < k ==> Find(patterns[i], code, name).None?
    ensures FirstFound(patterns, code, name, j) == Some((k, Find(patterns[k], code, name).value))
    decreases k - j
  {
    if j < k {
      FirstFoundIs(patterns, code, name, k, j + 1);
    }
  }

  // -------------------------------------- which keyword the rewrite uses

  predicate NoSpace(s: string) {
    forall c :: c in s ==> !IsSpace(c)
  }

  lemma NoSpaceConcat(a: string, b: string)
    requires NoSpace(a) && NoSpace(b)
    ensures NoSpace(a + b)
  {
    forall c | c in a + b ensures !IsSpace(c) {
      var i :| 0 <= i < |a + b| && (a + b)[i] == c;
      if i < |a| { assert a[i] == c; } else { assert b[i - |a|] == c; }
    }
  }

  /** A text without white space cannot contain PACKAGE, a white-space run and BODY. */
  lemma NoSpaceNoBody(t: string)
    requires NoSpace(t)
    ensures !MentionsBody(t)
  {
    var p := [Lit("PACKAGE"), Space, Lit("BODY")];
    forall m | 0 <= m <= |t| ensures Match(p, t, "", m).None? {
      if LitAt(t, m, "PACKAGE") {
        MatchLitStep(p, t, "", m);
        assert p[1..] == [Space, Lit("BODY")];
        if m + 7 < |t| { assert t[m + 7] in t; }
        MatchRunFails(p[1..], t, "", m + 7);
      }
    }
  }

  /** Visible ASCII characters only, none of them white space. */
  predicate Visible(s: string) {
    forall c :: c in s ==> '!' <= c <= '~'
  }

  lemma VisibleNoSpace(s: string)
    requires Visible(s)
    ensures NoSpace(s)
  {
  }

  lemma FixedSourcesVisible(k: nat)
    requires k < 4
    ensures Visible(CreateOrReplaceSource) && Visible(QualifierSource)
    ensures Visible(HeaderWordsSource(k)) && Visible("\\s+")
  {
  }

  /** The source text of every header pattern is free of white space when the name is. */
  lemma HeaderSourceNoSpace(k: nat, name: string)
    requires k < 4 && NoSpace(name)
    ensures NoSpace(HeaderSource(k, name))
  {
    FixedSourcesVisible(k);
    VisibleNoSpace(CreateOrReplaceSource);
    VisibleNoSpace(QualifierSource);
    VisibleNoSpace(HeaderWordsSource(k));
    VisibleNoSpace("\\s+");
    NoSpaceConcat(CreateOrReplaceSource, HeaderWordsSource(k));
    NoSpaceConcat(CreateOrReplaceSource + HeaderWordsSource(k), QualifierSource);
    NoSpaceConcat(CreateOrReplaceSource + HeaderWordsSource(k) + QualifierSource, name);
    NoSpaceConcat(CreateOrReplaceSource + HeaderWordsSource(k) + QualifierSource + name, "\\s+");
  }

  /** PACKAGE followed by something other than white space satisfies the lookahead test. */
  lemma MentionsPackageAt(a: string, b: string)
    requires b != [] && !IsSpace(b[0])
    ensures MentionsPackage(a + "PACKAGE" + b)
  {
    var t := a + "PACKAGE" + b;
    assert t[|a|..|a| + 7] == "PACKAGE";
    assert LitAt(t, |a|, "PACKAGE");
    assert t[|a| + 7] == b[0];
    MatchRunFails([Space, Lit("BODY")], t, "", |a| + 7);
  }

  /** The sources of both package patterns hold PACKAGE followed by a backslash, which the lookahead accepts. */
  lemma PackageSourceMentionsPackage(k: nat, name: string)
    requires k < 2
    ensures MentionsPackage(HeaderSource(k, name))
  {
    var b := (if k == 0 then "" else "\\s+BODY") + QualifierSource + name + "\\s+";
    assert HeaderSource(k, name) == CreateOrReplaceSource + "PACKAGE" + b;
    assert b[0] == '\\';
    MentionsPackageAt(CreateOrReplaceSource, b);
  }

  lemma CharIn(s: string, i: int)
    ensures 0 <= i < |s| ==> s[i] in s
  {
  }

  /** Characters that stand where PACKAGE does, ignoring case, are letters, and the fourth is a K. */
  lemma PackageWindow(s: string, i: nat)
    requires LitAt(s, i, "PACKAGE")
    ensures forall m :: i <= m < i + 7 ==> IsLetter(s[m])
    ensures s[i + 3] == 'K' || s[i + 3] == 'k'
  {
    forall m | i <= m < i + 7 ensures IsLetter(s[m]) {
      assert UpperChar(s[i..i + 7][m - i]) == UpperChar("PACKAGE"[m - i]);
    }
    assert UpperChar(s[i..i + 7][3]) == 'K';
  }

  /**
   * The sources of the function and procedure patterns hold no PACKAGE, ignoring
   * case, unless the object name does: none of the fixed text has a K, and the
   * characters around the name are not letters.
   */
  lemma RoutineSourceOmitsPackage(k: nat, name: string)
    requires 2 <= k < 4
    requires forall i: nat :: !LitAt(name, i, "PACKAGE")
    ensures !MentionsPackage(HeaderSource(k, name))
  {
    var f := CreateOrReplaceSource + HeaderWordsSource(k) + QualifierSource;
    var tail := "\\s+";
    assert HeaderSource(k, name) == f + name + tail;
    FixedSourcesLackK(k);
    assert f[|f| - 1] == QualifierSource[|QualifierSource| - 1];
    forall i | 0 <= i <= |f + name + tail| ensures !LitAt(f + name + tail, i, "PACKAGE") {
      NoPackageAround(f, name, tail, i);
    }
  }

  lemma FixedSourcesLackK(k: nat)
    requires 2 <= k < 4
    ensures 'K' !in CreateOrReplaceSource && 'k' !in CreateOrReplaceSource
    ensures 'K' !in HeaderWordsSource(k) && 'k' !in HeaderWordsSource(k)
    ensures 'K' !in QualifierSource && 'k' !in QualifierSource
    ensures QualifierSource[|QualifierSource| - 1] == '?'
  {
  }

  /** A K-free text on each side of the name, ending and starting with a non-letter, adds no PACKAGE to it. */
  lemma NoPackageAround(f: string, name: string, tail: string, i: nat)
    requires f != [] && !IsLetter(f[|f| - 1]) && 'K' !in f && 'k' !in f
    requires tail != [] && !IsLetter(tail[0]) && 'K' !in tail && 'k' !in tail
    requires forall j: nat :: !LitAt(name, j, "PACKAGE")
    ensures !LitAt(f + name + tail, i, "PACKAGE")
  {
    var t := f + name + tail;
    if LitAt(t, i, "PACKAGE") {
      PackageWindow(t, i);
      var p := i + 3;
      if p < |f| {
        CharIn(f, p);
      } else if p >= |f| + |name| {
        CharIn(tail, p - |f| - |name|);
      } else if i < |f| {
        CharIn(t, |f| - 1);
      } else if i + 7 > |f| + |name| {
        CharIn(t, |f| + |name|);
      } else {
        var j := i - |f|;
        assert t[i..i + 7] == name[j..j + 7];
        assert LitAt(name, j, "PACKAGE");
      }
    }
  }

  /**
   * The keyword the rewrite uses, for a name without white space or PACKAGE in it:
   * PACKAGE BODY only for that object type (the body pattern's source has a
   * backslash, not white space, after PACKAGE), PACKAGE for the package object
   * type and for both package patterns, and otherwise the routine's own type.
   */
  lemma HeaderKeywordChoice(objectType: string, k: nat, name: string)
    requires k < 4 && NoSpace(name)
    requires forall i: nat :: !LitAt(name, i, "PACKAGE")
    ensures HeaderKeyword(objectType, HeaderSource(k, name)) ==
      if objectType == "PACKAGE BODY" then Some("PACKAGE BODY")
      else if objectType == "PACKAGE" || k < 2 then Some("PACKAGE")
      else if objectType == "FUNCTION" || objectType == "PROCEDURE" then Some(objectType)
      else None
  {
    HeaderSourceNoSpace(k, name);
    NoSpaceNoBody(HeaderSource(k, name));
    if k < 2 {
      PackageSourceMentionsPackage(k, name);
    } else {
      RoutineSourceOmitsPackage(k, name);
    }
  }

  // ----------------------------------------------------- package assembly

  /** A row of the package query: TYPE, LINE and TEXT of one line of ALL_SOURCE. */
  datatype SourceRow = SourceRow(rowType: string, line: int, text: string)

  /** The texts of the longest run of `t` rows at the end of `rows`. */
  function TrailingRun(rows: seq<SourceRow>, t: string): seq<string> {
    if rows == [] || rows[|rows| - 1].rowType != t then []
    else TrailingRun(rows[..|rows| - 1], t) + [rows[|rows| - 1].text]
  }

  /** `rows` without the run of rows at its end that share the last row's type. */
  function Before(rows: seq<SourceRow>): seq<SourceRow> {
    if |rows| <= 1 then []
    else if rows[|rows| - 2].rowType == rows[|rows| - 1].rowType then Before(rows[..|rows| - 1])
    else rows[..|rows| - 1]
  }

  /** The texts of the last block of consecutive `t` rows. */
  function LastBlock(rows: seq<SourceRow>, t: string): seq<string> {
    if rows == [] then []
    else if rows[|rows| - 1].rowType == t then TrailingRun(rows, t)
    else LastBlock(rows[..|rows| - 1], t)
  }

  /** The texts of all `t` rows, in order. */
  function TextsOfType(rows: seq<SourceRow>, t: string): seq<string> {
    if rows == [] then []
    else TextsOfType(rows[..|rows| - 1], t) + (if rows[|rows| - 1].rowType == t then [rows[|rows| - 1].text] else [])
  }

  /** Rows of one type stand together, as ORDER BY TYPE makes them. */
  predicate Grouped(rows: seq<SourceRow>) {
    forall i, j, k :: 0 <= i < j < k < |rows| && rows[i].rowType == rows[k].rowType ==> rows[j].rowType == rows[i].rowType
  }

  /** Dropping the final run of another type leaves the last `t` block where it was. */
  lemma {:induction false} LastBlockBefore(rows: seq<SourceRow>, t: string)
    requires rows != [] && rows[|rows| - 1].rowType != t
    ensures LastBlock(rows, t) == LastBlock(Before(rows), t)
  {
    var n := |rows|;
    if n > 1 && rows[n - 2].rowType == rows[n - 1].rowType {
      LastBlockBefore(rows[..n - 1], t);
      assert rows[..n - 1][..n - 2] == rows[..n - 2];
    }
  }

  /**
   * The loop over the package rows: on each change of type it saves the block
   * just ended as spec or body, and after the loop it saves the last block.
   * Each code is the last block of its type's rows.
   */
  method AssemblePackage(rows: seq<SourceRow>) returns (specCode: string, bodyCode: string)
    ensures specCode == Concat(LastBlock(rows, "PACKAGE"))
    ensures bodyCode == Concat(LastBlock(rows, "PACKAGE BODY"))
  {
    specCode, bodyCode := "", "";
    var currentType: Option<string> := None;
    var currentCode: seq<string> := [];
    var i := 0;
    while i < |rows|
      invariant 0 <= i <= |rows|
      invariant i == 0 ==> currentType == None && currentCode == [] && specCode == "" && bodyCode == ""
      invariant i > 0 ==> currentType == Some(rows[i - 1].rowType)
      invariant i > 0 ==> currentCode == TrailingRun(rows[..i], rows[i - 1].rowType)
      invariant i > 0 ==> specCode == Concat(LastBlock(Before(rows[..i]), "PACKAGE"))
      invariant i > 0 ==> bodyCode == Concat(LastBlock(Before(rows[..i]), "PACKAGE BODY"))
    {
      var row := rows[i];
      assert rows[..i + 1][..i] == rows[..i];
      if currentType != Some(row.rowType) {
        if i > 0 {
          if rows[i - 1].rowType != "PACKAGE" { LastBlockBefore(rows[..i], "PACKAGE"); }
          if rows[i - 1].rowType != "PACKAGE BODY" { LastBlockBefore(rows[..i], "PACKAGE BODY"); }
        }
        if currentType == Some("PACKAGE") {
          specCode := Concat(currentCode);
        } else if currentType == Some("PACKAGE BODY") {
          bodyCode := Concat(currentCode);
        }
        currentType := Some(row.rowType);
        currentCode := [];
      }
      currentCode := currentCode + [row.text];
      i := i + 1;
    }
    assert rows[..i] == rows;
    if i > 0 {
      if rows[i - 1].rowType != "PACKAGE" { LastBlockBefore(rows, "PACKAGE"); }
      if rows[i - 1].rowType != "PACKAGE BODY" { LastBlockBefore(rows, "PACKAGE BODY"); }
    }
    if currentType == Some("PACKAGE") {
      specCode := Concat(currentCode);
    } else if currentType == Some("PACKAGE BODY") {
      bodyCode := Concat(currentCode);
    }
  }

  lemma {:induction false} NoRowsOfType(rows: seq<SourceRow>, t: string)
    requires forall i :: 0 <= i < |rows| ==> rows[i].rowType != t
    ensures TextsOfType(rows, t) == []
  {
    if rows != [] {
      NoRowsOfType(rows[..|rows| - 1], t);
    }
  }

  lemma {:induction false} TrailingRunGrouped(rows: seq<SourceRow>, t: string)
    requires Grouped(rows) && rows != [] && rows[|rows| - 1].rowType == t
    ensures TrailingRun(rows, t) == TextsOfType(rows, t)
  {
    var n := |rows|;
    var prefix := rows[..n - 1];
    assert Grouped(prefix) by {
      forall i, j, k | 0 <= i < j < k < |prefix| && prefix[i].rowType == prefix[k].rowType
        ensures prefix[j].rowType == prefix[i].rowType
      {
        assert rows[i] == prefix[i] && rows[j] == prefix[j] && rows[k] == prefix[k];
      }
    }
    if n > 1 {
      if rows[n - 2].rowType == t {
        TrailingRunGrouped(prefix, t);
      } else {
        forall i | 0 <= i < |prefix| ensures prefix[i].rowType != t {
          if i < n - 2 && prefix[i].rowType == t {
            assert false;
          }
        }
        NoRowsOfType(prefix, t);
      }
    }
  }

  /** With the rows grouped by type, each code is the concatenation of all its type's rows. */
  lemma {:induction false} LastBlockGrouped(rows: seq<SourceRow>, t: string)
    requires Grouped(rows)
    ensures LastBlock(rows, t) == TextsOfType(rows, t)
  {
    if rows != [] {
      var n := |rows|;
      if rows[n - 1].rowType == t {
        TrailingRunGrouped(rows, t);
      } else {
        var prefix := rows[..n - 1];
        assert Grouped(prefix) by {
          forall i, j, k | 0 <= i < j < k < |prefix| && prefix[i].rowType == prefix[k].rowType
            ensures prefix[j].rowType == prefix[i].rowType
          {
            assert rows[i] == prefix[i] && rows[j] == prefix[j] && rows[k] == prefix[k];
          }
        }
        LastBlockGrouped(prefix, t);
      }
    }
  }

  /** The database copy of a package: the spec, then the body between `/` terminators when there is one. */
  function PackageDbCode(specCode: string, bodyCode: string): (db: string)
    ensures db == "" <==> specCode == "" && bodyCode == ""
    ensures bodyCode == "" ==> db == specCode
    ensures |specCode| <= |db|
    ensures bodyCode != "" ==> db[..|specCode|] == specCode && db[|specCode|..] == "/\n" + bodyCode + "/\n"
  {
    (if specCode != "" then specCode else "") + (if bodyCode != "" then "/\n" + bodyCode + "/\n" else "")
  }

  // --------------------------------------------------------- line endings

  /** `s.replace(/\r\n/g, "\n")`. */
  function ReplaceCrLf(s: string): string {
    if s == [] then ""
    else if |s| >= 2 && s[0] == '\r' && s[1] == '\n' then "\n" + ReplaceCrLf(s[2..])
    else [s[0]] + ReplaceCrLf(s[1..])
  }

  /** `s.replace(/\r\n/g, "\n").replace(/\r/g, "\n")`. */
  function NormalizeLineEndings(s: string): string {
    ReplaceChars(ReplaceCrLf(s), {'\r'}, '\n')
  }

  /** The lines of `s`, broken at every CR LF pair, lone CR and lone LF. */
  function Lines(s: string): (r: seq<string>)
    ensures |r| >= 1
  {
    if s == [] then [""]
    else if |s| >= 2 && s[0] == '\r' && s[1] == '\n' then [""] + Lines(s[2..])
    else if s[0] == '\r' || s[0] == '\n' then [""] + Lines(s[1..])
    else
      var rest := Lines(s[1..]);
      [[s[0]] + rest[0]] + rest[1..]
  }

  lemma ReplaceCharsConcat(a: string, b: string, seps: set<char>, d: char)
    ensures ReplaceChars(a + b, seps, d) == ReplaceChars(a, seps, d) + ReplaceChars(b, seps, d)
  {
  }

  /** One step of normalisation: the first line break, or the first character. */
  lemma NormalizeStep(s: string)
    requires s != []
    ensures NormalizeLineEndings(s) ==
      if |s| >= 2 && s[0] == '\r' && s[1] == '\n' then "\n" + NormalizeLineEndings(s[2..])
      else if s[0] == '\r' then "\n" + NormalizeLineEndings(s[1..])
      else [s[0]] + NormalizeLineEndings(s[1..])
  {
    if |s| >= 2 && s[0] == '\r' && s[1] == '\n' {
      ReplaceCharsConcat("\n", ReplaceCrLf(s[2..]), {'\r'}, '\n');
    } else {
      ReplaceCharsConcat([s[0]], ReplaceCrLf(s[1..]), {'\r'}, '\n');
    }
  }

  /** A character put in front of the first line is put in front of the joined text. */
  lemma JoinFirstLonger(c: char, rest: seq<string>, sep: string)
    requires |rest| >= 1
    ensures Join([[c] + rest[0]] + rest[1..], sep) == [c] + Join(rest, sep)
  {
    var r := [[c] + rest[0]] + rest[1..];
    if |rest| > 1 {
      assert r[1..] == rest[1..];
    }
  }

  /** Every line break, whichever kind, becomes exactly one LF: the result is the lines joined with LF. */
  lemma {:induction false} NormalizeJoinsLines(s: string)
    ensures NormalizeLineEndings(s) == Join(Lines(s), "\n")
  {
    if s != [] {
      NormalizeStep(s);
      if |s| >= 2 && s[0] == '\r' && s[1] == '\n' {
        NormalizeJoinsLines(s[2..]);
        assert ([""] + Lines(s[2..]))[1..] == Lines(s[2..]);
      } else if s[0] == '\r' || s[0] == '\n' {
        NormalizeJoinsLines(s[1..]);
        assert ([""] + Lines(s[1..]))[1..] == Lines(s[1..]);
      } else {
        NormalizeJoinsLines(s[1..]);
        JoinFirstLonger(s[0], Lines(s[1..]), "\n");
      }
    }
  }

  /** No line holds a CR or an LF. */
  lemma {:induction false} LinesHaveNoBreaks(s: string)
    ensures forall k :: 0 <= k < |Lines(s)| ==> '\r' !in Lines(s)[k] && '\n' !in Lines(s)[k]
  {
    if s != [] {
      if |s| >= 2 && s[0] == '\r' && s[1] == '\n' {
        LinesHaveNoBreaks(s[2..]);
      } else {
        LinesHaveNoBreaks(s[1..]);
      }
    }
  }

  /** After normalisation no CR is left. */
  lemma NormalizedHasNoCr(s: string)
    ensures '\r' !in NormalizeLineEndings(s)
  {
    NormalizeJoinsLines(s);
    LinesHaveNoBreaks(s);
    JoinFree(Lines(s), "\n", '\r');
  }

  /** Text without CR is left as it is. */
  lemma {:induction false} NormalizeWithoutCr(s: string)
    requires '\r' !in s
    ensures NormalizeLineEndings(s) == s
  {
    if s != [] {
      assert '\r' !in s[1..];
      NormalizeWithoutCr(s[1..]);
      assert s[0] != '\r' by { assert s[0] in s; }
      ReplaceCharsConcat([s[0]], ReplaceCrLf(s[1..]), {'\r'}, '\n');
      assert s == [s[0]] + s[1..];
    }
  }

  /** Normalising twice is normalising once. */
  lemma NormalizeIdempotent(s: string)
    ensures NormalizeLineEndings(NormalizeLineEndings(s)) == NormalizeLineEndings(s)
  {
    NormalizedHasNoCr(s);
    NormalizeWithoutCr(NormalizeLineEndings(s));
  }

  // --------------------------------------------------- compare-code handler

  /** The `compare-code` request. */
  datatype CompareRequest = CompareRequest(fileContent: string, schema: string, objectType: string, objectName: string)

  /** The ALL_SOURCE query the handler issues. */
  datatype SourceQuery =
    | PackageQuery(owner: string, name: string)
    | ObjectQuery(owner: string, name: string, objectType: string)

  /** The `compare-response` reply: an error message, or the comparison as the JSON object carries it. */
  datatype CompareReply =
    | ErrorReply(message: string)
    | Comparison(dbCode: string, fileContent: string, differences: seq<DiffPart>,
                 hasDifferences: bool, specCodePresent: bool, bodyCodePresent: bool)

  const NoSessionMessage: string := "Error: No hay usuario autenticado."

  function NotFoundMessage(req: CompareRequest): string {
    "Error: No se encontr\U{F3} el objeto " + req.objectType + " " + req.schema + "." + req.objectName + " en la base de datos."
  }

  /** The query for a request: both parts of a package, or the rows of one object of the requested type. */
  function QueryFor(req: CompareRequest): SourceQuery {
    if req.objectType == "PACKAGE" then PackageQuery(req.schema, req.objectName)
    else ObjectQuery(req.schema, req.objectName, req.objectType)
  }

  /** The database copy with its spec and body codes, from the rows the query returned. */
  function DbSource(objectType: string, packageRows: seq<SourceRow>, objectRows: seq<string>): (string, string, string) {
    if objectType == "PACKAGE" then
      var spec := Concat(LastBlock(packageRows, "PACKAGE"));
      var body := Concat(LastBlock(packageRows, "PACKAGE BODY"));
      (PackageDbCode(spec, body), spec, body)
    else (Concat(objectRows), "", "")
  }

  /**
   * The `compare-code` handler. `packageRows` is what the package query returns
   * and `objectRows` the TEXT column of the other query; `diffLines` is the diff
   * library. `query` is the query issued, if any.
   */
  method CompareCode(loggedIn: bool, req: CompareRequest, packageRows: seq<SourceRow>, objectRows: seq<string>,
                     diffLines: (string, string) -> seq<DiffPart>)
    returns (query: Option<SourceQuery>, reply: CompareReply)
    ensures !loggedIn ==> query == None && reply == ErrorReply(NoSessionMessage)
    ensures loggedIn ==> query == Some(QueryFor(req))
    ensures loggedIn ==>
      var (db, spec, body) := DbSource(req.objectType, packageRows, objectRows);
      if db == "" then reply == ErrorReply(NotFoundMessage(req))
      else
        var dbText := NormalizeLineEndings(db);
        var fileText := NormalizeLineEndings(Normalized(req.fileContent, req.objectType, req.objectName));
        reply == Comparison(dbText, fileText, diffLines(dbText, fileText),
                            HasDifferences(diffLines(dbText, fileText)), spec != "", body != "")
  {
    if !loggedIn {
      return None, ErrorReply(NoSessionMessage);
    }
    var dbCode, specCode, bodyCode := "", "", "";
    if req.objectType == "PACKAGE" {
      query := Some(PackageQuery(req.schema, req.objectName));
      if |packageRows| > 0 {
        specCode, bodyCode := AssemblePackage(packageRows);
        if specCode != "" {
          dbCode := dbCode + specCode;
        }
        if bodyCode != "" {
          dbCode := dbCode + "/\n";
          dbCode := dbCode + bodyCode + "/\n";
        }
      }
      assert dbCode == PackageDbCode(specCode, bodyCode);
    } else {
      query := Some(ObjectQuery(req.schema, req.objectName, req.objectType));
      if |objectRows| > 0 {
        dbCode := Concat(objectRows);
      }
    }
    if dbCode == "" {
      return query, ErrorReply(NotFoundMessage(req));
    }
    var fileContent := NormalizeOracleCode(req.fileContent, req.objectType, req.objectName);
    dbCode := NormalizeLineEndings(dbCode);
    fileContent := NormalizeLineEndings(fileContent);
    var differences := diffLines(dbCode, fileContent);
    var hasDifferences := HasDifferences(differences);
    reply := Comparison(dbCode, fileContent, differences, hasDifferences, specCode != "", bodyCode != "");
  }

  /** For rows in ORDER BY TYPE order, the database copy is every spec row, then every body row between terminators. */
  lemma PackageSourceGrouped(packageRows: seq<SourceRow>, objectRows: seq<string>)
    requires Grouped(packageRows)
    ensures DbSource("PACKAGE", packageRows, objectRows) ==
      var spec := Concat(TextsOfType(packageRows, "PACKAGE"));
      var body := Concat(TextsOfType(packageRows, "PACKAGE BODY"));
      (PackageDbCode(spec, body), spec, body)
  {
    LastBlockGrouped(packageRows, "PACKAGE");
    LastBlockGrouped(packageRows, "PACKAGE BODY");
  }

  /**
   * The two texts of a comparison carry no CR, and when the diff reproduces both
   * of them, a reply that reports no differences compares equal texts.
   */
  lemma ComparisonTexts(req: CompareRequest, db: string, diffLines: (string, string) -> seq<DiffPart>)
    requires var dbText := NormalizeLineEndings(db);
      var fileText := NormalizeLineEndings(Normalized(req.fileContent, req.objectType, req.objectName));
      Reconstructs(diffLines(dbText, fileText), dbText, fileText)
    ensures var dbText := NormalizeLineEndings(db);
      var fileText := NormalizeLineEndings(Normalized(req.fileContent, req.objectType, req.objectName));
      && '\r' !in dbText && '\r' !in fileText
      && (!HasDifferences(diffLines(dbText, fileText)) ==> dbText == fileText)
  {
    var dbText := NormalizeLineEndings(db);
    var fileText := NormalizeLineEndings(Normalized(req.fileContent, req.objectType, req.objectName));
    NormalizedHasNoCr(db);
    NormalizedHasNoCr(Normalized(req.fileContent, req.objectType, req.objectName));
    NoDifferencesMeansEqual(diffLines(dbText, fileText), dbText, fileText);
  }
}
