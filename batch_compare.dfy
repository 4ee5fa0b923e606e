/**
 * The batch comparison window (batch-compare.js): the list of scanned files
 * with their type from the extension and schema and name from the file name,
 * the search and extension filter, the header recogniser that reads schema
 * and name from a file's content, and the handler that turns a file's
 * content into a `compare-code` request.
 */
module BatchCompare {
  import opened Wrappers
  import opened Text
  import opened Pattern
  import MainProcess

  // ------------------------------------------- extractObjectInfoFromContent

  /** `(\w+)\."?([\w_]+)"?` */
  const QuotedPair: seq<Elem> := [Run(Word, true), Lit("."), OptLit("\""), Run(Word, true), OptLit("\"")]
  /** `(\w+)\.(\w+)` */
  const Pair: seq<Elem> := [Run(Word, true), Lit("."), Run(Word, true)]

  /** The patterns in the order they are tried; the five package-body ones only for the package type. */
  function ContentPatterns(objectType: string): (ps: seq<seq<Elem>>)
    ensures |ps| == if objectType == "PACKAGE" then 12 else 7
  {
    [ CreateOrReplace + TypeWord + QuotedPair,
      CreateOrReplace + TypeWord + Pair,
      Create + TypeWord + QuotedPair,
      Create + TypeWord + Pair,
      CreateOrReplace + TypeWord + [Run(Word, true)],
      Create + TypeWord + [Run(Word, true)],
      CreateOrReplace + TypeWord + [Run(WordDollarHash, true)] ]
    + if objectType == "PACKAGE" then
      [ CreateOrReplace + PackageBody + QuotedPair,
        CreateOrReplace + PackageBody + Pair,
        Create + PackageBody + QuotedPair,
        Create + PackageBody + Pair,
        CreateOrReplace + PackageBody + [Run(WordDollarHash, true)] ]
    else []
  }

  /** Schema and name as read from a header or a file name; no schema is `null`. */
  datatype ObjectInfo = ObjectInfo(schema: Option<string>, objectName: string)

  /** The result of the pattern loop from pattern `k` on: the first match with a non-empty group decides. */
  function InfoFrom(patterns: seq<seq<Elem>>, content: string, objectType: string, k: nat): Option<ObjectInfo>
    requires k <= |patterns|
    decreases |patterns| - k
  {
    if k == |patterns| then None
    else
      match Find(patterns[k], content, objectType)
      case Some(f) =>
        if |f.captures| >= 2 && f.captures[1] != "" then Some(ObjectInfo(Some(f.captures[0]), f.captures[1]))
        else if |f.captures| >= 1 && f.captures[0] != "" then Some(ObjectInfo(None, f.captures[0]))
        else InfoFrom(patterns, content, objectType, k + 1)
      case None => InfoFrom(patterns, content, objectType, k + 1)
  }

  /** What `extractObjectInfoFromContent` returns; None is the `undefined` it falls through to. */
  function ObjectInfoFromContent(fileContent: string, objectType: string): Option<ObjectInfo> {
    InfoFrom(ContentPatterns(objectType), Upper(fileContent), objectType, 0)
  }

  /** The loop over the patterns on the upper-cased content, returning on the first usable match. */
  method ExtractObjectInfoFromContent(fileContent: string, objectType: string) returns (info: Option<ObjectInfo>)
    ensures info == ObjectInfoFromContent(fileContent, objectType)
  {
    var content := Upper(fileContent);
    var patterns := ContentPatterns(objectType);
    var k := 0;
    while k < |patterns|
      invariant 0 <= k <= |patterns|
      invariant InfoFrom(patterns, content, objectType, 0) == InfoFrom(patterns, content, objectType, k)
    {
      var found := Find(patterns[k], content, objectType);
      if found.Some? {
        var groups := found.value.captures;
        if |groups| >= 2 && groups[1] != "" {
          return Some(ObjectInfo(Some(groups[0]), groups[1]));
        } else if |groups| >= 1 && groups[0] != "" {
          return Some(ObjectInfo(None, groups[0]));
        }
      }
      k := k + 1;
    }
    return None;
  }

  /** Text a `\w+` or `[\w$#]+` group can capture: non-empty, no dot, no white space. */
  predicate NameLike(t: string) {
    t != "" && forall i :: 0 <= i < |t| ==> InClass(WordDollarHash, t[i])
  }

  /** Every group of the content patterns is a `\w+` or `[\w$#]+` run. */
  lemma ContentGroups(objectType: string, k: nat)
    requires k < |ContentPatterns(objectType)|
    ensures forall e, t :: e in ContentPatterns(objectType)[k] && CapturedBy(e, t) ==> NameLike(t)
  {
    var p := ContentPatterns(objectType)[k];
    forall e, t | e in p && CapturedBy(e, t) ensures NameLike(t) {
      assert e.Run? && (e.cls == Word || e.cls == WordDollarHash);
    }
  }

  lemma {:induction false} InfoFromNames(objectType: string, content: string, k: nat)
    requires k <= |ContentPatterns(objectType)|
    requires IsUpperCase(content)
    ensures var r := InfoFrom(ContentPatterns(objectType), content, objectType, k);
      r.Some? ==> (NameLike(r.value.objectName) && IsUpperCase(r.value.objectName)
                   && (r.value.schema.Some? ==> NameLike(r.value.schema.value) && IsUpperCase(r.value.schema.value)))
    decreases |ContentPatterns(objectType)| - k
  {
    var ps := ContentPatterns(objectType);
    if k < |ps| {
      var found := Find(ps[k], content, objectType);
      if found.Some? {
        FindCaptures(ps[k], content, objectType);
        ContentGroups(objectType, k);
        forall t | t in found.value.captures ensures NameLike(t) && IsUpperCase(t) {
          var e :| e in ps[k] && CapturedBy(e, t);
          UpperCaseChars(t, content);
        }
        var g := found.value.captures;
        if !(|g| >= 2 && g[1] != "") && !(|g| >= 1 && g[0] != "") {
          InfoFromNames(objectType, content, k + 1);
        } else if |g| >= 2 && g[1] != "" {
          assert g[0] in g && g[1] in g;
        } else {
          assert g[0] in g;
        }
      } else {
        InfoFromNames(objectType, content, k + 1);
      }
    }
  }

  /**
   * A name read from the content is upper case, non-empty and a single
   * `[\w$#]` run, so it holds no dot and no white space; so does a schema.
   */
  lemma ContentInfoShape(fileContent: string, objectType: string)
    ensures var r := ObjectInfoFromContent(fileContent, objectType);
      r.Some? ==> (NameLike(r.value.objectName) && IsUpperCase(r.value.objectName) && '.' !in r.value.objectName
                   && (r.value.schema.Some? ==> NameLike(r.value.schema.value) && IsUpperCase(r.value.schema.value)))
  {
    UpperIsUpperCase(fileContent);
    InfoFromNames(objectType, Upper(fileContent), 0);
  }

  /** The patterns with a schema group before the name group. */
  predicate PairPattern(k: nat) {
    k < 4 || 7 <= k < 11
  }

  /** The words before the groups of pattern `k`. */
  function Lead(k: nat): seq<Elem> {
    if k < 2 || k == 4 || k == 6 then CreateOrReplace + TypeWord
    else if k < 7 then Create + TypeWord
    else if k < 9 || k == 11 then CreateOrReplace + PackageBody
    else Create + PackageBody
  }

  /** The groups part of pattern `k`. */
  function Tail(k: nat): seq<Elem> {
    if k == 0 || k == 2 || k == 7 || k == 9 then QuotedPair
    else if k == 1 || k == 3 || k == 8 || k == 10 then Pair
    else if k == 4 || k == 5 then [Run(Word, true)]
    else [Run(WordDollarHash, true)]
  }

  lemma PatternPieces(objectType: string, k: nat)
    requires k < |ContentPatterns(objectType)|
    ensures ContentPatterns(objectType)[k] == Lead(k) + Tail(k)
  {
  }

  lemma LeadGroups(k: nat)
    ensures Groups(Lead(k)) == []
  {
    NoGroups(Lead(k));
  }

  lemma QuotedPairGroups()
    ensures Groups(QuotedPair) == [Run(Word, true), Run(Word, true)]
  {
    var w := [Run(Word, true)];
    var dq := [Lit("."), OptLit("\"")];
    var q := [OptLit("\"")];
    GroupsSingle(Run(Word, true));
    NoGroups(dq);
    NoGroups(q);
    assert QuotedPair == w + (dq + (w + q));
    GroupsConcat(w, q);
    GroupsConcat(dq, w + q);
    GroupsConcat(w, dq + (w + q));
  }

  lemma PairGroups()
    ensures Groups(Pair) == [Run(Word, true), Run(Word, true)]
  {
    var w := [Run(Word, true)];
    GroupsSingle(Run(Word, true));
    NoGroups([Lit(".")]);
    assert Pair == w + ([Lit(".")] + w);
    GroupsConcat([Lit(".")], w);
    GroupsConcat(w, [Lit(".")] + w);
  }

  lemma TailGroups(k: nat)
    ensures |Groups(Tail(k))| == if PairPattern(k) then 2 else 1
    ensures forall e :: e in Groups(Tail(k)) ==> e.Run?
  {
    if k == 0 || k == 2 || k == 7 || k == 9 {
      QuotedPairGroups();
    } else if k == 1 || k == 3 || k == 8 || k == 10 {
      PairGroups();
    } else if k == 4 || k == 5 {
      GroupsSingle(Run(Word, true));
    } else {
      GroupsSingle(Run(WordDollarHash, true));
    }
  }

  /** The pair patterns have two groups, the others one. */
  lemma ContentGroupCount(objectType: string, k: nat)
    requires k < |ContentPatterns(objectType)|
    ensures |Groups(ContentPatterns(objectType)[k])| == if PairPattern(k) then 2 else 1
    ensures forall e :: e in Groups(ContentPatterns(objectType)[k]) ==> e.Run?
  {
    PatternPieces(objectType, k);
    GroupsConcat(Lead(k), Tail(k));
    LeadGroups(k);
    TailGroups(k);
  }

  /** A match of a content pattern captures one non-empty group per group of the pattern. */
  lemma ContentCaptures(objectType: string, content: string, k: nat)
    requires k < |ContentPatterns(objectType)|
    requires Find(ContentPatterns(objectType)[k], content, objectType).Some?
    ensures var g := Find(ContentPatterns(objectType)[k], content, objectType).value.captures;
      |g| == (if PairPattern(k) then 2 else 1) && forall m :: 0 <= m < |g| ==> g[m] != ""
  {
    var p := ContentPatterns(objectType)[k];
    ContentGroupCount(objectType, k);
    RunCapturesNonEmpty(p, content, objectType);
  }

  /** A pattern whose groups are all runs captures only non-empty text. */
  lemma RunCapturesNonEmpty(p: seq<Elem>, s: string, hole: string)
    requires forall e :: e in Groups(p) ==> e.Run?
    requires Find(p, s, hole).Some?
    ensures |Find(p, s, hole).value.captures| == |Groups(p)|
    ensures forall m :: 0 <= m < |Find(p, s, hole).value.captures| ==> Find(p, s, hole).value.captures[m] != ""
  {
    FindCaptures(p, s, hole);
    var g := Find(p, s, hole).value.captures;
    forall m | 0 <= m < |g| ensures g[m] != "" {
      assert Groups(p)[m] in Groups(p);
      assert CapturedBy(Groups(p)[m], g[m]);
    }
  }

  /** The first pattern that yields a group decides, whatever later patterns would give. */
  lemma {:induction false} FirstPatternDecides(patterns: seq<seq<Elem>>, content: string, objectType: string, k: nat, j: nat)
    requires j <= k < |patterns|
    requires forall i :: j <= i < k ==> Find(patterns[i], content, objectType).None?
    requires Find(patterns[k], content, objectType).Some?
    requires var g := Find(patterns[k], content, objectType).value.captures; |g| >= 1 && g[0] != ""
    ensures var g := Find(patterns[k], content, objectType).value.captures;
      InfoFrom(patterns, content, objectType, j) ==
        if |g| >= 2 && g[1] != "" then Some(ObjectInfo(Some(g[0]), g[1])) else Some(ObjectInfo(None, g[0]))
    decreases k - j
  {
    if j < k {
      FirstPatternDecides(patterns, content, objectType, k, j + 1);
    }
  }

  /**
   * The first pattern, in list order, that matches the upper-cased content
   * decides: a pair pattern gives schema and name, any other only a name.
   */
  lemma FirstMatchDecides(fileContent: string, objectType: string, k: nat)
    requires k < |ContentPatterns(objectType)|
    requires forall j :: 0 <= j < k ==> Find(ContentPatterns(objectType)[j], Upper(fileContent), objectType).None?
    requires Find(ContentPatterns(objectType)[k], Upper(fileContent), objectType).Some?
    ensures var g := Find(ContentPatterns(objectType)[k], Upper(fileContent), objectType).value.captures;
      |g| == (if PairPattern(k) then 2 else 1) &&
      ObjectInfoFromContent(fileContent, objectType) ==
        if PairPattern(k) then Some(ObjectInfo(Some(g[0]), g[1])) else Some(ObjectInfo(None, g[0]))
  {
    ContentCaptures(objectType, Upper(fileContent), k);
    FirstPatternDecides(ContentPatterns(objectType), Upper(fileContent), objectType, k, 0);
  }

  lemma {:induction false} InfoFromNone(objectType: string, content: string, k: nat)
    requires k <= |ContentPatterns(objectType)|
    ensures InfoFrom(ContentPatterns(objectType), content, objectType, k).None? <==>
      forall j :: k <= j < |ContentPatterns(objectType)| ==> Find(ContentPatterns(objectType)[j], content, objectType).None?
    decreases |ContentPatterns(objectType)| - k
  {
    var ps := ContentPatterns(objectType);
    if k < |ps| {
      InfoFromNone(objectType, content, k + 1);
      if Find(ps[k], content, objectType).Some? {
        ContentCaptures(objectType, content, k);
      }
    }
  }

  /** The extractor returns `undefined` exactly when no pattern matches the upper-cased content. */
  lemma NoInfoIffNoMatch(fileContent: string, objectType: string)
    ensures ObjectInfoFromContent(fileContent, objectType).None? <==>
      forall j :: 0 <= j < |ContentPatterns(objectType)| ==> Find(ContentPatterns(objectType)[j], Upper(fileContent), objectType).None?
  {
    InfoFromNone(objectType, Upper(fileContent), 0);
  }

  /** `s` holds `t` from position `i` on, so it stands at `i`, ignoring case. */
  lemma LitAtPiece(s: string, i: nat, a: string, t: string, b: string)
    requires i <= |s| && s[i..] == a + t + b
    ensures LitAt(s, i + |a|, t)
  {
    assert s[i + |a|..i + |a| + |t|] == (a + t + b)[|a|..|a| + |t|] == t;
  }

  const BodyHeader: string := "CREATE" + " " + "OR" + " " + "REPLACE" + " " + "PACKAGE" + " " + "BODY" + " "

  /** The character facts a `CREATE OR REPLACE PACKAGE BODY ` header at `i` offers the matcher. */
  predicate BodyHeaderAt(c: string, i: nat) {
    && i + 31 <= |c|
    && LitAt(c, i, "CREATE") && LitAt(c, i + 7, "OR") && LitAt(c, i + 10, "REPLACE") && LitAt(c, i + 18, "PACKAGE")
    && IsSpace(c[i + 6]) && IsSpace(c[i + 9]) && IsSpace(c[i + 17]) && IsSpace(c[i + 25]) && IsSpace(c[i + 30])
    && !IsSpace(c[i + 7]) && !IsSpace(c[i + 10]) && !IsSpace(c[i + 18]) && !IsSpace(c[i + 26])
    && c[i + 26..i + 30] == "BODY"
    && (forall m :: i + 26 <= m < i + 30 ==> IsWordChar(c[m]))
    && !IsWordChar(c[i + 30])
  }

  lemma SplitAt(c: string, i: nat, a: string, b: string)
    requires i + |a| + |b| <= |c| && c[i..i + |a| + |b|] == a + b
    ensures c[i..i + |a|] == a && c[i + |a|..i + |a| + |b|] == b
  {
    assert c[i..i + |a|] == (a + b)[..|a|];
    assert c[i + |a|..i + |a| + |b|] == (a + b)[|a|..];
  }

  lemma EqualAt(c: string, i: nat, t: string)
    requires i + |t| <= |c| && c[i..i + |t|] == t
    ensures LitAt(c, i, t)
  {
  }

  /** The header text, taken apart word by word from the right. */
  lemma BodyHeaderChars(c: string, i: nat)
    requires i + 31 <= |c| && c[i..i + 31] == BodyHeader
    ensures BodyHeaderAt(c, i)
  {
    var w0 := "CREATE" + " ";
    var w1 := w0 + "OR";
    var w2 := w1 + " ";
    var w3 := w2 + "REPLACE";
    var w4 := w3 + " ";
    var w5 := w4 + "PACKAGE";
    var w6 := w5 + " ";
    var w7 := w6 + "BODY";
    SplitAt(c, i, w7, " ");
    SplitAt(c, i, w6, "BODY");
    SplitAt(c, i, w5, " ");
    SplitAt(c, i, w4, "PACKAGE");
    SplitAt(c, i, w3, " ");
    SplitAt(c, i, w2, "REPLACE");
    SplitAt(c, i, w1, " ");
    SplitAt(c, i, w0, "OR");
    SplitAt(c, i, "CREATE", " ");
    EqualAt(c, i, "CREATE");
    EqualAt(c, i + 7, "OR");
    EqualAt(c, i + 10, "REPLACE");
    EqualAt(c, i + 18, "PACKAGE");
    assert c[i + 6] == c[i + 6..i + 7][0];
    assert c[i + 9] == c[i + 9..i + 10][0];
    assert c[i + 17] == c[i + 17..i + 18][0];
    assert c[i + 25] == c[i + 25..i + 26][0];
    assert c[i + 30] == c[i + 30..i + 31][0];
    assert c[i + 7] == c[i + 7..i + 9][0];
    assert c[i + 10] == c[i + 10..i + 17][0];
    assert c[i + 18] == c[i + 18..i + 25][0];
    forall m | i + 26 <= m < i + 30 ensures IsWordChar(c[m]) {
      assert c[m] == c[i + 26..i + 30][m - i - 26];
    }
  }

  /** A literal, then a single blank, then the rest of the pattern. */
  lemma LitBlankStep(q: seq<Elem>, c: string, h: string, i: nat)
    requires |q| >= 2 && q[0].Lit? && q[1] == Space
    requires LitAt(c, i, q[0].text) && i + |q[0].text| + 1 < |c|
    requires IsSpace(c[i + |q[0].text|]) && !IsSpace(c[i + |q[0].text| + 1])
    requires Match(q[2..], c, h, i + |q[0].text| + 1).Some?
    ensures Match(q, c, h, i) == Match(q[2..], c, h, i + |q[0].text| + 1)
  {
    var j := i + |q[0].text|;
    assert q[1..][1..] == q[2..];
    MatchRunStep(q[1..], c, h, j, j + 1);
    MatchLitStep(q, c, h, i);
  }

  /** The interpolated type, then a single blank, then the rest of the pattern. */
  lemma HoleBlankStep(q: seq<Elem>, c: string, h: string, i: nat)
    requires |q| >= 2 && q[0].Hole? && q[1] == Space
    requires LitAt(c, i, h) && i + |h| + 1 < |c|
    requires IsSpace(c[i + |h|]) && !IsSpace(c[i + |h| + 1])
    requires Match(q[2..], c, h, i + |h| + 1).Some?
    ensures Match(q, c, h, i) == Match(q[2..], c, h, i + |h| + 1)
  {
    var j := i + |h|;
    assert q[1..][1..] == q[2..];
    MatchRunStep(q[1..], c, h, j, j + 1);
    MatchHoleStep(q, c, h, i);
  }

  /** The end of the generic pattern at such a header: the type, a blank, then BODY as the group. */
  lemma BodyNameMatch(q: seq<Elem>, c: string, i: nat)
    requires q == [Hole, Space, Run(Word, true)]
    requires BodyHeaderAt(c, i)
    ensures Match(q, c, "PACKAGE", i + 18) == Some(Hit(i + 30, ["BODY"]))
  {
    var h := "PACKAGE";
    assert q[2..][1..] == [];
    assert Match(q[2..][1..], c, h, i + 30) == Some(Hit(i + 30, []));
    MatchRunStep(q[2..], c, h, i + 26, i + 30);
    assert [c[i + 26..i + 30]] + [] == ["BODY"];
    HoleBlankStep(q, c, h, i + 18);
  }

  /** The generic `\w+` pattern at such a header: `CREATE`, `OR`, `REPLACE`, the type, then BODY as the group. */
  lemma BodyHeaderMatch(p: seq<Elem>, c: string, i: nat)
    requires p == [Lit("CREATE"), Space, Lit("OR"), Space, Lit("REPLACE"), Space, Hole, Space, Run(Word, true)]
    requires BodyHeaderAt(c, i)
    ensures Match(p, c, "PACKAGE", i) == Some(Hit(i + 30, ["BODY"]))
  {
    var h := "PACKAGE";
    assert p[6..] == [Hole, Space, Run(Word, true)];
    BodyNameMatch(p[6..], c, i);
    assert p[4..][2..] == p[6..];
    LitBlankStep(p[4..], c, h, i + 10);
    assert p[2..][2..] == p[4..];
    LitBlankStep(p[2..], c, h, i + 7);
    LitBlankStep(p, c, h, i);
  }

  /**
   * For a package file whose first `CREATE OR REPLACE PACKAGE` header is a
   * package body's, qualified or not, the name read from the content is
   * BODY, unless an earlier spec header matched: the four qualified patterns
   * meet "BODY" followed by a space where they expect a dot, and the generic
   * pattern, which comes before the package-body ones, takes BODY for the name.
   */
  lemma PackageBodyReadAsBody(fileContent: string, i: nat)
    requires i + 31 <= |Upper(fileContent)| && Upper(fileContent)[i..i + 31] == BodyHeader
    requires forall k :: 0 <= k < 4 ==> Find(ContentPatterns("PACKAGE")[k], Upper(fileContent), "PACKAGE").None?
    requires forall m :: 0 <= m < i ==> Match(ContentPatterns("PACKAGE")[4], Upper(fileContent), "PACKAGE", m).None?
    ensures ObjectInfoFromContent(fileContent, "PACKAGE") == Some(ObjectInfo(None, "BODY"))
  {
    var c := Upper(fileContent);
    var ps := ContentPatterns("PACKAGE");
    BodyHeaderChars(c, i);
    BodyHeaderMatch(ps[4], c, i);
    FindAt(ps[4], c, "PACKAGE", i);
    FirstPatternDecides(ps, c, "PACKAGE", 4, 0);
  }

  // ------------------------------------------------ file names and types

  /** The position of the last `.` in `s`, if any. */
  function LastDot(s: string): (r: Option<nat>)
    ensures r.Some? ==> r.value < |s| && s[r.value] == '.' && forall m :: r.value < m < |s| ==> s[m] != '.'
    ensures r.None? ==> '.' !in s
  {
    if s == [] then None
    else if s[|s| - 1] == '.' then Some(|s| - 1)
    else
      var r := LastDot(s[..|s| - 1]);
      assert s == s[..|s| - 1] + [s[|s| - 1]];
      r
  }

  /** `path.extname(name)` for a name without directories: from the last dot on, unless that dot leads the name or the name is "..". */
  function ExtName(name: string): (ext: string)
    ensures ext == "" || (ext[0] == '.' && EndsWith(name, ext) && |ext| < |name|)
  {
    match LastDot(name)
    case None => ""
    case Some(d) => if d == 0 || name == ".." then "" else name[d..]
  }

  /** `path.basename(name, path.extname(name))`. */
  function BaseName(name: string): string {
    name[..|name| - |ExtName(name)|]
  }

  /** What `extractSchemaAndName` reads from a file name: with a `_` or `.` in the base, the first piece is the schema. */
  function SchemaAndName(fileName: string): ObjectInfo {
    var base := BaseName(fileName);
    var parts := SplitOn(base, {'_', '.'});
    if |parts| >= 2 then ObjectInfo(Some(Upper(parts[0])), Upper(Join(parts[1..], "_")))
    else ObjectInfo(None, Upper(base))
  }

  lemma SinglePiece(s: string, seps: set<char>, d: char)
    requires |SplitOn(s, seps)| == 1 && d !in seps
    ensures forall i :: 0 <= i < |s| ==> s[i] !in seps
  {
    JoinSplit(s, seps, d);
    SplitPiecesFree(s, seps);
    var x := SplitOn(s, seps)[0];
    forall i | 0 <= i < |s| ensures s[i] !in seps {
      assert x[i] == ReplaceChars(s, seps, d)[i];
    }
  }

  /**
   * The schema and the name together spell the upper-cased base name with
   * every `.` turned into `_`; without a schema the name is the whole base,
   * which then has neither. Either way the name holds no dot.
   */
  lemma SchemaAndNameSpellBase(fileName: string)
    ensures var r := SchemaAndName(fileName);
      var base := BaseName(fileName);
      && (r.schema.Some? ==> r.schema.value + "_" + r.objectName == Upper(ReplaceChars(base, {'_', '.'}, '_')))
      && (r.schema.None? ==> r.objectName == Upper(base) && '_' !in base && '.' !in base)
      && '.' !in r.objectName
  {
    var base := BaseName(fileName);
    var parts := SplitOn(base, {'_', '.'});
    SplitPiecesFree(base, {'_', '.'});
    if |parts| >= 2 {
      JoinSplit(base, {'_', '.'}, '_');
      assert Join(parts, "_") == parts[0] + "_" + Join(parts[1..], "_");
      UpperConcat(parts[0] + "_", Join(parts[1..], "_"));
      UpperConcat(parts[0], "_");
      assert Upper("_") == "_";
      forall k | 0 <= k < |parts[1..]| ensures '.' !in parts[1..][k] {
        assert parts[1..][k] == parts[k + 1];
      }
      JoinFree(parts[1..], "_", '.');
      UpperKeepsOut(Join(parts[1..], "_"), '.');
    } else {
      SinglePiece(base, {'_', '.'}, ' ');
      UpperKeepsOut(base, '.');
    }
  }

  /** The type the file list shows for a (lower-cased) extension. */
  function TypeOfExtension(extension: string): (t: string)
    ensures t == "PACKAGE" <==> extension == ".pck"
    ensures t == "FUNCTION" <==> extension == ".fnc"
    ensures t == "PROCEDURE" <==> extension == ".prc"
    ensures t != "PACKAGE" && t != "FUNCTION" && t != "PROCEDURE" ==> t == "Desconocido"
  {
    if extension == ".pck" then "PACKAGE"
    else if extension == ".fnc" then "FUNCTION"
    else if extension == ".prc" then "PROCEDURE"
    else "Desconocido"
  }

  /** One entry of the scanned file list (its dates are not modelled). */
  datatype FileEntry = FileEntry(path: string, name: string, schema: Option<string>, objectName: string,
                                 fileType: string, extension: string)

  /** The last component of a `/`-separated path. */
  function LastComponent(p: string): (r: string)
    ensures '/' !in r
  {
    if p == [] then ""
    else if p[|p| - 1] == '/' then ""
    else LastComponent(p[..|p| - 1]) + [p[|p| - 1]]
  }

  /** The entry `scan-results` builds for a scanned path. */
  function ScanEntry(file: string): FileEntry {
    var name := LastComponent(file);
    var extension := Lower(ExtName(name));
    var info := SchemaAndName(name);
    FileEntry(file, name, info.schema, info.objectName, TypeOfExtension(extension), extension)
  }

  lemma LowerAgrees(a: string, b: string)
    requires EqualsIgnoreCase(a, b)
    ensures Lower(a) == Lower(b)
  {
    assert forall i :: 0 <= i < |a| ==> LowerChar(a[i]) == LowerChar(b[i]) by {
      forall i | 0 <= i < |a| ensures LowerChar(a[i]) == LowerChar(b[i]) {
        assert UpperChar(a[i]) == UpperChar(b[i]);
      }
    }
  }

  /** The type does not depend on the case of the extension: `.PCK`, `.Pck` and `.pck` are all packages. */
  lemma TypeIgnoresCase(a: string, b: string)
    requires EqualsIgnoreCase(a, b)
    ensures TypeOfExtension(Lower(a)) == TypeOfExtension(Lower(b))
  {
    LowerAgrees(a, b);
  }

  // ----------------------------------------------------------- filterFiles

  /** A checkbox of the extension filter. */
  datatype ExtensionFilter = ExtensionFilter(value: string, checked: bool)

  /** The values of the checked filters, in order. */
  function ActiveExtensions(filters: seq<ExtensionFilter>): (r: seq<string>)
    ensures forall e :: e in r <==> exists i :: 0 <= i < |filters| && filters[i].checked && filters[i].value == e
  {
    if filters == [] then []
    else
      var rest := ActiveExtensions(filters[1..]);
      assert forall i :: 1 <= i < |filters| ==> filters[i] == filters[1..][i - 1];
      (if filters[0].checked then [filters[0].value] else []) + rest
  }

  predicate Shown(file: FileEntry, searchTerm: string, activeExtensions: seq<string>) {
    Contains(Lower(file.name), Lower(searchTerm)) && file.extension in activeExtensions
  }

  /** `filesFound.filter(...)`: the files whose name holds the search term, ignoring case, and whose extension is checked. */
  function FilterFiles(files: seq<FileEntry>, searchTerm: string, filters: seq<ExtensionFilter>): seq<FileEntry> {
    if files == [] then []
    else
      (if Shown(files[0], searchTerm, ActiveExtensions(filters)) then [files[0]] else [])
      + FilterFiles(files[1..], searchTerm, filters)
  }

  /**
   * The filtered list keeps exactly the files the search term and the checked
   * extensions admit, in their original order.
   */
  lemma {:induction false} FilterFilesKeepsOrder(files: seq<FileEntry>, searchTerm: string, filters: seq<ExtensionFilter>)
    ensures Sublist(FilterFiles(files, searchTerm, filters), files)
    ensures forall f :: f in FilterFiles(files, searchTerm, filters) <==> f in files && Shown(f, searchTerm, ActiveExtensions(filters))
  {
    if files != [] {
      FilterFilesKeepsOrder(files[1..], searchTerm, filters);
      var r := FilterFiles(files, searchTerm, filters);
      var rest := FilterFiles(files[1..], searchTerm, filters);
      if Shown(files[0], searchTerm, ActiveExtensions(filters)) {
        assert r[1..] == rest;
      } else {
        assert r == rest;
        SublistSkip(rest, files);
      }
    }
  }

  // ------------------------------------------------- the file-content handler

  /** The focused compare button: the type and path of its row. */
  datatype CompareButton = CompareButton(objectType: string, filePath: string)

  /** The answer to `fetch-owner-from-db`: the owner, or null, or a failure. */
  datatype OwnerAnswer = OwnerReply(owner: Option<string>) | OwnerFailed(message: string)

  /** The answer to `get-database-name`: the name, or a failure. */
  datatype NameAnswer = NameReply(name: string) | NameFailed(message: string)

  datatype FileContentOutcome =
    | Notify(message: string)                                           // a notification, nothing sent
    | NoActiveButton                                                    // no compare button has focus
    | Crash                                                             // destructuring the undefined extractor result
    | SendCompare(request: MainProcess.CompareRequest, filePath: string)  // `compare-code` sent

  const ReadErrorMessage: string := "Error al leer el archivo o archivo vac\U{ED}o"

  const NoNameLead: string := "No se pudo detectar el nombre del objeto en el contenido del archivo. Verifica que el archivo contiene una declaraci\U{F3}n v\U{E1}lida con formato: CREATE OR REPLACE "

  function NoNameMessage(objectType: string): string {
    NoNameLead + objectType + " [ESQUEMA.]NOMBRE"
  }

  function NoOwnerMessage(objectName: string, database: string): string {
    "No se encontr\U{F3} el esquema del objeto '" + objectName + "' en la base de datos '" + database + "'. Revisar su existencia."
  }

  function OwnerErrorMessage(message: string): string {
    "Error al consultar el esquema desde la base de datos: " + message
  }

  /** What the extractor returns for the focused button's type; nothing without a button. */
  function Extracted(fileContent: string, button: Option<CompareButton>): Option<ObjectInfo> {
    if button.None? then None else ObjectInfoFromContent(fileContent, button.value.objectType)
  }

  /**
   * What the `file-content` handler does, as written, given what the
   * extractor returned: its outcome, and whether it asked the database for
   * the owner. `fetchOwner` answers `fetch-owner-from-db`; `database` answers
   * `get-database-name`, which is asked only when no owner is found.
   */
  function ContentOutcome(fileContent: string, button: Option<CompareButton>, extracted: Option<ObjectInfo>,
                          fetchOwner: (string, string) -> OwnerAnswer, database: NameAnswer): (FileContentOutcome, bool)
  {
    if fileContent == "" then (Notify(ReadErrorMessage), false)
    else if button.None? then (NoActiveButton, false)
    else
      match extracted
      case None => (Crash, false)
      case Some(info) => InfoOutcome(fileContent, button.value, info, fetchOwner, database)
  }

  /** The handler once the content has yielded `info`. */
  function InfoOutcome(fileContent: string, button: CompareButton, info: ObjectInfo,
                       fetchOwner: (string, string) -> OwnerAnswer, database: NameAnswer): (r: (FileContentOutcome, bool))
    ensures !r.0.Crash?
  {
    var t := button.objectType;
    if info.objectName == "" then (Notify(NoNameMessage(t)), false)
    else if info.schema.Some? && info.schema.value != "" then
      (SendCompare(MainProcess.CompareRequest(fileContent, info.schema.value, t, info.objectName), button.filePath), false)
    else
      match fetchOwner(info.objectName, t)
      case OwnerReply(Some(owner)) =>
        if owner != "" then (SendCompare(MainProcess.CompareRequest(fileContent, owner, t, info.objectName), button.filePath), true)
        else (NoOwnerOutcome(info.objectName, database), true)
      case OwnerReply(None) => (NoOwnerOutcome(info.objectName, database), true)
      case OwnerFailed(message) => (Notify(OwnerErrorMessage(message)), true)
  }

  /**
   * No owner was found: the notification names the database, unless asking
   * for its name fails too, which lands in the same `catch` as a failed
   * owner lookup.
   */
  function NoOwnerOutcome(objectName: string, database: NameAnswer): FileContentOutcome {
    match database
    case NameReply(name) => Notify(NoOwnerMessage(objectName, name))
    case NameFailed(message) => Notify(OwnerErrorMessage(message))
  }

  /** The `file-content` handler. */
  method OnFileContent(fileContent: string, button: Option<CompareButton>,
                       fetchOwner: (string, string) -> OwnerAnswer, database: NameAnswer)
    returns (outcome: FileContentOutcome, ownerAsked: bool)
    ensures (outcome, ownerAsked) == ContentOutcome(fileContent, button, Extracted(fileContent, button), fetchOwner, database)
  {
    if fileContent == "" {
      return Notify(ReadErrorMessage), false;
    }
    if button.None? {
      return NoActiveButton, false;
    }
    var objectType := button.value.objectType;
    var filePath := button.value.filePath;
    var extracted := ExtractObjectInfoFromContent(fileContent, objectType);
    if extracted.None? {
      return Crash, false;
    }
    assert ContentOutcome(fileContent, button, Extracted(fileContent, button), fetchOwner, database)
      == InfoOutcome(fileContent, button.value, extracted.value, fetchOwner, database);
    var schema := extracted.value.schema;
    var objectName := extracted.value.objectName;
    if objectName == "" {
      return Notify(NoNameMessage(objectType)), false;
    }
    ownerAsked := false;
    if schema.None? || schema.value == "" {
      ownerAsked := true;
      var answer := fetchOwner(objectName, objectType);
      match answer {
        case OwnerReply(owner) =>
          if owner.Some? && owner.value != "" {
            schema := owner;
          } else {
            match database {
              case NameReply(name) =>
                return Notify(NoOwnerMessage(objectName, name)), true;
              case NameFailed(message) =>
                return Notify(OwnerErrorMessage(message)), true;
            }
          }
        case OwnerFailed(message) =>
          return Notify(OwnerErrorMessage(message)), true;
      }
    }
    outcome := SendCompare(MainProcess.CompareRequest(fileContent, schema.value, objectType, objectName), filePath);
  }

  /**
   * A request the handler sends carries the file's text unchanged, the type
   * and path of the focused button, an upper-case dotless name read from
   * the content, and a non-empty schema: the content's own, or else the
   * database's owner, which is asked for exactly when the content names none.
   */
  lemma SentRequestIsComplete(fileContent: string, button: CompareButton,
                              fetchOwner: (string, string) -> OwnerAnswer, database: NameAnswer)
    ensures var (outcome, asked) := ContentOutcome(fileContent, Some(button), Extracted(fileContent, Some(button)), fetchOwner, database);
      outcome.SendCompare? ==>
        var info := ObjectInfoFromContent(fileContent, button.objectType);
        && info.Some?
        && outcome.request == MainProcess.CompareRequest(fileContent, outcome.request.schema, button.objectType, info.value.objectName)
        && outcome.filePath == button.filePath
        && outcome.request.schema != ""
        && NameLike(outcome.request.objectName) && IsUpperCase(outcome.request.objectName)
        && '.' !in outcome.request.objectName
        && (asked <==> info.value.schema.None?)
        && (!asked ==> outcome.request.schema == info.value.schema.value)
        && (asked ==> fetchOwner(info.value.objectName, button.objectType) == OwnerReply(Some(outcome.request.schema)))
  {
    ContentInfoShape(fileContent, button.objectType);
  }

  /**
   * When the content names no schema the handler asks the database for the
   * owner, and sends the comparison exactly when a non-empty owner comes
   * back, with that owner as schema. A failed lookup is reported with its
   * message; no owner is reported with the database's name, or with the
   * message of a failure to get that name. Nothing is sent in either case.
   */
  lemma OwnerLookupOutcome(fileContent: string, button: CompareButton,
                           fetchOwner: (string, string) -> OwnerAnswer, database: NameAnswer)
    requires fileContent != ""
    requires var info := ObjectInfoFromContent(fileContent, button.objectType); info.Some? && info.value.schema.None?
    ensures var info := ObjectInfoFromContent(fileContent, button.objectType).value;
      var (outcome, asked) := ContentOutcome(fileContent, Some(button), Extracted(fileContent, Some(button)), fetchOwner, database);
      var answer := fetchOwner(info.objectName, button.objectType);
      var noOwner := answer == OwnerReply(None) || answer == OwnerReply(Some(""));
      && asked
      && (outcome.SendCompare? <==> answer.OwnerReply? && answer.owner.Some? && answer.owner.value != "")
      && (outcome.SendCompare? ==>
            outcome == SendCompare(MainProcess.CompareRequest(fileContent, answer.owner.value, button.objectType, info.objectName),
                                   button.filePath))
      && (answer.OwnerFailed? ==> outcome == Notify(OwnerErrorMessage(answer.message)))
      && (noOwner && database.NameReply? ==> outcome == Notify(NoOwnerMessage(info.objectName, database.name)))
      && (noOwner && database.NameFailed? ==> outcome == Notify(OwnerErrorMessage(database.message)))
  {
    NameNotDetectedUnreachable(fileContent, button.objectType);
  }

  /** Every name the content yields is non-empty, so the handler's "name not detected" branch cannot be reached. */
  lemma NameNotDetectedUnreachable(fileContent: string, objectType: string)
    ensures ObjectInfoFromContent(fileContent, objectType).Some? ==> ObjectInfoFromContent(fileContent, objectType).value.objectName != ""
  {
    ContentInfoShape(fileContent, objectType);
  }

  /** A pattern that starts with `CREATE` finds nothing in a text shorter than that word. */
  lemma CreateNotFound(p: seq<Elem>, c: string, h: string)
    requires p != [] && p[0] == Lit("CREATE") && |c| < 6
    ensures Find(p, c, h).None?
  {
    forall m | 0 <= m <= |c| ensures Match(p, c, h, m).None? {
      assert !LitAt(c, m, "CREATE");
    }
  }

  lemma {:induction false} ShortContentNoInfo(ps: seq<seq<Elem>>, c: string, h: string, k: nat)
    requires k <= |ps| && |c| < 6
    requires forall j :: 0 <= j < |ps| ==> ps[j] != [] && ps[j][0] == Lit("CREATE")
    ensures InfoFrom(ps, c, h, k).None?
    decreases |ps| - k
  {
    if k < |ps| {
      CreateNotFound(ps[k], c, h);
      ShortContentNoInfo(ps, c, h, k + 1);
    }
  }

  /**
   * As written, a file whose content holds no recognisable header (here: any
   * non-empty content shorter than `CREATE`) makes the handler destructure
   * the extractor's `undefined` and throw, instead of showing its
   * "name not detected" notification.
   */
  lemma ShortContentCrashes(fileContent: string, button: CompareButton,
                            fetchOwner: (string, string) -> OwnerAnswer, database: NameAnswer)
    requires 0 < |fileContent| < 6
    ensures ContentOutcome(fileContent, Some(button), Extracted(fileContent, Some(button)), fetchOwner, database) == (Crash, false)
  {
    var ps := ContentPatterns(button.objectType);
    forall j | 0 <= j < |ps| ensures ps[j] != [] && ps[j][0] == Lit("CREATE") {
    }
    ShortContentNoInfo(ps, Upper(fileContent), button.objectType, 0);
  }

  /** The handler as evidently intended: content without a recognisable header gets the "name not detected" notification. */
  function CorrectedContentOutcome(fileContent: string, button: Option<CompareButton>, extracted: Option<ObjectInfo>,
                                   fetchOwner: (string, string) -> OwnerAnswer, database: NameAnswer): (FileContentOutcome, bool)
  {
    if fileContent != "" && button.Some? && extracted.None?
    then (Notify(NoNameMessage(button.value.objectType)), false)
    else ContentOutcome(fileContent, button, extracted, fetchOwner, database)
  }

  /**
   * The corrected handler never throws, and differs from the written one
   * only where that one throws: on non-empty content, with a focused
   * button, from which the extractor reads nothing.
   */
  lemma CorrectedHandlerNeverCrashes(fileContent: string, button: Option<CompareButton>,
                                     fetchOwner: (string, string) -> OwnerAnswer, database: NameAnswer)
    ensures var x := Extracted(fileContent, button);
      && CorrectedContentOutcome(fileContent, button, x, fetchOwner, database).0 != Crash
      && (ContentOutcome(fileContent, button, x, fetchOwner, database).0 != Crash ==>
            CorrectedContentOutcome(fileContent, button, x, fetchOwner, database) == ContentOutcome(fileContent, button, x, fetchOwner, database))
      && (ContentOutcome(fileContent, button, x, fetchOwner, database).0 == Crash <==>
            fileContent != "" && button.Some? && ObjectInfoFromContent(fileContent, button.value.objectType).None?)
  {
  }
}
