/**
 * The "apply scripts" window: it lists the PL/SQL scripts of a folder, reads
 * schema, name and type of each one, lets the user tick the scripts to apply,
 * sends the ticked ones to the main process and shows the results that come
 * back. The directory listing and the file reads are inputs here; the
 * main-process side that applies the scripts is not part of this model.
 */
module ApplyScripts {
  import opened Wrappers
  import opened Text
  import opened Pattern
  import BatchCompare

  // ------------------------------------------------------ extractObjectInfo

  /** The object kinds the header recogniser accepts, in the order it tries them. */
  const TypeKeywords: seq<string> := ["PACKAGE BODY", "PACKAGE", "FUNCTION", "PROCEDURE"]

  /** `CREATE\s+OR\s+REPLACE\s+(PACKAGE BODY|PACKAGE|FUNCTION|PROCEDURE)\s+([\w."]+)`, case-insensitive. */
  const ApplyHeader: seq<Elem> := CreateOrReplace + [Choice(TypeKeywords), Space, Run(NameChars, true)]

  /** What `extractObjectInfo` reads from a script; a null schema or type is `None`. */
  datatype ScriptInfo = ScriptInfo(schema: Option<string>, objectName: string, objectType: Option<string>)

  /** The first of `kinds` that the upper-cased content mentions. */
  function FirstMentioned(upperContent: string, kinds: seq<string>): (r: Option<string>)
    ensures r.Some? ==> r.value in kinds && Contains(upperContent, r.value)
    ensures r.None? <==> forall o :: o in kinds ==> !Contains(upperContent, o)
  {
    if kinds == [] then None
    else if Contains(upperContent, kinds[0]) then Some(kinds[0])
    else
      var r := FirstMentioned(upperContent, kinds[1..]);
      assert forall o :: o in kinds ==> o == kinds[0] || o in kinds[1..];
      r
  }

  /** The fallback type: the first kind, in the priority order of `TypeKeywords`, that the content mentions. */
  function TypeByContent(upperContent: string): Option<string> {
    FirstMentioned(upperContent, TypeKeywords)
  }

  /** Schema and name from the file name: the base split on `_`, the first piece being the schema. */
  function FromFileName(fileName: string, objectType: Option<string>): ScriptInfo {
    var base := BatchCompare.BaseName(fileName);
    var parts := SplitOn(base, {'_'});
    if |parts| >= 2 then ScriptInfo(Some(Upper(parts[0])), Upper(Join(parts[1..], "_")), objectType)
    else ScriptInfo(None, Upper(base), objectType)
  }

  /** Schema and name from the captured name: quotes removed, then split at the dots, pieces past the second dropped. */
  function FromHeader(typeText: string, nameText: string): ScriptInfo {
    var fullName := Without(nameText, '"');
    var parts := SplitOn(fullName, {'.'});
    if |parts| >= 2 then ScriptInfo(Some(Upper(parts[0])), Upper(parts[1]), Some(Upper(typeText)))
    else ScriptInfo(None, Upper(fullName), Some(Upper(typeText)))
  }

  /** `extractObjectInfo(fileContent, fileName)`. */
  function ExtractObjectInfo(fileContent: string, fileName: string): ScriptInfo {
    match Find(ApplyHeader, fileContent, "")
    case None => FromFileName(fileName, TypeByContent(Upper(fileContent)))
    case Some(f) =>
      HeaderCaptures(fileContent);
      FromHeader(f.captures[0], f.captures[1])
  }

  lemma LeadHasNoGroups()
    ensures Groups(CreateOrReplace) == []
  {
    NoGroups(CreateOrReplace);
  }

  lemma KindAndNameGroups()
    ensures Groups([Choice(TypeKeywords), Space, Run(NameChars, true)]) == [Choice(TypeKeywords), Run(NameChars, true)]
  {
    var c := [Choice(TypeKeywords)];
    var sr := [Space, Run(NameChars, true)];
    assert [Choice(TypeKeywords), Space, Run(NameChars, true)] == c + sr;
    assert sr == [Space] + [Run(NameChars, true)];
    GroupsSingle(Choice(TypeKeywords));
    GroupsSingle(Space);
    GroupsSingle(Run(NameChars, true));
    GroupsConcat([Space], [Run(NameChars, true)]);
    GroupsConcat(c, sr);
  }

  lemma HeaderGroups()
    ensures Groups(ApplyHeader) == [Choice(TypeKeywords), Run(NameChars, true)]
  {
    LeadHasNoGroups();
    KindAndNameGroups();
    GroupsConcat(CreateOrReplace, [Choice(TypeKeywords), Space, Run(NameChars, true)]);
  }

  /** A header match captures one of the kinds (in any case) and a non-empty run of name characters. */
  lemma HeaderCaptures(fileContent: string)
    requires Find(ApplyHeader, fileContent, "").Some?
    ensures var g := Find(ApplyHeader, fileContent, "").value.captures;
      && |g| == 2
      && (exists o :: o in TypeKeywords && EqualsIgnoreCase(g[0], o))
      && g[1] != [] && forall m :: 0 <= m < |g[1]| ==> InClass(NameChars, g[1][m])
  {
    FindCaptures(ApplyHeader, fileContent, "");
    HeaderGroups();
    var g := Find(ApplyHeader, fileContent, "").value.captures;
    assert CapturedBy(Choice(TypeKeywords), g[0]);
    assert CapturedBy(Run(NameChars, true), g[1]);
  }

  /** A kind captured in any case upper-cases to the keyword itself. */
  lemma KindUpperCased(t: string, o: string)
    requires o in TypeKeywords && EqualsIgnoreCase(t, o)
    ensures Upper(t) == o
  {
    assert forall k :: 0 <= k < |TypeKeywords| ==> IsUpperCase(TypeKeywords[k]) by {
      PlainUpper(TypeKeywords[0]);
      PlainUpper(TypeKeywords[1]);
      PlainUpper(TypeKeywords[2]);
      PlainUpper(TypeKeywords[3]);
    }
  }

  lemma PlainUpper(o: string)
    requires forall i :: 0 <= i < |o| ==> o[i] == ' ' || 'A' <= o[i] <= 'Z'
    ensures IsUpperCase(o)
  {
  }

  /** The kind and the name, the part of the header after `CREATE OR REPLACE`. */
  const KindAndName: seq<Elem> := [Choice(TypeKeywords), Space, Run(NameChars, true)]

  /**
   * Where the text reads `PACKAGE BODY` (one space, any case) followed by a
   * name, the alternation takes `PACKAGE BODY`, not its prefix `PACKAGE`.
   */
  lemma KindPrefersPackageBody(s: string, i: nat)
    requires i <= |s| && LitAt(s, i, "PACKAGE BODY")
    requires Match([Space, Run(NameChars, true)], s, "", i + 12).Some?
    ensures Match(KindAndName, s, "", i).Some?
    ensures var g := Match(KindAndName, s, "", i).value.captures;
      |g| >= 1 && Upper(g[0]) == "PACKAGE BODY"
  {
    assert TypeKeywords[0] == "PACKAGE BODY";
    assert KindAndName[1..] == [Space, Run(NameChars, true)];
    KindUpperCased(s[i..i + 12], "PACKAGE BODY");
  }

  /**
   * The type is always one of the four kinds. It is missing exactly when
   * no header matches and the content mentions none of the kinds, in any case.
   */
  lemma TypeIsKeyword(fileContent: string, fileName: string)
    ensures var r := ExtractObjectInfo(fileContent, fileName);
      && (r.objectType.Some? ==> r.objectType.value in TypeKeywords)
      && (r.objectType.None? <==>
            Find(ApplyHeader, fileContent, "").None? &&
            forall o :: o in TypeKeywords ==> !Contains(Upper(fileContent), o))
  {
    match Find(ApplyHeader, fileContent, "")
    case None =>
    case Some(f) =>
      HeaderCaptures(fileContent);
      var o :| o in TypeKeywords && EqualsIgnoreCase(f.captures[0], o);
      KindUpperCased(f.captures[0], o);
  }

  /** Without a header, a mention of a kind in the content gives the earliest kind in priority order. */
  lemma FallbackTypePriority(upperContent: string)
    ensures Contains(upperContent, "PACKAGE BODY") ==> TypeByContent(upperContent) == Some("PACKAGE BODY")
    ensures TypeByContent(upperContent) == Some("PACKAGE") <==>
      Contains(upperContent, "PACKAGE") && !Contains(upperContent, "PACKAGE BODY")
    ensures TypeByContent(upperContent) == Some("FUNCTION") <==>
      Contains(upperContent, "FUNCTION") && !Contains(upperContent, "PACKAGE")
    ensures TypeByContent(upperContent) == Some("PROCEDURE") <==>
      Contains(upperContent, "PROCEDURE") && !Contains(upperContent, "PACKAGE") && !Contains(upperContent, "FUNCTION")
  {
    var k := TypeKeywords;
    FirstMentionedEarliest(upperContent, k, 0);
    FirstMentionedEarliest(upperContent, k, 1);
    FirstMentionedEarliest(upperContent, k, 2);
    FirstMentionedEarliest(upperContent, k, 3);
    if Contains(upperContent, "PACKAGE BODY") {
      assert "PACKAGE" + " BODY" == "PACKAGE BODY";
      ContainsPrefix(upperContent, "PACKAGE", " BODY");
    }
  }

  /** Of distinct kinds, the one picked is the first mentioned: it is mentioned, and none before it is. */
  lemma {:induction false} FirstMentionedEarliest(upperContent: string, kinds: seq<string>, i: nat)
    requires i < |kinds|
    requires forall a, b :: 0 <= a < b < |kinds| ==> kinds[a] != kinds[b]
    ensures FirstMentioned(upperContent, kinds) == Some(kinds[i]) <==>
      Contains(upperContent, kinds[i]) && forall j :: 0 <= j < i ==> !Contains(upperContent, kinds[j])
  {
    if !Contains(upperContent, kinds[0]) {
      var rest := kinds[1..];
      if i == 0 {
        assert kinds[0] !in rest;
      } else {
        FirstMentionedEarliest(upperContent, rest, i - 1);
        assert rest[i - 1] == kinds[i];
        assert forall j :: 0 <= j < i - 1 ==> rest[j] == kinds[j + 1];
      }
    } else if i > 0 {
      assert kinds[0] != kinds[i];
    }
  }

  /**
   * A header names its object with word characters only: the quotes are
   * gone, the schema is present exactly when the name was qualified, and
   * neither part keeps a dot.
   */
  lemma HeaderNamesAreWords(fileContent: string, fileName: string)
    requires Find(ApplyHeader, fileContent, "").Some?
    ensures var r := ExtractObjectInfo(fileContent, fileName);
      var g := Find(ApplyHeader, fileContent, "").value.captures;
      && |g| == 2
      && (r.schema.Some? <==> '.' in Without(g[1], '"'))
      && (forall c :: c in r.objectName ==> IsWordChar(c))
      && (r.schema.Some? ==> forall c :: c in r.schema.value ==> IsWordChar(c))
  {
    HeaderCaptures(fileContent);
    var g := Find(ApplyHeader, fileContent, "").value.captures;
    var fullName := Without(g[1], '"');
    assert forall c :: c in g[1] ==> InClass(NameChars, c);
    if '.' !in fullName {
      SplitWithoutSeparator(fullName, {'.'});
    }
    if '.' in fullName {
      SplitPiecesFree(fullName, {'.'});
      SplitPiecesFrom(fullName, {'.'});
      var i :| 0 <= i < |fullName| && fullName[i] == '.';
      SplitAtSeparator(fullName, {'.'}, i);
      var parts := SplitOn(fullName, {'.'});
      WordPiece(parts[0], fullName);
      WordPiece(parts[1], fullName);
    } else {
      WordPiece(fullName, fullName);
    }
  }

  /** Name characters without quotes or dots are word characters, and stay so upper-cased. */
  lemma WordPiece(piece: string, fullName: string)
    requires forall c :: c in fullName ==> InClass(NameChars, c) && c != '"'
    requires forall c :: c in piece ==> c in fullName && c != '.'
    ensures forall c :: c in Upper(piece) ==> IsWordChar(c)
  {
    forall c | c in Upper(piece) ensures IsWordChar(c) {
      var m :| 0 <= m < |piece| && Upper(piece)[m] == c;
      assert piece[m] in piece;
    }
  }

  /**
   * Without a header, schema and name spell the upper-cased base name back:
   * `SCHEMA_NAME` with the first `_` as the cut, or the whole base, which
   * then holds no `_`.
   */
  lemma FallbackSpellsBase(fileContent: string, fileName: string)
    requires Find(ApplyHeader, fileContent, "").None?
    ensures var r := ExtractObjectInfo(fileContent, fileName);
      var base := BatchCompare.BaseName(fileName);
      && (r.schema.Some? ==> r.schema.value + "_" + r.objectName == Upper(base) && '_' !in r.schema.value)
      && (r.schema.None? ==> r.objectName == Upper(base) && '_' !in base)
  {
    var base := BatchCompare.BaseName(fileName);
    var parts := SplitOn(base, {'_'});
    SplitPiecesFree(base, {'_'});
    if |parts| >= 2 {
      JoinSplit(base, {'_'}, '_');
      ReplaceSelf(base, '_');
      assert Join(parts, "_") == parts[0] + "_" + Join(parts[1..], "_");
      UpperConcat(parts[0] + "_", Join(parts[1..], "_"));
      UpperConcat(parts[0], "_");
      assert Upper("_") == "_";
      UpperKeepsOut(parts[0], '_');
    } else {
      BatchCompare.SinglePiece(base, {'_'}, ' ');
    }
  }

  // -------------------------------------------------------- loadScriptsList

  const ValidExtensions: seq<string> := [".pck", ".fnc", ".prc"]

  const NoScriptsMessage: string := "No se encontraron scripts válidos en la carpeta."

  const SelectOneMessage: string := "Selecciona al menos un script para aplicar."

  function FolderErrorMessage(message: string): string {
    "Error leyendo la carpeta: " + message
  }

  /** What reading one file gives: its text, or the message of the exception it throws. */
  datatype FileRead = Content(text: string) | ReadFailed(message: string)

  /** A directory entry, with what reading it would give. */
  datatype DirEntry = DirEntry(file: string, read: FileRead)

  /** What listing the folder gives: its entries in listing order, or the message of the exception. */
  datatype DirListing = Listing(entries: seq<DirEntry>) | ListingFailed(message: string)

  /** An entry of `scriptsAvailable`. */
  datatype Script = Script(file: string, fullPath: string, content: string,
                           schema: Option<string>, objectName: string, objectType: string)

  /** A checkbox of the list; it carries the full path of its script. */
  datatype Checkbox = Checkbox(filePath: string, checked: bool)

  /** `path.join(folderPath, file)` for a plain file name. */
  function JoinPath(folderPath: string, file: string): string {
    folderPath + "/" + file
  }

  predicate IsScriptFile(file: string) {
    Lower(BatchCompare.ExtName(file)) in ValidExtensions
  }

  /** The script a file's content gives, unless `extractObjectInfo` finds no type or no name. */
  function Admit(folderPath: string, file: string, content: string): Option<Script> {
    var info := ExtractObjectInfo(content, file);
    if info.objectType.None? || info.objectName == "" then None
    else Some(Script(file, JoinPath(folderPath, file), content, info.schema, info.objectName, info.objectType.value))
  }

  /** What the walk does with one entry: passes it by, stops at its failed read, or keeps its script. */
  datatype Step = Skip | Stop(message: string) | Keep(script: Script)

  function StepOf(folderPath: string, entry: DirEntry): Step {
    if !IsScriptFile(entry.file) then Skip
    else match entry.read
      case ReadFailed(m) => Stop(m)
      case Content(c) =>
        match Admit(folderPath, entry.file, c)
        case None => Skip
        case Some(script) => Keep(script)
  }

  /** The scripts a walk over the entries gathers, and the message of the read that stopped it, if one did. */
  datatype Scan = Scan(scripts: seq<Script>, failure: Option<string>)

  /** The step for each entry, in listing order. */
  function Steps(folderPath: string, entries: seq<DirEntry>): (steps: seq<Step>)
    ensures |steps| == |entries|
  {
    if entries == [] then [] else [StepOf(folderPath, entries[0])] + Steps(folderPath, entries[1..])
  }

  lemma {:induction false} StepsAt(folderPath: string, entries: seq<DirEntry>, k: nat)
    requires k < |entries|
    ensures Steps(folderPath, entries)[k] == StepOf(folderPath, entries[k])
  {
    if k > 0 {
      StepsAt(folderPath, entries[1..], k - 1);
    }
  }

  /** The walk over `steps[k..]`: it gathers the kept scripts and ends at the first stop. */
  function Walk(steps: seq<Step>, k: nat): Scan
    requires k <= |steps|
    decreases |steps| - k
  {
    if k == |steps| then Scan([], None)
    else match steps[k]
      case Skip => Walk(steps, k + 1)
      case Stop(m) => Scan([], Some(m))
      case Keep(script) =>
        var rest := Walk(steps, k + 1);
        Scan([script] + rest.scripts, rest.failure)
  }

  /** One step of the walk, as a loop over the steps takes it: `acc` holds what the walk gathered before `k`. */
  lemma WalkStep(steps: seq<Step>, k: nat, acc: seq<Script>)
    requires k < |steps|
    requires Walk(steps, 0) == Scan(acc + Walk(steps, k).scripts, Walk(steps, k).failure)
    ensures steps[k].Skip? ==> Walk(steps, 0) == Scan(acc + Walk(steps, k + 1).scripts, Walk(steps, k + 1).failure)
    ensures steps[k].Keep? ==>
      Walk(steps, 0) == Scan(acc + [steps[k].script] + Walk(steps, k + 1).scripts, Walk(steps, k + 1).failure)
    ensures steps[k].Stop? ==> Walk(steps, 0) == Scan(acc, Some(steps[k].message))
  {
    if steps[k].Keep? {
      assert acc + ([steps[k].script] + Walk(steps, k + 1).scripts) == acc + [steps[k].script] + Walk(steps, k + 1).scripts;
    }
  }

  /** The walk `loadScriptsList` makes over the folder's entries. */
  function ScanFolder(folderPath: string, entries: seq<DirEntry>): Scan {
    Walk(Steps(folderPath, entries), 0)
  }

  /** A kept script is the one its entry's content gives. */
  lemma KeepFacts(folderPath: string, entry: DirEntry)
    requires StepOf(folderPath, entry).Keep?
    ensures var s := StepOf(folderPath, entry).script;
      && IsScriptFile(s.file)
      && s.fullPath == JoinPath(folderPath, s.file)
      && s.objectName != ""
      && entry == DirEntry(s.file, Content(s.content))
      && ExtractObjectInfo(s.content, s.file) == ScriptInfo(s.schema, s.objectName, Some(s.objectType))
  {
    var c := entry.read.text;
    var info := ExtractObjectInfo(c, entry.file);
    assert Admit(folderPath, entry.file, c) == Some(Script(entry.file, JoinPath(folderPath, entry.file), c, info.schema, info.objectName, info.objectType.value));
  }

  /** One unchecked box per script, in order. */
  function BoxesFor(scripts: seq<Script>): (boxes: seq<Checkbox>)
    ensures |boxes| == |scripts|
  {
    seq(|scripts|, i requires 0 <= i < |scripts| => Checkbox(scripts[i].fullPath, false))
  }

  lemma BoxesForPush(scripts: seq<Script>, s: Script)
    ensures BoxesFor(scripts + [s]) == BoxesFor(scripts) + [Checkbox(s.fullPath, false)]
  {
  }

  function EntryFiles(entries: seq<DirEntry>): seq<string> {
    seq(|entries|, i requires 0 <= i < |entries| => entries[i].file)
  }

  function ScriptFiles(scripts: seq<Script>): seq<string> {
    seq(|scripts|, i requires 0 <= i < |scripts| => scripts[i].file)
  }

  /** A script the walk keeps. */
  predicate AdmittedFrom(folderPath: string, s: Script) {
    && IsScriptFile(s.file)
    && s.fullPath == JoinPath(folderPath, s.file)
    && s.objectName != ""
    && ExtractObjectInfo(s.content, s.file) == ScriptInfo(s.schema, s.objectName, Some(s.objectType))
  }

  /** Every script the walk gathers was kept by a step in `steps[k..]`. */
  lemma {:induction false} WalkKept(steps: seq<Step>, k: nat)
    requires k <= |steps|
    ensures forall s :: s in Walk(steps, k).scripts ==> exists j :: k <= j < |steps| && steps[j] == Keep(s)
    decreases |steps| - k
  {
    if k < |steps| {
      WalkKept(steps, k + 1);
    }
  }

  /**
   * Every listed script comes from an entry with a script extension whose
   * read succeeded, and carries what `extractObjectInfo` reads from that
   * content: a type, and a name that is not empty.
   */
  lemma ScanAdmits(folderPath: string, entries: seq<DirEntry>)
    ensures forall s :: s in ScanFolder(folderPath, entries).scripts ==>
      AdmittedFrom(folderPath, s) && DirEntry(s.file, Content(s.content)) in entries
  {
    var steps := Steps(folderPath, entries);
    WalkKept(steps, 0);
    forall s | s in ScanFolder(folderPath, entries).scripts
      ensures AdmittedFrom(folderPath, s) && DirEntry(s.file, Content(s.content)) in entries
    {
      var j :| 0 <= j < |steps| && steps[j] == Keep(s);
      StepsAt(folderPath, entries, j);
      KeepFacts(folderPath, entries[j]);
    }
  }

  /** The names of the gathered scripts keep the order of their steps. */
  lemma {:induction false} WalkKeepsOrder(steps: seq<Step>, names: seq<string>, k: nat)
    requires k <= |steps| == |names|
    requires forall j :: 0 <= j < |steps| && steps[j].Keep? ==> steps[j].script.file == names[j]
    ensures Sublist(ScriptFiles(Walk(steps, k).scripts), names[k..])
    decreases |steps| - k
  {
    if k < |steps| {
      WalkKeepsOrder(steps, names, k + 1);
      var r := Walk(steps, k);
      var rest := Walk(steps, k + 1);
      var b := names[k..];
      assert b[1..] == names[k + 1..];
      match steps[k]
      case Skip =>
        SublistSkip(ScriptFiles(r.scripts), b);
      case Stop(_) =>
      case Keep(script) =>
        assert ScriptFiles(r.scripts)[1..] == ScriptFiles(rest.scripts);
    }
  }

  /** The scripts keep the listing order of their files. */
  lemma ScanKeepsOrder(folderPath: string, entries: seq<DirEntry>)
    ensures Sublist(ScriptFiles(ScanFolder(folderPath, entries).scripts), EntryFiles(entries))
  {
    var steps := Steps(folderPath, entries);
    forall j | 0 <= j < |steps| && steps[j].Keep? ensures steps[j].script.file == EntryFiles(entries)[j] {
      StepsAt(folderPath, entries, j);
      KeepFacts(folderPath, entries[j]);
    }
    WalkKeepsOrder(steps, EntryFiles(entries), 0);
    assert EntryFiles(entries)[0..] == EntryFiles(entries);
  }

  /**
   * The walk ends early exactly when some step stops it; one that no step
   * stopped gathers the script of every step that keeps one.
   */
  lemma {:induction false} WalkComplete(steps: seq<Step>, k: nat)
    requires k <= |steps|
    ensures Walk(steps, k).failure.None? <==> forall j :: k <= j < |steps| ==> !steps[j].Stop?
    ensures Walk(steps, k).failure.None? ==>
      forall j :: k <= j < |steps| && steps[j].Keep? ==> steps[j].script in Walk(steps, k).scripts
    decreases |steps| - k
  {
    if k < |steps| {
      WalkComplete(steps, k + 1);
    }
  }

  /** The folder's walk ends early exactly when a script file cannot be read. */
  lemma ScanStopsIffUnreadable(folderPath: string, entries: seq<DirEntry>)
    ensures ScanFolder(folderPath, entries).failure.None? <==>
      forall j :: 0 <= j < |entries| && IsScriptFile(entries[j].file) ==> entries[j].read.Content?
  {
    var steps := Steps(folderPath, entries);
    WalkComplete(steps, 0);
    forall j | 0 <= j < |entries| ensures steps[j].Stop? <==> IsScriptFile(entries[j].file) && entries[j].read.ReadFailed? {
      StepsAt(folderPath, entries, j);
      StopIffUnreadable(folderPath, entries[j]);
    }
  }

  /** A walk that no read stopped lists the script of every entry that gives one. */
  lemma ScanKeepsEveryScript(folderPath: string, entries: seq<DirEntry>, j: nat)
    requires j < |entries| && ScanFolder(folderPath, entries).failure.None?
    requires IsScriptFile(entries[j].file) && entries[j].read.Content?
    requires Admit(folderPath, entries[j].file, entries[j].read.text).Some?
    ensures Admit(folderPath, entries[j].file, entries[j].read.text).value in ScanFolder(folderPath, entries).scripts
  {
    var steps := Steps(folderPath, entries);
    WalkComplete(steps, 0);
    StepsAt(folderPath, entries, j);
    KeepOfAdmit(folderPath, entries[j]);
  }

  lemma KeepOfAdmit(folderPath: string, entry: DirEntry)
    requires IsScriptFile(entry.file) && entry.read.Content?
    requires Admit(folderPath, entry.file, entry.read.text).Some?
    ensures StepOf(folderPath, entry) == Keep(Admit(folderPath, entry.file, entry.read.text).value)
  {
  }

  /** A read stops the walk exactly when the file has a script extension. */
  lemma StopIffUnreadable(folderPath: string, entry: DirEntry)
    ensures StepOf(folderPath, entry).Stop? <==> IsScriptFile(entry.file) && entry.read.ReadFailed?
  {
  }

  // ---------------------------------------------------- starting the apply

  /** One entry of `scriptsToApply`. */
  datatype ScriptToApply = ScriptToApply(schema: Option<string>, objectName: string, objectType: string,
                                         content: string, filePath: string)

  /** The `apply-scripts` message. */
  datatype ApplyRequest = ApplyRequest(scripts: seq<ScriptToApply>, backupPath: string)

  /** The paths of the checked boxes, in list order. */
  function CheckedPaths(boxes: seq<Checkbox>): (paths: seq<string>)
    ensures |paths| <= |boxes|
    ensures paths == [] <==> forall i :: 0 <= i < |boxes| ==> !boxes[i].checked
  {
    if boxes == [] then []
    else
      var rest := CheckedPaths(boxes[1..]);
      assert forall i :: 1 <= i < |boxes| ==> boxes[i] == boxes[1..][i - 1];
      (if boxes[0].checked then [boxes[0].filePath] else []) + rest
  }

  /** `scriptsAvailable.find(...)`: the first script with that full path. */
  function FindByPath(scripts: seq<Script>, path: string): (r: Option<Script>)
    ensures r.Some? ==> r.value in scripts && r.value.fullPath == path
    ensures r.None? <==> forall s :: s in scripts ==> s.fullPath != path
    ensures r.Some? ==>
      exists i :: 0 <= i < |scripts| && scripts[i] == r.value && (forall j :: 0 <= j < i ==> scripts[j].fullPath != path)
  {
    if scripts == [] then None
    else if scripts[0].fullPath == path then Some(scripts[0])
    else
      var r := FindByPath(scripts[1..], path);
      assert forall s :: s in scripts[1..] ==> s in scripts;
      assert forall s :: s in scripts ==> s == scripts[0] || s in scripts[1..];
      assert r.Some? ==>
        exists i :: 0 <= i < |scripts| && scripts[i] == r.value && (forall j :: 0 <= j < i ==> scripts[j].fullPath != path) by {
        if r.Some? {
          var k :| 0 <= k < |scripts[1..]| && scripts[1..][k] == r.value &&
            (forall j :: 0 <= j < k ==> scripts[1..][j].fullPath != path);
          assert scripts[k + 1] == r.value;
          forall j | 0 < j < k + 1 ensures scripts[j].fullPath != path {
            assert scripts[j] == scripts[1..][j - 1];
          }
        }
      }
      r
  }

  function ToApply(s: Script): ScriptToApply {
    ScriptToApply(s.schema, s.objectName, s.objectType, s.content, s.fullPath)
  }

  /** What the click pushes for the checked paths, in their order; a path no script has adds nothing. */
  function ScriptsToApply(paths: seq<string>, scripts: seq<Script>): seq<ScriptToApply> {
    if paths == [] then []
    else
      var before := ScriptsToApply(paths[..|paths| - 1], scripts);
      match FindByPath(scripts, paths[|paths| - 1])
      case None => before
      case Some(s) => before + [ToApply(s)]
  }

  /**
   * Every pushed script is a copy of an available one, and it goes to the
   * path that was checked; no more are pushed than boxes were checked.
   */
  lemma {:induction false} ToApplyCopies(paths: seq<string>, scripts: seq<Script>)
    ensures |ScriptsToApply(paths, scripts)| <= |paths|
    ensures forall t :: t in ScriptsToApply(paths, scripts) ==>
      t.filePath in paths && exists s :: s in scripts && t == ToApply(s)
  {
    if paths != [] {
      var front := paths[..|paths| - 1];
      ToApplyCopies(front, scripts);
      assert forall p :: p in front ==> p in paths;
    }
  }

  /** When every checked path has its script, one is pushed per checked box, in the boxes' order. */
  lemma {:induction false} ToApplyFollowsBoxes(paths: seq<string>, scripts: seq<Script>)
    requires forall p :: p in paths ==> exists s :: s in scripts && s.fullPath == p
    ensures |ScriptsToApply(paths, scripts)| == |paths|
    ensures forall i :: 0 <= i < |paths| ==> ScriptsToApply(paths, scripts)[i].filePath == paths[i]
  {
    if paths != [] {
      var front := paths[..|paths| - 1];
      assert forall p :: p in front ==> p in paths;
      ToApplyFollowsBoxes(front, scripts);
      assert paths[|paths| - 1] in paths;
    }
  }

  // ------------------------------------------------------- showing results

  /** One entry of the response's `results`; a missing or empty `error` is `None` or `""`. */
  datatype ApplyResult = ApplyResult(objectName: string, status: string, error: Option<string>)

  /** The `apply-scripts-response` message. */
  datatype ApplyResponse = ApplyResponse(success: bool, message: string, results: seq<ApplyResult>)

  const ResultsHeading: string := "<h3>Resultados de Aplicación de Scripts:</h3><ul>"

  /** The error line of a result: shown only when its error is present and not empty. */
  function ErrorLine(r: ApplyResult): string {
    if r.error.Some? && r.error.value != "" then "<br><em>Error:</em> " + r.error.value else ""
  }

  function ItemHtml(r: ApplyResult): string {
    "<li><strong>" + r.objectName + "</strong>: " + r.status + ErrorLine(r) + "</li>"
  }

  /** The list items of `results`, in order. */
  function Items(results: seq<ApplyResult>): (items: seq<string>)
    ensures |items| == |results|
  {
    seq(|results|, i requires 0 <= i < |results| => ItemHtml(results[i]))
  }

  function ItemsHtml(results: seq<ApplyResult>): string {
    Concat(Items(results))
  }

  /** The items of two runs of results are the items of the first, then those of the second. */
  lemma ItemsHtmlConcat(a: seq<ApplyResult>, b: seq<ApplyResult>)
    ensures ItemsHtml(a + b) == ItemsHtml(a) + ItemsHtml(b)
  {
    assert Items(a + b) == Items(a) + Items(b);
    ConcatAppend(Items(a), Items(b));
  }

  /** The items of the first `k + 1` results: those of the first `k`, then the item of result `k`. */
  lemma ItemsHtmlStep(results: seq<ApplyResult>, k: nat)
    requires k < |results|
    ensures ItemsHtml(results[..k + 1]) == ItemsHtml(results[..k]) + ItemHtml(results[k])
  {
    ItemsHtmlConcat(results[..k], [results[k]]);
    assert results[..k + 1] == results[..k] + [results[k]];
    var item := ItemHtml(results[k]);
    assert Items([results[k]]) == [item];
    ConcatOne(item);
  }

  function ResultsHtml(results: seq<ApplyResult>): string {
    ResultsHeading + ItemsHtml(results) + "</ul>"
  }

  // ------------------------------------------------------------- the window

  /** The state of the window that the handlers change. */
  class ApplyScriptsView {
    var folderInput: string
    var scriptsAvailable: seq<Script>
    var boxes: seq<Checkbox>
    /** A message that replaces the list, if one is shown. */
    var listMessage: Option<string>
    var resultHtml: string
    var startDisabled: bool
    var loaderShown: bool

    /** The body of the `forEach` over the entries, up to its effect on the list. */
    static method ReadEntry(folderPath: string, entries: seq<DirEntry>, k: nat) returns (step: Step)
      requires k < |entries|
      ensures step == Steps(folderPath, entries)[k]
    {
      StepsAt(folderPath, entries, k);
      var entry := entries[k];
      if !IsScriptFile(entry.file) {
        return Skip;
      }
      match entry.read
      case ReadFailed(m) =>
        return Stop(m);
      case Content(c) =>
        var info := ExtractObjectInfo(c, entry.file);
        if info.objectType.None? || info.objectName == "" {
          return Skip;
        }
        return Keep(Script(entry.file, JoinPath(folderPath, entry.file), c, info.schema, info.objectName, info.objectType.value));
    }

    /**
     * The window shows the list of `folderPath`: results emptied, button
     * disabled, and the folder's scripts with one box each, the no-scripts
     * message when there are none, or the error message when the listing or
     * a read fails (the scripts read before that failure are kept).
     */
    predicate Listed(folderPath: string, listing: DirListing)
      reads this
    {
      && resultHtml == "" && startDisabled
      && (listing.ListingFailed? ==>
            scriptsAvailable == [] && boxes == [] && listMessage == Some(FolderErrorMessage(listing.message)))
      && (listing.Listing? ==>
            var scan := ScanFolder(folderPath, listing.entries);
            && scriptsAvailable == scan.scripts
            && (scan.failure.Some? ==> boxes == [] && listMessage == Some(FolderErrorMessage(scan.failure.value)))
            && (scan.failure.None? ==>
                  boxes == BoxesFor(scan.scripts) &&
                  listMessage == (if scan.scripts == [] then Some(NoScriptsMessage) else None)))
    }

    /** `loadScriptsList(folderPath)`, with `listing` what the folder gives. */
    method LoadScriptsList(folderPath: string, listing: DirListing)
      modifies this
      ensures folderInput == old(folderInput) && loaderShown == old(loaderShown)
      ensures Listed(folderPath, listing)
    {
      boxes := [];
      listMessage := None;
      resultHtml := "";
      startDisabled := true;
      scriptsAvailable := [];
      if listing.ListingFailed? {
        listMessage := Some(FolderErrorMessage(listing.message));
        return;
      }
      var scripts, list, failure := ReadEntries(folderPath, listing.entries);
      scriptsAvailable := scripts;
      if failure.Some? {
        // the exception left the loop; its message replaces the list
        listMessage := Some(FolderErrorMessage(failure.value));
        return;
      }
      boxes := list;
      if scriptsAvailable == [] {
        listMessage := Some(NoScriptsMessage);
      }
    }

    /**
     * The `forEach` over the folder's entries: the scripts it pushes and the
     * boxes it appends, until a read throws; `failure` is that read's message.
     */
    static method ReadEntries(folderPath: string, entries: seq<DirEntry>)
      returns (scripts: seq<Script>, list: seq<Checkbox>, failure: Option<string>)
      ensures Scan(scripts, failure) == ScanFolder(folderPath, entries)
      ensures list == BoxesFor(scripts)
    {
      ghost var steps := Steps(folderPath, entries);
      scripts, list, failure := [], [], None;
      var k := 0;
      while k < |entries| && failure.None?
        invariant 0 <= k <= |entries|
        invariant list == BoxesFor(scripts)
        invariant failure.None? ==> Walk(steps, 0) == Scan(scripts + Walk(steps, k).scripts, Walk(steps, k).failure)
        invariant failure.Some? ==> Walk(steps, 0) == Scan(scripts, failure)
      {
        var step := ReadEntry(folderPath, entries, k);
        WalkStep(steps, k, scripts);
        match step {
          case Skip =>
          case Stop(m) =>
            failure := Some(m);
          case Keep(script) =>
            BoxesForPush(scripts, script);
            list := list + [Checkbox(script.fullPath, false)];
            scripts := scripts + [script];
        }
        k := k + 1;
      }
      if failure.None? {
        assert Walk(steps, k) == Scan([], None);
        assert scripts + [] == scripts;
      }
    }

    /** The `forEach` over the checked boxes: for each, the first script with its path, if any. */
    static method CollectScripts(checkedPaths: seq<string>, scripts: seq<Script>) returns (scriptsToApply: seq<ScriptToApply>)
      ensures scriptsToApply == ScriptsToApply(checkedPaths, scripts)
    {
      scriptsToApply := [];
      var k := 0;
      while k < |checkedPaths|
        invariant 0 <= k <= |checkedPaths|
        invariant scriptsToApply == ScriptsToApply(checkedPaths[..k], scripts)
      {
        assert checkedPaths[..k + 1][..k] == checkedPaths[..k];
        var script := FindByPath(scripts, checkedPaths[k]);
        if script.Some? {
          scriptsToApply := scriptsToApply + [ToApply(script.value)];
        }
        k := k + 1;
      }
      assert checkedPaths[..k] == checkedPaths;
    }

    /** The `forEach` over the results: the heading, one list item per result, and the closing tag. */
    static method RenderResults(results: seq<ApplyResult>) returns (html: string)
      ensures html == ResultsHtml(results)
    {
      html := ResultsHeading;
      var k := 0;
      while k < |results|
        invariant 0 <= k <= |results|
        invariant html == ResultsHeading + ItemsHtml(results[..k])
      {
        ItemsHtmlStep(results, k);
        AppendAssoc(ResultsHeading, ItemsHtml(results[..k]), ItemHtml(results[k]));
        html := html + ItemHtml(results[k]);
        k := k + 1;
      }
      html := html + "</ul>";
      assert results[..k] == results;
    }

    /** A checkbox's `change` listener: the box takes its new state and the button follows the boxes. */
    method Toggle(i: nat, checked: bool)
      requires i < |boxes|
      modifies this
      ensures boxes == old(boxes)[i := Checkbox(old(boxes)[i].filePath, checked)]
      ensures startDisabled <==> forall j :: 0 <= j < |boxes| ==> !boxes[j].checked
      ensures folderInput == old(folderInput) && scriptsAvailable == old(scriptsAvailable)
      ensures listMessage == old(listMessage) && resultHtml == old(resultHtml) && loaderShown == old(loaderShown)
    {
      boxes := boxes[i := Checkbox(boxes[i].filePath, checked)];
      startDisabled := |CheckedPaths(boxes)| == 0;
    }

    /**
     * The start button's `click` listener: with no box checked it alerts and
     * sends nothing; otherwise it shows the loader, clears the results,
     * disables itself and sends the checked scripts with the trimmed folder
     * as backup path.
     */
    method StartApply() returns (alert: Option<string>, request: Option<ApplyRequest>)
      modifies this
      ensures CheckedPaths(old(boxes)) == [] ==>
        alert == Some(SelectOneMessage) && request == None &&
        startDisabled == old(startDisabled) && loaderShown == old(loaderShown) && resultHtml == old(resultHtml)
      ensures CheckedPaths(old(boxes)) != [] ==>
        && alert == None
        && request == Some(ApplyRequest(ScriptsToApply(CheckedPaths(boxes), scriptsAvailable), Trim(folderInput)))
        && startDisabled && loaderShown && resultHtml == ""
      ensures boxes == old(boxes) && scriptsAvailable == old(scriptsAvailable)
      ensures folderInput == old(folderInput) && listMessage == old(listMessage)
    {
      var checkedPaths := CheckedPaths(boxes);
      if |checkedPaths| == 0 {
        return Some(SelectOneMessage), None;
      }
      loaderShown := true;
      resultHtml := "";
      startDisabled := true;
      var scriptsToApply := CollectScripts(checkedPaths, scriptsAvailable);
      return None, Some(ApplyRequest(scriptsToApply, Trim(folderInput)));
    }

    /**
     * The `apply-scripts-response` listener: it hides the loader and enables
     * the button; a failed response is alerted, a successful one replaces
     * the results with one list item per result.
     */
    method OnApplyResponse(response: ApplyResponse) returns (alert: Option<string>)
      modifies this
      ensures !loaderShown && !startDisabled
      ensures !response.success ==> alert == Some("Error: " + response.message) && resultHtml == old(resultHtml)
      ensures response.success ==> alert == None && resultHtml == ResultsHtml(response.results)
      ensures folderInput == old(folderInput) && scriptsAvailable == old(scriptsAvailable)
      ensures boxes == old(boxes) && listMessage == old(listMessage)
    {
      loaderShown := false;
      startDisabled := false;
      if !response.success {
        return Some("Error: " + response.message);
      }
      var html := RenderResults(response.results);
      resultHtml := html;
      return None;
    }

    /** The `selected-folder` message: a chosen folder fills the input and is listed. */
    method OnSelectedFolder(folderPath: string, listing: DirListing)
      modifies this
      ensures folderPath == "" ==> unchanged(this)
      ensures folderPath != "" ==>
        folderInput == folderPath && loaderShown == old(loaderShown) && Listed(folderPath, listing)
    {
      if folderPath != "" {
        folderInput := folderPath;
        LoadScriptsList(folderPath, listing);
      }
    }

    /** The folder input's `change` listener: the trimmed path, if any, is listed. */
    method OnFolderInputChange(listing: DirListing)
      modifies this
      ensures Trim(old(folderInput)) == "" ==> unchanged(this)
      ensures folderInput == old(folderInput) && loaderShown == old(loaderShown)
      ensures Trim(old(folderInput)) != "" ==> Listed(Trim(old(folderInput)), listing)
    {
      var folderPath := Trim(folderInput);
      if folderPath != "" {
        LoadScriptsList(folderPath, listing);
      }
    }
  }
}
