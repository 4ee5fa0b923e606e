/**
 * The single-file comparison view (compare.js): reading schema and name
 * from a chosen file's header, guessing its type, filling in the form, and
 * the compare button that checks the form and picks the schema to send.
 */
module CompareView {
  import opened Wrappers
  import opened Text
  import opened Pattern
  import MainProcess

  /**
   * The header expressions for a type, each followed by `tail`; for the
   * package type the two package-body ones come after the generic two.
   */
  function Headers(objectType: string, tail: seq<Elem>): (ps: seq<seq<Elem>>)
    ensures |ps| == if objectType == "PACKAGE" then 4 else 2
    ensures forall k, e :: 0 <= k < |ps| && e in tail ==> e in ps[k]
  {
    [CreateOrReplace + TypeWord + tail, Create + TypeWord + tail]
    + if objectType == "PACKAGE" then [CreateOrReplace + PackageBody + tail, Create + PackageBody + tail] else []
  }

  /** `(\w+)\.`: the schema is the word before the dot. */
  const SchemaTail: seq<Elem> := [Run(Word, true), Lit(".")]
  /** `\w+\.(\w+)`: the name is the word after the dot. */
  const NameTail: seq<Elem> := [Run(Word, false), Lit("."), Run(Word, true)]

  /** The first group of the first pattern from `k` on that matches with a non-empty first group. */
  function FirstGroup(patterns: seq<seq<Elem>>, content: string, hole: string, k: nat): Option<string>
    requires k <= |patterns|
    decreases |patterns| - k
  {
    if k == |patterns| then None
    else
      match Find(patterns[k], content, hole)
      case Some(f) =>
        if |f.captures| >= 1 && f.captures[0] != "" then Some(f.captures[0])
        else FirstGroup(patterns, content, hole, k + 1)
      case None => FirstGroup(patterns, content, hole, k + 1)
  }

  /** What `extractSchemaFromContent` returns; None is its `null`. */
  function SchemaFromContent(fileContent: string, objectType: string): Option<string> {
    FirstGroup(Headers(objectType, SchemaTail), Upper(fileContent), objectType, 0)
  }

  /** What `extractObjectNameFromContent` returns; None is its `null`. */
  function NameFromContent(fileContent: string, objectType: string): Option<string> {
    FirstGroup(Headers(objectType, NameTail), Upper(fileContent), objectType, 0)
  }

  /** The loop both extractors run: the patterns in order, returning the first group found. */
  method FirstGroupOf(patterns: seq<seq<Elem>>, content: string, hole: string) returns (group: Option<string>)
    ensures group == FirstGroup(patterns, content, hole, 0)
  {
    var k := 0;
    while k < |patterns|
      invariant 0 <= k <= |patterns|
      invariant FirstGroup(patterns, content, hole, 0) == FirstGroup(patterns, content, hole, k)
    {
      var found := Find(patterns[k], content, hole);
      if found.Some? && |found.value.captures| >= 1 && found.value.captures[0] != "" {
        return Some(found.value.captures[0]);
      }
      k := k + 1;
    }
    return None;
  }

  method ExtractSchemaFromContent(fileContent: string, objectType: string) returns (schema: Option<string>)
    ensures schema == SchemaFromContent(fileContent, objectType)
  {
    schema := FirstGroupOf(Headers(objectType, SchemaTail), Upper(fileContent), objectType);
  }

  method ExtractObjectNameFromContent(fileContent: string, objectType: string) returns (objectName: Option<string>)
    ensures objectName == NameFromContent(fileContent, objectType)
  {
    objectName := FirstGroupOf(Headers(objectType, NameTail), Upper(fileContent), objectType);
  }

  /** Text a `\w+` group can capture. */
  predicate WordText(t: string) {
    t != "" && forall i :: 0 <= i < |t| ==> IsWordChar(t[i])
  }

  /** The only group of a header expression is a `\w+` run. */
  lemma HeaderGroups(objectType: string, tail: seq<Elem>, k: nat)
    requires tail == SchemaTail || tail == NameTail
    requires k < |Headers(objectType, tail)|
    ensures forall e, t :: e in Headers(objectType, tail)[k] && CapturedBy(e, t) ==> WordText(t)
  {
    var p := Headers(objectType, tail)[k];
    forall e, t | e in p && CapturedBy(e, t) ensures WordText(t) {
      assert e.Run? && e.cls == Word;
    }
  }

  lemma {:induction false} FirstGroupWord(objectType: string, tail: seq<Elem>, content: string, k: nat)
    requires tail == SchemaTail || tail == NameTail
    requires k <= |Headers(objectType, tail)| && IsUpperCase(content)
    ensures var r := FirstGroup(Headers(objectType, tail), content, objectType, k);
      r.Some? ==> WordText(r.value) && IsUpperCase(r.value)
    decreases |Headers(objectType, tail)| - k
  {
    var ps := Headers(objectType, tail);
    if k < |ps| {
      var found := Find(ps[k], content, objectType);
      if found.Some? && |found.value.captures| >= 1 && found.value.captures[0] != "" {
        var t := found.value.captures[0];
        FindCaptures(ps[k], content, objectType);
        HeaderGroups(objectType, tail, k);
        assert t in found.value.captures;
        UpperCaseChars(t, content);
      } else {
        FirstGroupWord(objectType, tail, content, k + 1);
      }
    }
  }

  /** A detected schema or name is a single upper-case `\w+` word, so it holds no dot and no white space. */
  lemma DetectedAreWords(fileContent: string, objectType: string)
    ensures var s := SchemaFromContent(fileContent, objectType); s.Some? ==> WordText(s.value) && IsUpperCase(s.value)
    ensures var n := NameFromContent(fileContent, objectType); n.Some? ==> WordText(n.value) && IsUpperCase(n.value)
  {
    UpperIsUpperCase(fileContent);
    FirstGroupWord(objectType, SchemaTail, Upper(fileContent), 0);
    FirstGroupWord(objectType, NameTail, Upper(fileContent), 0);
  }

  lemma {:induction false} FirstGroupNoMatch(patterns: seq<seq<Elem>>, content: string, hole: string, k: nat)
    requires k <= |patterns|
    requires forall j :: k <= j < |patterns| ==> Find(patterns[j], content, hole).None?
    ensures FirstGroup(patterns, content, hole, k).None?
    decreases |patterns| - k
  {
    if k < |patterns| {
      FirstGroupNoMatch(patterns, content, hole, k + 1);
    }
  }

  /**
   * Both expressions want `schema.` in the header: content without a dot
   * yields neither a schema nor a name, whatever its header says.
   */
  lemma UnqualifiedYieldsNothing(fileContent: string, objectType: string)
    requires '.' !in fileContent
    ensures SchemaFromContent(fileContent, objectType).None?
    ensures NameFromContent(fileContent, objectType).None?
  {
    var c := Upper(fileContent);
    UpperKeepsOut(fileContent, '.');
    forall tail | tail == SchemaTail || tail == NameTail
      ensures FirstGroup(Headers(objectType, tail), c, objectType, 0).None?
    {
      var ps := Headers(objectType, tail);
      forall j | 0 <= j < |ps| ensures Find(ps[j], c, objectType).None? {
        assert Lit(".") in tail;
        FindNeedsDot(ps[j], c, objectType);
      }
      FirstGroupNoMatch(ps, c, objectType, 0);
    }
  }

  /** The first pattern whose match yields a group decides. */
  lemma {:induction false} FirstGroupDecides(patterns: seq<seq<Elem>>, content: string, hole: string, k: nat, j: nat)
    requires j <= k < |patterns|
    requires forall i :: j <= i < k ==> Find(patterns[i], content, hole).None?
    requires Find(patterns[k], content, hole).Some?
    requires var g := Find(patterns[k], content, hole).value.captures; |g| >= 1 && g[0] != ""
    ensures FirstGroup(patterns, content, hole, j) == Some(Find(patterns[k], content, hole).value.captures[0])
    decreases k - j
  {
    if j < k {
      FirstGroupDecides(patterns, content, hole, k, j + 1);
    }
  }

  // ------------------------------------------------------------ type detection

  /** The type `autoFillFromFileContent` guesses from the words the content holds, ignoring case. */
  function DetectedType(fileContent: string): Option<string> {
    var c := Upper(fileContent);
    if Contains(c, "PACKAGE BODY") then Some("PACKAGE")
    else if Contains(c, "PACKAGE") && !Contains(c, "PACKAGE BODY") then Some("PACKAGE")
    else if Contains(c, "FUNCTION") then Some("FUNCTION")
    else if Contains(c, "PROCEDURE") then Some("PROCEDURE")
    else None
  }

  /**
   * Any mention of PACKAGE, a body's included, makes a package; FUNCTION
   * and PROCEDURE count only in that order after it; nothing is guessed
   * from content naming none of them.
   */
  lemma DetectedTypePriority(fileContent: string)
    ensures var c := Upper(fileContent); var d := DetectedType(fileContent);
      && (d == Some("PACKAGE") <==> Contains(c, "PACKAGE"))
      && (d == Some("FUNCTION") <==> !Contains(c, "PACKAGE") && Contains(c, "FUNCTION"))
      && (d == Some("PROCEDURE") <==> !Contains(c, "PACKAGE") && !Contains(c, "FUNCTION") && Contains(c, "PROCEDURE"))
      && (d.None? <==> !Contains(c, "PACKAGE") && !Contains(c, "FUNCTION") && !Contains(c, "PROCEDURE"))
  {
    var c := Upper(fileContent);
    if Contains(c, "PACKAGE BODY") {
      assert "PACKAGE BODY" == "PACKAGE" + " BODY";
      ContainsPrefix(c, "PACKAGE", " BODY");
    }
  }

  // ------------------------------------------------------------------ the form

  /** The chosen file: its path and the text the reader gave. */
  datatype ChosenFile = ChosenFile(path: string, content: string)

  /** What a click on the compare button does. */
  datatype ClickOutcome =
    | Refused(message: string)                                           // a notification, nothing sent
    | Sent(request: MainProcess.CompareRequest, notice: Option<string>)  // `compare-code` sent, with an optional notification

  const MissingFieldsMessage: string := "Debes ingresar el esquema y el nombre del objeto."
  const MissingFileMessage: string := "Debes seleccionar un archivo para comparar."
  const FileReadErrorMessage: string := "Error al leer el archivo."

  function DifferentSchemaNotice(detected: string): string {
    "Se detect\U{F3} un esquema diferente en el archivo (" + detected + "). Usando el esquema detectado."
  }

  /** The schema sent: the detected one when there is one and it differs from the entered one. */
  function ChosenSchema(entered: string, detected: Option<string>): (s: string)
    ensures s == entered || (detected.Some? && s == detected.value)
    ensures detected.Some? && detected.value != entered ==> s == detected.value
    ensures detected.None? ==> s == entered
  {
    if detected.Some? && detected.value != entered then detected.value else entered
  }

  /** The form of the comparison view: the type selector, the two text inputs and the file input. */
  class CompareForm {
    const typeOptions: seq<string>
    var selectedType: string
    var schemaInput: string
    var objectInput: string
    var file: Option<ChosenFile>

    constructor (typeOptions: seq<string>, selectedType: string)
      ensures this.typeOptions == typeOptions && this.selectedType == selectedType
      ensures schemaInput == "" && objectInput == "" && file.None?
    {
      this.typeOptions := typeOptions;
      this.selectedType := selectedType;
      schemaInput := "";
      objectInput := "";
      file := None;
    }

    /**
     * `autoFillFromFileContent`: select the guessed type when the selector
     * offers it, then fill in the schema and the name read from the content
     * for the guessed type (or the selected one, when nothing was guessed),
     * leaving each input as it was when nothing is read.
     */
    method AutoFill(fileContent: string)
      modifies this
      ensures var d := DetectedType(fileContent);
        && selectedType == (if d.Some? && d.value in typeOptions then d.value else old(selectedType))
        && var t := if d.Some? then d.value else selectedType;
        && schemaInput == SchemaFromContent(fileContent, t).GetOr(old(schemaInput))
        && objectInput == NameFromContent(fileContent, t).GetOr(old(objectInput))
      ensures file == old(file)
    {
      var detectedType := DetectedType(fileContent);
      if detectedType.Some? {
        var i := 0;
        while i < |typeOptions|
          invariant 0 <= i <= |typeOptions|
          invariant detectedType.value !in typeOptions[..i]
          invariant selectedType == old(selectedType)
        {
          if typeOptions[i] == detectedType.value {
            selectedType := detectedType.value;
            break;
          }
          i := i + 1;
        }
      }
      var objectType := if detectedType.Some? then detectedType.value else selectedType;
      var schema := ExtractSchemaFromContent(fileContent, objectType);
      if schema.Some? {
        schemaInput := schema.value;
      }
      var objectName := ExtractObjectNameFromContent(fileContent, objectType);
      if objectName.Some? {
        objectInput := objectName.value;
      }
    }

    /**
     * The file input's `change` listener: the input holds the chosen file;
     * its text, once read, fills the form as `AutoFill` does, and a read
     * that fails is reported instead. Choosing no file changes nothing else.
     */
    method OnFileChosen(chosen: Option<ChosenFile>, readFails: bool) returns (notice: Option<string>)
      modifies this
      ensures file == chosen
      ensures chosen.None? || readFails ==>
        selectedType == old(selectedType) && schemaInput == old(schemaInput) && objectInput == old(objectInput)
      ensures notice == (if chosen.Some? && readFails then Some(FileReadErrorMessage) else None)
      ensures chosen.Some? && !readFails ==>
        var c := chosen.value.content;
        var d := DetectedType(c);
        && selectedType == (if d.Some? && d.value in typeOptions then d.value else old(selectedType))
        && var t := if d.Some? then d.value else selectedType;
        && schemaInput == SchemaFromContent(c, t).GetOr(old(schemaInput))
        && objectInput == NameFromContent(c, t).GetOr(old(objectInput))
    {
      file := chosen;
      if chosen.None? {
        return None;
      }
      if readFails {
        return Some(FileReadErrorMessage);
      }
      AutoFill(chosen.value.content);
      notice := None;
    }

    /** The compare button: both inputs filled and a file chosen, or nothing is sent. */
    method OnCompareClick() returns (outcome: ClickOutcome)
      ensures outcome.Refused? <==> Trim(schemaInput) == "" || Trim(objectInput) == "" || file.None?
      ensures Trim(schemaInput) == "" || Trim(objectInput) == "" ==> outcome == Refused(MissingFieldsMessage)
      ensures Trim(schemaInput) != "" && Trim(objectInput) != "" && file.None? ==> outcome == Refused(MissingFileMessage)
      ensures outcome.Sent? ==>
        var detected := SchemaFromContent(file.value.content, selectedType);
        && outcome.request == MainProcess.CompareRequest(file.value.content, ChosenSchema(Trim(schemaInput), detected),
                                                         selectedType, Trim(objectInput))
        && outcome.request.schema != ""
        && (outcome.notice.Some? <==> outcome.request.schema != Trim(schemaInput))
        && (outcome.notice.Some? ==> outcome.notice.value == DifferentSchemaNotice(outcome.request.schema))
    {
      var schema := Trim(schemaInput);
      var objectType := selectedType;
      var objectName := Trim(objectInput);
      if schema == "" || objectName == "" {
        return Refused(MissingFieldsMessage);
      }
      if file.None? {
        return Refused(MissingFileMessage);
      }
      var fileContent := file.value.content;
      var detectedSchema := ExtractSchemaFromContent(fileContent, objectType);
      if detectedSchema.Some? && detectedSchema.value != schema {
        DetectedAreWords(fileContent, objectType);
        outcome := Sent(MainProcess.CompareRequest(fileContent, detectedSchema.value, objectType, objectName),
                        Some(DifferentSchemaNotice(detectedSchema.value)));
      } else {
        outcome := Sent(MainProcess.CompareRequest(fileContent, schema, objectType, objectName), None);
      }
    }
  }
}
