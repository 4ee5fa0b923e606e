# Control de pases: comparing and applying Oracle PL/SQL scripts

control_de_pases_app is an Electron desktop tool. It compares PL/SQL source files (packages, functions, procedures) with the copy stored in an Oracle database, and applies selected script files to it. This project models the text and list logic behind those screens, and proves properties of it:

- **Header recognition.** Several hand-written recognisers find a `CREATE [OR REPLACE] <TYPE> [schema.]name` header in a file and read the schema, the object name and the object type from it. Some fall back to the file name. They are modelled on one small backtracking matcher (module `Pattern`) for the fragment of regular expressions the sources use:
  - case-insensitive literals;
  - `\s+` runs and `\w+`, `[\w$#]+` and `[\w."]+` runs, optionally captured;
  - an optional `"`;
  - the optional qualifier `(?:\w+\.)?`;
  - a captured alternation;
  - leftmost search and replace-first.

  The recognisers are:
  - `extractObjectInfoFromContent` and `extractSchemaAndName` (module `BatchCompare`);
  - `extractSchemaFromContent`, `extractObjectNameFromContent` and the type detection in `autoFillFromFileContent` (module `CompareView`);
  - `extractObjectInfo` (module `ApplyScripts`).
- **Preparing the two texts** (module `MainProcess`, main.js):
  - `normalizeOracleCode` rewrites the first header it finds;
  - the `compare-code` handler assembles the database copy from the rows of `ALL_SOURCE`, joining package spec and body with `/\n` terminators;
  - both texts get their line endings normalised to `\n`;
  - the handler replies with an error or with the comparison and its flags.
- **The side-by-side view** (module `PanelLayout`). `displayModalComparison` and `displayCodeSideBySide` share it. It maps the ordered diff parts to two panels, with spacers that keep them level. Module `Diff` holds the parts and the `hasDifferences` test.
- **Files and scripts.**
  - The batch screen maps extensions to types and filters the scanned files by search term and extension. Its `file-content` handler resolves the schema, asking the database for the owner when the file names none.
  - The compare screen validates its form and chooses the schema to send.
  - The apply screen lists the admissible `.pck`/`.fnc`/`.prc` scripts of a folder with one checkbox each, and enables its button by the boxes. It builds the list of scripts to apply, in box order, and renders the results.

These parts are parameters of the model, not computed by it:
- the diff library (`diffLines`);
- the rows the database returns;
- the owner lookup and the database-name lookup, each of which can fail;
- the directory listing and the file reads.

The objects whose fields the handlers update in place are classes:
- the compare form (`CompareView.CompareForm`);
- the apply window (`ApplyScripts.ApplyScriptsView`).

Loops in the source are methods with loop invariants, proved against specification functions. The functions' own properties are proved as lemmas.

## Model

| member | source | states |
|---|---|---|
| Text.JoinSplit | batch-compare.js:151-157 | splitting on a set of separator characters and joining with one character is replacing every separator by that character |
| Text.SplitRoundTrip | apply-scripts.js:49-57 | `split("_")` followed by `join("_")` gives back the text |
| Text.SplitPiecesFree | batch-compare.js:151 | no piece of a split contains a separator |
| Text.SplitWithoutSeparator | apply-scripts.js:71-77 | text without a separator splits into exactly itself |
| Text.SplitAtSeparator | apply-scripts.js:71-72 | text with a separator splits into at least two pieces |
| Text.Without | apply-scripts.js:66 | removing all `"` leaves no quote, keeps only characters of the input, and changes nothing when there was no quote |
| Text.UpperIsUpperCase | batch-compare.js:106 | upper-cased text has no lower-case letter |
| Text.TrimEmpty | compare.js:285-289 | `trim()` is empty exactly when the text is all JavaScript white space |
| Text.ConcatAppend | main.js:154 | `join("")` of two runs of rows is the join of the first followed by the join of the second |
| Pattern.RunEnd | main.js:63 | a greedy class run ends at the first character outside the class, every character before it inside |
| Pattern.FindFrom | batch-compare.js:132 | `match` finds the leftmost position where the expression matches, and finds none exactly when it matches nowhere |
| Pattern.FindCaptures | batch-compare.js:133-143 | the captures of a match line up with the expression's groups, each made only of its group's characters and taken from the text |
| Pattern.MatchFindsLit | compare.js:84 | an expression containing a literal matches at a position only when that literal occurs in the text from there on |
| Pattern.FindNeedsDot | compare.js:84-85 | an expression with a literal `.` finds nothing in text without a dot |
| Pattern.GroupsConcat | batch-compare.js:111-126 | the groups of concatenated expressions are those of the first, then those of the second |
| Diff.HasDifferences | main.js:226-228 | `hasDifferences` holds exactly when some part is added or removed |
| Diff.UnchangedSidesAgree | main.js:220-228 | without added or removed parts the old and the new text rebuilt from the parts coincide |
| Diff.NoDifferencesMeansEqual | main.js:220-228 | for parts that rebuild the two texts, "no differences" means the texts are equal, and unequal texts have differences |
| MainProcess.HeaderPatterns | main.js:60-81 | the four header expressions in the order spec, body, function, procedure |
| MainProcess.FirstFound | main.js:85-104 | the loop stops at the first expression that matches, none before it matching; nothing is found exactly when none matches |
| MainProcess.FirstFoundIs | main.js:85-104 | the first matching expression is the one the loop picks |
| MainProcess.NormalizeOracleCode | main.js:58-108 | the loop over the expressions computes the normalised text |
| MainProcess.NormalizeWithoutHeader | main.js:84-107 | with no header found the code is returned unchanged |
| MainProcess.NormalizeRewritesFirstHeader | main.js:85-104 | the first matching expression rewrites only its leftmost occurrence, into the chosen keyword, the name and a space, leaving the rest of the code as it was; without a keyword the code is unchanged |
| MainProcess.FixedSourcesVisible | main.js:62-80 | the source text of every header expression contains no white space, only escapes such as `\s+` |
| MainProcess.HeaderSourceNoSpace | main.js:90 | for a name without white space the expression's source has no white space either |
| MainProcess.NoSpaceNoBody | main.js:90 | text without white space never matches `/PACKAGE\s+BODY/i` |
| MainProcess.PackageSourceMentionsPackage | main.js:95 | the spec and body expressions' sources match `/PACKAGE(?!\s+BODY)/i` |
| MainProcess.RoutineSourceOmitsPackage | main.js:95 | the function and procedure expressions' sources do not match it when the name does not contain PACKAGE |
| MainProcess.HeaderKeywordChoice | main.js:88-102 | for a name without white space or PACKAGE in it, the keyword is PACKAGE BODY only for objectType "PACKAGE BODY"; PACKAGE for objectType "PACKAGE" or a spec/body match; else FUNCTION/PROCEDURE by objectType; else no rewrite |
| MainProcess.AssemblePackage | main.js:141-171 | the loop leaves in spec and body the joined texts of the last block of PACKAGE rows and of PACKAGE BODY rows |
| MainProcess.LastBlockGrouped | main.js:129-171 | for rows grouped by type (ORDER BY TYPE) the last block of a type is all rows of that type, in order |
| MainProcess.TrailingRunGrouped | main.js:152-170 | for grouped rows the run of a type at the end holds all rows of that type |
| MainProcess.LastBlockBefore | main.js:152-160 | a change of type saves the finished block; rows of another type after it leave the last block of the first type as it was |
| MainProcess.NoRowsOfType | main.js:141-171 | with no rows of a type, its code is empty |
| MainProcess.PackageDbCode | main.js:173-182 | dbCode is empty exactly when spec and body are; without a body it is the spec; otherwise the spec followed by `/\n` + body + `/\n` |
| MainProcess.NormalizeStep | main.js:216-217 | each `\r\n` and each lone `\r` becomes exactly one `\n`, every other character stays |
| MainProcess.NormalizeJoinsLines | main.js:216-217 | the normalised text is the text's lines, broken at CR LF, CR and LF, joined with `\n` |
| MainProcess.LinesHaveNoBreaks | main.js:216-217 | those lines hold no `\r` and no `\n` |
| MainProcess.NormalizedHasNoCr | main.js:216-217 | after normalisation no `\r` is left |
| MainProcess.NormalizeWithoutCr | main.js:216-217 | text without `\r` is left unchanged |
| MainProcess.NormalizeIdempotent | main.js:216-217 | normalising twice is normalising once |
| MainProcess.CompareCode | main.js:110-246 | without a session: the no-session error and no query; otherwise the query for the request, then the not-found error when dbCode is empty, else the comparison of the normalised texts with `hasDifferences`, `specCodePresent` and `bodyCodePresent` |
| MainProcess.PackageSourceGrouped | main.js:126-183 | for rows ordered by type, the package's spec and body are the joined texts of all its PACKAGE and PACKAGE BODY rows |
| MainProcess.ComparisonTexts | main.js:213-228 | the compared texts hold no `\r`, and when the parts rebuild them, "no differences" means they are equal |
| PanelLayout.NonEmptyLines | batch-compare.js:570 | the lines kept from a part's value are all non-empty |
| PanelLayout.LayoutPanels | batch-compare.js:551-609 | the loop over the parts builds the two panels the layout functions describe (compare.js:206-242 builds them by the same rules) |
| PanelLayout.LayoutStep | batch-compare.js:554 | each part appends its own entries to the panels built so far |
| PanelLayout.LayoutPart | batch-compare.js:554-608 | one part's callback appends exactly that part's entries to each panel |
| PanelLayout.EntriesStep | batch-compare.js:571-607 | each line of an added part adds a file entry, plus a database spacer for the first line; removed parts mirror this; unchanged lines add an entry to both sides |
| PanelLayout.TextEntriesStep | batch-compare.js:571-607 | line `j` adds one entry of its kind, with a break unless it is the last line |
| PanelLayout.OneSpacerPerChange | batch-compare.js:580-595 | an added (removed) part with lines puts exactly one spacer on the other panel, and none when it has no non-empty line |
| PanelLayout.LineBreaksBetweenLines | batch-compare.js:576-578 | `needsLineBreak` holds exactly for every line but the last |
| PanelLayout.NewlineHasNoLines | batch-compare.js:556-568 | a lone `\n` part has no non-empty line, which is why it is handled apart |
| PanelLayout.UnchangedPanelsEqual | batch-compare.js:554-609 | without added or removed parts the two panels are the same, entry for entry |
| PanelLayout.PartDbTexts | batch-compare.js:554-608 | the database panel receives a part's lines unless the part is added |
| PanelLayout.PartFileTexts | batch-compare.js:554-608 | the file panel receives a part's lines when it is added or not removed |
| PanelLayout.DbPanelTexts | batch-compare.js:554-609 | the database panel's line entries are exactly the lines of the parts it shows, in order, nothing dropped or added |
| PanelLayout.FilePanelTexts | batch-compare.js:554-609 | likewise for the file panel |
| PanelLayout.LineTextsConcat | batch-compare.js:554-609 | the lines of two runs of entries are those of the first, then those of the second |
| PanelLayout.TextEntriesTexts | batch-compare.js:571-607 | the line entries of a part's lines carry those lines, in order |
| PanelLayout.PackageInfo | batch-compare.js:531-549 | a package note is shown exactly when spec or body is present |
| PanelLayout.Display | batch-compare.js:507-615 | the view: the differences flag and identical-files notice agree with `hasDifferences`, the package note and both panels as specified (compare.js:173-248 shows the same) |
| CompareView.Headers | compare.js:83-92 | two header expressions, four for PACKAGE, each containing the extractor's tail |
| CompareView.FirstGroupOf | compare.js:95-102 | the loop returns the first group of the first expression whose match has a non-empty first group |
| CompareView.ExtractSchemaFromContent | compare.js:78-103 | the loop computes the schema of the first schema-qualified header |
| CompareView.ExtractObjectNameFromContent | compare.js:106-131 | the loop computes the name of the first schema-qualified header |
| CompareView.DetectedAreWords | compare.js:80-98 | a detected schema or name is a non-empty upper-case `\w` word |
| CompareView.FirstGroupWord | compare.js:95-102 | a group found in upper-case content is an upper-case `\w` word |
| CompareView.HeaderGroups | compare.js:84-91 | every group of the header expressions is a `\w+` run |
| CompareView.UnqualifiedYieldsNothing | compare.js:84-131 | content without a `.` gives neither schema nor name |
| CompareView.FirstGroupNoMatch | compare.js:95-102 | when no expression matches the loop returns nothing |
| CompareView.FirstGroupDecides | compare.js:95-102 | the first expression that matches decides the result |
| CompareView.DetectedTypePriority | compare.js:136-146 | PACKAGE exactly when the upper-cased text contains PACKAGE (PACKAGE BODY included); FUNCTION when it has FUNCTION and no PACKAGE; PROCEDURE when it has neither of those; none when it has none of the three |
| CompareView.ChosenSchema | compare.js:316-338 | the detected schema when there is one and it differs from the entered one, otherwise the entered one |
| CompareView.CompareForm.AutoFill | compare.js:134-170 | the type select follows a detected type that is an option; schema and name inputs take what is detected for the detected (else selected) type and keep their value otherwise |
| CompareView.CompareForm.OnFileChosen | compare.js:267-280 | the input holds the chosen file; its text fills the form as `AutoFill` does, a failed read gives the read-error notice and leaves the type and both inputs as they were, and no file changes nothing else |
| CompareView.CompareForm.OnCompareClick | compare.js:283-345 | refused with the missing-fields message when the trimmed schema or name is empty, with the missing-file message when no file is chosen; otherwise sends the file, the chosen schema, the type and the trimmed name, with a notice exactly when the schema sent differs from the entered one |
| BatchCompare.ContentPatterns | batch-compare.js:110-127 | seven expressions, and five more for PACKAGE |
| BatchCompare.ExtractObjectInfoFromContent | batch-compare.js:104-144 | the loop over the expressions computes the first match's schema and name |
| BatchCompare.ContentInfoShape | batch-compare.js:106-143 | a found name (and schema) is non-empty, upper-case, made of `[\w$#]` characters, and the name has no `.` |
| BatchCompare.InfoFromNames | batch-compare.js:131-143 | whatever expression decides, its captures are upper-case names |
| BatchCompare.ContentGroupCount | batch-compare.js:111-126 | the qualified expressions have two groups, the others one, all of them runs |
| BatchCompare.ContentCaptures | batch-compare.js:132-139 | a match yields one capture per group, none empty |
| BatchCompare.FirstMatchDecides | batch-compare.js:131-144 | the first matching expression decides: two captures give schema and name, one gives the name without schema |
| BatchCompare.FirstPatternDecides | batch-compare.js:131-144 | the loop's result is decided by the first expression that matches |
| BatchCompare.NoInfoIffNoMatch | batch-compare.js:131-144 | the function returns nothing exactly when no expression matches |
| BatchCompare.InfoFromNone | batch-compare.js:131-144 | from any point of the loop, nothing is returned exactly when no later expression matches |
| BatchCompare.BodyHeaderMatch | batch-compare.js:115 | the generic expression matches `CREATE OR REPLACE PACKAGE BODY ...` and captures "BODY" |
| BatchCompare.PackageBodyReadAsBody | batch-compare.js:110-127 | any package body header, qualified or not, is read as an object named BODY unless an earlier spec header matched; the appended PACKAGE BODY expressions are never reached |
| BatchCompare.ExtName | batch-compare.js:148 | `path.extname` is empty or a dotted suffix of the name, shorter than the name |
| BatchCompare.LastDot | batch-compare.js:148 | the position of the last `.`, none when there is no dot |
| BatchCompare.SchemaAndNameSpellBase | batch-compare.js:146-166 | with a schema, schema + "_" + name spells the base with `.` read as `_`, upper-cased; without one the name is the upper-cased base, which has no `_` or `.`; the name never contains `.` |
| BatchCompare.TypeOfExtension | batch-compare.js:230-243 | .pck gives PACKAGE, .fnc FUNCTION, .prc PROCEDURE, anything else "Desconocido" |
| BatchCompare.TypeIgnoresCase | batch-compare.js:230 | extensions equal up to case give the same type |
| BatchCompare.LastComponent | batch-compare.js:245 | `path.basename` holds no `/` |
| BatchCompare.ActiveExtensions | batch-compare.js:332-334 | the active extensions are exactly the values of the checked filters |
| BatchCompare.FilterFilesKeepsOrder | batch-compare.js:330-341 | the filtered files are a sublist of the found files, in order, holding exactly those whose lower-cased name contains the search term and whose extension is active |
| BatchCompare.InfoOutcome | batch-compare.js:407-446 | once the content yields a name the handler never throws |
| BatchCompare.OnFileContent | batch-compare.js:388-447 | the handler's outcome and whether it asked for the owner, as written; its owner branches are stated by `OwnerLookupOutcome` |
| BatchCompare.SentRequestIsComplete | batch-compare.js:401-446 | a sent request carries the file, the button's type and path, the detected name (upper-case, no `.`) and a non-empty schema: the file's own schema, or the owner the lookup returned, which is asked for exactly when the file names no schema |
| BatchCompare.OwnerLookupOutcome | batch-compare.js:417-446 | when the file names no schema the owner is asked for; the comparison is sent, with that owner as schema, exactly when a non-empty owner comes back; a failed lookup is reported with its message; no owner is reported with the database's name, or with the error of a failed name lookup; nothing is sent in those cases |
| BatchCompare.NameNotDetectedUnreachable | batch-compare.js:407-413 | a found name is never empty, so the "no name" branch is never taken |
| BatchCompare.ShortContentNoInfo | batch-compare.js:110-144 | content shorter than "CREATE" matches no expression, so nothing is extracted |
| BatchCompare.ShortContentCrashes | batch-compare.js:405 | non-empty content shorter than "CREATE" with a focused button makes the destructuring throw |
| BatchCompare.CorrectedHandlerNeverCrashes | batch-compare.js:404-413 | the corrected handler never throws and differs from the written one only where that one throws, which is exactly when no expression matches |
| ApplyScripts.FirstMentioned | apply-scripts.js:43-47 | the first kind in the list that the text contains; none exactly when it contains none |
| ApplyScripts.FirstMentionedEarliest | apply-scripts.js:43-47 | kind `i` is chosen exactly when the text contains it and no earlier kind |
| ApplyScripts.FallbackTypePriority | apply-scripts.js:42-47 | by substring: PACKAGE BODY, else PACKAGE, else FUNCTION, else PROCEDURE, else no type |
| ApplyScripts.ExtractObjectInfo | apply-scripts.js:34-80 | from the header when the expression matches, otherwise from the file name with the type by content |
| ApplyScripts.HeaderGroups | apply-scripts.js:36-37 | the header expression has two groups, the kind and the name |
| ApplyScripts.HeaderCaptures | apply-scripts.js:36-38 | a header match captures a kind equal to one of the four keywords up to case, and a non-empty name of `[\w."]` characters |
| ApplyScripts.KindPrefersPackageBody | apply-scripts.js:37 | where the text reads PACKAGE BODY followed by a name, the alternation takes PACKAGE BODY, not PACKAGE |
| ApplyScripts.KindUpperCased | apply-scripts.js:65 | the captured kind, upper-cased, is the keyword itself |
| ApplyScripts.TypeIsKeyword | apply-scripts.js:34-80 | the type is always one of the four keywords, and missing exactly when there is no header and the content names no kind |
| ApplyScripts.HeaderNamesAreWords | apply-scripts.js:65-77 | with a header, a schema is found exactly when the unquoted name contains `.`, and the schema and name are made of `\w` characters |
| ApplyScripts.FallbackSpellsBase | apply-scripts.js:49-60 | without a header, schema + "_" + name is the upper-cased base and the schema has no `_`; with no schema the name is the upper-cased base, which has no `_` |
| ApplyScripts.StopIffUnreadable | apply-scripts.js:94-104 | an entry stops the walk exactly when it is a script file whose read throws |
| ApplyScripts.KeepOfAdmit | apply-scripts.js:94-137 | a readable script file that yields a type and a name is kept as that script |
| ApplyScripts.Steps | apply-scripts.js:93 | one step per entry |
| ApplyScripts.WalkStep | apply-scripts.js:93-138 | one step of the `forEach`: a skip changes nothing, a kept script is appended, a thrown read ends the walk with what was gathered |
| ApplyScripts.KeepFacts | apply-scripts.js:94-137 | a kept script has an admitted extension, its joined path, a non-empty name, its entry's content, and the schema, name and type extracted from it |
| ApplyScripts.ScanAdmits | apply-scripts.js:90-138 | every listed script is admitted and comes from a readable entry of the folder |
| ApplyScripts.ScanKeepsOrder | apply-scripts.js:93-138 | the listed scripts follow the directory's order |
| ApplyScripts.ScanKeepsEveryScript | apply-scripts.js:93-138 | when no read throws, every admissible entry is listed |
| ApplyScripts.ScanStopsIffUnreadable | apply-scripts.js:90-143 | the listing fails exactly when some script file's read throws |
| ApplyScripts.BoxesFor | apply-scripts.js:106-119 | one box per listed script |
| ApplyScripts.BoxesForPush | apply-scripts.js:106-137 | each listed script appends one unchecked box carrying its full path |
| ApplyScripts.ApplyScriptsView.ReadEntry | apply-scripts.js:94-104 | the body of the `forEach` takes the entry's step |
| ApplyScripts.ApplyScriptsView.ReadEntries | apply-scripts.js:93-138 | the `forEach` gathers the scripts and boxes of the walk, up to a read that throws |
| ApplyScripts.ApplyScriptsView.LoadScriptsList | apply-scripts.js:83-146 | the list is cleared, the results emptied and the button disabled; then the scripts of the walk with one box each, the no-scripts message when none, or the folder error message when the listing or a read fails |
| ApplyScripts.ApplyScriptsView.Toggle | apply-scripts.js:115-119 | the box takes its new state and the button is disabled exactly when no box is checked |
| ApplyScripts.CheckedPaths | apply-scripts.js:150-154 | the checked boxes' paths; none exactly when no box is checked |
| ApplyScripts.FindByPath | apply-scripts.js:166-168 | the first script with that path; none exactly when no script has it |
| ApplyScripts.ScriptsToApply | apply-scripts.js:163-178 | one copied script per checked path that is found, in box order |
| ApplyScripts.ToApplyCopies | apply-scripts.js:165-177 | each item copies schema, name, type, content and path of an available script with a checked path |
| ApplyScripts.ToApplyFollowsBoxes | apply-scripts.js:165-177 | when every checked path is found, item `i` is the script of box `i` |
| ApplyScripts.ApplyScriptsView.CollectScripts | apply-scripts.js:163-178 | the `forEach` over the checked boxes builds that list |
| ApplyScripts.ApplyScriptsView.StartApply | apply-scripts.js:149-184 | with no box checked: the alert, no request, nothing else changed; otherwise the loader shown, results cleared, button disabled and the request with the scripts to apply and the trimmed folder as backup path |
| ApplyScripts.Items | apply-scripts.js:197-201 | one list item per result |
| ApplyScripts.ItemsHtmlConcat | apply-scripts.js:197-201 | the items of two runs of results are those of the first, then those of the second |
| ApplyScripts.ItemsHtmlStep | apply-scripts.js:197-201 | each result appends its own item |
| ApplyScripts.ApplyScriptsView.RenderResults | apply-scripts.js:196-202 | the loop builds the results HTML: the heading, the items of the results in order, and the closing tag |
| ApplyScripts.ApplyScriptsView.OnApplyResponse | apply-scripts.js:187-205 | the loader hidden and the button enabled; a failure is alerted and leaves the results; a success shows the rendered results |
| ApplyScripts.ApplyScriptsView.OnSelectedFolder | apply-scripts.js:20-25 | a chosen folder fills the input and leaves the window listing that folder, as `LoadScriptsList` does; no folder changes nothing |
| ApplyScripts.ApplyScriptsView.OnFolderInputChange | apply-scripts.js:28-31 | the input keeps its text; a non-blank input leaves the window listing the trimmed folder, as `LoadScriptsList` does; a blank one changes nothing |

## Left out

- The line diff itself is the `diff` library. It is the parameter `diffLines`. That its parts rebuild both texts is a precondition of `MainProcess.ComparisonTexts`, not a fact the model proves.
- Database access is not modelled: sessions, connections, the queries' execution and the exception path of `compare-code`. `loggedIn` stands for the session. `PackageQuery`/`ObjectQuery` name the query issued, and the rows it returns are parameters. Package assembly relies on the rows being grouped by type, as `ORDER BY TYPE` makes them.
- Electron IPC, DOM building, listeners, scroll synchronisation, the "show only differences" toggle and notification timing are not modelled. Messages sent and alerts shown are returned values. The login screen (renderer.js) is not part of this model.
- File system calls are parameters:
  - the directory listing (`DirListing`);
  - each file read (`FileRead`);
  - the files the scan returns.

  `getFileDates`, `formatDate` and the date display are not modelled (stat calls and locale formatting).
- The compare form's `FileReader` is a parameter of `CompareView.CompareForm.OnFileChosen`. The text it decodes as ISO-8859-1 is given as already decoded, and whether the read fails is given as a flag.
- The `compare-response` listeners parse JSON, and compare.js also accepts a legacy string format. Neither is modelled. `PanelLayout.Display` starts from the parsed fields.
- `handleCompareClick` and the scan button only send IPC messages; they are not modelled. The focused compare button is an `Option<CompareButton>`.
- Panel entries are kept as data. The HTML of each line is not modelled: classes, markers, the escaping of spaces and tabs, and the final `join("\n")`. Neither is escaping in the apply results: names and messages go into the HTML unescaped there too.
- Checkbox ids, labels and the dataset fields other than `filePath` are not modelled. The request in compare.js also carries `filePath: fileInput.value`, which is not modelled.
- The apply backend is not modelled: backup, splitting into blocks, compiling, commit and rollback. No handler for `apply-scripts` is part of this model, so only the request is built.
- Upper- and lower-casing are ASCII only, whereas JavaScript maps all of Unicode.
- Object types and names spliced into regular expressions are modelled as literal text: their metacharacters, and `$` patterns in replacement strings, are not interpreted.
- `path.join` is `folder + "/" + file`, without normalising `..` or doubled separators. `path.basename` and `path.extname` split on `/` only.
- `ApplyScripts.KindPrefersPackageBody` states the preference for PACKAGE BODY on the kind-and-name part of the header. It is not proved as a whole-file example: evaluating the extractor on a concrete text is beyond the proofs' budget. Likewise, no lemma states that two spaces in "PACKAGE  BODY" make the expression read PACKAGE with the name BODY, though the matcher models it.

## Findings

| source | as written | input that shows it | evidently intended | confidence | as-written member | corrected member |
|---|---|---|---|---|---|---|
| batch-compare.js:131-144 | `extractObjectInfoFromContent` falls off the end and returns `undefined` when no expression matches, so the destructuring at line 405 throws before the "no name" notification at lines 407-413 can run | a focused compare button and file content "x" (non-empty, shorter than CREATE) | content without a recognisable header gets the "name not detected" notification | high; not executed | BatchCompare.ShortContentCrashes | BatchCompare.CorrectedHandlerNeverCrashes |

`BatchCompare.ContentOutcome` and `BatchCompare.OnFileContent` model the handler as written; `BatchCompare.CorrectedContentOutcome` is the corrected handler.
