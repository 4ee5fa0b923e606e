/**
 * The side-by-side view of a comparison, which the single-file view
 * (`displayCodeSideBySide`) and the batch modal (`displayModalComparison`)
 * build alike: a summary, a note on which parts of a package exist, and two
 * panels of lines built from the diff parts. Panel entries are kept as data;
 * their HTML (classes, markers, escaped white space) is not modelled.
 */
module PanelLayout {
  import opened Wrappers
  import opened Text
  import opened Diff

  datatype LineKind = Added | Removed | Unchanged

  /** One entry of a panel. */
  datatype PanelLine =
    | Line(kind: LineKind, text: string, lineBreak: bool)  // a line of a part, with a trailing "\n" when `lineBreak`
    | Spacer                                               // keeps the other panel's line level with this one
    | EmptyLine(kind: LineKind)                            // a part that is a lone "\n"
    | EmptySpacer                                          // the spacer set against an added lone "\n"

  /** `value.split("\n").filter((line) => line !== "")`. */
  function NonEmptyLines(value: string): (ls: seq<string>)
    ensures forall m :: 0 <= m < |ls| ==> ls[m] != ""
  {
    NonEmpty(SplitOn(value, {'\n'}))
  }

  function NonEmpty(xs: seq<string>): (r: seq<string>)
    ensures forall m :: 0 <= m < |r| ==> r[m] != ""
  {
    if xs == [] then []
    else NonEmpty(xs[..|xs| - 1]) + (if xs[|xs| - 1] != "" then [xs[|xs| - 1]] else [])
  }

  /** The entries of `kind` for lines `ls[..j]`; every line but the part's last is followed by a break. */
  function TextEntries(kind: LineKind, ls: seq<string>, j: nat): seq<PanelLine>
    requires j <= |ls|
  {
    seq(j, m requires 0 <= m < j => Line(kind, ls[m], m < |ls| - 1))
  }

  /** The database panel's entries for the first `j` lines `ls` of a part that is not a lone "\n". */
  function DbEntries(part: DiffPart, ls: seq<string>, j: nat): seq<PanelLine>
    requires j <= |ls|
  {
    if part.added then (if j > 0 then [Spacer] else [])
    else if part.removed then TextEntries(Removed, ls, j)
    else TextEntries(Unchanged, ls, j)
  }

  /** The file panel's entries for the first `j` lines `ls` of a part that is not a lone "\n". */
  function FileEntries(part: DiffPart, ls: seq<string>, j: nat): seq<PanelLine>
    requires j <= |ls|
  {
    if part.added then TextEntries(Added, ls, j)
    else if part.removed then (if j > 0 then [Spacer] else [])
    else TextEntries(Unchanged, ls, j)
  }

  /** What one part adds to the database panel. */
  function PartDb(part: DiffPart): seq<PanelLine> {
    if part.value == "\n" then
      (if part.removed then [EmptyLine(Removed)] else if part.added then [EmptySpacer] else [])
    else
      var ls := NonEmptyLines(part.value);
      DbEntries(part, ls, |ls|)
  }

  /** What one part adds to the file panel. */
  function PartFile(part: DiffPart): seq<PanelLine> {
    if part.value == "\n" then
      (if part.removed then [] else if part.added then [EmptyLine(Added)] else [])
    else
      var ls := NonEmptyLines(part.value);
      FileEntries(part, ls, |ls|)
  }

  function LayoutDb(parts: seq<DiffPart>): seq<PanelLine> {
    if parts == [] then [] else LayoutDb(parts[..|parts| - 1]) + PartDb(parts[|parts| - 1])
  }

  function LayoutFile(parts: seq<DiffPart>): seq<PanelLine> {
    if parts == [] then [] else LayoutFile(parts[..|parts| - 1]) + PartFile(parts[|parts| - 1])
  }

  /**
   * The loop over the diff parts that fills both panels: a lone "\n" part gives
   * an empty-line entry, any other part one entry per non-empty line on its own
   * side and, for an added or removed part, one spacer on the other side.
   */
  method LayoutPanels(differences: seq<DiffPart>) returns (dbLines: seq<PanelLine>, fileLines: seq<PanelLine>)
    ensures dbLines == LayoutDb(differences)
    ensures fileLines == LayoutFile(differences)
  {
    dbLines, fileLines := [], [];
    var i := 0;
    while i < |differences|
      invariant 0 <= i <= |differences|
      invariant dbLines == LayoutDb(differences[..i])
      invariant fileLines == LayoutFile(differences[..i])
    {
      LayoutStep(differences, i);
      dbLines, fileLines := LayoutPart(differences[i], dbLines, fileLines);
      i := i + 1;
    }
    assert differences[..i] == differences;
  }

  lemma LayoutStep(parts: seq<DiffPart>, i: nat)
    requires i < |parts|
    ensures LayoutDb(parts[..i + 1]) == LayoutDb(parts[..i]) + PartDb(parts[i])
    ensures LayoutFile(parts[..i + 1]) == LayoutFile(parts[..i]) + PartFile(parts[i])
  {
    assert parts[..i + 1][..i] == parts[..i];
  }

  /** The callback for one part: what it pushes onto each panel. */
  method LayoutPart(part: DiffPart, db0: seq<PanelLine>, file0: seq<PanelLine>) returns (dbLines: seq<PanelLine>, fileLines: seq<PanelLine>)
    ensures dbLines == db0 + PartDb(part)
    ensures fileLines == file0 + PartFile(part)
  {
    dbLines, fileLines := db0, file0;
    if part.value == "\n" {
      if part.removed {
        dbLines := dbLines + [EmptyLine(Removed)];
      } else if part.added {
        fileLines := fileLines + [EmptyLine(Added)];
        dbLines := dbLines + [EmptySpacer];
      }
      return;
    }
    var lines := NonEmptyLines(part.value);
    var index := 0;
    while index < |lines|
      invariant 0 <= index <= |lines|
      invariant dbLines == db0 + DbEntries(part, lines, index)
      invariant fileLines == file0 + FileEntries(part, lines, index)
    {
      var line := lines[index];
      var isLastLine := index == |lines| - 1;
      var needsLineBreak := !isLastLine || (EndsWith(part.value, "\n") && !isLastLine);
      assert needsLineBreak == (index < |lines| - 1);
      EntriesStep(part, lines, index);
      ghost var dbPart, filePart := DbEntries(part, lines, index), FileEntries(part, lines, index);
      if part.added {
        AppendAssoc(file0, filePart, [Line(Added, line, needsLineBreak)]);
        fileLines := fileLines + [Line(Added, line, needsLineBreak)];
        if index == 0 {
          AppendAssoc(db0, dbPart, [Spacer]);
          dbLines := dbLines + [Spacer];
        }
      } else if part.removed {
        AppendAssoc(db0, dbPart, [Line(Removed, line, needsLineBreak)]);
        dbLines := dbLines + [Line(Removed, line, needsLineBreak)];
        if index == 0 {
          AppendAssoc(file0, filePart, [Spacer]);
          fileLines := fileLines + [Spacer];
        }
      } else {
        AppendAssoc(db0, dbPart, [Line(Unchanged, line, needsLineBreak)]);
        AppendAssoc(file0, filePart, [Line(Unchanged, line, needsLineBreak)]);
        dbLines := dbLines + [Line(Unchanged, line, needsLineBreak)];
        fileLines := fileLines + [Line(Unchanged, line, needsLineBreak)];
      }
      index := index + 1;
    }
  }

  /** What line `j` of a part adds to each panel. */
  lemma EntriesStep(part: DiffPart, ls: seq<string>, j: nat)
    requires j < |ls|
    ensures var e := [Line(if part.added then Added else if part.removed then Removed else Unchanged, ls[j], j < |ls| - 1)];
      var s := if j == 0 then [Spacer] else [];
      && DbEntries(part, ls, j + 1) == DbEntries(part, ls, j) + (if part.added then s else e)
      && FileEntries(part, ls, j + 1) == FileEntries(part, ls, j) + (if part.added then e else if part.removed then s else e)
  {
    TextEntriesStep(Added, ls, j);
    TextEntriesStep(Removed, ls, j);
    TextEntriesStep(Unchanged, ls, j);
  }

  lemma TextEntriesStep(kind: LineKind, ls: seq<string>, j: nat)
    requires j < |ls|
    ensures TextEntries(kind, ls, j + 1) == TextEntries(kind, ls, j) + [Line(kind, ls[j], j < |ls| - 1)]
  {
  }

  // ------------------------------------------------------------- lemmas

  /** Without added or removed parts the two panels are the same, entry for entry. */
  lemma {:induction false} UnchangedPanelsEqual(parts: seq<DiffPart>)
    requires !HasDifferences(parts)
    ensures LayoutDb(parts) == LayoutFile(parts)
  {
    if parts != [] {
      var n := |parts|;
      var prefix := parts[..n - 1];
      assert !HasDifferences(prefix) by {
        forall i | 0 <= i < |prefix| ensures !(prefix[i].added || prefix[i].removed) {
          assert prefix[i] == parts[i];
        }
      }
      UnchangedPanelsEqual(parts[..n - 1]);
      assert !parts[n - 1].added && !parts[n - 1].removed;
    }
  }

  /** The texts of the line entries of a panel, in order. */
  function LineTexts(panel: seq<PanelLine>): seq<string> {
    if panel == [] then []
    else LineTexts(panel[..|panel| - 1]) + (if panel[|panel| - 1].Line? then [panel[|panel| - 1].text] else [])
  }

  lemma {:induction false} LineTextsConcat(a: seq<PanelLine>, b: seq<PanelLine>)
    ensures LineTexts(a + b) == LineTexts(a) + LineTexts(b)
    decreases |b|
  {
    if b == [] {
      assert a + b == a;
    } else {
      assert (a + b)[..|a + b| - 1] == a + b[..|b| - 1];
      assert (a + b)[|a + b| - 1] == b[|b| - 1];
      LineTextsConcat(a, b[..|b| - 1]);
    }
  }

  lemma {:induction false} TextEntriesTexts(kind: LineKind, ls: seq<string>, j: nat)
    requires j <= |ls|
    ensures LineTexts(TextEntries(kind, ls, j)) == ls[..j]
  {
    if j > 0 {
      assert TextEntries(kind, ls, j)[..j - 1] == TextEntries(kind, ls, j - 1);
      TextEntriesTexts(kind, ls, j - 1);
      assert ls[..j] == ls[..j - 1] + [ls[j - 1]];
    }
  }

  /** The lines the database panel shows: every non-empty line of each part that is not added, in order. */
  function DbSourceLines(parts: seq<DiffPart>): seq<string> {
    if parts == [] then []
    else DbSourceLines(parts[..|parts| - 1]) + (if parts[|parts| - 1].added then [] else NonEmptyLines(parts[|parts| - 1].value))
  }

  /** The lines the file panel shows: every non-empty line of each part that is added or not removed, in order. */
  function FileSourceLines(parts: seq<DiffPart>): seq<string> {
    if parts == [] then []
    else FileSourceLines(parts[..|parts| - 1]) + (if parts[|parts| - 1].removed && !parts[|parts| - 1].added then [] else NonEmptyLines(parts[|parts| - 1].value))
  }

  lemma NewlineHasNoLines()
    ensures NonEmptyLines("\n") == []
  {
    assert SplitOn("\n", {'\n'}) == ["", ""];
  }

  /** The line entries one part puts on the database panel are its lines, unless it is added. */
  lemma PartDbTexts(p: DiffPart)
    ensures LineTexts(PartDb(p)) == if p.added then [] else NonEmptyLines(p.value)
  {
    var ls := NonEmptyLines(p.value);
    if p.value == "\n" {
      NewlineHasNoLines();
      assert LineTexts(PartDb(p)) == [];
    } else if p.added {
      assert LineTexts(PartDb(p)) == [];
    } else if p.removed {
      TextEntriesTexts(Removed, ls, |ls|);
    } else {
      TextEntriesTexts(Unchanged, ls, |ls|);
    }
  }

  /** The line entries one part puts on the file panel are its lines, unless it is only removed. */
  lemma PartFileTexts(p: DiffPart)
    ensures LineTexts(PartFile(p)) == if p.removed && !p.added then [] else NonEmptyLines(p.value)
  {
    var ls := NonEmptyLines(p.value);
    if p.value == "\n" {
      NewlineHasNoLines();
      assert LineTexts(PartFile(p)) == [];
    } else if p.added {
      TextEntriesTexts(Added, ls, |ls|);
    } else if p.removed {
      assert LineTexts(PartFile(p)) == [];
    } else {
      TextEntriesTexts(Unchanged, ls, |ls|);
    }
  }

  /** The database panel's text entries are exactly the lines of the parts it shows, nothing dropped or added. */
  lemma {:induction false} DbPanelTexts(parts: seq<DiffPart>)
    ensures LineTexts(LayoutDb(parts)) == DbSourceLines(parts)
  {
    if parts != [] {
      var n := |parts|;
      DbPanelTexts(parts[..n - 1]);
      LineTextsConcat(LayoutDb(parts[..n - 1]), PartDb(parts[n - 1]));
      PartDbTexts(parts[n - 1]);
    }
  }

  /** The file panel's text entries are exactly the lines of the parts it shows, nothing dropped or added. */
  lemma {:induction false} FilePanelTexts(parts: seq<DiffPart>)
    ensures LineTexts(LayoutFile(parts)) == FileSourceLines(parts)
  {
    if parts != [] {
      var n := |parts|;
      FilePanelTexts(parts[..n - 1]);
      LineTextsConcat(LayoutFile(parts[..n - 1]), PartFile(parts[n - 1]));
      PartFileTexts(parts[n - 1]);
    }
  }

  /**
   * An added or removed part with lines puts exactly one spacer on the other
   * side, and a part with no non-empty line puts nothing there.
   */
  lemma OneSpacerPerChange(part: DiffPart)
    requires part.value != "\n"
    ensures part.added ==> PartDb(part) == (if NonEmptyLines(part.value) != [] then [Spacer] else [])
    ensures !part.added && part.removed ==> PartFile(part) == (if NonEmptyLines(part.value) != [] then [Spacer] else [])
  {
  }

  /** Within a part, every line entry but the last carries a line break. */
  lemma LineBreaksBetweenLines(kind: LineKind, ls: seq<string>, m: nat)
    requires m < |ls|
    ensures TextEntries(kind, ls, |ls|)[m].lineBreak <==> m != |ls| - 1
  {
  }

  // ------------------------------------------------- summary and package note

  /** What the view shows besides the panels. */
  datatype View = View(differencesFound: bool, notifyIdentical: bool, packageInfo: Option<string>,
                       dbLines: seq<PanelLine>, fileLines: seq<PanelLine>)

  /** The note on which parts of a package the database holds; None when it holds neither. */
  function PackageInfo(specCodePresent: bool, bodyCodePresent: bool): (r: Option<string>)
    ensures r.None? <==> !specCodePresent && !bodyCodePresent
  {
    if specCodePresent && bodyCodePresent then Some("El objeto contiene tanto PACKAGE como PACKAGE BODY.")
    else if specCodePresent then Some("El objeto contiene solo PACKAGE (sin BODY).")
    else if bodyCodePresent then Some("El objeto contiene solo PACKAGE BODY (sin especificaci\U{F3}n).")
    else None
  }

  /** The whole view of a comparison. */
  method Display(differences: seq<DiffPart>, specCodePresent: bool, bodyCodePresent: bool) returns (view: View)
    ensures view.differencesFound == HasDifferences(differences)
    ensures view.notifyIdentical <==> !view.differencesFound
    ensures view.packageInfo == PackageInfo(specCodePresent, bodyCodePresent)
    ensures view.dbLines == LayoutDb(differences) && view.fileLines == LayoutFile(differences)
  {
    var hasDifferences := HasDifferences(differences);
    var dbLines, fileLines := LayoutPanels(differences);
    view := View(hasDifferences, !hasDifferences, PackageInfo(specCodePresent, bodyCodePresent), dbLines, fileLines);
  }
}
