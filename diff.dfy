/**
 * The parts list that the external line-diff library returns, as both the
 * comparison handler and the two side-by-side views consume it. The diff
 * algorithm itself is not part of this model: its output is an input here.
 */
module Diff {

  /** One part of a line diff: text that only the database has (`removed`), only the file has (`added`), or both. */
  datatype DiffPart = DiffPart(value: string, added: bool, removed: bool)

  /** `differences.some((part) => part.added || part.removed)`. */
  function HasDifferences(parts: seq<DiffPart>): (r: bool)
    ensures r <==> exists i :: 0 <= i < |parts| && (parts[i].added || parts[i].removed)
  {
    if parts == [] then false
    else
      var rest := HasDifferences(parts[1..]);
      assert forall i :: 1 <= i < |parts| ==> parts[i] == parts[1..][i - 1];
      parts[0].added || parts[0].removed || rest
  }

  /** The text on the database side: every part that is not marked added, in order. */
  function OldText(parts: seq<DiffPart>): string {
    if parts == [] then "" else (if parts[0].added then "" else parts[0].value) + OldText(parts[1..])
  }

  /** The text on the file side: every part that is not marked removed, in order. */
  function NewText(parts: seq<DiffPart>): string {
    if parts == [] then "" else (if parts[0].removed then "" else parts[0].value) + NewText(parts[1..])
  }

  /** What the diff library promises of its output: read one way it is `a`, read the other way it is `b`. */
  predicate Reconstructs(parts: seq<DiffPart>, a: string, b: string) {
    OldText(parts) == a && NewText(parts) == b
  }

  /** A parts list without added or removed parts reads the same both ways. */
  lemma {:induction false} UnchangedSidesAgree(parts: seq<DiffPart>)
    requires !HasDifferences(parts)
    ensures OldText(parts) == NewText(parts)
  {
    if parts != [] {
      UnchangedSidesAgree(parts[1..]);
    }
  }

  /** When the diff reproduces both texts, "no differences" means the texts are equal. */
  lemma NoDifferencesMeansEqual(parts: seq<DiffPart>, a: string, b: string)
    requires Reconstructs(parts, a, b)
    ensures !HasDifferences(parts) ==> a == b
    ensures a != b ==> HasDifferences(parts)
  {
    if !HasDifferences(parts) {
      UnchangedSidesAgree(parts);
    }
  }
}
