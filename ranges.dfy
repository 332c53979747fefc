/**
 * The VS Code Range and Selection values the core builds and compares. A
 * Range is normalised on construction (start never after end); a Selection is
 * a Range remembered with its direction (anchor and active end).
 */
module Ranges {
  import opened Positions

  datatype Range = Range(start: Position, end: Position)

  /** `new vscode.Range(a, b)`: the two ends, swapped when a is after b. */
  function MakeRange(a: Position, b: Position): (r: Range)
    ensures IsBeforeOrEqual(r.start, r.end)
    ensures (r.start == a && r.end == b) || (r.start == b && r.end == a)
  {
    if IsBefore(b, a) then Range(b, a) else Range(a, b)
  }

  datatype Selection = Selection(anchor: Position, active: Position)

  /** The range a selection covers, whatever its direction. */
  function SelectionRange(s: Selection): Range {
    MakeRange(s.anchor, s.active)
  }

  /** `Range.contains(position)`: neither before the start nor after the end. */
  predicate ContainsPosition(r: Range, p: Position) {
    !IsBefore(p, r.start) && !IsBefore(r.end, p)
  }

  /** `Range.contains(selection)`: both ends of the selection lie in the range. */
  predicate Contains(r: Range, s: Selection) {
    ContainsPosition(r, SelectionRange(s).start) && ContainsPosition(r, SelectionRange(s).end)
  }

  /** `Selection.isEqual`, inherited from Range: same start and same end, direction ignored. */
  predicate IsEqual(a: Selection, b: Selection) {
    SelectionRange(a) == SelectionRange(b)
  }

  /**
   * Containment is lexicographic: the range starts no later than the
   * selection and ends no earlier.
   */
  lemma ContainsIsLexicographic(r: Range, s: Selection)
    ensures Contains(r, s) <==>
      IsBeforeOrEqual(r.start, SelectionRange(s).start) && IsBeforeOrEqual(SelectionRange(s).end, r.end)
  {
  }
}
