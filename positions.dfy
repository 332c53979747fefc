/**
 * TypeScript's `getLineAndCharacterOfPosition` (a zero-based line and
 * character for a text offset) and the JSON text of a `{line, character}`
 * pair as src/transform.ts writes it and src/extension.ts reads it back.
 * Only '\n' is treated as a line break.
 */
module Positions {
  import opened Wrappers
  import opened Decimal

  /** TypeScript's LineAndCharacter, also the fields of a VS Code Position. */
  datatype Position = Position(line: nat, character: nat)

  /** VS Code `Position.isBefore`: lexicographic on (line, character). */
  predicate IsBefore(a: Position, b: Position) {
    a.line < b.line || (a.line == b.line && a.character < b.character)
  }

  predicate IsBeforeOrEqual(a: Position, b: Position) {
    IsBefore(a, b) || a == b
  }

  function CountLineBreaks(s: string): (n: nat)
    ensures n <= |s|
  {
    if s == [] then 0
    else CountLineBreaks(s[..|s| - 1]) + (if s[|s| - 1] == '\n' then 1 else 0)
  }

  /** The offset at which the last line of s starts: just after its last line break, or 0. */
  function LastLineStart(s: string): (r: nat)
    ensures r <= |s|
    ensures r > 0 ==> s[r - 1] == '\n'
    ensures forall i :: r <= i < |s| ==> s[i] != '\n'
  {
    if s == [] then 0
    else if s[|s| - 1] == '\n' then |s|
    else LastLineStart(s[..|s| - 1])
  }

  /**
   * The line is the number of line breaks before the offset, the character
   * the distance from the start of that line. An offset past the end of the
   * text stays on the last line, as TypeScript's binary search over the line
   * starts does.
   */
  function LineAndCharacterOf(text: string, offset: nat): Position {
    var before := text[..if offset <= |text| then offset else |text|];
    Position(CountLineBreaks(before), offset - LastLineStart(before))
  }

  /** Moving one offset forward either starts the next line or moves one character right. */
  lemma NextOffset(text: string, offset: nat)
    ensures var p, q := LineAndCharacterOf(text, offset), LineAndCharacterOf(text, offset + 1);
      if offset < |text| && text[offset] == '\n' then q == Position(p.line + 1, 0)
      else q == Position(p.line, p.character + 1)
  {
    if offset < |text| {
      assert text[..offset + 1][..offset] == text[..offset];
    }
  }

  lemma PreviousOffsetIsEarlier(text: string, offset: nat)
    requires offset > 0
    ensures IsBefore(LineAndCharacterOf(text, offset - 1), LineAndCharacterOf(text, offset))
  {
    NextOffset(text, offset - 1);
  }

  /** Offsets and positions are ordered alike: a later offset has a later position. */
  lemma {:induction false} LineAndCharacterMonotone(text: string, p: nat, q: nat)
    requires p < q
    ensures IsBefore(LineAndCharacterOf(text, p), LineAndCharacterOf(text, q))
  {
    PreviousOffsetIsEarlier(text, q);
    if p < q - 1 {
      LineAndCharacterMonotone(text, p, q - 1);
      IsBeforeTransitive(LineAndCharacterOf(text, p), LineAndCharacterOf(text, q - 1), LineAndCharacterOf(text, q));
    }
  }

  lemma IsBeforeTransitive(a: Position, b: Position, c: Position)
    requires IsBefore(a, b) && IsBefore(b, c)
    ensures IsBefore(a, c)
  {
  }

  /** The order of positions reflects the order of offsets in both directions. */
  lemma LineAndCharacterOrder(text: string, p: nat, q: nat)
    ensures IsBeforeOrEqual(LineAndCharacterOf(text, p), LineAndCharacterOf(text, q)) <==> p <= q
  {
    if p < q {
      LineAndCharacterMonotone(text, p, q);
    } else if q < p {
      LineAndCharacterMonotone(text, q, p);
    }
  }

  const LinePrefix := "{\"line\":"
  const CharacterInfix := ",\"character\":"

  /** `JSON.stringify` of a LineAndCharacter: the keys in TypeScript's order, line first. */
  function EncodeLineAndCharacter(p: Position): string {
    LinePrefix + NatToString(p.line) + CharacterInfix + NatToString(p.character) + "}"
  }

  /**
   * Reads the text EncodeLineAndCharacter writes; None stands for a string
   * that `JSON.parse` rejects or that is not such a pair.
   */
  function DecodeLineAndCharacter(s: string): Option<Position> {
    match ParseField(s, LinePrefix)
    case None => None
    case Some((line, rest)) =>
      match ParseField(rest, CharacterInfix)
      case None => None
      case Some((character, tail)) =>
        if tail == "}" then Some(Position(line, character)) else None
  }

  lemma {:induction false} DecodeEncode(p: Position)
    ensures DecodeLineAndCharacter(EncodeLineAndCharacter(p)) == Some(p)
  {
    var rest := CharacterInfix + NatToString(p.character) + "}";
    assert EncodeLineAndCharacter(p) == LinePrefix + NatToString(p.line) + rest;
    ParseFieldOfPrinted(LinePrefix, p.line, rest);
    ParseFieldOfPrinted(CharacterInfix, p.character, "}");
  }

  /** The decoder accepts nothing but encoded pairs, so the encoding is the decoder's inverse. */
  lemma {:induction false} EncodeDecode(s: string, p: Position)
    requires DecodeLineAndCharacter(s) == Some(p)
    ensures EncodeLineAndCharacter(p) == s
  {
    var Some((line, rest)) := ParseField(s, LinePrefix);
    var Some((character, tail)) := ParseField(rest, CharacterInfix);
    ParseFieldPrinted(s, LinePrefix, line, rest);
    ParseFieldPrinted(rest, CharacterInfix, character, tail);
    ConcatFive(LinePrefix, NatToString(line), CharacterInfix, NatToString(character), tail);
  }

  lemma ConcatFive(a: string, b: string, c: string, d: string, e: string)
    ensures a + b + (c + d + e) == a + b + c + d + e
  {
  }
}
