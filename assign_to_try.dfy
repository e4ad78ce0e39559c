/**
 * The quick fix that assigns an expression to a resource of a new try
 * statement: `e;` becomes `try (name = e) {}`. The proposal inserts the
 * opening text before the expression, closes it after the expression (over
 * the terminating semicolon when there is one), links the new name for
 * editing and remembers where the cursor goes when linked mode exits.
 *
 * The typechecker's judgement whether the expression's type can be used
 * is an input: the set of usable types.
 */
module AssignToTry {
  import opened TextUtil

  /** Text put before the expression. */
  function TryOpen(initialName: string): string {
    "try (" + initialName + " = "
  }

  /** Text put after the expression. */
  const Close: string := ") {}"

  /**
   * The second edit: inserted at the node's end when its last token is not a
   * semicolon, else replacing that semicolon (the character before the end).
   */
  function ClosingEdit(terminal: string, endIndex: int): Edit {
    if terminal != ";" then Insert(endIndex, Close) else Edit(endIndex - 1, 1, Close)
  }

  /** exitPos, in the coordinates of the document before the opening text is inserted. */
  function ExitPosition(terminal: string, endIndex: int): int {
    if terminal != ";" then endIndex + 2 else endIndex + 1
  }

  /** Where the expression text that stays inside the parentheses ends. */
  function KeptEnd(terminal: string, endIndex: int): int {
    if terminal != ";" then endIndex else endIndex - 1
  }

  /** A position of linked mode: its offset, its length and its sequence number. */
  datatype LinkedPosition = LinkedPosition(offset: int, length: int, sequence: int)

  /** The name's linked position: just after `try (`, as long as the name. */
  function NamePosition(offset: int, initialName: string): LinkedPosition {
    LinkedPosition(offset + 5, |initialName|, 0)
  }

  /**
   * The document after both edits of one multi-edit change, which the host
   * applies in the coordinates of the original document.
   */
  function ApplyBoth(doc: string, first: Edit, second: Edit): string
    requires InRange(doc, first) && InRange(doc, second)
    requires first.offset + first.length <= second.offset
  {
    doc[..first.offset] + first.text + doc[first.offset + first.length..second.offset]
    + second.text + doc[second.offset + second.length..]
  }

  /** The range the proposal wraps fits the document: the expression from `offset` to the node's end. */
  predicate Wraps(doc: string, offset: int, terminal: string, endIndex: int) {
    0 <= offset <= KeptEnd(terminal, endIndex) && endIndex <= |doc|
  }

  /**
   * Applying the change wraps the expression: the document becomes the text before
   * it, `try (name = `, the expression (without its semicolon), `) {}` and the rest.
   * The linked position covers exactly the inserted name, and the exit position,
   * shifted by the opening text, is the opening brace, whichever way the
   * expression was terminated.
   */
  lemma WrappedExpression(doc: string, offset: int, initialName: string, terminal: string, endIndex: int)
    requires Wraps(doc, offset, terminal, endIndex)
    ensures var first := Insert(offset, TryOpen(initialName));
            var second := ClosingEdit(terminal, endIndex);
            var r := ApplyBoth(doc, first, second);
            && r == doc[..offset] + TryOpen(initialName) + doc[offset..KeptEnd(terminal, endIndex)] + Close + doc[endIndex..]
            && var p := NamePosition(offset, initialName);
            && 0 <= p.offset && p.offset + p.length <= |r|
            && r[p.offset..p.offset + p.length] == initialName
            && 0 <= |TryOpen(initialName)| + ExitPosition(terminal, endIndex) < |r|
            && r[|TryOpen(initialName)| + ExitPosition(terminal, endIndex)] == '{'
  {
    var open := TryOpen(initialName);
    var kept := doc[offset..KeptEnd(terminal, endIndex)];
    var rest := doc[endIndex..];
    var r := doc[..offset] + open + kept + Close + rest;
    assert ApplyBoth(doc, Insert(offset, open), ClosingEdit(terminal, endIndex)) == r;
    NameInOpening(doc[..offset], initialName, kept + Close + rest);
    BraceAfterKept(doc[..offset] + open, kept, rest);
  }

  /** The name lies just after `try (` in the opening text. */
  lemma NameInOpening(before: string, initialName: string, after: string)
    ensures var r := before + TryOpen(initialName) + after;
            |before| + 5 + |initialName| <= |r|
            && r[|before| + 5..|before| + 5 + |initialName|] == initialName
  {
    var open := TryOpen(initialName);
    var r := before + open + after;
    assert r == before + (open + after);
    assert r[|before|..|before| + |open|] == open;
    assert open[5..5 + |initialName|] == initialName;
  }

  /** The closing text's brace comes two characters after the kept expression. */
  lemma BraceAfterKept(before: string, kept: string, rest: string)
    ensures var r := before + kept + Close + rest;
            |before| + |kept| + 2 < |r| && r[|before| + |kept| + 2] == '{'
  {
    var r := before + kept + Close + rest;
    assert r[|before| + |kept| + 2] == Close[2];
  }

  /** The typechecker's model of a type, known only by identity. */
  datatype Type = Type(name: string)

  /** isEnabled: the expression has a type, and the unit can use it. */
  predicate IsEnabled(resultType: Option<Type>, usableTypes: set<Type>) {
    resultType.Some? && resultType.value in usableTypes
  }

  /** The proposal's state: where it wraps, the proposed name, and what it hands to linked mode. */
  class AssignToTryProposal {
    const offset: int
    const initialName: string
    var exitPos: int
    var linkedPositions: seq<LinkedPosition>

    constructor (offset: int, initialName: string)
      ensures this.offset == offset && this.initialName == initialName
      ensures exitPos == 0 && linkedPositions == []
    {
      this.offset := offset;
      this.initialName := initialName;
      exitPos := 0;
      linkedPositions := [];
    }

    /**
     * createChange: the opening insertion, then the closing edit, and the exit
     * position for the way the expression ends.
     */
    method CreateChange(terminal: string, endIndex: int) returns (edits: seq<Edit>)
      modifies this`exitPos
      ensures edits == [Insert(offset, TryOpen(initialName)), ClosingEdit(terminal, endIndex)]
      ensures exitPos == ExitPosition(terminal, endIndex)
    {
      edits := [Insert(offset, "try (" + initialName + " = ")];
      if terminal != ";" {
        edits := edits + [Insert(endIndex, ") {}")];
        exitPos := endIndex + 2;
      } else {
        edits := edits + [Edit(endIndex - 1, 1, ") {}")];
        exitPos := endIndex + 1;
      }
    }

    /** addLinkedPositions: the name's position is added to the linked-mode model. */
    method AddLinkedPositions()
      modifies this`linkedPositions
      ensures linkedPositions == old(linkedPositions) + [NamePosition(offset, initialName)]
    {
      linkedPositions := linkedPositions + [LinkedPosition(offset + 5, |initialName|, 0)];
    }
  }

  /**
   * addAssignToTryProposal: a new proposal joins the list exactly when it is
   * enabled, and the list is otherwise left as it was.
   */
  method AddAssignToTryProposal(proposals: seq<AssignToTryProposal>, offset: int, initialName: string,
                                resultType: Option<Type>, usableTypes: set<Type>)
    returns (proposals': seq<AssignToTryProposal>)
    ensures |proposals'| == |proposals| + (if IsEnabled(resultType, usableTypes) then 1 else 0)
    ensures proposals'[..|proposals|] == proposals
    ensures IsEnabled(resultType, usableTypes) ==>
              proposals'[|proposals|].offset == offset && proposals'[|proposals|].initialName == initialName
  {
    var prop := new AssignToTryProposal(offset, initialName);
    proposals' := proposals;
    if resultType != None && resultType.value in usableTypes {
      proposals' := proposals' + [prop];
    }
  }
}
