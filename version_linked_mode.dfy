/**
 * The linked mode that edits a module version in place: every import whose
 * path eq (as written) accepts gets a linked position over the text of its
 * version literal (without the quotes), numbered in visiting order; when the
 * user finishes, a non-empty version is handed to the change-version
 * refactoring.
 *
 * Identifiers are values (their text and start offset), standing for tree
 * nodes compared by identity; two identifiers are equal when both agree. So
 * identifiers of different imports never match, and only the edited import,
 * with a one-identifier module name, is linked.
 */
module VersionLinkedMode {
  import opened TextUtil

  datatype Identifier = Identifier(text: string, startIndex: int)

  /** An import path such as ceylon.collection: its identifiers in order. */
  type ImportPath = seq<Identifier>

  /** A quoted version literal: its text, quotes included, and its start offset. */
  datatype QuotedLiteral = QuotedLiteral(text: string, startIndex: int)

  /** An import of a module: its version and its path, either of which may be missing. */
  datatype ImportModule = ImportModule(version: Option<QuotedLiteral>, path: Option<ImportPath>)

  /** A linked position: offset, length and sequence index in the linked group. */
  datatype LinkedPosition = LinkedPosition(offset: int, length: int, sequence: nat)

  // ---------------------------------------------------------------------
  // eq
  // ---------------------------------------------------------------------

  /**
   * What eq decides, as written: the paths have as many identifiers, and every
   * identifier of y equals the FIRST identifier of x.
   */
  predicate EqAsWritten(x: ImportPath, y: ImportPath) {
    |x| == |y| && forall k :: 0 <= k < |y| ==> y[k] == x[0]
  }

  /** eq: the size test, then the index loop. */
  method Eq(x: ImportPath, y: ImportPath) returns (b: bool)
    ensures b == EqAsWritten(x, y)
  {
    if |x| != |y| {
      return false;
    }
    var k := 0;
    while k < |x|
      invariant 0 <= k <= |x|
      invariant forall m :: 0 <= m < k ==> y[m] == x[0]
    {
      if x[0] != y[k] {
        return false;
      }
      k := k + 1;
    }
    return true;
  }

  /**
   * What eq accepts: for paths of one identifier it is path equality, but a path
   * is eq to itself only when all its identifiers equal its first, so the import
   * of a module named by two different identifiers (ceylon.collection) is never
   * matched, and paths all of whose identifiers equal x's first one are matched.
   */
  lemma EqAsWrittenMeaning(x: ImportPath, y: ImportPath)
    ensures |x| == 1 ==> (EqAsWritten(x, y) <==> x == y)
    ensures EqAsWritten(x, x) <==> forall k :: 0 <= k < |x| ==> x[k] == x[0]
    ensures |x| >= 2 && x[1] != x[0] ==> !EqAsWritten(x, x)
    ensures |x| > 0 ==> EqAsWritten(x, seq(|x|, _ => x[0]))
  {
    if |x| == 1 && EqAsWritten(x, y) {
      assert y == [y[0]] == [x[0]] == x;
    }
  }

  // ---------------------------------------------------------------------
  // The visitor that collects linked positions
  // ---------------------------------------------------------------------

  /** The position over the version text without its quotes, shifted by `adjust`. */
  function VersionPosition(version: QuotedLiteral, adjust: int, sequence: nat): (p: LinkedPosition)
    ensures p.offset == version.startIndex + adjust + 1
    ensures p.length == |version.text| - 2
    ensures p.sequence == sequence
  {
    LinkedPosition(version.startIndex + adjust + 1, |version.text| - 2, sequence)
  }

  /** The import gets a linked position: version and path are present and the path is eq to the module's. */
  predicate Matches(target: ImportPath, imp: ImportModule) {
    imp.version.Some? && imp.path.Some? && EqAsWritten(target, imp.path.value)
  }

  /**
   * The positions the visitor adds for `imports`, numbered from `next` on. Every
   * matching import takes the next number; the group may refuse its position
   * (BadLocationException, printed and ignored), which still uses up the number.
   */
  function AddedPositions(target: ImportPath, adjust: int, imports: seq<ImportModule>, accepts: seq<bool>, next: nat)
    : seq<LinkedPosition>
    requires |accepts| == |imports|
  {
    if |imports| == 0 then []
    else
      var n := |imports| - 1;
      var before := AddedPositions(target, adjust, imports[..n], accepts[..n], next);
      if Matches(target, imports[n]) && accepts[n]
      then before + [VersionPosition(imports[n].version.value, adjust, next + MatchCount(target, imports[..n]))]
      else before
  }

  /** How many of the imports match, i.e. how far the counter advances. */
  function MatchCount(target: ImportPath, imports: seq<ImportModule>): nat {
    if |imports| == 0 then 0
    else MatchCount(target, imports[..|imports| - 1]) + (if Matches(target, imports[|imports| - 1]) then 1 else 0)
  }

  /**
   * When the group accepts every position, the positions carry the consecutive
   * indices next, next+1, ..., one per matching import, in visiting order.
   */
  lemma {:induction false} AcceptedPositionsNumbered(target: ImportPath, adjust: int, imports: seq<ImportModule>,
                                                     accepts: seq<bool>, next: nat)
    requires |accepts| == |imports| && forall k :: 0 <= k < |accepts| ==> accepts[k]
    ensures |AddedPositions(target, adjust, imports, accepts, next)| == MatchCount(target, imports)
    ensures forall k :: 0 <= k < MatchCount(target, imports) ==>
              AddedPositions(target, adjust, imports, accepts, next)[k].sequence == next + k
  {
    if |imports| > 0 {
      var n := |imports| - 1;
      AcceptedPositionsNumbered(target, adjust, imports[..n], accepts[..n], next);
    }
  }

  /** The sequence indices strictly increase along the sequence. */
  ghost predicate Increasing(ps: seq<LinkedPosition>) {
    forall k, m :: 0 <= k < m < |ps| ==> ps[k].sequence < ps[m].sequence
  }

  /** The sequence indices of added positions are strictly increasing and lie in [next, next + MatchCount). */
  lemma {:induction false} PositionsIncreasing(target: ImportPath, adjust: int, imports: seq<ImportModule>,
                                               accepts: seq<bool>, next: nat)
    requires |accepts| == |imports|
    ensures forall p :: p in AddedPositions(target, adjust, imports, accepts, next) ==>
              next <= p.sequence < next + MatchCount(target, imports)
    ensures Increasing(AddedPositions(target, adjust, imports, accepts, next))
  {
    if |imports| > 0 {
      var n := |imports| - 1;
      PositionsIncreasing(target, adjust, imports[..n], accepts[..n], next);
      var before := AddedPositions(target, adjust, imports[..n], accepts[..n], next);
      var ps := AddedPositions(target, adjust, imports, accepts, next);
      if Matches(target, imports[n]) && accepts[n] {
        assert ps == before + [VersionPosition(imports[n].version.value, adjust, next + MatchCount(target, imports[..n]))];
        assert MatchCount(target, imports) == MatchCount(target, imports[..n]) + 1;
      } else {
        assert ps == before;
        assert MatchCount(target, imports) >= MatchCount(target, imports[..n]);
      }
    }
  }

  class LinkedPositionsVisitor {
    const target: ImportPath
    const adjust: int
    /** The sequence index of the next linked position. */
    var i: nat
    /** The positions added to the linked position group. */
    var positions: seq<LinkedPosition>

    /** The numbering invariant: indices start at 1, increase, and stay below the counter. */
    ghost predicate Valid()
      reads this
    {
      && 1 <= i
      && (forall p :: p in positions ==> 1 <= p.sequence < i)
      && Increasing(positions)
    }

    constructor (target: ImportPath, adjust: int)
      ensures Valid() && this.target == target && this.adjust == adjust
      ensures i == 1 && positions == []
    {
      this.target := target;
      this.adjust := adjust;
      i := 1;
      positions := [];
    }

    /**
     * addLinkedPosition for one import. `accepted` says whether the group takes
     * the position; the counter is post-incremented before the group is asked.
     */
    method AddLinkedPosition(imp: ImportModule, accepted: bool)
      requires Valid()
      modifies this
      ensures Valid()
      ensures Matches(target, imp) ==>
                && i == old(i) + 1
                && positions == old(positions) + (if accepted then [VersionPosition(imp.version.value, adjust, old(i))] else [])
      ensures !Matches(target, imp) ==> i == old(i) && positions == old(positions)
    {
      if imp.version.Some? && imp.path.Some? {
        var same := Eq(target, imp.path.value);
        if same {
          var version := imp.version.value;
          var pos := version.startIndex + adjust + 1;
          var len := |version.text| - 2;
          var sequence := i;
          i := i + 1;
          if accepted {
            positions := positions + [LinkedPosition(pos, len, sequence)];
          }
        }
      }
    }

    /** The visit of a compilation unit: addLinkedPosition for each import of a module, in order. */
    method VisitImports(imports: seq<ImportModule>, accepts: seq<bool>)
      requires Valid() && |accepts| == |imports|
      modifies this
      ensures Valid()
      ensures i == old(i) + MatchCount(target, imports)
      ensures positions == old(positions) + AddedPositions(target, adjust, imports, accepts, old(i))
    {
      var n := 0;
      while n < |imports|
        invariant 0 <= n <= |imports| && Valid()
        invariant i == old(i) + MatchCount(target, imports[..n])
        invariant positions == old(positions) + AddedPositions(target, adjust, imports[..n], accepts[..n], old(i))
      {
        assert imports[..n + 1][..n] == imports[..n];
        assert accepts[..n + 1][..n] == accepts[..n];
        AddLinkedPosition(imports[n], accepts[n]);
        n := n + 1;
      }
      assert imports[..n] == imports;
      assert accepts[..n] == accepts;
    }
  }

  // ---------------------------------------------------------------------
  // The linked mode
  // ---------------------------------------------------------------------

  /** getName: the literal without its first and last character; None when substring throws. */
  function GetName(quoted: string): (r: Option<string>)
    ensures r.Some? <==> |quoted| >= 2
    ensures r.Some? ==> |r.value| == |quoted| - 2 && quoted == quoted[..1] + r.value + quoted[|quoted| - 1..]
  {
    if |quoted| >= 2 then Some(quoted[1..|quoted| - 1]) else None
  }

  /** Quoting a version and taking its name gives the version back. */
  lemma GetNameOfQuoted(v: string)
    ensures GetName("\"" + v + "\"") == Some(v)
  {
    var q := "\"" + v + "\"";
    assert q[1..|q| - 1] == v;
  }

  /** getIdentifyingOffset: just after the opening quote. */
  function IdentifyingOffset(version: QuotedLiteral): (r: int)
    ensures r == version.startIndex + 1
  {
    version.startIndex + 1
  }

  /**
   * The position the visitor gives the selected literal itself, with no adjustment,
   * starts at the identifying offset and spans the name getName returns.
   */
  lemma IdentifyingPositionSpansName(version: QuotedLiteral, sequence: nat)
    requires |version.text| >= 2
    ensures VersionPosition(version, 0, sequence).offset == IdentifyingOffset(version)
    ensures VersionPosition(version, 0, sequence).length == |GetName(version.text).value|
  {
  }

  /** isEnabled: the new name is not empty. */
  predicate IsEnabled(newName: string) { |newName| > 0 }

  datatype ModeState = Idle | Active | Finished | Cancelled

  /** What done does with an enabled name: open the preview, or run the refactoring. */
  datatype Completion = Previewed | Performed

  class EnterVersionLinkedMode {
    var state: ModeState
    /** The editor was saved when the mode started. */
    var saved: bool
    /** The version handed to the change-version refactoring. */
    var newVersion: Option<string>
    var completion: Option<Completion>

    constructor ()
      ensures state == Idle && !saved && newVersion == None && completion == None
    {
      state := Idle;
      saved := false;
      newVersion := None;
      completion := None;
    }

    /** start: nothing at all when the refactoring is disabled; otherwise save and enter linked mode. */
    method Start(refactoringEnabled: bool)
      modifies this
      ensures !refactoringEnabled ==> unchanged(this)
      ensures refactoringEnabled ==> state == Active && saved
      ensures newVersion == old(newVersion) && completion == old(completion)
    {
      if !refactoringEnabled {
        return;
      }
      saved := true;
      state := Active;
    }

    /**
     * done: with a non-empty name, hand it to the refactoring as the new version,
     * then preview or perform; with an empty one, cancel and set no version.
     */
    method Done(newName: string, showPreview: bool)
      modifies this
      ensures IsEnabled(newName) ==>
                && state == Finished && newVersion == Some(newName)
                && completion == Some(if showPreview then Previewed else Performed)
      ensures !IsEnabled(newName) ==>
                state == Cancelled && newVersion == old(newVersion) && completion == old(completion)
      ensures saved == old(saved)
    {
      if IsEnabled(newName) {
        newVersion := Some(newName);
        if showPreview {
          completion := Some(Previewed);
        } else {
          completion := Some(Performed);
        }
        state := Finished;
      } else {
        state := Cancelled;
      }
    }
  }
}
