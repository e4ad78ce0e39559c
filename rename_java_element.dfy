/**
 * The participant that follows the rename of a Java member into Ceylon
 * source: every Ceylon reference to the member, and every documentation
 * link naming it inside a string literal, is replaced by the new name, with
 * one text change per affected file.
 *
 * What the typechecker resolves is an input: the qualified name of the
 * declaration each identifier refers to, and for each documentation link
 * the declaration its type part names and the member its member part names.
 * The matching of the link pattern is an input too: its groups and their
 * offsets inside the literal.
 */
module RenameJavaElement {
  import opened TextUtil

  /** A Java member: its simple name and what contains it. */
  datatype JavaMember = JavaMember(name: string, container: Container)

  /** The parent of a member: a compilation unit of a package, a declaring type, or neither. */
  datatype Container = InCompilationUnit(packageName: string) | Nested(declaringType: JavaMember) | Detached

  /**
   * getQualifiedName: package::Name for a top-level member, the declaring type's
   * qualified name, a dot and the name for a nested one, and "@" otherwise.
   */
  function QualifiedName(m: JavaMember): (r: string)
    ensures |r| > 0
    ensures !m.container.Detached? ==> |m.name| < |r| && r[|r| - |m.name|..] == m.name
  {
    match m.container
    case InCompilationUnit(pkg) => pkg + "::" + m.name
    case Nested(t) => QualifiedName(t) + "." + m.name
    case Detached => "@"
  }

  /** The outermost container of a member's chain of declaring types. */
  function Root(m: JavaMember): Container {
    match m.container
    case Nested(t) => Root(t)
    case _ => m.container
  }

  /**
   * A member reached from a compilation unit has a name that starts with its
   * package and "::" and ends with its own simple name; a member not reached from
   * one has "@" as the name of its outermost type, and only a detached member
   * itself is named "@".
   */
  lemma {:induction false} QualifiedNameShape(m: JavaMember)
    ensures Root(m).InCompilationUnit? ==>
              StartsWith(QualifiedName(m), Root(m).packageName + "::")
              && |m.name| <= |QualifiedName(m)|
              && QualifiedName(m)[|QualifiedName(m)| - |m.name|..] == m.name
    ensures Root(m).Detached? ==> StartsWith(QualifiedName(m), "@")
    ensures m.container.Detached? <==> QualifiedName(m) == "@"
  {
    match m.container
    case InCompilationUnit(pkg) =>
      TopLevelName(pkg, m.name);
    case Nested(t) =>
      QualifiedNameShape(t);
      NestedName(QualifiedName(t), m.name);
      if Root(m).InCompilationUnit? {
        KeepsPrefix(QualifiedName(t), "." + m.name, Root(m).packageName + "::");
      }
      if Root(m).Detached? {
        KeepsPrefix(QualifiedName(t), "." + m.name, "@");
      }
    case Detached =>
  }

  lemma TopLevelName(pkg: string, name: string)
    ensures StartsWith(pkg + "::" + name, pkg + "::")
    ensures (pkg + "::" + name)[|pkg + "::" + name| - |name|..] == name
    ensures pkg + "::" + name != "@"
  {
    assert |pkg + "::" + name| >= 2;
    assert (pkg + "::" + name)[..|pkg + "::"|] == pkg + "::";
  }

  lemma NestedName(q: string, name: string)
    ensures q + "." + name == q + ("." + name)
    ensures (q + "." + name)[|q + "." + name| - |name|..] == name
    ensures q + "." + name != "@"
  {
    assert |q + "." + name| >= 1 + |name|;
    assert (q + "." + name)[|q|] == '.';
  }

  lemma KeepsPrefix(q: string, rest: string, p: string)
    requires StartsWith(q, p)
    ensures StartsWith(q + rest, p)
  {
    assert (q + rest)[..|p|] == q[..|p|];
  }

  // ---------------------------------------------------------------------
  // Occurrences
  // ---------------------------------------------------------------------

  /** A declaration the typechecker resolved: its qualified name, and whether it is a type. */
  datatype Declaration = Declaration(qualifiedName: string, isType: bool)

  /**
   * One match of the documentation-link pattern in a string literal: the type
   * group and its offset, the declaration it resolves to, and the optional member
   * group with its offset and the member it resolves to in that type.
   */
  datatype DocLink = DocLink(typeName: string, typeLoc: int, base: Option<Declaration>,
                             member: Option<(string, int)>, memberDecl: Option<Declaration>)

  /**
   * What the visitor sees, in visiting order: an identifier of an import, a member
   * or type expression, or a type, with its resolved declaration; or a string
   * literal with the documentation links in it.
   */
  datatype Visit =
    | Reference(text: string, startIndex: int, decl: Option<Declaration>)
    | StringLiteral(startIndex: int, links: seq<DocLink>)

  /** A name at an offset that refers to a declaration: what visitIt judges. */
  datatype Candidate = Candidate(name: string, offset: int, decl: Option<Declaration>)

  /** The candidates of one documentation link in a literal starting at `start`. */
  function LinkCandidates(start: int, l: DocLink): seq<Candidate> {
    (if l.base.Some? then [Candidate(l.typeName, start + l.typeLoc, l.base)] else [])
    + (if l.base.Some? && l.base.value.isType && l.member.Some? && l.memberDecl.Some?
       then [Candidate(l.member.value.0, start + l.member.value.1, l.memberDecl)]
       else [])
  }

  function LinksCandidates(start: int, links: seq<DocLink>): seq<Candidate> {
    if |links| == 0 then []
    else LinksCandidates(start, links[..|links| - 1]) + LinkCandidates(start, links[|links| - 1])
  }

  function VisitCandidates(v: Visit): seq<Candidate> {
    match v
    case Reference(text, startIndex, decl) => [Candidate(text, startIndex, decl)]
    case StringLiteral(start, links) => LinksCandidates(start, links)
  }

  /** Every name the visitor hands to visitIt in one compilation unit, in order. */
  function Candidates(visits: seq<Visit>): seq<Candidate> {
    if |visits| == 0 then []
    else Candidates(visits[..|visits| - 1]) + VisitCandidates(visits[|visits| - 1])
  }

  /** The visitIt rule: a resolved declaration with the member's qualified name, under the member's own name. */
  predicate IsMatch(target: JavaMember, c: Candidate) {
    c.decl.Some? && c.decl.value.qualifiedName == QualifiedName(target) && c.name == target.name
  }

  /** The edit for a matching occurrence: the old name's length at its offset, replaced by the new name. */
  function RenameEdit(target: JavaMember, newName: string, c: Candidate): Edit {
    Edit(c.offset, |target.name|, newName)
  }

  /** The edits of one compilation unit, in visiting order. */
  function EditsFor(target: JavaMember, newName: string, cs: seq<Candidate>): seq<Edit> {
    if |cs| == 0 then []
    else
      EditsFor(target, newName, cs[..|cs| - 1])
      + (if IsMatch(target, cs[|cs| - 1]) then [RenameEdit(target, newName, cs[|cs| - 1])] else [])
  }

  /**
   * The edits are exactly the occurrences the rule accepts: each replaces the old
   * name, at a matching occurrence, by the new name, and every matching occurrence
   * has its edit.
   */
  lemma {:induction false} EditsAreMatches(target: JavaMember, newName: string, cs: seq<Candidate>)
    ensures forall e :: e in EditsFor(target, newName, cs) <==>
              exists c :: c in cs && IsMatch(target, c) && e == RenameEdit(target, newName, c)
    ensures forall e :: e in EditsFor(target, newName, cs) ==> e.length == |target.name| && e.text == newName
  {
    if |cs| > 0 {
      var init := cs[..|cs| - 1];
      var last := cs[|cs| - 1];
      EditsAreMatches(target, newName, init);
      assert cs == init + [last];
      forall e | e in EditsFor(target, newName, cs)
        ensures exists c :: c in cs && IsMatch(target, c) && e == RenameEdit(target, newName, c)
      {
        if e in EditsFor(target, newName, init) {
          var c :| c in init && IsMatch(target, c) && e == RenameEdit(target, newName, c);
          assert c in cs;
        } else {
          assert IsMatch(target, last) && e == RenameEdit(target, newName, last);
        }
      }
      forall e | exists c :: c in cs && IsMatch(target, c) && e == RenameEdit(target, newName, c)
        ensures e in EditsFor(target, newName, cs)
      {
        var c :| c in cs && IsMatch(target, c) && e == RenameEdit(target, newName, c);
        if c in init {
          assert e in EditsFor(target, newName, init);
        } else {
          assert c == last;
        }
      }
    }
  }

  /**
   * Every matching occurrence's edit replaces exactly the member's old name: its
   * length is the name's, so where the occurrence text lies in the document the
   * edit swaps just that text.
   */
  lemma MatchEditReplacesName(doc: string, target: JavaMember, newName: string, c: Candidate)
    requires IsMatch(target, c)
    requires 0 <= c.offset && c.offset + |c.name| <= |doc| && doc[c.offset..c.offset + |c.name|] == c.name
    ensures var e := RenameEdit(target, newName, c);
            && InRange(doc, e)
            && doc[e.offset..e.offset + e.length] == target.name
            && ApplyEdit(doc, e) == doc[..c.offset] + newName + doc[c.offset + |target.name|..]
  {
  }

  /**
   * A documentation link contributes its type part at the literal's start plus the
   * group's offset when that part resolves, and its member part only when the type
   * part resolves to a type.
   */
  lemma LinkCandidatesPlacement(start: int, l: DocLink)
    ensures forall c :: c in LinkCandidates(start, l) ==> c.decl.Some?
    ensures l.base.Some? ==> LinkCandidates(start, l)[0] == Candidate(l.typeName, start + l.typeLoc, l.base)
    ensures (l.base.None? || !l.base.value.isType) ==> |LinkCandidates(start, l)| <= 1
    ensures l.base.None? ==> LinkCandidates(start, l) == []
  {
  }

  // ---------------------------------------------------------------------
  // The visitor and createChange
  // ---------------------------------------------------------------------

  /** The visitor over one compilation unit, appending to its list of edits. */
  method CollectEdits(target: JavaMember, newName: string, visits: seq<Visit>) returns (edits: seq<Edit>)
    ensures edits == EditsFor(target, newName, Candidates(visits))
  {
    edits := [];
    var n := 0;
    while n < |visits|
      invariant 0 <= n <= |visits|
      invariant edits == EditsFor(target, newName, Candidates(visits[..n]))
    {
      assert visits[..n + 1][..n] == visits[..n];
      var more := VisitEdits(target, newName, visits[n]);
      EditsForAppend(target, newName, Candidates(visits[..n]), VisitCandidates(visits[n]));
      edits := edits + more;
      n := n + 1;
    }
    assert visits[..n] == visits;
  }

  /** The edits one visited node adds: visitIt for an identifier, the m.find() loop for a literal. */
  method VisitEdits(target: JavaMember, newName: string, v: Visit) returns (edits: seq<Edit>)
    ensures edits == EditsFor(target, newName, VisitCandidates(v))
  {
    match v
    case Reference(text, startIndex, decl) =>
      var c := Candidate(text, startIndex, decl);
      assert [c][..0] == [];
      edits := if IsMatch(target, c) then [RenameEdit(target, newName, c)] else [];
    case StringLiteral(start, links) =>
      edits := LiteralEdits(target, newName, start, links);
  }

  /** The m.find() loop over the documentation links of one string literal. */
  method LiteralEdits(target: JavaMember, newName: string, start: int, links: seq<DocLink>) returns (edits: seq<Edit>)
    ensures edits == EditsFor(target, newName, LinksCandidates(start, links))
  {
    edits := [];
    var k := 0;
    while k < |links|
      invariant 0 <= k <= |links|
      invariant edits == EditsFor(target, newName, LinksCandidates(start, links[..k]))
    {
      LinksSnoc(start, links, k);
      EditsForAppend(target, newName, LinksCandidates(start, links[..k]), LinkCandidates(start, links[k]));
      var more := LinkEdits(target, newName, start, links[k]);
      edits := edits + more;
      k := k + 1;
    }
    assert links[..k] == links;
  }

  /** One more link adds its own candidates at the end. */
  lemma LinksSnoc(start: int, links: seq<DocLink>, k: nat)
    requires k < |links|
    ensures LinksCandidates(start, links[..k + 1]) == LinksCandidates(start, links[..k]) + LinkCandidates(start, links[k])
  {
    assert links[..k + 1][..k] == links[..k];
  }

  /** One turn of the m.find() loop: visitIt on the link's type part, then on its member part. */
  method LinkEdits(target: JavaMember, newName: string, start: int, l: DocLink) returns (edits: seq<Edit>)
    ensures edits == EditsFor(target, newName, LinkCandidates(start, l))
  {
    var here: seq<Candidate> := [];
    if l.base.Some? {
      here := here + [Candidate(l.typeName, start + l.typeLoc, l.base)];
    }
    if l.base.Some? && l.base.value.isType && l.member.Some? && l.memberDecl.Some? {
      here := here + [Candidate(l.member.value.0, start + l.member.value.1, l.memberDecl)];
    }
    assert here == LinkCandidates(start, l);
    edits := EditsFor(target, newName, here);
  }

  /** The edits of two runs of candidates are those of each, in order. */
  lemma {:induction false} EditsForAppend(target: JavaMember, newName: string, a: seq<Candidate>, b: seq<Candidate>)
    ensures EditsFor(target, newName, a + b) == EditsFor(target, newName, a) + EditsFor(target, newName, b)
    decreases |b|
  {
    if |b| == 0 {
      assert a + b == a;
    } else {
      var b' := b[..|b| - 1];
      EditsForAppend(target, newName, a, b');
      assert (a + b)[..|a + b| - 1] == a + b';
      assert (a + b)[|a + b| - 1] == b[|b| - 1];
    }
  }

  type File = nat

  /** A typechecked compilation unit: its file, whether that file is in the workspace, and what the visitor sees. */
  datatype PhasedUnit = PhasedUnit(file: File, inWorkspace: bool, visits: seq<Visit>)

  /**
   * The map from files to their edits after the loop over the phased units: a unit
   * with edits puts its file's change (replacing an earlier one for the same file);
   * a unit whose file is not a workspace file fails the cast and is skipped.
   */
  function Changes(target: JavaMember, newName: string, units: seq<PhasedUnit>): (r: map<File, seq<Edit>>)
    ensures r.Keys <= set u | u in units && u.inWorkspace :: u.file
    ensures forall f :: f in r ==> |r[f]| > 0
  {
    if |units| == 0 then map[]
    else
      var before := Changes(target, newName, units[..|units| - 1]);
      var u := units[|units| - 1];
      var edits := EditsFor(target, newName, Candidates(u.visits));
      if |edits| > 0 && u.inWorkspace then before[u.file := edits] else before
  }

  /** Every file in the result has edits, and they come from a workspace unit of that file. */
  lemma {:induction false} ChangedFilesHaveEdits(target: JavaMember, newName: string, units: seq<PhasedUnit>)
    ensures forall f :: f in Changes(target, newName, units) ==>
              |Changes(target, newName, units)[f]| > 0
              && exists u :: u in units && u.file == f && u.inWorkspace
                             && Changes(target, newName, units)[f] == EditsFor(target, newName, Candidates(u.visits))
  {
    if |units| > 0 {
      var init := units[..|units| - 1];
      ChangedFilesHaveEdits(target, newName, init);
      forall f | f in Changes(target, newName, units)
        ensures |Changes(target, newName, units)[f]| > 0
        ensures exists u :: u in units && u.file == f && u.inWorkspace
                            && Changes(target, newName, units)[f] == EditsFor(target, newName, Candidates(u.visits))
      {
        var u := units[|units| - 1];
        var edits := EditsFor(target, newName, Candidates(u.visits));
        if |edits| > 0 && u.inWorkspace && f == u.file {
          assert u in units;
        } else {
          assert Changes(target, newName, units) == Changes(target, newName, init)
                 || (Changes(target, newName, units) == Changes(target, newName, init)[u.file := edits] && f != u.file);
          assert f in Changes(target, newName, init);
          assert Changes(target, newName, units)[f] == Changes(target, newName, init)[f];
          var w :| w in init && w.file == f && w.inWorkspace
                   && Changes(target, newName, init)[f] == EditsFor(target, newName, Candidates(w.visits));
          assert w in units;
        }
      }
    }
  }

  /** A unit the loop records: a workspace unit with at least one edit. */
  predicate Records(target: JavaMember, newName: string, u: PhasedUnit) {
    u.inWorkspace && |EditsFor(target, newName, Candidates(u.visits))| > 0
  }

  /** The file of every recorded unit is in the result. */
  lemma {:induction false} EditedFilesAreChanged(target: JavaMember, newName: string, units: seq<PhasedUnit>)
    ensures forall i :: 0 <= i < |units| && Records(target, newName, units[i]) ==>
              units[i].file in Changes(target, newName, units)
  {
    if |units| > 0 {
      var init := units[..|units| - 1];
      EditedFilesAreChanged(target, newName, init);
      ChangesStep(target, newName, units);
      forall i | 0 <= i < |init| ensures init[i] == units[i] {
      }
    }
  }

  /**
   * The file of a recorded unit maps to that unit's edits when no later unit of
   * the same file is recorded: the last recorded unit of a file wins.
   */
  lemma {:induction false} LastEditedFileWins(target: JavaMember, newName: string, units: seq<PhasedUnit>, i: int)
    requires 0 <= i < |units| && Records(target, newName, units[i])
    requires forall j :: i < j < |units| && units[j].file == units[i].file ==> !Records(target, newName, units[j])
    ensures units[i].file in Changes(target, newName, units)
    ensures Changes(target, newName, units)[units[i].file] == EditsFor(target, newName, Candidates(units[i].visits))
    decreases |units|
  {
    var init := units[..|units| - 1];
    if i < |init| {
      NoLaterRecordBefore(target, newName, units, i);
      LastEditedFileWins(target, newName, init, i);
      UnrecordedKeepsFile(target, newName, units, units[i].file);
    } else {
      ChangesStep(target, newName, units);
    }
  }

  /** Dropping the last unit keeps unit i and the fact that no later unit of its file is recorded. */
  lemma NoLaterRecordBefore(target: JavaMember, newName: string, units: seq<PhasedUnit>, i: int)
    requires 0 <= i < |units| - 1
    requires forall j :: i < j < |units| && units[j].file == units[i].file ==> !Records(target, newName, units[j])
    ensures var init := units[..|units| - 1];
            && init[i] == units[i]
            && (units[|units| - 1].file == units[i].file ==> !Records(target, newName, units[|units| - 1]))
    ensures var init := units[..|units| - 1];
            forall j :: i < j < |init| && init[j].file == init[i].file ==> !Records(target, newName, init[j])
  {
    var init := units[..|units| - 1];
    forall j | i < j < |init| && init[j].file == init[i].file
      ensures !Records(target, newName, init[j])
    {
      assert init[j] == units[j];
    }
  }

  /** A last unit that is not recorded for file f leaves f's entry as it was. */
  lemma UnrecordedKeepsFile(target: JavaMember, newName: string, units: seq<PhasedUnit>, f: File)
    requires |units| > 0
    requires units[|units| - 1].file == f ==> !Records(target, newName, units[|units| - 1])
    requires f in Changes(target, newName, units[..|units| - 1])
    ensures f in Changes(target, newName, units)
    ensures Changes(target, newName, units)[f] == Changes(target, newName, units[..|units| - 1])[f]
  {
    ChangesStep(target, newName, units);
  }

  /** One step of the loop over the units. */
  lemma ChangesStep(target: JavaMember, newName: string, units: seq<PhasedUnit>)
    requires |units| > 0
    ensures var u := units[|units| - 1];
            var before := Changes(target, newName, units[..|units| - 1]);
            Changes(target, newName, units)
            == if Records(target, newName, u) then before[u.file := EditsFor(target, newName, Candidates(u.visits))]
               else before
  {
  }

  /** The result of createChange: None (null) without a type checker or without a changed file. */
  function CreateChangeResult(hasTypeChecker: bool, target: JavaMember, newName: string, units: seq<PhasedUnit>)
    : (r: Option<map<File, seq<Edit>>>)
    ensures r.None? <==> !hasTypeChecker || |Changes(target, newName, units)| == 0
    ensures r.Some? ==> r.value == Changes(target, newName, units)
  {
    if !hasTypeChecker then None
    else
      var changes := Changes(target, newName, units);
      if |changes| == 0 then None else Some(changes)
  }

  /** createChange: the loop over phased units filling the changes map, then the composite change. */
  method CreateChange(hasTypeChecker: bool, target: JavaMember, newName: string, units: seq<PhasedUnit>)
    returns (r: Option<map<File, seq<Edit>>>)
    ensures r == CreateChangeResult(hasTypeChecker, target, newName, units)
  {
    if !hasTypeChecker {
      return None;
    }
    var changes: map<File, seq<Edit>> := map[];
    var n := 0;
    while n < |units|
      invariant 0 <= n <= |units|
      invariant changes == Changes(target, newName, units[..n])
    {
      assert units[..n + 1][..n] == units[..n];
      var u := units[n];
      var edits := CollectEdits(target, newName, u.visits);
      if |edits| > 0 && u.inWorkspace {
        changes := changes[u.file := edits];
      }
      n := n + 1;
    }
    assert units[..n] == units;
    if |changes| == 0 {
      return None;
    }
    return Some(changes);
  }
}
