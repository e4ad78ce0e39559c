/**
 * The quick assist that turns a statement whose value is a `then`/`else`
 * operator expression or an `if` expression into an `if`/`else` statement:
 * `return x then y else z;` becomes
 *
 *     if (x) {
 *         return y;
 *     }
 *     else {
 *         return z;
 *     }
 *
 * Terms are copied from the document by their spans; a span outside the
 * document makes the copy throw BadLocationException, which ends the assist
 * without a proposal.
 */
module ThenElseToIfElse {
  import opened TextUtil

  /** A node's extent in the document: start offset and length. */
  datatype Span = Span(start: int, distance: int)

  /** The terms the assist looks at. An Expression wraps a term (possibly none): parentheses. */
  datatype Term =
    | Expression(span: Span, inner: Option<Term>)
    | DefaultOp(span: Span, left: Term, right: Term)
    | ThenOp(span: Span, left: Term, right: Term)
    | IfExpression(span: Span, conditions: Span, thenExpr: Span, elseExpr: Span)
    | AssignOp(span: Span, left: Term, right: Term)
    | BaseMemberExpression(span: Span)
    | OtherTerm(span: Span)

  /** The declared type of an attribute: `value` with the inferred type, if known, or an explicit type. */
  datatype AttributeType = ValueModifier(typeModel: Option<string>) | ExplicitType(span: Span)

  /**
   * The statements the assist applies to. A missing expression, or an expression
   * without a term, is None.
   */
  datatype Statement =
    | Return(span: Span, term: Option<Term>)
    | ExpressionStatement(span: Span, term: Option<Term>)
    | SpecifierStatement(span: Span, refinement: bool, baseMember: Span, expression: Term)
    | AttributeDeclaration(span: Span, identifier: Option<Span>, annotationList: Span, hasAnnotations: bool,
                           attributeType: AttributeType, initializer: Option<Term>)
    | OtherStatement(span: Span)

  /** getTerm: the document text of a span; None where doc.get throws. */
  function GetTerm(doc: string, s: Span): (r: Option<string>)
    ensures r.Some? <==> 0 <= s.start && 0 <= s.distance && s.start + s.distance <= |doc|
    ensures r.Some? ==> |r.value| == s.distance && doc == doc[..s.start] + r.value + doc[s.start + s.distance..]
  {
    if 0 <= s.start && 0 <= s.distance && s.start + s.distance <= |doc|
    then
      assert doc == doc[..s.start] + doc[s.start..s.start + s.distance] + doc[s.start + s.distance..];
      Some(doc[s.start..s.start + s.distance])
    else None
  }

  // ---------------------------------------------------------------------
  // What the statement contributes
  // ---------------------------------------------------------------------

  /** The text put before each branch's term, the declaration of an attribute, and the operation to convert. */
  datatype Prelude = Prelude(action: string, declaration: Option<string>, operation: Term)

  /**
   * The statement case analysis: a return returns each branch, an assignment or
   * specification assigns it, and an attribute declaration is split into a bare
   * declaration followed by assignments. Any other statement, a refinement, a
   * missing part or an unreadable span gives None.
   */
  function StatementPrelude(doc: string, st: Statement): Option<Prelude> {
    match st
    case Return(_, term) =>
      if term.None? then None else Some(Prelude("return ", None, term.value))
    case ExpressionStatement(_, term) =>
      if term.None? || !term.value.AssignOp? then None
      else
        var left :- GetTerm(doc, term.value.left.span);
        Some(Prelude(left + " = ", None, term.value.right))
    case SpecifierStatement(_, refinement, baseMember, expression) =>
      if refinement then None
      else
        var target :- GetTerm(doc, baseMember);
        Some(Prelude(target + " = ", None, expression))
    case AttributeDeclaration(_, identifier, annotationList, hasAnnotations, attributeType, initializer) =>
      if identifier.None? then None
      else
        var id :- GetTerm(doc, identifier.value);
        var annotations :- if hasAnnotations then Annotations(doc, annotationList) else Some("");
        var declType :- DeclaredType(doc, attributeType);
        if initializer.None? then None
        else Some(Prelude(id + " = ", Some(annotations + declType + " " + id + ";"), initializer.value))
    case OtherStatement(_) => None
  }

  /** The annotations of an attribute followed by a space. */
  function Annotations(doc: string, annotationList: Span): Option<string> {
    var text :- GetTerm(doc, annotationList);
    Some(text + " ")
  }

  /** The type written in the attribute's declaration, or the inferred type for `value`. */
  function DeclaredType(doc: string, t: AttributeType): Option<string> {
    match t
    case ValueModifier(typeModel) => typeModel
    case ExplicitType(span) => GetTerm(doc, span)
  }

  // ---------------------------------------------------------------------
  // Unwrapping parentheses
  // ---------------------------------------------------------------------

  /** The operation with every enclosing Expression removed; None when a wrapper holds no term. */
  function Unwrapped(t: Term): (r: Option<Term>)
    ensures r.Some? ==> !r.value.Expression?
  {
    match t
    case Expression(_, inner) => if inner.None? then None else Unwrapped(inner.value)
    case _ => Some(t)
  }

  /** The while loop that goes down through nested Expressions. */
  method Unwrap(t: Term) returns (r: Option<Term>)
    ensures r == Unwrapped(t)
  {
    var operation := t;
    while operation.Expression?
      invariant Unwrapped(operation) == Unwrapped(t)
      decreases operation
    {
      if operation.inner.None? {
        return None;
      }
      operation := operation.inner.value;
    }
    return Some(operation);
  }

  // ---------------------------------------------------------------------
  // The branches
  // ---------------------------------------------------------------------

  /** The condition of the if statement and the terms of its two branches. */
  datatype Branches = Branches(test: string, thenTerm: string, elseTerm: string)

  /**
   * The operator case analysis. `nameProposal` is the first name the IDE proposes
   * for the left term of `x else y` when that term is not a plain reference.
   * Any other operator, or an unreadable span, gives None.
   */
  function Classify(doc: string, op: Term, nameProposal: string): Option<Branches> {
    match op
    case DefaultOp(_, left, right) =>
      var b :- if left.ThenOp? then
                 var thenTerm :- GetTerm(doc, left.right.span);
                 var test :- GetTerm(doc, left.left.span);
                 Some(Branches(test, thenTerm, ""))
               else
                 var leftText :- GetTerm(doc, left.span);
                 if left.BaseMemberExpression? then Some(Branches("exists " + leftText, leftText, ""))
                 else Some(Branches("exists " + nameProposal + " = " + leftText, nameProposal, ""));
      var elseTerm :- GetTerm(doc, right.span);
      Some(b.(elseTerm := elseTerm))
    case ThenOp(_, left, right) =>
      var thenTerm :- GetTerm(doc, right.span);
      var test :- GetTerm(doc, left.span);
      Some(Branches(test, thenTerm, "null"))
    case IfExpression(_, conditions, thenExpr, elseExpr) =>
      var thenTerm :- GetTerm(doc, thenExpr);
      var elseTerm :- GetTerm(doc, elseExpr);
      var test :- GetTerm(doc, conditions);
      Some(Branches(test, thenTerm, elseTerm))
    case _ => None
  }

  /** A bare `x then y` becomes `if (x)` with y in the first branch and null in the second. */
  lemma BareThenUsesNull(doc: string, op: Term, nameProposal: string)
    requires op.ThenOp? && Classify(doc, op, nameProposal).Some?
    ensures Classify(doc, op, nameProposal).value
            == Branches(GetTerm(doc, op.left.span).value, GetTerm(doc, op.right.span).value, "null")
  {
  }

  /**
   * `x else y`: a plain reference x is tested with `exists x` and used as is; any
   * other term is bound to the proposed name, which the first branch then uses.
   * y is the second branch.
   */
  lemma ElseOfExists(doc: string, op: Term, nameProposal: string)
    requires op.DefaultOp? && !op.left.ThenOp? && Classify(doc, op, nameProposal).Some?
    ensures var b := Classify(doc, op, nameProposal).value;
            var x := GetTerm(doc, op.left.span).value;
            && b.elseTerm == GetTerm(doc, op.right.span).value
            && (op.left.BaseMemberExpression? ==> b.test == "exists " + x && b.thenTerm == x)
            && (!op.left.BaseMemberExpression? ==>
                  b.test == "exists " + nameProposal + " = " + x && b.thenTerm == nameProposal)
  {
  }

  /**
   * `x then y else z`: the test is x, the first branch y and the second z; the
   * operator classifies exactly when the three spans can be read.
   */
  lemma ThenElseBranches(doc: string, op: Term, nameProposal: string)
    requires op.DefaultOp? && op.left.ThenOp?
    ensures Classify(doc, op, nameProposal).Some? <==>
              GetTerm(doc, op.left.left.span).Some? && GetTerm(doc, op.left.right.span).Some?
              && GetTerm(doc, op.right.span).Some?
    ensures Classify(doc, op, nameProposal).Some? ==>
              Classify(doc, op, nameProposal).value
              == Branches(GetTerm(doc, op.left.left.span).value, GetTerm(doc, op.left.right.span).value,
                          GetTerm(doc, op.right.span).value)
  {
  }

  /**
   * `if (c) then y else z`: the test is the condition list c, the branches the
   * two clause expressions; it classifies exactly when the three spans can be read.
   */
  lemma IfExpressionBranches(doc: string, op: Term, nameProposal: string)
    requires op.IfExpression?
    ensures Classify(doc, op, nameProposal).Some? <==>
              GetTerm(doc, op.conditions).Some? && GetTerm(doc, op.thenExpr).Some? && GetTerm(doc, op.elseExpr).Some?
    ensures Classify(doc, op, nameProposal).Some? ==>
              Classify(doc, op, nameProposal).value
              == Branches(GetTerm(doc, op.conditions).value, GetTerm(doc, op.thenExpr).value,
                          GetTerm(doc, op.elseExpr).value)
  {
  }

  /** Only the three operator shapes yield branches. */
  lemma OnlyConditionalOperators(doc: string, op: Term, nameProposal: string)
    requires Classify(doc, op, nameProposal).Some?
    ensures op.DefaultOp? || op.ThenOp? || op.IfExpression?
  {
  }

  // ---------------------------------------------------------------------
  // removeEnclosingParentesis
  // ---------------------------------------------------------------------

  /**
   * removeEnclosingParentesis: drop the first and last character when they are a
   * matching pair of parentheses. On the empty string charAt throws
   * StringIndexOutOfBoundsException, which nothing catches: None.
   */
  function RemoveEnclosingParentheses(s: string): (r: Option<string>)
    ensures r.None? <==> |s| == 0
    ensures r.Some? && |s| >= 2 && s[0] == '(' && s[|s| - 1] == ')' ==> s == "(" + r.value + ")"
    ensures r.Some? && !(|s| >= 2 && s[0] == '(' && s[|s| - 1] == ')') ==> r.value == s
  {
    if |s| == 0 then None
    else if s[0] == '(' && s[|s| - 1] == ')' then
      assert |s| >= 2;
      assert s == [s[0]] + s[1..|s| - 1] + [s[|s| - 1]];
      Some(s[1..|s| - 1])
    else Some(s)
  }

  /** Wrapping a condition in parentheses and removing them gives it back. */
  lemma RemoveWrappedParentheses(s: string)
    ensures RemoveEnclosingParentheses("(" + s + ")") == Some(s)
  {
    var w := "(" + s + ")";
    assert w[1..|w| - 1] == s;
  }

  // ---------------------------------------------------------------------
  // The replacement
  // ---------------------------------------------------------------------

  /**
   * The replacement: the declaration of an attribute on a line of its own, then
   * the if statement with the first branch, its closing brace, the else line,
   * the second branch and its closing brace, each on a line of its own.
   */
  function Replacement(declaration: Option<string>, test: string, action: string, b: Branches,
                       baseIndent: string, indent: string, delim: string): string
  {
    (if declaration.Some? then declaration.value + delim + baseIndent else "")
    + "if (" + test + ") {"
    + delim + baseIndent + indent + action + b.thenTerm + ";"
    + delim + baseIndent + "}"
    + delim + baseIndent + "else {"
    + delim + baseIndent + indent + action + b.elseTerm + ";"
    + delim + baseIndent + "}"
  }

  /** A branch line: the action performed on the branch's term, indented one level below the statement. */
  function BranchLine(action: string, term: string, baseIndent: string, indent: string): string {
    baseIndent + indent + action + term + ";"
  }

  /**
   * The layout of the replacement: after the declaration line (if any) and the
   * line `if (test) {` comes the then line; then the lines closing the first block
   * and opening `else {`; then the else line; then the line closing the else
   * block, which ends the replacement.
   */
  lemma ReplacementShape(declaration: Option<string>, test: string, action: string, b: Branches,
                         baseIndent: string, indent: string, delim: string)
    ensures var r := Replacement(declaration, test, action, b, baseIndent, indent, delim);
            var head := if declaration.Some? then declaration.value + delim + baseIndent else "";
            var thenLine := BranchLine(action, b.thenTerm, baseIndent, indent);
            var elseLine := BranchLine(action, b.elseTerm, baseIndent, indent);
            var between := delim + baseIndent + "}" + delim + baseIndent + "else {" + delim;
            var closing := delim + baseIndent + "}";
            var p := |head + "if (" + test + ") {" + delim|;
            var q := p + |thenLine| + |between|;
            && StartsWith(r, head + "if (" + test + ") {" + delim)
            && |r| == q + |elseLine| + |closing|
            && r[p..p + |thenLine|] == thenLine
            && r[p + |thenLine|..q] == between
            && r[q..q + |elseLine|] == elseLine
            && r[q + |elseLine|..] == closing
  {
    var head := if declaration.Some? then declaration.value + delim + baseIndent else "";
    var opening := head + "if (" + test + ") {" + delim;
    var thenLine := BranchLine(action, b.thenTerm, baseIndent, indent);
    var elseLine := BranchLine(action, b.elseTerm, baseIndent, indent);
    var between := delim + baseIndent + "}" + delim + baseIndent + "else {" + delim;
    var closing := delim + baseIndent + "}";
    ReplacementPieces(declaration, test, action, b, baseIndent, indent, delim);
    Layout(opening, thenLine, between, elseLine, closing);
  }

  /** The replacement as its five pieces: opening lines, then line, lines between, else line, closing line. */
  lemma ReplacementPieces(declaration: Option<string>, test: string, action: string, b: Branches,
                          baseIndent: string, indent: string, delim: string)
    ensures var head := if declaration.Some? then declaration.value + delim + baseIndent else "";
            Replacement(declaration, test, action, b, baseIndent, indent, delim)
            == (head + "if (" + test + ") {" + delim) + BranchLine(action, b.thenTerm, baseIndent, indent)
               + (delim + baseIndent + "}" + delim + baseIndent + "else {" + delim)
               + BranchLine(action, b.elseTerm, baseIndent, indent) + (delim + baseIndent + "}")
  {
    var head := if declaration.Some? then declaration.value + delim + baseIndent else "";
    var opening := head + "if (" + test + ") {" + delim;
    var thenLine := BranchLine(action, b.thenTerm, baseIndent, indent);
    var between := delim + baseIndent + "}" + delim + baseIndent + "else {" + delim;
    var elseLine := BranchLine(action, b.elseTerm, baseIndent, indent);
    Append5(opening, baseIndent, indent, action, b.thenTerm, ";");
    Append7(opening + thenLine, delim, baseIndent, "}", delim, baseIndent, "else {", delim);
    Append5(opening + thenLine + between, baseIndent, indent, action, b.elseTerm, ";");
    Append3(opening + thenLine + between + elseLine, delim, baseIndent, "}");
  }

  /** Appending pieces one by one appends their concatenation. */
  lemma Append3(r: string, a: string, b: string, c: string)
    ensures r + a + b + c == r + (a + b + c)
  {
  }

  lemma Append5(r: string, a: string, b: string, c: string, d: string, e: string)
    ensures r + a + b + c + d + e == r + (a + b + c + d + e)
  {
  }

  lemma Append7(r: string, a: string, b: string, c: string, d: string, e: string, f: string, g: string)
    ensures r + a + b + c + d + e + f + g == r + (a + b + c + d + e + f + g)
  {
  }

  /** Where each of five consecutive pieces lies in their concatenation. */
  lemma Layout(a: string, t: string, m: string, e: string, z: string)
    ensures var r := a + t + m + e + z;
            && StartsWith(r, a)
            && |r| == |a| + |t| + |m| + |e| + |z|
            && r[|a|..|a| + |t|] == t
            && r[|a| + |t|..|a| + |t| + |m|] == m
            && r[|a| + |t| + |m|..|a| + |t| + |m| + |e|] == e
            && r[|a| + |t| + |m| + |e|..] == z
  {
    var r := a + t + m + e + z;
    assert r[..|a|] == a;
    assert r[|a|..|a| + |t|] == t;
    assert r[|a| + |t|..|a| + |t| + |m|] == m;
    assert r[|a| + |t| + |m|..|a| + |t| + |m| + |e|] == e;
    assert r[|a| + |t| + |m| + |e|..] == z;
  }

  // ---------------------------------------------------------------------
  // addConvertToIfElseProposal
  // ---------------------------------------------------------------------

  /** The proposal: its offset and the single replace edit of its change. */
  datatype Proposal = Proposal(offset: int, edit: Edit)

  /** What one call does: add no proposal, add one, or throw out of the assist. */
  datatype Outcome = NoProposal | Proposed(proposal: Proposal) | Thrown

  /**
   * The whole assist. baseIndent (the statement's indentation), indent and delim
   * come from the editor's preferences and the document.
   */
  function Convert(doc: string, st: Statement, nameProposal: string,
                   baseIndent: string, indent: string, delim: string): (r: Outcome)
    ensures r.Proposed? ==> r.proposal.offset == st.span.start && r.proposal.edit.offset == st.span.start
                            && r.proposal.edit.length == st.span.distance
    ensures r.Proposed? ==>
              && StatementPrelude(doc, st).Some?
              && Unwrapped(StatementPrelude(doc, st).value.operation).Some?
              && var p := StatementPrelude(doc, st).value;
                 var op := Unwrapped(p.operation).value;
                 && Classify(doc, op, nameProposal).Some?
                 && var b := Classify(doc, op, nameProposal).value;
                    && RemoveEnclosingParentheses(b.test).Some?
                    && r.proposal.edit.text
                       == Replacement(p.declaration, RemoveEnclosingParentheses(b.test).value, p.action, b,
                                      baseIndent, indent, delim)
    ensures r.Thrown? <==>
              && StatementPrelude(doc, st).Some?
              && Unwrapped(StatementPrelude(doc, st).value.operation).Some?
              && var op := Unwrapped(StatementPrelude(doc, st).value.operation).value;
                 && Classify(doc, op, nameProposal).Some?
                 && |Classify(doc, op, nameProposal).value.test| == 0
  {
    match StatementPrelude(doc, st)
    case None => NoProposal
    case Some(p) =>
      match Unwrapped(p.operation)
      case None => NoProposal
      case Some(op) =>
        match Classify(doc, op, nameProposal)
        case None => NoProposal
        case Some(b) =>
          match RemoveEnclosingParentheses(b.test)
          case None => Thrown
          case Some(test) =>
            var text := Replacement(p.declaration, test, p.action, b, baseIndent, indent, delim);
            Proposed(Proposal(st.span.start, Edit(st.span.start, st.span.distance, text)))
  }

  /**
   * A proposal replaces exactly the statement's span: the rest of the document is
   * kept and the statement's text is swapped for the replacement.
   */
  lemma ProposalReplacesStatement(doc: string, st: Statement, nameProposal: string,
                                  baseIndent: string, indent: string, delim: string)
    requires Convert(doc, st, nameProposal, baseIndent, indent, delim).Proposed?
    requires 0 <= st.span.start && 0 <= st.span.distance && st.span.start + st.span.distance <= |doc|
    ensures var e := Convert(doc, st, nameProposal, baseIndent, indent, delim).proposal.edit;
            var s := st.span.start;
            && e.offset == s && e.length == st.span.distance
            && ApplyEdit(doc, e)[..s] == doc[..s]
            && ApplyEdit(doc, e)[s + |e.text|..] == doc[s + st.span.distance..]
  {
    var e := Convert(doc, st, nameProposal, baseIndent, indent, delim).proposal.edit;
    ApplyEditSplices(doc, e);
  }

  /**
   * End to end: `return x then y else z;`, possibly in parentheses, becomes the
   * if/else statement testing x (without enclosing parentheses) that returns y in
   * the first branch and z in the second; an empty test throws.
   */
  lemma ReturnThenElse(doc: string, span: Span, t: Term, opSpan: Span, thenSpan: Span, x: Term, y: Term, z: Term,
                       nameProposal: string, baseIndent: string, indent: string, delim: string)
    requires Unwrapped(t) == Some(DefaultOp(opSpan, ThenOp(thenSpan, x, y), z))
    requires GetTerm(doc, x.span).Some? && GetTerm(doc, y.span).Some? && GetTerm(doc, z.span).Some?
    ensures var tx := GetTerm(doc, x.span).value;
            var b := Branches(tx, GetTerm(doc, y.span).value, GetTerm(doc, z.span).value);
            Convert(doc, Return(span, Some(t)), nameProposal, baseIndent, indent, delim)
            == if |tx| == 0 then Thrown
               else Proposed(Proposal(span.start, Edit(span.start, span.distance,
                      Replacement(None, RemoveEnclosingParentheses(tx).value, "return ", b, baseIndent, indent, delim))))
  {
    ThenElseBranches(doc, DefaultOp(opSpan, ThenOp(thenSpan, x, y), z), nameProposal);
  }

  /** Statements other than returns, assignments, specifications and attribute declarations get no proposal. */
  lemma UnsupportedStatement(doc: string, st: Statement, nameProposal: string,
                             baseIndent: string, indent: string, delim: string)
    requires st.OtherStatement? || (st.SpecifierStatement? && st.refinement)
             || (st.ExpressionStatement? && (st.term.None? || !st.term.value.AssignOp?))
    ensures Convert(doc, st, nameProposal, baseIndent, indent, delim) == NoProposal
  {
  }

  /**
   * addConvertToIfElseProposal: the statement analysis, the loop through
   * parentheses, the operator analysis, then the replacement built by appending
   * and the proposal added to `proposals`.
   */
  method AddConvertToIfElseProposal(doc: string, proposals: seq<Proposal>, st: Statement, nameProposal: string,
                                    baseIndent: string, indent: string, delim: string)
    returns (outcome: Outcome, proposals': seq<Proposal>)
    ensures outcome == Convert(doc, st, nameProposal, baseIndent, indent, delim)
    ensures proposals' == if outcome.Proposed? then proposals + [outcome.proposal] else proposals
  {
    proposals' := proposals;
    var prelude := StatementPrelude(doc, st);
    if prelude.None? {
      return NoProposal, proposals';
    }
    var p := prelude.value;
    var operation := Unwrap(p.operation);
    if operation.None? {
      return NoProposal, proposals';
    }
    var branches := Classify(doc, operation.value, nameProposal);
    if branches.None? {
      return NoProposal, proposals';
    }
    var b := branches.value;
    var stripped := RemoveEnclosingParentheses(b.test);
    if stripped.None? {
      return Thrown, proposals';
    }
    var replace := BuildReplacement(p.declaration, stripped.value, p.action, b, baseIndent, indent, delim);
    var proposal := Proposal(st.span.start, Edit(st.span.start, st.span.distance, replace));
    proposals' := proposals' + [proposal];
    outcome := Proposed(proposal);
  }

  /**
   * The StringBuilder of the assist: the declaration line when there is one,
   * then the if/else statement, appended piece by piece.
   */
  method BuildReplacement(declaration: Option<string>, test: string, action: string, b: Branches,
                          baseIndent: string, indent: string, delim: string) returns (replace: string)
    ensures replace == Replacement(declaration, test, action, b, baseIndent, indent, delim)
  {
    replace := "";
    if declaration.Some? {
      replace := replace + declaration.value;
      replace := replace + delim;
      replace := replace + baseIndent;
      assert replace == declaration.value + delim + baseIndent;
    }
    replace := replace + "if (";
    replace := replace + test;
    replace := replace + ") {";
    replace := replace + delim;
    replace := replace + baseIndent;
    replace := replace + indent;
    replace := replace + action;
    replace := replace + b.thenTerm;
    replace := replace + ";";
    replace := replace + delim;
    replace := replace + baseIndent;
    replace := replace + "}";
    replace := replace + delim;
    replace := replace + baseIndent;
    replace := replace + "else {";
    replace := replace + delim;
    replace := replace + baseIndent;
    replace := replace + indent;
    replace := replace + action;
    replace := replace + b.elseTerm;
    replace := replace + ";";
    replace := replace + delim;
    replace := replace + baseIndent;
    replace := replace + "}";
  }
}
