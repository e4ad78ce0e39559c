/**
 * The folding updater of the Ceylon editor: it derives foldable regions
 * from the token stream (multi-line comments and strings, runs of line
 * comments) and from a few AST node kinds, extends each region over the
 * whitespace that ends its last line, and reconciles the new regions with
 * the ones installed in the editor's annotation model, sending only the
 * difference.
 *
 * Projection annotations are objects compared by identity; here each is a
 * number drawn from a counter, so a new one is never equal to an old one.
 */
module Folding {
  import opened TextUtil

  datatype TokenKind =
    | MultiComment | StringLiteral | AStringLiteral | VerbatimString | AVerbatimString
    | LineComment | Whitespace | OtherToken

  /** A lexer token: its type, the offsets of its first and last character, its line and its text. */
  datatype Token = Token(kind: TokenKind, startIndex: int, stopIndex: int, line: int, text: string)

  /** A region of the document. */
  datatype Position = Position(offset: int, length: int)

  type Annotation = nat

  // ---------------------------------------------------------------------
  // Lines of a document
  // ---------------------------------------------------------------------

  /** A line delimiter ("\n", "\r" or "\r\n") ends just after index i. */
  predicate EndsLine(doc: string, i: nat)
    requires i < |doc|
  {
    doc[i] == '\n' || (doc[i] == '\r' && (i + 1 == |doc| || doc[i + 1] != '\n'))
  }

  /** The line of offset k: the number of line delimiters that end at or before k. */
  function LineOfOffset(doc: string, k: nat): nat
    requires k <= |doc|
  {
    if k == 0 then 0 else LineOfOffset(doc, k - 1) + (if EndsLine(doc, k - 1) then 1 else 0)
  }

  // ---------------------------------------------------------------------
  // advanceToEndOfLine
  // ---------------------------------------------------------------------

  /** How many characters from p on are whitespace on line `line`, up to the first that is not. */
  function Absorbed(doc: string, p: int, line: nat): (n: nat)
    requires 0 <= p <= |doc|
    ensures p + n <= |doc|
    decreases |doc| - p
  {
    if p < |doc| && IsWhitespace(doc[p]) && LineOfOffset(doc, p) == line
    then 1 + Absorbed(doc, p + 1, line)
    else 0
  }

  /**
   * The length of the region (start, len) once extended over the whitespace that
   * follows it on the line of start+len. An end outside the document makes
   * getLineOfOffset throw; the exception is swallowed and len is kept.
   */
  function ExtendedLength(doc: string, start: int, len: int): int
  {
    if 0 <= start + len <= |doc|
    then len + Absorbed(doc, start + len, LineOfOffset(doc, start + len))
    else len
  }

  lemma {:induction false} AbsorbedProperties(doc: string, p: int, line: nat)
    requires 0 <= p <= |doc|
    ensures forall q :: p <= q < p + Absorbed(doc, p, line) ==>
              IsWhitespace(doc[q]) && LineOfOffset(doc, q) == line
    ensures var e := p + Absorbed(doc, p, line);
            e == |doc| || !IsWhitespace(doc[e]) || LineOfOffset(doc, e) != line
    decreases |doc| - p
  {
    if p < |doc| && IsWhitespace(doc[p]) && LineOfOffset(doc, p) == line {
      AbsorbedProperties(doc, p + 1, line);
    }
  }

  /**
   * advanceToEndOfLine never shrinks the region, never runs past the end of the
   * document, absorbs only whitespace lying on the line where the region ended,
   * and stops at the first character that is not such whitespace.
   */
  lemma ExtendedLengthProperties(doc: string, start: int, len: int)
    ensures len <= ExtendedLength(doc, start, len)
    ensures !(0 <= start + len <= |doc|) ==> ExtendedLength(doc, start, len) == len
    ensures 0 <= start + len <= |doc| ==>
              var e := start + ExtendedLength(doc, start, len);
              var line := LineOfOffset(doc, start + len);
              && e <= |doc|
              && (forall q :: start + len <= q < e ==> IsWhitespace(doc[q]) && LineOfOffset(doc, q) == line)
              && (e == |doc| || !IsWhitespace(doc[e]) || LineOfOffset(doc, e) != line)
  {
    if 0 <= start + len <= |doc| {
      AbsorbedProperties(doc, start + len, LineOfOffset(doc, start + len));
    }
  }

  /** advanceToEndOfLine: the while loop that grows len one whitespace character at a time. */
  method AdvanceToEndOfLine(doc: string, start: int, len: int) returns (r: int)
    ensures r == ExtendedLength(doc, start, len)
  {
    r := len;
    if !(0 <= start + len <= |doc|) {
      return; // BadLocationException, printed and ignored
    }
    var line := LineOfOffset(doc, start + len);
    while start + r < |doc| && IsWhitespace(doc[start + r]) && LineOfOffset(doc, start + r) == line
      invariant len <= r && start + r <= |doc|
      invariant r + Absorbed(doc, start + r, line) == len + Absorbed(doc, start + len, line)
      decreases |doc| - (start + r)
    {
      r := r + 1;
    }
  }

  // ---------------------------------------------------------------------
  // Regions from tokens
  // ---------------------------------------------------------------------

  /** The token kinds folded when they span several lines. */
  predicate IsFoldableKind(k: TokenKind) {
    k == MultiComment || k == StringLiteral || k == AStringLiteral
    || k == VerbatimString || k == AVerbatimString
  }

  /** isMultilineToken: the first '\n', or the first '\r', occurs after index 0. */
  function IsMultilineToken(t: Token): (b: bool)
    ensures b <==> ('\n' in t.text && t.text[0] != '\n') || ('\r' in t.text && t.text[0] != '\r')
  {
    IndexOf(t.text, '\n') > 0 || IndexOf(t.text, '\r') > 0
  }

  /** The length makeAnnotation(start, end) gives a region before whitespace extension. */
  function SpanLength(first: Token, last: Token): int
  {
    last.stopIndex - first.startIndex + 1
  }

  /** A fold request: the region from the first character of `first` to the last of `last`. */
  datatype Fold = Fold(first: Token, last: Token, collapse: bool)

  /** The position makeAnnotation installs for a fold request. */
  function FoldPosition(doc: string, f: Fold): Position
  {
    Position(f.first.startIndex, ExtendedLength(doc, f.first.startIndex, SpanLength(f.first, f.last)))
  }

  /**
   * The inner loop over a run of line comments: from index j on, skip LINE_COMMENT
   * and WS tokens, remembering the index of the last LINE_COMMENT. None when the run
   * reaches the end of the token list, where tokens.get throws.
   */
  function RunEnd(tokens: seq<Token>, j: nat, last: nat): (r: Option<nat>)
    requires last < j
    ensures r.Some? ==> last <= r.value < |tokens|
    decreases |tokens| - j
  {
    if j >= |tokens| then None
    else if tokens[j].kind == LineComment then RunEnd(tokens, j + 1, j)
    else if tokens[j].kind == Whitespace then RunEnd(tokens, j + 1, last)
    else Some(last)
  }

  predicate CommentOrSpace(t: Token) { t.kind == LineComment || t.kind == Whitespace }

  lemma {:induction false} RunEndProperties(tokens: seq<Token>, j: nat, last: nat)
    requires last < j <= |tokens|
    requires last < |tokens| && tokens[last].kind == LineComment
    requires forall q :: last < q < j ==> tokens[q].kind == Whitespace
    ensures RunEnd(tokens, j, last).None? ==> forall q :: j <= q < |tokens| ==> CommentOrSpace(tokens[q])
    ensures RunEnd(tokens, j, last).Some? ==>
              var k := RunEnd(tokens, j, last).value;
              && tokens[k].kind == LineComment
              && (forall q :: j <= q <= k ==> CommentOrSpace(tokens[q]))
              && exists m :: k < m < |tokens| && !CommentOrSpace(tokens[m])
                             && forall q :: k < q < m ==> tokens[q].kind == Whitespace
    decreases |tokens| - j
  {
    if j < |tokens| {
      if tokens[j].kind == LineComment {
        RunEndProperties(tokens, j + 1, j);
      } else if tokens[j].kind == Whitespace {
        RunEndProperties(tokens, j + 1, last);
      } else {
        assert !CommentOrSpace(tokens[j]);
      }
    }
  }

  /**
   * A run of line comments starting at index i, separated only by whitespace tokens,
   * is folded as one region ending at its last comment, and the scan resumes after
   * that comment; the token that ends the run is neither a comment nor whitespace,
   * and only whitespace lies between it and the last comment.
   */
  lemma CommentRunProperties(tokens: seq<Token>, i: nat)
    requires i < |tokens| && tokens[i].kind == LineComment
    ensures RunEnd(tokens, i + 1, i).None? ==> forall q :: i <= q < |tokens| ==> CommentOrSpace(tokens[q])
    ensures RunEnd(tokens, i + 1, i).Some? ==>
              var k := RunEnd(tokens, i + 1, i).value;
              && i <= k && tokens[k].kind == LineComment
              && (forall q :: i <= q <= k ==> CommentOrSpace(tokens[q]))
              && exists m :: k < m < |tokens| && !CommentOrSpace(tokens[m])
                             && forall q :: k < q < m ==> tokens[q].kind == Whitespace
  {
    RunEndProperties(tokens, i + 1, i);
  }

  /**
   * The inner while loop of the token scan for a LINE_COMMENT at index i: found is
   * false when the run reaches the end of the list (tokens.get throws), otherwise
   * last is the index of the run's last LINE_COMMENT.
   */
  method CommentRunEnd(tokens: seq<Token>, i: nat) returns (found: bool, last: nat)
    requires i < |tokens|
    ensures found <==> RunEnd(tokens, i + 1, i).Some?
    ensures found ==> last == RunEnd(tokens, i + 1, i).value
  {
    last := i;
    var j := i + 1;
    if j >= |tokens| {
      return false, last;
    }
    var next := tokens[j];
    while next.kind == LineComment || next.kind == Whitespace
      invariant i <= last < j < |tokens| && next == tokens[j]
      invariant RunEnd(tokens, i + 1, i) == RunEnd(tokens, j, last)
      decreases |tokens| - j
    {
      if next.kind == LineComment {
        last := j;
      }
      j := j + 1;
      if j >= |tokens| {
        return false, last;
      }
      next := tokens[j];
    }
    return true, last;
  }

  /** The fold requests of a scan, and whether the scan reached the end without an exception. */
  datatype ScanResult = ScanResult(folds: seq<Fold>, complete: bool)

  function Prepend(fs: seq<Fold>, r: ScanResult): ScanResult {
    ScanResult(fs + r.folds, r.complete)
  }

  lemma PrependStep(done: seq<Fold>, f: Fold, r: ScanResult)
    ensures Prepend(done + [f], r) == Prepend(done, Prepend([f], r))
  {
    assert (done + [f]) + r.folds == done + ([f] + r.folds);
  }

  /** The token loop of sendVisitorToAST, from index i on. */
  function ScanTokens(tokens: seq<Token>, i: nat, autofoldComments: bool): ScanResult
    decreases |tokens| - i
  {
    if i >= |tokens| then ScanResult([], true)
    else
      var t := tokens[i];
      if IsFoldableKind(t.kind) then
        var here := if IsMultilineToken(t)
                    then [Fold(t, t, autofoldComments && t.kind == MultiComment)]
                    else [];
        Prepend(here, ScanTokens(tokens, i + 1, autofoldComments))
      else if t.kind == LineComment then
        match RunEnd(tokens, i + 1, i)
        case None => ScanResult([], false)
        case Some(k) =>
          var here := if tokens[k].line > t.line then [Fold(t, tokens[k], autofoldComments)] else [];
          Prepend(here, ScanTokens(tokens, k + 1, autofoldComments))
      else ScanTokens(tokens, i + 1, autofoldComments)
  }

  /** The scan at a foldable token, after the requests `done`: the token's fold, if it spans lines, joins them. */
  lemma SingleTokenScan(tokens: seq<Token>, i: nat, autofoldComments: bool, done: seq<Fold>)
    requires i < |tokens| && IsFoldableKind(tokens[i].kind)
    ensures var t := tokens[i];
            var here := if IsMultilineToken(t) then [Fold(t, t, autofoldComments && t.kind == MultiComment)] else [];
            Prepend(done + here, ScanTokens(tokens, i + 1, autofoldComments))
            == Prepend(done, ScanTokens(tokens, i, autofoldComments))
  {
    var t := tokens[i];
    var rest := ScanTokens(tokens, i + 1, autofoldComments);
    if IsMultilineToken(t) {
      PrependStep(done, Fold(t, t, autofoldComments && t.kind == MultiComment), rest);
    } else {
      assert done + [] == done;
      assert Prepend([], rest) == rest;
    }
  }

  /**
   * The scan at a line comment, after the requests `done`: the run's fold, if it
   * spans lines, joins them and the scan goes on after the run; a run reaching the
   * end stops the scan incomplete.
   */
  lemma CommentRunScan(tokens: seq<Token>, i: nat, autofoldComments: bool, done: seq<Fold>)
    requires i < |tokens| && tokens[i].kind == LineComment
    ensures RunEnd(tokens, i + 1, i).None? ==>
              ScanResult(done, false) == Prepend(done, ScanTokens(tokens, i, autofoldComments))
    ensures RunEnd(tokens, i + 1, i).Some? ==>
              var k := RunEnd(tokens, i + 1, i).value;
              var here := if tokens[k].line > tokens[i].line then [Fold(tokens[i], tokens[k], autofoldComments)] else [];
              Prepend(done + here, ScanTokens(tokens, k + 1, autofoldComments))
              == Prepend(done, ScanTokens(tokens, i, autofoldComments))
  {
    if RunEnd(tokens, i + 1, i).Some? {
      var k := RunEnd(tokens, i + 1, i).value;
      var rest := ScanTokens(tokens, k + 1, autofoldComments);
      if tokens[k].line > tokens[i].line {
        PrependStep(done, Fold(tokens[i], tokens[k], autofoldComments), rest);
      } else {
        assert done + [] == done;
        assert Prepend([], rest) == rest;
      }
    } else {
      assert done + [] == done;
    }
  }

  /** The scan asks for at most one fold per token it has left. */
  lemma {:induction false} ScanFoldCount(tokens: seq<Token>, i: nat, autofoldComments: bool)
    requires i <= |tokens|
    ensures |ScanTokens(tokens, i, autofoldComments).folds| <= |tokens| - i
    decreases |tokens| - i
  {
    if i < |tokens| {
      var t := tokens[i];
      if IsFoldableKind(t.kind) {
        ScanFoldCount(tokens, i + 1, autofoldComments);
      } else if t.kind == LineComment {
        match RunEnd(tokens, i + 1, i)
        case None =>
        case Some(k) => ScanFoldCount(tokens, k + 1, autofoldComments);
      } else {
        ScanFoldCount(tokens, i + 1, autofoldComments);
      }
    }
  }

  /** Only a run of line comments that reaches the end of the tokens leaves the scan incomplete. */
  lemma {:induction false} ScanCompleteWithoutLineComments(tokens: seq<Token>, i: nat, autofoldComments: bool)
    requires forall q :: i <= q < |tokens| ==> tokens[q].kind != LineComment
    ensures ScanTokens(tokens, i, autofoldComments).complete
    decreases |tokens| - i
  {
    if i < |tokens| {
      ScanCompleteWithoutLineComments(tokens, i + 1, autofoldComments);
    }
  }

  /** Every fold request spans lines: its last token lies on a later line than its first. */
  lemma {:induction false} ScanFoldsSpanLines(tokens: seq<Token>, i: nat, autofoldComments: bool)
    ensures forall f :: f in ScanTokens(tokens, i, autofoldComments).folds ==>
              (f.first == f.last && IsFoldableKind(f.first.kind) && IsMultilineToken(f.first))
              || (f.first.kind == LineComment && f.last.kind == LineComment && f.last.line > f.first.line)
    decreases |tokens| - i
  {
    if i < |tokens| {
      var t := tokens[i];
      if IsFoldableKind(t.kind) {
        ScanFoldsSpanLines(tokens, i + 1, autofoldComments);
      } else if t.kind == LineComment {
        match RunEnd(tokens, i + 1, i)
        case None =>
        case Some(k) =>
          CommentRunProperties(tokens, i);
          ScanFoldsSpanLines(tokens, k + 1, autofoldComments);
      } else {
        ScanFoldsSpanLines(tokens, i + 1, autofoldComments);
      }
    }
  }

  // ---------------------------------------------------------------------
  // Regions from the AST
  // ---------------------------------------------------------------------

  /** The AST nodes the visitor folds, in visiting order (a Body has no token after "else if"). */
  datatype AstNode =
    | ImportList(importCount: nat, start: Token, end: Token)
    | Body(bodyStart: Option<Token>, end: Token)
    | NamedArgumentList(start: Token, end: Token)
    | ModuleDescriptor(start: Token, end: Token)

  /** foldIfNecessary(Node) for one visited node. */
  function NodeFold(n: AstNode, autofoldImports: bool): (r: seq<Fold>)
    ensures |r| <= 1
  {
    match n
    case ImportList(count, s, e) =>
      if count > 0 && e.line - s.line > 0 then [Fold(s, e, autofoldImports)] else []
    case Body(bs, e) =>
      if bs.Some? && e.line - bs.value.line > 0 then [Fold(bs.value, e, false)] else []
    case NamedArgumentList(s, e) => if e.line - s.line > 0 then [Fold(s, e, false)] else []
    case ModuleDescriptor(s, e) => if e.line - s.line > 0 then [Fold(s, e, false)] else []
  }

  function NodeFolds(nodes: seq<AstNode>, autofoldImports: bool): seq<Fold>
  {
    if |nodes| == 0 then []
    else NodeFolds(nodes[..|nodes| - 1], autofoldImports) + NodeFold(nodes[|nodes| - 1], autofoldImports)
  }

  /** One more node adds its own folds at the end. */
  lemma NodeFoldsSnoc(before: seq<Fold>, nodes: seq<AstNode>, n: nat, autofoldImports: bool)
    requires n < |nodes|
    ensures before + NodeFolds(nodes[..n + 1], autofoldImports)
            == (before + NodeFolds(nodes[..n], autofoldImports)) + NodeFold(nodes[n], autofoldImports)
  {
    assert nodes[..n + 1][..n] == nodes[..n];
  }

  /** Every fold from the AST spans lines, and only an import list is collapsed, and only when asked to. */
  lemma {:induction false} NodeFoldsSpanLines(nodes: seq<AstNode>, autofoldImports: bool)
    ensures forall f :: f in NodeFolds(nodes, autofoldImports) ==>
              f.last.line > f.first.line && (f.collapse ==> autofoldImports)
  {
    if |nodes| > 0 {
      NodeFoldsSpanLines(nodes[..|nodes| - 1], autofoldImports);
      NodeFoldSpansLines(nodes[|nodes| - 1], autofoldImports);
    }
  }

  /**
   * foldIfNecessary(Node): a node gives a fold exactly when its end token is on a
   * later line than its start token; only a non-empty import list is collapsed,
   * and only when imports are folded automatically.
   */
  lemma NodeFoldSpansLines(n: AstNode, autofoldImports: bool)
    ensures forall f :: f in NodeFold(n, autofoldImports) ==>
              f.last.line > f.first.line && (f.collapse ==> n.ImportList? && autofoldImports)
    ensures n.NamedArgumentList? || n.ModuleDescriptor? ==>
              (|NodeFold(n, autofoldImports)| == 1 <==> n.end.line > n.start.line)
  {
  }

  /** All fold requests of sendVisitorToAST: the token scan, then, if it completed, the AST visit. */
  function AllFolds(tokens: seq<Token>, nodes: seq<AstNode>, autofoldImports: bool, autofoldComments: bool): ScanResult
  {
    var s := ScanTokens(tokens, 0, autofoldComments);
    if s.complete then ScanResult(s.folds + NodeFolds(nodes, autofoldImports), true) else s
  }

  // ---------------------------------------------------------------------
  // Annotation maps and their reconciliation
  // ---------------------------------------------------------------------

  /** The annotations made for `folds`, numbered from `base` on. */
  function Installed(doc: string, folds: seq<Fold>, base: nat): (m: map<Annotation, Position>)
  {
    if |folds| == 0 then map[]
    else Installed(doc, folds[..|folds| - 1], base)[base + |folds| - 1 := FoldPosition(doc, folds[|folds| - 1])]
  }

  /** Each fold request gets its own annotation, numbered from base in order, at the fold's position. */
  lemma {:induction false} InstalledOnePerFold(doc: string, folds: seq<Fold>, base: nat)
    ensures forall a :: a in Installed(doc, folds, base) <==> base <= a < base + |folds|
    ensures forall k :: 0 <= k < |folds| ==> Installed(doc, folds, base)[base + k] == FoldPosition(doc, folds[k])
  {
    if |folds| > 0 {
      var init := folds[..|folds| - 1];
      InstalledOnePerFold(doc, init, base);
      forall k | 0 <= k < |folds| - 1
        ensures base + k in Installed(doc, folds, base) && Installed(doc, folds, base)[base + k] == FoldPosition(doc, folds[k])
      {
        assert folds[k] == init[k];
      }
    }
  }

  /** The annotations among them that were marked collapsed. */
  function CollapsedIds(folds: seq<Fold>, base: nat): set<Annotation>
  {
    if |folds| == 0 then {}
    else CollapsedIds(folds[..|folds| - 1], base)
         + (if folds[|folds| - 1].collapse then {base + |folds| - 1} else {})
  }

  /** The old annotations whose position no new annotation has. */
  function Deletions(installed: map<Annotation, Position>, computed: map<Annotation, Position>): set<Annotation>
  {
    set a | a in installed && installed[a] !in computed.Values
  }

  /** The new annotations whose position no old annotation has. */
  function Additions(installed: map<Annotation, Position>, computed: map<Annotation, Position>): map<Annotation, Position>
  {
    map a | a in computed && computed[a] !in installed.Values :: computed[a]
  }

  /** The map kept as "old annotations" after an update. */
  function Reconciled(installed: map<Annotation, Position>, computed: map<Annotation, Position>): map<Annotation, Position>
  {
    (installed - Deletions(installed, computed)) + Additions(installed, computed)
  }

  /**
   * The update is a correct reconciliation: afterwards the installed positions are
   * exactly the computed ones, every surviving old annotation keeps its position,
   * and no deleted annotation is re-added with the same position.
   */
  lemma ReconcileInstallsComputed(installed: map<Annotation, Position>, computed: map<Annotation, Position>)
    requires installed.Keys !! computed.Keys
    ensures Reconciled(installed, computed).Values == computed.Values
    ensures forall a :: a in installed && a !in Deletions(installed, computed) ==>
              a in Reconciled(installed, computed) && Reconciled(installed, computed)[a] == installed[a]
    ensures forall a :: a in Deletions(installed, computed) ==> installed[a] !in Additions(installed, computed).Values
  {
    var r := Reconciled(installed, computed);
    var del := Deletions(installed, computed);
    var add := Additions(installed, computed);
    forall p | p in computed.Values ensures p in r.Values {
      var a :| a in computed && computed[a] == p;
      if p in installed.Values {
        var b :| b in installed && installed[b] == p;
        assert b !in del && b !in add;
        assert r[b] == p;
      } else {
        assert a in add;
        assert r[a] == p;
      }
    }
    forall p | p in r.Values ensures p in computed.Values {
      var a :| a in r && r[a] == p;
      if a in add {
        assert computed[a] == p;
      } else {
        assert a in installed && a !in del;
      }
    }
  }

  /** Recomputing the regions already installed sends nothing to the annotation model. */
  lemma ReconcileStable(installed: map<Annotation, Position>, computed: map<Annotation, Position>)
    requires installed.Values == computed.Values
    ensures Deletions(installed, computed) == {}
    ensures Additions(installed, computed) == map[]
  {
  }

  /** The two loops of updateFoldingStructure that compute the difference (deletions, additions). */
  method ComputeDelta(installed: map<Annotation, Position>, computed: map<Annotation, Position>)
    returns (deletions: set<Annotation>, additions: map<Annotation, Position>)
    ensures deletions == Deletions(installed, computed)
    ensures additions == Additions(installed, computed)
  {
    deletions := {};
    var rest := installed.Keys;
    while rest != {}
      invariant rest <= installed.Keys
      invariant deletions == set a | a in installed && a !in rest && installed[a] !in computed.Values
      decreases rest
    {
      var a :| a in rest;
      if installed[a] !in computed.Values {
        deletions := deletions + {a};
      }
      rest := rest - {a};
    }
    additions := map[];
    rest := computed.Keys;
    while rest != {}
      invariant rest <= computed.Keys
      invariant additions == map a | a in computed && a !in rest && computed[a] !in installed.Values :: computed[a]
      decreases rest
    {
      var a :| a in rest;
      if computed[a] !in installed.Values {
        additions := additions[a := computed[a]];
      }
      rest := rest - {a};
    }
  }

  /** What updateFoldingStructure sends to the annotation model. */
  datatype Delta = Delta(deletions: set<Annotation>, additions: map<Annotation, Position>)

  class FoldingUpdater {
    var firstTime: bool
    /** Annotations made by the current update, not yet installed. */
    var newAnnotations: map<Annotation, Position>
    /** Annotations installed in the annotation model. */
    var oldAnnotations: map<Annotation, Position>
    /** Annotations marked collapsed. */
    var collapsed: set<Annotation>
    /** The identity the next ProjectionAnnotation gets. */
    var nextAnnotation: nat

    ghost predicate Valid()
      reads this
    {
      && (forall a :: a in newAnnotations ==> a < nextAnnotation)
      && (forall a :: a in oldAnnotations ==> a < nextAnnotation)
      && newAnnotations.Keys !! oldAnnotations.Keys
    }

    /**
     * The annotations made since `base` are exactly those of the fold requests `done`,
     * on top of the `pending` ones that were there before.
     */
    ghost predicate Tracks(doc: string, pending: map<Annotation, Position>, pendingCollapsed: set<Annotation>,
                           base: nat, done: seq<Fold>)
      reads this
    {
      && (forall a :: a in pending ==> a < base)
      && nextAnnotation == base + |done|
      && newAnnotations == pending + Installed(doc, done, base)
      && collapsed == pendingCollapsed + CollapsedIds(done, base)
    }

    constructor ()
      ensures Valid() && firstTime
      ensures newAnnotations == map[] && oldAnnotations == map[] && collapsed == {}
    {
      firstTime := true;
      newAnnotations := map[];
      oldAnnotations := map[];
      collapsed := {};
      nextAnnotation := 0;
    }

    /** makeAnnotation(start, len): a fresh annotation at the whitespace-extended region. */
    method MakeAnnotation(doc: string, start: int, len: int) returns (a: Annotation)
      requires Valid()
      modifies this
      ensures Valid()
      ensures a == old(nextAnnotation) && nextAnnotation == a + 1
      ensures a !in old(newAnnotations) && a !in oldAnnotations
      ensures newAnnotations == old(newAnnotations)[a := Position(start, ExtendedLength(doc, start, len))]
      ensures oldAnnotations == old(oldAnnotations) && collapsed == old(collapsed) && firstTime == old(firstTime)
    {
      a := nextAnnotation;
      nextAnnotation := nextAnnotation + 1;
      var extended := AdvanceToEndOfLine(doc, start, len);
      newAnnotations := newAnnotations[a := Position(start, extended)];
    }

    /**
     * sendVisitorToAST: the token loop, then the AST visit. The autofold preferences
     * apply only on the first call. A run of line comments that reaches the end of
     * the token list throws; ok is then false and the annotations made so far stay.
     */
    method SendVisitorToAST(doc: string, tokens: seq<Token>, nodes: seq<AstNode>,
                            prefAutofoldImports: bool, prefAutofoldComments: bool)
      returns (ok: bool)
      requires Valid()
      modifies this
      ensures Valid() && !firstTime && oldAnnotations == old(oldAnnotations)
      ensures var r := AllFolds(tokens, nodes, old(firstTime) && prefAutofoldImports,
                                old(firstTime) && prefAutofoldComments);
              && ok == r.complete
              && nextAnnotation == old(nextAnnotation) + |r.folds|
              && newAnnotations == old(newAnnotations) + Installed(doc, r.folds, old(nextAnnotation))
              && collapsed == old(collapsed) + CollapsedIds(r.folds, old(nextAnnotation))
    {
      var autofoldImports, autofoldComments;
      if firstTime {
        autofoldImports, autofoldComments := prefAutofoldImports, prefAutofoldComments;
        firstTime := false;
      } else {
        autofoldImports, autofoldComments := false, false;
      }
      ok := FoldTokens(doc, tokens, autofoldComments);
      if ok {
        FoldNodes(doc, nodes, autofoldImports, old(newAnnotations), old(collapsed), old(nextAnnotation),
                  ScanTokens(tokens, 0, autofoldComments).folds);
      }
    }

    /** The token loop of sendVisitorToAST. */
    method FoldTokens(doc: string, tokens: seq<Token>, autofoldComments: bool) returns (ok: bool)
      requires Valid()
      modifies this
      ensures Valid() && firstTime == old(firstTime) && oldAnnotations == old(oldAnnotations)
      ensures ok == ScanTokens(tokens, 0, autofoldComments).complete
      ensures Tracks(doc, old(newAnnotations), old(collapsed), old(nextAnnotation),
                     ScanTokens(tokens, 0, autofoldComments).folds)
    {
      ghost var base := nextAnnotation;
      ghost var done: seq<Fold> := [];
      ghost var scan := ScanTokens(tokens, 0, autofoldComments);
      var i := 0;
      while i < |tokens|
        invariant 0 <= i <= |tokens|
        invariant Valid() && firstTime == old(firstTime) && oldAnnotations == old(oldAnnotations)
        invariant Tracks(doc, old(newAnnotations), old(collapsed), base, done)
        invariant Prepend(done, ScanTokens(tokens, i, autofoldComments)) == scan
        decreases |tokens| - i
      {
        var found;
        found, i, done := FoldToken(doc, tokens, i, autofoldComments, old(newAnnotations), old(collapsed), base, done);
        if !found {
          return false; // IndexOutOfBoundsException, caught by updateFoldingStructure
        }
      }
      assert ScanTokens(tokens, i, autofoldComments) == ScanResult([], true);
      assert done + [] == done;
      return true;
    }

    /**
     * One turn of the token loop, at index i: fold a multi-line comment or string, or
     * a run of line comments that spans lines. Returns the index the loop goes on
     * with; found is false when a run of line comments reaches the end of the list.
     */
    method FoldToken(doc: string, tokens: seq<Token>, i: nat, autofoldComments: bool,
                     ghost pending: map<Annotation, Position>, ghost pendingCollapsed: set<Annotation>,
                     ghost base: nat, ghost done: seq<Fold>)
      returns (found: bool, next: nat, ghost done': seq<Fold>)
      requires i < |tokens|
      requires Valid() && Tracks(doc, pending, pendingCollapsed, base, done)
      modifies this
      ensures Valid() && firstTime == old(firstTime) && oldAnnotations == old(oldAnnotations)
      ensures Tracks(doc, pending, pendingCollapsed, base, done')
      ensures found ==> i < next <= |tokens|
      ensures found ==> Prepend(done', ScanTokens(tokens, next, autofoldComments))
                        == Prepend(done, ScanTokens(tokens, i, autofoldComments))
      ensures !found ==> ScanResult(done', false) == Prepend(done, ScanTokens(tokens, i, autofoldComments))
    {
      var token := tokens[i];
      if IsFoldableKind(token.kind) {
        found, next := true, i + 1;
        done' := FoldSingleToken(doc, tokens, i, autofoldComments, pending, pendingCollapsed, base, done);
      } else if token.kind == LineComment {
        found, next, done' := FoldCommentRun(doc, tokens, i, autofoldComments, pending, pendingCollapsed, base, done);
      } else {
        found, next, done' := true, i + 1, done;
      }
    }

    /** The turn of the token loop on a multi-line comment or string token. */
    method FoldSingleToken(doc: string, tokens: seq<Token>, i: nat, autofoldComments: bool,
                           ghost pending: map<Annotation, Position>, ghost pendingCollapsed: set<Annotation>,
                           ghost base: nat, ghost done: seq<Fold>)
      returns (ghost done': seq<Fold>)
      requires i < |tokens| && IsFoldableKind(tokens[i].kind)
      requires Valid() && Tracks(doc, pending, pendingCollapsed, base, done)
      modifies this
      ensures Valid() && firstTime == old(firstTime) && oldAnnotations == old(oldAnnotations)
      ensures Tracks(doc, pending, pendingCollapsed, base, done')
      ensures Prepend(done', ScanTokens(tokens, i + 1, autofoldComments))
              == Prepend(done, ScanTokens(tokens, i, autofoldComments))
    {
      done' := done;
      var token := tokens[i];
      SingleTokenScan(tokens, i, autofoldComments, done);
      if IsMultilineToken(token) {
        var fold := Fold(token, token, autofoldComments && token.kind == MultiComment);
        AddFold(doc, fold, pending, pendingCollapsed, base, done);
        done' := done + [fold];
      } else {
        assert done + [] == done;
      }
    }

    /**
     * The turn of the token loop on a line comment: find the last comment of the
     * run and fold the run when it spans lines. found is false when the run
     * reaches the end of the list.
     */
    method FoldCommentRun(doc: string, tokens: seq<Token>, i: nat, autofoldComments: bool,
                          ghost pending: map<Annotation, Position>, ghost pendingCollapsed: set<Annotation>,
                          ghost base: nat, ghost done: seq<Fold>)
      returns (found: bool, next: nat, ghost done': seq<Fold>)
      requires i < |tokens| && tokens[i].kind == LineComment
      requires Valid() && Tracks(doc, pending, pendingCollapsed, base, done)
      modifies this
      ensures Valid() && firstTime == old(firstTime) && oldAnnotations == old(oldAnnotations)
      ensures Tracks(doc, pending, pendingCollapsed, base, done')
      ensures found ==> i < next <= |tokens|
      ensures found ==> Prepend(done', ScanTokens(tokens, next, autofoldComments))
                        == Prepend(done, ScanTokens(tokens, i, autofoldComments))
      ensures !found ==> ScanResult(done', false) == Prepend(done, ScanTokens(tokens, i, autofoldComments))
    {
      done' := done;
      var token := tokens[i];
      next := i + 1;
      var last;
      found, last := CommentRunEnd(tokens, i);
      CommentRunScan(tokens, i, autofoldComments, done);
      if !found {
        return;
      }
      var until := tokens[last];
      if until.line > token.line {
        var fold := Fold(token, until, autofoldComments);
        AddFold(doc, fold, pending, pendingCollapsed, base, done);
        done' := done + [fold];
      } else {
        assert done + [] == done;
      }
      next := last + 1;
    }

    /** makeAnnotation for one fold request, then markCollapsed if it asks for it. */
    method AddFold(doc: string, f: Fold, ghost pending: map<Annotation, Position>,
                   ghost pendingCollapsed: set<Annotation>, ghost base: nat, ghost done: seq<Fold>)
      requires Valid() && Tracks(doc, pending, pendingCollapsed, base, done)
      modifies this
      ensures Valid() && firstTime == old(firstTime) && oldAnnotations == old(oldAnnotations)
      ensures Tracks(doc, pending, pendingCollapsed, base, done + [f])
    {
      ghost var made := old(newAnnotations);
      var ann := MakeAnnotation(doc, f.first.startIndex, SpanLength(f.first, f.last));
      if f.collapse {
        collapsed := collapsed + {ann};
      }
      AppendFold(doc, done, f, base);
      UnionUpdate(pending, Installed(doc, done, base), ann, FoldPosition(doc, f));
      assert newAnnotations == made[ann := FoldPosition(doc, f)];
    }

    /** The visitor over the AST nodes that fold (import lists, bodies, named arguments, module descriptors). */
    method FoldNodes(doc: string, nodes: seq<AstNode>, autofoldImports: bool,
                     ghost pending: map<Annotation, Position>, ghost pendingCollapsed: set<Annotation>,
                     ghost base: nat, ghost before: seq<Fold>)
      requires Valid() && Tracks(doc, pending, pendingCollapsed, base, before)
      modifies this
      ensures Valid() && firstTime == old(firstTime) && oldAnnotations == old(oldAnnotations)
      ensures Tracks(doc, pending, pendingCollapsed, base, before + NodeFolds(nodes, autofoldImports))
    {
      ghost var ft, installed := firstTime, oldAnnotations;
      assert before + NodeFolds(nodes[..0], autofoldImports) == before;
      var n := 0;
      while n < |nodes|
        invariant 0 <= n <= |nodes|
        invariant Valid() && firstTime == ft && oldAnnotations == installed
        invariant Tracks(doc, pending, pendingCollapsed, base, before + NodeFolds(nodes[..n], autofoldImports))
      {
        NodeFoldsSnoc(before, nodes, n, autofoldImports);
        ghost var done := FoldNode(doc, nodes[n], autofoldImports, pending, pendingCollapsed, base,
                                   before + NodeFolds(nodes[..n], autofoldImports));
        n := n + 1;
      }
      assert nodes[..n] == nodes;
    }

    /** foldIfNecessary(Node) for one visited node. */
    method FoldNode(doc: string, node: AstNode, autofoldImports: bool,
                    ghost pending: map<Annotation, Position>, ghost pendingCollapsed: set<Annotation>,
                    ghost base: nat, ghost done: seq<Fold>)
      returns (ghost done': seq<Fold>)
      requires Valid() && Tracks(doc, pending, pendingCollapsed, base, done)
      modifies this
      ensures Valid() && firstTime == old(firstTime) && oldAnnotations == old(oldAnnotations)
      ensures done' == done + NodeFold(node, autofoldImports)
      ensures Tracks(doc, pending, pendingCollapsed, base, done')
    {
      var fs := NodeFold(node, autofoldImports);
      if |fs| == 1 {
        AddFold(doc, fs[0], pending, pendingCollapsed, base, done);
        done' := done + [fs[0]];
        assert fs == [fs[0]];
      } else {
        done' := done;
        assert fs == [];
      }
    }

    /**
     * The second half of updateFoldingStructure: compute the difference, install it
     * in the "old" map and clear the "new" map.
     */
    method Reconcile() returns (d: Delta)
      requires Valid()
      modifies this
      ensures Valid()
      ensures d == Delta(Deletions(old(oldAnnotations), old(newAnnotations)),
                         Additions(old(oldAnnotations), old(newAnnotations)))
      ensures oldAnnotations == Reconciled(old(oldAnnotations), old(newAnnotations))
      ensures newAnnotations == map[]
      ensures firstTime == old(firstTime) && collapsed == old(collapsed) && nextAnnotation == old(nextAnnotation)
    {
      var deletions, additions := ComputeDelta(oldAnnotations, newAnnotations);
      oldAnnotations := oldAnnotations - deletions;
      oldAnnotations := oldAnnotations + additions;
      newAnnotations := map[];
      d := Delta(deletions, additions);
    }

    /**
     * updateFoldingStructure. Without an AST or an annotation model nothing changes.
     * Otherwise the regions are computed; if that completes, the difference with the
     * installed annotations is sent (the result) and installed. If it throws, the
     * exception is swallowed and nothing is sent.
     */
    method UpdateFoldingStructure(hasAst: bool, hasModel: bool, doc: string, tokens: seq<Token>,
                                  nodes: seq<AstNode>, prefAutofoldImports: bool, prefAutofoldComments: bool)
      returns (sent: Option<Delta>)
      requires Valid()
      modifies this
      ensures Valid()
      ensures !(hasAst && hasModel) ==> sent == None && unchanged(this)
      ensures hasAst && hasModel ==>
                var r := AllFolds(tokens, nodes, old(firstTime) && prefAutofoldImports,
                                  old(firstTime) && prefAutofoldComments);
                var computed := old(newAnnotations) + Installed(doc, r.folds, old(nextAnnotation));
                && !firstTime
                && (r.complete ==>
                      && sent == Some(Delta(Deletions(old(oldAnnotations), computed),
                                            Additions(old(oldAnnotations), computed)))
                      && oldAnnotations == Reconciled(old(oldAnnotations), computed)
                      && newAnnotations == map[])
                && (!r.complete ==>
                      && sent == None
                      && oldAnnotations == old(oldAnnotations)
                      && newAnnotations == computed)
    {
      if !(hasAst && hasModel) {
        return None;
      }
      var ok := SendVisitorToAST(doc, tokens, nodes, prefAutofoldImports, prefAutofoldComments);
      if !ok {
        return None;
      }
      var d := Reconcile();
      sent := Some(d);
    }
  }

  /** Updating a union at a key is updating its right operand there. */
  lemma UnionUpdate<K, V>(left: map<K, V>, right: map<K, V>, k: K, v: V)
    ensures (left + right)[k := v] == left + right[k := v]
  {
  }

  /** Installing one more fold request extends the maps by the next identity. */
  lemma AppendFold(doc: string, done: seq<Fold>, f: Fold, base: nat)
    ensures Installed(doc, done + [f], base) == Installed(doc, done, base)[base + |done| := FoldPosition(doc, f)]
    ensures CollapsedIds(done + [f], base) == CollapsedIds(done, base) + (if f.collapse then {base + |done|} else {})
  {
    assert (done + [f])[..|done|] == done;
  }
}
