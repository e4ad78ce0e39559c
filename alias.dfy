/**
 * The "Introduce Type Alias" refactoring: it checks the alias name the user
 * typed, renames every reference to the aliased type, and inserts an alias
 * declaration before the top-level statement holding the selection,
 * remembering where the alias name lies inside the inserted text.
 *
 * The type model is an input: the aliased type's declaration, the text the
 * typechecker prints for the type and its parameters, and the references
 * the typechecker found to it.
 */
module Alias {
  import opened TextUtil

  /** A refactoring status: OK, or an error with its message. */
  datatype Status = Ok | Error(message: string)

  // ---------------------------------------------------------------------
  // checkFinalConditions
  // ---------------------------------------------------------------------

  /** A character of the regular-expression class \w (ASCII letters, digits, underscore). */
  predicate IsWordChar(c: char) { IsAsciiLetter(c) || IsAsciiDigit(c) || c == '_' }

  /** The whole name matches ^[a-zA-Z_]\w*$. */
  predicate IsLegalIdentifier(n: string) {
    |n| > 0 && (IsAsciiLetter(n[0]) || n[0] == '_') && forall k :: 1 <= k < |n| ==> IsWordChar(n[k])
  }

  /**
   * checkFinalConditions. A missing name or one that is not an identifier is
   * illegal; then a keyword is refused; then a name that does not start with an
   * upper-case letter. The keyword list belongs to the language and is an input.
   */
  function CheckFinalConditions(newName: Option<string>, keywords: set<string>): (s: Status)
    ensures s.Ok? <==> newName.Some? && IsLegalIdentifier(newName.value)
                       && newName.value !in keywords && 'A' <= newName.value[0] <= 'Z'
    ensures (newName.None? || !IsLegalIdentifier(newName.value)) ==>
              s == Error("Not a legal Ceylon identifier")
    ensures newName.Some? && IsLegalIdentifier(newName.value) && newName.value in keywords ==>
              s == Error("'" + newName.value + "' is a Ceylon keyword")
    ensures newName.Some? && IsLegalIdentifier(newName.value) && newName.value !in keywords
            && !('A' <= newName.value[0] <= 'Z') ==>
              s == Error("Not an initial uppercase identifier")
  {
    if newName.None? || !IsLegalIdentifier(newName.value) then Error("Not a legal Ceylon identifier")
    else if newName.value in keywords then Error("'" + newName.value + "' is a Ceylon keyword")
    else if !('A' <= newName.value[0] <= 'Z') then Error("Not an initial uppercase identifier")
    else Ok
  }

  /** A name the check accepts is an identifier whose first character is an upper-case letter, never '_'. */
  lemma AcceptedNameStartsUpper(newName: Option<string>, keywords: set<string>)
    requires CheckFinalConditions(newName, keywords).Ok?
    ensures newName.Some? && |newName.value| > 0 && IsAsciiLetter(newName.value[0])
    ensures newName.value[0] != '_' && newName.value !in keywords
    ensures forall k :: 0 <= k < |newName.value| ==> IsWordChar(newName.value[k])
  {
  }

  // ---------------------------------------------------------------------
  // The aliased type's declaration
  // ---------------------------------------------------------------------

  datatype DeclKind = ClassDecl | InterfaceDecl | OtherTypeDecl

  /** A parameter of the aliased class: its type as the typechecker prints it, and its name. */
  datatype Param = Param(typeText: string, name: string)

  /** The declaration of the aliased type; `params` is None when the class has no parameter list. */
  datatype TypeDecl = TypeDecl(kind: DeclKind, isShared: bool, isTuple: bool, params: Option<seq<Param>>)

  /** isClassWithParameters: a class, not a tuple, with a parameter list. */
  predicate IsClassWithParameters(td: TypeDecl) {
    td.kind == ClassDecl && !td.isTuple && td.params.Some?
  }

  /**
   * The alias is a class alias, with the parameter declarations in its header and
   * the parameter names passed on, exactly when the type is a class, not a tuple,
   * with a parameter list; any other alias has neither list.
   */
  lemma ClassAliasExactlyForClassWithParameters(td: TypeDecl)
    ensures Keyword(td) == "class " <==> td.kind == ClassDecl && !td.isTuple && td.params.Some?
    ensures |HeaderTail(td)| > 0 <==> td.kind == ClassDecl && !td.isTuple && td.params.Some?
    ensures |Args(td)| > 0 <==> td.kind == ClassDecl && !td.isTuple && td.params.Some?
  {
  }

  /** The "type name" declarations of the parameters, in order. */
  function ParamDecls(ps: seq<Param>): (r: seq<string>)
    ensures |r| == |ps|
  {
    if |ps| == 0 then [] else ParamDecls(ps[..|ps| - 1]) + [ps[|ps| - 1].typeText + " " + ps[|ps| - 1].name]
  }

  /** The parameter names, in order. */
  function ParamNames(ps: seq<Param>): (r: seq<string>)
    ensures |r| == |ps|
  {
    if |ps| == 0 then [] else ParamNames(ps[..|ps| - 1]) + [ps[|ps| - 1].name]
  }

  /**
   * The header and the arguments list the parameters in the same order: the k-th
   * declaration is the k-th parameter's type, a space and the k-th argument.
   */
  lemma {:induction false} ParamDeclsMatchNames(ps: seq<Param>)
    ensures |ParamDecls(ps)| == |ParamNames(ps)| == |ps|
    ensures forall k :: 0 <= k < |ps| ==>
              ParamNames(ps)[k] == ps[k].name && ParamDecls(ps)[k] == ps[k].typeText + " " + ParamNames(ps)[k]
  {
    if |ps| > 0 {
      ParamDeclsMatchNames(ps[..|ps| - 1]);
    }
  }

  /** One more parameter adds one declaration and one name at the end. */
  lemma ParamsSnoc(ps: seq<Param>, n: nat)
    requires n < |ps|
    ensures ParamDecls(ps[..n + 1]) == ParamDecls(ps[..n]) + [ps[n].typeText + " " + ps[n].name]
    ensures ParamNames(ps[..n + 1]) == ParamNames(ps[..n]) + [ps[n].name]
  {
    assert ps[..n + 1][..n] == ps[..n];
  }

  /**
   * The parameter loop of refactorInFile: both buffers get ", " before every
   * parameter but the first; the header gets "type name", the arguments the name.
   */
  method ParameterLists(ps: seq<Param>) returns (header: string, args: string)
    ensures header == Join(ParamDecls(ps), ", ")
    ensures args == Join(ParamNames(ps), ", ")
  {
    header, args := "", "";
    var first := true;
    var n := 0;
    while n < |ps|
      invariant 0 <= n <= |ps|
      invariant first <==> n == 0
      invariant header == Join(ParamDecls(ps[..n]), ", ")
      invariant args == Join(ParamNames(ps[..n]), ", ")
    {
      var p := ps[n];
      ghost var decl := p.typeText + " " + p.name;
      ParamsSnoc(ps, n);
      if first {
        first := false;
        assert ParamDecls(ps[..n + 1]) == [decl] && ParamNames(ps[..n + 1]) == [p.name];
        header := header + p.typeText + " " + p.name;
        args := args + p.name;
      } else {
        header := header + ", ";
        args := args + ", ";
        JoinSnoc(ParamDecls(ps[..n]), decl, ", ");
        JoinSnoc(ParamNames(ps[..n]), p.name, ", ");
        header := header + p.typeText + " " + p.name;
        args := args + p.name;
        assert header == Join(ParamDecls(ps[..n]), ", ") + ", " + decl;
      }
      n := n + 1;
    }
    assert ps[..n] == ps;
  }

  // ---------------------------------------------------------------------
  // The inserted alias declaration
  // ---------------------------------------------------------------------

  /** The keyword of the alias declaration. */
  function Keyword(td: TypeDecl): string {
    if IsClassWithParameters(td) then "class " else if td.kind == InterfaceDecl then "interface " else "alias "
  }

  /** What precedes the alias name in the header: optional "shared ", then the keyword. */
  function HeaderPrefix(td: TypeDecl): string {
    (if td.isShared then "shared " else "") + Keyword(td)
  }

  /** What follows the alias name in the header: the parameter list of a class alias, or nothing. */
  function HeaderTail(td: TypeDecl): string {
    if IsClassWithParameters(td) then "(" + Join(ParamDecls(td.params.value), ", ") + ")" else ""
  }

  /** The declaration header: a class alias with parameters, an interface alias or a plain alias. */
  function Header(td: TypeDecl, name: string): string {
    HeaderPrefix(td) + name + HeaderTail(td)
  }

  /** The arguments passed to the aliased class, or nothing. */
  function Args(td: TypeDecl): string {
    if IsClassWithParameters(td) then "(" + Join(ParamNames(td.params.value), ", ") + ")" else ""
  }

  /** The inserted text: header, a line holding "=> type(args);" indented twice, and a blank line. */
  function AliasText(td: TypeDecl, name: string, typeText: string, delim: string, indent: string): string {
    Header(td, name) + Specifier(td, typeText, delim, indent)
  }

  /** What follows the header: the line break, the indented `=> Type(args);` and two line breaks. */
  function Specifier(td: TypeDecl, typeText: string, delim: string, indent: string): string {
    delim + indent + indent + "=> " + typeText + Args(td) + ";" + delim + delim
  }

  /** Where the alias name starts inside the inserted text. */
  function NameOffset(td: TypeDecl): nat {
    (if td.isShared then 7 else 0)
    + (if IsClassWithParameters(td) then 6 else if td.kind == InterfaceDecl then 10 else 6)
  }

  /** The alias name sits at NameOffset in the inserted text. */
  lemma NameInAliasText(td: TypeDecl, name: string, typeText: string, delim: string, indent: string)
    ensures NameOffset(td) + |name| <= |AliasText(td, name, typeText, delim, indent)|
    ensures AliasText(td, name, typeText, delim, indent)[NameOffset(td)..NameOffset(td) + |name|] == name
  {
    var rest := Specifier(td, typeText, delim, indent);
    PrefixLength(td);
    ConcatAssoc(HeaderPrefix(td) + name, HeaderTail(td), rest);
    MiddleSlice(HeaderPrefix(td), name, HeaderTail(td) + rest);
  }

  /** The name offset is the length of what precedes the name. */
  lemma PrefixLength(td: TypeDecl)
    ensures |HeaderPrefix(td)| == NameOffset(td)
  {
  }

  lemma ConcatAssoc(a: string, b: string, c: string)
    ensures a + b + c == a + (b + c)
  {
  }

  /** In a + b + c, the characters from |a| to |a|+|b| are b. */
  lemma MiddleSlice(a: string, b: string, c: string)
    ensures (a + b + c)[|a|..|a| + |b|] == b
  {
  }

  /** insertLoc: the start of the enclosing top-level statement, or the end of the document. */
  function InsertLocation(docLength: nat, statementStart: Option<nat>): nat {
    match statementStart
    case None => docLength
    case Some(s) => s
  }

  /**
   * Once the host inserts the alias text at insertLoc, the alias name lies at
   * insertLoc + NameOffset, which is the aliasOffset the refactoring records.
   */
  lemma NameAtAliasOffset(doc: string, loc: nat, td: TypeDecl, name: string, typeText: string,
                          delim: string, indent: string)
    requires loc <= |doc|
    ensures var after := ApplyEdit(doc, Insert(loc, AliasText(td, name, typeText, delim, indent)));
            && loc + NameOffset(td) + |name| <= |after|
            && after[loc + NameOffset(td)..loc + NameOffset(td) + |name|] == name
  {
    NameInAliasText(td, name, typeText, delim, indent);
    InsertedSlice(doc, loc, AliasText(td, name, typeText, delim, indent), NameOffset(td), NameOffset(td) + |name|);
  }

  /** After inserting a text, a slice of it is found shifted by the insertion point. */
  lemma InsertedSlice(doc: string, loc: nat, text: string, i: nat, j: nat)
    requires loc <= |doc| && i <= j <= |text|
    ensures var after := ApplyEdit(doc, Insert(loc, text));
            && loc + j <= |after|
            && after[loc + i..loc + j] == text[i..j]
  {
    var after := ApplyEdit(doc, Insert(loc, text));
    assert after == doc[..loc] + text + doc[loc..];
    assert after[loc..loc + |text|] == text;
  }

  // ---------------------------------------------------------------------
  // Renaming references
  // ---------------------------------------------------------------------

  /** A reference to the aliased type: its start offset and its length. */
  datatype NodeSpan = NodeSpan(startIndex: int, distance: int)

  /** renameNode: replace the reference's span by the new name. */
  function RenameNode(node: NodeSpan, newName: string): Edit {
    Edit(node.startIndex, node.distance, newName)
  }

  /** The edit replaces exactly the span [start, start+distance) and keeps the rest of the document. */
  lemma RenameNodeReplacesSpan(doc: string, node: NodeSpan, newName: string)
    requires InRange(doc, RenameNode(node, newName))
    ensures var after := ApplyEdit(doc, RenameNode(node, newName));
            var s := node.startIndex;
            && after[..s] == doc[..s]
            && after[s..s + |newName|] == newName
            && after[s + |newName|..] == doc[s + node.distance..]
  {
    ApplyEditSplices(doc, RenameNode(node, newName));
  }

  function RenameEdits(nodes: seq<NodeSpan>, newName: string): (r: seq<Edit>)
    ensures |r| == |nodes|
    ensures forall k :: 0 <= k < |nodes| ==> r[k] == RenameNode(nodes[k], newName)
  {
    if |nodes| == 0 then [] else RenameEdits(nodes[..|nodes| - 1], newName) + [RenameNode(nodes[|nodes| - 1], newName)]
  }

  // ---------------------------------------------------------------------
  // The refactoring object
  // ---------------------------------------------------------------------

  class AliasRefactoring {
    /** The name typed by the user; None until one is set. */
    var newName: Option<string>
    /** The source text of the selected type. */
    var typeString: string
    /** A type was selected and the typechecker knows it. */
    var hasType: bool
    var hasProject: bool
    var aliasOffset: int
    var insertedLength: int
    var insertedLocation: int

    /**
     * The constructor: a type is known only when the editor has a compilation unit,
     * the selected node is a type and the typechecker gave it a model.
     */
    constructor (hasRoot: bool, selectedType: Option<string>, typeModelKnown: bool, projectKnown: bool)
      ensures hasType <==> hasRoot && selectedType.Some? && typeModelKnown
      ensures hasRoot && selectedType.Some? ==> typeString == selectedType.value
      ensures newName == None && hasProject == projectKnown
      ensures aliasOffset == 0 && insertedLength == 0 && insertedLocation == 0
    {
      newName := None;
      typeString := if hasRoot && selectedType.Some? then selectedType.value else "";
      hasType := hasRoot && selectedType.Some? && typeModelKnown;
      hasProject := projectKnown;
      aliasOffset, insertedLength, insertedLocation := 0, 0, 0;
    }

    /**
     * getEnabled: a type and a project are known. With a project, the refactoring
     * is enabled exactly when getCount reports the occurrences it is given.
     */
    predicate Enabled()
      reads this
      ensures Enabled() ==> forall k: nat :: Count(k) == k
      ensures !Enabled() && hasProject ==> forall k: nat :: Count(k) == 0
    {
      hasType && hasProject
    }

    /** getCount: the occurrences counted in the workspace, or 0 without a type. */
    function Count(occurrences: nat): (r: nat)
      reads this
      ensures r <= occurrences
      ensures !hasType ==> r == 0
      ensures hasType ==> r == occurrences
    {
      if hasType then occurrences else 0
    }

    /** getInitialName: the new name once set, the type's own text before. */
    function InitialName(): (r: string)
      reads this
      ensures newName.Some? ==> r == newName.value
      ensures newName.None? ==> r == typeString
    {
      match newName
      case None => typeString
      case Some(n) => n
    }

    /** setNewName: afterwards the initial name is the name set. */
    method SetNewName(text: string)
      modifies this
      ensures newName == Some(text) && InitialName() == text
      ensures typeString == old(typeString) && hasType == old(hasType) && hasProject == old(hasProject)
      ensures aliasOffset == old(aliasOffset) && insertedLength == old(insertedLength)
      ensures insertedLocation == old(insertedLocation)
    {
      newName := Some(text);
    }

    /**
     * refactorInFile for one compilation unit. Nothing happens without a type or
     * outside the editor's package. In the package, every reference is renamed once
     * a name is set; in the editor's own file the alias declaration is inserted at
     * insertLoc and aliasOffset, insertedLength and insertedLocation are recorded.
     * `edits` are the edits of the file's change; `added` says whether the change
     * was added to the composite change, which happens only when it has edits.
     */
    method RefactorInFile(samePackage: bool, sameFile: bool, references: seq<NodeSpan>, td: TypeDecl,
                          typeText: string, statementStart: Option<nat>, docLength: nat,
                          delim: string, indent: string, hasComposite: bool)
      returns (edits: seq<Edit>, added: bool)
      modifies this
      ensures var renames := if newName.Some? then RenameEdits(references, newName.value) else [];
              var loc := InsertLocation(docLength, statementStart);
              var text := AliasText(td, InitialName(), typeText, delim, indent);
              edits == if hasType && samePackage
                       then renames + (if sameFile then [Insert(loc, text)] else [])
                       else []
      ensures added <==> hasComposite && |edits| > 0
      ensures hasType && samePackage && sameFile ==>
                var loc := InsertLocation(docLength, statementStart);
                && aliasOffset == loc + NameOffset(td)
                && insertedLength == |AliasText(td, InitialName(), typeText, delim, indent)|
                && insertedLocation == loc
      ensures !(hasType && samePackage && sameFile) ==>
                aliasOffset == old(aliasOffset) && insertedLength == old(insertedLength)
                && insertedLocation == old(insertedLocation)
      ensures newName == old(newName) && typeString == old(typeString)
      ensures hasType == old(hasType) && hasProject == old(hasProject)
    {
      edits := [];
      if hasType && samePackage {
        if newName.Some? {
          var n := 0;
          while n < |references|
            invariant 0 <= n <= |references|
            invariant edits == RenameEdits(references[..n], newName.value)
          {
            assert references[..n + 1][..n] == references[..n];
            edits := edits + [RenameNode(references[n], newName.value)];
            n := n + 1;
          }
          assert references[..n] == references;
        }
        if sameFile {
          var insertLoc := InsertLocation(docLength, statementStart);
          var text, offset := BuildAlias(td, InitialName(), typeText, delim, indent);
          aliasOffset := insertLoc + offset;
          insertedLength := |text|;
          insertedLocation := insertLoc;
          edits := edits + [Insert(insertLoc, text)];
        }
      }
      added := hasComposite && |edits| > 0;
    }
  }

  /**
   * The alias text built by refactorInFile in its buffers, and how far aliasOffset
   * advances past insertLoc while the header is built.
   */
  method BuildAlias(td: TypeDecl, initialName: string, typeText: string, delim: string, indent: string)
    returns (text: string, offset: nat)
    ensures text == AliasText(td, initialName, typeText, delim, indent)
    ensures offset == NameOffset(td)
  {
    offset := 0;
    var shared := "";
    if td.isShared {
      shared := "shared ";
      offset := offset + 7;
    }
    var keyword, tail, args := "", "", "";
    if IsClassWithParameters(td) {
      offset := offset + 6;
      var decls, names := ParameterLists(td.params.value);
      keyword, tail, args := "class ", "(" + decls + ")", "(" + names + ")";
    } else if td.kind == InterfaceDecl {
      offset := offset + 10;
      keyword := "interface ";
    } else {
      offset := offset + 6;
      keyword := "alias ";
    }
    var header := shared + keyword + initialName + tail;
    var specifier := delim + indent + indent + "=> " + typeText + args + ";" + delim + delim;
    text := header + specifier;
  }
}
