# Ceylon IDE for Eclipse: editor services, refactorings and quick fixes

This project models the editor-side logic of the Ceylon plugin for Eclipse
in Dafny and proves properties of it. The model covers these parts:

- **Folding** (`folding.dfy`, module `Folding`). The folding updater finds
  foldable regions. These are multi-line comments and string tokens, runs of
  line comments, import lists, bodies, named argument lists and module
  descriptors. Each region is extended to the end of its line. The updater
  keeps them as projection annotations and installs only the difference
  between the regions already installed and the regions just computed.
- **Alias refactoring** (`alias.dfy`, module `Alias`). This covers name
  validation, the text of the inserted `alias`, `class` or `interface`
  declaration, the offset of the new name in that text, and the rename edits.
- **Version linked mode** (`version_linked_mode.dfy`, module
  `VersionLinkedMode`). Editing a module version in an import is meant to
  link the versions of the imports of the same module. This covers which
  imports get a linked position, how the positions are computed and
  numbered, and the start/done logic of the mode.
- **Outline labels and images** (`label_provider.dfy`, module
  `LabelProvider`). Labels look like `class Foo<A, B>(T x, U y)`. An image is
  chosen by the kind of declaration and its visibility, and a file's image
  by its worst problem severity.
- **Then/else to if/else** (`then_else_to_if_else.dfy`, module
  `ThenElseToIfElse`). This quick fix rewrites `x then y else z`,
  `x else y` and `if (c) then a else b` into an `if`/`else` statement. It
  applies to a `return`, an assignment, a specification, or an attribute
  declaration.
- **Rename participant for Java members** (`rename_java_element.dfy`, module
  `RenameJavaElement`). When a Java member is renamed, the participant
  builds qualified names and picks the Ceylon references to rename. It also
  picks documentation links in string literals, and groups the edits by file.
- **Assign to try** (`assign_to_try.dfy`, module `AssignToTry`). This quick
  fix turns `e;` into `try (name = e) {}`.
- **Module imports table** (`module_properties.dfy`, module
  `ModuleProperties`). The table is shown on a module's property page. The
  page toggles the shared column and removes rows, and it never touches the
  language module `ceylon.language`.
- **Import member blocks** (`import_members.dfy`, module `ImportMembers`).
  This is the `{`, indented members, `}` block written for an import.
  `ImportProposals` itself is not part of this model. The block's format is
  the one the unit tests in `ImportProposalTests` fix.

`text_util.dfy` (module `TextUtil`) holds the shared vocabulary:

- `Option`, which stands for null values and swallowed exceptions.
- Text edits as (offset, length, text) triples, and how the host applies one.
- Joining lists of strings, and ASCII character classes.

Documents and token texts are `seq<char>`. Java counts offsets and lengths
in UTF-16 code units, while a Dafny `char` is one Unicode scalar value. The
two agree on text without characters outside the Basic Multilingual Plane. Judgements of the Ceylon
typechecker are inputs of the model. These include types, declarations,
keywords, whether a type is usable, and the text of a type. A document line
delimiter and an indent are inputs too.

The model follows the code in these places:

- The eq of the version linked mode compares every identifier of a visited
  import path with the *first* identifier of the edited path. That is what
  the code does, and `VersionLinkedMode.EqAsWrittenMeaning` states what this
  means. Identifiers are compared by their text and their start offset, the
  model's stand-in for the identity of tree nodes. Identifiers of two
  different imports therefore never compare equal. In effect only the edited
  import itself gets a linked position, and only when its module name is a
  single identifier.
- `isMultilineToken` asks whether the *first* `\n` (or the first `\r`)
  occurs after index 0. A text that starts with `\n` therefore never counts
  through `\n`, however many more it holds: it counts only when a `\r`
  occurs after index 0, and the same holds the other way round (`"\nfoo\nbar"`
  does not count, `"\nfoo\rbar"` does).
- In the line-comment scan of the folding updater, a run of comments and
  white space that reaches the end of the token list reads past the end.
  The resulting exception is caught by `updateFoldingStructure`, which
  prints it. The model keeps that path: the scan reports that it did not
  complete, and the update then skips the reconciliation.
- `removeEnclosingParentesis` reads the first character of the test text.
  An empty test therefore throws an uncaught index exception.
  `ThenElseToIfElse.Convert` returns `Thrown` for it.

## Model

| member | source | states |
|---|---|---|
| Folding.AbsorbedProperties | plugins/com.redhat.ceylon.eclipse.ui/src/com/redhat/ceylon/eclipse/code/editor/FoldingUpdater.java:97-102 | The characters the loop absorbs are white space on the line of the starting offset. The loop stops at the document end, at a non-white character or at a new line. |
| Folding.ExtendedLengthProperties | plugins/com.redhat.ceylon.eclipse.ui/src/com/redhat/ceylon/eclipse/code/editor/FoldingUpdater.java:94-108 | advanceToEndOfLine never shrinks the length and never passes the document end. It absorbs only white space on the line of start+len, and it keeps the length when that offset is outside the document (BadLocationException). |
| Folding.AdvanceToEndOfLine | plugins/com.redhat.ceylon.eclipse.ui/src/com/redhat/ceylon/eclipse/code/editor/FoldingUpdater.java:94-108 | The loop returns the extended length described by ExtendedLengthProperties. |
| Folding.IsMultilineToken | plugins/com.redhat.ceylon.eclipse.ui/src/com/redhat/ceylon/eclipse/code/editor/FoldingUpdater.java:358-361 | A token is multi-line exactly when the text has a `\n` and does not start with one, or has a `\r` and does not start with one. |
| Folding.RunEndProperties | plugins/com.redhat.ceylon.eclipse.ui/src/com/redhat/ceylon/eclipse/code/editor/FoldingUpdater.java:284-294 | The inner loop skips LINE_COMMENT and WS tokens. It stops on the last LINE_COMMENT of the run, which is followed only by WS before a token of another kind. When no such token follows, it runs off the end of the list. |
| Folding.CommentRunProperties | plugins/com.redhat.ceylon.eclipse.ui/src/com/redhat/ceylon/eclipse/code/editor/FoldingUpdater.java:283-299 | Consecutive line comments separated only by white space form one run. The run ends at its last comment, and the scan index moves to that comment. |
| Folding.CommentRunEnd | plugins/com.redhat.ceylon.eclipse.ui/src/com/redhat/ceylon/eclipse/code/editor/FoldingUpdater.java:284-294 | The loop finds the last comment of the run exactly when the run does not reach the end of the list. |
| Folding.ScanFoldCount | plugins/com.redhat.ceylon.eclipse.ui/src/com/redhat/ceylon/eclipse/code/editor/FoldingUpdater.java:268-300 | The token scan asks for at most one fold per token it has left. |
| Folding.ScanCompleteWithoutLineComments | plugins/com.redhat.ceylon.eclipse.ui/src/com/redhat/ceylon/eclipse/code/editor/FoldingUpdater.java:268-300 | Only a run of line comments that reaches the end of the tokens leaves the scan incomplete: without a line comment from the current token on, the scan completes. |
| Folding.SingleTokenScan | plugins/com.redhat.ceylon.eclipse.ui/src/com/redhat/ceylon/eclipse/code/editor/FoldingUpdater.java:271-282 | At a multi-line comment or string token, the scan adds that token's fold, collapsed only for a comment when comments fold automatically. Any other foldable token adds nothing. |
| Folding.CommentRunScan | plugins/com.redhat.ceylon.eclipse.ui/src/com/redhat/ceylon/eclipse/code/editor/FoldingUpdater.java:283-299 | At a line comment, a run that reaches the end stops the scan incomplete. Otherwise the run adds its fold when its last comment lies on a later line, and the scan goes on after the run. |
| Folding.ScanFoldsSpanLines | plugins/com.redhat.ceylon.eclipse.ui/src/com/redhat/ceylon/eclipse/code/editor/FoldingUpdater.java:268-300 | Every fold from the token scan is one of two kinds. It is a single multi-line comment or string token. Or it is a run of line comments whose last comment lies on a strictly later line than its first (foldIfNecessary at lines 349-356). |
| Folding.NodeFoldSpansLines | plugins/com.redhat.ceylon.eclipse.ui/src/com/redhat/ceylon/eclipse/code/editor/FoldingUpdater.java:338-347 | A node fold exists only when the end token's line is after the start token's line, and then it always exists. Only an import list is collapsed, and only when imports are folded automatically (lines 306-310). |
| Folding.NodeFoldsSpanLines | plugins/com.redhat.ceylon.eclipse.ui/src/com/redhat/ceylon/eclipse/code/editor/FoldingUpdater.java:302-335 | Every fold from the AST visit spans lines. It is collapsed only when automatic folding of imports is on. |
| Folding.InstalledOnePerFold | plugins/com.redhat.ceylon.eclipse.ui/src/com/redhat/ceylon/eclipse/code/editor/FoldingUpdater.java:87-92 | Every fold gets exactly one new annotation. They are numbered consecutively in fold order, and each sits at its fold's extended position. |
| Folding.AppendFold | plugins/com.redhat.ceylon.eclipse.ui/src/com/redhat/ceylon/eclipse/code/editor/FoldingUpdater.java:363-366 | One more fold adds one annotation. Its position runs from the first token's start to the last token's stop plus one, extended to the end of the line. It is collapsed only when requested. |
| Folding.ReconcileInstallsComputed | plugins/com.redhat.ceylon.eclipse.ui/src/com/redhat/ceylon/eclipse/code/editor/FoldingUpdater.java:182-203 | After the update, the installed positions are exactly the computed ones. Every old annotation that is not deleted keeps its position. A deleted annotation's position is not among the additions. |
| Folding.ReconcileStable | plugins/com.redhat.ceylon.eclipse.ui/src/com/redhat/ceylon/eclipse/code/editor/FoldingUpdater.java:182-193 | When the computed positions equal the installed ones, nothing is deleted and nothing is added. |
| Folding.ComputeDelta | plugins/com.redhat.ceylon.eclipse.ui/src/com/redhat/ceylon/eclipse/code/editor/FoldingUpdater.java:182-193 | The deletions are the old annotations whose position is not among the new positions. The additions are the new annotations whose position is not among the old positions. |
| Folding.FoldingUpdater.constructor | plugins/com.redhat.ceylon.eclipse.ui/src/com/redhat/ceylon/eclipse/code/editor/FoldingUpdater.java:253-263 | An updater starts with empty maps, and its first update reads the autofold preferences. |
| Folding.FoldingUpdater.MakeAnnotation | plugins/com.redhat.ceylon.eclipse.ui/src/com/redhat/ceylon/eclipse/code/editor/FoldingUpdater.java:87-92 | A fresh annotation is put into the new annotations. Its position is the start and the extended length. Nothing else changes. |
| Folding.FoldingUpdater.FoldToken | plugins/com.redhat.ceylon.eclipse.ui/src/com/redhat/ceylon/eclipse/code/editor/FoldingUpdater.java:269-299 | One pass of the scan loop adds exactly the folds the scan specification gives for that token and moves to the next index, or it reports that the scan ran off the list. |
| Folding.FoldingUpdater.FoldTokens | plugins/com.redhat.ceylon.eclipse.ui/src/com/redhat/ceylon/eclipse/code/editor/FoldingUpdater.java:268-300 | The scan loop installs annotations for exactly the folds of the scan specification. It reports whether the scan completed. |
| Folding.FoldingUpdater.FoldSingleToken | plugins/com.redhat.ceylon.eclipse.ui/src/com/redhat/ceylon/eclipse/code/editor/FoldingUpdater.java:271-282 | A multi-line comment or string token adds exactly the fold the scan specification gives for it, and the scan goes on at the next token. |
| Folding.FoldingUpdater.FoldCommentRun | plugins/com.redhat.ceylon.eclipse.ui/src/com/redhat/ceylon/eclipse/code/editor/FoldingUpdater.java:283-299 | A run of line comments adds its fold when it spans lines, and the scan goes on after its last comment. A run that reaches the end of the list reports the scan as failed. |
| Folding.FoldingUpdater.AddFold | plugins/com.redhat.ceylon.eclipse.ui/src/com/redhat/ceylon/eclipse/code/editor/FoldingUpdater.java:349-356 | Making the annotation for one fold and marking it collapsed when asked keeps the maps in step with the folds made so far. |
| Folding.FoldingUpdater.FoldNodes | plugins/com.redhat.ceylon.eclipse.ui/src/com/redhat/ceylon/eclipse/code/editor/FoldingUpdater.java:302-335 | The visitor installs annotations for exactly the node folds, in visiting order. |
| Folding.FoldingUpdater.FoldNode | plugins/com.redhat.ceylon.eclipse.ui/src/com/redhat/ceylon/eclipse/code/editor/FoldingUpdater.java:338-347 | One visited node adds exactly its node folds to the annotations. |
| Folding.FoldingUpdater.SendVisitorToAST | plugins/com.redhat.ceylon.eclipse.ui/src/com/redhat/ceylon/eclipse/code/editor/FoldingUpdater.java:253-336 | Preferences apply only on the first call, after which firstTime is false. The new annotations gain one entry per fold, with consecutive identities, and the collapsed set gains the collapsed ones. The old annotations are untouched. |
| Folding.FoldingUpdater.Reconcile | plugins/com.redhat.ceylon.eclipse.ui/src/com/redhat/ceylon/eclipse/code/editor/FoldingUpdater.java:182-203 | The deletions and additions are handed to the model. The old map becomes old minus deletions plus additions, and the new map is emptied. |
| Folding.FoldingUpdater.UpdateFoldingStructure | plugins/com.redhat.ceylon.eclipse.ui/src/com/redhat/ceylon/eclipse/code/editor/FoldingUpdater.java:143-208 | Without an AST or an annotation model, nothing changes. Otherwise the folds are computed and, when the scan completed, reconciled against the installed annotations. When the scan failed, the exception is swallowed and the new annotations are left pending. |
| Alias.CheckFinalConditions | plugins/org.eclipse.ceylon.ide.eclipse.ui/src/org/eclipse/ceylon/ide/eclipse/code/refactor/AliasRefactoring.java:157-185 | A name is accepted exactly when it is present, matches `^[a-zA-Z_]\w*$`, is not a keyword and starts upper-case. Otherwise the first failing check gives its own message, in the code's order. |
| Alias.AcceptedNameStartsUpper | plugins/org.eclipse.ceylon.ide.eclipse.ui/src/org/eclipse/ceylon/ide/eclipse/code/refactor/AliasRefactoring.java:161-184 | An accepted name is non-empty, starts with a letter and not with `_`, holds only word characters, and is not a keyword. |
| Alias.ParamDeclsMatchNames | plugins/org.eclipse.ceylon.ide.eclipse.ui/src/org/eclipse/ceylon/ide/eclipse/code/refactor/AliasRefactoring.java:262-280 | The header's parameter declarations and the argument names correspond one to one. Each declaration is the parameter's type, a space and the same name. |
| Alias.ClassAliasExactlyForClassWithParameters | plugins/org.eclipse.ceylon.ide.eclipse.ui/src/org/eclipse/ceylon/ide/eclipse/code/refactor/AliasRefactoring.java:252-291 | isClassWithParameters (lines 86-91) decides the kind of alias. The keyword is `class`, the header has a parameter list and the type gets arguments exactly when the type is a class, not a tuple, with a parameter list. |
| Alias.ParameterLists | plugins/org.eclipse.ceylon.ide.eclipse.ui/src/org/eclipse/ceylon/ide/eclipse/code/refactor/AliasRefactoring.java:252-283 | The loop with its `first` flag produces the declarations and the names each joined by ", ", with no separator at either end. |
| Alias.NameInAliasText | plugins/org.eclipse.ceylon.ide.eclipse.ui/src/org/eclipse/ceylon/ide/eclipse/code/refactor/AliasRefactoring.java:243-302 | The alias name lies in the inserted text at the offset computed as 7 for `shared ` plus 6, 10 or 6 for the keyword. |
| Alias.NameAtAliasOffset | plugins/org.eclipse.ceylon.ide.eclipse.ui/src/org/eclipse/ceylon/ide/eclipse/code/refactor/AliasRefactoring.java:239-306 | After the text is inserted at the insert location (the top-level statement's start or the document end), the name lies at the recorded aliasOffset. |
| Alias.RenameNodeReplacesSpan | plugins/org.eclipse.ceylon.ide.eclipse.ui/src/org/eclipse/ceylon/ide/eclipse/code/refactor/AliasRefactoring.java:333-339 | A rename edit replaces exactly the node's span by the new name and keeps the rest of the document. |
| Alias.RenameEdits | plugins/org.eclipse.ceylon.ide.eclipse.ui/src/org/eclipse/ceylon/ide/eclipse/code/refactor/AliasRefactoring.java:225-229 | There is one rename edit per node to rename, in order. |
| Alias.AliasRefactoring.constructor | plugins/org.eclipse.ceylon.ide.eclipse.ui/src/org/eclipse/ceylon/ide/eclipse/code/refactor/AliasRefactoring.java:102-118 | A type is known only with a root node, a selected type node and a type model. The type's text becomes the default name. |
| Alias.AliasRefactoring.Enabled | plugins/org.eclipse.ceylon.ide.eclipse.ui/src/org/eclipse/ceylon/ide/eclipse/code/refactor/AliasRefactoring.java:121-129 | An enabled refactoring has getCount report the occurrences it counts. With a project but no type, it is disabled and getCount reports 0. |
| Alias.AliasRefactoring.Count | plugins/org.eclipse.ceylon.ide.eclipse.ui/src/org/eclipse/ceylon/ide/eclipse/code/refactor/AliasRefactoring.java:126-129 | The count is 0 without a type, and the number of occurrences otherwise. |
| Alias.AliasRefactoring.InitialName | plugins/org.eclipse.ceylon.ide.eclipse.ui/src/org/eclipse/ceylon/ide/eclipse/code/refactor/AliasRefactoring.java:320-323 | The initial name is the new name when one is set, else the type's text. |
| Alias.AliasRefactoring.SetNewName | plugins/org.eclipse.ceylon.ide.eclipse.ui/src/org/eclipse/ceylon/ide/eclipse/code/refactor/AliasRefactoring.java:349-351 | After setting a name, the initial name is that name, and nothing else changes. |
| Alias.AliasRefactoring.RefactorInFile | plugins/org.eclipse.ceylon.ide.eclipse.ui/src/org/eclipse/ceylon/ide/eclipse/code/refactor/AliasRefactoring.java:207-318 | Edits are made only with a type and in the editor's package: the renames when a name is set, then, in the editor's own file, the alias insertion. The offset, length and location are recorded only then. The change is added exactly when there is a composite and an edit. |
| Alias.BuildAlias | plugins/org.eclipse.ceylon.ide.eclipse.ui/src/org/eclipse/ceylon/ide/eclipse/code/refactor/AliasRefactoring.java:243-302 | The buffers build the alias text, and the offset builds the name's offset in it. |
| VersionLinkedMode.Eq | plugins/com.redhat.ceylon.eclipse.ui/src/com/redhat/ceylon/eclipse/code/correct/EnterVersionLinkedMode.java:70-82 | The loop returns true exactly when the paths have the same length and every identifier of y equals the first identifier of x. |
| VersionLinkedMode.EqAsWrittenMeaning | plugins/com.redhat.ceylon.eclipse.ui/src/com/redhat/ceylon/eclipse/code/correct/EnterVersionLinkedMode.java:70-82 | For one-identifier paths, eq is equality. A path is eq to itself only when all its identifiers equal its first, so a path whose second identifier differs from its first is not eq to itself. |
| VersionLinkedMode.VersionPosition | plugins/com.redhat.ceylon.eclipse.ui/src/com/redhat/ceylon/eclipse/code/correct/EnterVersionLinkedMode.java:88-91 | A version's position starts one past the quote at start+adjust and is two shorter than the quoted literal. |
| VersionLinkedMode.AcceptedPositionsNumbered | plugins/com.redhat.ceylon.eclipse.ui/src/com/redhat/ceylon/eclipse/code/correct/EnterVersionLinkedMode.java:84-97 | When the group accepts every position, there is one position per matching import, numbered consecutively from the counter's value. |
| VersionLinkedMode.PositionsIncreasing | plugins/com.redhat.ceylon.eclipse.ui/src/com/redhat/ceylon/eclipse/code/correct/EnterVersionLinkedMode.java:84-97 | Sequence numbers strictly increase and stay within the numbers the matching imports use up. Refused positions still use up a number. |
| VersionLinkedMode.LinkedPositionsVisitor.constructor | plugins/com.redhat.ceylon.eclipse.ui/src/com/redhat/ceylon/eclipse/code/correct/EnterVersionLinkedMode.java:54-61 | The counter starts at 1 and no position has been added. |
| VersionLinkedMode.LinkedPositionsVisitor.AddLinkedPosition | plugins/com.redhat.ceylon.eclipse.ui/src/com/redhat/ceylon/eclipse/code/correct/EnterVersionLinkedMode.java:84-97 | An import with a version and a path eq to the edited one gets the next number. Its position is added unless the group refuses it. Other imports change nothing. |
| VersionLinkedMode.LinkedPositionsVisitor.VisitImports | plugins/com.redhat.ceylon.eclipse.ui/src/com/redhat/ceylon/eclipse/code/correct/EnterVersionLinkedMode.java:63-68 | Visiting the imports adds their positions in order and advances the counter by the number of matching imports. |
| VersionLinkedMode.GetName | plugins/com.redhat.ceylon.eclipse.ui/src/com/redhat/ceylon/eclipse/code/correct/EnterVersionLinkedMode.java:108-112 | The name is the literal without its first and last characters. It is defined exactly when the literal has at least two characters (substring throws otherwise). |
| VersionLinkedMode.GetNameOfQuoted | plugins/com.redhat.ceylon.eclipse.ui/src/com/redhat/ceylon/eclipse/code/correct/EnterVersionLinkedMode.java:108-112 | Quoting a version and taking its name gives the version back. |
| VersionLinkedMode.IdentifyingOffset | plugins/com.redhat.ceylon.eclipse.ui/src/com/redhat/ceylon/eclipse/code/correct/EnterVersionLinkedMode.java:121-123 | The identifying offset is just after the opening quote. |
| VersionLinkedMode.IdentifyingPositionSpansName | plugins/com.redhat.ceylon.eclipse.ui/src/com/redhat/ceylon/eclipse/code/correct/EnterVersionLinkedMode.java:88-123 | With no adjustment, a version's linked position starts at the identifying offset and is exactly as long as the name. |
| VersionLinkedMode.EnterVersionLinkedMode.Start | plugins/com.redhat.ceylon.eclipse.ui/src/com/redhat/ceylon/eclipse/code/correct/EnterVersionLinkedMode.java:136-141 | Without an enabled refactoring, nothing happens. Otherwise the editor is saved and the mode starts. |
| VersionLinkedMode.EnterVersionLinkedMode.Done | plugins/com.redhat.ceylon.eclipse.ui/src/com/redhat/ceylon/eclipse/code/correct/EnterVersionLinkedMode.java:131-173 | isEnabled (lines 131-133) holds exactly when the new name is non-empty. A non-empty new name is handed on as the new version, and then previewed or performed. An empty one cancels the mode. |
| LabelProvider.Name | plugins/com.redhat.ceylon.eclipse.ui/src/com/redhat/ceylon/eclipse/imp/treeModelBuilder/CeylonLabelProvider.java:176-183 | The name is the identifier's text, or `<unknown>` without one. |
| LabelProvider.TypeName | plugins/com.redhat.ceylon.eclipse.ui/src/com/redhat/ceylon/eclipse/imp/treeModelBuilder/CeylonLabelProvider.java:167-174 | The type is its text, or `<Unknown>` without one. |
| LabelProvider.FormatParameters | plugins/com.redhat.ceylon.eclipse.ui/src/com/redhat/ceylon/eclipse/imp/treeModelBuilder/CeylonLabelProvider.java:185-196 | The loop that appends each parameter and ", " and then cuts the last two characters gives `()` for a missing or empty list. Otherwise it gives the parameters joined by ", " in parentheses. |
| LabelProvider.FormatTypeParameters | plugins/com.redhat.ceylon.eclipse.ui/src/com/redhat/ceylon/eclipse/imp/treeModelBuilder/CeylonLabelProvider.java:198-208 | The same loop gives nothing for a missing or empty list, and otherwise the names joined by ", " in angle brackets. |
| LabelProvider.GetLabelFor | plugins/com.redhat.ceylon.eclipse.ui/src/com/redhat/ceylon/eclipse/imp/treeModelBuilder/CeylonLabelProvider.java:131-165 | `<something>` is the label of exactly the nodes that are not a class, an interface, an object, a method or an attribute. |
| LabelProvider.LabelShape | plugins/com.redhat.ceylon.eclipse.ui/src/com/redhat/ceylon/eclipse/imp/treeModelBuilder/CeylonLabelProvider.java:131-165 | Class and interface labels start with their keyword and name, and object labels are `object` and the name. Method and attribute labels start with the type, a space and the name. |
| LabelProvider.ClassLabelExample | plugins/com.redhat.ceylon.eclipse.ui/src/com/redhat/ceylon/eclipse/imp/treeModelBuilder/CeylonLabelProvider.java:131-145 | A class with type parameters A, B and parameters `T x`, `U y` is labelled `class Foo<A, B>(T x, U y)`. |
| LabelProvider.MethodLabelExample | plugins/com.redhat.ceylon.eclipse.ui/src/com/redhat/ceylon/eclipse/imp/treeModelBuilder/CeylonLabelProvider.java:146-157 | A method with an empty parameter list is labelled with its type, its name and `()`. |
| LabelProvider.GetImageFor | plugins/com.redhat.ceylon.eclipse.ui/src/com/redhat/ceylon/eclipse/imp/treeModelBuilder/CeylonLabelProvider.java:81-121 | A declaration gets a local image exactly when it is not shared. Exactly the nodes that are not declarations get the default image. |
| LabelProvider.ImageFollowsVisibility | plugins/com.redhat.ceylon.eclipse.ui/src/com/redhat/ceylon/eclipse/imp/treeModelBuilder/CeylonLabelProvider.java:81-121 | Sharing a declaration turns its image into the shared variant of the same kind. Classes, interfaces and methods have images of their own. |
| LabelProvider.GetImage | plugins/com.redhat.ceylon.eclipse.ui/src/com/redhat/ceylon/eclipse/imp/treeModelBuilder/CeylonLabelProvider.java:55-79 | A file shows the error image exactly at error severity and the warning image exactly at warning severity. A tree node of category -1 has no image, and any other node shows its AST node's image. |
| LabelProvider.CeylonLabelProvider.AddListener | plugins/com.redhat.ceylon.eclipse.ui/src/com/redhat/ceylon/eclipse/imp/treeModelBuilder/CeylonLabelProvider.java:210-212 | The listener joins the set of listeners. |
| LabelProvider.CeylonLabelProvider.RemoveListener | plugins/com.redhat.ceylon.eclipse.ui/src/com/redhat/ceylon/eclipse/imp/treeModelBuilder/CeylonLabelProvider.java:220-222 | The listener leaves the set of listeners. |
| LabelProvider.CeylonLabelProvider.IsLabelProperty | plugins/com.redhat.ceylon.eclipse.ui/src/com/redhat/ceylon/eclipse/imp/treeModelBuilder/CeylonLabelProvider.java:216-218 | No property affects the label. |
| ThenElseToIfElse.GetTerm | plugins/org.eclipse.ceylon.ide.eclipse.ui/old-sources/com/redhat/ceylon/eclipse/code/correct/ConvertThenElseToIfElse.java:197-199 | A node's text is defined exactly when its span lies in the document (BadLocationException otherwise). It is the text of that span. |
| ThenElseToIfElse.Unwrap | plugins/org.eclipse.ceylon.ide.eclipse.ui/old-sources/com/redhat/ceylon/eclipse/code/correct/ConvertThenElseToIfElse.java:116-119 | The loop strips every enclosing parenthesised expression, and what it returns is not one. |
| ThenElseToIfElse.ThenElseBranches | plugins/org.eclipse.ceylon.ide.eclipse.ui/old-sources/com/redhat/ceylon/eclipse/code/correct/ConvertThenElseToIfElse.java:121-139 | `x then y else z` tests x, with y in the first branch and z in the second. It classifies exactly when the three spans can be read. |
| ThenElseToIfElse.IfExpressionBranches | plugins/org.eclipse.ceylon.ide.eclipse.ui/old-sources/com/redhat/ceylon/eclipse/code/correct/ConvertThenElseToIfElse.java:145-150 | An `if` expression tests its condition list, with the then clause's expression in the first branch and the else clause's in the second. It classifies exactly when the three spans can be read. |
| ThenElseToIfElse.BareThenUsesNull | plugins/org.eclipse.ceylon.ide.eclipse.ui/old-sources/com/redhat/ceylon/eclipse/code/correct/ConvertThenElseToIfElse.java:141-144 | `x then y` tests x, with y in the first branch and `null` in the second. |
| ThenElseToIfElse.ElseOfExists | plugins/org.eclipse.ceylon.ide.eclipse.ui/old-sources/com/redhat/ceylon/eclipse/code/correct/ConvertThenElseToIfElse.java:121-140 | In `x else z`, z is the second branch. A plain member x tests `exists x`. Any other x is bound to the proposed name, which becomes the first branch. |
| ThenElseToIfElse.OnlyConditionalOperators | plugins/org.eclipse.ceylon.ide.eclipse.ui/old-sources/com/redhat/ceylon/eclipse/code/correct/ConvertThenElseToIfElse.java:121-154 | Only `else`, `then` and `if` expressions are converted. |
| ThenElseToIfElse.RemoveEnclosingParentheses | plugins/org.eclipse.ceylon.ide.eclipse.ui/old-sources/com/redhat/ceylon/eclipse/code/correct/ConvertThenElseToIfElse.java:190-195 | An empty text throws. Text wrapped in `(` and `)` loses exactly those two characters, and any other text is kept. |
| ThenElseToIfElse.RemoveWrappedParentheses | plugins/org.eclipse.ceylon.ide.eclipse.ui/old-sources/com/redhat/ceylon/eclipse/code/correct/ConvertThenElseToIfElse.java:190-195 | Wrapping a text in parentheses and removing them gives the text back. |
| ThenElseToIfElse.ReplacementShape | plugins/org.eclipse.ceylon.ide.eclipse.ui/old-sources/com/redhat/ceylon/eclipse/code/correct/ConvertThenElseToIfElse.java:161-178 | The replacement is laid out line by line. After the declaration line (if any) and `if (test) {` comes the then line: base indent, indent, action, then term and `;`. Next come the lines closing the first block and opening `else {`. Then comes the else line, built the same way from the else term. The line closing the else block ends the replacement. |
| ThenElseToIfElse.BuildReplacement | plugins/org.eclipse.ceylon.ide.eclipse.ui/old-sources/com/redhat/ceylon/eclipse/code/correct/ConvertThenElseToIfElse.java:161-178 | The appends to the buffer, one piece at a time in the order of the code, build exactly the replacement whose layout ReplacementShape gives. |
| ThenElseToIfElse.ProposalReplacesStatement | plugins/org.eclipse.ceylon.ide.eclipse.ui/old-sources/com/redhat/ceylon/eclipse/code/correct/ConvertThenElseToIfElse.java:180-184 | A proposal's edit replaces exactly the statement's span and keeps the rest of the document. |
| ThenElseToIfElse.UnsupportedStatement | plugins/org.eclipse.ceylon.ide.eclipse.ui/old-sources/com/redhat/ceylon/eclipse/code/correct/ConvertThenElseToIfElse.java:54-110 | Refinements, expression statements that are not assignments, and other statements give no proposal. |
| ThenElseToIfElse.Convert | plugins/org.eclipse.ceylon.ide.eclipse.ui/old-sources/com/redhat/ceylon/eclipse/code/correct/ConvertThenElseToIfElse.java:54-184 | A proposal sits at the statement's start, and its edit replaces exactly the statement's span. Its text is the if/else replacement built from the statement's action and declaration, the branches of the unwrapped operator and the test without enclosing parentheses. The assist throws exactly when an operator classifies with an empty test. |
| ThenElseToIfElse.ReturnThenElse | plugins/org.eclipse.ceylon.ide.eclipse.ui/old-sources/com/redhat/ceylon/eclipse/code/correct/ConvertThenElseToIfElse.java:54-184 | `return x then y else z;`, possibly in parentheses, becomes `if (x)` returning y in the first branch and z in the second, with x's enclosing parentheses removed. An empty x throws. |
| ThenElseToIfElse.AddConvertToIfElseProposal | plugins/org.eclipse.ceylon.ide.eclipse.ui/old-sources/com/redhat/ceylon/eclipse/code/correct/ConvertThenElseToIfElse.java:47-188 | The outcome is the conversion of the statement. A proposal joins the list exactly when one is made. |
| RenameJavaElement.QualifiedNameShape | plugins/com.redhat.ceylon.eclipse.ui/src/com/redhat/ceylon/eclipse/code/refactor/RenameJavaElementRefactoringParticipant.java:111-124 | A member reached from a compilation unit has a qualified name that starts with `package::` and ends with its simple name. A chain with no compilation unit starts with `@`. Only a detached member is named `@`. |
| RenameJavaElement.QualifiedName | plugins/com.redhat.ceylon.eclipse.ui/src/com/redhat/ceylon/eclipse/code/refactor/RenameJavaElementRefactoringParticipant.java:111-124 | Every qualified name is non-empty. The name of a member with a compilation unit or a declaring type ends with its simple name, after at least one separator character. |
| RenameJavaElement.EditsAreMatches | plugins/com.redhat.ceylon.eclipse.ui/src/com/redhat/ceylon/eclipse/code/refactor/RenameJavaElementRefactoringParticipant.java:104-109 | The edits are exactly the occurrences that resolve to a declaration with the member's qualified name and carry its old name. Each one replaces the old name's length by the new name. |
| RenameJavaElement.MatchEditReplacesName | plugins/com.redhat.ceylon.eclipse.ui/src/com/redhat/ceylon/eclipse/code/refactor/RenameJavaElementRefactoringParticipant.java:108 | Where a matching occurrence's text lies in the document, its edit replaces exactly the old name by the new one. |
| RenameJavaElement.LinkCandidatesPlacement | plugins/com.redhat.ceylon.eclipse.ui/src/com/redhat/ceylon/eclipse/code/refactor/RenameJavaElementRefactoringParticipant.java:144-153 | A documentation link is judged at the literal's start plus the group's offset, and only when its type part resolves. Its member part is judged only when that type part is a type. |
| RenameJavaElement.VisitEdits | plugins/com.redhat.ceylon.eclipse.ui/src/com/redhat/ceylon/eclipse/code/refactor/RenameJavaElementRefactoringParticipant.java:101-155 | One identifier, or the `m.find()` loop over one literal, adds exactly the edits of its candidates. |
| RenameJavaElement.LiteralEdits | plugins/com.redhat.ceylon.eclipse.ui/src/com/redhat/ceylon/eclipse/code/refactor/RenameJavaElementRefactoringParticipant.java:126-155 | The `m.find()` loop over one literal's links adds exactly the edits of their candidates, in order. |
| RenameJavaElement.LinkEdits | plugins/com.redhat.ceylon.eclipse.ui/src/com/redhat/ceylon/eclipse/code/refactor/RenameJavaElementRefactoringParticipant.java:144-153 | One link adds the edits of its type part and then of its member part. |
| RenameJavaElement.CollectEdits | plugins/com.redhat.ceylon.eclipse.ui/src/com/redhat/ceylon/eclipse/code/refactor/RenameJavaElementRefactoringParticipant.java:73-156 | The visitor's list of edits is the edits of every candidate, in visiting order. |
| RenameJavaElement.ChangedFilesHaveEdits | plugins/com.redhat.ceylon.eclipse.ui/src/com/redhat/ceylon/eclipse/code/refactor/RenameJavaElementRefactoringParticipant.java:157-170 | Every file in the changes has edits, and they are the edits of a unit of that file that lies in the workspace. |
| RenameJavaElement.Changes | plugins/com.redhat.ceylon.eclipse.ui/src/com/redhat/ceylon/eclipse/code/refactor/RenameJavaElementRefactoringParticipant.java:157-170 | Only files of workspace units get a change, and every change has at least one edit. |
| RenameJavaElement.EditedFilesAreChanged | plugins/com.redhat.ceylon.eclipse.ui/src/com/redhat/ceylon/eclipse/code/refactor/RenameJavaElementRefactoringParticipant.java:157-170 | The file of every workspace unit with edits is in the changes. |
| RenameJavaElement.LastEditedFileWins | plugins/com.redhat.ceylon.eclipse.ui/src/com/redhat/ceylon/eclipse/code/refactor/RenameJavaElementRefactoringParticipant.java:157-170 | A file maps to the edits of the last workspace unit of that file that has edits. A later unit replaces an earlier unit's change. |
| RenameJavaElement.CreateChangeResult | plugins/com.redhat.ceylon.eclipse.ui/src/com/redhat/ceylon/eclipse/code/refactor/RenameJavaElementRefactoringParticipant.java:69-180 | The result is null exactly when there is no type checker or no changed file. Otherwise it is one change per changed file. |
| RenameJavaElement.CreateChange | plugins/com.redhat.ceylon.eclipse.ui/src/com/redhat/ceylon/eclipse/code/refactor/RenameJavaElementRefactoringParticipant.java:68-181 | The loop over the phased units gives that result. |
| AssignToTry.WrappedExpression | plugins/org.eclipse.ceylon.ide.eclipse.ui/src/org/eclipse/ceylon/ide/eclipse/code/correct/AssignToTryProposal.java:34-67 | Applying both edits turns the expression into `try (name = expression) {}`, dropping the terminating semicolon. The linked position covers exactly the inserted name. The exit position, shifted by the inserted prefix, is the opening brace whichever way the expression ended. |
| AssignToTry.AssignToTryProposal.CreateChange | plugins/org.eclipse.ceylon.ide.eclipse.ui/src/org/eclipse/ceylon/ide/eclipse/code/correct/AssignToTryProposal.java:34-51 | The change inserts `try (name = ` at the offset. Without a terminating `;` it inserts `) {}` at the end, with exit end+2. With one, it replaces the `;` by `) {}`, with exit end+1. |
| AssignToTry.AssignToTryProposal.AddLinkedPositions | plugins/org.eclipse.ceylon.ide.eclipse.ui/src/org/eclipse/ceylon/ide/eclipse/code/correct/AssignToTryProposal.java:58-71 | The name's position, at offset+5 and as long as the name, is added to linked mode. |
| AssignToTry.AddAssignToTryProposal | plugins/org.eclipse.ceylon.ide.eclipse.ui/src/org/eclipse/ceylon/ide/eclipse/code/correct/AssignToTryProposal.java:84-97 | isEnabled (lines 84-87) holds exactly when the expression has a type the unit can use. A proposal joins the list exactly then, and the list is otherwise unchanged. |
| ModuleProperties.ImportRows | plugins/org.eclipse.ceylon.ide.eclipse.ui/src/org/eclipse/ceylon/ide/eclipse/code/preferences/CeylonModulePropertiesPage.java:265-273 | There is one row per import, in order, with its module's name and version. It shows `shared` exactly when the import is exported, and nothing otherwise. |
| ModuleProperties.AddedRows | plugins/org.eclipse.ceylon.ide.eclipse.ui/src/org/eclipse/ceylon/ide/eclipse/code/preferences/CeylonModulePropertiesPage.java:581-589 | Modules added through the dialog get a row with their name and version, not shared. |
| ModuleProperties.AffectedIsSelectionWithoutLanguage | plugins/org.eclipse.ceylon.ide.eclipse.ui/src/org/eclipse/ceylon/ide/eclipse/code/preferences/CeylonModulePropertiesPage.java:328-334 | The rows acted on are exactly the selected rows that are not `ceylon.language`, so that name is never handed on. |
| ModuleProperties.ToggledRows | plugins/org.eclipse.ceylon.ide.eclipse.ui/src/org/eclipse/ceylon/ide/eclipse/code/preferences/CeylonModulePropertiesPage.java:337-344 | Toggling changes only the shared column, only for selected rows other than the language module. With no row selected twice, it flips between `shared` and the empty text. Rows stay well formed. |
| ModuleProperties.ToggleTwice | plugins/org.eclipse.ceylon.ide.eclipse.ui/src/org/eclipse/ceylon/ide/eclipse/code/preferences/CeylonModulePropertiesPage.java:337-344 | Toggling the same selection twice restores the table. |
| ModuleProperties.KeptRows | plugins/org.eclipse.ceylon.ide.eclipse.ui/src/org/eclipse/ceylon/ide/eclipse/code/preferences/CeylonModulePropertiesPage.java:606-610 | Removing indices keeps every row whose index is not removed, and keeps nothing that was not in the table. |
| ModuleProperties.RemovedRowsGo | plugins/org.eclipse.ceylon.ide.eclipse.ui/src/org/eclipse/ceylon/ide/eclipse/code/preferences/CeylonModulePropertiesPage.java:606-610 | Every kept row stands at an index that is not removed. The number of kept rows is the number of rows less the number of removed indices in the table. |
| ModuleProperties.RemovalKeepsUnselectedAndLanguage | plugins/org.eclipse.ceylon.ide.eclipse.ui/src/org/eclipse/ceylon/ide/eclipse/code/preferences/CeylonModulePropertiesPage.java:592-611 | After removal, every unselected row and every `ceylon.language` row is still in the table. |
| ModuleProperties.ModulePropertiesPage.GetModule | plugins/org.eclipse.ceylon.ide.eclipse.ui/src/org/eclipse/ceylon/ide/eclipse/code/preferences/CeylonModulePropertiesPage.java:210-221 | With no project, no module list or no such module, the result is null. Otherwise it is the first module named like the package fragment. |
| ModuleProperties.ModulePropertiesPage.LoadImports | plugins/org.eclipse.ceylon.ide.eclipse.ui/src/org/eclipse/ceylon/ide/eclipse/code/preferences/CeylonModulePropertiesPage.java:265-273 | Imports are loaded exactly when there is a project with a module list holding a module named like the package. The table then gains the import rows of the first such module, the one getModule (lines 210-221) returns, one per import in order. Otherwise the table is unchanged. |
| ModuleProperties.ModulePropertiesPage.AddImportRows | plugins/org.eclipse.ceylon.ide.eclipse.ui/src/org/eclipse/ceylon/ide/eclipse/code/preferences/CeylonModulePropertiesPage.java:265-273 | The loop over the module's imports appends one row per import, in order, with `shared` exactly for exported imports. |
| ModuleProperties.ModulePropertiesPage.AddModules | plugins/org.eclipse.ceylon.ide.eclipse.ui/src/org/eclipse/ceylon/ide/eclipse/code/preferences/CeylonModulePropertiesPage.java:581-589 | The table gains one row per added module. |
| ModuleProperties.ModulePropertiesPage.MakeShared | plugins/org.eclipse.ceylon.ide.eclipse.ui/src/org/eclipse/ceylon/ide/eclipse/code/preferences/CeylonModulePropertiesPage.java:327-345 | The names of the affected rows are sent, and the table becomes the toggled table. |
| ModuleProperties.ModulePropertiesPage.RemoveSelectedModules | plugins/org.eclipse.ceylon.ide.eclipse.ui/src/org/eclipse/ceylon/ide/eclipse/code/preferences/CeylonModulePropertiesPage.java:592-611 | The removed indices are the affected ones in selection order, paired one to one with their names. The table keeps exactly the other rows, in order. |
| ImportMembers.WrittenMembers | tests/org.eclipse.ceylon.ide.eclipse.ui.test/src/org/eclipse/ceylon/ide/eclipse/ui/test/headless/ImportProposalTests.java:31-33 | A member is written exactly when it is in the list and its declaration is not ignored. |
| ImportMembers.NothingIgnored | tests/org.eclipse.ceylon.ide.eclipse.ui.test/src/org/eclipse/ceylon/ide/eclipse/ui/test/headless/ImportProposalTests.java:31-34 | With an empty ignored set, every member is written, in list order. |
| ImportMembers.SingleMember | tests/org.eclipse.ceylon.ide.eclipse.ui.test/src/org/eclipse/ceylon/ide/eclipse/ui/test/headless/ImportProposalTests.java:56-82 | One member gives a brace, the delimiter, the indented member, the delimiter and a brace, with no comma. |
| ImportMembers.AppendMember | tests/org.eclipse.ceylon.ide.eclipse.ui.test/src/org/eclipse/ceylon/ide/eclipse/ui/test/headless/ImportProposalTests.java:28-54 | Another member adds `,` and the delimiter after the previous member, then its indented line, before the closing delimiter and brace. |
| ImportMembers.TwoMembers | tests/org.eclipse.ceylon.ide.eclipse.ui.test/src/org/eclipse/ceylon/ide/eclipse/ui/test/headless/ImportProposalTests.java:28-54 | Two members, with any delimiter and indent, give a brace, the first line, a comma and a delimiter, the second line, a delimiter and a brace. |
| ImportMembers.FormatImportMembers | tests/org.eclipse.ceylon.ide.eclipse.ui.test/src/org/eclipse/ceylon/ide/eclipse/ui/test/headless/ImportProposalTests.java:28-82 | Every block opens with `{` and the delimiter and closes with the delimiter and `}`. When every member is ignored, the block is just those. |
| ImportMembers.TwoMembersNewline | tests/org.eclipse.ceylon.ide.eclipse.ui.test/src/org/eclipse/ceylon/ide/eclipse/ui/test/headless/ImportProposalTests.java:28-36 | Bar and Foo with `\n` give `{\n  Bar,\n  Foo\n}`. |
| ImportMembers.TwoMembersCarriageReturn | tests/org.eclipse.ceylon.ide.eclipse.ui.test/src/org/eclipse/ceylon/ide/eclipse/ui/test/headless/ImportProposalTests.java:38-45 | Bar and Foo with `\r\n` give `{\r\n  Bar,\r\n  Foo\r\n}`. |
| ImportMembers.TwoMembersArbitraryDelimiter | tests/org.eclipse.ceylon.ide.eclipse.ui.test/src/org/eclipse/ceylon/ide/eclipse/ui/test/headless/ImportProposalTests.java:47-54 | The delimiter `\|\|\|` is reproduced verbatim. |
| ImportMembers.OneMemberCarriageReturn | tests/org.eclipse.ceylon.ide.eclipse.ui.test/src/org/eclipse/ceylon/ide/eclipse/ui/test/headless/ImportProposalTests.java:56-63 | Bar alone with `\r\n` gives `{\r\n  Bar\r\n}`. |
| ImportMembers.OneMemberNewline | tests/org.eclipse.ceylon.ide.eclipse.ui.test/src/org/eclipse/ceylon/ide/eclipse/ui/test/headless/ImportProposalTests.java:65-72 | Bar alone with `\n` gives `{\n  Bar\n}`. |
| ImportMembers.OneMemberArbitraryDelimiter | tests/org.eclipse.ceylon.ide.eclipse.ui.test/src/org/eclipse/ceylon/ide/eclipse/ui/test/headless/ImportProposalTests.java:75-82 | Bar alone with `\|\|\|` gives `{\|\|\|  Bar\|\|\|}`. |

## Left out

- Widgets, layout, dialogs and wizards are not modelled. Neither are the refactoring framework's change objects (text changes, previews, execution helpers, saving the editor). Edits are (offset, length, text) triples, and the host applies them.
- The Ceylon typechecker is not part of this model. Its judgements are inputs: resolved declarations, whether a type is usable, a type's text, keywords, and the nodes FindAliasedTypeVisitor finds. So are the indent of a statement, the default indent and the line delimiter.
- The documentation-link pattern and its matcher are not part of this model. Their groups and group offsets are inputs, and so is the lookup of a link's package, type and member.
- `Character.isWhitespace` and `Character.isUpperCase` are restricted to ASCII.
- Identifiers are values (text and start offset), so identifier equality is value equality rather than object identity.
- Folding.FoldingUpdater.UpdateFoldingStructure: the synchronisation of the method is not modelled. Neither is the preference store, whose values are parameters. The installed Position objects are shared with the annotation model, and document edits move them between two updates. The model keeps each installed position at the value it had when it was installed, so the comparison with the new folds sees the old offsets.
- RenameJavaElement.CreateChange: the order of the resulting changes (the order of a HashMap's values) is not modelled; the result is a map from file to edits.
- ModuleProperties.ModulePropertiesPage.MakeShared: table items are rows of a sequence and the selection is a list of row indices. Updates of the module descriptor (making imports shared, removing and adding imports) are external, so the model returns the names it would hand to them.
- ModuleProperties.ModulePropertiesPage.AddModules: the order of the dialog's map of added modules is an input sequence.
- ModuleProperties.ModulePropertiesPage.LoadImports: without a module the code throws a NullPointerException, which the model represents as an unchanged table and a false result.
- LabelProvider.GetLabelFor: a method node whose declaration has no parameter list at all is not modelled (the code reads the first list of an empty list); `None` in a method's `params` is a null first list, labelled `()`.
- VersionLinkedMode.LinkedPositionsVisitor.AddLinkedPosition: a position the linked group refuses (BadLocationException, printed and ignored) is an input flag.
- Alias.AliasRefactoring.constructor: a selected node that is not a type leaves the type text null; the model uses the empty text.
- ImportMembers: the implementation of `formatImportMembers` is not part of this model. The block is what its unit tests pin down, for members without aliases. Dropping members whose declaration is ignored is not pinned by any test.
