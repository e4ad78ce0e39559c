/**
 * The label provider of the Ceylon outline: the text shown for a declaration
 * (`class Foo<A, B>(T x, U y)`, `String name`), the icon chosen by the kind
 * of declaration and whether it is shared, and the icon of a source file
 * chosen by the worst problem marker on it.
 *
 * Tree nodes are reduced to what the labels read: identifiers, the printed
 * names of types, parameter lists and the shared flag of the declaration's
 * model.
 */
module LabelProvider {
  import opened TextUtil

  /** A parameter: its type's printed name and its identifier, either of which may be missing. */
  datatype Parameter = Parameter(paramType: Option<string>, id: Option<string>)

  /**
   * The outline's tree nodes, in the order getLabelFor tests them. A method's
   * parameter list is its first one; None there stands for a null first list,
   * not for a method without lists.
   */
  datatype Node =
    | ClassNode(id: Option<string>, typeParams: Option<seq<Option<string>>>, params: Option<seq<Parameter>>, isShared: bool)
    | InterfaceNode(id: Option<string>, typeParams: Option<seq<Option<string>>>, isShared: bool)
    | ObjectNode(id: Option<string>, isShared: bool)
    | MethodNode(declType: Option<string>, id: Option<string>, typeParams: Option<seq<Option<string>>>,
                 params: Option<seq<Parameter>>, isShared: bool)
    | AttributeNode(declType: Option<string>, id: Option<string>, isShared: bool)
    | OtherDeclaration(isShared: bool)
    | OtherNode

  predicate IsDeclaration(n: Node) { !n.OtherNode? }

  // ---------------------------------------------------------------------
  // name, type and both parameters
  // ---------------------------------------------------------------------

  /** name: an identifier's text, or "<unknown>". */
  function Name(id: Option<string>): (r: string)
    ensures id.Some? ==> r == id.value
    ensures id.None? ==> r == "<unknown>"
  {
    match id
    case None => "<unknown>"
    case Some(text) => text
  }

  /** type: a type's printed name, or "<Unknown>". */
  function TypeName(t: Option<string>): (r: string)
    ensures t.Some? ==> r == t.value
    ensures t.None? ==> r == "<Unknown>"
  {
    match t
    case None => "<Unknown>"
    case Some(name) => name
  }

  /** One parameter as the outline shows it: "type name". */
  function ParameterText(p: Parameter): string {
    TypeName(p.paramType) + " " + Name(p.id)
  }

  function ParameterTexts(ps: seq<Parameter>): (r: seq<string>)
    ensures |r| == |ps|
  {
    if |ps| == 0 then [] else ParameterTexts(ps[..|ps| - 1]) + [ParameterText(ps[|ps| - 1])]
  }

  function TypeParameterTexts(ids: seq<Option<string>>): (r: seq<string>)
    ensures |r| == |ids|
  {
    if |ids| == 0 then [] else TypeParameterTexts(ids[..|ids| - 1]) + [Name(ids[|ids| - 1])]
  }

  /** One more parameter adds its text at the end. */
  lemma ParameterTextsSnoc(ps: seq<Parameter>, n: nat)
    requires n < |ps|
    ensures ParameterTexts(ps[..n + 1]) == ParameterTexts(ps[..n]) + [ParameterText(ps[n])]
  {
    assert ps[..n + 1][..n] == ps[..n];
  }

  /** One more type parameter adds its name at the end. */
  lemma TypeParameterTextsSnoc(ids: seq<Option<string>>, n: nat)
    requires n < |ids|
    ensures TypeParameterTexts(ids[..n + 1]) == TypeParameterTexts(ids[..n]) + [Name(ids[n])]
  {
    assert ids[..n + 1][..n] == ids[..n];
  }

  /** The label of a parameter list: "()" when missing or empty, else the entries joined by ", " in parentheses. */
  function ParameterListLabel(pl: Option<seq<Parameter>>): string {
    if pl.None? || |pl.value| == 0 then "()" else "(" + Join(ParameterTexts(pl.value), ", ") + ")"
  }

  /** The label of a type-parameter list: nothing when missing or empty, else the names joined by ", " in angle brackets. */
  function TypeParameterListLabel(tpl: Option<seq<Option<string>>>): string {
    if tpl.None? || |tpl.value| == 0 then "" else "<" + Join(TypeParameterTexts(tpl.value), ", ") + ">"
  }

  /**
   * parameters(ParameterList): every entry is appended with a trailing ", ", and
   * the last two characters are cut before the closing parenthesis.
   */
  method FormatParameters(pl: Option<seq<Parameter>>) returns (r: string)
    ensures r == ParameterListLabel(pl)
  {
    if pl.None? || |pl.value| == 0 {
      return "()";
    }
    var ps := pl.value;
    var acc := "(";
    var n := 0;
    while n < |ps|
      invariant 0 <= n <= |ps|
      invariant acc == "(" + Terminated(ParameterTexts(ps[..n]), ", ")
    {
      ParameterTextsSnoc(ps, n);
      TerminatedSnoc("(", ParameterTexts(ps[..n]), ParameterText(ps[n]), ", ");
      acc := acc + ParameterText(ps[n]) + ", ";
      n := n + 1;
    }
    assert ps[..n] == ps;
    CutLastSeparator("(", ParameterTexts(ps), ", ");
    r := acc[..|acc| - 2] + ")";
  }

  /** parameters(TypeParameterList): the same with angle brackets, and nothing for no type parameters. */
  method FormatTypeParameters(tpl: Option<seq<Option<string>>>) returns (r: string)
    ensures r == TypeParameterListLabel(tpl)
  {
    if tpl.None? || |tpl.value| == 0 {
      return "";
    }
    var ids := tpl.value;
    var acc := "<";
    var n := 0;
    while n < |ids|
      invariant 0 <= n <= |ids|
      invariant acc == "<" + Terminated(TypeParameterTexts(ids[..n]), ", ")
    {
      TypeParameterTextsSnoc(ids, n);
      TerminatedSnoc("<", TypeParameterTexts(ids[..n]), Name(ids[n]), ", ");
      acc := acc + Name(ids[n]) + ", ";
      n := n + 1;
    }
    assert ids[..n] == ids;
    CutLastSeparator("<", TypeParameterTexts(ids), ", ");
    r := acc[..|acc| - 2] + ">";
  }

  // ---------------------------------------------------------------------
  // getLabelFor
  // ---------------------------------------------------------------------

  /** getLabelFor: the outline text of a node; "<something>" is the label of exactly the nodes it does not know. */
  function GetLabelFor(n: Node): (r: string)
    ensures r == "<something>" <==> n.OtherDeclaration? || n.OtherNode?
  {
    match n
    case ClassNode(id, tps, ps, _) =>
      var r := "class " + Name(id) + TypeParameterListLabel(tps) + ParameterListLabel(ps);
      assert r[0] == 'c';
      r
    case InterfaceNode(id, tps, _) =>
      var r := "interface " + Name(id) + TypeParameterListLabel(tps);
      assert r[0] == 'i';
      r
    case ObjectNode(id, _) =>
      var r := "object " + Name(id);
      assert r[0] == 'o';
      r
    case MethodNode(t, id, tps, ps, _) =>
      var r := TypeName(t) + " " + Name(id) + TypeParameterListLabel(tps) + ParameterListLabel(ps);
      assert r[|TypeName(t)|] == ' ';
      r
    case AttributeNode(t, id, _) =>
      var r := TypeName(t) + " " + Name(id);
      assert r[|TypeName(t)|] == ' ';
      r
    case OtherDeclaration(_) => "<something>"
    case OtherNode => "<something>"
  }

  /**
   * The shape of labels: a class or interface label starts with its keyword and its
   * name, an object label is "object " and its name, a typed declaration's label
   * starts with its type, a space and its name, and only the nodes that are none
   * of these are shown as "<something>".
   */
  lemma LabelShape(n: Node)
    ensures n.ClassNode? ==> StartsWith(GetLabelFor(n), "class " + Name(n.id))
    ensures n.InterfaceNode? ==> StartsWith(GetLabelFor(n), "interface " + Name(n.id))
    ensures n.ObjectNode? ==> GetLabelFor(n) == "object " + Name(n.id)
    ensures (n.MethodNode? || n.AttributeNode?) ==>
              StartsWith(GetLabelFor(n), TypeName(n.declType) + " " + Name(n.id))
    ensures GetLabelFor(n) == "<something>" <== (n.OtherDeclaration? || n.OtherNode?)
  {
    match n
    case ClassNode(id, tps, ps, _) =>
      PrefixOfConcat("class " + Name(id), TypeParameterListLabel(tps), ParameterListLabel(ps));
    case InterfaceNode(id, tps, _) =>
      PrefixOfConcat("interface " + Name(id), TypeParameterListLabel(tps), "");
    case MethodNode(t, id, tps, ps, _) =>
      PrefixOfConcat(TypeName(t) + " " + Name(id), TypeParameterListLabel(tps), ParameterListLabel(ps));
    case AttributeNode(t, id, _) =>
      PrefixOfConcat(TypeName(t) + " " + Name(id), "", "");
      assert TypeName(t) + " " + Name(id) + "" == TypeName(t) + " " + Name(id);
    case ObjectNode(_, _) =>
    case OtherDeclaration(_) =>
    case OtherNode =>
  }

  /** The outline shows a generic class with two parameters as "class Foo<A, B>(T x, U y)". */
  lemma ClassLabelExample()
    ensures GetLabelFor(ClassNode(Some("Foo"), Some([Some("A"), Some("B")]),
                                  Some([Parameter(Some("T"), Some("x")), Parameter(Some("U"), Some("y"))]), true))
            == "class Foo<A, B>(T x, U y)"
  {
    TwoTypeParameters();
    TwoParameters();
  }

  /** The type parameters A and B are shown as "<A, B>". */
  lemma TwoTypeParameters()
    ensures TypeParameterListLabel(Some([Some("A"), Some("B")])) == "<A, B>"
  {
    var tps: seq<Option<string>> := [Some("A"), Some("B")];
    assert tps[..1] == [Some("A")];
    assert TypeParameterTexts(tps) == ["A", "B"];
    assert ["A", "B"][..1] == ["A"];
    assert Join(["A", "B"], ", ") == "A, B";
  }

  /** The parameters `T x` and `U y` are shown as "(T x, U y)". */
  lemma TwoParameters()
    ensures ParameterListLabel(Some([Parameter(Some("T"), Some("x")), Parameter(Some("U"), Some("y"))])) == "(T x, U y)"
  {
    var ps := [Parameter(Some("T"), Some("x")), Parameter(Some("U"), Some("y"))];
    assert ps[..1] == [Parameter(Some("T"), Some("x"))];
    assert ParameterText(ps[0]) == "T x";
    assert ParameterText(ps[1]) == "U y";
    assert ParameterTexts(ps[..1]) == ["T x"];
    assert ParameterTexts(ps) == ["T x", "U y"];
    assert ["T x", "U y"][..1] == ["T x"];
    assert Join(["T x", "U y"], ", ") == "T x, U y";
  }

  /** A method with no type parameters and no parameters: "void run()". */
  lemma MethodLabelExample()
    ensures GetLabelFor(MethodNode(Some("void"), Some("run"), None, Some([]), false)) == "void run()"
  {
  }

  // ---------------------------------------------------------------------
  // Images
  // ---------------------------------------------------------------------

  datatype Image =
    | DefaultImage | FileImage | FileWithWarningImage | FileWithErrorImage
    | ClassImage | LocalClassImage | InterfaceImage | LocalInterfaceImage
    | MethodImage | LocalMethodImage | AttributeImage | LocalAttributeImage

  /** The images of local (not shared) declarations. */
  predicate IsLocalImage(i: Image) {
    i == LocalClassImage || i == LocalInterfaceImage || i == LocalMethodImage || i == LocalAttributeImage
  }

  /** getImageFor(Node): by kind of declaration, the shared or the local variant; the default image otherwise. */
  function GetImageFor(n: Node): (r: Image)
    ensures IsDeclaration(n) ==> (IsLocalImage(r) <==> !n.isShared)
    ensures !IsDeclaration(n) <==> r == DefaultImage
  {
    match n
    case ClassNode(_, _, _, sh) => if sh then ClassImage else LocalClassImage
    case InterfaceNode(_, _, sh) => if sh then InterfaceImage else LocalInterfaceImage
    case MethodNode(_, _, _, _, sh) => if sh then MethodImage else LocalMethodImage
    case ObjectNode(_, sh) => if sh then AttributeImage else LocalAttributeImage
    case AttributeNode(_, _, sh) => if sh then AttributeImage else LocalAttributeImage
    case OtherDeclaration(sh) => if sh then AttributeImage else LocalAttributeImage
    case OtherNode => DefaultImage
  }

  /** The image of a shared declaration with the same kind as a local one: local and shared swap. */
  function SharedVariant(i: Image): Image {
    match i
    case LocalClassImage => ClassImage
    case LocalInterfaceImage => InterfaceImage
    case LocalMethodImage => MethodImage
    case LocalAttributeImage => AttributeImage
    case _ => i
  }

  /**
   * A declaration gets a local image exactly when it is not shared, and sharing it
   * turns its image into the shared variant of the same kind; any other node gets
   * the default image.
   */
  lemma ImageFollowsVisibility(n: Node)
    ensures IsDeclaration(n) ==> GetImageFor(n.(isShared := true)) == SharedVariant(GetImageFor(n))
    ensures (n.ClassNode? <==> GetImageFor(n) in {ClassImage, LocalClassImage})
    ensures (n.InterfaceNode? <==> GetImageFor(n) in {InterfaceImage, LocalInterfaceImage})
    ensures (n.MethodNode? <==> GetImageFor(n) in {MethodImage, LocalMethodImage})
  {
  }

  /** What the outline asks an image for: a source file, or a tree node with its category. */
  datatype Element = FileElement(maxSeverity: int) | TreeNode(category: int, node: Node)

  const SeverityError := 2
  const SeverityWarning := 1

  /** getImage: a file by its worst problem severity; a node of category -1 has none; other nodes by getImageFor. */
  function GetImage(e: Element): (r: Option<Image>)
    ensures e.FileElement? ==> r.Some? && r.value in {FileImage, FileWithWarningImage, FileWithErrorImage}
    ensures e.FileElement? ==> (r == Some(FileWithErrorImage) <==> e.maxSeverity == SeverityError)
    ensures e.FileElement? ==> (r == Some(FileWithWarningImage) <==> e.maxSeverity == SeverityWarning)
    ensures e.TreeNode? ==> (r.None? <==> e.category == -1)
    ensures e.TreeNode? && e.category != -1 ==> r == Some(GetImageFor(e.node))
  {
    match e
    case FileElement(sev) =>
      if sev == SeverityError then Some(FileWithErrorImage)
      else if sev == SeverityWarning then Some(FileWithWarningImage)
      else Some(FileImage)
    case TreeNode(category, node) => if category == -1 then None else Some(GetImageFor(node))
  }

  // ---------------------------------------------------------------------
  // Listeners
  // ---------------------------------------------------------------------

  type Listener = nat

  class CeylonLabelProvider {
    var listeners: set<Listener>

    constructor ()
      ensures listeners == {}
    {
      listeners := {};
    }

    method AddListener(l: Listener)
      modifies this
      ensures listeners == old(listeners) + {l}
    {
      listeners := listeners + {l};
    }

    method RemoveListener(l: Listener)
      modifies this
      ensures listeners == old(listeners) - {l}
    {
      listeners := listeners - {l};
    }

    /** isLabelProperty: no property change affects a label. */
    function IsLabelProperty(property: string): (b: bool)
      ensures !b
    {
      false
    }
  }
}
