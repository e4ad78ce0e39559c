/**
 * The block of import members written when an import statement is
 * rewritten: an opening brace, each member on its own indented line with a
 * comma between neighbours, and a closing brace, every line ended by the
 * document's line delimiter, whatever that delimiter is.
 *
 * Members whose declaration is among the ignored declarations are left out
 * of the block.
 */
module ImportMembers {
  import opened TextUtil

  /** A declaration of the type model, known only by identity. */
  type Declaration = nat

  /** One member of an import's member list: its identifier and the declaration it imports. */
  datatype ImportMember = ImportMember(identifier: string, declaration: Option<Declaration>)

  /** The members that are written: those whose declaration is not ignored, in list order. */
  function Written(ignored: set<Declaration>, members: seq<ImportMember>): seq<ImportMember>
  {
    if |members| == 0 then []
    else
      var m := members[|members| - 1];
      Written(ignored, members[..|members| - 1])
      + (if m.declaration.Some? && m.declaration.value in ignored then [] else [m])
  }

  /** One line of the block, without its delimiter. */
  function MemberLine(indent: string, m: ImportMember): string {
    indent + m.identifier
  }

  function MemberLines(indent: string, members: seq<ImportMember>): seq<string>
  {
    if |members| == 0 then [] else MemberLines(indent, members[..|members| - 1]) + [MemberLine(indent, members[|members| - 1])]
  }

  /**
   * formatImportMembers(delimiter, indent, ignored, members): the block opens with
   * a brace and a line break and closes with a line break and a brace; with every
   * member ignored it is just those.
   */
  function FormatImportMembers(delim: string, indent: string, ignored: set<Declaration>, members: seq<ImportMember>)
    : (r: string)
    ensures StartsWith(r, "{" + delim)
    ensures |delim + "}"| <= |r| && r[|r| - |delim + "}"|..] == delim + "}"
    ensures |Written(ignored, members)| == 0 ==> r == "{" + delim + delim + "}"
  {
    "{" + delim + Join(MemberLines(indent, Written(ignored, members)), "," + delim) + delim + "}"
  }

  /** A member is written exactly when it is in the list and its declaration is not ignored. */
  lemma {:induction false} WrittenMembers(ignored: set<Declaration>, members: seq<ImportMember>)
    ensures |Written(ignored, members)| <= |members|
    ensures forall m :: m in Written(ignored, members) <==>
              m in members && (m.declaration.None? || m.declaration.value !in ignored)
  {
    if |members| > 0 {
      var init := members[..|members| - 1];
      WrittenMembers(ignored, init);
      assert members == init + [members[|members| - 1]];
    }
  }

  /** With no ignored declaration, every member is written, in order. */
  lemma {:induction false} NothingIgnored(members: seq<ImportMember>)
    ensures Written({}, members) == members
  {
    if |members| > 0 {
      NothingIgnored(members[..|members| - 1]);
      assert members == members[..|members| - 1] + [members[|members| - 1]];
    }
  }

  /** The lines of a list with one more member end with that member's line. */
  lemma MemberLinesSnoc(indent: string, members: seq<ImportMember>, m: ImportMember)
    ensures MemberLines(indent, members + [m]) == MemberLines(indent, members) + [indent + m.identifier]
  {
    assert (members + [m])[..|members|] == members;
  }

  /** The block up to the end of its last member's line. */
  function Opening(delim: string, indent: string, members: seq<ImportMember>): string {
    "{" + delim + Join(MemberLines(indent, members), "," + delim)
  }

  /** A block of one member has no comma: brace, delimiter, indented member, delimiter, brace. */
  lemma SingleMember(delim: string, indent: string, m: ImportMember)
    ensures FormatImportMembers(delim, indent, {}, [m]) == "{" + delim + (indent + m.identifier) + (delim + "}")
  {
    NothingIgnored([m]);
    MemberLinesSnoc(indent, [], m);
    assert [] + [m] == [m];
  }

  /**
   * With nothing ignored, the block is its opening part, the delimiter and the
   * brace; adding a member to a non-empty list puts a comma and a delimiter after
   * the previous last member, then the new member's line before the closing
   * delimiter and brace.
   */
  lemma AppendMember(delim: string, indent: string, members: seq<ImportMember>, m: ImportMember)
    requires |members| > 0
    ensures FormatImportMembers(delim, indent, {}, members) == Opening(delim, indent, members) + (delim + "}")
    ensures FormatImportMembers(delim, indent, {}, members + [m])
            == Opening(delim, indent, members) + ("," + delim) + (indent + m.identifier) + (delim + "}")
  {
    NothingIgnored(members);
    NothingIgnored(members + [m]);
    var lines := MemberLines(indent, members);
    var x := indent + m.identifier;
    MemberLinesSnoc(indent, members, m);
    JoinSnoc(lines, x, "," + delim);
    var open := "{" + delim;
    var j := Join(lines, "," + delim);
    calc {
      FormatImportMembers(delim, indent, {}, members + [m]);
      open + (j + ("," + delim) + x) + delim + "}";
      { ConcatRegroup(open, j, "," + delim, x, delim, "}"); }
      open + j + ("," + delim) + x + (delim + "}");
    }
  }

  lemma ConcatRegroup(a: string, b: string, c: string, d: string, e: string, f: string)
    ensures a + (b + c + d) + e + f == a + b + c + d + (e + f)
  {
  }

  /** Two members: the first member's line, a comma and a delimiter, then the second's line. */
  lemma TwoMembers(delim: string, indent: string, m1: ImportMember, m2: ImportMember)
    ensures FormatImportMembers(delim, indent, {}, [m1, m2])
            == "{" + delim + (indent + m1.identifier) + ("," + delim) + (indent + m2.identifier) + (delim + "}")
  {
    assert [m1] + [m2] == [m1, m2];
    AppendMember(delim, indent, [m1], m2);
    MemberLinesSnoc(indent, [], m1);
    assert [] + [m1] == [m1];
    assert Opening(delim, indent, [m1]) == "{" + delim + (indent + m1.identifier);
  }

  // The cases the unit tests pin down: the members Bar and Foo, or Bar alone,
  // indented by two spaces, with nothing ignored.

  const Bar: ImportMember := ImportMember("Bar", None)
  const Foo: ImportMember := ImportMember("Foo", None)

  lemma TwoMembersNewline()
    ensures FormatImportMembers("\n", "  ", {}, [Bar, Foo]) == "{\n  Bar,\n  Foo\n}"
  {
    TwoMembers("\n", "  ", Bar, Foo);
  }

  lemma TwoMembersCarriageReturn()
    ensures FormatImportMembers("\r\n", "  ", {}, [Bar, Foo]) == "{\r\n  Bar,\r\n  Foo\r\n}"
  {
    TwoMembers("\r\n", "  ", Bar, Foo);
  }

  lemma TwoMembersArbitraryDelimiter()
    ensures FormatImportMembers("|||", "  ", {}, [Bar, Foo]) == "{|||  Bar,|||  Foo|||}"
  {
    TwoMembers("|||", "  ", Bar, Foo);
  }

  lemma OneMemberCarriageReturn()
    ensures FormatImportMembers("\r\n", "  ", {}, [Bar]) == "{\r\n  Bar\r\n}"
  {
    SingleMember("\r\n", "  ", Bar);
  }

  lemma OneMemberNewline()
    ensures FormatImportMembers("\n", "  ", {}, [Bar]) == "{\n  Bar\n}"
  {
    SingleMember("\n", "  ", Bar);
  }

  lemma OneMemberArbitraryDelimiter()
    ensures FormatImportMembers("|||", "  ", {}, [Bar]) == "{|||  Bar|||}"
  {
    SingleMember("|||", "  ", Bar);
  }
}
