/**
 * The module-imports table of a module's property page. Each row shows an
 * imported module's name, its version and, in its third column, "shared"
 * when the import is exported. The page toggles the shared column of the
 * selected rows and removes the selected rows, passing the affected module
 * names on to the module descriptor; the language module is never touched.
 *
 * Table items are modelled as the rows of a sequence, a selection as the
 * indices of the selected rows. The updates of the module descriptor
 * (making imports shared, removing and adding imports) are external: the
 * model returns the names it would hand to them.
 */
module ModuleProperties {
  import opened TextUtil

  /** The name of the language module, which is imported implicitly. */
  const LanguageModuleName: string := "ceylon.language"

  /** Text of the third column for an exported import. */
  const SharedText: string := "shared"

  /** One table row: module name, version, and the text of the shared column. */
  datatype Row = Row(name: string, version: string, shared: string)

  /** A module of the project, and what it imports. */
  datatype ModuleInfo = ModuleInfo(name: string, version: string, imports: seq<ModuleImport>)

  /** An import of another module (known by name and version), exported or not. */
  datatype ModuleImport = ModuleImport(moduleName: string, moduleVersion: string, isExport: bool)

  /** The shared column of every row holds one of the two texts the page writes. */
  predicate WellFormed(rows: seq<Row>) {
    forall k :: 0 <= k < |rows| ==> rows[k].shared == SharedText || rows[k].shared == ""
  }

  // ---------------------------------------------------------------------
  // Rows shown for the module's imports
  // ---------------------------------------------------------------------

  /** The row of one import, its third column "shared" exactly when the import is exported. */
  function ImportRow(mi: ModuleImport): Row {
    Row(mi.moduleName, mi.moduleVersion, if mi.isExport then SharedText else "")
  }

  /** The rows the table starts with: one per import of the module, in order. */
  function ImportRows(imports: seq<ModuleImport>): (r: seq<Row>)
    ensures |r| == |imports| && WellFormed(r)
    ensures forall k :: 0 <= k < |imports| ==>
              r[k].name == imports[k].moduleName && r[k].version == imports[k].moduleVersion
              && (r[k].shared == SharedText <==> imports[k].isExport)
              && (r[k].shared == "" <==> !imports[k].isExport)
  {
    if |imports| == 0 then [] else ImportRows(imports[..|imports| - 1]) + [ImportRow(imports[|imports| - 1])]
  }

  /** One more import adds its row at the end, and a well-formed table stays well formed. */
  lemma ImportRowsSnoc(start: seq<Row>, imports: seq<ModuleImport>, n: nat)
    requires n < |imports|
    ensures start + ImportRows(imports[..n + 1]) == start + ImportRows(imports[..n]) + [ImportRow(imports[n])]
    ensures WellFormed(start + ImportRows(imports[..n])) ==> WellFormed(start + ImportRows(imports[..n + 1]))
  {
    assert imports[..n + 1][..n] == imports[..n];
  }

  /** Rows for modules chosen in the import dialog: name and version, not shared. */
  function AddedRows(added: seq<(string, string)>): (r: seq<Row>)
    ensures |r| == |added| && WellFormed(r)
    ensures forall k :: 0 <= k < |added| ==> r[k] == Row(added[k].0, added[k].1, "")
  {
    if |added| == 0 then [] else AddedRows(added[..|added| - 1]) + [Row(added[|added| - 1].0, added[|added| - 1].1, "")]
  }

  // ---------------------------------------------------------------------
  // The selection without the language module
  // ---------------------------------------------------------------------

  predicate ValidSelection(rows: seq<Row>, selection: seq<nat>) {
    forall i :: 0 <= i < |selection| ==> selection[i] < |rows|
  }

  /** No row is selected twice. */
  predicate Distinct(selection: seq<nat>) {
    forall i, j :: 0 <= i < j < |selection| ==> selection[i] != selection[j]
  }

  /** The selected indices whose row is not the language module, in selection order. */
  function Affected(rows: seq<Row>, selection: seq<nat>): (r: seq<nat>)
    requires ValidSelection(rows, selection)
    ensures forall k :: 0 <= k < |r| ==> r[k] < |rows|
  {
    if |selection| == 0 then []
    else
      Affected(rows, selection[..|selection| - 1])
      + (if rows[selection[|selection| - 1]].name != LanguageModuleName then [selection[|selection| - 1]] else [])
  }

  /** The names of the rows at some indices. */
  function Names(rows: seq<Row>, indices: seq<nat>): (r: seq<string>)
    requires forall i :: 0 <= i < |indices| ==> indices[i] < |rows|
    ensures |r| == |indices|
    ensures forall k :: 0 <= k < |indices| ==> r[k] == rows[indices[k]].name
  {
    if |indices| == 0 then [] else Names(rows, indices[..|indices| - 1]) + [rows[indices[|indices| - 1]].name]
  }

  /**
   * The affected indices are exactly the selected rows that are not the language
   * module, so the language module's name is never among their names.
   */
  lemma {:induction false} AffectedIsSelectionWithoutLanguage(rows: seq<Row>, selection: seq<nat>)
    requires ValidSelection(rows, selection)
    ensures forall i :: i in Affected(rows, selection) <==> i in selection && rows[i].name != LanguageModuleName
    ensures LanguageModuleName !in Names(rows, Affected(rows, selection))
  {
    if |selection| > 0 {
      var init := selection[..|selection| - 1];
      var last := selection[|selection| - 1];
      AffectedIsSelectionWithoutLanguage(rows, init);
      assert selection == init + [last];
      var a := Affected(rows, selection);
      forall i ensures i in a <==> i in selection && rows[i].name != LanguageModuleName {
        if i in selection && rows[i].name != LanguageModuleName && i != last {
          assert i in init;
        }
      }
    }
    var a := Affected(rows, selection);
    forall k | 0 <= k < |a| ensures Names(rows, a)[k] != LanguageModuleName {
      assert a[k] in a;
    }
  }

  // ---------------------------------------------------------------------
  // Toggling the shared column
  // ---------------------------------------------------------------------

  /** The shared column after one toggle: an empty column becomes "shared", any other becomes empty. */
  function Flip(shared: string): string {
    if shared == "" then SharedText else ""
  }

  /** Toggling one row: the language module's row stays as it is. */
  function ToggleRow(rows: seq<Row>, i: nat): seq<Row>
    requires i < |rows|
  {
    if rows[i].name == LanguageModuleName then rows else rows[i := rows[i].(shared := Flip(rows[i].shared))]
  }

  /** The table after the second loop of makeShared, which toggles the selected rows one by one. */
  function Toggled(rows: seq<Row>, selection: seq<nat>): (r: seq<Row>)
    requires ValidSelection(rows, selection)
    ensures |r| == |rows|
  {
    if |selection| == 0 then rows
    else
      ToggleRow(Toggled(rows, selection[..|selection| - 1]), selection[|selection| - 1])
  }

  /**
   * Toggling changes only the shared column, only of selected rows that are not
   * the language module, and (when no row is selected twice) flips it on each of
   * those; well-formed rows stay well formed.
   */
  lemma {:induction false} ToggledRows(rows: seq<Row>, selection: seq<nat>)
    requires ValidSelection(rows, selection)
    ensures |Toggled(rows, selection)| == |rows|
    ensures forall j :: 0 <= j < |rows| ==>
              Toggled(rows, selection)[j].name == rows[j].name
              && Toggled(rows, selection)[j].version == rows[j].version
    ensures forall j :: 0 <= j < |rows| && (j !in selection || rows[j].name == LanguageModuleName) ==>
              Toggled(rows, selection)[j] == rows[j]
    ensures Distinct(selection) ==>
              forall j :: 0 <= j < |rows| && j in selection && rows[j].name != LanguageModuleName ==>
                Toggled(rows, selection)[j].shared == Flip(rows[j].shared)
    ensures WellFormed(rows) ==> WellFormed(Toggled(rows, selection))
  {
    if |selection| > 0 {
      var init := selection[..|selection| - 1];
      var last := selection[|selection| - 1];
      ToggledRows(rows, init);
      assert selection == init + [last];
      var before := Toggled(rows, init);
      assert Toggled(rows, selection) == ToggleRow(before, last);
      if Distinct(selection) {
        assert last !in init;
        assert Distinct(init);
      }
    }
  }

  /** Toggling the same selection twice gives the table back. */
  lemma ToggleTwice(rows: seq<Row>, selection: seq<nat>)
    requires ValidSelection(rows, selection) && Distinct(selection) && WellFormed(rows)
    ensures ValidSelection(Toggled(rows, selection), selection)
    ensures Toggled(Toggled(rows, selection), selection) == rows
  {
    ToggledRows(rows, selection);
    var once := Toggled(rows, selection);
    ToggledRows(once, selection);
    var twice := Toggled(once, selection);
    forall j | 0 <= j < |rows| ensures twice[j] == rows[j] {
    }
  }

  // ---------------------------------------------------------------------
  // Removing rows
  // ---------------------------------------------------------------------

  /** The rows left after the table removes the rows at the given indices, in their order. */
  function Kept(rows: seq<Row>, removed: seq<nat>): seq<Row> {
    if |rows| == 0 then []
    else Kept(rows[..|rows| - 1], removed) + (if |rows| - 1 in removed then [] else [rows[|rows| - 1]])
  }

  /** Every row whose index is not removed is kept, and nothing but rows of the table is kept. */
  lemma {:induction false} KeptRows(rows: seq<Row>, removed: seq<nat>)
    ensures forall j :: 0 <= j < |rows| && j !in removed ==> rows[j] in Kept(rows, removed)
    ensures forall r :: r in Kept(rows, removed) ==> r in rows
    ensures |Kept(rows, removed)| <= |rows|
    ensures WellFormed(rows) ==> WellFormed(Kept(rows, removed))
  {
    if |rows| > 0 {
      var init := rows[..|rows| - 1];
      KeptRows(init, removed);
      assert rows == init + [rows[|rows| - 1]];
      forall j | 0 <= j < |rows| && j !in removed ensures rows[j] in Kept(rows, removed) {
        if j < |init| {
          assert init[j] == rows[j];
        }
      }
      if WellFormed(rows) {
        var k := Kept(rows, removed);
        forall m | 0 <= m < |k| ensures k[m].shared == SharedText || k[m].shared == "" {
          assert k[m] in rows;
        }
      }
    }
  }

  /**
   * The removed rows go: every kept row stands at an index that is not removed,
   * and exactly one row is kept per index that is not removed.
   */
  lemma {:induction false} RemovedRowsGo(rows: seq<Row>, removed: seq<nat>)
    ensures forall r :: r in Kept(rows, removed) ==> exists j :: 0 <= j < |rows| && j !in removed && rows[j] == r
    ensures |Kept(rows, removed)| + |set j | 0 <= j < |rows| && j in removed| == |rows|
  {
    if |rows| > 0 {
      var n := |rows| - 1;
      var init := rows[..n];
      RemovedRowsGo(init, removed);
      forall r | r in Kept(rows, removed) ensures exists j :: 0 <= j < |rows| && j !in removed && rows[j] == r {
        if r in Kept(init, removed) {
          var j :| 0 <= j < |init| && j !in removed && init[j] == r;
          assert rows[j] == r;
        } else {
          assert rows[n] == r;
        }
      }
      var below := set j | 0 <= j < n && j in removed;
      var upTo := set j | 0 <= j < |rows| && j in removed;
      if n in removed {
        assert upTo == below + {n};
      } else {
        assert upTo == below;
      }
    }
  }

  /**
   * After removeSelectedModules, every row that was not selected and every row of
   * the language module is still in the table.
   */
  lemma RemovalKeepsUnselectedAndLanguage(rows: seq<Row>, selection: seq<nat>)
    requires ValidSelection(rows, selection)
    ensures forall j :: 0 <= j < |rows| && (j !in selection || rows[j].name == LanguageModuleName) ==>
              rows[j] in Kept(rows, Affected(rows, selection))
  {
    AffectedIsSelectionWithoutLanguage(rows, selection);
    KeptRows(rows, Affected(rows, selection));
  }

  // ---------------------------------------------------------------------
  // The page
  // ---------------------------------------------------------------------

  class ModulePropertiesPage {
    /** Whether the page found the project of its package fragment. */
    const hasProject: bool
    /** The project's modules, when the project has been typechecked. */
    const projectModules: Option<seq<ModuleInfo>>
    /** The name of the package fragment the page is about. */
    const packageName: string
    /** The module-imports table. */
    var rows: seq<Row>

    predicate Valid()
      reads this
    {
      WellFormed(rows)
    }

    constructor (hasProject: bool, projectModules: Option<seq<ModuleInfo>>, packageName: string)
      ensures Valid() && rows == []
      ensures this.hasProject == hasProject && this.projectModules == projectModules
      ensures this.packageName == packageName
    {
      this.hasProject := hasProject;
      this.projectModules := projectModules;
      this.packageName := packageName;
      rows := [];
    }

    /**
     * getModule: the first of the project's modules named like the package
     * fragment; none without a project, without a module list, or without such
     * a module.
     */
    method GetModule() returns (m: Option<ModuleInfo>)
      ensures m.None? <==>
                !hasProject || projectModules.None?
                || forall k :: 0 <= k < |projectModules.value| ==> projectModules.value[k].name != packageName
      ensures m.Some? ==>
                projectModules.Some? && m.value.name == packageName
                && exists k :: 0 <= k < |projectModules.value| && projectModules.value[k] == m.value
                               && forall k' :: 0 <= k' < k ==> projectModules.value[k'].name != packageName
    {
      if !hasProject {
        return None;
      }
      if projectModules == None {
        return None;
      }
      var modules := projectModules.value;
      var n := 0;
      while n < |modules|
        invariant 0 <= n <= |modules|
        invariant forall k :: 0 <= k < n ==> modules[k].name != packageName
      {
        if modules[n].name == packageName {
          return Some(modules[n]);
        }
        n := n + 1;
      }
      return None;
    }

    /**
     * The import rows of createModulesBlock: one row per import of the page's
     * module, the first project module named like the package. Without a module
     * the source fails on null and no row is added.
     */
    method LoadImports() returns (loaded: bool)
      requires Valid()
      modifies this`rows
      ensures Valid()
      ensures loaded <==>
                hasProject && projectModules.Some?
                && exists k :: 0 <= k < |projectModules.value| && projectModules.value[k].name == packageName
      ensures loaded ==>
                projectModules.Some?
                && exists k :: 0 <= k < |projectModules.value| && projectModules.value[k].name == packageName
                               && (forall k' :: 0 <= k' < k ==> projectModules.value[k'].name != packageName)
                               && rows == old(rows) + ImportRows(projectModules.value[k].imports)
      ensures !loaded ==> rows == old(rows)
    {
      var m := GetModule();
      if m == None {
        return false;
      }
      ghost var k :| 0 <= k < |projectModules.value| && projectModules.value[k] == m.value
                     && forall k' :: 0 <= k' < k ==> projectModules.value[k'].name != packageName;
      assert projectModules.value[k].name == packageName;
      AddImportRows(m.value.imports);
      return true;
    }

    /** The loop of createModulesBlock over the module's imports: one row each, in order. */
    method AddImportRows(imports: seq<ModuleImport>)
      requires Valid()
      modifies this`rows
      ensures Valid() && rows == old(rows) + ImportRows(imports)
    {
      var n := 0;
      ghost var start := rows;
      while n < |imports|
        invariant 0 <= n <= |imports|
        invariant rows == start + ImportRows(imports[..n])
        invariant WellFormed(rows)
      {
        ImportRowsSnoc(start, imports, n);
        var mi := imports[n];
        rows := rows + [Row(mi.moduleName, mi.moduleVersion, if mi.isExport then "shared" else "")];
        n := n + 1;
      }
      assert imports[..n] == imports;
    }

    /** The end of selectAndAddModules: a row for each module added through the dialog, in the map's order. */
    method AddModules(added: seq<(string, string)>)
      requires Valid()
      modifies this`rows
      ensures Valid() && rows == old(rows) + AddedRows(added)
    {
      var n := 0;
      ghost var start := rows;
      while n < |added|
        invariant 0 <= n <= |added|
        invariant rows == start + AddedRows(added[..n])
        invariant WellFormed(rows)
      {
        assert added[..n + 1][..n] == added[..n];
        rows := rows + [Row(added[n].0, added[n].1, "")];
        n := n + 1;
      }
      assert added[..n] == added;
    }

    /**
     * makeShared: the names of the selected rows other than the language module
     * go to the descriptor, and those rows have their shared column toggled.
     */
    method MakeShared(selection: seq<nat>) returns (sent: seq<string>)
      requires Valid() && ValidSelection(rows, selection)
      modifies this`rows
      ensures Valid()
      ensures sent == Names(old(rows), Affected(old(rows), selection))
      ensures rows == Toggled(old(rows), selection)
    {
      AffectedIsSelectionWithoutLanguage(rows, selection);
      var affected := AffectedIndices(selection);
      sent := NamesAt(affected);
      var n := 0;
      ghost var start := rows;
      ToggledRows(start, selection);
      while n < |selection|
        invariant 0 <= n <= |selection|
        invariant ValidSelection(start, selection[..n])
        invariant rows == Toggled(start, selection[..n])
      {
        assert selection[..n + 1][..n] == selection[..n];
        var i := selection[n];
        if rows[i].name != "ceylon.language" {
          rows := rows[i := rows[i].(shared := if rows[i].shared == "" then "shared" else "")];
        }
        n := n + 1;
      }
      assert selection[..n] == selection;
    }

    /**
     * removeSelectedModules: the selected rows other than the language module are
     * removed from the table, and their names, paired with their indices, go to
     * the descriptor.
     */
    method RemoveSelectedModules(selection: seq<nat>) returns (names: seq<string>, removed: seq<nat>)
      requires Valid() && ValidSelection(rows, selection)
      modifies this`rows
      ensures Valid()
      ensures removed == Affected(old(rows), selection)
      ensures names == Names(old(rows), removed)
      ensures rows == Kept(old(rows), removed)
    {
      AffectedIsSelectionWithoutLanguage(rows, selection);
      removed := AffectedIndices(selection);
      names := NamesAt(removed);
      KeptRows(rows, removed);
      rows := Kept(rows, removed);
    }

    /** The loop over the selection that keeps the indices of rows other than the language module. */
    method AffectedIndices(selection: seq<nat>) returns (affected: seq<nat>)
      requires ValidSelection(rows, selection)
      ensures affected == Affected(rows, selection)
    {
      affected := [];
      var n := 0;
      while n < |selection|
        invariant 0 <= n <= |selection|
        invariant ValidSelection(rows, selection[..n])
        invariant affected == Affected(rows, selection[..n])
      {
        assert selection[..n + 1][..n] == selection[..n];
        if rows[selection[n]].name != "ceylon.language" {
          affected := affected + [selection[n]];
        }
        n := n + 1;
      }
      assert selection[..n] == selection;
    }

    /** The names of the rows at the given indices, collected in a loop. */
    method NamesAt(indices: seq<nat>) returns (names: seq<string>)
      requires forall k :: 0 <= k < |indices| ==> indices[k] < |rows|
      ensures names == Names(rows, indices)
    {
      names := [];
      var n := 0;
      while n < |indices|
        invariant 0 <= n <= |indices|
        invariant names == Names(rows, indices[..n])
      {
        assert indices[..n + 1][..n] == indices[..n];
        names := names + [rows[indices[n]].name];
        n := n + 1;
      }
      assert indices[..n] == indices;
    }
  }
}
