/** The `get_objects` result: the hierarchy flattened level by level into Arrow arrays and split again by
    checked offsets, and how it reads back. */
module ObjectsBatch {
  import opened Wrappers
  import opened Sequences
  import opened Columnar
  import Objects

  datatype Leaf = Str(s: string) | Num(n: int)

  type LeafCell = Cell<Leaf>
  type LeafArray = Array<Leaf>

  /** The array reads, slot by slot, as these cells. */
  ghost predicate Shows<L>(a: Array<L>, cells: seq<Cell<L>>) {
    a.Valid() && a.Length() == |cells| && forall i :: 0 <= i < |cells| ==> a.Slot(i) == cells[i]
  }

  // ---- Splitting by lengths ------------------------------------------------------------------------------

  function ListCell<L>(cells: seq<Cell<L>>, valid: bool): Cell<L> {
    if valid then Elements(cells) else NullCell
  }

  function IsValid(nulls: Option<seq<bool>>, i: nat): bool
    requires nulls.Some? ==> i < |nulls.value|
  {
    nulls.Some? ==> nulls.value[i]
  }

  /** One list per group; `nulls` marks lists as SQL NULL. */
  function Grouped<L>(groups: seq<seq<Cell<L>>>, nulls: Option<seq<bool>>): seq<Cell<L>>
    requires nulls.Some? ==> |nulls.value| == |groups|
  {
    seq(|groups|, i requires 0 <= i < |groups| => ListCell(groups[i], IsValid(nulls, i)))
  }

  /** `list_of_nullable`: fails exactly when the elements do not fit `i32`; otherwise reads back as the groups
      whose flattened elements and lengths it was given. */
  method ListOfNullable<L>(lengths: seq<nat>, child: Array<L>, nulls: Option<seq<bool>>, ghost groups: seq<seq<Cell<L>>>)
    returns (r: Option<Array<L>>)
    requires Shows(child, Flatten(groups)) && LengthsOf(groups, lengths)
    requires nulls.Some? ==> |nulls.value| == |groups|
    ensures r.Some? <==> |Flatten(groups)| <= I32_MAX
    ensures r.Some? ==> Shows(r.value, Grouped(groups, nulls))
  {
    hide Flatten, Shows, Grouped;
    var offsets: seq<nat> := [0];
    var acc := 0;
    var i := 0;
    assert groups[..0] == [];
    NoBatches<Cell<L>>();
    while i < |lengths|
      invariant 0 <= i <= |lengths| && |offsets| == i + 1 && acc == offsets[i] <= I32_MAX
      invariant forall k :: 0 <= k <= i ==> offsets[k] == |Flatten(groups[..k])|
    {
      FlattenPrefix(groups, i);
      if lengths[i] > I32_MAX || acc + lengths[i] > I32_MAX {
        return None;
      }
      acc := acc + lengths[i];
      offsets := offsets + [acc];
      i := i + 1;
    }
    assert groups[..i] == groups;
    var validity := seq(|lengths|, k requires 0 <= k < |lengths| => IsValid(nulls, k));
    var a := Lists(offsets, child, validity);
    ListShows(a, groups, nulls);
    return Some(a);
  }

  predicate LengthsOf<T>(groups: seq<seq<T>>, lengths: seq<nat>) {
    |lengths| == |groups| && forall i :: 0 <= i < |groups| ==> lengths[i] == |groups[i]|
  }

  lemma {:induction false} FlattenGrows<T>(groups: seq<seq<T>>, i: nat, j: nat)
    requires i <= j <= |groups|
    ensures |Flatten(groups[..i])| <= |Flatten(groups[..j])|
  {
    hide Flatten;
    if i < j {
      FlattenGrows(groups, i, j - 1);
      FlattenPrefix(groups, j - 1);
    }
  }

  lemma {:induction false} ListShows<L>(a: Array<L>, groups: seq<seq<Cell<L>>>, nulls: Option<seq<bool>>)
    requires a.Lists? && Shows(a.child, Flatten(groups)) && |Flatten(groups)| <= I32_MAX
    requires nulls.Some? ==> |nulls.value| == |groups|
    requires |a.offsets| == |groups| + 1 && forall k :: 0 <= k <= |groups| ==> a.offsets[k] == |Flatten(groups[..k])|
    requires |a.validity| == |groups| && forall k :: 0 <= k < |groups| ==> a.validity[k] == IsValid(nulls, k)
    ensures Shows(a, Grouped(groups, nulls))
  {
    hide Flatten;
    NoBatches<Cell<L>>();
    assert groups[..0] == [] && groups[..|groups|] == groups;
    forall i, j | 0 <= i <= j <= |groups| ensures a.offsets[i] <= a.offsets[j] {
      FlattenGrows(groups, i, j);
    }
    assert a.Valid();
    forall i | 0 <= i < |groups| ensures a.Slot(i) == ListCell(groups[i], IsValid(nulls, i)) {
      FlattenPrefix(groups, i);
      forall j | 0 <= j < |groups[i]| ensures a.child.Slot(a.offsets[i] + j) == groups[i][j] {
        FlattenAt(groups, i, j);
      }
      if a.validity[i] {
        assert a.Slot(i).cells == groups[i];
      }
    }
  }

  /** `new_null_array` of a list type. */
  function NullLists(n: nat): LeafArray {
    Lists(seq(n + 1, i => 0), Flat([]), seq(n, i => false))
  }

  function Nulls(n: nat): seq<LeafCell> {
    seq(n, i => NullCell)
  }

  lemma {:induction false} NullListsShow(n: nat)
    ensures Shows(NullLists(n), Nulls(n))
  {
    var a := NullLists(n);
    assert a.child.Valid() && a.child.Length() == 0;
    assert a.Valid();
  }

  // ---- Plain columns and structs -------------------------------------------------------------------------

  function StrCell(s: string): LeafCell {
    Cell.Leaf(Str(s))
  }

  function Strings(xs: seq<string>): LeafArray {
    Flat(Map(s => Some(Str(s)), xs))
  }

  lemma {:induction false} StringsShow(xs: seq<string>)
    ensures Shows(Strings(xs), Map(StrCell, xs))
  {
  }

  /** `StructArray::try_new` without a null mask. */
  function StructOf(children: seq<LeafArray>): LeafArray
    requires children != []
  {
    Structs(children, seq(children[0].Length(), i => true))
  }

  /** Row `i` of some columns. */
  function RowOf(columns: seq<seq<LeafCell>>, i: nat): LeafCell
    requires forall k :: 0 <= k < |columns| ==> i < |columns[k]|
  {
    Fields(seq(|columns|, k requires 0 <= k < |columns| => columns[k][i]))
  }

  lemma {:induction false} StructShows(children: seq<LeafArray>, columns: seq<seq<LeafCell>>, cells: seq<LeafCell>)
    requires children != [] && |columns| == |children|
    requires forall k :: 0 <= k < |children| ==> Shows(children[k], columns[k]) && |columns[k]| == |cells|
    requires forall i :: 0 <= i < |cells| ==> cells[i] == RowOf(columns, i)
    ensures Shows(StructOf(children), cells)
  {
    var a := StructOf(children);
    forall k | 0 <= k < |children| ensures children[k].Valid() && children[k].Length() == |a.validity| {
      assert Shows(children[k], columns[k]) && Shows(children[0], columns[0]);
    }
    assert a.Valid() && a.Length() == |cells|;
    forall i | 0 <= i < |cells| ensures a.Slot(i) == cells[i] {
      forall k | 0 <= k < |children| ensures children[k].Slot(i) == columns[k][i] {
        assert Shows(children[k], columns[k]);
      }
      assert a.Slot(i).cells == cells[i].cells;
    }
  }

  // ---- Columns and constraints ---------------------------------------------------------------------------

  function YesNo(nullable: bool): string {
    if nullable then "YES" else "NO"
  }

  function ColumnCell(c: Objects.Column): LeafCell {
    Fields([StrCell(c.name), Cell.Leaf(Num(c.ordinal)), StrCell(c.typeName), StrCell(YesNo(c.nullable))])
  }

  /** `build_column_struct`, with the fields it populates. */
  function ColumnStruct(columns: seq<Objects.Column>): LeafArray {
    StructOf([Strings(Map((c: Objects.Column) => c.name, columns)),
              Flat(Map((c: Objects.Column) => Some(Num(c.ordinal)), columns)),
              Strings(Map((c: Objects.Column) => c.typeName, columns)),
              Strings(Map((c: Objects.Column) => YesNo(c.nullable), columns))])
  }

  lemma {:induction false} ColumnStructShows(columns: seq<Objects.Column>)
    ensures Shows(ColumnStruct(columns), Map(ColumnCell, columns))
  {
    hide Shows, YesNo;
    var children := ColumnStruct(columns).children;
    var cells := [Map((c: Objects.Column) => StrCell(c.name), columns),
                  Map((c: Objects.Column) => Cell.Leaf(Num(c.ordinal)), columns),
                  Map((c: Objects.Column) => StrCell(c.typeName), columns),
                  Map((c: Objects.Column) => StrCell(YesNo(c.nullable)), columns)];
    FlatShows(children[0], cells[0]);
    FlatShows(children[1], cells[1]);
    FlatShows(children[2], cells[2]);
    FlatShows(children[3], cells[3]);
    forall i | 0 <= i < |columns| ensures ColumnCell(columns[i]) == RowOf(cells, i) {
      assert ColumnCell(columns[i]).cells == RowOf(cells, i).cells;
    }
    StructShows(children, cells, Map(ColumnCell, columns));
  }

  lemma {:induction false} FlatShows(a: LeafArray, cells: seq<LeafCell>)
    requires a.Flat? && |a.slots| == |cells|
    requires forall i :: 0 <= i < |cells| ==> cells[i] == if a.slots[i].Some? then Cell.Leaf(a.slots[i].value) else NullCell
    ensures Shows(a, cells)
  {
  }

  function UsageCell(catalog: string): Objects.Usage -> LeafCell {
    (u: Objects.Usage) => Fields([StrCell(catalog), StrCell(u.schema), StrCell(u.table), StrCell(u.column)])
  }

  /** `build_usage_struct`. */
  function UsageStruct(catalog: string, usages: seq<Objects.Usage>): LeafArray {
    StructOf([Strings(Map((u: Objects.Usage) => catalog, usages)),
              Strings(Map((u: Objects.Usage) => u.schema, usages)),
              Strings(Map((u: Objects.Usage) => u.table, usages)),
              Strings(Map((u: Objects.Usage) => u.column, usages))])
  }

  lemma {:induction false} UsageStructShows(catalog: string, usages: seq<Objects.Usage>)
    ensures Shows(UsageStruct(catalog, usages), Map(UsageCell(catalog), usages))
  {
    hide Shows;
    var children := UsageStruct(catalog, usages).children;
    var cells := [Map((u: Objects.Usage) => StrCell(catalog), usages),
                  Map((u: Objects.Usage) => StrCell(u.schema), usages),
                  Map((u: Objects.Usage) => StrCell(u.table), usages),
                  Map((u: Objects.Usage) => StrCell(u.column), usages)];
    FlatShows(children[0], cells[0]);
    FlatShows(children[1], cells[1]);
    FlatShows(children[2], cells[2]);
    FlatShows(children[3], cells[3]);
    forall i | 0 <= i < |usages| ensures UsageCell(catalog)(usages[i]) == RowOf(cells, i) {
      assert UsageCell(catalog)(usages[i]).cells == RowOf(cells, i).cells;
    }
    StructShows(children, cells, Map(UsageCell(catalog), usages));
  }

  function NameCell(name: Option<string>): LeafCell {
    if name.Some? then StrCell(name.value) else NullCell
  }

  predicate IsForeignKey(c: Objects.Constraint) {
    c.constraintType == "FOREIGN KEY"
  }

  /** A constraint: its usages are SQL NULL unless it is a foreign key. */
  function ConstraintCell(catalog: string): Objects.Constraint -> LeafCell {
    (c: Objects.Constraint) =>
      Fields([NameCell(c.name), StrCell(c.constraintType), Elements(Map(StrCell, c.columns)),
              ListCell(Map(UsageCell(catalog), c.usages), IsForeignKey(c))])
  }

  function ColumnNames(cs: seq<Objects.Constraint>): seq<seq<string>> {
    Map((c: Objects.Constraint) => c.columns, cs)
  }

  function UsageLists(cs: seq<Objects.Constraint>): seq<seq<Objects.Usage>> {
    Map((c: Objects.Constraint) => c.usages, cs)
  }

  predicate ConstraintsFit(cs: seq<Objects.Constraint>) {
    |Flatten(ColumnNames(cs))| <= I32_MAX && |Flatten(UsageLists(cs))| <= I32_MAX
  }

  /** `build_constraint_struct`. */
  method BuildConstraintStruct(catalog: string, cs: seq<Objects.Constraint>) returns (r: Option<LeafArray>)
    ensures r.Some? <==> ConstraintsFit(cs)
    ensures r.Some? ==> Shows(r.value, Map(ConstraintCell(catalog), cs))
  {
    hide Shows, Flatten, StructOf;
    var columnChild := Strings(Flatten(ColumnNames(cs)));
    StringsShow(Flatten(ColumnNames(cs)));
    FlattenMap(StrCell, ColumnNames(cs));
    var names := ListOfNullable(Map((c: Objects.Constraint) => |c.columns|, cs), columnChild, None, MapEach(StrCell, ColumnNames(cs)));
    if names.None? {
      return None;
    }
    var usageChild := UsageStruct(catalog, Flatten(UsageLists(cs)));
    UsageStructShows(catalog, Flatten(UsageLists(cs)));
    FlattenMap(UsageCell(catalog), UsageLists(cs));
    var valid := Map(IsForeignKey, cs);
    var usages := ListOfNullable(Map((c: Objects.Constraint) => |c.usages|, cs), usageChild, Some(valid), MapEach(UsageCell(catalog), UsageLists(cs)));
    if usages.None? {
      return None;
    }
    var children := [Flat(Map((c: Objects.Constraint) => if c.name.Some? then Some(Str(c.name.value)) else None, cs)),
                     Strings(Map((c: Objects.Constraint) => c.constraintType, cs)), names.value, usages.value];
    ConstraintRowsShow(catalog, cs, children);
    return Some(StructOf(children));
  }

  lemma {:induction false} ConstraintRowsShow(catalog: string, cs: seq<Objects.Constraint>, children: seq<LeafArray>)
    requires |children| == 4
    requires children[0] == Flat(Map((c: Objects.Constraint) => if c.name.Some? then Some(Str(c.name.value)) else None, cs))
    requires children[1] == Strings(Map((c: Objects.Constraint) => c.constraintType, cs))
    requires Shows(children[2], Grouped(MapEach(StrCell, ColumnNames(cs)), None))
    requires Shows(children[3], Grouped(MapEach(UsageCell(catalog), UsageLists(cs)), Some(Map(IsForeignKey, cs))))
    ensures Shows(StructOf(children), Map(ConstraintCell(catalog), cs))
  {
    hide Shows;
    var cells := [Map((c: Objects.Constraint) => NameCell(c.name), cs),
                  Map((c: Objects.Constraint) => StrCell(c.constraintType), cs),
                  Grouped(MapEach(StrCell, ColumnNames(cs)), None),
                  Grouped(MapEach(UsageCell(catalog), UsageLists(cs)), Some(Map(IsForeignKey, cs)))];
    FlatShows(children[0], cells[0]);
    FlatShows(children[1], cells[1]);
    forall i | 0 <= i < |cs| ensures ConstraintCell(catalog)(cs[i]) == RowOf(cells, i) {
      assert ConstraintCell(catalog)(cs[i]).cells == RowOf(cells, i).cells;
    }
    StructShows(children, cells, Map(ConstraintCell(catalog), cs));
  }

  // ---- Tables and schemas --------------------------------------------------------------------------------

  datatype ObjectDepth = Catalogs | Schemas | Tables | Columns | All

  predicate PopulateTables(depth: ObjectDepth) {
    depth.All? || depth.Tables? || depth.Columns?
  }

  predicate PopulateColumns(depth: ObjectDepth) {
    depth.All? || depth.Columns?
  }

  /** A table: its columns and constraints are SQL NULL above column depth. */
  function TableCell(depth: ObjectDepth, catalog: string): Objects.Table -> LeafCell {
    (t: Objects.Table) =>
      Fields([StrCell(t.name), StrCell(t.tableType), ListCell(Map(ColumnCell, t.columns), PopulateColumns(depth)),
              ListCell(Map(ConstraintCell(catalog), t.constraints), PopulateColumns(depth))])
  }

  function ColumnLists(ts: seq<Objects.Table>): seq<seq<Objects.Column>> {
    Map((t: Objects.Table) => t.columns, ts)
  }

  function ConstraintLists(ts: seq<Objects.Table>): seq<seq<Objects.Constraint>> {
    Map((t: Objects.Table) => t.constraints, ts)
  }

  predicate TablesFit(depth: ObjectDepth, ts: seq<Objects.Table>) {
    PopulateColumns(depth) ==>
      && |Flatten(ColumnLists(ts))| <= I32_MAX && |Flatten(ConstraintLists(ts))| <= I32_MAX
      && ConstraintsFit(Flatten(ConstraintLists(ts)))
  }

  method BuildColumnLists(depth: ObjectDepth, ts: seq<Objects.Table>) returns (r: Option<LeafArray>)
    ensures r.Some? <==> (PopulateColumns(depth) ==> |Flatten(ColumnLists(ts))| <= I32_MAX)
    ensures r.Some? ==>
      Shows(r.value, Map((t: Objects.Table) => ListCell(Map(ColumnCell, t.columns), PopulateColumns(depth)), ts))
  {
    hide Shows, Flatten;
    ghost var cells := Map((t: Objects.Table) => ListCell(Map(ColumnCell, t.columns), PopulateColumns(depth)), ts);
    if !PopulateColumns(depth) {
      NullListsShow(|ts|);
      assert Nulls(|ts|) == cells;
      return Some(NullLists(|ts|));
    }
    var columns := Flatten(ColumnLists(ts));
    ColumnStructShows(columns);
    FlattenMap(ColumnCell, ColumnLists(ts));
    r := ListOfNullable(Map((t: Objects.Table) => |t.columns|, ts), ColumnStruct(columns), None, MapEach(ColumnCell, ColumnLists(ts)));
    assert Grouped(MapEach(ColumnCell, ColumnLists(ts)), None) == cells;
  }

  method BuildConstraintLists(depth: ObjectDepth, catalog: string, ts: seq<Objects.Table>) returns (r: Option<LeafArray>)
    ensures r.Some? <==>
      (PopulateColumns(depth) ==> |Flatten(ConstraintLists(ts))| <= I32_MAX && ConstraintsFit(Flatten(ConstraintLists(ts))))
    ensures r.Some? ==>
      Shows(r.value, Map((t: Objects.Table) => ListCell(Map(ConstraintCell(catalog), t.constraints), PopulateColumns(depth)), ts))
  {
    hide Shows, Flatten, ConstraintsFit;
    ghost var cells := Map((t: Objects.Table) => ListCell(Map(ConstraintCell(catalog), t.constraints), PopulateColumns(depth)), ts);
    if !PopulateColumns(depth) {
      NullListsShow(|ts|);
      assert Nulls(|ts|) == cells;
      return Some(NullLists(|ts|));
    }
    var constraints := Flatten(ConstraintLists(ts));
    var child := BuildConstraintStruct(catalog, constraints);
    if child.None? {
      return None;
    }
    FlattenMap(ConstraintCell(catalog), ConstraintLists(ts));
    r := ListOfNullable(Map((t: Objects.Table) => |t.constraints|, ts), child.value, None, MapEach(ConstraintCell(catalog), ConstraintLists(ts)));
    assert Grouped(MapEach(ConstraintCell(catalog), ConstraintLists(ts)), None) == cells;
  }

  method BuildTableStruct(depth: ObjectDepth, catalog: string, ts: seq<Objects.Table>) returns (r: Option<LeafArray>)
    ensures r.Some? <==> TablesFit(depth, ts)
    ensures r.Some? ==> Shows(r.value, Map(TableCell(depth, catalog), ts))
  {
    hide Shows, Flatten, ConstraintsFit, PopulateColumns;
    var columns := BuildColumnLists(depth, ts);
    if columns.None? {
      return None;
    }
    var constraints := BuildConstraintLists(depth, catalog, ts);
    if constraints.None? {
      return None;
    }
    var names, types := Map((t: Objects.Table) => t.name, ts), Map((t: Objects.Table) => t.tableType, ts);
    var children := [Strings(names), Strings(types), columns.value, constraints.value];
    ghost var cells := [Map(StrCell, names), Map(StrCell, types),
                        Map((t: Objects.Table) => ListCell(Map(ColumnCell, t.columns), PopulateColumns(depth)), ts),
                        Map((t: Objects.Table) => ListCell(Map(ConstraintCell(catalog), t.constraints), PopulateColumns(depth)), ts)];
    StringsShow(names);
    StringsShow(types);
    forall i | 0 <= i < |ts| ensures TableCell(depth, catalog)(ts[i]) == RowOf(cells, i) {
      assert TableCell(depth, catalog)(ts[i]).cells == RowOf(cells, i).cells;
    }
    StructShows(children, cells, Map(TableCell(depth, catalog), ts));
    return Some(StructOf(children));
  }

  /** A schema: its tables are SQL NULL above table depth. */
  function SchemaCell(depth: ObjectDepth, catalog: string): Objects.DbSchema -> LeafCell {
    (s: Objects.DbSchema) =>
      Fields([StrCell(s.name), ListCell(Map(TableCell(depth, catalog), s.tables), PopulateTables(depth))])
  }

  function TableLists(ss: seq<Objects.DbSchema>): seq<seq<Objects.Table>> {
    Map((s: Objects.DbSchema) => s.tables, ss)
  }

  predicate SchemasFit(depth: ObjectDepth, ss: seq<Objects.DbSchema>) {
    PopulateTables(depth) ==> |Flatten(TableLists(ss))| <= I32_MAX && TablesFit(depth, Flatten(TableLists(ss)))
  }

  method BuildSchemaStruct(depth: ObjectDepth, catalog: string, ss: seq<Objects.DbSchema>) returns (r: Option<LeafArray>)
    ensures r.Some? <==> SchemasFit(depth, ss)
    ensures r.Some? ==> Shows(r.value, Map(SchemaCell(depth, catalog), ss))
  {
    hide Shows, Flatten, TablesFit;
    var names := Map((s: Objects.DbSchema) => s.name, ss);
    StringsShow(names);
    var tables := NullLists(|ss|);
    ghost var tableCells := Map((s: Objects.DbSchema) => ListCell(Map(TableCell(depth, catalog), s.tables), PopulateTables(depth)), ss);
    if PopulateTables(depth) {
      var child := BuildTableStruct(depth, catalog, Flatten(TableLists(ss)));
      if child.None? {
        return None;
      }
      FlattenMap(TableCell(depth, catalog), TableLists(ss));
      var lists := ListOfNullable(Map((s: Objects.DbSchema) => |s.tables|, ss), child.value, None, MapEach(TableCell(depth, catalog), TableLists(ss)));
      if lists.None? {
        return None;
      }
      assert Grouped(MapEach(TableCell(depth, catalog), TableLists(ss)), None) == tableCells;
      tables := lists.value;
    } else {
      NullListsShow(|ss|);
      assert Nulls(|ss|) == tableCells;
    }
    ghost var cells := [Map(StrCell, names), tableCells];
    forall i | 0 <= i < |ss| ensures SchemaCell(depth, catalog)(ss[i]) == RowOf(cells, i) {
      assert SchemaCell(depth, catalog)(ss[i]).cells == RowOf(cells, i).cells;
    }
    StructShows([Strings(names), tables], cells, Map(SchemaCell(depth, catalog), ss));
    return Some(StructOf([Strings(names), tables]));
  }

  /** The one catalog's `catalog_db_schemas`. */
  function CatalogCell(depth: ObjectDepth, catalog: string, ss: seq<Objects.DbSchema>): LeafCell {
    ListCell(Map(SchemaCell(depth, catalog), ss), !depth.Catalogs?)
  }

  predicate Fits(depth: ObjectDepth, ss: seq<Objects.DbSchema>) {
    !depth.Catalogs? ==> |ss| <= I32_MAX && SchemasFit(depth, ss)
  }

  /** `build`: flattening and splitting again by checked offsets recovers the hierarchy, cut to the depth; it
      fails exactly when the elements of some level do not fit `i32`. */
  method Build(depth: ObjectDepth, catalog: string, ss: seq<Objects.DbSchema>) returns (r: Option<LeafArray>)
    ensures r.Some? <==> Fits(depth, ss)
    ensures r.Some? ==> r.value.Valid() && r.value.Length() == 1 && r.value.Slot(0) == CatalogCell(depth, catalog, ss)
  {
    hide Flatten, SchemasFit, SchemaCell;
    if depth.Catalogs? {
      NullListsShow(1);
      return Some(NullLists(1));
    }
    var child := BuildSchemaStruct(depth, catalog, ss);
    if child.None? {
      return None;
    }
    ghost var groups := [Map(SchemaCell(depth, catalog), ss)];
    assert Flatten(groups) == groups[0] by {
      PrependBatch(groups[0], []);
      NoBatches<LeafCell>();
      assert groups == [groups[0]] + [] && groups[0] + [] == groups[0];
    }
    r := ListOfNullable([|ss|], child.value, None, groups);
  }

  // ---- Reading the result ------------------------------------------------------------------------------------

  /** A consumer's view of the result: struct fields by position, lists as their elements. */
  function At(cell: LeafCell, k: nat): LeafCell {
    if cell.Fields? && k < |cell.cells| then cell.cells[k] else NullCell
  }

  function ReadText(cell: LeafCell): string {
    if cell.Leaf? && cell.value.Str? then cell.value.s else ""
  }

  function ReadNumber(cell: LeafCell): int {
    if cell.Leaf? && cell.value.Num? then cell.value.n else 0
  }

  function ReadItems(cell: LeafCell): seq<LeafCell> {
    if cell.Elements? then cell.cells else []
  }

  function ReadColumn(cell: LeafCell): Objects.Column {
    Objects.Column(ReadText(At(cell, 0)), ReadNumber(At(cell, 1)), ReadText(At(cell, 3)) == "YES", ReadText(At(cell, 2)))
  }

  function ReadUsage(cell: LeafCell): Objects.Usage {
    Objects.Usage(ReadText(At(cell, 1)), ReadText(At(cell, 2)), ReadText(At(cell, 3)))
  }

  function ReadConstraint(cell: LeafCell): Objects.Constraint {
    Objects.Constraint(if At(cell, 0) == NullCell then None else Some(ReadText(At(cell, 0))), ReadText(At(cell, 1)),
                       Map(ReadText, ReadItems(At(cell, 2))), Map(ReadUsage, ReadItems(At(cell, 3))))
  }

  function ReadTable(cell: LeafCell): Objects.Table {
    Objects.Table(ReadText(At(cell, 0)), ReadText(At(cell, 1)), Map(ReadColumn, ReadItems(At(cell, 2))),
                  Map(ReadConstraint, ReadItems(At(cell, 3))))
  }

  function ReadSchema(cell: LeafCell): Objects.DbSchema {
    Objects.DbSchema(ReadText(At(cell, 0)), Map(ReadTable, ReadItems(At(cell, 1))))
  }

  predicate UsagesFit(c: Objects.Constraint) {
    c.constraintType != "FOREIGN KEY" ==> c.usages == []
  }

  predicate TableUsagesFit(t: Objects.Table) {
    forall i :: 0 <= i < |t.constraints| ==> UsagesFit(t.constraints[i])
  }

  predicate SchemaUsagesFit(s: Objects.DbSchema) {
    forall i :: 0 <= i < |s.tables| ==> TableUsagesFit(s.tables[i])
  }

  /** A column and a usage read back from their structs; every usage names the catalog. */
  lemma {:induction false} ReadsLeaves(c: Objects.Column, catalog: string, u: Objects.Usage)
    ensures ReadColumn(ColumnCell(c)) == c
    ensures ReadUsage(UsageCell(catalog)(u)) == u && ReadText(At(UsageCell(catalog)(u), 0)) == catalog
  {
  }

  lemma {:induction false} MapBack<T, U>(f: T -> U, g: U -> T, xs: seq<T>)
    requires forall i :: 0 <= i < |xs| ==> g(f(xs[i])) == xs[i]
    ensures Map(g, Map(f, xs)) == xs
  {
  }

  /** A constraint reads back; its usages are SQL NULL exactly when it is no foreign key. */
  lemma {:induction false} ReadsConstraint(catalog: string, c: Objects.Constraint)
    requires UsagesFit(c)
    ensures ReadConstraint(ConstraintCell(catalog)(c)) == c
    ensures At(ConstraintCell(catalog)(c), 3) == NullCell <==> c.constraintType != "FOREIGN KEY"
  {
    hide ReadUsage, UsageCell;
    MapBack(StrCell, ReadText, c.columns);
    forall i | 0 <= i < |c.usages| ensures ReadUsage(UsageCell(catalog)(c.usages[i])) == c.usages[i] {
      ReadsLeaves(Objects.Column("", 0, false, ""), catalog, c.usages[i]);
    }
    MapBack(UsageCell(catalog), ReadUsage, c.usages);
  }

  /** What a depth leaves of a table and of a schema. */
  function CutTable(depth: ObjectDepth, t: Objects.Table): Objects.Table {
    if depth.Columns? || depth.All? then t else t.(columns := [], constraints := [])
  }

  function CutSchema(depth: ObjectDepth, s: Objects.DbSchema): Objects.DbSchema {
    if depth.Schemas? then s.(tables := []) else s.(tables := Map(t => CutTable(depth, t), s.tables))
  }

  lemma {:induction false} ReadsTable(depth: ObjectDepth, catalog: string, t: Objects.Table)
    requires TableUsagesFit(t)
    ensures var cell := TableCell(depth, catalog)(t);
            && ReadTable(cell) == CutTable(depth, t)
            && (At(cell, 2) == NullCell <==> !(depth.Columns? || depth.All?)) && (At(cell, 3) == NullCell <==> !(depth.Columns? || depth.All?))
  {
    hide ReadColumn, ColumnCell, ReadConstraint, ConstraintCell;
    forall i | 0 <= i < |t.columns| ensures ReadColumn(ColumnCell(t.columns[i])) == t.columns[i] {
      ReadsLeaves(t.columns[i], catalog, Objects.Usage("", "", ""));
    }
    MapBack(ColumnCell, ReadColumn, t.columns);
    forall i | 0 <= i < |t.constraints| ensures ReadConstraint(ConstraintCell(catalog)(t.constraints[i])) == t.constraints[i] {
      ReadsConstraint(catalog, t.constraints[i]);
    }
    MapBack(ConstraintCell(catalog), ReadConstraint, t.constraints);
  }

  lemma {:induction false} ReadsSchema(depth: ObjectDepth, catalog: string, s: Objects.DbSchema)
    requires SchemaUsagesFit(s) && !depth.Catalogs?
    ensures ReadSchema(SchemaCell(depth, catalog)(s)) == CutSchema(depth, s)
    ensures At(SchemaCell(depth, catalog)(s), 1) == NullCell <==> depth.Schemas?
  {
    hide ReadTable, TableCell, CutTable;
    forall i | 0 <= i < |s.tables| ensures ReadTable(TableCell(depth, catalog)(s.tables[i])) == CutTable(depth, s.tables[i]) {
      ReadsTable(depth, catalog, s.tables[i]);
    }
    if !depth.Schemas? {
      assert Map(ReadTable, Map(TableCell(depth, catalog), s.tables)) == Map(t => CutTable(depth, t), s.tables);
    }
  }

  /** Read by position, the built result is the hierarchy, cut to the depth: schemas, tables, columns and constraints
      with all their fields, in order; SQL NULL instead of a list stands for a level the depth leaves out. */
  lemma {:induction false} ReadsHierarchy(depth: ObjectDepth, catalog: string, ss: seq<Objects.DbSchema>)
    requires forall i :: 0 <= i < |ss| ==> SchemaUsagesFit(ss[i])
    ensures CatalogCell(depth, catalog, ss) == NullCell <==> depth.Catalogs?
    ensures !depth.Catalogs? ==>
              Map(ReadSchema, ReadItems(CatalogCell(depth, catalog, ss))) == Map(s => CutSchema(depth, s), ss)
    ensures depth.All? || depth.Columns? ==> Map(ReadSchema, ReadItems(CatalogCell(depth, catalog, ss))) == ss
  {
    hide ReadSchema, SchemaCell, CutSchema;
    if !depth.Catalogs? {
      forall i | 0 <= i < |ss| ensures ReadSchema(SchemaCell(depth, catalog)(ss[i])) == CutSchema(depth, ss[i]) {
        ReadsSchema(depth, catalog, ss[i]);
      }
      if depth.All? || depth.Columns? {
        forall i | 0 <= i < |ss| ensures CutSchema(depth, ss[i]) == ss[i] {
          UncutSchema(depth, ss[i]);
        }
      }
    }
  }

  lemma {:induction false} UncutSchema(depth: ObjectDepth, s: Objects.DbSchema)
    requires depth.All? || depth.Columns?
    ensures CutSchema(depth, s) == s
  {
    assert Map(t => CutTable(depth, t), s.tables) == s.tables;
  }

  /** What `assemble_objects` produces has the shape the result can carry. */
  lemma {:induction false} AssembledFits(b: Objects.Batches, f: Objects.Filters)
    ensures forall i :: 0 <= i < |Objects.NaiveObjects(b, f)| ==> SchemaUsagesFit(Objects.NaiveObjects(b, f)[i])
  {
    hide Objects.NaiveObjects;
    var ss := Objects.NaiveObjects(b, f);
    forall i, j, k | 0 <= i < |ss| && 0 <= j < |ss[i].tables| && 0 <= k < |ss[i].tables[j].constraints|
      ensures UsagesFit(ss[i].tables[j].constraints[k])
    {
      var d := ss[i];
      var t := d.tables[j];
      assert d in ss && t in d.tables && t.constraints[k] in t.constraints;
      Objects.ListedConstraints(b, f, d, t, "", "");
    }
  }
}
