/** What the two dashboards share around the lineage query: the selections the submit button
    reads, the request update_table sends to get_lineage, the frame that comes back, the
    unit-operation filter and the dropdown options. */
module Grid {
  import opened Common
  import opened Text
  import opened LineageModel
  import opened LineageQuery

  /** A callback's n_clicks: None before the first click. */
  predicate Clicked(nClicks: Option<int>)
  {
    nClicks.Some? && nClicks.value != 0
  }

  /** The value of the item-codes dropdown: a list of codes (it is a multi-select), or
      something else (None, a single value) when the browser sends one. */
  datatype Selection = Codes(items: seq<string>) | Scalar(value: Cell)

  predicate Chosen(sel: Selection)
  {
    match sel
    case Codes(items) => items != []
    case Scalar(c) => Truthy(c)
  }

  /** varTraceFor: `", ".join(list)` for a list, `str(value)` otherwise. */
  function StartNodes(sel: Selection): (s: string)
    ensures sel.Codes? && |sel.items| == 1 ==> s == sel.items[0]
    ensures sel.Scalar? ==> s == PyStr(sel.value)
  {
    match sel
    case Codes(items) => Join(", ", items)
    case Scalar(c) => PyStr(c)
  }

  /** Several selected codes are sent as one text, longer than each of them, so no lot or item
      code equal to one of the selected codes is looked up on its own. */
  lemma JoinedSelectionIsOneText(sel: Selection, k: nat)
    requires sel.Codes? && |sel.items| >= 2 && k < |sel.items|
    ensures |StartNodes(sel)| > |sel.items[k]|
    ensures StartNodes(sel) != sel.items[k]
  {
    JoinLongerThanParts(", ", sel.items, k);
  }

  /** The arguments of the get_lineage call. */
  datatype Request = Request(startNodes: string, endNodes: Option<string>, outputType: string,
                             genOrTrc: string, level: Option<int>, outputcols: Option<string>, cols: seq<Column>)

  /** The request both dashboards build: no end nodes, a polars frame, level -99. */
  function RequestFor(sel: Selection, genOrTrc: string, outputcols: string, cols: seq<Column>): (q: Request)
    ensures q.startNodes == StartNodes(sel) && q.genOrTrc == genOrTrc
    ensures q.endNodes == None && q.outputType == "polars"
    ensures QueryLevel(q.level) == 99
    ensures q.outputcols == Some(outputcols) && q.cols == cols
  {
    Request(StartNodes(sel), None, "polars", genOrTrc, Some(-99), Some(outputcols), cols)
  }

  /** What the get_lineage call gave the callback: an exception, or the polars frame as the rows
      of a pandas frame. */
  datatype Answer = Raised | Frame(rows: seq<Row>)

  /** The cells of a grouping key under the column names of the select list. */
  function NamedCells(names: seq<string>, key: seq<Cell>): (r: Row)
    ensures forall n :: n in r ==> n in names
    decreases |names|
  {
    if names == [] || key == [] then map[]
    else NamedCells(names[1..], key[1..])[names[0] := key[0]]
  }

  /** A name's cell is the key's cell at the name's first position. */
  lemma {:induction false} NamedCellsAt(names: seq<string>, key: seq<Cell>, i: nat)
    requires i < |names| && i < |key| && names[i] !in names[..i]
    ensures names[i] in NamedCells(names, key) && NamedCells(names, key)[names[i]] == key[i]
    decreases |names|
  {
    if i > 0 {
      assert names[..i] == [names[0]] + names[1..][..i - 1];
      assert names[1..][i - 1] == names[i] && key[1..][i - 1] == key[i];
      NamedCellsAt(names[1..], key[1..], i - 1);
    }
  }

  /** One row of the frame: a group of the grouped query with its CntRecs. */
  function GroupRow(names: seq<string>, key: seq<Cell>, count: nat): (r: Row)
    ensures forall n :: n in r ==> n in names || n == "CntRecs"
    ensures "CntRecs" in r && r["CntRecs"] == Int(count)
  {
    NamedCells(names, key)["CntRecs" := Int(count)]
  }

  /** The frame lists the groups of the grouped result in some order: as many rows as groups,
      no row twice, each row a group with its count. An error of get_lineage reaches the callback
      as an exception. */
  ghost predicate Enumerates(res: Result<LineageOutput, LineageError>, names: seq<string>, ans: Answer)
  {
    match res
    case Failure(_) => ans == Raised
    case Success(out) =>
      out.table.Grouped? && ans.Frame? && |ans.rows| == |out.table.groups| && NoDuplicates(ans.rows)
      && forall i :: 0 <= i < |ans.rows| ==>
           exists g :: g in out.table.groups && ans.rows[i] == GroupRow(names, g, out.table.groups[g])
  }

  /** The names of a select list, in order. */
  function Names(select: seq<(string, Column)>): (ns: seq<string>)
    ensures |ns| == |select| && forall i :: 0 <= i < |select| ==> ns[i] == select[i].0
  {
    seq(|select|, i requires 0 <= i < |select| => select[i].0)
  }

  /** The columns of a select list, in order. */
  function Columns(select: seq<(string, Column)>): (cs: seq<Column>)
    ensures |cs| == |select| && forall i :: 0 <= i < |select| ==> cs[i] == select[i].1
  {
    seq(|select|, i requires 0 <= i < |select| => select[i].1)
  }

  /** Every group of a grouped result is the projection of some output row on the columns. */
  ghost predicate GroupsProjected(res: Result<LineageOutput, LineageError>, cols: seq<Column>)
  {
    res.Success? && res.value.table.Grouped? ==>
      forall g :: g in res.value.table.groups ==> exists o: OutRow :: Project(o, SelectColumns, cols) == g
  }

  lemma QueryGroupsProjected(db: Database, t: Tables, genOrTrc: string, text: string, cols: seq<Column>)
    requires OutputColsBranch(Some(text)) == SelectColumns
    ensures GroupsProjected(Query(db, t, false, genOrTrc, "polars", Some(text), cols), cols)
  {
    var res := Query(db, t, false, genOrTrc, "polars", Some(text), cols);
    if res.Success? {
      var rows := Selected(db, t, false, genOrTrc);
      var tbl := Tabulate(db, rows, SelectColumns, cols);
      assert res.value.table == tbl;
      forall g | g in tbl.groups ensures exists o: OutRow :: Project(o, SelectColumns, cols) == g {
        var s :| s in rows && Project(Enrich(db, s), SelectColumns, cols) == g;
      }
    }
  }

  /** A value of the grouped frame: the cell the select list's column has on one output row. */
  lemma FrameCell(res: Result<LineageOutput, LineageError>, select: seq<(string, Column)>, ans: Answer, i: nat, k: nat)
    requires Enumerates(res, Names(select), ans) && GroupsProjected(res, Columns(select))
    requires ans.Frame? && i < |ans.rows| && k < |select|
    requires select[k].0 !in Names(select)[..k] && select[k].0 != "CntRecs"
    ensures select[k].0 in ans.rows[i]
    ensures exists o: OutRow :: ans.rows[i][select[k].0] == ColumnValue(o, select[k].1)
  {
    var names, cols := Names(select), Columns(select);
    var groups := res.value.table.groups;
    var g :| g in groups && ans.rows[i] == GroupRow(names, g, groups[g]);
    var o: OutRow :| Project(o, SelectColumns, cols) == g;
    GroupCell(names, cols, o, groups[g], k);
  }

  /** The frame cell under the name of a level column is an integer. */
  lemma FrameLevel(res: Result<LineageOutput, LineageError>, select: seq<(string, Column)>, ans: Answer, i: nat, k: nat)
    requires Enumerates(res, Names(select), ans) && GroupsProjected(res, Columns(select))
    requires ans.Frame? && i < |ans.rows| && k < |select| && select[k].1 == LevelCol
    requires select[k].0 !in Names(select)[..k] && select[k].0 != "CntRecs"
    ensures select[k].0 in ans.rows[i] && ans.rows[i][select[k].0].Int?
  {
    FrameCell(res, select, ans, i, k);
    var o: OutRow :| ans.rows[i][select[k].0] == ColumnValue(o, select[k].1);
    assert ColumnValue(o, LevelCol) == Int(o.row.level);
  }

  /** The cell of a group row under a select-list name is the column's value. */
  lemma GroupCell(names: seq<string>, cols: seq<Column>, o: OutRow, count: nat, k: nat)
    requires |names| == |cols| && k < |names| && names[k] !in names[..k] && names[k] != "CntRecs"
    ensures var r := GroupRow(names, Project(o, SelectColumns, cols), count);
      names[k] in r && r[names[k]] == ColumnValue(o, cols[k])
  {
    var g := Project(o, SelectColumns, cols);
    NamedCellsAt(names, g, k);
  }

  /** The unit-operation test of both dashboards: `row[key] in unit_operation_val`. */
  predicate UnitOpMatch(row: Row, unitOps: seq<string>)
  {
    var p, i := Get(row, "ProductItemCode", Null), Get(row, "IngredientItemCode", Null);
    (p.Str? && p.s in unitOps) || (i.Str? && i.s in unitOps)
  }

  function UnitOpTest(unitOps: seq<string>): Row -> bool
  {
    x => UnitOpMatch(x, unitOps)
  }

  /** The filter is applied only when a unit operation is selected. */
  function UnitOpFiltered(rows: seq<Row>, unitOps: seq<string>): (r: seq<Row>)
    ensures unitOps == [] ==> r == rows
    ensures unitOps != [] ==> forall x :: x in r <==> x in rows && UnitOpMatch(x, unitOps)
    ensures unitOps != [] ==> (Subsequence(r, rows)
      && forall x :: multiset(r)[x] == if UnitOpMatch(x, unitOps) then multiset(rows)[x] else 0)
  {
    if unitOps == [] then rows
    else
      FilterKeepsOrder(rows, UnitOpTest(unitOps));
      Filter(rows, UnitOpTest(unitOps))
  }

  /** The grid rows and the all-data store update_table fills; the third output, the grid's
      filter model, is always reset to `{}`. */
  datatype TableUpdate = TableUpdate(rowData: seq<Row>, allData: seq<Row>)

  const NoRows: TableUpdate := TableUpdate([], [])

  /** The label of a dropdown entry. */
  function Caption(o: ItemOption): string { o.caption }

  function Values(os: seq<ItemOption>): (vs: seq<string>)
    ensures |vs| == |os| && forall i :: 0 <= i < |os| ==> vs[i] == os[i].value
  {
    seq(|os|, i requires 0 <= i < |os| => os[i].value)
  }

  /** `dropna` then `str()`: the code a row contributes to a dropdown, if any. */
  function CodeOf(row: Row, key: string): (c: Option<string>)
    ensures c.None? <==> Get(row, key, Null).Null?
  {
    var v := Get(row, key, Null);
    if v.Null? then None else Some(PyStr(v))
  }

  /** Sorting dropdown options keeps their values duplicate-free. */
  lemma SortedValuesDistinct(os: seq<ItemOption>)
    requires NoDuplicates(Values(os))
    ensures NoDuplicates(Values(SortBy(os, Caption)))
  {
    assert NoDuplicates(os) by {
      forall i, j | 0 <= i < j < |os| ensures os[i] != os[j] {
        assert Values(os)[i] != Values(os)[j];
      }
    }
    var sorted := SortBy(os, Caption);
    SortByNoDuplicates(os, Caption);
    forall i, j | 0 <= i < j < |sorted| ensures Values(sorted)[i] != Values(sorted)[j] {
      assert sorted[i] in multiset(os) && sorted[j] in multiset(os);
      var a :| 0 <= a < |os| && os[a] == sorted[i];
      var b :| 0 <= b < |os| && os[b] == sorted[j];
      assert a != b;
      if a < b {
        assert Values(os)[a] != Values(os)[b];
      } else {
        assert Values(os)[b] != Values(os)[a];
      }
    }
  }

  lemma ValuesAppend(a: seq<ItemOption>, b: seq<ItemOption>)
    ensures Values(a + b) == Values(a) + Values(b)
  {
  }

  /** Sorting dropdown options keeps the set of their values. */
  lemma SortedValues(os: seq<ItemOption>, c: string)
    ensures c in Values(SortBy(os, Caption)) <==> c in Values(os)
  {
    var sorted := SortBy(os, Caption);
    if c in Values(sorted) {
      var k :| 0 <= k < |sorted| && Values(sorted)[k] == c;
      assert sorted[k] in multiset(os);
      var m :| 0 <= m < |os| && os[m] == sorted[k];
      assert Values(os)[m] == c;
    }
    if c in Values(os) {
      var m :| 0 <= m < |os| && Values(os)[m] == c;
      assert os[m] in multiset(sorted);
      var k :| 0 <= k < |sorted| && sorted[k] == os[m];
      assert Values(sorted)[k] == c;
    }
  }

  // ---------------------------------------------------------------------------------------
  // The two select lists and the grid rows made from the frame

  /** The select list of both dashboards' update_table, under the names the frame gets. The
      level column is named `Level` in both: app2.py aliases it so explicitly, and app.py's
      unaliased reference `level` keeps the spelling the column was defined with
      (`1 as Level`), as DuckDB names an unaliased column reference. */
  const DashboardSelect: seq<(string, Column)> := [
    ("type", TypeCol), ("root_parentlot", RootParentLotCol), ("root_itemcode", RootItemCodeCol),
    ("startnode", ProductParentLotCol), ("product_itemcode", ProductItemCodeCol),
    ("endnode", IngredientParentLotCol), ("ingredient_itemcode", IngredientItemCodeCol),
    ("Level", LevelCol),
    ("ParentName", RootUnitOpNameCol), ("ProductName", ProductUnitOpNameCol),
    ("IngredientName", IngredientUnitOpNameCol),
    ("ParentDescription", RootDescriptionCol), ("ProductDescription", ProductDescriptionCol),
    ("IngredientDescription", IngredientDescriptionCol)]

  const FirstAppOutputCols: string :=
    "type, root_parentlot, root_itemcode, product_parentlot as startnode, product_itemcode, "
    + "ingredient_parentlot as endnode, ingredient_itemcode, level, "
    + "root_unit_op_name as ParentName, product_unit_op_name as ProductName, "
    + "ingredient_unit_op_name as IngredientName, "
    + "root_description as ParentDescription, product_description as ProductDescription, "
    + "ingredient_description as IngredientDescription, COUNT(*) as CntRecs"

  /** The select list names the level `Level`, eighth, and no earlier column so. */
  lemma DashboardLevelName()
    ensures |DashboardSelect| == 14 && DashboardSelect[7] == ("Level", LevelCol)
    ensures "Level" !in Names(DashboardSelect)[..7]
  {
    assert Names(DashboardSelect)[..7] == ["type", "root_parentlot", "root_itemcode", "startnode",
                                           "product_itemcode", "endnode", "ingredient_itemcode"];
  }

  const SecondAppOutputCols: string :=
    "type, root_parentlot, root_itemcode, product_parentlot as startnode, product_itemcode, "
    + "ingredient_parentlot as endnode, ingredient_itemcode, level as Level, "
    + "root_unit_op_name as ParentName, product_unit_op_name as ProductName, "
    + "ingredient_unit_op_name as IngredientName, "
    + "root_description as ParentDescription, product_description as ProductDescription, "
    + "ingredient_description as IngredientDescription, COUNT(*) as CntRecs"

  /** The grid row of one frame row: `row.get(column, default)` under the grid's names; the two
      dashboards differ only in the default of Level. */
  function GridRow(row: Row, levelDefault: Cell): (r: Row)
    ensures r.Keys == GridColumns
    ensures r["Level"] == Get(row, "Level", levelDefault)
    ensures r["ProductItemCode"] == Get(row, "product_itemcode", Str(""))
    && r["IngredientItemCode"] == Get(row, "ingredient_itemcode", Str(""))
    && r["ParentItemCode"] == Get(row, "root_itemcode", Str(""))
    && r["CntRecs"] == Get(row, "CntRecs", Int(0))
    ensures r["ParentName"] == Get(row, "ParentDescription", Str(""))
    && r["ParentPN"] == Get(row, "root_parentlot", Str(""))
    && r["ProductName"] == Get(row, "ProductDescription", Str(""))
    && r["ProductPN"] == Get(row, "startnode", Str(""))
    && r["IngredientName"] == Get(row, "IngredientDescription", Str(""))
    && r["IngredientPN"] == Get(row, "endnode", Str(""))
  {
    map c | c in GridColumns :: GridCell(row, levelDefault, c)
  }

  /** Which frame column feeds each grid column, and its default (the last case is IngredientPN). */
  function GridCell(row: Row, levelDefault: Cell, column: string): Cell
  {
    if column == "Level" then Get(row, "Level", levelDefault)
    else if column == "CntRecs" then Get(row, "CntRecs", Int(0))
    else if column == "ProductItemCode" then Get(row, "product_itemcode", Str(""))
    else if column == "IngredientItemCode" then Get(row, "ingredient_itemcode", Str(""))
    else if column == "ParentItemCode" then Get(row, "root_itemcode", Str(""))
    else if column == "ParentName" then Get(row, "ParentDescription", Str(""))
    else if column == "ParentPN" then Get(row, "root_parentlot", Str(""))
    else if column == "ProductName" then Get(row, "ProductDescription", Str(""))
    else if column == "ProductPN" then Get(row, "startnode", Str(""))
    else if column == "IngredientName" then Get(row, "IngredientDescription", Str(""))
    else Get(row, "endnode", Str(""))
  }

  const GridColumns: set<string> := {
    "ParentItemCode", "ParentName", "ParentPN", "Level", "ProductItemCode", "ProductName",
    "ProductPN", "IngredientItemCode", "IngredientName", "IngredientPN", "CntRecs"}
}
