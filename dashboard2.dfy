/** The callbacks of the second dashboard (app2.py): the lookup dropdown that fills the
    genealogy/traceability checklist, the submit button's update_table with its product-code
    and unit-operation filters, the unit-operation dropdown's options and the clear button. */
module Dashboard2 {
  import opened Common
  import opened Text
  import opened LineageModel
  import opened LineageQuery
  import opened Grid
  import opened Hierarchy
  import opened TreeChart
  import opened Dashboard

  // ---------------------------------------------------------------------------------------
  // The lookup dropdown and the checklist

  /** update_checklist_based_on_lookup: the checklist a lookup type selects ('where_used' and
      anything unknown select nothing). */
  function LookupChecklist(lookup: Option<string>): (checked: seq<string>)
    ensures forall k :: 0 <= k < |checked| ==> checked[k] == "gen" || checked[k] == "trc"
    ensures NoDuplicates(checked)
    ensures "gen" in checked <==> lookup == Some("making") || lookup == Some("link")
    ensures "trc" in checked <==> lookup == Some("link") || lookup == Some("consumed")
  {
    if lookup == None || lookup == Some("") then []
    else if lookup == Some("making") then ["gen"]
    else if lookup == Some("link") then ["gen", "trc"]
    else if lookup == Some("consumed") then ["trc"]
    else []
  }

  /** update_table's GenOrTrc: None when no branch assigns it, and the callback's first use of
      it then raises (an unbound local), which the callback turns into empty results. */
  function GenOrTrcOf(checked: seq<string>): (g: Option<string>)
    ensures checked == [] ==> g == Some("all")
    ensures g.Some? ==> g.value == "all" || g.value == "gen" || g.value == "trc"
    ensures g.None? <==> checked != [] && |checked| != 2 && "gen" !in checked && "trc" !in checked
  {
    if checked == [] then Some("all")
    else if |checked| == 2 then Some("all")
    else if "gen" in checked then Some("gen")
    else if "trc" in checked then Some("trc")
    else None
  }

  /** Every value the checklist can hold picks a direction: genealogy runs when Genealogy is
      ticked or nothing is, traceability when Traceability is ticked or nothing is. */
  lemma ChecklistDirection(checked: seq<string>)
    requires forall k :: 0 <= k < |checked| ==> checked[k] == "gen" || checked[k] == "trc"
    requires NoDuplicates(checked)
    ensures GenOrTrcOf(checked).Some?
    ensures IncludesGen(GenOrTrcOf(checked).value) <==> checked == [] || "gen" in checked
    ensures IncludesTrc(GenOrTrcOf(checked).value) <==> checked == [] || "trc" in checked
  {
    if |checked| == 1 {
      assert checked[0] in checked;
    } else if |checked| >= 2 {
      assert checked[0] != checked[1];
      TwoOptions(checked[0], checked[1], checked[Min(2, |checked| - 1)]);
      assert "gen" in checked && "trc" in checked;
    }
  }

  /** Three ticks among two options repeat one. */
  lemma TwoOptions(a: string, b: string, c: string)
    requires a == "gen" || a == "trc"
    requires b == "gen" || b == "trc"
    requires c == "gen" || c == "trc"
    ensures a == b || b == c || a == c
  {
  }

  /** The lookup type decides the query's direction: 'making' genealogy only, 'consumed'
      traceability only, every other choice (among them 'where_used' and none) both. */
  lemma LookupDirection(lookup: Option<string>)
    ensures GenOrTrcOf(LookupChecklist(lookup)) ==
      Some(if lookup == Some("making") then "gen" else if lookup == Some("consumed") then "trc" else "all")
  {
    ChecklistDirection(LookupChecklist(lookup));
  }

  /** The get_lineage call of update_table, when GenOrTrc is bound. */
  function RequestOf2(sel: Selection, checked: seq<string>): (q: Option<Request>)
    ensures q.None? <==> GenOrTrcOf(checked).None?
    ensures q.Some? ==>
      q.value.genOrTrc == GenOrTrcOf(checked).value && q.value.startNodes == StartNodes(sel)
      && q.value.outputcols == Some(SecondAppOutputCols) && q.value.cols == Columns(DashboardSelect)
  {
    match GenOrTrcOf(checked)
    case None => None
    case Some(g) => Some(RequestFor(sel, g, SecondAppOutputCols, Columns(DashboardSelect)))
  }

  // ---------------------------------------------------------------------------------------
  // The frame update_table builds its rows from

  /** `pd.to_numeric(.., errors='coerce').fillna(0).astype(int)` of one Level cell: integers
      stay, integer text is parsed, anything else becomes 0. */
  function CoerceLevel(c: Cell): (l: Cell)
    ensures l.Int?
    ensures c.Int? ==> l == c
    ensures c.Null? ==> l == Int(0)
    ensures c.Str? && ParseInt(c.s).None? ==> l == Int(0)
  {
    match c
    case Null => Int(0)
    case Int(_) => c
    case Str(s) => match ParseInt(s) case None => Int(0) case Some(i) => Int(i)
  }

  /** The text of an integer coerces back to that integer. */
  lemma CoerceLevelText(i: int)
    ensures CoerceLevel(Str(IntToString(i))) == Int(i)
  {
    ParseIntOfIntToString(i);
  }

  /** `df['Level']` raises unless the frame has the column. */
  predicate HasLevelColumn(rows: seq<Row>)
  {
    exists i :: 0 <= i < |rows| && "Level" in rows[i]
  }

  /** A frame row after the Level column is coerced; a row without the cell holds NaN there. */
  function Coerced(row: Row): (r: Row)
    ensures r.Keys == row.Keys + {"Level"}
    ensures r["Level"] == CoerceLevel(Get(row, "Level", Null))
    ensures forall k :: k in row && k != "Level" ==> r[k] == row[k]
  {
    row["Level" := CoerceLevel(Get(row, "Level", Null))]
  }

  /** The three cells whose non-null values make up `item_codes`. */
  predicate HasItemCode(row: Row)
  {
    !Get(row, "product_itemcode", Null).Null? || !Get(row, "ingredient_itemcode", Null).Null?
    || !Get(row, "root_itemcode", Null).Null?
  }

  /** item_to_product: empty when the frame has no item code; otherwise what
      get_item_to_product_mapping answered, None when that call raised. */
  function ItemToProduct(rows: seq<Row>, answered: Option<map<Cell, Cell>>): (m: Option<map<Cell, Cell>>)
    ensures (forall i :: 0 <= i < |rows| ==> !HasItemCode(rows[i])) ==> m == Some(map[])
    ensures (exists i :: 0 <= i < |rows| && HasItemCode(rows[i])) ==> m == answered
  {
    if exists i :: 0 <= i < |rows| && HasItemCode(rows[i]) then answered else Some(map[])
  }

  /** `item_to_product.get(code, None)`. */
  function ProductOf(m: map<Cell, Cell>, code: Cell): (c: Cell)
    ensures code in m ==> c == m[code]
    ensures code !in m ==> c == Null
  {
    if code in m then m[code] else Null
  }

  const HelperColumns: set<string> := {"ProductCode", "IngredientProductCode", "RootProductCode"}

  /** The helper columns are none of the grid's. */
  lemma HelperColumnsApart()
    ensures forall k :: k in GridColumns ==> k !in HelperColumns
  {
  }

  /** The three product codes added to a grid row. */
  function WithProductCodes(g: Row, m: map<Cell, Cell>): (h: Row)
    requires "ProductItemCode" in g && "IngredientItemCode" in g && "ParentItemCode" in g
  {
    g["ProductCode" := ProductOf(m, g["ProductItemCode"])]
     ["IngredientProductCode" := ProductOf(m, g["IngredientItemCode"])]
     ["RootProductCode" := ProductOf(m, g["ParentItemCode"])]
  }

  /** One row of mapped_data before the pops: the grid row of the coerced frame row, and the
      product code of each of its three item codes. */
  function HelperRow(row: Row, m: map<Cell, Cell>): (h: Row)
    ensures h.Keys == GridColumns + HelperColumns
  {
    WithProductCodes(GridRow(Coerced(row), Int(0)), m)
  }

  function HelperRows(rows: seq<Row>, m: map<Cell, Cell>): (hs: seq<Row>)
    ensures |hs| == |rows| && forall i :: 0 <= i < |rows| ==> hs[i] == HelperRow(rows[i], m)
  {
    seq(|rows|, i requires 0 <= i < |rows| => HelperRow(rows[i], m))
  }

  /** The product-code filter's test: one of the row's three product codes is the selected one. */
  predicate ProductMatch(h: Row, productCode: Cell)
    ensures (forall k :: k in HelperColumns ==> k !in h) ==> (ProductMatch(h, productCode) <==> productCode == Null)
  {
    Get(h, "ProductCode", Null) == productCode || Get(h, "IngredientProductCode", Null) == productCode
    || Get(h, "RootProductCode", Null) == productCode
  }

  function ProductTest(productCode: Cell): Row -> bool
  {
    x => ProductMatch(x, productCode)
  }

  function ProductFiltered(rows: seq<Row>, productCode: Cell): (r: seq<Row>)
    ensures !Truthy(productCode) ==> r == rows
    ensures Truthy(productCode) ==> forall x :: x in r <==> x in rows && ProductMatch(x, productCode)
    ensures Truthy(productCode) ==> (Subsequence(r, rows)
      && forall x :: multiset(r)[x] == if ProductMatch(x, productCode) then multiset(rows)[x] else 0)
  {
    if Truthy(productCode) then
      FilterKeepsOrder(rows, ProductTest(productCode));
      Filter(rows, ProductTest(productCode))
    else rows
  }

  /** The three `pop`s of one row. */
  function Strip(row: Row): (r: Row)
    ensures forall k :: k in r <==> k in row && k !in HelperColumns
    ensures forall k :: k in r ==> r[k] == row[k]
  {
    row - HelperColumns
  }

  function StripAll(rows: seq<Row>): (r: seq<Row>)
    ensures |r| == |rows| && forall i :: 0 <= i < |rows| ==> r[i] == Strip(rows[i])
  {
    seq(|rows|, i requires 0 <= i < |rows| => Strip(rows[i]))
  }

  /** update_table's result for the answers get_lineage and get_item_to_product_mapping gave:
      nothing without a click, item codes, a direction, a frame with a Level column or a
      mapping; otherwise every frame row as a grid row in the store, and those that pass the
      product-code and unit-operation filters in the grid, both without the helper columns. */
  function TableUpdate2Of(nClicks: Option<int>, productCode: Cell, sel: Selection, unitOps: seq<string>,
                          checked: seq<string>, ans: Answer, answered: Option<map<Cell, Cell>>): (u: TableUpdate)
    ensures !Clicked(nClicks) || !Chosen(sel) || GenOrTrcOf(checked).None? || ans.Raised? ==> u == NoRows
    ensures ans.Frame? && (|ans.rows| == 0 || !HasLevelColumn(ans.rows)) ==> u == NoRows
  {
    if !Clicked(nClicks) || !Chosen(sel) || GenOrTrcOf(checked).None? then NoRows
    else
      match ans
      case Raised => NoRows
      case Frame(rows) =>
        if |rows| == 0 || !HasLevelColumn(rows) then NoRows
        else
          match ItemToProduct(rows, answered)
          case None => NoRows
          case Some(m) =>
            var mapped := HelperRows(rows, m);
            TableUpdate(StripAll(UnitOpFiltered(ProductFiltered(mapped, productCode), unitOps)), StripAll(mapped))
  }

  /** The pops leave exactly the grid row: the helper columns add nothing the store keeps. */
  lemma StripHelperRow(row: Row, m: map<Cell, Cell>)
    ensures Strip(HelperRow(row, m)) == GridRow(Coerced(row), Int(0))
  {
    var g := GridRow(Coerced(row), Int(0));
    HelperColumnsApart();
    StripAdded(g, m);
  }

  lemma StripAdded(g: Row, m: map<Cell, Cell>)
    requires "ProductItemCode" in g && "IngredientItemCode" in g && "ParentItemCode" in g
    requires forall k :: k in g ==> k !in HelperColumns
    ensures Strip(WithProductCodes(g, m)) == g
  {
    var s := Strip(WithProductCodes(g, m));
    assert s.Keys == g.Keys;
  }

  /** The row each mapped row is matched on: its product codes are those of its item codes. */
  lemma HelperRowCodes(row: Row, m: map<Cell, Cell>)
    ensures var h, g := HelperRow(row, m), GridRow(Coerced(row), Int(0));
      Get(h, "ProductCode", Null) == ProductOf(m, g["ProductItemCode"])
      && Get(h, "IngredientProductCode", Null) == ProductOf(m, g["IngredientItemCode"])
      && Get(h, "RootProductCode", Null) == ProductOf(m, g["ParentItemCode"])
      && Get(h, "ProductItemCode", Null) == g["ProductItemCode"]
      && Get(h, "IngredientItemCode", Null) == g["IngredientItemCode"]
  {
  }

  /** The store holds one grid row per frame row, in order, each with the grid's eleven columns
      and an integer Level: the frame's own level when it was an integer. */
  lemma StoredRows(nClicks: Option<int>, productCode: Cell, sel: Selection, unitOps: seq<string>,
                   checked: seq<string>, ans: Answer, answered: Option<map<Cell, Cell>>)
    requires TableUpdate2Of(nClicks, productCode, sel, unitOps, checked, ans, answered) != NoRows
    ensures var stored := TableUpdate2Of(nClicks, productCode, sel, unitOps, checked, ans, answered).allData;
      ans.Frame? && |stored| == |ans.rows|
      && forall i :: 0 <= i < |stored| ==>
        stored[i] == GridRow(Coerced(ans.rows[i]), Int(0)) && stored[i].Keys == GridColumns
        && stored[i]["Level"].Int?
        && (Get(ans.rows[i], "Level", Null).Int? ==> stored[i]["Level"] == ans.rows[i]["Level"])
  {
    var m := ItemToProduct(ans.rows, answered).value;
    forall i | 0 <= i < |ans.rows| ensures Strip(HelperRows(ans.rows, m)[i]) == GridRow(Coerced(ans.rows[i]), Int(0)) {
      StripHelperRow(ans.rows[i], m);
    }
  }

  /** Whether a mapped row passes both grid filters. */
  predicate Selected(h: Row, productCode: Cell, unitOps: seq<string>)
  {
    (Truthy(productCode) ==> ProductMatch(h, productCode)) && (unitOps != [] ==> UnitOpMatch(h, unitOps))
  }

  /** The two filters as one condition on a mapped row. */
  function ShownBy(productCode: Cell, unitOps: seq<string>): Row -> bool
  {
    h => Selected(h, productCode, unitOps)
  }

  /** The grid shows a stored row exactly when its mapped row passes both filters. */
  lemma ShownRows(nClicks: Option<int>, productCode: Cell, sel: Selection, unitOps: seq<string>,
                  checked: seq<string>, ans: Answer, answered: Option<map<Cell, Cell>>)
    requires TableUpdate2Of(nClicks, productCode, sel, unitOps, checked, ans, answered) != NoRows
    ensures var u := TableUpdate2Of(nClicks, productCode, sel, unitOps, checked, ans, answered);
      var mapped := HelperRows(ans.rows, ItemToProduct(ans.rows, answered).value);
      (forall i :: 0 <= i < |mapped| && Selected(mapped[i], productCode, unitOps) ==> u.allData[i] in u.rowData)
      && (forall x :: x in u.rowData ==>
            exists i :: 0 <= i < |mapped| && x == u.allData[i] && Selected(mapped[i], productCode, unitOps))
      && u.rowData == StripAll(Filter(mapped, ShownBy(productCode, unitOps)))
  {
    var mapped := HelperRows(ans.rows, ItemToProduct(ans.rows, answered).value);
    BothFilters(mapped, productCode, unitOps);
    FilteredStrips(mapped, productCode, unitOps);
  }

  /** Filtering on both conditions and then stripping shows the stored form of exactly the
      passing mapped rows. */
  lemma FilteredStrips(mapped: seq<Row>, productCode: Cell, unitOps: seq<string>)
    ensures var shown, stored := StripAll(Filter(mapped, ShownBy(productCode, unitOps))), StripAll(mapped);
      (forall i :: 0 <= i < |mapped| && Selected(mapped[i], productCode, unitOps) ==> stored[i] in shown)
      && (forall x :: x in shown ==>
            exists i :: 0 <= i < |mapped| && x == stored[i] && Selected(mapped[i], productCode, unitOps))
  {
    forall i | 0 <= i < |mapped| && Selected(mapped[i], productCode, unitOps)
      ensures StripAll(mapped)[i] in StripAll(Filter(mapped, ShownBy(productCode, unitOps)))
    {
      PassingRowShown(mapped, productCode, unitOps, i);
    }
    var kept := Filter(mapped, ShownBy(productCode, unitOps));
    forall x | x in StripAll(kept)
      ensures exists i :: 0 <= i < |mapped| && x == StripAll(mapped)[i] && Selected(mapped[i], productCode, unitOps)
    {
      var k :| 0 <= k < |kept| && StripAll(kept)[k] == x;
      ShownRowPasses(mapped, productCode, unitOps, k);
      var i :| 0 <= i < |mapped| && kept[k] == mapped[i] && Selected(mapped[i], productCode, unitOps);
      assert StripAll(kept)[k] == Strip(kept[k]) == Strip(mapped[i]) == StripAll(mapped)[i];
    }
  }

  /** A passing mapped row is shown, stripped. */
  lemma PassingRowShown(mapped: seq<Row>, productCode: Cell, unitOps: seq<string>, i: nat)
    requires i < |mapped| && Selected(mapped[i], productCode, unitOps)
    ensures StripAll(mapped)[i] in StripAll(Filter(mapped, ShownBy(productCode, unitOps)))
  {
    var kept := Filter(mapped, ShownBy(productCode, unitOps));
    assert mapped[i] in kept;
    var k :| 0 <= k < |kept| && kept[k] == mapped[i];
    assert StripAll(kept)[k] == StripAll(mapped)[i];
  }

  /** A shown row is the stripped form of a passing mapped row. */
  lemma ShownRowPasses(mapped: seq<Row>, productCode: Cell, unitOps: seq<string>, k: nat)
    requires k < |Filter(mapped, ShownBy(productCode, unitOps))|
    ensures exists i ::
      0 <= i < |mapped| && Filter(mapped, ShownBy(productCode, unitOps))[k] == mapped[i] && Selected(mapped[i], productCode, unitOps)
  {
    var kept := Filter(mapped, ShownBy(productCode, unitOps));
    assert kept[k] in kept;
    var i :| 0 <= i < |mapped| && mapped[i] == kept[k];
    assert ShownBy(productCode, unitOps)(mapped[i]);
  }

  /** The product-code filter followed by the unit-operation filter is one filter on both
      conditions: it keeps the mapped rows' order and repeats. */
  lemma BothFilters(mapped: seq<Row>, productCode: Cell, unitOps: seq<string>)
    ensures UnitOpFiltered(ProductFiltered(mapped, productCode), unitOps) == Filter(mapped, ShownBy(productCode, unitOps))
  {
    var pm, um, both := ProductTest(productCode), UnitOpTest(unitOps), ShownBy(productCode, unitOps);
    if Truthy(productCode) && unitOps != [] {
      FilterFilter(mapped, pm, um, both);
    } else if Truthy(productCode) {
      FilterSame(mapped, pm, both);
    } else if unitOps != [] {
      FilterSame(mapped, um, both);
    } else {
      FilterAll(mapped, both);
    }
  }

  /** With app2.py's select list the grid's Level is the query's own level, so the second
      dashboard's grid shows levels and its builder never fails. */
  lemma SecondAppGridLevels(res: Result<LineageOutput, LineageError>, nClicks: Option<int>, productCode: Cell,
                            sel: Selection, unitOps: seq<string>, checked: seq<string>, ans: Answer,
                            answered: Option<map<Cell, Cell>>)
    requires Enumerates(res, Names(DashboardSelect), ans) && GroupsProjected(res, Columns(DashboardSelect))
    requires TableUpdate2Of(nClicks, productCode, sel, unitOps, checked, ans, answered) != NoRows
    ensures var stored := TableUpdate2Of(nClicks, productCode, sel, unitOps, checked, ans, answered).allData;
      ans.Frame? && |stored| == |ans.rows|
      && forall i :: 0 <= i < |stored| ==>
        "Level" in ans.rows[i] && "Level" in stored[i] && stored[i]["Level"] == ans.rows[i]["Level"]
  {
    StoredLevels(nClicks, productCode, sel, unitOps, checked, ans, answered);
    AliasedLevelsKept(res, ans, TableUpdate2Of(nClicks, productCode, sel, unitOps, checked, ans, answered).allData);
  }

  lemma StoredLevels(nClicks: Option<int>, productCode: Cell, sel: Selection, unitOps: seq<string>,
                     checked: seq<string>, ans: Answer, answered: Option<map<Cell, Cell>>)
    requires TableUpdate2Of(nClicks, productCode, sel, unitOps, checked, ans, answered) != NoRows
    ensures var stored := TableUpdate2Of(nClicks, productCode, sel, unitOps, checked, ans, answered).allData;
      ans.Frame? && |stored| == |ans.rows|
      && forall i :: 0 <= i < |stored| ==>
        "Level" in stored[i] && stored[i]["Level"] == CoerceLevel(Get(ans.rows[i], "Level", Null))
  {
    var stored := TableUpdate2Of(nClicks, productCode, sel, unitOps, checked, ans, answered).allData;
    StoredLevel(nClicks, productCode, sel, unitOps, checked, ans, answered, 0);
    forall i | 0 <= i < |stored|
      ensures "Level" in stored[i] && stored[i]["Level"] == CoerceLevel(Get(ans.rows[i], "Level", Null))
    {
      StoredLevel(nClicks, productCode, sel, unitOps, checked, ans, answered, i);
    }
  }

  lemma AliasedLevelsKept(res: Result<LineageOutput, LineageError>, ans: Answer, stored: seq<Row>)
    requires Enumerates(res, Names(DashboardSelect), ans) && GroupsProjected(res, Columns(DashboardSelect))
    requires ans.Frame? && |stored| <= |ans.rows|
    requires forall i :: 0 <= i < |stored| ==>
      "Level" in stored[i] && stored[i]["Level"] == CoerceLevel(Get(ans.rows[i], "Level", Null))
    ensures forall i :: 0 <= i < |stored| ==>
      "Level" in ans.rows[i] && "Level" in stored[i] && stored[i]["Level"] == ans.rows[i]["Level"]
  {
    forall i | 0 <= i < |stored|
      ensures "Level" in ans.rows[i] && "Level" in stored[i] && stored[i]["Level"] == ans.rows[i]["Level"]
    {
      DashboardFrameLevel(res, ans, i);
    }
  }

  /** The Level a stored row holds is the coerced Level of its frame row. */
  lemma StoredLevel(nClicks: Option<int>, productCode: Cell, sel: Selection, unitOps: seq<string>,
                    checked: seq<string>, ans: Answer, answered: Option<map<Cell, Cell>>, i: nat)
    requires TableUpdate2Of(nClicks, productCode, sel, unitOps, checked, ans, answered) != NoRows
    requires i < |TableUpdate2Of(nClicks, productCode, sel, unitOps, checked, ans, answered).allData|
    ensures ans.Frame? && |ans.rows| == |TableUpdate2Of(nClicks, productCode, sel, unitOps, checked, ans, answered).allData|
    ensures "Level" in TableUpdate2Of(nClicks, productCode, sel, unitOps, checked, ans, answered).allData[i]
    ensures TableUpdate2Of(nClicks, productCode, sel, unitOps, checked, ans, answered).allData[i]["Level"]
      == CoerceLevel(Get(ans.rows[i], "Level", Null))
  {
    StripHelperRow(ans.rows[i], ItemToProduct(ans.rows, answered).value);
  }

  /** update_table. */
  method UpdateTable2(nClicks: Option<int>, productCode: Cell, sel: Selection, unitOps: seq<string>,
                      checked: seq<string>, ans: Answer, answered: Option<map<Cell, Cell>>) returns (u: TableUpdate)
    ensures u == TableUpdate2Of(nClicks, productCode, sel, unitOps, checked, ans, answered)
  {
    if !Clicked(nClicks) || !Chosen(sel) || GenOrTrcOf(checked).None? {
      return NoRows;
    }
    if ans.Raised? || |ans.rows| == 0 || !HasLevelColumn(ans.rows) {
      return NoRows;
    }
    var rows := ans.rows;
    var mapping := ItemToProduct(rows, answered);
    if mapping.None? {
      return NoRows;
    }
    var mapped := MapFrame2(rows, mapping.value);
    var filtered := mapped;
    if Truthy(productCode) {
      filtered := Filter(filtered, ProductTest(productCode));
    }
    if unitOps != [] {
      filtered := Filter(filtered, UnitOpTest(unitOps));
    }
    filtered := PopHelpers(filtered);
    mapped := PopHelpers(mapped);
    return TableUpdate(filtered, mapped);
  }

  /** The loop that fills mapped_data. */
  method MapFrame2(rows: seq<Row>, m: map<Cell, Cell>) returns (mapped: seq<Row>)
    ensures mapped == HelperRows(rows, m)
  {
    mapped := [];
    for i := 0 to |rows|
      invariant mapped == HelperRows(rows[..i], m)
    {
      HelperRowsSnoc(rows, i, m);
      mapped := mapped + [HelperRow(rows[i], m)];
    }
    assert rows[..|rows|] == rows;
  }

  lemma HelperRowsSnoc(rows: seq<Row>, i: nat, m: map<Cell, Cell>)
    requires i < |rows|
    ensures HelperRows(rows[..i + 1], m) == HelperRows(rows[..i], m) + [HelperRow(rows[i], m)]
  {
    var a, b := HelperRows(rows[..i + 1], m), HelperRows(rows[..i], m) + [HelperRow(rows[i], m)];
    assert |a| == |b|;
    forall j | 0 <= j < |a|
      ensures a[j] == b[j]
    {
      assert rows[..i + 1][j] == rows[j];
      if j < i {
        assert rows[..i][j] == rows[j];
      }
    }
  }

  /** One of the two pop loops. */
  method PopHelpers(rows: seq<Row>) returns (r: seq<Row>)
    ensures r == StripAll(rows)
  {
    r := rows;
    for i := 0 to |rows|
      invariant |r| == |rows|
      invariant forall j :: 0 <= j < i ==> r[j] == Strip(rows[j])
      invariant forall j :: i <= j < |rows| ==> r[j] == rows[j]
    {
      r := r[i := Strip(r[i])];
    }
  }

  // ---------------------------------------------------------------------------------------
  // update_unit_operation_options

  /** The non-null product and ingredient item codes of the stored rows, as text, row by row. */
  function StoredCodes(data: seq<Row>): (cs: seq<string>)
    decreases |data|
  {
    if data == [] then []
    else
      var last := data[|data| - 1];
      var p, i := CodeOf(last, "ProductItemCode"), CodeOf(last, "IngredientItemCode");
      StoredCodes(data[..|data| - 1]) + (if p.Some? then [p.value] else []) + (if i.Some? then [i.value] else [])
  }

  lemma {:induction false} StoredCodesMembers(data: seq<Row>, c: string)
    ensures c in StoredCodes(data) <==>
      exists i :: 0 <= i < |data| && (CodeOf(data[i], "ProductItemCode") == Some(c) || CodeOf(data[i], "IngredientItemCode") == Some(c))
    decreases |data|
  {
    if data != [] {
      var init := data[..|data| - 1];
      StoredCodesMembers(init, c);
      assert forall i :: 0 <= i < |init| ==> init[i] == data[i];
    }
  }

  function Identity(s: string): string { s }

  /** One option per code, labelled with the code. */
  function CodeOptions(codes: seq<string>): (os: seq<ItemOption>)
    ensures Values(os) == codes
    ensures forall i :: 0 <= i < |os| ==> os[i].caption == codes[i]
  {
    seq(|codes|, i requires 0 <= i < |codes| => ItemOption(codes[i], codes[i]))
  }

  /** The dropdown options: the set of codes, sorted; no data, no options. */
  function UnitOperationOptions2(data: seq<Row>): (os: seq<ItemOption>)
    ensures data == [] ==> os == []
    ensures forall k :: 0 <= k < |os| ==> os[k].caption == os[k].value
  {
    if data == [] then [] else CodeOptions(SortBy(Dedup(StoredCodes(data)), Identity))
  }

  /** Each code of the stored rows is offered exactly once, labelled with itself, and the
      options are in strictly increasing order of their labels. */
  lemma UnitOperationOptions2Spec(data: seq<Row>, c: string)
    ensures var os := UnitOperationOptions2(data);
      (c in Values(os) <==>
        exists i :: 0 <= i < |data| && (CodeOf(data[i], "ProductItemCode") == Some(c) || CodeOf(data[i], "IngredientItemCode") == Some(c)))
      && NoDuplicates(Values(os))
      && (forall k :: 0 <= k < |os| ==> os[k].caption == os[k].value)
      && forall j, k :: 0 <= j < k < |os| ==> LexLe(os[j].caption, os[k].caption) && !LexLe(os[k].caption, os[j].caption)
  {
    StoredCodesMembers(data, c);
    if data != [] {
      var distinct := Dedup(StoredCodes(data));
      var sorted := SortBy(distinct, Identity);
      SortByNoDuplicates(distinct, Identity);
      assert c in sorted <==> c in distinct by {
        assert multiset(sorted) == multiset(distinct);
        assert c in sorted <==> c in multiset(sorted);
      }
      forall j, k | 0 <= j < k < |sorted| ensures LexLe(sorted[j], sorted[k]) && !LexLe(sorted[k], sorted[j]) {
        assert LexLe(Identity(sorted[j]), Identity(sorted[k]));
        if LexLe(sorted[k], sorted[j]) {
          LexLeAntisymmetric(sorted[j], sorted[k]);
        }
      }
    }
  }

  // ---------------------------------------------------------------------------------------
  // clear_filters

  /** A callback output: left as it is, or set. */
  datatype Update<T> = Keep | Set(value: T)

  /** The nine outputs of clear_filters. A cleared item-code dropdown holds None, the scalar
      null selection; the cleared unit-operation dropdown holds None, which the filter treats
      as the empty list. */
  datatype ClearOutputs = ClearOutputs(
    productCode: Update<Cell>, itemCodes: Update<Selection>, rowData: Update<seq<Row>>,
    allData: Update<seq<Row>>, filteredData: Update<seq<Row>>, unitOps: Update<seq<string>>,
    attribute: Update<Cell>, checklist: Update<seq<string>>, lookup: Update<Option<string>>)

  function ClearFilters2(nClicks: Option<int>): (c: ClearOutputs)
    ensures !Clicked(nClicks) ==> c == ClearOutputs(Keep, Keep, Keep, Keep, Keep, Keep, Keep, Keep, Keep)
    ensures Clicked(nClicks) ==> c.rowData == Set([]) && c.allData == Set([]) && c.filteredData == Set([])
    ensures Clicked(nClicks) ==>
      c.productCode == Set(Null) && c.itemCodes == Set(Scalar(Null)) && c.unitOps == Set([])
      && c.attribute == Set(Null) && c.checklist == Set([]) && c.lookup == Set(None)
  {
    if Clicked(nClicks) then
      ClearOutputs(Set(Null), Set(Scalar(Null)), Set([]), Set([]), Set([]), Set([]), Set(Null), Set([]), Set(None))
    else ClearOutputs(Keep, Keep, Keep, Keep, Keep, Keep, Keep, Keep, Keep)
  }

  function After<T>(u: Update<T>, before: T): T
  {
    match u case Keep => before case Set(v) => v
  }

  /** After a clear the grid and the store are empty, the next submit shows nothing until item
      codes are chosen again, and the checklist is back to both directions. */
  lemma ClearThenSubmit(clicks: Option<int>, before: Selection, checked: seq<string>, lookup: Option<string>,
                        nClicks: Option<int>, productCode: Cell, unitOps: seq<string>, ans: Answer,
                        answered: Option<map<Cell, Cell>>)
    requires Clicked(clicks)
    ensures var c := ClearFilters2(clicks);
      TableUpdate2Of(nClicks, productCode, After(c.itemCodes, before), unitOps, After(c.checklist, checked), ans, answered) == NoRows
      && GenOrTrcOf(After(c.checklist, checked)) == Some("all")
      && After(c.lookup, lookup) == None && LookupChecklist(After(c.lookup, lookup)) == []
  {
  }
}
