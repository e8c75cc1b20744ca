/** The callbacks of the first dashboard (app.py): the submit button's update_table, the
    unit-operation dropdown's options, and what its tree chart does with the rows the table
    stores. */
module Dashboard {
  import opened Common
  import opened Text
  import opened LineageModel
  import opened LineageQuery
  import opened Grid
  import opened Hierarchy
  import opened TreeChart

  /** GenOrTrc: the radio value, or "all" when it is empty. */
  function GenOrTrc(radio: Option<string>): (g: string)
    ensures radio.Some? && radio.value != "" ==> g == radio.value
    ensures radio.None? || radio.value == "" ==> g == "all"
  {
    if radio.Some? && radio.value != "" then radio.value else "all"
  }

  /** With the radio's two buttons, Genealogy runs only genealogy, Traceability only
      traceability, and no choice both. */
  lemma RadioDirection(radio: Option<string>)
    requires radio == None || radio == Some("gen") || radio == Some("trc")
    ensures IncludesGen(GenOrTrc(radio)) <==> radio != Some("trc")
    ensures IncludesTrc(GenOrTrc(radio)) <==> radio != Some("gen")
  {
  }

  /** The get_lineage call of update_table. */
  function RequestOf(sel: Selection, radio: Option<string>): (q: Request)
    ensures q.genOrTrc == GenOrTrc(radio) && q.startNodes == StartNodes(sel)
    ensures q.outputcols == Some(FirstAppOutputCols) && q.cols == Columns(DashboardSelect)
  {
    RequestFor(sel, GenOrTrc(radio), FirstAppOutputCols, Columns(DashboardSelect))
  }

  /** The grid rows of a frame, one per frame row, in order. */
  function GridRows(frame: seq<Row>): (mapped: seq<Row>)
    ensures |mapped| == |frame|
    ensures forall i :: 0 <= i < |frame| ==> mapped[i] == GridRow(frame[i], Str(""))
  {
    seq(|frame|, i requires 0 <= i < |frame| => GridRow(frame[i], Str("")))
  }

  /** The loop that fills mapped_data. */
  method MapFrame(frame: seq<Row>) returns (mapped: seq<Row>)
    ensures mapped == GridRows(frame)
  {
    mapped := [];
    for i := 0 to |frame|
      invariant |mapped| == i
      invariant forall j :: 0 <= j < i ==> mapped[j] == GridRow(frame[j], Str(""))
    {
      mapped := mapped + [GridRow(frame[i], Str(""))];
    }
  }

  /** update_table's result for the answer get_lineage gave to RequestOf: nothing without a
      click, a selection or a frame; otherwise every frame row as a grid row in the store, and
      the ones matching the unit-operation selection in the grid. */
  function TableUpdateOf(nClicks: Option<int>, sel: Selection, unitOps: seq<string>, ans: Answer): (u: TableUpdate)
    ensures !Clicked(nClicks) || !Chosen(sel) || ans.Raised? ==> u == NoRows
    ensures Clicked(nClicks) && Chosen(sel) && ans.Frame? ==>
      u.allData == GridRows(ans.rows) && u.rowData == UnitOpFiltered(u.allData, unitOps)
    ensures forall x :: x in u.rowData ==> x in u.allData
  {
    if !Clicked(nClicks) || !Chosen(sel) then NoRows
    else
      match ans
      case Raised => NoRows
      case Frame(rows) =>
        if |rows| == 0 then NoRows
        else
          var mapped := GridRows(rows);
          TableUpdate(UnitOpFiltered(mapped, unitOps), mapped)
  }

  /** update_table. */
  method UpdateTable(nClicks: Option<int>, sel: Selection, unitOps: seq<string>, ans: Answer) returns (u: TableUpdate)
    ensures u == TableUpdateOf(nClicks, sel, unitOps, ans)
  {
    if !Clicked(nClicks) || !Chosen(sel) {
      return NoRows;
    }
    if ans.Raised? || |ans.rows| == 0 {
      return NoRows;
    }
    var mapped := MapFrame(ans.rows);
    var filtered := mapped;
    if unitOps != [] {
      filtered := Filter(mapped, UnitOpTest(unitOps));
    }
    return TableUpdate(filtered, mapped);
  }

  /** Every grid row carries the query's integer level under `Level`, so the first dashboard's
      tree chart is drawn whenever a stored row survives the chart filters. `text` is a select
      list, as app.py's `outputcols` is. */
  lemma LevelDrawn(db: Database, t: Tables, genOrTrc: string, text: string, nClicks: Option<int>,
                   sel: Selection, unitOps: seq<string>, ans: Answer)
    requires OutputColsBranch(Some(text)) == SelectColumns
    requires Enumerates(Query(db, t, false, genOrTrc, "polars", Some(text), Columns(DashboardSelect)),
                        Names(DashboardSelect), ans)
    ensures forall x :: x in TableUpdateOf(nClicks, sel, unitOps, ans).allData ==> Get(x, "Level", Null).Int?
    ensures var stored := TableUpdateOf(nClicks, sel, unitOps, ans).allData;
      ChartOf(FirstApp, stored).Drawn? <==> ChartRows(stored) != []
  {
    QueryGroupsProjected(db, t, genOrTrc, text, Columns(DashboardSelect));
    GridLevels(Query(db, t, false, genOrTrc, "polars", Some(text), Columns(DashboardSelect)),
               nClicks, sel, unitOps, ans);
    var stored := TableUpdateOf(nClicks, sel, unitOps, ans).allData;
    forall i | 0 <= i < |stored| ensures Get(stored[i], "Level", Null).Int? {
      assert stored[i] in stored;
    }
    IntegerLevelsDrawn(stored);
  }

  /** Every stored grid row holds an integer Level. */
  lemma GridLevels(res: Result<LineageOutput, LineageError>, nClicks: Option<int>, sel: Selection,
                   unitOps: seq<string>, ans: Answer)
    requires Enumerates(res, Names(DashboardSelect), ans) && GroupsProjected(res, Columns(DashboardSelect))
    ensures forall x :: x in TableUpdateOf(nClicks, sel, unitOps, ans).allData ==> Get(x, "Level", Null).Int?
  {
    var u := TableUpdateOf(nClicks, sel, unitOps, ans);
    if u != NoRows {
      forall x | x in u.allData ensures Get(x, "Level", Null).Int? {
        var i :| 0 <= i < |ans.rows| && x == GridRow(ans.rows[i], Str(""));
        DashboardFrameLevel(res, ans, i);
      }
    }
  }

  /** Every frame row of the dashboards' select list holds an integer under `Level`. */
  lemma DashboardFrameLevel(res: Result<LineageOutput, LineageError>, ans: Answer, i: nat)
    requires Enumerates(res, Names(DashboardSelect), ans) && GroupsProjected(res, Columns(DashboardSelect))
    requires ans.Frame? && i < |ans.rows|
    ensures "Level" in ans.rows[i] && ans.rows[i]["Level"].Int?
  {
    DashboardLevelName();
    FrameLevel(res, DashboardSelect, ans, i, 7);
  }

  // ---------------------------------------------------------------------------------------
  // update_unit_operation_options

  /** An insertion-ordered dict from code to name: its keys in insertion order, and the map. */
  datatype CodeNames = CodeNames(codes: seq<string>, names: map<string, string>)

  /** `str(name)` when it is not null, else 'Unknown'. */
  function NameOf(row: Row, key: string): (name: string)
    ensures Get(row, key, Null) == Null ==> name == "Unknown"
    ensures key in row && row[key].Str? ==> name == row[key].s
    ensures key in row && row[key].Int? ==> ParseInt(name) == Some(row[key].i)
  {
    var v := Get(row, key, Null);
    if v.Null? then "Unknown" else PyStr(v)
  }

  /** The dict the loop builds: each non-null code once, in order of first appearance. */
  function FirstNames(rows: seq<Row>, codeKey: string, nameKey: string): (d: CodeNames)
    ensures NoDuplicates(d.codes)
    ensures forall c :: c in d.names <==> c in d.codes
    decreases |rows|
  {
    if rows == [] then CodeNames([], map[])
    else
      var last := rows[|rows| - 1];
      var d := FirstNames(rows[..|rows| - 1], codeKey, nameKey);
      match CodeOf(last, codeKey)
      case None => d
      case Some(c) => if c in d.names then d else CodeNames(d.codes + [c], d.names[c := NameOf(last, nameKey)])
  }

  /** The dict's keys are exactly the non-null codes of the rows. */
  lemma {:induction false} FirstNamesKeys(rows: seq<Row>, codeKey: string, nameKey: string, c: string)
    ensures c in FirstNames(rows, codeKey, nameKey).names <==> HasCode(rows, codeKey, c)
    decreases |rows|
  {
    if rows != [] {
      FirstNamesKeys(rows[..|rows| - 1], codeKey, nameKey, c);
      FirstNamesSnoc(rows, codeKey, nameKey, c);
      HasCodeSnoc(rows, codeKey, c);
    }
  }

  /** Some row has a non-null `codeKey` whose text is `c`. */
  predicate HasCode(rows: seq<Row>, codeKey: string, c: string)
  {
    exists i :: 0 <= i < |rows| && CodeOf(rows[i], codeKey) == Some(c)
  }

  lemma HasCodeSnoc(rows: seq<Row>, codeKey: string, c: string)
    requires rows != []
    ensures HasCode(rows, codeKey, c) <==>
      HasCode(rows[..|rows| - 1], codeKey, c) || CodeOf(rows[|rows| - 1], codeKey) == Some(c)
  {
    var init, last := rows[..|rows| - 1], rows[|rows| - 1];
    if HasCode(init, codeKey, c) {
      var i :| 0 <= i < |init| && CodeOf(init[i], codeKey) == Some(c);
      assert rows[i] == init[i];
    }
    if CodeOf(last, codeKey) == Some(c) {
      assert rows[|rows| - 1] == last;
    }
    if HasCode(rows, codeKey, c) {
      var i :| 0 <= i < |rows| && CodeOf(rows[i], codeKey) == Some(c);
      if i < |init| {
        assert init[i] == rows[i];
      }
    }
  }

  /** One more row adds its code, if it has one, and no other. */
  lemma FirstNamesSnoc(rows: seq<Row>, codeKey: string, nameKey: string, c: string)
    requires rows != []
    ensures c in FirstNames(rows, codeKey, nameKey).names <==>
      c in FirstNames(rows[..|rows| - 1], codeKey, nameKey).names || CodeOf(rows[|rows| - 1], codeKey) == Some(c)
  {
  }

  /** A code's name is the one on the first row that has the code. */
  lemma {:induction false} FirstNameWins(rows: seq<Row>, codeKey: string, nameKey: string, i: nat)
    requires i < |rows| && CodeOf(rows[i], codeKey).Some?
    requires forall j :: 0 <= j < i ==> CodeOf(rows[j], codeKey) != CodeOf(rows[i], codeKey)
    ensures CodeOf(rows[i], codeKey).value in FirstNames(rows, codeKey, nameKey).names
    ensures FirstNames(rows, codeKey, nameKey).names[CodeOf(rows[i], codeKey).value] == NameOf(rows[i], nameKey)
    decreases |rows|
  {
    var c := CodeOf(rows[i], codeKey).value;
    var init := rows[..|rows| - 1];
    if i < |rows| - 1 {
      assert init[i] == rows[i];
      assert forall j :: 0 <= j < i ==> init[j] == rows[j];
      FirstNameWins(init, codeKey, nameKey, i);
    } else {
      FirstNamesKeys(init, codeKey, nameKey, c);
      assert forall j :: 0 <= j < |init| ==> init[j] == rows[j];
    }
  }

  /** The options of one dict, in its order, leaving out the codes in `skip`. */
  function Entries(codes: seq<string>, names: map<string, string>, skip: set<string>): (os: seq<ItemOption>)
    requires forall c :: c in codes ==> c in names
    ensures forall c :: c in Values(os) <==> c in codes && c !in skip
    ensures forall o :: o in os ==> o.value in names && o.caption == o.value + "-" + names[o.value]
    ensures NoDuplicates(codes) ==> NoDuplicates(Values(os))
    decreases |codes|
  {
    if codes == [] then []
    else
      var init, last := codes[..|codes| - 1], codes[|codes| - 1];
      assert forall j :: 0 <= j < |init| ==> init[j] == codes[j];
      var rest := Entries(init, names, skip);
      if last in skip then rest
      else
        var os := rest + [ItemOption(last + "-" + names[last], last)];
        assert Values(os) == Values(rest) + [last];
        os
  }

  /** Product options, then ingredient options whose code is not a product code. */
  function Unsorted(data: seq<Row>): seq<ItemOption>
  {
    var products := FirstNames(data, "ProductItemCode", "ProductName");
    var ingredients := FirstNames(data, "IngredientItemCode", "IngredientName");
    Entries(products.codes, products.names, {}) + Entries(ingredients.codes, ingredients.names, products.names.Keys)
  }

  /** The dropdown options, sorted by label; no data, no options. */
  function UnitOperationOptions(data: seq<Row>): (os: seq<ItemOption>)
    ensures data == [] ==> os == []
    ensures SortedBy(os, Caption)
  {
    if data == [] then [] else SortBy(Unsorted(data), Caption)
  }

  /** The options of a product dict and an ingredient dict name every code of either once. */
  lemma EntriesValues(pc: seq<string>, pn: map<string, string>, ic: seq<string>, inames: map<string, string>)
    requires NoDuplicates(pc) && forall c :: c in pn <==> c in pc
    requires NoDuplicates(ic) && forall c :: c in inames <==> c in ic
    ensures var all := Entries(pc, pn, {}) + Entries(ic, inames, pn.Keys);
      NoDuplicates(Values(all)) && forall c :: c in Values(all) <==> c in pn || c in inames
  {
    var ps, ins := Entries(pc, pn, {}), Entries(ic, inames, pn.Keys);
    ValuesAppend(ps, ins);
    assert forall c :: c in Values(ps) ==> c !in Values(ins);
    NoDuplicatesAppend(Values(ps), Values(ins));
  }

  /** A product option is labelled with its product name, an ingredient option with its
      ingredient name. */
  lemma EntriesLabel(pc: seq<string>, pn: map<string, string>, ic: seq<string>, inames: map<string, string>,
                     o: ItemOption)
    requires forall c :: c in pc ==> c in pn
    requires forall c :: c in ic ==> c in inames
    requires o in Entries(pc, pn, {}) + Entries(ic, inames, pn.Keys)
    ensures o.value in pn || o.value in inames
    ensures o.caption == o.value + "-" + (if o.value in pn then pn[o.value] else inames[o.value])
  {
    var ins := Entries(ic, inames, pn.Keys);
    if o in ins {
      assert o.value in Values(ins);
    }
  }

  /** Each product or ingredient code of the data is the value of exactly one option. */
  lemma OptionValues(data: seq<Row>, c: string)
    ensures NoDuplicates(Values(UnitOperationOptions(data)))
    ensures c in Values(UnitOperationOptions(data)) <==>
      exists i :: 0 <= i < |data| && (CodeOf(data[i], "ProductItemCode") == Some(c) || CodeOf(data[i], "IngredientItemCode") == Some(c))
  {
    var products := FirstNames(data, "ProductItemCode", "ProductName");
    var ingredients := FirstNames(data, "IngredientItemCode", "IngredientName");
    FirstNamesKeys(data, "ProductItemCode", "ProductName", c);
    FirstNamesKeys(data, "IngredientItemCode", "IngredientName", c);
    if data != [] {
      EntriesValues(products.codes, products.names, ingredients.codes, ingredients.names);
      SortedValuesDistinct(Unsorted(data));
      SortedValues(Unsorted(data), c);
    }
  }

  /** A product code is labelled with its product name, any other code with its ingredient
      name (each the first one seen, by FirstNameWins). */
  lemma OptionLabels(data: seq<Row>, o: ItemOption)
    requires o in UnitOperationOptions(data)
    ensures o.value in FirstNames(data, "ProductItemCode", "ProductName").names
      || o.value in FirstNames(data, "IngredientItemCode", "IngredientName").names
    ensures var products := FirstNames(data, "ProductItemCode", "ProductName");
      var ingredients := FirstNames(data, "IngredientItemCode", "IngredientName");
      o.caption == o.value + "-" + (if o.value in products.names then products.names[o.value] else ingredients.names[o.value])
  {
    var products := FirstNames(data, "ProductItemCode", "ProductName");
    var ingredients := FirstNames(data, "IngredientItemCode", "IngredientName");
    assert o in multiset(Unsorted(data));
    EntriesLabel(products.codes, products.names, ingredients.codes, ingredients.names, o);
  }

  /** The loops of update_unit_operation_options. */
  method UpdateUnitOperationOptions(data: seq<Row>) returns (os: seq<ItemOption>)
    ensures os == UnitOperationOptions(data)
  {
    if data == [] {
      return [];
    }
    var options := UnsortedOptions(data);
    os := SortBy(options, Caption);
  }

  /** The two dicts, then the options of each. */
  method UnsortedOptions(data: seq<Row>) returns (options: seq<ItemOption>)
    ensures options == Unsorted(data)
  {
    var products := CollectNames(data, "ProductItemCode", "ProductName");
    var ingredients := CollectNames(data, "IngredientItemCode", "IngredientName");
    var productOptions := AppendEntries([], products.codes, products.names, {});
    assert productOptions == Entries(products.codes, products.names, {});
    options := AppendEntries(productOptions, ingredients.codes, ingredients.names, products.names.Keys);
  }

  /** One of the two dict-filling loops. */
  method CollectNames(data: seq<Row>, codeKey: string, nameKey: string) returns (d: CodeNames)
    ensures d == FirstNames(data, codeKey, nameKey)
  {
    d := CodeNames([], map[]);
    for i := 0 to |data|
      invariant d == FirstNames(data[..i], codeKey, nameKey)
    {
      assert data[..i + 1][..i] == data[..i];
      var code := CodeOf(data[i], codeKey);
      if code.Some? && code.value !in d.names {
        d := CodeNames(d.codes + [code.value], d.names[code.value := NameOf(data[i], nameKey)]);
      }
    }
    assert data[..|data|] == data;
  }

  /** One of the two option-building loops. */
  method AppendEntries(start: seq<ItemOption>, codes: seq<string>, names: map<string, string>, skip: set<string>)
    returns (options: seq<ItemOption>)
    requires forall c :: c in codes ==> c in names
    ensures options == start + Entries(codes, names, skip)
  {
    options := start;
    for i := 0 to |codes|
      invariant options == start + Entries(codes[..i], names, skip)
    {
      assert codes[..i + 1][..i] == codes[..i];
      if codes[i] !in skip {
        options := options + [ItemOption(codes[i] + "-" + names[codes[i]], codes[i])];
      }
    }
    assert codes[..|codes|] == codes;
  }
}
