/** update_tree_chart, the same in both dashboards: the stored grid rows are filtered, renamed
    to the columns csv_to_hierarchy_by_level reads, and handed to the dashboard's builder. */
module TreeChart {
  import opened Common
  import opened Text
  import opened Hierarchy

  /** `.str.upper().str.startswith(('Z', 'B', 'M'), na=False)`: only a text cell can match. */
  predicate HiddenPN(c: Cell)
    ensures HiddenPN(c) <==> c.Str? && |c.s| > 0 && c.s[0] in {'Z', 'B', 'M', 'z', 'b', 'm'}
  {
    c.Str? && |c.s| > 0 && UpperChar(c.s[0]) in {'Z', 'B', 'M'}
  }

  /** The first filter: neither the product nor the ingredient lot is hidden. */
  predicate Shown(row: Row)
  {
    !HiddenPN(Get(row, "ProductPN", Null)) && !HiddenPN(Get(row, "IngredientPN", Null))
  }

  /** The renamed frame: a column missing from a stored row is NaN there. */
  function Prep(row: Row): (p: Row)
    ensures HasNodeColumns(p) && "level" in p && "Level" !in p
    ensures p["level"] == Get(row, "Level", Null)
  {
    map["root" := Get(row, "ParentPN", Null),
        "root_itemcode" := Get(row, "ParentItemCode", Null),
        "source" := Get(row, "ProductPN", Null),
        "ingredient" := Get(row, "IngredientPN", Null),
        "root desc" := Get(row, "ParentName", Null),
        "source desc" := Get(row, "ProductName", Null),
        "ingredient description" := Get(row, "IngredientName", Null),
        "level" := Get(row, "Level", Null)]
  }

  /** `dropna(subset=['root', 'source', 'ingredient'])`. */
  predicate Complete(p: Row)
    requires HasNodeColumns(p)
  {
    !p["root"].Null? && !p["source"].Null? && !p["ingredient"].Null?
  }

  predicate Charted(row: Row)
  {
    Shown(row) && Complete(Prep(row))
  }

  /** The hierarchy frame: the renamed rows that pass both filters, in their order. */
  function ChartRows(data: seq<Row>): (ps: seq<Row>)
    ensures |ps| <= |data|
    ensures AllHaveNodeColumns(ps)
    ensures forall j :: 0 <= j < |ps| ==> "level" in ps[j] && "Level" !in ps[j]
    ensures ps == MapSeq(Filter(data, Charted), Prep)
  {
    var ps := FilterMap(data, Charted, Prep);
    FilterMapIsMapOfFilter(data, Charted, Prep);
    assert forall j :: 0 <= j < |ps| ==> HasNodeColumns(ps[j]) && "level" in ps[j] && "Level" !in ps[j] by {
      forall j | 0 <= j < |ps| ensures HasNodeColumns(ps[j]) && "level" in ps[j] && "Level" !in ps[j] {
        FilterMapMembers(data, Charted, Prep, ps[j]);
      }
    }
    ps
  }

  /** The hierarchy frame holds the renaming of every stored row that passes both filters, and
      nothing else. */
  lemma ChartRowsMembers(data: seq<Row>, p: Row)
    ensures p in ChartRows(data) <==> exists i :: 0 <= i < |data| && Charted(data[i]) && p == Prep(data[i])
  {
    FilterMapMembers(data, Charted, Prep, p);
  }

  /** What update_tree_chart does with the store: no chart (`{}`), a chart of the tree, or an
      exception out of the builder. */
  datatype ChartOutcome = NoChart | Drawn(tree: TreeNode) | Raises

  function ChartOf(v: Variant, data: seq<Row>): (c: ChartOutcome)
    ensures c == NoChart <==> ChartRows(data) == []
    ensures c == Raises <==>
      ChartRows(data) != [] && v == FirstApp && exists j :: 0 <= j < |ChartRows(data)| && !ChartRows(data)[j]["level"].Int?
    ensures c.Drawn? ==> Success(c.tree) == HierarchyOf(v, ReadRows(ChartRows(data)))
  {
    var ps: seq<Row> := ChartRows(data);
    if data == [] || ps == [] then NoChart
    else
      var rows := ReadRows(ps);
      assert forall j :: 0 <= j < |ps| ==> rows[j].level == ps[j]["level"];
      match HierarchyOf(v, rows)
      case Failure(_) => Raises
      case Success(t) => Drawn(t)
  }

  /** update_tree_chart. */
  method UpdateTreeChart(v: Variant, data: seq<Row>) returns (c: ChartOutcome)
    ensures c == ChartOf(v, data)
  {
    if data == [] {
      return NoChart;
    }
    var ps: seq<Row> := ChartRows(data);
    if ps == [] {
      return NoChart;
    }
    var tree := CsvToHierarchy(v, ps);
    if tree.Failure? {
      return Raises;
    }
    return Drawn(tree.value);
  }

  /** Each row of the hierarchy frame is the renaming of a stored row. */
  lemma PrepOrigin(data: seq<Row>, j: nat)
    requires j < |ChartRows(data)|
    ensures exists i :: 0 <= i < |data| && ChartRows(data)[j] == Prep(data[i])
  {
    ChartRowsMembers(data, ChartRows(data)[j]);
  }

  /** When every stored Level is an integer the first dashboard's chart is drawn whenever a row
      survives the filters. */
  lemma IntegerLevelsDrawn(data: seq<Row>)
    requires forall i :: 0 <= i < |data| ==> Get(data[i], "Level", Null).Int?
    ensures ChartOf(FirstApp, data).Drawn? <==> ChartRows(data) != []
  {
    var ps: seq<Row> := ChartRows(data);
    forall j | 0 <= j < |ps| ensures ps[j]["level"].Int? {
      PrepOrigin(data, j);
    }
  }

  /** The second dashboard's builder reads 'Level', which the hierarchy frame does not have, so
      its chart never fails and every product enters at level 0, every ingredient at level 1. */
  lemma SecondAppChartLevels(data: seq<Row>, k: Cell)
    ensures ChartOf(SecondApp, data) != Raises
    ensures Collect(SecondApp, ReadRows(ChartRows(data))).Success?
    ensures var rows := ReadRows(ChartRows(data));
      k in Collect(SecondApp, rows).value.table.info ==>
        var n := Collect(SecondApp, rows).value.table.info[k];
        (n.level == 0 || n.level == 1)
        && (n.level == 1 <==> n.kind != RootKind && forall j :: 0 <= j < |rows| ==> rows[j].source != k)
  {
    var ps: seq<Row> := ChartRows(data);
    var rows := ReadRows(ps);
    CollectFailsIffLevelNotInt(SecondApp, rows);
    assert forall j :: 0 <= j < |rows| ==> rows[j].capitalLevel == Get(ps[j], "Level", Int(0)) == Int(0);
    if k in Collect(SecondApp, rows).value.table.info {
      SecondAppWithoutLevelColumn(rows, k);
    }
  }
}
