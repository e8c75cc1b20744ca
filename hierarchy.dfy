/** csv_to_hierarchy_by_level, in the two variants the dashboards carry (app.py and app2.py):
    a node table built row by row with first-write-wins attributes and minimum levels, a root
    chosen among the nodes no row names as a child (or a virtual root over every level-0 node),
    a parent-to-children map in relationship order, and a tree emitted by a recursion that
    keeps a per-path visited set. */
module Hierarchy {
  import opened Common
  import opened Text

  /** app.py reads the row's 'level' as given; app2.py reads 'Level' through int() and
      backfills empty descriptions. */
  datatype Variant = FirstApp | SecondApp

  datatype NodeKind = RootKind | ProductKind | IngredientKind | VirtualRootKind

  /** One entry of node_info. */
  datatype NodeInfo = NodeInfo(name: Cell, description: Cell, level: int, kind: NodeKind)

  /** node_info: the entries and the dictionary's insertion order. */
  datatype NodeTable = NodeTable(info: map<Cell, NodeInfo>, order: seq<Cell>)

  /** One (parent, child, level) relationship. */
  datatype Rel = Rel(parent: Cell, child: Cell, level: int)

  /** app.py computes `level + 1` on whatever the row holds; for anything but an integer
      Python raises TypeError. */
  datatype HierError = LevelTypeError

  /** One row of the frame as the builder reads it: 'root', 'source' and 'ingredient' by
      indexing, the other columns through row.get with their defaults. `level` is the 'level'
      column (app.py) and `capitalLevel` the 'Level' column (app2.py). */
  datatype ChartRow = ChartRow(
    root: Cell, rootItemCode: Cell, source: Cell, ingredient: Cell,
    rootDesc: Cell, sourceDesc: Cell, ingredientDesc: Cell, level: Cell, capitalLevel: Cell)

  /** The columns the builder indexes with `row[...]`: without them it raises KeyError. */
  predicate HasNodeColumns(row: Row)
  {
    "root" in row && "source" in row && "ingredient" in row
  }

  predicate AllHaveNodeColumns(rows: seq<Row>)
  {
    forall j :: 0 <= j < |rows| ==> HasNodeColumns(rows[j])
  }

  function ReadRow(row: Row): (r: ChartRow)
    requires HasNodeColumns(row)
    ensures r.root == row["root"] && r.source == row["source"] && r.ingredient == row["ingredient"]
    ensures "root_itemcode" !in row ==> r.rootItemCode == Str("")
    ensures "root desc" !in row ==> r.rootDesc == Str("")
    ensures "source desc" !in row ==> r.sourceDesc == Str("")
    ensures "ingredient description" !in row ==> r.ingredientDesc == Str("")
    ensures "level" !in row ==> r.level == Int(0)
    ensures "Level" !in row ==> r.capitalLevel == Int(0)
    ensures "level" in row ==> r.level == row["level"]
    ensures "Level" in row ==> r.capitalLevel == row["Level"]
  {
    ChartRow(row["root"], Get(row, "root_itemcode", Str("")), row["source"], row["ingredient"],
             Get(row, "root desc", Str("")), Get(row, "source desc", Str("")),
             Get(row, "ingredient description", Str("")), Get(row, "level", Int(0)), Get(row, "Level", Int(0)))
  }

  /** csv_data.iterrows(), each row read as above. */
  function ReadRows(rows: seq<Row>): (rs: seq<ChartRow>)
    requires AllHaveNodeColumns(rows)
    ensures |rs| == |rows|
    ensures forall j :: 0 <= j < |rows| ==> rs[j] == ReadRow(rows[j])
  {
    seq(|rows|, j requires 0 <= j < |rows| => ReadRow(rows[j]))
  }

  predicate Mentions(r: ChartRow, k: Cell)
  {
    r.root == k || r.source == k || r.ingredient == k
  }

  /** int(c), with 0 for a ValueError or TypeError. */
  function IntOrZero(c: Cell): (i: int)
    ensures c.Int? ==> i == c.i
    ensures c.Null? ==> i == 0
    ensures c.Str? ==> i == (if ParseInt(c.s).Some? then ParseInt(c.s).value else 0)
  {
    match c
    case Int(n) => n
    case Null => 0
    case Str(s) => match ParseInt(s) case Some(n) => n case None => 0
  }

  /** The level a row contributes, or None where `level + 1` raises. */
  function RowLevel(v: Variant, r: ChartRow): (l: Option<int>)
    ensures v == FirstApp ==> (l.Some? <==> r.level.Int?)
    ensures v == FirstApp && l.Some? ==> l.value == r.level.i
    ensures v == SecondApp ==> l == Some(IntOrZero(r.capitalLevel))
  {
    if v == FirstApp then (if r.level.Int? then Some(r.level.i) else None)
    else Some(IntOrZero(r.capitalLevel))
  }

  // ---------------------------------------------------------------------------------------
  // The node table

  /** The insertion order lists exactly the keys of node_info. */
  ghost predicate ValidTable(t: NodeTable)
  {
    forall k :: k in t.info <==> k in t.order
  }

  /** No key is listed twice. */
  predicate Distinct(s: seq<Cell>)
  {
    forall i, j :: 0 <= i < j < |s| ==> s[i] != s[j]
  }

  /** What the first mention of `k` in a row writes: a root entry comes first in a row, then a
      product entry, then an ingredient entry. */
  function CreatedKind(r: ChartRow, k: Cell): NodeKind
  {
    if r.root == k then RootKind else if r.source == k then ProductKind else IngredientKind
  }

  function CreatedName(r: ChartRow, k: Cell): Cell
  {
    if r.root == k && Truthy(r.rootItemCode) then r.rootItemCode else k
  }

  function CreatedDescription(r: ChartRow, k: Cell): Cell
  {
    if r.root == k then r.rootDesc else if r.source == k then r.sourceDesc else r.ingredientDesc
  }

  /** The row offers `k` the level `lvl`: as its product at the row's level, or as its
      ingredient one below. */
  predicate Offered(r: ChartRow, k: Cell, l: int, lvl: int)
  {
    (r.source == k && lvl == l) || (r.ingredient == k && lvl == l + 1)
  }

  function Insert(t: NodeTable, k: Cell, n: NodeInfo): NodeTable
  {
    NodeTable(t.info[k := n], t.order + [k])
  }

  /** What a later mention does to an existing entry: the minimum of the levels and, in
      app2.py, an empty description replaced by a non-empty one. */
  function Merged(v: Variant, n: NodeInfo, desc: Cell, lvl: int): (n': NodeInfo)
    ensures n'.name == n.name && n'.kind == n.kind
    ensures n'.level <= n.level && n'.level <= lvl && (n'.level == n.level || n'.level == lvl)
    ensures v == FirstApp || Truthy(n.description) ==> n'.description == n.description
    ensures v == SecondApp && !Truthy(n.description) && Truthy(desc) ==> n'.description == desc
    ensures !Truthy(n'.description) ==> !Truthy(n.description) && (v == SecondApp ==> !Truthy(desc))
  {
    var n1 := n.(level := Min(n.level, lvl));
    if v == SecondApp && !Truthy(n.description) && Truthy(desc) then n1.(description := desc) else n1
  }

  /** The product or ingredient branch: a new entry, or the existing one merged. */
  function Offer(v: Variant, t: NodeTable, k0: Cell, desc: Cell, lvl: int, kind: NodeKind): (t': NodeTable)
    ensures k0 in t'.info && t'.info == t.info[k0 := t'.info[k0]]
    ensures k0 !in t.info ==> t'.info[k0] == NodeInfo(k0, desc, lvl, kind) && t'.order == t.order + [k0]
    ensures k0 in t.info ==> t'.info[k0] == Merged(v, t.info[k0], desc, lvl) && t'.order == t.order
  {
    if k0 !in t.info then Insert(t, k0, NodeInfo(k0, desc, lvl, kind))
    else NodeTable(t.info[k0 := Merged(v, t.info[k0], desc, lvl)], t.order)
  }

  /** The root branch: a new root entry at level 0; an existing entry is left alone. */
  function RootStep(t: NodeTable, r: ChartRow): (t': NodeTable)
    ensures r.root in t'.info && t'.info == t.info[r.root := t'.info[r.root]]
    ensures r.root in t.info ==> t' == t
    ensures r.root !in t.info ==>
      (t'.order == t.order + [r.root]
       && t'.info[r.root].level == 0 && t'.info[r.root].kind == RootKind && t'.info[r.root].description == r.rootDesc
       && t'.info[r.root].name == (if Truthy(r.rootItemCode) then r.rootItemCode else r.root))
  {
    if r.root in t.info then t
    else Insert(t, r.root, NodeInfo(CreatedName(r, r.root), r.rootDesc, 0, RootKind))
  }

  /** One iteration of the row loop. */
  function AddRow(v: Variant, t: NodeTable, r: ChartRow, l: int): (t': NodeTable)
    ensures t'.info.Keys == t.info.Keys + {r.root, r.source, r.ingredient}
    ensures t.order <= t'.order
  {
    var t1 := RootStep(t, r);
    var t2 := Offer(v, t1, r.source, r.sourceDesc, l, ProductKind);
    Offer(v, t2, r.ingredient, r.ingredientDesc, l + 1, IngredientKind)
  }

  /** Inserting a key that is not yet present keeps the order listing every key exactly once. */
  lemma InsertValid(t: NodeTable, k: Cell, n: NodeInfo)
    requires ValidTable(t) && Distinct(t.order) && k !in t.info
    ensures ValidTable(Insert(t, k, n)) && Distinct(Insert(t, k, n).order)
  {
    var o := t.order + [k];
    forall i, j | 0 <= i < j < |o| ensures o[i] != o[j] {
      assert o[i] == t.order[i];
      if j < |t.order| {
        assert o[j] == t.order[j];
      }
    }
  }

  lemma OfferValid(v: Variant, t: NodeTable, k0: Cell, desc: Cell, lvl: int, kind: NodeKind)
    requires ValidTable(t) && Distinct(t.order)
    ensures ValidTable(Offer(v, t, k0, desc, lvl, kind)) && Distinct(Offer(v, t, k0, desc, lvl, kind).order)
  {
    if k0 !in t.info {
      InsertValid(t, k0, NodeInfo(k0, desc, lvl, kind));
    }
  }

  /** One iteration keeps the order listing every key exactly once. */
  lemma AddRowValid(v: Variant, t: NodeTable, r: ChartRow, l: int)
    requires ValidTable(t) && Distinct(t.order)
    ensures ValidTable(AddRow(v, t, r, l)) && Distinct(AddRow(v, t, r, l).order)
  {
    if r.root !in t.info {
      InsertValid(t, r.root, NodeInfo(CreatedName(r, r.root), r.rootDesc, 0, RootKind));
    }
    var t1 := RootStep(t, r);
    OfferValid(v, t1, r.source, r.sourceDesc, l, ProductKind);
    OfferValid(v, Offer(v, t1, r.source, r.sourceDesc, l, ProductKind), r.ingredient, r.ingredientDesc, l + 1, IngredientKind);
  }

  /** The entry of `k` after each of the three branches of one iteration. */
  lemma AddRowSteps(v: Variant, t: NodeTable, r: ChartRow, l: int, k: Cell)
    ensures var t1 := RootStep(t, r);
      var t2 := Offer(v, t1, r.source, r.sourceDesc, l, ProductKind);
      var t3 := Offer(v, t2, r.ingredient, r.ingredientDesc, l + 1, IngredientKind);
      t3 == AddRow(v, t, r, l)
      && (k in t1.info <==> k in t.info || k == r.root)
      && (k in t2.info <==> k in t1.info || k == r.source)
      && (k in t3.info <==> k in t2.info || k == r.ingredient)
      && (k in t.info ==> t1.info[k] == t.info[k])
      && (k !in t.info && k == r.root ==> t1.info[k] == NodeInfo(CreatedName(r, k), r.rootDesc, 0, RootKind))
      && (k in t1.info && k != r.source ==> t2.info[k] == t1.info[k])
      && (k in t1.info && k == r.source ==> t2.info[k] == Merged(v, t1.info[k], r.sourceDesc, l))
      && (k !in t1.info && k == r.source ==> t2.info[k] == NodeInfo(k, r.sourceDesc, l, ProductKind))
      && (k in t2.info && k != r.ingredient ==> t3.info[k] == t2.info[k])
      && (k in t2.info && k == r.ingredient ==> t3.info[k] == Merged(v, t2.info[k], r.ingredientDesc, l + 1))
      && (k !in t2.info && k == r.ingredient ==> t3.info[k] == NodeInfo(k, r.ingredientDesc, l + 1, IngredientKind))
  {
  }

  /** The key clause of AddRow's contract for one cell, which keeps the proofs over the whole
      loop from unfolding the three branches. */
  lemma AddRowKeys(v: Variant, t: NodeTable, r: ChartRow, l: int, k: Cell)
    ensures k in AddRow(v, t, r, l).info <==> k in t.info || Mentions(r, k)
  {
  }

  /** node_info and relationships after the row loop. */
  datatype Collected = Collected(table: NodeTable, rels: seq<Rel>)

  /** The row loop, over the rows in order; the first row whose level is not an integer makes
      app.py raise. */
  function Collect(v: Variant, rows: seq<ChartRow>): (res: Result<Collected, HierError>)
    ensures res.Success? <==> forall j :: 0 <= j < |rows| ==> RowLevel(v, rows[j]).Some?
    ensures res.Success? ==> |res.value.rels| == |rows|
    decreases |rows|
  {
    if rows == [] then Success(Collected(NodeTable(map[], []), []))
    else
      var pre := rows[..|rows| - 1];
      var r := rows[|rows| - 1];
      assert forall j :: 0 <= j < |pre| ==> pre[j] == rows[j];
      match Collect(v, pre)
      case Failure(e) => Failure(e)
      case Success(c) =>
        match RowLevel(v, r)
        case None => Failure(LevelTypeError)
        case Some(l) => Success(Collected(AddRow(v, c.table, r, l), c.rels + [Rel(r.source, r.ingredient, l)]))
  }

  /** node_info's order lists each of its keys exactly once. */
  lemma {:induction false} CollectValid(v: Variant, rows: seq<ChartRow>)
    requires Collect(v, rows).Success?
    ensures ValidTable(Collect(v, rows).value.table) && Distinct(Collect(v, rows).value.table.order)
    decreases |rows|
  {
    if rows != [] {
      var pre, r := rows[..|rows| - 1], rows[|rows| - 1];
      CollectValid(v, pre);
      AddRowValid(v, Collect(v, pre).value.table, r, RowLevel(v, r).value);
    }
  }

  /** A successful loop over a non-empty frame is the loop over all rows but the last, then the
      last row. */
  lemma CollectLast(v: Variant, rows: seq<ChartRow>)
    requires rows != [] && Collect(v, rows).Success?
    ensures var pre, r := rows[..|rows| - 1], rows[|rows| - 1];
      Collect(v, pre).Success? && RowLevel(v, r).Some?
      && Collect(v, rows).value.table == AddRow(v, Collect(v, pre).value.table, r, RowLevel(v, r).value)
  {
  }

  /** The nodes of the table are exactly the cells some row mentions. */
  lemma {:induction false} CollectKeys(v: Variant, rows: seq<ChartRow>, k: Cell)
    requires Collect(v, rows).Success?
    ensures k in Collect(v, rows).value.table.info <==> exists j :: 0 <= j < |rows| && Mentions(rows[j], k)
    decreases |rows|
  {
    if rows != [] {
      var pre, r := rows[..|rows| - 1], rows[|rows| - 1];
      CollectLast(v, rows);
      var c := Collect(v, pre).value;
      CollectKeys(v, pre, k);
      AddRowKeys(v, c.table, r, RowLevel(v, r).value, k);
      MentionedSnoc(rows, pre, k);
    }
  }

  /** A cell is mentioned by some row exactly when it is mentioned before the last row or by it. */
  lemma MentionedSnoc(rows: seq<ChartRow>, pre: seq<ChartRow>, k: Cell)
    requires rows != [] && pre == rows[..|rows| - 1]
    ensures (exists j :: 0 <= j < |rows| && Mentions(rows[j], k)) <==>
      (exists j :: 0 <= j < |pre| && Mentions(pre[j], k)) || Mentions(rows[|rows| - 1], k)
  {
    if exists j :: 0 <= j < |pre| && Mentions(pre[j], k) {
      var j :| 0 <= j < |pre| && Mentions(pre[j], k);
      assert rows[j] == pre[j];
    }
    if exists j :: 0 <= j < |rows| && Mentions(rows[j], k) {
      var j :| 0 <= j < |rows| && Mentions(rows[j], k);
      if j < |pre| {
        assert rows[j] == pre[j];
      }
    }
  }

  /** One relationship per row, in row order: (source, ingredient, the row's level). */
  lemma {:induction false} CollectRels(v: Variant, rows: seq<ChartRow>, j: nat)
    requires Collect(v, rows).Success? && j < |rows|
    ensures Collect(v, rows).value.rels[j] == Rel(rows[j].source, rows[j].ingredient, RowLevel(v, rows[j]).value)
    decreases |rows|
  {
    var pre := rows[..|rows| - 1];
    if j < |pre| {
      CollectRels(v, pre, j);
      assert pre[j] == rows[j];
    }
  }

  /** The row loop fails exactly in app.py, exactly when some row's level is not an integer. */
  lemma CollectFailsIffLevelNotInt(v: Variant, rows: seq<ChartRow>)
    ensures Collect(v, rows).Failure? <==> v == FirstApp && exists j :: 0 <= j < |rows| && !rows[j].level.Int?
  {
    if Collect(v, rows).Failure? {
      var j :| 0 <= j < |rows| && RowLevel(v, rows[j]).None?;
    }
  }

  /** A node first written as a root keeps a level of at most 0. */
  lemma {:induction false} RootLevelAtMostZero(v: Variant, rows: seq<ChartRow>, k: Cell)
    requires Collect(v, rows).Success? && k in Collect(v, rows).value.table.info
    requires Collect(v, rows).value.table.info[k].kind == RootKind
    ensures Collect(v, rows).value.table.info[k].level <= 0
    decreases |rows|
  {
    var pre, r := rows[..|rows| - 1], rows[|rows| - 1];
    var c := Collect(v, pre).value;
    AddRowSteps(v, c.table, r, RowLevel(v, r).value, k);
    if k in c.table.info {
      RootLevelAtMostZero(v, pre, k);
    }
  }

  /** Every level offered to a node bounds its final level: a product mention by the row's
      level, an ingredient mention by one more. */
  lemma {:induction false} LevelAtMostOffers(v: Variant, rows: seq<ChartRow>, k: Cell, j: nat)
    requires Collect(v, rows).Success? && k in Collect(v, rows).value.table.info && j < |rows|
    ensures var n := Collect(v, rows).value.table.info[k];
      (rows[j].source == k ==> n.level <= RowLevel(v, rows[j]).value)
      && (rows[j].ingredient == k ==> n.level <= RowLevel(v, rows[j]).value + 1)
    decreases |rows|
  {
    var pre, r := rows[..|rows| - 1], rows[|rows| - 1];
    var c := Collect(v, pre).value;
    AddRowSteps(v, c.table, r, RowLevel(v, r).value, k);
    if j < |pre| {
      assert pre[j] == rows[j];
      if Mentions(pre[j], k) {
        CollectKeys(v, pre, k);
        LevelAtMostOffers(v, pre, k, j);
      }
    }
  }

  /** The final level of a node is one of the levels offered to it, or the 0 of a node first
      written as a root: with the bound above, it is the minimum of those. */
  lemma {:induction false} LevelIsOffered(v: Variant, rows: seq<ChartRow>, k: Cell)
    requires Collect(v, rows).Success? && k in Collect(v, rows).value.table.info
    ensures var n := Collect(v, rows).value.table.info[k];
      (n.kind == RootKind && n.level == 0)
      || exists j :: 0 <= j < |rows| && Offered(rows[j], k, RowLevel(v, rows[j]).value, n.level)
    decreases |rows|
  {
    var pre, r := rows[..|rows| - 1], rows[|rows| - 1];
    var c := Collect(v, pre).value;
    var l := RowLevel(v, r).value;
    AddRowSteps(v, c.table, r, l, k);
    var n := Collect(v, rows).value.table.info[k];
    if Offered(r, k, l, n.level) {
      assert Offered(rows[|rows| - 1], k, RowLevel(v, rows[|rows| - 1]).value, n.level);
    } else if k in c.table.info {
      LevelIsOffered(v, pre, k);
      if !(c.table.info[k].kind == RootKind && c.table.info[k].level == 0) {
        var j :| 0 <= j < |pre| && Offered(pre[j], k, RowLevel(v, pre[j]).value, c.table.info[k].level);
        assert pre[j] == rows[j];
      }
    }
  }

  /** A node's name and kind (and in app.py its description) are those its first mention
      wrote. */
  lemma {:induction false} FirstWriteWins(v: Variant, rows: seq<ChartRow>, k: Cell, j: nat)
    requires Collect(v, rows).Success?
    requires j < |rows| && Mentions(rows[j], k)
    requires forall i :: 0 <= i < j ==> !Mentions(rows[i], k)
    ensures k in Collect(v, rows).value.table.info
    ensures var n := Collect(v, rows).value.table.info[k];
      n.name == CreatedName(rows[j], k) && n.kind == CreatedKind(rows[j], k)
      && (v == FirstApp ==> n.description == CreatedDescription(rows[j], k))
    decreases |rows|
  {
    var pre, r := rows[..|rows| - 1], rows[|rows| - 1];
    var c := Collect(v, pre).value;
    AddRowSteps(v, c.table, r, RowLevel(v, r).value, k);
    if j < |pre| {
      assert pre[j] == rows[j];
      assert forall i :: 0 <= i < j ==> pre[i] == rows[i];
      FirstWriteWins(v, pre, k, j);
    } else {
      CollectKeys(v, pre, k);
      assert forall i :: 0 <= i < |pre| ==> pre[i] == rows[i];
    }
  }

  /** app2.py: a node's description is empty only when no source or ingredient mention offered
      it a non-empty one. HierarchyDescription.FinalDescription gives
      the description itself. */
  lemma {:induction false} EmptyDescriptionMeansNoneOffered(rows: seq<ChartRow>, k: Cell, j: nat)
    requires Collect(SecondApp, rows).Success? && k in Collect(SecondApp, rows).value.table.info
    requires !Truthy(Collect(SecondApp, rows).value.table.info[k].description)
    requires j < |rows|
    ensures rows[j].source == k ==> !Truthy(rows[j].sourceDesc)
    ensures rows[j].ingredient == k ==> !Truthy(rows[j].ingredientDesc)
    decreases |rows|
  {
    var pre, r := rows[..|rows| - 1], rows[|rows| - 1];
    var c := Collect(SecondApp, pre).value;
    AddRowSteps(SecondApp, c.table, r, RowLevel(SecondApp, r).value, k);
    if j < |pre| {
      assert pre[j] == rows[j];
      if Mentions(pre[j], k) {
        CollectKeys(SecondApp, pre, k);
        EmptyDescriptionMeansNoneOffered(pre, k, j);
      }
    }
  }

  // Root choice

  const VirtualRoot: Cell := Str("Manufacturing Process")

  const VirtualRootInfo: NodeInfo := NodeInfo(VirtualRoot, Str("Manufacturing Process Root"), -1, VirtualRootKind)

  /** The nodes named as a child by some relationship. */
  function Children(rels: seq<Rel>): set<Cell>
  {
    set r | r in rels :: r.child
  }

  /** root_candidates: in node_info order, the nodes that are never a child or are roots. */
  function Candidates(order: seq<Cell>, info: map<Cell, NodeInfo>, children: set<Cell>): (cs: seq<Cell>)
    requires forall k :: k in order ==> k in info
    ensures forall k :: k in cs <==> k in order && (k !in children || info[k].kind == RootKind)
  {
    if order == [] then []
    else
      (if order[0] !in children || info[order[0]].kind == RootKind then [order[0]] else [])
      + Candidates(order[1..], info, children)
  }

  /** Whether a node of node_info is at level 0. */
  function LevelZeroTest(info: map<Cell, NodeInfo>): Cell -> bool
  {
    k => k in info && info[k].level == 0
  }

  function VirtualEdge(k: Cell): Rel
  {
    Rel(VirtualRoot, k, -1)
  }

  /** The edges from the virtual root to every level-0 node, in node_info order. */
  function LevelZeroEdges(order: seq<Cell>, info: map<Cell, NodeInfo>): seq<Rel>
    requires forall k :: k in order ==> k in info
  {
    if order == [] then []
    else
      (if info[order[0]].level == 0 then [Rel(VirtualRoot, order[0], -1)] else [])
      + LevelZeroEdges(order[1..], info)
  }

  /** The virtual root's edges go to the level-0 nodes in node_info order, one each. */
  lemma {:induction false} LevelZeroEdgesInOrder(order: seq<Cell>, info: map<Cell, NodeInfo>)
    requires forall k :: k in order ==> k in info
    ensures LevelZeroEdges(order, info) == MapSeq(Filter(order, LevelZeroTest(info)), VirtualEdge)
  {
    if order != [] {
      var x, tail := order[0], order[1..];
      var keep := LevelZeroTest(info);
      assert keep(x) == (info[x].level == 0);
      LevelZeroEdgesInOrder(tail, info);
      var head := if keep(x) then [x] else [];
      var rest := Filter(tail, keep);
      assert LevelZeroEdges(order, info) == MapSeq(head, VirtualEdge) + LevelZeroEdges(tail, info);
      assert [x] + tail == order;
      FilterCons(x, tail, keep);
      assert Filter(order, keep) == head + rest;
      MapSeqAppend(head, rest, VirtualEdge);
    }
  }

  lemma {:induction false} LevelZeroEdgesMembers(order: seq<Cell>, info: map<Cell, NodeInfo>)
    requires forall k :: k in order ==> k in info
    ensures forall e :: e in LevelZeroEdges(order, info) <==>
      exists k :: k in order && info[k].level == 0 && e == Rel(VirtualRoot, k, -1)
  {
    if order != [] {
      LevelZeroEdgesMembers(order[1..], info);
      assert forall k :: k in order <==> k == order[0] || k in order[1..];
    }
  }

  datatype Rooted = Rooted(table: NodeTable, rels: seq<Rel>, root: Cell)

  /** A single candidate is the root; otherwise the virtual root is written into node_info
      (keeping its place if the key exists) and linked to every level-0 node. */
  function ChooseRoot(c: Collected): (r: Rooted)
    requires ValidTable(c.table)
    ensures ValidTable(r.table) && r.root in r.table.info
    ensures var cs := Candidates(c.table.order, c.table.info, Children(c.rels));
      if |cs| == 1 then r == Rooted(c.table, c.rels, cs[0])
      else
        r.root == VirtualRoot && r.table.info == c.table.info[VirtualRoot := VirtualRootInfo]
        && r.table.order == (if VirtualRoot in c.table.info then c.table.order else c.table.order + [VirtualRoot])
        && |r.rels| >= |c.rels| && r.rels[..|c.rels|] == c.rels
        && r.rels[|c.rels|..] == LevelZeroEdges(r.table.order, r.table.info)
        && forall e :: e in r.rels[|c.rels|..] <==>
             exists k :: k in r.table.info && r.table.info[k].level == 0 && e == Rel(VirtualRoot, k, -1)
  {
    var cs := Candidates(c.table.order, c.table.info, Children(c.rels));
    if |cs| == 1 then Rooted(c.table, c.rels, cs[0])
    else
      var t := if VirtualRoot in c.table.info then NodeTable(c.table.info[VirtualRoot := VirtualRootInfo], c.table.order)
               else Insert(c.table, VirtualRoot, VirtualRootInfo);
      assert ValidTable(t);
      var es := LevelZeroEdges(t.order, t.info);
      LevelZeroEdgesMembers(t.order, t.info);
      assert (c.rels + es)[..|c.rels|] == c.rels && (c.rels + es)[|c.rels|..] == es;
      Rooted(t, c.rels + es, VirtualRoot)
  }

  /** With at least one row there is a candidate: the first row's root was written as a root. */
  lemma RowsGiveCandidate(v: Variant, rows: seq<ChartRow>)
    requires Collect(v, rows).Success? && rows != []
    ensures ValidTable(Collect(v, rows).value.table)
    ensures var c := Collect(v, rows).value;
      |Candidates(c.table.order, c.table.info, Children(c.rels))| >= 1
  {
    var c := Collect(v, rows).value;
    CollectValid(v, rows);
    var k := rows[0].root;
    FirstWriteWins(v, rows, k, 0);
    assert k in c.table.order;
    assert k in Candidates(c.table.order, c.table.info, Children(c.rels));
  }

  // ---------------------------------------------------------------------------------------
  // Parent-to-children map

  /** The children of `p`, in relationship order. */
  function ChildrenOf(rels: seq<Rel>, p: Cell): (cs: seq<Cell>)
    ensures forall c :: c in cs <==> exists r :: r in rels && r.parent == p && r.child == c
    decreases |rels|
  {
    if rels == [] then []
    else
      var pre := rels[..|rels| - 1];
      var last := rels[|rels| - 1];
      assert forall r :: r in rels <==> r in pre || r == last;
      ChildrenOf(pre, p) + (if last.parent == p then [last.child] else [])
  }

  lemma {:induction false} NoParentNoChildren(rels: seq<Rel>, p: Cell)
    requires forall r :: r in rels ==> r.parent != p
    ensures ChildrenOf(rels, p) == []
    decreases |rels|
  {
    if rels != [] {
      var pre := rels[..|rels| - 1];
      assert forall r :: r in pre ==> r in rels;
      assert rels[|rels| - 1] in rels;
      NoParentNoChildren(pre, p);
    }
  }

  function Parents(rels: seq<Rel>): set<Cell>
  {
    set r | r in rels :: r.parent
  }

  /** parent_to_children. */
  function ParentToChildren(rels: seq<Rel>): (m: map<Cell, seq<Cell>>)
    ensures forall p :: p in m <==> exists r :: r in rels && r.parent == p
  {
    map p | p in Parents(rels) :: ChildrenOf(rels, p)
  }

  /** parent_to_children's entry for `id`, or none. */
  function Kids(p2c: map<Cell, seq<Cell>>, id: Cell): seq<Cell>
  {
    if id in p2c then p2c[id] else []
  }

  lemma KidsAreChildrenOf(rels: seq<Rel>, p: Cell)
    ensures Kids(ParentToChildren(rels), p) == ChildrenOf(rels, p)
  {
    if p !in ParentToChildren(rels) {
      NoParentNoChildren(rels, p);
    }
  }

  /** The loop that fills parent_to_children. */
  method BuildParentToChildren(rels: seq<Rel>) returns (m: map<Cell, seq<Cell>>)
    ensures m == ParentToChildren(rels)
  {
    m := map[];
    var i := 0;
    assert rels[..0] == [];
    while i < |rels|
      invariant 0 <= i <= |rels|
      invariant m == ParentToChildren(rels[..i])
    {
      var r := rels[i];
      ParentToChildrenSnoc(rels, i);
      if r.parent !in m {
        m := m[r.parent := []];
      }
      m := m[r.parent := m[r.parent] + [r.child]];
      i := i + 1;
    }
    assert rels[..i] == rels;
  }

  /** One more relationship appends its child to its parent's list, creating the list when the
      parent is new. */
  lemma ParentToChildrenSnoc(rels: seq<Rel>, i: nat)
    requires i < |rels|
    ensures var m, r := ParentToChildren(rels[..i]), rels[i];
      ParentToChildren(rels[..i + 1]) == m[r.parent := Kids(m, r.parent) + [r.child]]
  {
    var pre, post, r := rels[..i], rels[..i + 1], rels[i];
    var m := ParentToChildren(pre);
    assert post[..|post| - 1] == pre && post[|post| - 1] == r;
    assert forall e :: e in post <==> e in pre || e == r;
    assert Parents(post) == Parents(pre) + {r.parent};
    KidsAreChildrenOf(pre, r.parent);
    var lhs, rhs := ParentToChildren(post), m[r.parent := Kids(m, r.parent) + [r.child]];
    assert lhs.Keys == rhs.Keys;
    forall q | q in lhs ensures lhs[q] == rhs[q] {
      assert lhs[q] == ChildrenOf(post, q);
      if q != r.parent {
        assert rhs[q] == ChildrenOf(pre, q);
      }
    }
  }

  // ---------------------------------------------------------------------------------------
  // The tree

  /** A node of the emitted tree; `value` is only in app2.py's output. */
  datatype TreeNode = TreeNode(
    id: Cell, name: Cell, description: Cell, level: int, kind: NodeKind,
    value: Option<Cell>, children: seq<TreeNode>)

  function NodeOf(v: Variant, id: Cell, n: NodeInfo, children: seq<TreeNode>): (t: TreeNode)
    ensures t.id == id && t.children == children
    ensures t.name == n.name && t.description == n.description && t.level == n.level && t.kind == n.kind
    ensures v == FirstApp ==> t.value == None
    ensures v == SecondApp && Truthy(n.description) ==> t.value == Some(n.description)
    ensures v == SecondApp && !Truthy(n.description) ==> t.value == Some(n.name)
  {
    TreeNode(id, n.name, n.description, n.level, n.kind,
             if v == SecondApp then Some(if Truthy(n.description) then n.description else n.name) else None,
             children)
  }

  function Ids(ts: seq<TreeNode>): (ids: seq<Cell>)
    ensures |ids| == |ts| && forall k :: 0 <= k < |ts| ==> ids[k] == ts[k].id
  {
    if ts == [] then [] else [ts[0].id] + Ids(ts[1..])
  }

  /** The ids of `ids` not in `seen`, in order. */
  function Unvisited(ids: seq<Cell>, seen: set<Cell>): (r: seq<Cell>)
    ensures forall c :: c in r <==> c in ids && c !in seen
  {
    if ids == [] then [] else (if ids[0] in seen then [] else [ids[0]]) + Unvisited(ids[1..], seen)
  }

  /** No node repeats an id that lies above it on its path (or in `above`). */
  predicate PathFresh(t: TreeNode, above: set<Cell>)
  {
    t.id !in above && forall c :: c in t.children ==> PathFresh(c, above + {t.id})
  }

  /** At every node below the path `above`, the children are the trees of the node's
      parent_to_children entries that are not on the path, in that order. */
  predicate Expands(p2c: map<Cell, seq<Cell>>, t: TreeNode, above: set<Cell>)
  {
    Ids(t.children) == Unvisited(Kids(p2c, t.id), above + {t.id})
    && forall c :: c in t.children ==> Expands(p2c, c, above + {t.id})
  }

  /** Every node carries its node_info entry. */
  predicate Describes(v: Variant, info: map<Cell, NodeInfo>, t: TreeNode)
  {
    t.id in info && t == NodeOf(v, t.id, info[t.id], t.children)
    && forall c :: c in t.children ==> Describes(v, info, c)
  }

  predicate ChildrenKnown(info: map<Cell, NodeInfo>, p2c: map<Cell, seq<Cell>>)
  {
    forall p, c :: p in p2c && c in p2c[p] ==> c in info
  }

  lemma RemovingOneShrinks(keys: set<Cell>, visited: set<Cell>, id: Cell)
    requires id in keys && id !in visited
    ensures |keys - (visited + {id})| < |keys - visited|
  {
    assert keys - visited == (keys - (visited + {id})) + {id};
  }

  /** build_tree_node: None for a node already on the path, otherwise the node with the trees
      of its unvisited children, each built with its own copy of the path. */
  function BuildTreeNode(v: Variant, info: map<Cell, NodeInfo>, p2c: map<Cell, seq<Cell>>, id: Cell, visited: set<Cell>)
    : (r: Option<TreeNode>)
    requires ChildrenKnown(info, p2c) && id in info
    ensures r.None? <==> id in visited
    ensures r.Some? ==> r.value.id == id && PathFresh(r.value, visited) && Describes(v, info, r.value)
    ensures r.Some? ==> Ids(r.value.children) == Unvisited(Kids(p2c, id), visited + {id})
    ensures r.Some? ==> Expands(p2c, r.value, visited)
    decreases |info.Keys - visited|, 0, 0
  {
    if id in visited then None
    else
      var seen := visited + {id};
      RemovingOneShrinks(info.Keys, visited, id);
      var kids := BuildChildren(v, info, p2c, Kids(p2c, id), seen);
      Some(NodeOf(v, id, info[id], kids))
  }

  function BuildChildren(v: Variant, info: map<Cell, NodeInfo>, p2c: map<Cell, seq<Cell>>, ids: seq<Cell>, seen: set<Cell>)
    : (r: seq<TreeNode>)
    requires ChildrenKnown(info, p2c) && forall c :: c in ids ==> c in info
    ensures Ids(r) == Unvisited(ids, seen)
    ensures forall t :: t in r ==> PathFresh(t, seen) && Describes(v, info, t) && Expands(p2c, t, seen)
    decreases |info.Keys - seen|, 1, |ids|
  {
    if ids == [] then []
    else
      var head := BuildTreeNode(v, info, p2c, ids[0], seen);
      var tail := BuildChildren(v, info, p2c, ids[1..], seen);
      var r := (if head.Some? then [head.value] else []) + tail;
      assert Ids(r) == (if head.Some? then [head.value.id] else []) + Ids(tail);
      r
  }

  /** Every relationship's ends are nodes of the table. */
  lemma RelsInTable(v: Variant, rows: seq<ChartRow>)
    requires Collect(v, rows).Success?
    ensures var c := Collect(v, rows).value;
      forall e :: e in c.rels ==> e.parent in c.table.info && e.child in c.table.info
  {
    var c := Collect(v, rows).value;
    forall e | e in c.rels ensures e.parent in c.table.info && e.child in c.table.info {
      var j :| 0 <= j < |c.rels| && c.rels[j] == e;
      CollectRels(v, rows, j);
      CollectKeys(v, rows, e.parent);
      CollectKeys(v, rows, e.child);
      assert Mentions(rows[j], e.parent) && Mentions(rows[j], e.child);
    }
  }

  /** Every relationship's ends are nodes of the table, which lists its keys once each. */
  ghost predicate WellFormed(c: Collected)
  {
    ValidTable(c.table) && Distinct(c.table.order)
    && forall e :: e in c.rels ==> e.parent in c.table.info && e.child in c.table.info
  }

  lemma CollectWellFormed(v: Variant, rows: seq<ChartRow>)
    requires Collect(v, rows).Success?
    ensures WellFormed(Collect(v, rows).value)
  {
    CollectValid(v, rows);
    RelsInTable(v, rows);
  }

  /** After the root choice, every child the map lists has an entry. */
  lemma RootedChildrenKnown(c: Collected)
    requires WellFormed(c)
    ensures var r := ChooseRoot(c);
      ChildrenKnown(r.table.info, ParentToChildren(r.rels))
  {
    var r := ChooseRoot(c);
    forall e | e in r.rels ensures e.child in r.table.info {
      var cs := Candidates(c.table.order, c.table.info, Children(c.rels));
      if |cs| != 1 {
        var j :| 0 <= j < |r.rels| && r.rels[j] == e;
        if j < |c.rels| {
          assert e == r.rels[..|c.rels|][j] == c.rels[j];
        } else {
          assert e in r.rels[|c.rels|..] by {
            assert r.rels[|c.rels|..][j - |c.rels|] == e;
          }
        }
      }
    }
    var p2c := ParentToChildren(r.rels);
    forall p, ch | p in p2c && ch in p2c[p] ensures ch in r.table.info {
      assert p in Parents(r.rels);
      assert ch in ChildrenOf(r.rels, p);
    }
  }

  /** The tree emitted from the chosen root: rooted there, no id repeated along a path, every
      node its node_info entry, and the root's children its relationship children in
      relationship order, less the root itself. */
  function TreeOf(v: Variant, r: Rooted): (t: TreeNode)
    requires r.root in r.table.info && ChildrenKnown(r.table.info, ParentToChildren(r.rels))
    ensures t.id == r.root && PathFresh(t, {}) && Describes(v, r.table.info, t)
    ensures Ids(t.children) == Unvisited(ChildrenOf(r.rels, r.root), {r.root})
    ensures Expands(ParentToChildren(r.rels), t, {})
  {
    KidsAreChildrenOf(r.rels, r.root);
    assert {} + {r.root} == {r.root};
    BuildTreeNode(v, r.table.info, ParentToChildren(r.rels), r.root, {}).value
  }

  /** csv_to_hierarchy_by_level: the row loop, then the tree; app.py's TypeError as a failure. */
  function HierarchyOf(v: Variant, rows: seq<ChartRow>): (res: Result<TreeNode, HierError>)
    ensures res.Failure? <==> v == FirstApp && exists j :: 0 <= j < |rows| && !rows[j].level.Int?
    ensures res.Success? ==> WellFormed(Collect(v, rows).value)
    ensures res.Success? ==> var r := ChooseRoot(Collect(v, rows).value);
      ChildrenKnown(r.table.info, ParentToChildren(r.rels)) && res.value == TreeOf(v, r)
  {
    CollectFailsIffLevelNotInt(v, rows);
    match Collect(v, rows)
    case Failure(e) => Failure(e)
    case Success(c) =>
      CollectWellFormed(v, rows);
      RootedChildrenKnown(c);
      Success(TreeOf(v, ChooseRoot(c)))
  }

  /** app2.py's update_tree_chart hands the builder rows with no 'Level' column, so every
      product enters at level 0 and every ingredient at level 1: all levels are 0 or 1, and a
      node is at 1 exactly when it was never a root or a product. */
  lemma SecondAppWithoutLevelColumn(rows: seq<ChartRow>, k: Cell)
    requires forall j :: 0 <= j < |rows| ==> rows[j].capitalLevel == Int(0)
    requires k in Collect(SecondApp, rows).value.table.info
    ensures var n := Collect(SecondApp, rows).value.table.info[k];
      (n.level == 0 || n.level == 1)
      && (n.level == 1 <==> n.kind != RootKind && forall j :: 0 <= j < |rows| ==> rows[j].source != k)
  {
    var n := Collect(SecondApp, rows).value.table.info[k];
    LevelIsOffered(SecondApp, rows, k);
    forall j | 0 <= j < |rows|
      ensures rows[j].source == k ==> n.level <= 0
      ensures rows[j].ingredient == k ==> n.level <= 1
    {
      LevelAtMostOffers(SecondApp, rows, k, j);
    }
    if n.kind == RootKind {
      RootLevelAtMostZero(SecondApp, rows, k);
    }
  }

  // ---------------------------------------------------------------------------------------
  // The builder as the imperative code it is

  /** The row loop over node_info and relationships. */
  method CollectRows(v: Variant, rows: seq<ChartRow>) returns (res: Result<Collected, HierError>)
    ensures res == Collect(v, rows)
  {
    var table := NodeTable(map[], []);
    var rels: seq<Rel> := [];
    var i := 0;
    while i < |rows|
      invariant 0 <= i <= |rows|
      invariant Collect(v, rows[..i]) == Success(Collected(table, rels))
    {
      var row := rows[i];
      var l := RowLevel(v, row);
      if l.None? {
        CollectFailsAt(v, rows, i);
        return Failure(LevelTypeError);
      }
      CollectPrefixStep(v, rows, i);
      table := AddRow(v, table, row, l.value);
      rels := rels + [Rel(row.source, row.ingredient, l.value)];
      i := i + 1;
    }
    assert rows[..i] == rows;
    res := Success(Collected(table, rels));
  }

  /** One more row of the loop: the prefix's result extended by that row. */
  lemma CollectPrefixStep(v: Variant, rows: seq<ChartRow>, i: nat)
    requires i < |rows| && Collect(v, rows[..i]).Success? && RowLevel(v, rows[i]).Some?
    ensures var c, r := Collect(v, rows[..i]).value, rows[i];
      var l := RowLevel(v, r).value;
      Collect(v, rows[..i + 1]) == Success(Collected(AddRow(v, c.table, r, l), c.rels + [Rel(r.source, r.ingredient, l)]))
  {
    assert rows[..i + 1][..i] == rows[..i] && rows[..i + 1][i] == rows[i];
  }

  /** A row whose level is not an integer makes the whole loop raise. */
  lemma CollectFailsAt(v: Variant, rows: seq<ChartRow>, i: nat)
    requires i < |rows| && RowLevel(v, rows[i]).None?
    ensures Collect(v, rows) == Failure(LevelTypeError)
  {
    assert !(forall j :: 0 <= j < |rows| ==> RowLevel(v, rows[j]).Some?);
    assert Collect(v, rows).error.LevelTypeError?;
  }

  /** The root choice. */
  method ChooseRootNode(c: Collected) returns (r: Rooted)
    requires ValidTable(c.table)
    ensures r == ChooseRoot(c)
  {
    var cs := Candidates(c.table.order, c.table.info, Children(c.rels));
    if |cs| == 1 {
      return Rooted(c.table, c.rels, cs[0]);
    }
    var t := if VirtualRoot in c.table.info then NodeTable(c.table.info[VirtualRoot := VirtualRootInfo], c.table.order)
             else Insert(c.table, VirtualRoot, VirtualRootInfo);
    assert ValidTable(t);
    var rels := AppendLevelZeroEdges(t, c.rels);
    r := Rooted(t, rels, VirtualRoot);
  }

  /** The loop that links the virtual root to every level-0 node, in node_info order. */
  method AppendLevelZeroEdges(t: NodeTable, rels0: seq<Rel>) returns (rels: seq<Rel>)
    requires ValidTable(t)
    ensures rels == rels0 + LevelZeroEdges(t.order, t.info)
  {
    rels := rels0;
    var i := 0;
    while i < |t.order|
      invariant 0 <= i <= |t.order|
      invariant rels == rels0 + LevelZeroEdges(t.order[..i], t.info)
    {
      LevelZeroEdgesSnoc(t.order, t.info, i);
      if t.info[t.order[i]].level == 0 {
        rels := rels + [Rel(VirtualRoot, t.order[i], -1)];
      }
      i := i + 1;
    }
    assert t.order[..i] == t.order;
  }

  lemma LevelZeroEdgesSnoc(order: seq<Cell>, info: map<Cell, NodeInfo>, i: nat)
    requires forall k :: k in order ==> k in info
    requires i < |order|
    ensures LevelZeroEdges(order[..i + 1], info)
      == LevelZeroEdges(order[..i], info) + (if info[order[i]].level == 0 then [Rel(VirtualRoot, order[i], -1)] else [])
    decreases i
  {
    if i > 0 {
      assert order[..i + 1][1..] == order[1..][..i];
      assert order[..i][1..] == order[1..][..i - 1];
      LevelZeroEdgesSnoc(order[1..], info, i - 1);
    }
  }

  /** csv_to_hierarchy_by_level as the source runs it, over the rows of the frame. */
  method CsvToHierarchy(v: Variant, frame: seq<Row>) returns (res: Result<TreeNode, HierError>)
    requires AllHaveNodeColumns(frame)
    ensures res == HierarchyOf(v, ReadRows(frame))
  {
    var rows := ReadRows(frame);
    var collected := CollectRows(v, rows);
    CollectFailsIffLevelNotInt(v, rows);
    if collected.Failure? {
      return Failure(collected.error);
    }
    CollectWellFormed(v, rows);
    RootedChildrenKnown(collected.value);
    KidsAreChildrenOf(ChooseRoot(collected.value).rels, ChooseRoot(collected.value).root);
    var rooted := ChooseRootNode(collected.value);
    var p2c := BuildParentToChildren(rooted.rels);
    var tree := BuildTreeNode(v, rooted.table.info, p2c, rooted.root, {});
    res := Success(tree.value);
  }
}
