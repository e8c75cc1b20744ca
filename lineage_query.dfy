/** The query side of the lineage engine: the result views vw_Trc_Results and vw_Gen_Results
    over the session tables, the reshaping, target filtering, ItemMaster enrichment and column
    handling of get_lineage, its two ValueError cases, the depth-cap normalisation, and the
    item-code lookup of get_item_codes.

    Multiplicity is kept exactly: a traceability result row is a row of the grouped view, a
    genealogy result row is one (bid, product, ingredient) combination of the view's joins, and
    the rows get_lineage returns are the images of those rows, so the number of source rows
    behind an output row is its multiplicity in the default output and its CntRecs in a grouped
    output. */
module LineageQuery {
  import opened Common
  import opened Text
  import opened LineageModel
  import opened LineageClosure

  /** The session temp tables the engine writes and its views read. */
  datatype Tables = Tables(
    traceForLots: set<TraceSeed>,    // tmp_TraceForLots
    genForLots: set<GenSeed>,        // tmp_GenForLots
    traceTarget: set<TraceSeed>,     // tmp_TraceTarget
    trcPrBid: set<PrBidRow>,         // vw_Trc_PrBID
    trcResultsBid: set<TrcBidRow>,   // tmp_Trc_Results_bid
    genResultsBid: set<GenBidRow>)   // tmp_Gen_Results_bid

  /** Traceability is requested by "trc" or "all". */
  predicate IncludesTrc(genOrTrc: string)
  {
    genOrTrc == "trc" || genOrTrc == "all"
  }

  /** Genealogy is requested by "gen" or "all". */
  predicate IncludesGen(genOrTrc: string)
  {
    genOrTrc == "gen" || genOrTrc == "all"
  }

  /** The depth cap: 99 when the caller passes -99 (the default) or None, otherwise the level
      as given. */
  function QueryLevel(level: Option<int>): (cap: int)
    ensures cap == 99 <==> (level == None || level == Some(-99) || level == Some(99))
    ensures level.Some? && level.value != -99 ==> cap == level.value
  {
    match level
    case None => 99
    case Some(l) => if l == -99 then 99 else l
  }

  // ---------------------------------------------------------------------------------------
  // The transaction projection `d` both result views join against

  datatype DRow = DRow(
    pln: string, batchId: BatchId, txnType: TxnType, itemCode: string, lot: string,
    supplierLot: string, lotLabel: string, parentLotLabel: string)

  function DRows(db: Database): set<DRow>
  {
    set t | t in db.txns :: DRow(t.pln, t.batchId, t.txnType, t.itemCode, t.lot, t.slnAdj, t.lotLabel, t.parentLotLabel)
  }

  /** LEFT OUTER JOIN d ON batch = BATCH_ID AND TYPE = 'Product': the matching Product rows,
      or one all-NULL row when there is none (always so for a NULL batch). */
  function ProductRowsOf(db: Database, batch: Option<BatchId>): (r: set<Option<DRow>>)
    ensures r != {}
    ensures None in r <==> forall d :: d in DRows(db) ==> !(Some(d.batchId) == batch && d.txnType == Product)
    ensures forall d :: Some(d) in r <==> d in DRows(db) && Some(d.batchId) == batch && d.txnType == Product
  {
    var m := set d | d in DRows(db) && Some(d.batchId) == batch && d.txnType == Product :: Some(d);
    assert forall d :: d in DRows(db) && Some(d.batchId) == batch && d.txnType == Product ==> Some(d) in m;
    if m == {} then {None}
    else
      assert None !in m;
      m
  }

  // ---------------------------------------------------------------------------------------
  // vw_Trc_Results

  /** The `bid` step of vw_Trc_Results: the closure rows with the root context renamed. */
  datatype TrcBid = TrcBid(
    productBatch: BatchId, ingredientBatch: Option<BatchId>, level: int,
    rootItemCode: string, rootLot: string, rootParentLot: string, rootSupplierLot: string)

  function TrcBids(t: Tables): set<TrcBid>
  {
    set l | l in t.trcResultsBid
      :: TrcBid(l.productBatch, l.ingredientBatch, l.level, l.parentItemCode, l.parent, l.parentPln, l.slnAdj)
  }

  /** A row of vw_Trc_Results: the root context, the level, and the Product rows of the
      consuming batch and of the consumed batch (NULL when missing; the consumed batch is NULL
      at level 1). */
  datatype TrcResultRow = TrcResultRow(
    rootItemCode: string, rootLot: string, level: int, rootParentLot: string, rootSupplierLot: string,
    product: Option<DRow>, ingredient: Option<DRow>)

  /** The consuming batch's row as the view carries it: its supplier lot is not selected, so
      it is blanked and rows differing only there are one group. */
  function WithoutSupplierLot(p: Option<DRow>): (q: Option<DRow>)
    ensures q.Some? <==> p.Some?
    ensures p.Some? ==> q.value.lot == p.value.lot && q.value.itemCode == p.value.itemCode && q.value.pln == p.value.pln
    ensures p.Some? ==> q.value.batchId == p.value.batchId && q.value.txnType == p.value.txnType
  {
    if p.Some? then Some(p.value.(supplierLot := "")) else None
  }

  /** vw_Trc_Results: each closure row LEFT JOINed to the Product rows of its consuming batch
      and of its consumed batch. */
  function TrcResults(db: Database, t: Tables): (r: set<TrcResultRow>)
    ensures forall x :: x in r ==>
      exists b :: b in TrcBids(t)
        && x.rootItemCode == b.rootItemCode && x.rootLot == b.rootLot && x.level == b.level
        && (x.product.Some? ==> x.product.value.batchId == b.productBatch && x.product.value.txnType == Product)
        && (x.ingredient.Some? ==> Some(x.ingredient.value.batchId) == b.ingredientBatch && x.ingredient.value.txnType == Product)
  {
    set b, p, i | b in TrcBids(t) && p in ProductRowsOf(db, Some(b.productBatch)) && i in ProductRowsOf(db, b.ingredientBatch)
      :: TrcResultRow(b.rootItemCode, b.rootLot, b.level, b.rootParentLot, b.rootSupplierLot, WithoutSupplierLot(p), i)
  }

  // ---------------------------------------------------------------------------------------
  // vw_Gen_Results

  /** The `bid` step of vw_Gen_Results: a closure row joined to the Product row of its root
      batch, kept only when that root lot is one of the genealogy seed lots. */
  datatype GenBid = GenBid(
    productBatch: BatchId, level: int, parentItemCode: string, parentLot: string, lot: string, parentBatch: BatchId)

  function GenBids(db: Database, t: Tables): (r: set<GenBid>)
    ensures forall g :: g in r ==>
      (exists l :: l in t.genResultsBid && l.productBatch == g.productBatch && l.level == g.level && l.parent == g.parentBatch)
      && exists f :: f in t.genForLots && f.lot == g.lot
  {
    set l, d | l in t.genResultsBid && d in DRows(db) && l.parent == d.batchId && d.txnType == Product
      && (exists f :: f in t.genForLots && f.lot == d.lot)
      :: GenBid(l.productBatch, l.level, d.itemCode, d.pln, d.lot, l.parent)
  }

  /** One combination of the joins of vw_Gen_Results: a bid row, a Product row of its product
      batch and an Ingredient row of the same batch. */
  datatype GenResultRow = GenResultRow(bid: GenBid, product: DRow, ingredient: DRow)

  /** Level-1 rows are kept only when the root lot is the product batch's own lot; deeper rows
      are not restricted. */
  predicate GenLevelKept(b: GenBid, p: DRow)
  {
    b.level > 1 || (b.level == 1 && b.lot == p.lot)
  }

  function GenResults(db: Database, t: Tables): (r: set<GenResultRow>)
    ensures forall g :: g in r <==>
      g.bid in GenBids(db, t) && g.product in DRows(db) && g.ingredient in DRows(db)
      && g.product.batchId == g.bid.productBatch && g.product.txnType == Product
      && g.ingredient.batchId == g.bid.productBatch && g.ingredient.txnType == Ingredient
      && GenLevelKept(g.bid, g.product)
  {
    set b, p, i | b in GenBids(db, t) && p in DRows(db) && i in DRows(db)
      && p.batchId == b.productBatch && p.txnType == Product
      && i.batchId == b.productBatch && i.txnType == Ingredient
      && GenLevelKept(b, p)
      :: GenResultRow(b, p, i)
  }

  // ---------------------------------------------------------------------------------------
  // Reshaping, target filter, enrichment

  datatype Flow = Gen | Trc

  /** The columns get_lineage selects from a result view, before enrichment. */
  datatype LineageRow = LineageRow(
    flow: Flow, rootItemCode: Option<string>, rootParentLot: Option<string>, rootLot: Option<string>,
    rootSupplierLot: Option<string>, level: int,
    productItemCode: Option<string>, productLot: Option<string>, productParentLot: Option<string>,
    ingredientItemCode: Option<string>, ingredientLot: Option<string>,
    ingredientSupplierLot: Option<string>, ingredientParentLot: Option<string>,
    sortOrder: int)

  /** A row of either result view, kept whole so that rows are counted as the SQL counts them. */
  datatype SourceRow = FromTrc(trc: TrcResultRow) | FromGen(gen: GenResultRow)

  function ItemCodeOf(d: Option<DRow>): Option<string> { if d.Some? then Some(d.value.itemCode) else None }
  function LotOf(d: Option<DRow>): Option<string> { if d.Some? then Some(d.value.lot) else None }
  function PlnOf(d: Option<DRow>): Option<string> { if d.Some? then Some(d.value.pln) else None }
  function SupplierLotOf(d: Option<DRow>): Option<string> { if d.Some? then Some(d.value.supplierLot) else None }

  /** The select lists of get_lineage: traceability rows at level 1 show the root as their
      ingredient; genealogy rows have no root supplier lot ('NA'); the sort order is the level
      for traceability and its negation for genealogy. */
  function Reshape(s: SourceRow): (r: LineageRow)
    ensures s.FromTrc? ==> r.flow == Trc && r.sortOrder == r.level == s.trc.level
    ensures s.FromTrc? && r.level == 1 ==>
      r.ingredientItemCode == r.rootItemCode && r.ingredientLot == r.rootLot
      && r.ingredientSupplierLot == r.rootSupplierLot && r.ingredientParentLot == r.rootParentLot
    ensures s.FromTrc? && r.level != 1 ==>
      r.ingredientItemCode == ItemCodeOf(s.trc.ingredient) && r.ingredientLot == LotOf(s.trc.ingredient)
    ensures s.FromTrc? ==> r.productLot == LotOf(s.trc.product) && r.rootLot == Some(s.trc.rootLot)
    ensures s.FromGen? ==> (r.flow == Gen && r.rootSupplierLot == Some("NA")
      && r.level == s.gen.bid.level && r.sortOrder == -r.level
      && r.ingredientLot == Some(s.gen.ingredient.lot) && r.rootLot == Some(s.gen.bid.lot))
  {
    match s
    case FromTrc(t) =>
      LineageRow(Trc, Some(t.rootItemCode), Some(t.rootParentLot), Some(t.rootLot), Some(t.rootSupplierLot), t.level,
        ItemCodeOf(t.product), LotOf(t.product), PlnOf(t.product),
        if t.level == 1 then Some(t.rootItemCode) else ItemCodeOf(t.ingredient),
        if t.level == 1 then Some(t.rootLot) else LotOf(t.ingredient),
        if t.level == 1 then Some(t.rootSupplierLot) else SupplierLotOf(t.ingredient),
        if t.level == 1 then Some(t.rootParentLot) else PlnOf(t.ingredient),
        t.level)
    case FromGen(g) =>
      LineageRow(Gen, Some(g.bid.parentItemCode), Some(g.bid.parentLot), Some(g.bid.lot), Some("NA"), g.bid.level,
        Some(g.product.itemCode), Some(g.product.lot), Some(g.product.pln),
        Some(g.ingredient.itemCode), Some(g.ingredient.lot), Some(g.ingredient.supplierLot), Some(g.ingredient.pln),
        -g.bid.level)
  }

  /** The lots of tmp_TraceTarget. */
  function TargetLots(t: Tables): (lots: set<string>)
    ensures forall s :: s in t.traceTarget ==> s.lot in lots
    ensures forall l :: l in lots ==> exists s :: s in t.traceTarget && s.lot == l
  {
    set s | s in t.traceTarget :: s.lot
  }

  /** The target filter: with end nodes, a traceability row needs a target product lot and a
      genealogy row a target ingredient lot; without end nodes every row passes. */
  predicate Kept(s: SourceRow, hasTarget: bool, lots: set<string>)
    ensures !hasTarget ==> Kept(s, hasTarget, lots)
    ensures hasTarget && lots == {} ==> !Kept(s, hasTarget, lots)
    ensures hasTarget && s.FromTrc? && s.trc.product.None? ==> !Kept(s, hasTarget, lots)
  {
    !hasTarget ||
    match s
    case FromTrc(t) => t.product.Some? && t.product.value.lot in lots
    case FromGen(g) => g.ingredient.lot in lots
  }

  /** The rows of the union get_lineage runs, before enrichment. */
  function Selected(db: Database, t: Tables, hasTarget: bool, genOrTrc: string): (r: set<SourceRow>)
    ensures forall x :: FromTrc(x) in r <==>
      IncludesTrc(genOrTrc) && x in TrcResults(db, t) && Kept(FromTrc(x), hasTarget, TargetLots(t))
    ensures forall g :: FromGen(g) in r <==>
      IncludesGen(genOrTrc) && g in GenResults(db, t) && Kept(FromGen(g), hasTarget, TargetLots(t))
  {
    var lots := TargetLots(t);
    (if IncludesTrc(genOrTrc) then set x | x in TrcResults(db, t) && Kept(FromTrc(x), hasTarget, lots) :: FromTrc(x) else {})
    + (if IncludesGen(genOrTrc) then set g | g in GenResults(db, t) && Kept(FromGen(g), hasTarget, lots) :: FromGen(g) else {})
  }

  /** The result row after the three LEFT JOINs with ItemMaster (on root, product and
      ingredient item code). */
  datatype OutRow = OutRow(row: LineageRow, imRoot: Option<ItemRef>, imProduct: Option<ItemRef>, imIngredient: Option<ItemRef>)

  function LookupItem(db: Database, code: Option<string>): (r: Option<ItemRef>)
    ensures r.Some? <==> code.Some? && code.value in db.itemMaster
    ensures r.Some? ==> r.value == db.itemMaster[code.value]
  {
    if code.Some? && code.value in db.itemMaster then Some(db.itemMaster[code.value]) else None
  }

  /** The reshaped row with the ItemMaster rows of its root, product and ingredient item
      codes, each NULL when the code is NULL or not listed. */
  function Enrich(db: Database, s: SourceRow): (o: OutRow)
    ensures o.row == Reshape(s)
    ensures o.imRoot == LookupItem(db, o.row.rootItemCode)
    ensures o.imProduct == LookupItem(db, o.row.productItemCode)
    ensures o.imIngredient == LookupItem(db, o.row.ingredientItemCode)
  {
    var r := Reshape(s);
    OutRow(r, LookupItem(db, r.rootItemCode), LookupItem(db, r.productItemCode), LookupItem(db, r.ingredientItemCode))
  }

  // ---------------------------------------------------------------------------------------
  // Output columns

  /** Which of the three ItemMaster joins a raw column comes from. */
  datatype ImSide = RootSide | ProductSide | IngredientSide

  /** The ItemMaster columns the model carries. */
  datatype ImField = ImItemCode | ImCategory | ImProductCode | ImDescription | ImUnitOpName | ImTag

  /** The columns of the enriched result: the reshaped columns, the raw columns of the three
      ItemMaster joins (`select *` keeps them) and the six named unit-op and description
      columns. */
  datatype Column =
    | RawItemMaster(side: ImSide, field: ImField)
    | TypeCol | RootItemCodeCol | RootParentLotCol | RootLotCol | RootSupplierLotCol | LevelCol
    | ProductItemCodeCol | ProductLotCol | ProductParentLotCol
    | IngredientItemCodeCol | IngredientLotCol | IngredientSupplierLotCol | IngredientParentLotCol
    | SortOrderCol
    | RootUnitOpNameCol | RootDescriptionCol | ProductUnitOpNameCol | ProductDescriptionCol
    | IngredientUnitOpNameCol | IngredientDescriptionCol

  const AllColumns: seq<Column> := [
    TypeCol, RootItemCodeCol, RootParentLotCol, RootLotCol, RootSupplierLotCol, LevelCol,
    ProductItemCodeCol, ProductLotCol, ProductParentLotCol,
    IngredientItemCodeCol, IngredientLotCol, IngredientSupplierLotCol, IngredientParentLotCol,
    SortOrderCol] + RawColumns(RootSide) + RawColumns(ProductSide) + RawColumns(IngredientSide) + [
    RootUnitOpNameCol, RootDescriptionCol, ProductUnitOpNameCol, ProductDescriptionCol,
    IngredientUnitOpNameCol, IngredientDescriptionCol]

  function RawColumns(side: ImSide): seq<Column>
  {
    [RawItemMaster(side, ImItemCode), RawItemMaster(side, ImCategory), RawItemMaster(side, ImProductCode),
     RawItemMaster(side, ImDescription), RawItemMaster(side, ImUnitOpName), RawItemMaster(side, ImTag)]
  }

  function TextCell(s: Option<string>): Cell
  {
    if s.Some? then Str(s.value) else Null
  }

  function UnitOpName(i: Option<ItemRef>): Cell { if i.Some? then TextCell(i.value.unitOpName) else Null }
  function Description(i: Option<ItemRef>): Cell { if i.Some? then TextCell(i.value.description) else Null }

  function RawValue(i: Option<ItemRef>, f: ImField): Cell
  {
    if i.None? then Null
    else
      match f
      case ImItemCode => Str(i.value.itemCode)
      case ImCategory => TextCell(i.value.category)
      case ImProductCode => TextCell(i.value.productCode)
      case ImDescription => TextCell(i.value.description)
      case ImUnitOpName => TextCell(i.value.unitOpName)
      case ImTag => TextCell(i.value.tag)
  }

  function ColumnValue(o: OutRow, c: Column): Cell
  {
    var r := o.row;
    match c
    case RawItemMaster(side, f) =>
      RawValue(match side case RootSide => o.imRoot case ProductSide => o.imProduct case IngredientSide => o.imIngredient, f)
    case TypeCol => Str(if r.flow == Trc then "Trc" else "Gen")
    case RootItemCodeCol => TextCell(r.rootItemCode)
    case RootParentLotCol => TextCell(r.rootParentLot)
    case RootLotCol => TextCell(r.rootLot)
    case RootSupplierLotCol => TextCell(r.rootSupplierLot)
    case LevelCol => Int(r.level)
    case ProductItemCodeCol => TextCell(r.productItemCode)
    case ProductLotCol => TextCell(r.productLot)
    case ProductParentLotCol => TextCell(r.productParentLot)
    case IngredientItemCodeCol => TextCell(r.ingredientItemCode)
    case IngredientLotCol => TextCell(r.ingredientLot)
    case IngredientSupplierLotCol => TextCell(r.ingredientSupplierLot)
    case IngredientParentLotCol => TextCell(r.ingredientParentLot)
    case SortOrderCol => Int(r.sortOrder)
    case RootUnitOpNameCol => UnitOpName(o.imRoot)
    case RootDescriptionCol => Description(o.imRoot)
    case ProductUnitOpNameCol => UnitOpName(o.imProduct)
    case ProductDescriptionCol => Description(o.imProduct)
    case IngredientUnitOpNameCol => UnitOpName(o.imIngredient)
    case IngredientDescriptionCol => Description(o.imIngredient)
  }

  /** How get_lineage reads `outputcols`: "default" or None keeps every row; text containing
      "exclude" (in any case) is `select * <text>`; anything else is a select list. The last
      two group by every selected column and add the row count CntRecs. */
  datatype ColumnsBranch = AllRows | ExcludeColumns | SelectColumns

  function OutputColsBranch(outputcols: Option<string>): (b: ColumnsBranch)
    ensures b == AllRows <==> outputcols == None || outputcols == Some("default")
    ensures b == ExcludeColumns <==>
      outputcols.Some? && outputcols.value != "default" && Contains(Lower(outputcols.value), "exclude")
  {
    if outputcols == None || outputcols == Some("default") then AllRows
    else if Contains(Lower(outputcols.value), "exclude") then ExcludeColumns
    else SelectColumns
  }

  /** `SELECT * EXCLUDE (...)`: the columns of the row, in order, without the excluded ones. */
  function Without(cols: seq<Column>, dropped: seq<Column>): (r: seq<Column>)
    ensures forall c :: c in r <==> c in cols && c !in dropped
  {
    Filter(cols, c => c !in dropped)
  }

  /** The grouping key of a row: the values of the selected columns, in order. */
  function Project(o: OutRow, branch: ColumnsBranch, cols: seq<Column>): (key: seq<Cell>)
    ensures branch == SelectColumns ==> |key| == |cols| && forall k :: 0 <= k < |cols| ==> key[k] == ColumnValue(o, cols[k])
  {
    var chosen := if branch == ExcludeColumns then Without(AllColumns, cols) else cols;
    seq(|chosen|, k requires 0 <= k < |chosen| => ColumnValue(o, chosen[k]))
  }

  /** The result: every row with its multiplicity, or every group with its CntRecs. */
  datatype Table = Bag(rows: map<OutRow, nat>) | Grouped(groups: map<seq<Cell>, nat>)

  function Tabulate(db: Database, rows: set<SourceRow>, branch: ColumnsBranch, cols: seq<Column>): (tbl: Table)
    ensures branch == AllRows <==> tbl.Bag?
    ensures tbl.Bag? ==> forall o :: o in tbl.rows <==> exists s :: s in rows && Enrich(db, s) == o
    ensures tbl.Bag? ==> forall o :: o in tbl.rows ==> tbl.rows[o] == |set s | s in rows && Enrich(db, s) == o| >= 1
    ensures tbl.Grouped? ==> forall g :: g in tbl.groups <==> exists s :: s in rows && KeyOf(db, branch, cols, s) == g
    ensures tbl.Grouped? ==> forall g :: g in tbl.groups ==>
      tbl.groups[g] == |set s | s in rows && KeyOf(db, branch, cols, s) == g| >= 1
  {
    if branch == AllRows then Bag(RowCounts(db, rows)) else Grouped(GroupCounts(db, rows, branch, cols))
  }

  /** Every enriched row with the number of source rows it comes from. */
  function RowCounts(db: Database, rows: set<SourceRow>): (m: map<OutRow, nat>)
    ensures forall o :: o in m <==> exists s :: s in rows && Enrich(db, s) == o
    ensures forall o :: o in m ==> m[o] == |set s | s in rows && Enrich(db, s) == o| >= 1
  {
    var outs := set s | s in rows :: Enrich(db, s);
    var m := map o | o in outs :: |set s | s in rows && Enrich(db, s) == o|;
    assert forall o :: o in m ==> m[o] >= 1 by {
      forall o | o in m ensures m[o] >= 1 {
        var s :| s in rows && Enrich(db, s) == o;
        MemberMeansNonEmpty((set s | s in rows && Enrich(db, s) == o), s);
      }
    }
    m
  }

  /** The grouping key of a source row. */
  function KeyOf(db: Database, branch: ColumnsBranch, cols: seq<Column>, s: SourceRow): seq<Cell>
  {
    Project(Enrich(db, s), branch, cols)
  }

  /** Every grouping key with the number of source rows that have it. */
  function GroupCounts(db: Database, rows: set<SourceRow>, branch: ColumnsBranch, cols: seq<Column>): (m: map<seq<Cell>, nat>)
    ensures forall g :: g in m <==> exists s :: s in rows && KeyOf(db, branch, cols, s) == g
    ensures forall g :: g in m ==> m[g] == |set s | s in rows && KeyOf(db, branch, cols, s) == g| >= 1
  {
    var keys := set s | s in rows :: KeyOf(db, branch, cols, s);
    var m := map g | g in keys :: |set s | s in rows && KeyOf(db, branch, cols, s) == g|;
    assert forall g :: g in m ==> m[g] >= 1 by {
      forall g | g in m ensures m[g] >= 1 {
        var s :| s in rows && KeyOf(db, branch, cols, s) == g;
        MemberMeansNonEmpty((set s | s in rows && KeyOf(db, branch, cols, s) == g), s);
      }
    }
    m
  }

  lemma MemberMeansNonEmpty<T>(xs: set<T>, x: T)
    requires x in xs
    ensures |xs| >= 1
  {
  }

  predicate TableEmpty(tbl: Table)
  {
    match tbl
    case Bag(m) => m == map[]
    case Grouped(m) => m == map[]
  }

  datatype OutputForm = PolarsFrame | DuckDbTuples

  datatype LineageOutput = LineageOutput(form: OutputForm, table: Table)

  /** The two ValueErrors of get_lineage. */
  datatype LineageError = NoQueryToExecute | InvalidOutputType

  /** The query get_lineage runs once the session tables are refreshed. */
  function Query(db: Database, t: Tables, hasTarget: bool, genOrTrc: string, outputType: string,
                 outputcols: Option<string>, cols: seq<Column>): (res: Result<LineageOutput, LineageError>)
    ensures res == Failure(NoQueryToExecute) <==> !IncludesTrc(genOrTrc) && !IncludesGen(genOrTrc)
    ensures res == Failure(InvalidOutputType) <==>
      (IncludesTrc(genOrTrc) || IncludesGen(genOrTrc)) && outputType != "polars" && outputType != "duckdb"
    ensures res.Success? ==>
      res.value.table == Tabulate(db, Selected(db, t, hasTarget, genOrTrc), OutputColsBranch(outputcols), cols)
      && (res.value.form == PolarsFrame <==> outputType == "polars")
  {
    if !IncludesTrc(genOrTrc) && !IncludesGen(genOrTrc) then Failure(NoQueryToExecute)
    else
      var tbl := Tabulate(db, Selected(db, t, hasTarget, genOrTrc), OutputColsBranch(outputcols), cols);
      if outputType == "polars" then Success(LineageOutput(PolarsFrame, tbl))
      else if outputType == "duckdb" then Success(LineageOutput(DuckDbTuples, tbl))
      else Failure(InvalidOutputType)
  }

  // ---------------------------------------------------------------------------------------
  // The table refresh that precedes the query

  /** func_Source: the direction's seed table and closure are rewritten, the other direction's
      tables are left as they were. */
  function AfterSource(db: Database, t: Tables, input: string, genOrTrc: string, cap: int): (t': Tables)
    ensures t'.traceTarget == t.traceTarget
    ensures IncludesTrc(genOrTrc) ==>
      t'.traceForLots == TraceSeeds(db, input) && t'.trcPrBid == TrcPrBid(db, t'.traceForLots)
      && t'.trcResultsBid == TrcClosure(db, t'.trcPrBid, cap)
    ensures !IncludesTrc(genOrTrc) ==>
      t'.traceForLots == t.traceForLots && t'.trcPrBid == t.trcPrBid && t'.trcResultsBid == t.trcResultsBid
    ensures IncludesGen(genOrTrc) ==>
      t'.genForLots == GenSeeds(db, input) && t'.genResultsBid == GenClosure(db, t'.genForLots, cap)
    ensures !IncludesGen(genOrTrc) ==> t'.genForLots == t.genForLots && t'.genResultsBid == t.genResultsBid
  {
    var t1 :=
      if IncludesTrc(genOrTrc) then
        var seeds := TraceSeeds(db, input);
        var prbid := TrcPrBid(db, seeds);
        t.(traceForLots := seeds, trcPrBid := prbid, trcResultsBid := TrcClosure(db, prbid, cap))
      else t;
    if IncludesGen(genOrTrc) then
      var seeds := GenSeeds(db, input);
      t1.(genForLots := seeds, genResultsBid := GenClosure(db, seeds, cap))
    else t1
  }

  /** func_Target, run only when end nodes are given. */
  function AfterTarget(db: Database, t: Tables, endNodes: Option<string>): (t': Tables)
    ensures t'.(traceTarget := t.traceTarget) == t
    ensures endNodes.Some? ==> t'.traceTarget == TraceSeeds(db, endNodes.value)
    ensures endNodes.None? ==> t'.traceTarget == t.traceTarget
  {
    if endNodes.Some? then t.(traceTarget := TraceSeeds(db, endNodes.value)) else t
  }

  /** The session tables after a get_lineage call. */
  function Refreshed(db: Database, t: Tables, startNodes: string, endNodes: Option<string>, genOrTrc: string, level: Option<int>): (t': Tables)
    ensures endNodes.Some? ==> t'.traceTarget == TraceSeeds(db, endNodes.value)
    ensures endNodes.None? ==> t'.traceTarget == t.traceTarget
    ensures !IncludesTrc(genOrTrc) ==>
      t'.traceForLots == t.traceForLots && t'.trcPrBid == t.trcPrBid && t'.trcResultsBid == t.trcResultsBid
    ensures !IncludesGen(genOrTrc) ==> t'.genForLots == t.genForLots && t'.genResultsBid == t.genResultsBid
  {
    AfterTarget(db, AfterSource(db, t, startNodes, genOrTrc, QueryLevel(level)), endNodes)
  }

  // ---------------------------------------------------------------------------------------
  // What a get_lineage call returns

  /** What the refresh leaves in the session tables for a direction the call includes. */
  lemma RefreshedClosures(db: Database, t0: Tables, startNodes: string, endNodes: Option<string>,
                          genOrTrc: string, level: Option<int>)
    ensures var t := Refreshed(db, t0, startNodes, endNodes, genOrTrc, level);
      IncludesTrc(genOrTrc) ==>
        t.traceForLots == TraceSeeds(db, startNodes) && t.trcPrBid == TrcPrBid(db, t.traceForLots)
        && t.trcResultsBid == TrcClosure(db, t.trcPrBid, QueryLevel(level))
    ensures var t := Refreshed(db, t0, startNodes, endNodes, genOrTrc, level);
      IncludesGen(genOrTrc) ==>
        t.genForLots == GenSeeds(db, startNodes) && t.genResultsBid == GenClosure(db, t.genForLots, QueryLevel(level))
  {
    var t1 := AfterSource(db, t0, startNodes, genOrTrc, QueryLevel(level));
    var t := AfterTarget(db, t1, endNodes);
    assert t.traceForLots == t1.traceForLots && t.trcPrBid == t1.trcPrBid && t.trcResultsBid == t1.trcResultsBid;
    assert t.genForLots == t1.genForLots && t.genResultsBid == t1.genResultsBid;
  }

  /** A vw_Trc_Results row comes from a closure row with its level and root context. */
  lemma TrcResultOrigin(db: Database, t: Tables, x: TrcResultRow)
    requires x in TrcResults(db, t)
    ensures exists l ::
      l in t.trcResultsBid && x.level == l.level && x.rootLot == l.parent && x.rootItemCode == l.parentItemCode
  {
    var b, p, i :| b in TrcBids(t) && p in ProductRowsOf(db, Some(b.productBatch)) && i in ProductRowsOf(db, b.ingredientBatch)
      && x == TrcResultRow(b.rootItemCode, b.rootLot, b.level, b.rootParentLot, b.rootSupplierLot, WithoutSupplierLot(p), i);
    var l :| l in t.trcResultsBid
      && b == TrcBid(l.productBatch, l.ingredientBatch, l.level, l.parentItemCode, l.parent, l.parentPln, l.slnAdj);
  }

  /** A vw_Gen_Results row comes from a closure row with its level and seed batch, and its root
      lot is a genealogy seed lot. */
  lemma GenResultOrigin(db: Database, t: Tables, g: GenResultRow)
    requires g in GenResults(db, t)
    ensures exists l :: l in t.genResultsBid && g.bid.level == l.level && g.bid.parentBatch == l.parent
    ensures exists f :: f in t.genForLots && f.lot == g.bid.lot
  {
    var l, d :| l in t.genResultsBid && d in DRows(db) && l.parent == d.batchId && d.txnType == Product
      && (exists f :: f in t.genForLots && f.lot == d.lot)
      && g.bid == GenBid(l.productBatch, l.level, d.itemCode, d.pln, d.lot, l.parent);
  }

  /** Every returned row lies between level 1 and the cap (level 1 when the cap is below 1). */
  lemma OutputLevelsBounded(db: Database, t0: Tables, startNodes: string, endNodes: Option<string>,
                            genOrTrc: string, level: Option<int>, s: SourceRow)
    requires s in Selected(db, Refreshed(db, t0, startNodes, endNodes, genOrTrc, level), endNodes.Some?, genOrTrc)
    ensures 1 <= Reshape(s).level <= MaxLevel(QueryLevel(level))
  {
    var t := Refreshed(db, t0, startNodes, endNodes, genOrTrc, level);
    var cap := QueryLevel(level);
    RefreshedClosures(db, t0, startNodes, endNodes, genOrTrc, level);
    match s
    case FromTrc(x) =>
      TrcResultOrigin(db, t, x);
      var l :| l in t.trcResultsBid && x.level == l.level;
      TrcClosureLevels(db, t.trcPrBid, cap, l);
    case FromGen(g) =>
      GenResultOrigin(db, t, g);
      var l :| l in t.genResultsBid && g.bid.level == l.level;
      GenClosureLevels(db, t.genForLots, cap, l);
  }

  /** Every returned traceability row is rooted at a traceability seed: its root lot and root
      item code are a seed's lot and item code. Every returned genealogy row is rooted at a
      genealogy seed batch, and its root lot is a genealogy seed lot. */
  lemma OutputRootedAtSeeds(db: Database, t0: Tables, startNodes: string, endNodes: Option<string>,
                            genOrTrc: string, level: Option<int>, s: SourceRow)
    requires s in Selected(db, Refreshed(db, t0, startNodes, endNodes, genOrTrc, level), endNodes.Some?, genOrTrc)
    ensures s.FromTrc? ==>
      exists seed :: seed in TraceSeeds(db, startNodes) && seed.lot == s.trc.rootLot && seed.itemCode == s.trc.rootItemCode
    ensures s.FromGen? ==> (exists seed :: seed in GenSeeds(db, startNodes) && seed.batchId == s.gen.bid.parentBatch)
    ensures s.FromGen? ==> (exists seed :: seed in GenSeeds(db, startNodes) && seed.lot == s.gen.bid.lot)
  {
    var t := Refreshed(db, t0, startNodes, endNodes, genOrTrc, level);
    var cap := QueryLevel(level);
    RefreshedClosures(db, t0, startNodes, endNodes, genOrTrc, level);
    match s
    case FromTrc(x) =>
      TrcResultOrigin(db, t, x);
      var l :| l in t.trcResultsBid && x.rootLot == l.parent && x.rootItemCode == l.parentItemCode;
      TrcClosureRoot(db, t.trcPrBid, cap, l);
      var c :| c in t.trcPrBid && TrcRoot(l) == (c.lot, c.itemCode, c.slnAdj, c.pln);
      var seed :| seed in t.traceForLots && seed.lot == c.lot && seed.itemCode == c.itemCode;
      assert seed.lot == x.rootLot && seed.itemCode == x.rootItemCode;
    case FromGen(g) =>
      GenResultOrigin(db, t, g);
      var l :| l in t.genResultsBid && g.bid.parentBatch == l.parent;
      GenClosureRoot(db, t.genForLots, cap, l);
  }

  /** Empty-seed law: when no transaction matches the start text, the call returns no rows. */
  lemma NoSeedsNoRows(db: Database, t0: Tables, startNodes: string, endNodes: Option<string>,
                      genOrTrc: string, level: Option<int>)
    requires TraceSeeds(db, startNodes) == {} && GenSeeds(db, startNodes) == {}
    ensures Selected(db, Refreshed(db, t0, startNodes, endNodes, genOrTrc, level), endNodes.Some?, genOrTrc) == {}
    ensures forall outputType: string, outputcols: Option<string>, cols: seq<Column> ::
      var res := Query(db, Refreshed(db, t0, startNodes, endNodes, genOrTrc, level), endNodes.Some?, genOrTrc,
                       outputType, outputcols, cols);
      res.Success? ==> TableEmpty(res.value.table)
  {
    var t := Refreshed(db, t0, startNodes, endNodes, genOrTrc, level);
    var cap := QueryLevel(level);
    RefreshedClosures(db, t0, startNodes, endNodes, genOrTrc, level);
    if IncludesTrc(genOrTrc) {
      assert t.trcPrBid == {};
      TrcClosureEmpty(db, cap);
      assert TrcBids(t) == {};
      assert TrcResults(db, t) == {};
    }
    if IncludesGen(genOrTrc) {
      GenClosureEmpty(db, cap);
      assert GenBids(db, t) == {};
    }
    forall s | s in Selected(db, t, endNodes.Some?, genOrTrc) ensures false {
      match s
      case FromTrc(x) =>
      case FromGen(g) =>
    }
    forall outputcols: Option<string>, cols: seq<Column> {
      NoRowsEmptyTable(db, OutputColsBranch(outputcols), cols);
    }
  }

  /** With no rows the table is empty, in either column mode. */
  lemma NoRowsEmptyTable(db: Database, branch: ColumnsBranch, cols: seq<Column>)
    ensures TableEmpty(Tabulate(db, {}, branch, cols))
  {
    var tbl := Tabulate(db, {}, branch, cols);
    if tbl.Bag? {
      assert tbl.rows.Keys == {};
    } else {
      assert tbl.groups.Keys == {};
    }
  }

  // ---------------------------------------------------------------------------------------
  // get_item_codes

  /** One dropdown option: {label, value}. */
  datatype ItemOption = ItemOption(caption: string, value: string)

  /** DuckDB's split_part(s, '-', 1): the text before the first '-'. */
  function FirstDashPart(s: string): (r: string)
    ensures |r| <= |s| && s[..|r|] == r && '-' !in r
    ensures |r| < |s| ==> s[|r|] == '-'
  {
    if s == [] || s[0] == '-' then [] else [s[0]] + FirstDashPart(s[1..])
  }

  /** The option of one listed item code: "<ProductCode> - <ItemCode>" when ItemMaster has a
      product code for the code's first dash part, the bare code otherwise. */
  function ItemCodeOption(db: Database, code: string): (o: ItemOption)
    ensures o.value == code
    ensures |o.caption| >= |code| && o.caption[|o.caption| - |code|..] == code
    ensures o.caption == code <==>
      !(FirstDashPart(code) in db.itemMaster && db.itemMaster[FirstDashPart(code)].productCode.Some?)
  {
    var key := FirstDashPart(code);
    if key in db.itemMaster && db.itemMaster[key].productCode.Some? then
      ItemOption(db.itemMaster[key].productCode.value + " - " + code, code)
    else ItemOption(code, code)
  }

  /** ILIKE '%search%' on ASCII text. */
  predicate ILikeContains(s: string, search: string)
  {
    Contains(Lower(s), Lower(search))
  }

  /** A listed type that get_item_codes offers: non-null and matching the search text. */
  predicate Offered(t: Option<string>, search: string)
  {
    t.Some? && ILikeContains(t.value, search)
  }

  /** The text of a listed type; only offered types, which are never null, are asked. */
  function TypeText(t: Option<string>): string
  {
    if t.Some? then t.value else ""
  }

  /** The options for the listed item codes that contain the search text, in listing order. */
  function ItemCodeOptions(db: Database, types: seq<Option<string>>, search: string): (r: seq<ItemOption>)
    ensures |r| <= |types|
  {
    FilterMap(types, t => Offered(t, search), t => ItemCodeOption(db, TypeText(t)))
  }

  /** An option is listed exactly when it is the option of an offered type. */
  lemma ItemCodeOptionsMembers(db: Database, types: seq<Option<string>>, search: string, o: ItemOption)
    ensures o in ItemCodeOptions(db, types, search) <==>
      exists k :: 0 <= k < |types| && Offered(types[k], search) && o == ItemCodeOption(db, types[k].value)
  {
    FilterMapMembers(types, t => Offered(t, search), t => ItemCodeOption(db, TypeText(t)), o);
  }

  /** get_item_codes over vw_ListOfTypes: one option for each listed code that contains the
      search text, and no other. */
  function GetItemCodes(db: Database, search: string): (r: seq<ItemOption>)
    ensures forall o :: o in r ==> Some(o.value) in db.listOfTypes && ILikeContains(o.value, search) && o == ItemCodeOption(db, o.value)
    ensures forall code :: Some(code) in db.listOfTypes && ILikeContains(code, search) ==> ItemCodeOption(db, code) in r
  {
    var r := ItemCodeOptions(db, db.listOfTypes, search);
    assert forall o :: o in r ==> Some(o.value) in db.listOfTypes && ILikeContains(o.value, search) && o == ItemCodeOption(db, o.value) by {
      forall o | o in r ensures Some(o.value) in db.listOfTypes && ILikeContains(o.value, search) && o == ItemCodeOption(db, o.value) {
        ItemCodeOptionsMembers(db, db.listOfTypes, search, o);
      }
    }
    assert forall code :: Some(code) in db.listOfTypes && ILikeContains(code, search) ==> ItemCodeOption(db, code) in r by {
      forall code | Some(code) in db.listOfTypes && ILikeContains(code, search) ensures ItemCodeOption(db, code) in r {
        var k :| 0 <= k < |db.listOfTypes| && db.listOfTypes[k] == Some(code);
        ItemCodeOptionsMembers(db, db.listOfTypes, search, ItemCodeOption(db, code));
      }
    }
    r
  }
}
