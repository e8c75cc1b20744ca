/** The relations the lineage engine reads (the database views vw_MatTxnsWithItemCodes,
    vw_trc_PIBID, vw_Gen_PIBID, ItemMaster and vw_ListOfTypes), the seed resolution of
    func_Source / func_Target, and the two depth-capped recursive closures of func_trc_PrBID
    (traceability, walking from a consumed batch up to the batches that consumed it) and
    func_gen_PrBID (genealogy, walking from a produced batch down to what it consumed).

    Each recursive CTE is modelled by its working tables: the anchor is frontier 0, frontier
    k + 1 is the recursive member applied to frontier k, and the CTE's result is the union of
    the frontiers produced before the first empty one. Rows are sets: the tables that hold them
    are all later read through GROUP BY ALL. */
module LineageModel {
  import opened Common

  type BatchId = string

  /** The TYPE column of a material transaction. */
  datatype TxnType = Product | Ingredient | OtherType(name: string)

  /** One row of vw_MatTxnsWithItemCodes, restricted to the columns the engine reads.
      `parentLotNumber` and `supplierLotNumber` are the columns the seed queries match;
      `pln` and `slnAdj` are the ones the result views report. */
  datatype MatTxn = MatTxn(
    batchId: BatchId, txnType: TxnType, itemCode: string, lot: string,
    parentLotNumber: string, pln: string, supplierLotNumber: string, slnAdj: string,
    lotLabel: string, parentLotLabel: string)

  /** One row of vw_trc_PIBID: the product batch that consumed a material, the batch that
      produced that material (absent for bought-in material), and the material itself. */
  datatype TrcEdge = TrcEdge(
    productBatch: BatchId, ingredientBatch: Option<BatchId>,
    itemCode: string, lot: string, txnType: TxnType, slnAdj: string, pln: string)

  /** One row of vw_Gen_PIBID: a product batch and one batch whose output it consumed. */
  datatype GenEdge = GenEdge(productBatch: BatchId, ingredientBatch: Option<BatchId>)

  /** One row of ItemMaster. */
  datatype ItemRef = ItemRef(
    itemCode: string, category: Option<string>, productCode: Option<string>,
    description: Option<string>, unitOpName: Option<string>, tag: Option<string>)

  /** The read-only store. ItemMaster is keyed by ItemCode (zero or one row per code). */
  datatype Database = Database(
    txns: set<MatTxn>, trcEdges: set<TrcEdge>, genEdges: set<GenEdge>,
    itemMaster: map<string, ItemRef>, listOfTypes: seq<Option<string>>)

  /** Which column of a transaction a seed identifier matched. */
  datatype NodeType = LotNode | ParentLotNode | ItemNode | SupplierLotNode

  function MatchedField(t: MatTxn, k: NodeType): string
  {
    match k
    case LotNode => t.lot
    case ParentLotNode => t.parentLotNumber
    case ItemNode => t.itemCode
    case SupplierLotNode => t.supplierLotNumber
  }

  /** A row of tmp_TraceForLots or tmp_TraceTarget. */
  datatype TraceSeed = TraceSeed(itemCode: string, lot: string, nodeType: NodeType)

  /** A row of tmp_GenForLots. */
  datatype GenSeed = GenSeed(itemCode: string, lot: string, nodeType: NodeType, batchId: BatchId)

  /** Traceability and target seeds: the Ingredient-type transactions whose lot, parent lot,
      item code or supplier lot equals the input text. The input is spliced into a single
      quoted literal, so a field matches only when it equals the whole text. */
  function TraceSeeds(db: Database, input: string): (r: set<TraceSeed>)
    ensures forall s :: s in r <==>
      exists t :: t in db.txns && t.txnType == Ingredient && MatchedField(t, s.nodeType) == input
        && s.itemCode == t.itemCode && s.lot == t.lot
  {
    set t, k | t in db.txns && k in [LotNode, ParentLotNode, ItemNode, SupplierLotNode]
      && t.txnType == Ingredient && MatchedField(t, k) == input
      :: TraceSeed(t.itemCode, t.lot, k)
  }

  /** Genealogy seeds: the Product-type transactions whose lot, parent lot or item code equals
      the input text; the supplier lot is not searched. */
  function GenSeeds(db: Database, input: string): (r: set<GenSeed>)
    ensures forall s :: s in r ==> s.nodeType != SupplierLotNode
    ensures forall s :: s in r <==>
      s.nodeType != SupplierLotNode &&
      exists t :: t in db.txns && t.txnType == Product && MatchedField(t, s.nodeType) == input
        && s.itemCode == t.itemCode && s.lot == t.lot && s.batchId == t.batchId
  {
    set t, k | t in db.txns && k in [LotNode, ParentLotNode, ItemNode]
      && t.txnType == Product && MatchedField(t, k) == input
      :: GenSeed(t.itemCode, t.lot, k, t.batchId)
  }

  // ---------------------------------------------------------------------------------------
  // Traceability closure

  /** A row of the temp table vw_Trc_PrBID: a batch that consumed a seed lot, with the seed's
      lot and item code and the consuming transaction's supplier and parent lots. */
  datatype PrBidRow = PrBidRow(productBatch: BatchId, lot: string, itemCode: string, slnAdj: string, pln: string)

  function TrcPrBid(db: Database, seeds: set<TraceSeed>): (r: set<PrBidRow>)
    ensures forall c :: c in r ==> exists p :: p in seeds && p.lot == c.lot && p.itemCode == c.itemCode
    ensures forall c :: c in r ==>
      exists mt :: mt in db.trcEdges && mt.txnType == Ingredient && mt.productBatch == c.productBatch
        && mt.lot == c.lot && mt.itemCode == c.itemCode && mt.slnAdj == c.slnAdj && mt.pln == c.pln
    ensures forall p, mt ::
      (p in seeds && mt in db.trcEdges && mt.txnType == Ingredient && p.lot == mt.lot && p.itemCode == mt.itemCode)
      ==> PrBidRow(mt.productBatch, p.lot, p.itemCode, mt.slnAdj, mt.pln) in r
  {
    set p, mt | p in seeds && mt in db.trcEdges && p.itemCode == mt.itemCode
      && mt.txnType == Ingredient && p.lot == mt.lot
      :: PrBidRow(mt.productBatch, p.lot, p.itemCode, mt.slnAdj, mt.pln)
  }

  /** A row of tmp_Trc_Results_bid. `parent`, `parentItemCode`, `slnAdj` and `parentPln` are
      the root context: the seed lot the path started from. */
  datatype TrcBidRow = TrcBidRow(
    productBatch: BatchId, ingredientBatch: Option<BatchId>, itemCode: string, lot: string,
    level: int, parent: string, parentItemCode: string, slnAdj: string, parentPln: string)

  /** Root context of a traceability row. */
  function TrcRoot(r: TrcBidRow): (string, string, string, string)
  {
    (r.parent, r.parentItemCode, r.slnAdj, r.parentPln)
  }

  /** The anchor member: one level-1 row per consuming batch, with placeholder item and lot. */
  function TrcAnchor(prbid: set<PrBidRow>): (a: set<TrcBidRow>)
    ensures forall r :: r in a ==>
      r.level == 1 && r.ingredientBatch == None && r.itemCode == "NANCHOR" && r.lot == "NANCHOR"
      && exists c :: c in prbid && r.productBatch == c.productBatch && TrcRoot(r) == (c.lot, c.itemCode, c.slnAdj, c.pln)
    ensures forall c :: c in prbid ==>
      exists r :: r in a && r.productBatch == c.productBatch && TrcRoot(r) == (c.lot, c.itemCode, c.slnAdj, c.pln)
  {
    set c | c in prbid :: TrcBidRow(c.productBatch, None, "NANCHOR", "NANCHOR", 1, c.lot, c.itemCode, c.slnAdj, c.pln)
  }

  /** The recursive member joins a row to every edge whose ingredient batch is the row's
      product batch, while the row's level is below the cap. */
  predicate TrcLinks(r: TrcBidRow, d: TrcEdge, cap: int)
  {
    d.ingredientBatch == Some(r.productBatch) && r.level < cap
  }

  function TrcChild(r: TrcBidRow, d: TrcEdge): (c: TrcBidRow)
  {
    TrcBidRow(d.productBatch, d.ingredientBatch, d.itemCode, d.lot, r.level + 1,
              r.parent, r.parentItemCode, r.slnAdj, r.parentPln)
  }

  function TrcStep(db: Database, w: set<TrcBidRow>, cap: int): set<TrcBidRow>
  {
    set r, d | r in w && d in db.trcEdges && TrcLinks(r, d, cap) :: TrcChild(r, d)
  }

  /** The k-th working table of the traceability CTE. */
  function TrcFrontier(db: Database, prbid: set<PrBidRow>, cap: int, k: nat): set<TrcBidRow>
    decreases k
  {
    if k == 0 then TrcAnchor(prbid) else TrcStep(db, TrcFrontier(db, prbid, cap, k - 1), cap)
  }

  /** The union of the first n working tables. */
  function TrcUpTo(db: Database, prbid: set<PrBidRow>, cap: int, n: nat): set<TrcBidRow>
    decreases n
  {
    if n == 0 then {} else TrcUpTo(db, prbid, cap, n - 1) + TrcFrontier(db, prbid, cap, n - 1)
  }

  /** The largest level a row can reach: the cap, but the anchor is at level 1 whatever the cap. */
  function MaxLevel(cap: int): (m: nat)
    ensures m >= 1 && m >= cap
    ensures m == 1 || m == cap
  {
    if cap < 1 then 1 else cap
  }

  /** The content of tmp_Trc_Results_bid. */
  function TrcClosure(db: Database, prbid: set<PrBidRow>, cap: int): (r: set<TrcBidRow>)
    ensures TrcAnchor(prbid) <= r
    ensures cap <= 1 ==> r == TrcAnchor(prbid)
  {
    TrcAnchorInUpTo(db, prbid, cap, MaxLevel(cap));
    TrcUpTo(db, prbid, cap, MaxLevel(cap))
  }

  /** The anchor is the first working table, so every union of one or more of them holds it. */
  lemma {:induction false} TrcAnchorInUpTo(db: Database, prbid: set<PrBidRow>, cap: int, n: nat)
    requires n >= 1
    ensures TrcAnchor(prbid) <= TrcUpTo(db, prbid, cap, n)
    decreases n
  {
    if n > 1 {
      TrcAnchorInUpTo(db, prbid, cap, n - 1);
    }
  }

  // ---------------------------------------------------------------------------------------
  // Genealogy closure

  /** A row of tmp_Gen_Results_bid; `parent` (the seed batch) and `nodeType` are the root
      context. */
  datatype GenBidRow = GenBidRow(
    productBatch: BatchId, ingredientBatch: Option<BatchId>, level: int, parent: BatchId, nodeType: NodeType)

  function GenRoot(r: GenBidRow): (BatchId, NodeType)
  {
    (r.parent, r.nodeType)
  }

  /** The anchor member: every edge out of a seed batch, at level 1, rooted at that batch. */
  function GenAnchor(db: Database, seeds: set<GenSeed>): (a: set<GenBidRow>)
    ensures forall r :: r in a ==>
      r.level == 1 && r.parent == r.productBatch && GenEdge(r.productBatch, r.ingredientBatch) in db.genEdges
      && exists c :: c in seeds && c.batchId == r.productBatch && c.nodeType == r.nodeType
    ensures forall e, c :: e in db.genEdges && c in seeds && e.productBatch == c.batchId ==>
      GenBidRow(e.productBatch, e.ingredientBatch, 1, e.productBatch, c.nodeType) in a
  {
    set e, c | e in db.genEdges && c in seeds && e.productBatch == c.batchId
      :: GenBidRow(e.productBatch, e.ingredientBatch, 1, e.productBatch, c.nodeType)
  }

  /** The recursive member joins a row to every edge out of the row's ingredient batch, while
      the row's level is below the cap. */
  predicate GenLinks(r: GenBidRow, d: GenEdge, cap: int)
  {
    r.ingredientBatch == Some(d.productBatch) && r.level < cap
  }

  function GenChild(r: GenBidRow, d: GenEdge): GenBidRow
  {
    GenBidRow(d.productBatch, d.ingredientBatch, r.level + 1, r.parent, r.nodeType)
  }

  function GenStep(db: Database, w: set<GenBidRow>, cap: int): set<GenBidRow>
  {
    set r, d | r in w && d in db.genEdges && GenLinks(r, d, cap) :: GenChild(r, d)
  }

  function GenFrontier(db: Database, seeds: set<GenSeed>, cap: int, k: nat): set<GenBidRow>
    decreases k
  {
    if k == 0 then GenAnchor(db, seeds) else GenStep(db, GenFrontier(db, seeds, cap, k - 1), cap)
  }

  function GenUpTo(db: Database, seeds: set<GenSeed>, cap: int, n: nat): set<GenBidRow>
    decreases n
  {
    if n == 0 then {} else GenUpTo(db, seeds, cap, n - 1) + GenFrontier(db, seeds, cap, n - 1)
  }

  /** The content of tmp_Gen_Results_bid. */
  function GenClosure(db: Database, seeds: set<GenSeed>, cap: int): (r: set<GenBidRow>)
    ensures GenAnchor(db, seeds) <= r
    ensures cap <= 1 ==> r == GenAnchor(db, seeds)
  {
    GenAnchorInUpTo(db, seeds, cap, MaxLevel(cap));
    GenUpTo(db, seeds, cap, MaxLevel(cap))
  }

  lemma {:induction false} GenAnchorInUpTo(db: Database, seeds: set<GenSeed>, cap: int, n: nat)
    requires n >= 1
    ensures GenAnchor(db, seeds) <= GenUpTo(db, seeds, cap, n)
    decreases n
  {
    if n > 1 {
      GenAnchorInUpTo(db, seeds, cap, n - 1);
    }
  }
}
