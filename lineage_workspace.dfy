/** The lineage engine as the module-level DuckDB session it is: a read-only database and the
    session's temp tables, which func_Source, func_Target and the two closure builders replace
    and get_lineage then queries. */
module LineageWorkspace {
  import opened Common
  import opened LineageModel
  import opened LineageClosure
  import opened LineageQuery

  class Session {
    const db: Database
    var traceForLots: set<TraceSeed>
    var genForLots: set<GenSeed>
    var traceTarget: set<TraceSeed>
    var trcPrBid: set<PrBidRow>
    var trcResultsBid: set<TrcBidRow>
    var genResultsBid: set<GenBidRow>

    /** The temp tables, as the result views read them. */
    function Snapshot(): Tables
      reads this
    {
      Tables(traceForLots, genForLots, traceTarget, trcPrBid, trcResultsBid, genResultsBid)
    }

    /** A fresh connection: no temp table holds rows yet. */
    constructor(db: Database)
      ensures this.db == db
      ensures Snapshot() == Tables({}, {}, {}, {}, {}, {})
    {
      this.db := db;
      traceForLots, genForLots, traceTarget := {}, {}, {};
      trcPrBid, trcResultsBid, genResultsBid := {}, {}, {};
    }

    /** func_trc_PrBID: rebuilds vw_Trc_PrBID from tmp_TraceForLots, then evaluates the
        traceability CTE into tmp_Trc_Results_bid one working table at a time, stopping at the
        first empty one. */
    method TrcPrBidRefresh(cap: int)
      modifies this
      ensures trcPrBid == TrcPrBid(db, traceForLots)
      ensures trcResultsBid == TrcClosure(db, trcPrBid, cap)
      ensures traceForLots == old(traceForLots) && genForLots == old(genForLots)
      ensures traceTarget == old(traceTarget) && genResultsBid == old(genResultsBid)
    {
      trcPrBid := TrcPrBid(db, traceForLots);
      var working := TrcAnchor(trcPrBid);
      var acc: set<TrcBidRow> := {};
      var k: nat := 0;
      while working != {}
        invariant k <= MaxLevel(cap)
        invariant working == TrcFrontier(db, trcPrBid, cap, k)
        invariant acc == TrcUpTo(db, trcPrBid, cap, k)
        decreases MaxLevel(cap) - k
        modifies {}
      {
        TrcFrontierBounded(db, trcPrBid, cap, k);
        acc := acc + working;
        working := TrcStep(db, working, cap);
        k := k + 1;
      }
      TrcUpToStable(db, trcPrBid, cap, k, MaxLevel(cap));
      trcResultsBid := acc;
    }

    /** func_gen_PrBID: evaluates the genealogy CTE over tmp_GenForLots into
        tmp_Gen_Results_bid. */
    method GenPrBidRefresh(cap: int)
      modifies this
      ensures genResultsBid == GenClosure(db, genForLots, cap)
      ensures traceForLots == old(traceForLots) && genForLots == old(genForLots) && traceTarget == old(traceTarget)
      ensures trcPrBid == old(trcPrBid) && trcResultsBid == old(trcResultsBid)
    {
      var working := GenAnchor(db, genForLots);
      var acc: set<GenBidRow> := {};
      var k: nat := 0;
      while working != {}
        invariant k <= MaxLevel(cap)
        invariant working == GenFrontier(db, genForLots, cap, k)
        invariant acc == GenUpTo(db, genForLots, cap, k)
        decreases MaxLevel(cap) - k
        modifies {}
      {
        GenFrontierBounded(db, genForLots, cap, k);
        acc := acc + working;
        working := GenStep(db, working, cap);
        k := k + 1;
      }
      GenUpToStable(db, genForLots, cap, k, MaxLevel(cap));
      genResultsBid := acc;
    }

    /** func_Source: the seed table and closure of each requested direction are rebuilt. */
    method Source(input: string, genOrTrc: string, cap: int)
      modifies this
      ensures Snapshot() == AfterSource(db, old(Snapshot()), input, genOrTrc, cap)
    {
      if IncludesTrc(genOrTrc) {
        traceForLots := TraceSeeds(db, input);
        TrcPrBidRefresh(cap);
      }
      if IncludesGen(genOrTrc) {
        genForLots := GenSeeds(db, input);
        GenPrBidRefresh(cap);
      }
    }

    /** func_Target: rebuilds tmp_TraceTarget. */
    method Target(input: string)
      modifies this
      ensures Snapshot() == old(Snapshot()).(traceTarget := TraceSeeds(db, input))
    {
      traceTarget := TraceSeeds(db, input);
    }

    /** get_lineage: refreshes the source tables, the target table when end nodes are given,
        then runs the query (whose two ValueErrors come after the refresh). */
    method GetLineage(startNodes: string, endNodes: Option<string>, outputType: string, genOrTrc: string,
                      level: Option<int>, outputcols: Option<string>, cols: seq<Column>)
      returns (res: Result<LineageOutput, LineageError>)
      modifies this
      ensures Snapshot() == Refreshed(db, old(Snapshot()), startNodes, endNodes, genOrTrc, level)
      ensures res == Query(db, Snapshot(), endNodes.Some?, genOrTrc, outputType, outputcols, cols)
    {
      var qrylevel := QueryLevel(level);
      Source(startNodes, genOrTrc, qrylevel);
      if endNodes.Some? {
        Target(endNodes.value);
      }
      res := Query(db, Snapshot(), endNodes.Some?, genOrTrc, outputType, outputcols, cols);
    }
  }
}
