/** What the two depth-capped closures guarantee: levels start at 1 and never pass the cap,
    every row carries the root context of the seed it started from, every deeper row extends
    a row one level up, the closure is closed under the capped step, and working tables stop
    for good once one of them is empty (which is what lets the engine's loop stop early). */
module LineageClosure {
  import opened Common
  import opened LineageModel

  // ---------------------------------------------------------------------------------------
  // Traceability

  /** Every row of the k-th working table is at level k + 1. */
  lemma {:induction false} TrcFrontierLevel(db: Database, prbid: set<PrBidRow>, cap: int, k: nat, r: TrcBidRow)
    requires r in TrcFrontier(db, prbid, cap, k)
    ensures r.level == k + 1
    decreases k
  {
    if k > 0 {
      var r', d :| r' in TrcFrontier(db, prbid, cap, k - 1) && d in db.trcEdges && TrcLinks(r', d, cap) && r == TrcChild(r', d);
      TrcFrontierLevel(db, prbid, cap, k - 1, r');
    }
  }

  /** A non-empty working table lies below the level bound. */
  lemma TrcFrontierBounded(db: Database, prbid: set<PrBidRow>, cap: int, k: nat)
    requires TrcFrontier(db, prbid, cap, k) != {}
    ensures k < MaxLevel(cap)
  {
    if k > 0 {
      var r :| r in TrcFrontier(db, prbid, cap, k);
      var r', d :| r' in TrcFrontier(db, prbid, cap, k - 1) && d in db.trcEdges && TrcLinks(r', d, cap) && r == TrcChild(r', d);
      TrcFrontierLevel(db, prbid, cap, k - 1, r');
    }
  }

  /** Once a working table is empty, all later ones are. */
  lemma {:induction false} TrcFrontierStaysEmpty(db: Database, prbid: set<PrBidRow>, cap: int, k: nat, m: nat)
    requires TrcFrontier(db, prbid, cap, k) == {}
    requires k <= m
    ensures TrcFrontier(db, prbid, cap, m) == {}
    decreases m - k
  {
    if k < m {
      TrcFrontierStaysEmpty(db, prbid, cap, k, m - 1);
      assert TrcFrontier(db, prbid, cap, m) == TrcStep(db, {}, cap);
    }
  }

  /** Once a working table is empty, the union of the working tables does not grow. */
  lemma {:induction false} TrcUpToStable(db: Database, prbid: set<PrBidRow>, cap: int, k: nat, n: nat)
    requires TrcFrontier(db, prbid, cap, k) == {}
    requires k <= n
    ensures TrcUpTo(db, prbid, cap, n) == TrcUpTo(db, prbid, cap, k)
    decreases n - k
  {
    if k < n {
      var m := n - 1;
      TrcUpToStable(db, prbid, cap, k, m);
      TrcFrontierStaysEmpty(db, prbid, cap, k, m);
      TrcUpToEmptyStep(db, prbid, cap, m, n);
    }
  }

  lemma TrcUpToEmptyStep(db: Database, prbid: set<PrBidRow>, cap: int, m: nat, n: nat)
    requires TrcFrontier(db, prbid, cap, m) == {}
    requires n == m + 1
    ensures TrcUpTo(db, prbid, cap, n) == TrcUpTo(db, prbid, cap, m)
  {
    var before, frontier := TrcUpTo(db, prbid, cap, m), TrcFrontier(db, prbid, cap, m);
    assert TrcUpTo(db, prbid, cap, n) == before + frontier;
    assert before + frontier == before;
  }

  lemma {:induction false} TrcUpToMembership(db: Database, prbid: set<PrBidRow>, cap: int, n: nat, r: TrcBidRow)
    ensures r in TrcUpTo(db, prbid, cap, n) <==> exists k :: 0 <= k < n && r in TrcFrontier(db, prbid, cap, k)
    decreases n
  {
    if n > 0 {
      TrcUpToMembership(db, prbid, cap, n - 1, r);
      if r in TrcFrontier(db, prbid, cap, n - 1) {
        assert 0 <= n - 1 < n && r in TrcFrontier(db, prbid, cap, n - 1);
      }
      if exists k :: 0 <= k < n && r in TrcFrontier(db, prbid, cap, k) {
        var k :| 0 <= k < n && r in TrcFrontier(db, prbid, cap, k);
        if k < n - 1 {
          assert 0 <= k < n - 1 && r in TrcFrontier(db, prbid, cap, k);
        }
      }
    }
  }

  /** Levels: every closure row has 1 <= Level <= max(1, cap). */
  lemma TrcClosureLevels(db: Database, prbid: set<PrBidRow>, cap: int, r: TrcBidRow)
    requires r in TrcClosure(db, prbid, cap)
    ensures 1 <= r.level <= MaxLevel(cap)
  {
    TrcUpToMembership(db, prbid, cap, MaxLevel(cap), r);
    var k :| 0 <= k < MaxLevel(cap) && r in TrcFrontier(db, prbid, cap, k);
    TrcFrontierLevel(db, prbid, cap, k, r);
  }

  lemma {:induction false} TrcFrontierRoot(db: Database, prbid: set<PrBidRow>, cap: int, k: nat, r: TrcBidRow)
    requires r in TrcFrontier(db, prbid, cap, k)
    ensures exists c :: c in prbid && TrcRoot(r) == (c.lot, c.itemCode, c.slnAdj, c.pln)
    decreases k
  {
    if k > 0 {
      var r', d :| r' in TrcFrontier(db, prbid, cap, k - 1) && d in db.trcEdges && TrcLinks(r', d, cap) && r == TrcChild(r', d);
      TrcFrontierRoot(db, prbid, cap, k - 1, r');
    }
  }

  /** Root context: every closure row carries the lot, item code, supplier lot and parent lot
      of the seed-consuming transaction its path started from. */
  lemma TrcClosureRoot(db: Database, prbid: set<PrBidRow>, cap: int, r: TrcBidRow)
    requires r in TrcClosure(db, prbid, cap)
    ensures exists c :: c in prbid && TrcRoot(r) == (c.lot, c.itemCode, c.slnAdj, c.pln)
  {
    TrcUpToMembership(db, prbid, cap, MaxLevel(cap), r);
    var k :| 0 <= k < MaxLevel(cap) && r in TrcFrontier(db, prbid, cap, k);
    TrcFrontierRoot(db, prbid, cap, k, r);
  }

  /** The level-1 rows are exactly the anchor rows. */
  lemma TrcClosureLevelOne(db: Database, prbid: set<PrBidRow>, cap: int, r: TrcBidRow)
    ensures (r in TrcClosure(db, prbid, cap) && r.level == 1) <==> r in TrcAnchor(prbid)
  {
    TrcUpToMembership(db, prbid, cap, MaxLevel(cap), r);
    if r in TrcClosure(db, prbid, cap) && r.level == 1 {
      var k :| 0 <= k < MaxLevel(cap) && r in TrcFrontier(db, prbid, cap, k);
      TrcFrontierLevel(db, prbid, cap, k, r);
    }
    if r in TrcAnchor(prbid) {
      assert r in TrcFrontier(db, prbid, cap, 0);
    }
  }

  /** Every row deeper than level 1 extends a closure row one level up: its ingredient batch is
      that row's product batch, it copies that row's root context, and that row was below the
      cap. */
  lemma TrcClosureDerived(db: Database, prbid: set<PrBidRow>, cap: int, r: TrcBidRow)
    requires r in TrcClosure(db, prbid, cap) && r.level > 1
    ensures exists r', d :: r' in TrcClosure(db, prbid, cap) && d in db.trcEdges
              && TrcLinks(r', d, cap) && r == TrcChild(r', d)
              && r.ingredientBatch == Some(r'.productBatch) && r.level == r'.level + 1 && TrcRoot(r) == TrcRoot(r')
  {
    TrcUpToMembership(db, prbid, cap, MaxLevel(cap), r);
    var k :| 0 <= k < MaxLevel(cap) && r in TrcFrontier(db, prbid, cap, k);
    TrcFrontierLevel(db, prbid, cap, k, r);
    var r', d :| r' in TrcFrontier(db, prbid, cap, k - 1) && d in db.trcEdges && TrcLinks(r', d, cap) && r == TrcChild(r', d);
    TrcUpToMembership(db, prbid, cap, MaxLevel(cap), r');
    assert 0 <= k - 1 < MaxLevel(cap) && r' in TrcFrontier(db, prbid, cap, k - 1);
    assert r' in TrcClosure(db, prbid, cap);
  }

  /** The closure is closed under the capped step: a row below the cap is extended by every
      edge that consumed its product batch. */
  lemma TrcClosureClosed(db: Database, prbid: set<PrBidRow>, cap: int, r: TrcBidRow, d: TrcEdge)
    requires r in TrcClosure(db, prbid, cap) && d in db.trcEdges && TrcLinks(r, d, cap)
    ensures TrcChild(r, d) in TrcClosure(db, prbid, cap)
  {
    TrcUpToMembership(db, prbid, cap, MaxLevel(cap), r);
    var k :| 0 <= k < MaxLevel(cap) && r in TrcFrontier(db, prbid, cap, k);
    TrcFrontierLevel(db, prbid, cap, k, r);
    var c := TrcChild(r, d);
    assert c in TrcFrontier(db, prbid, cap, k + 1);
    assert 0 <= k + 1 < MaxLevel(cap) && c in TrcFrontier(db, prbid, cap, k + 1);
    TrcUpToMembership(db, prbid, cap, MaxLevel(cap), c);
  }

  /** No consuming batch, no rows. */
  lemma TrcClosureEmpty(db: Database, cap: int)
    ensures TrcClosure(db, {}, cap) == {}
  {
    assert TrcFrontier(db, {}, cap, 0) == {};
    TrcUpToStable(db, {}, cap, 0, MaxLevel(cap));
  }

  // ---------------------------------------------------------------------------------------
  // Genealogy

  lemma {:induction false} GenFrontierLevel(db: Database, seeds: set<GenSeed>, cap: int, k: nat, r: GenBidRow)
    requires r in GenFrontier(db, seeds, cap, k)
    ensures r.level == k + 1
    decreases k
  {
    if k > 0 {
      var r', d :| r' in GenFrontier(db, seeds, cap, k - 1) && d in db.genEdges && GenLinks(r', d, cap) && r == GenChild(r', d);
      GenFrontierLevel(db, seeds, cap, k - 1, r');
    }
  }

  lemma GenFrontierBounded(db: Database, seeds: set<GenSeed>, cap: int, k: nat)
    requires GenFrontier(db, seeds, cap, k) != {}
    ensures k < MaxLevel(cap)
  {
    if k > 0 {
      var r :| r in GenFrontier(db, seeds, cap, k);
      var r', d :| r' in GenFrontier(db, seeds, cap, k - 1) && d in db.genEdges && GenLinks(r', d, cap) && r == GenChild(r', d);
      GenFrontierLevel(db, seeds, cap, k - 1, r');
    }
  }

  lemma {:induction false} GenFrontierStaysEmpty(db: Database, seeds: set<GenSeed>, cap: int, k: nat, m: nat)
    requires GenFrontier(db, seeds, cap, k) == {}
    requires k <= m
    ensures GenFrontier(db, seeds, cap, m) == {}
    decreases m - k
  {
    if k < m {
      GenFrontierStaysEmpty(db, seeds, cap, k, m - 1);
      assert GenFrontier(db, seeds, cap, m) == GenStep(db, {}, cap);
    }
  }

  lemma {:induction false} GenUpToStable(db: Database, seeds: set<GenSeed>, cap: int, k: nat, n: nat)
    requires GenFrontier(db, seeds, cap, k) == {}
    requires k <= n
    ensures GenUpTo(db, seeds, cap, n) == GenUpTo(db, seeds, cap, k)
    decreases n - k
  {
    if k < n {
      var m := n - 1;
      GenUpToStable(db, seeds, cap, k, m);
      GenFrontierStaysEmpty(db, seeds, cap, k, m);
      GenUpToEmptyStep(db, seeds, cap, m, n);
    }
  }

  lemma GenUpToEmptyStep(db: Database, seeds: set<GenSeed>, cap: int, m: nat, n: nat)
    requires GenFrontier(db, seeds, cap, m) == {}
    requires n == m + 1
    ensures GenUpTo(db, seeds, cap, n) == GenUpTo(db, seeds, cap, m)
  {
    var before, frontier := GenUpTo(db, seeds, cap, m), GenFrontier(db, seeds, cap, m);
    assert GenUpTo(db, seeds, cap, n) == before + frontier;
    assert before + frontier == before;
  }

  lemma {:induction false} GenUpToMembership(db: Database, seeds: set<GenSeed>, cap: int, n: nat, r: GenBidRow)
    ensures r in GenUpTo(db, seeds, cap, n) <==> exists k :: 0 <= k < n && r in GenFrontier(db, seeds, cap, k)
    decreases n
  {
    if n > 0 {
      GenUpToMembership(db, seeds, cap, n - 1, r);
      if r in GenFrontier(db, seeds, cap, n - 1) {
        assert 0 <= n - 1 < n && r in GenFrontier(db, seeds, cap, n - 1);
      }
      if exists k :: 0 <= k < n && r in GenFrontier(db, seeds, cap, k) {
        var k :| 0 <= k < n && r in GenFrontier(db, seeds, cap, k);
        if k < n - 1 {
          assert 0 <= k < n - 1 && r in GenFrontier(db, seeds, cap, k);
        }
      }
    }
  }

  lemma GenClosureLevels(db: Database, seeds: set<GenSeed>, cap: int, r: GenBidRow)
    requires r in GenClosure(db, seeds, cap)
    ensures 1 <= r.level <= MaxLevel(cap)
  {
    GenUpToMembership(db, seeds, cap, MaxLevel(cap), r);
    var k :| 0 <= k < MaxLevel(cap) && r in GenFrontier(db, seeds, cap, k);
    GenFrontierLevel(db, seeds, cap, k, r);
  }

  lemma {:induction false} GenFrontierRoot(db: Database, seeds: set<GenSeed>, cap: int, k: nat, r: GenBidRow)
    requires r in GenFrontier(db, seeds, cap, k)
    ensures exists c :: c in seeds && r.parent == c.batchId && r.nodeType == c.nodeType
    decreases k
  {
    if k > 0 {
      var r', d :| r' in GenFrontier(db, seeds, cap, k - 1) && d in db.genEdges && GenLinks(r', d, cap) && r == GenChild(r', d);
      GenFrontierRoot(db, seeds, cap, k - 1, r');
    }
  }

  /** Root context: every genealogy row is rooted at a seed batch and carries that seed's
      node type. */
  lemma GenClosureRoot(db: Database, seeds: set<GenSeed>, cap: int, r: GenBidRow)
    requires r in GenClosure(db, seeds, cap)
    ensures exists c :: c in seeds && r.parent == c.batchId && r.nodeType == c.nodeType
  {
    GenUpToMembership(db, seeds, cap, MaxLevel(cap), r);
    var k :| 0 <= k < MaxLevel(cap) && r in GenFrontier(db, seeds, cap, k);
    GenFrontierRoot(db, seeds, cap, k, r);
  }

  lemma GenClosureLevelOne(db: Database, seeds: set<GenSeed>, cap: int, r: GenBidRow)
    ensures (r in GenClosure(db, seeds, cap) && r.level == 1) <==> r in GenAnchor(db, seeds)
  {
    GenUpToMembership(db, seeds, cap, MaxLevel(cap), r);
    if r in GenClosure(db, seeds, cap) && r.level == 1 {
      var k :| 0 <= k < MaxLevel(cap) && r in GenFrontier(db, seeds, cap, k);
      GenFrontierLevel(db, seeds, cap, k, r);
    }
    if r in GenAnchor(db, seeds) {
      assert r in GenFrontier(db, seeds, cap, 0);
    }
  }

  lemma GenClosureDerived(db: Database, seeds: set<GenSeed>, cap: int, r: GenBidRow)
    requires r in GenClosure(db, seeds, cap) && r.level > 1
    ensures exists r', d :: r' in GenClosure(db, seeds, cap) && d in db.genEdges
              && GenLinks(r', d, cap) && r == GenChild(r', d)
              && r'.ingredientBatch == Some(r.productBatch) && r.level == r'.level + 1 && GenRoot(r) == GenRoot(r')
  {
    GenUpToMembership(db, seeds, cap, MaxLevel(cap), r);
    var k :| 0 <= k < MaxLevel(cap) && r in GenFrontier(db, seeds, cap, k);
    GenFrontierLevel(db, seeds, cap, k, r);
    var r', d :| r' in GenFrontier(db, seeds, cap, k - 1) && d in db.genEdges && GenLinks(r', d, cap) && r == GenChild(r', d);
    GenUpToMembership(db, seeds, cap, MaxLevel(cap), r');
    assert 0 <= k - 1 < MaxLevel(cap) && r' in GenFrontier(db, seeds, cap, k - 1);
    assert r' in GenClosure(db, seeds, cap);
  }

  lemma GenClosureClosed(db: Database, seeds: set<GenSeed>, cap: int, r: GenBidRow, d: GenEdge)
    requires r in GenClosure(db, seeds, cap) && d in db.genEdges && GenLinks(r, d, cap)
    ensures GenChild(r, d) in GenClosure(db, seeds, cap)
  {
    GenUpToMembership(db, seeds, cap, MaxLevel(cap), r);
    var k :| 0 <= k < MaxLevel(cap) && r in GenFrontier(db, seeds, cap, k);
    GenFrontierLevel(db, seeds, cap, k, r);
    var c := GenChild(r, d);
    assert c in GenFrontier(db, seeds, cap, k + 1);
    assert 0 <= k + 1 < MaxLevel(cap) && c in GenFrontier(db, seeds, cap, k + 1);
    GenUpToMembership(db, seeds, cap, MaxLevel(cap), c);
  }

  lemma GenClosureEmpty(db: Database, cap: int)
    ensures GenClosure(db, {}, cap) == {}
  {
    assert GenFrontier(db, {}, cap, 0) == {};
    GenUpToStable(db, {}, cap, 0, MaxLevel(cap));
  }
}
