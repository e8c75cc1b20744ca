/** The description a node ends with in app2.py's csv_to_hierarchy_by_level, over the whole
    run: the sequence of descriptions the rows offer it, and which of them survives. */
module HierarchyDescription {
  import opened Common
  import opened Text
  import opened Hierarchy

  /** A description the row loop reads for a node: from a root mention (which only counts when
      it creates the node) or from a source or ingredient mention. */
  datatype DescOffer = DescOffer(desc: Cell, byRoot: bool)

  /** The offers one row makes to `k`, in the order of its three branches. */
  function RowOffers(r: ChartRow, k: Cell): seq<DescOffer>
  {
    (if r.root == k then [DescOffer(r.rootDesc, true)] else [])
    + (if r.source == k then [DescOffer(r.sourceDesc, false)] else [])
    + (if r.ingredient == k then [DescOffer(r.ingredientDesc, false)] else [])
  }

  /** Every offer a run makes to `k`, in reading order. */
  function RunOffers(rows: seq<ChartRow>, k: Cell): seq<DescOffer>
    decreases |rows|
  {
    if rows == [] then [] else RunOffers(rows[..|rows| - 1], k) + RowOffers(rows[|rows| - 1], k)
  }

  /** The first non-empty description a source or ingredient mention offers. */
  function FirstFilled(os: seq<DescOffer>): (d: Option<Cell>)
    ensures d.Some? ==> Truthy(d.value)
  {
    if os == [] then None
    else if !os[0].byRoot && Truthy(os[0].desc) then Some(os[0].desc)
    else FirstFilled(os[1..])
  }

  /** The creating description when it is non-empty, otherwise the first non-empty one a later
      source or ingredient mention offers, otherwise the (empty) creating one. */
  function Backfilled(os: seq<DescOffer>): Cell
    requires os != []
  {
    if Truthy(os[0].desc) then os[0].desc
    else match FirstFilled(os[1..]) case Some(d) => d case None => os[0].desc
  }

  lemma {:induction false} FirstFilledSnoc(os: seq<DescOffer>, o: DescOffer)
    ensures FirstFilled(os + [o]) ==
      if FirstFilled(os).Some? then FirstFilled(os)
      else if !o.byRoot && Truthy(o.desc) then Some(o.desc) else None
    decreases |os|
  {
    if os == [] {
      assert [o][1..] == [];
    } else {
      assert (os + [o])[1..] == os[1..] + [o];
      FirstFilledSnoc(os[1..], o);
    }
  }

  /** One more offer: a root offer to an existing node changes nothing; another offer fills an
      empty description with a non-empty one. */
  lemma BackfilledSnoc(os: seq<DescOffer>, o: DescOffer)
    requires os != []
    ensures Backfilled(os + [o]) ==
      if !o.byRoot && !Truthy(Backfilled(os)) && Truthy(o.desc) then o.desc else Backfilled(os)
  {
    assert (os + [o])[0] == os[0];
    assert (os + [o])[1..] == os[1..] + [o];
    FirstFilledSnoc(os[1..], o);
  }

  /** A node is in a table exactly when some offer was made to it, and then its description is
      the backfilled one. */
  ghost predicate DescribedBy(t: NodeTable, k: Cell, os: seq<DescOffer>)
  {
    (k in t.info <==> os != []) && (os != [] ==> t.info[k].description == Backfilled(os))
  }

  /** The first offer creates the description. */
  lemma BackfilledSingle(o: DescOffer)
    ensures Backfilled([o]) == o.desc
  {
    assert [o][1..] == [];
  }

  /** The root branch of one row keeps DescribedBy. */
  lemma RootStepDescribed(t: NodeTable, r: ChartRow, k: Cell, os: seq<DescOffer>)
    requires DescribedBy(t, k, os)
    ensures DescribedBy(RootStep(t, r), k, os + (if r.root == k then [DescOffer(r.rootDesc, true)] else []))
  {
    var o := DescOffer(r.rootDesc, true);
    if r.root != k {
      assert os + [] == os;
    } else if os == [] {
      assert os + [o] == [o];
      BackfilledSingle(o);
    } else {
      BackfilledSnoc(os, o);
    }
  }

  /** A product or ingredient branch keeps DescribedBy. */
  lemma OfferDescribed(t: NodeTable, k0: Cell, desc: Cell, lvl: int, kind: NodeKind, k: Cell, os: seq<DescOffer>)
    requires DescribedBy(t, k, os)
    ensures DescribedBy(Offer(SecondApp, t, k0, desc, lvl, kind), k, os + (if k0 == k then [DescOffer(desc, false)] else []))
  {
    var o := DescOffer(desc, false);
    var t' := Offer(SecondApp, t, k0, desc, lvl, kind);
    if k0 != k {
      assert os + [] == os;
      assert k in t.info ==> t'.info[k] == t.info[k];
    } else if os == [] {
      assert os + [o] == [o];
      BackfilledSingle(o);
    } else {
      BackfilledSnoc(os, o);
      var n := t.info[k];
      assert t'.info[k] == Merged(SecondApp, n, desc, lvl);
      assert t'.info[k].description == if !Truthy(n.description) && Truthy(desc) then desc else n.description;
    }
  }

  lemma RowKeepsDescribed(t: NodeTable, r: ChartRow, l: int, k: Cell, os: seq<DescOffer>)
    requires DescribedBy(t, k, os)
    ensures DescribedBy(AddRow(SecondApp, t, r, l), k, os + RowOffers(r, k))
  {
    var t1 := RootStep(t, r);
    var t2 := Offer(SecondApp, t1, r.source, r.sourceDesc, l, ProductKind);
    var o1 := if r.root == k then [DescOffer(r.rootDesc, true)] else [];
    var o2 := if r.source == k then [DescOffer(r.sourceDesc, false)] else [];
    var o3 := if r.ingredient == k then [DescOffer(r.ingredientDesc, false)] else [];
    RootStepDescribed(t, r, k, os);
    OfferDescribed(t1, r.source, r.sourceDesc, l, ProductKind, k, os + o1);
    OfferDescribed(t2, r.ingredient, r.ingredientDesc, l + 1, IngredientKind, k, os + o1 + o2);
    assert os + RowOffers(r, k) == os + o1 + o2 + o3;
  }

  /** app2.py's whole row loop: a node's final description is the backfilled one of every
      offer the run made to it. */
  lemma {:induction false} FinalDescription(rows: seq<ChartRow>, k: Cell)
    requires Collect(SecondApp, rows).Success?
    ensures k in Collect(SecondApp, rows).value.table.info <==> RunOffers(rows, k) != []
    ensures k in Collect(SecondApp, rows).value.table.info ==>
      Collect(SecondApp, rows).value.table.info[k].description == Backfilled(RunOffers(rows, k))
    decreases |rows|
  {
    if rows != [] {
      var pre, r := rows[..|rows| - 1], rows[|rows| - 1];
      CollectLast(SecondApp, rows);
      FinalDescription(pre, k);
      RowKeepsDescribed(Collect(SecondApp, pre).value.table, r, RowLevel(SecondApp, r).value, k, RunOffers(pre, k));
    }
  }

  /** A run that never mentions `k` offers it nothing. */
  lemma {:induction false} NoMentionNoOffers(rows: seq<ChartRow>, k: Cell)
    requires forall i :: 0 <= i < |rows| ==> !Mentions(rows[i], k)
    ensures RunOffers(rows, k) == []
    decreases |rows|
  {
    if rows != [] {
      var pre := rows[..|rows| - 1];
      assert forall i :: 0 <= i < |pre| ==> pre[i] == rows[i];
      NoMentionNoOffers(pre, k);
    }
  }

  /** The first offer is the creating description: that of the first row mentioning `k`, from
      its first branch naming `k`. */
  lemma {:induction false} FirstOfferCreates(rows: seq<ChartRow>, k: Cell, j: nat)
    requires j < |rows| && Mentions(rows[j], k)
    requires forall i :: 0 <= i < j ==> !Mentions(rows[i], k)
    ensures RunOffers(rows, k) != [] && RunOffers(rows, k)[0].desc == CreatedDescription(rows[j], k)
    decreases |rows|
  {
    var pre, r := rows[..|rows| - 1], rows[|rows| - 1];
    if j < |pre| {
      assert pre[j] == rows[j];
      assert forall i :: 0 <= i < j ==> pre[i] == rows[i];
      FirstOfferCreates(pre, k, j);
    } else {
      assert forall i :: 0 <= i < |pre| ==> pre[i] == rows[i];
      NoMentionNoOffers(pre, k);
    }
  }

  /** app2.py's final description from the first row `j` mentioning `k`: what that row's first
      branch naming `k` wrote when it is non-empty (a root, product or ingredient description);
      otherwise the first non-empty description a later source or ingredient mention offered;
      otherwise the empty creating one. */
  lemma SecondAppDescription(rows: seq<ChartRow>, k: Cell, j: nat)
    requires Collect(SecondApp, rows).Success?
    requires j < |rows| && Mentions(rows[j], k)
    requires forall i :: 0 <= i < j ==> !Mentions(rows[i], k)
    ensures k in Collect(SecondApp, rows).value.table.info && RunOffers(rows, k) != []
    ensures var d, created := Collect(SecondApp, rows).value.table.info[k].description, CreatedDescription(rows[j], k);
      (Truthy(created) ==> d == created)
      && (!Truthy(created) ==>
            d == match FirstFilled(RunOffers(rows, k)[1..]) case Some(x) => x case None => created)
  {
    FinalDescription(rows, k);
    FirstOfferCreates(rows, k, j);
  }
}
