# Genealogy dashboard: a verified model of its lineage engine and callbacks

This project models the core of a manufacturing genealogy and traceability dashboard in Dafny.
The dashboard answers two questions about a material lot:

- **genealogy**: what went into it;
- **traceability**: what it went into.

It draws the answer as a grid and as a tree. The model has three parts.

**The lineage engine (`Lineage.py`)** is modelled by these modules:

- `LineageModel` and `LineageClosure`: the seed resolution of `func_Source` and `func_Target`, and
  the two depth-capped recursive closures of `func_trc_PrBID` and `func_gen_PrBID`.
  - Traceability walks from a consumed batch up to the batches that consumed it.
  - Genealogy walks from a produced batch down to what it consumed.
  - Each recursive CTE is the union of its working tables, level by level, up to the first
    empty one. The lemmas prove the level bounds, that root context is carried along every path,
    and closure under the recursive member.
- `LineageQuery`: the result views `vw_Trc_Results` and `vw_Gen_Results`, and everything
  `get_lineage` does after the refresh:
  - the level-1 collapse, `sortorder` and `'NA'`;
  - the target filter and the ItemMaster enrichment;
  - the three output-column branches (default, `exclude`, a select list with `CntRecs`);
  - its two `ValueError`s.
  - It also models `get_item_codes`.
  - Multiplicities are exact: a grouped output's `CntRecs` is the number of source rows behind
    the group, given at most one ItemMaster row per item code (see "## Left out").
- `LineageWorkspace`: the DuckDB session as a class.
  - Its fields are the temp tables, which `func_Source`, `func_Target` and the closure builders
    overwrite.
  - Each closure builder is a bounded loop over the working tables, proved equal to the closure.

**The tree builder `csv_to_hierarchy_by_level`** is modelled in `Hierarchy`. One definition
covers both dashboards, parameterised by `Variant`:

- `app.py` reads `level` and fails on a non-integer.
- `app2.py` reads `int(Level)` with a fallback of 0 and backfills empty descriptions.
  `HierarchyDescription` follows the descriptions a node is offered over the whole run and
  proves which one it ends with.

The lemmas prove:

- min-level updates: a product enters at its row's level, an ingredient one below, a root at 0;
- first-write-wins names, kinds and descriptions;
- one relationship per row, in order;
- the root choice, including the virtual "Manufacturing Process" root;
- that `build_tree_node` never repeats an id on a root-to-node path.

**The callbacks** are modelled in `Grid`, `TreeChart`, `Dashboard` and `Dashboard2`:

- the request built from the dropdowns, including the `", ".join(...)` of several selected codes,
  which the engine then matches as one whole string;
- the mapping of result rows to grid rows;
- the unit-operation and product-code filters, and the removal of the helper keys;
- the dropdown options;
- the checklist and radio direction mapping;
- the prefix filter and renaming in `update_tree_chart`;
- `clear_filters` of the second dashboard.

Inputs the model cannot see are parameters:

- the database views (`vw_MatTxnsWithItemCodes`, `vw_trc_PIBID`, `vw_Gen_PIBID`, `ItemMaster`,
  `vw_ListOfTypes`) are the `Database` value;
- the frame that `get_lineage` hands back to a callback is an `Answer`;
- the result of `get_item_to_product_mapping`, which is not part of this model, is a parameter
  of the second dashboard's `update_table`.

Genealogy seeds follow the code (`Lineage.py:527-554`): they match a Product transaction's lot,
parent lot or item code, and never the supplier lot.

## Model

| member | source | states |
|---|---|---|
| Common.PyStr | app.py:563 | `str(value)` of a scalar selection: the text itself, "None" for a missing value, and for an integer a text that `int()` reads back as it, with a leading '-' exactly when it is negative |
| Common.ParseIntOfIntToString | app2.py:23-26 | `int()` applied to the decimal text of any integer gives that integer back |
| Common.ParseInt | app2.py:24 | `int()` of a text succeeds iff it is decimal digits with at most one leading sign; the value is negative only after a '-' |
| Common.Truthy | app.py:33 | a cell is false exactly when it is None, the empty text or 0 |
| Common.Get | app.py:22-28 | `row.get(key, default)` is the row's value when the key is present and the default otherwise |
| Text.Join | app.py:563 | `", ".join` of no codes is empty and of one code is that code |
| Text.JoinLongerThanParts | app.py:563 | joining two or more codes gives a text longer than any one of them |
| Text.SortBy | app.py:420 | `sorted(..., key=label)` gives a sequence ordered by its key that is a permutation of its input |
| Text.FilterKeepsOrder | app2.py:757-762 | a list comprehension with a condition keeps the kept elements in their original order, each as often as in the input |
| LineageModel.TraceSeeds | Lineage.py:485-521 | a traceability seed (the same query serves as the target, Lineage.py:566-602) exists iff an Ingredient transaction's lot, parent lot, item code or supplier lot equals the whole input text; the seed carries that transaction's item code and lot |
| LineageModel.GenSeeds | Lineage.py:527-554 | a genealogy seed exists iff a Product transaction's lot, parent lot or item code equals the whole input text; it carries that transaction's batch, and no seed comes from a supplier lot |
| LineageModel.TrcPrBid | Lineage.py:179-187 | every row of vw_Trc_PrBID carries the lot and item code of some traceability seed and the batch, supplier lot and parent lot of an Ingredient `vw_trc_PIBID` edge on that lot and item; conversely every seed and matching Ingredient edge give a row |
| LineageModel.MaxLevel | Lineage.py:253 | the highest level a closure row can reach is at least 1 (the anchor) and at least the cap, and is one of the two |
| LineageModel.TrcAnchor | Lineage.py:211-232 | every anchor row is at level 1 with no ingredient batch and the NANCHOR item and lot, rooted at a vw_Trc_PrBID row with its batch, and every vw_Trc_PrBID row gives one |
| LineageModel.TrcClosure | Lineage.py:203-253 | tmp_Trc_Results_bid holds every anchor row, and with a cap of 1 or less it holds nothing else |
| LineageModel.GenAnchor | Lineage.py:360-370 | every anchor row is an edge out of a seed batch at level 1 rooted at that batch with the seed's node type, and every such edge gives one |
| LineageModel.GenClosure | Lineage.py:351-385 | tmp_Gen_Results_bid holds every anchor row, and with a cap of 1 or less it holds nothing else |
| LineageClosure.TrcFrontierLevel | Lineage.py:242 | every row of the k-th working table of the traceability CTE has level k + 1 |
| LineageClosure.TrcFrontierBounded | Lineage.py:253 | a working table can be non-empty only below the largest reachable level |
| LineageClosure.TrcFrontierStaysEmpty | Lineage.py:237-253 | once a working table is empty every later one is empty |
| LineageClosure.TrcUpToStable | Lineage.py:237-253 | after the first empty working table the accumulated result no longer changes |
| LineageClosure.TrcUpToMembership | Lineage.py:213-255 | a row is in the union of the first n working tables iff it is in one of them |
| LineageClosure.TrcClosureLevels | Lineage.py:222 | every row of tmp_Trc_Results_bid has level at least 1 and at most max(1, cap) |
| LineageClosure.TrcClosureRoot | Lineage.py:243-248 | every traceability row's Parent, ParentItemCode, SLNADJ and ParentPLN are those of a row of vw_Trc_PrBID |
| LineageClosure.TrcClosureLevelOne | Lineage.py:213-232 | the level-1 rows are exactly the anchor rows |
| LineageClosure.TrcClosureDerived | Lineage.py:237-253 | every deeper row comes from a closure row one level up, through an edge whose ingredient batch is that row's product batch, and has the same root context |
| LineageClosure.TrcClosureClosed | Lineage.py:249-253 | a closure row below the cap joined to a matching edge gives a row that is in the closure too |
| LineageClosure.TrcClosureEmpty | Lineage.py:229 | without rows in vw_Trc_PrBID the closure is empty |
| LineageClosure.GenFrontierLevel | Lineage.py:378 | every row of the k-th working table of the genealogy CTE has level k + 1 |
| LineageClosure.GenFrontierBounded | Lineage.py:385 | a genealogy working table can be non-empty only below the largest reachable level |
| LineageClosure.GenFrontierStaysEmpty | Lineage.py:375-385 | once a genealogy working table is empty every later one is empty |
| LineageClosure.GenUpToStable | Lineage.py:375-385 | after the first empty working table the accumulated genealogy result no longer changes |
| LineageClosure.GenUpToMembership | Lineage.py:360-388 | a row is in the union of the first n genealogy working tables iff it is in one of them |
| LineageClosure.GenClosureLevels | Lineage.py:366 | every row of tmp_Gen_Results_bid has level at least 1 and at most max(1, cap) |
| LineageClosure.GenClosureRoot | Lineage.py:379-380 | every genealogy row's Parent is a seed batch and its NodeType is that seed's |
| LineageClosure.GenClosureLevelOne | Lineage.py:363-370 | the level-1 genealogy rows are exactly the edges out of seed batches |
| LineageClosure.GenClosureDerived | Lineage.py:375-385 | every deeper genealogy row comes from a closure row one level up whose ingredient batch is its product batch, with the same root context |
| LineageClosure.GenClosureClosed | Lineage.py:381-385 | a genealogy row below the cap joined to an edge out of its ingredient batch gives a row in the closure |
| LineageClosure.GenClosureEmpty | Lineage.py:370 | without genealogy seeds the closure is empty |
| LineageQuery.QueryLevel | Lineage.py:64-69 | the cap is 99 for -99 or None, and the level as given otherwise |
| LineageQuery.ProductRowsOf | Lineage.py:324-325 | the LEFT OUTER JOIN yields the Product rows of the batch, or a single NULL row when there are none |
| LineageQuery.WithoutSupplierLot | Lineage.py:309-314 | the consuming batch's row keeps its lot, item code and parent lot (its supplier lot is not selected) |
| LineageQuery.TrcResults | Lineage.py:285-327 | every vw_Trc_Results row carries a closure row's root and level, and its product and ingredient rows, when present, are Product rows of that row's consuming and consumed batches |
| LineageQuery.GenBids | Lineage.py:418-434 | every genealogy `bid` row comes from a closure row with its batch, level and seed batch, and its root lot is a genealogy seed lot |
| LineageQuery.GenResults | Lineage.py:435-472 | a genealogy result row is a view `bid` row joined to a Product row and an Ingredient row of its product batch, kept at level 1 only when the root lot is the product's lot |
| LineageQuery.Reshape | Lineage.py:85-121 | traceability rows at level 1 show the root's item code, lot, supplier lot and parent lot as their ingredient; genealogy rows have root supplier lot 'NA'; sortorder is level for traceability and -level for genealogy |
| LineageQuery.Selected | Lineage.py:74-121 | a traceability row is selected iff traceability was asked for and, with end nodes, its product lot is a target lot; a genealogy row likewise with its ingredient lot |
| LineageQuery.TargetLots | Lineage.py:76-77 | the target lots are exactly the lots of tmp_TraceTarget |
| LineageQuery.Kept | Lineage.py:74-81 | without end nodes every row passes; with them no row passes an empty target, nor a traceability row without a product row |
| LineageQuery.LookupItem | Lineage.py:142-144 | a LEFT JOIN to ItemMaster finds an item iff a code is present and listed |
| LineageQuery.Enrich | Lineage.py:134-145 | enrichment keeps the reshaped row and adds the ItemMaster entry of its root, product and ingredient item codes, each found by its own LEFT JOIN (none when the code is missing or unlisted) |
| LineageQuery.OutputColsBranch | Lineage.py:148-159 | the default branch is taken for "default" or None; the exclude branch for any other text whose lower-case form contains "exclude"; otherwise the select-list branch |
| LineageQuery.Without | Lineage.py:150-154 | an `exclude` list keeps exactly the columns not excluded |
| LineageQuery.Project | Lineage.py:156-158 | a select-list group key holds each listed column's value, in list order |
| LineageQuery.Tabulate | Lineage.py:147-159 | the default output is the bag of enriched rows, each counted by the number of source rows behind it; a grouped output has one group per distinct key, with CntRecs the number of source rows with that key |
| LineageQuery.RowCounts | Lineage.py:148-149 | each output row's multiplicity is the number of distinct source rows that enrich to it, and at least 1 |
| LineageQuery.GroupCounts | Lineage.py:150-159 | each group's count is the number of distinct source rows with its key, and at least 1 |
| LineageQuery.Query | Lineage.py:123-171 | "No query to execute" is raised iff neither direction is asked for; "Invalid output type" iff one is but the output type is neither polars nor duckdb; otherwise the table of the selected rows, as a frame iff polars |
| LineageQuery.NoRowsEmptyTable | Lineage.py:147-159 | no source rows give an empty table in every branch |
| LineageQuery.AfterSource | Lineage.py:479-558 | func_Source rewrites the traceability seed, vw_Trc_PrBID and closure tables iff traceability is asked for, and the genealogy seed and closure tables iff genealogy is; the others and the target are unchanged |
| LineageQuery.AfterTarget | Lineage.py:74-75 | with end nodes the target table becomes their traceability seeds; nothing else changes |
| LineageQuery.RefreshedClosures | Lineage.py:64-80 | after the refresh each asked-for direction's tables hold the seeds of the start nodes and their closure at the normalised cap |
| LineageQuery.Refreshed | Lineage.py:64-75 | the target table is refreshed iff end nodes are given, and a direction the call does not ask for keeps its tables |
| LineageQuery.TrcResultOrigin | Lineage.py:285-300 | every traceability result row carries the level, root lot and root item code of a closure row |
| LineageQuery.GenResultOrigin | Lineage.py:418-434 | every genealogy result row comes from a closure row with its level and parent batch, and its root lot is a seed lot |
| LineageQuery.OutputLevelsBounded | Lineage.py:64-121 | every row get_lineage returns has level between 1 and max(1, normalised cap) |
| LineageQuery.OutputRootedAtSeeds | Lineage.py:213-253 | every traceability row's root lot and item code are a seed's; every genealogy row's parent batch and root lot are a seed's |
| LineageQuery.NoSeedsNoRows | Lineage.py:479-558 | when the start nodes match no transaction, no row is selected and any produced table is empty |
| LineageQuery.FirstDashPart | Lineage.py:26 | split_part(code, '-', 1) is the longest dash-free prefix of the code |
| LineageQuery.ItemCodeOption | Lineage.py:32-43 | the option's value is the code; its label ends with the code and is the bare code iff ItemMaster has no product code for the code's first dash part |
| LineageQuery.ItemCodeOptionsMembers | Lineage.py:23-43 | an option is listed iff it is the option of a non-null listed code matching the search |
| LineageQuery.ItemCodeOptions | Lineage.py:23-43 | at most one option per listed type; which ones is stated by ItemCodeOptionsMembers |
| LineageQuery.GetItemCodes | Lineage.py:22-46 | every returned option is a listed code that contains the search text case-insensitively, and every such code's option is returned |
| LineageWorkspace.Session.TrcPrBidRefresh | Lineage.py:176-257 | the loop over working tables leaves exactly the traceability closure of the rebuilt vw_Trc_PrBID in tmp_Trc_Results_bid and changes no other table |
| LineageWorkspace.Session.GenPrBidRefresh | Lineage.py:347-390 | the loop leaves exactly the genealogy closure of tmp_GenForLots in tmp_Gen_Results_bid and changes no other table |
| LineageWorkspace.Session.Source | Lineage.py:479-558 | the session's tables afterwards are those AfterSource describes |
| LineageWorkspace.Session.Target | Lineage.py:561-605 | only tmp_TraceTarget changes, to the target seeds |
| LineageWorkspace.Session.GetLineage | Lineage.py:49-171 | the refresh happens first (also when a ValueError follows), then the result is the query over the refreshed tables |
| Hierarchy.ReadRows | app.py:20-29 | one chart row is read per frame row, in order |
| Hierarchy.ReadRow | app.py:20-28 | root, source and ingredient are read by indexing, every other column through `get` with "" (0 for the levels) when it is missing |
| Hierarchy.IntOrZero | app2.py:23-26 | `int(...)` of an integer or integer text gives its value; anything else falls back to 0 |
| Hierarchy.RowLevel | app.py:25 | the first builder's level is usable iff it is an integer; the second builder's is always the int-or-zero of `Level` |
| Hierarchy.Merged | app2.py:47-49 | a revisit keeps name and kind, lowers the level to the minimum and, in the second builder only, fills an empty description from a non-empty one |
| Hierarchy.RootStep | app.py:30-37 | a new root enters at the end of node_info at level 0, named by its root item code when that is truthy; an existing entry is left alone and no other entry changes |
| Hierarchy.Offer | app.py:39-59 | a new product or ingredient enters at the end of node_info with the offered level; an existing one is merged in place; no other entry changes |
| Hierarchy.AddRow | app.py:30-59 | a row adds exactly its root, product and ingredient cells to the table and only appends to the insertion order |
| Hierarchy.AddRowSteps | app.py:31-59 | one row adds the root at level 0, then the product at the row's level, then the ingredient at level + 1, each new or merged as stated |
| Hierarchy.AddRowKeys | app.py:31-59 | after a row the node table holds exactly the old nodes and the row's root, product and ingredient |
| Hierarchy.AddRowValid | app.py:31-59 | adding a row keeps every node in the table's insertion order exactly once |
| Hierarchy.Collect | app.py:20-61 | the row loop fails iff some row has an unusable level, and otherwise gives one relationship per row |
| Hierarchy.CollectValid | app.py:20-61 | the collected node table is consistent with its insertion order, which has no duplicates |
| Hierarchy.CollectKeys | app.py:31-57 | a node is in the table iff some row mentions it as root, product or ingredient |
| Hierarchy.CollectRels | app.py:61 | the j-th relationship is (product, ingredient, level) of the j-th row |
| Hierarchy.CollectFailsIffLevelNotInt | app.py:55 | the builder fails iff it is the first dashboard's and some row's level is not an integer |
| Hierarchy.RootLevelAtMostZero | app.py:31-37 | a root node's level never exceeds 0 |
| Hierarchy.LevelAtMostOffers | app.py:44-59 | a node's level is at most the level of every row naming it as product, and at most level + 1 of every row naming it as ingredient |
| Hierarchy.LevelIsOffered | app.py:40-59 | a node's level is 0 for a root, or the level some row offered it |
| Hierarchy.FirstWriteWins | app.py:31-57 | a node's name and kind, and in the first builder its description, are those of the first row that mentions it |
| Hierarchy.EmptyDescriptionMeansNoneOffered | app2.py:46-61 | in the second builder a node's description stays empty only if every source and ingredient mention of it offered an empty one |
| HierarchyDescription.FinalDescription | app2.py:31-61 | in the second builder a node is in node_info iff some row mentions it, and its description is the creating description when non-empty, otherwise the first non-empty description a later source or ingredient mention backfills; later root mentions never change it |
| HierarchyDescription.BackfilledSnoc | app2.py:47-49 | one more offer changes the description only when the node's description is still empty, the offer is not a root mention and the offered text is non-empty |
| HierarchyDescription.FirstOfferCreates | app2.py:31-56 | the first offer a node receives is the description written by the first row that mentions it, through that row's first branch naming it |
| HierarchyDescription.SecondAppDescription | app2.py:31-61 | from the first row mentioning a node: a non-empty creating description (root, product or ingredient) is final; an empty one is replaced by the first non-empty later source or ingredient description, if any |
| Hierarchy.Candidates | app.py:64-65 | the root candidates are the nodes that are never a child or are of type root, in insertion order |
| Hierarchy.LevelZeroEdgesMembers | app.py:77-79 | the virtual root gets an edge to exactly the level-0 nodes |
| Hierarchy.LevelZeroEdgesInOrder | app.py:77-79 | the virtual root's edges go to the level-0 nodes in node_info order, one each |
| Hierarchy.ChooseRoot | app.py:64-79 | a single candidate becomes the root; otherwise the virtual "Manufacturing Process" root is added and after the row relationships come its edges to the level-0 nodes, one per node in node_info order |
| Hierarchy.RowsGiveCandidate | app.py:64-65 | a non-empty frame always has at least one root candidate |
| Hierarchy.ChildrenOf | app.py:83-86 | a node's children are exactly the children of its relationships |
| Hierarchy.NoParentNoChildren | app.py:105 | a node that is no relationship's parent has no children |
| Hierarchy.ParentToChildren | app.py:82-86 | parent_to_children has a key exactly for each parent of a relationship |
| Hierarchy.KidsAreChildrenOf | app.py:82-86 | the list under a parent is its children in relationship order |
| Hierarchy.BuildParentToChildren | app.py:82-86 | the loop builds parent_to_children |
| Hierarchy.ParentToChildrenSnoc | app.py:83-86 | each relationship appends its child to its parent's list |
| Hierarchy.BuildTreeNode | app.py:89-111 | a node already visited gives None; otherwise a node with its table data whose subtree repeats no id of the path and whose children, at every depth, are its unvisited children in relationship order |
| Hierarchy.BuildChildren | app.py:105-109 | the children built are the unvisited ones in order, each carrying a fresh copy of the path and expanded the same way at every depth below |
| Hierarchy.RelsInTable | app.py:61 | every relationship's endpoints are nodes of the table |
| Hierarchy.CollectWellFormed | app.py:20-61 | the collected table and relationships are well formed |
| Hierarchy.RootedChildrenKnown | app.py:64-86 | after the root choice every parent and child is a node of the table |
| Hierarchy.NodeOf | app2.py:95-103 | a tree node copies its table entry; in the second builder its value is the description when truthy and the name otherwise, and the first builder has none |
| Hierarchy.TreeOf | app.py:113 | the tree starts at the chosen root, repeats no id on any path, describes every node from the table, and every node's children are its relationship children not yet on its path, in order |
| Hierarchy.HierarchyOf | app.py:13-113 | the builder fails iff it is the first dashboard's and a level is not an integer; otherwise the tree from the chosen root |
| Hierarchy.SecondAppWithoutLevelColumn | app2.py:23-26 | when no row has `Level`, every node is at level 0 or 1, and at 1 exactly when it is a non-root node that is never a product |
| Hierarchy.CollectRows | app.py:20-61 | the row loop computes Collect |
| Hierarchy.ChooseRootNode | app.py:64-79 | the root-choice code computes ChooseRoot |
| Hierarchy.AppendLevelZeroEdges | app.py:77-79 | the loop appends one virtual-root edge per level-0 node, in insertion order |
| Hierarchy.CsvToHierarchy | app.py:13-113 | csv_to_hierarchy_by_level computes HierarchyOf on the frame's rows |
| Grid.StartNodes | app.py:562-563 | one selected code is sent as itself; a scalar selection as its `str` |
| Grid.JoinedSelectionIsOneText | app.py:563 | several selected codes are sent as one text equal to none of them |
| Grid.RequestFor | app.py:566-580 | the request has no end nodes, output type polars, cap 99, and the dashboard's select list |
| Grid.NamedCellsAt | Lineage.py:156-158 | a frame row holds each selected column's value under its alias |
| Grid.GroupRow | Lineage.py:157 | a grouped frame row carries the group's count under CntRecs |
| Grid.QueryGroupsProjected | Lineage.py:155-158 | every group of a select-list output is the projection of some output row |
| Grid.FrameCell | Lineage.py:156-158 | every frame row holds each aliased column at a value some output row has |
| Grid.FrameLevel | Lineage.py:156-158 | a frame row's cell for the level column is an integer |
| Grid.GroupCell | Lineage.py:156-158 | a group row holds each listed column under its own name |
| Grid.UnitOpFiltered | app.py:607-612 | with no unit operations all rows stay; otherwise exactly the rows whose product or ingredient item code is selected, in their original order and each as often as in the input |
| Grid.CodeOf | app.py:399 | a code is present iff its cell is not null |
| Grid.SortedValues | app.py:420 | sorting the options keeps exactly their codes |
| Grid.SortedValuesDistinct | app.py:420 | sorting options with distinct codes keeps the codes distinct |
| Grid.DashboardLevelName | app2.py:708-714 | the dashboards' select list names the level `Level`, in eighth place and nowhere before; app2.py aliases it so and app.py's unaliased `level` keeps the spelling of its definition `1 as Level` |
| Grid.GridRow | app.py:593-605 | a grid row has exactly the eleven grid columns; each column holds the frame's value under its source name (ParentItemCode from root_itemcode, ParentName from ParentDescription, ParentPN from root_parentlot, ProductPN from startnode, IngredientPN from endnode, and so on), or '' (0 for CntRecs, the caller's default for Level) when the frame lacks it |
| TreeChart.Prep | app.py:439-448 | the renamed row has the builder's columns and carries the stored Level as `level` |
| TreeChart.HiddenPN | app.py:435-436 | a lot is hidden exactly when it is text starting with Z, B or M in either case; a missing lot never is |
| TreeChart.ChartRows | app.py:434-448 | the hierarchy frame is the stored rows that pass the lot and presence filters, in order, each renamed; every row has the builder's columns and `level` but no `Level` |
| TreeChart.ChartRowsMembers | app.py:434-448 | a row is in the hierarchy frame iff it renames a stored row whose product and ingredient lots do not start with Z, B or M (case-insensitively) and whose root, source and ingredient are present |
| TreeChart.PrepOrigin | app.py:439-448 | each hierarchy-frame row renames a stored row |
| TreeChart.ChartOf | app.py:428-457 | no chart iff nothing survives the filters; an exception iff first dashboard and a non-integer level; otherwise the builder's tree |
| TreeChart.UpdateTreeChart | app.py:428-457 | update_tree_chart computes ChartOf |
| TreeChart.IntegerLevelsDrawn | app.py:454 | stored rows with integer Levels give a tree iff a row survives the filters |
| TreeChart.SecondAppChartLevels | app2.py:508 | the second dashboard's chart never fails, and every product node is at level 0 and every ingredient-only node at level 1 |
| Dashboard.GenOrTrc | app.py:566 | the direction is the radio value, or "all" when it is empty |
| Dashboard.RadioDirection | app.py:566 | Genealogy runs only genealogy, Traceability only traceability, and no choice runs both |
| Dashboard.RequestOf | app.py:570-580 | update_table's call sends the selection, the direction and app.py's select list |
| Dashboard.GridRows | app.py:591-605 | one grid row per frame row, in order, with blank text as the default Level |
| Dashboard.MapFrame | app.py:591-605 | the loop fills mapped_data with GridRows |
| Dashboard.TableUpdateOf | app.py:554-621 | nothing without a click, a selection or a frame; otherwise every frame row goes to the store and the unit-operation matches go to the grid, which is then a subset of the store |
| Dashboard.UpdateTable | app.py:554-621 | update_table computes TableUpdateOf |
| Dashboard.LevelDrawn | app.py:576-597 | for a select-list request every stored Level is the query's integer level, and the first dashboard's chart is drawn iff a stored row survives the chart filters |
| Dashboard.GridLevels | app.py:597 | every stored row's Level is an integer |
| Dashboard.DashboardFrameLevel | app.py:576 | every frame row has an integer `Level` |
| Dashboard.FirstNames | app.py:398-410 | the code-to-name dict has each code once, keyed exactly by its codes |
| Dashboard.FirstNamesKeys | app.py:399-403 | a code is in the dict iff some row has it as a non-null code |
| Dashboard.NameOf | app.py:401-408 | a missing name reads "Unknown", a text name is itself and an integer name is its decimal text |
| Dashboard.FirstNameWins | app.py:402-403 | a code's name comes from the first row with that code |
| Dashboard.Entries | app.py:413-418 | the options are the codes not skipped, each labelled "code-name" |
| Dashboard.EntriesValues | app.py:414-418 | product options plus ingredient options that are not products name every code once |
| Dashboard.EntriesLabel | app.py:415 | an option's label is its code, a dash and its product name, or its ingredient name when it is not a product |
| Dashboard.UnitOperationOptions | app.py:390-420 | empty data gives no options; otherwise the options are ordered by label |
| Dashboard.OptionValues | app.py:390-420 | each product or ingredient item code of the store gets exactly one option and no other code does |
| Dashboard.OptionLabels | app.py:399-418 | each label is the code and the first name recorded for it, the product's when it is a product |
| Dashboard.UpdateUnitOperationOptions | app.py:390-420 | the callback computes UnitOperationOptions |
| Dashboard.UnsortedOptions | app.py:412-418 | the two option loops compute the unsorted options |
| Dashboard.CollectNames | app.py:399-410 | each name loop computes FirstNames |
| Dashboard.AppendEntries | app.py:414-418 | the options loop appends exactly Entries |
| Dashboard2.LookupChecklist | app2.py:649-660 | "gen" is checked iff the lookup is making or link, "trc" iff it is link or consumed; nothing else is ever checked, or checked twice |
| Dashboard2.GenOrTrcOf | app2.py:690-698 | an empty checklist means "all", and the direction is one of all, gen or trc; it is undefined exactly when a non-empty list of other than two boxes holds neither "gen" nor "trc" |
| Dashboard2.ChecklistDirection | app2.py:690-698 | with real boxes genealogy runs iff "gen" is checked or none is, and traceability likewise with "trc" |
| Dashboard2.LookupDirection | app2.py:649-698 | making runs genealogy, consumed runs traceability, and every other lookup runs both |
| Dashboard2.RequestOf2 | app2.py:686-715 | no request iff the direction is undefined; otherwise the selection, the direction and app2.py's select list |
| Dashboard2.CoerceLevel | app2.py:723 | the coerced Level is always an integer: an integer stays, missing or non-numeric text becomes 0 |
| Dashboard2.CoerceLevelText | app2.py:723 | the decimal text of an integer coerces to that integer |
| Dashboard2.Coerced | app2.py:723 | coercion adds or replaces only the Level column |
| Dashboard2.ItemToProduct | app2.py:727-733 | without any item code the mapping is empty; otherwise it is the external mapping's answer |
| Dashboard2.ProductOf | app2.py:750-752 | `item_to_product.get(code, None)` |
| Dashboard2.HelperColumnsApart | app2.py:750-752 | the three helper keys are none of the grid columns |
| Dashboard2.HelperRows | app2.py:735-753 | one helper row per frame row, in order |
| Dashboard2.HelperRow | app2.py:737-752 | a helper row has exactly the grid's columns and the three product-code columns |
| Dashboard2.ProductMatch | app2.py:759-761 | a row without product-code columns matches only a missing product code |
| Dashboard2.ProductFiltered | app2.py:755-762 | with no product code all rows stay; otherwise exactly the rows with a matching product, ingredient or root product code, in their original order and each as often as in the input |
| Dashboard2.BothFilters | app2.py:755-768 | the product-code filter followed by the unit-operation filter is one filter on both tests over the helper rows |
| Dashboard2.Strip | app2.py:770-777 | removing the helper keys leaves exactly the other columns with their values |
| Dashboard2.StripAll | app2.py:770-777 | the pops apply to every row, in order |
| Dashboard2.TableUpdate2Of | app2.py:678-786 | nothing without a click, a selection, a direction, a frame, rows or a Level column |
| Dashboard2.StripHelperRow | app2.py:770-777 | a helper row with its helper keys removed is the grid row of the coerced frame row |
| Dashboard2.StripAdded | app2.py:770-777 | removing the helper keys undoes adding them |
| Dashboard2.HelperRowCodes | app2.py:750-752 | the helper keys hold the product codes of the row's product, ingredient and root item codes |
| Dashboard2.StoredRows | app2.py:735-779 | the store holds one grid row per frame row, with exactly the grid columns and an integer Level that keeps an integer frame Level |
| Dashboard2.ShownRows | app2.py:755-779 | a stored row is shown iff its helper row passes the product filter and then the unit-operation filter; the grid is the passing helper rows in frame order, each stripped of its helper keys |
| Dashboard2.FilteredStrips | app2.py:755-777 | filtering on both tests and then removing the helper keys shows exactly the stored rows whose helper rows pass both, and only those |
| Dashboard2.SecondAppGridLevels | app2.py:709 | every stored Level equals the query's Level for that row |
| Dashboard2.StoredLevels | app2.py:723-741 | every stored Level is the coerced frame Level |
| Dashboard2.AliasedLevelsKept | app2.py:723 | coercion leaves the query's integer levels unchanged |
| Dashboard2.StoredLevel | app2.py:741 | the i-th stored Level is the coerced i-th frame Level |
| Dashboard2.UpdateTable2 | app2.py:678-786 | update_table, with the in-place mapping and pops, computes TableUpdate2Of |
| Dashboard2.MapFrame2 | app2.py:735-753 | the loop fills mapped_data with helper rows |
| Dashboard2.PopHelpers | app2.py:770-777 | the pop loop removes the helper keys from every row |
| Dashboard2.StoredCodesMembers | app2.py:475-478 | the code list holds exactly the non-null product and ingredient item codes of the store |
| Dashboard2.CodeOptions | app2.py:480 | one option per code, in order, labelled with the code |
| Dashboard2.UnitOperationOptions2Spec | app2.py:469-482 | the options name exactly the store's codes, each once, labelled with itself, in strictly increasing order |
| Dashboard2.UnitOperationOptions2 | app2.py:469-482 | no stored data gives no options, and every option is labelled with its own value |
| Dashboard2.ClearFilters2 | app2.py:956-959 | with a click the product code, item codes, attribute and lookup become None and the unit operations, checklist, grid and both stores become empty; without one all nine outputs are left unchanged |
| Dashboard2.ClearThenSubmit | app2.py:956-959 | after a clear the selection is empty, so a submit shows nothing; the checklist and lookup are empty, so the direction reverts to all |

## Left out

- The Dash layout, style dictionaries, callback wiring, ECharts options and all client-side JavaScript. They hold no logic beyond display; the client-side grid filter also works on floating point.
- The DuckDB connection, `execute`, `.pl()`, `fetchall` and `to_pandas`: queries are modelled by their results. The polars and duckdb output forms differ only in a tag.
- SQL text construction and quoting: spliced input is modelled as whole-string equality, with no quoting or injection behaviour.
- ILIKE wildcards: `%` and `_` typed into the search text are not given their wildcard meaning.
- Case mapping is ASCII only, for `upper()`, `lower()` and ILIKE.
- The order of rows the database returns is not modelled; result tables are sets or bags. A frame lists the groups in some order without repeats.
- LineageQuery.GetItemCodes: states which options appear, not their order or how often a code listed twice appears, because the view's row order is not defined.
- Dashboard.UnitOperationOptions: proves order by label and a permutation of the options. It does not prove that options with equal labels keep their input order, as Python's stable sort does.
- `get_item_to_product_mapping` and `get_product_codes` are not part of this model. The first one's answer is a parameter; the second feeds only the product dropdown's options, which are left out.
- `update_item_codes_options`, `update_product_codes_options`, `enable_export_button`, the export callbacks and the first dashboard's `clear_filters` are not modelled. They forward a call, toggle a button or write files.
- The concurrency of callers sharing one session's temp tables: one sequential session is modelled.
- Logging by `print` is not modelled. The catch-all `except` is modelled only as "returns empty lists".
- Dashboard.TableUpdateOf: the third output, the empty filterModel `{}`, is not modelled since it is the same on every path.
- Dashboard2.TableUpdate2Of: it is the same, and its contract states only the empty cases. The contents are stated by StoredRows, ShownRows, StoredLevels and FilteredStrips.
- The in-place `pop` aliasing between the filtered and mapped lists is not modelled: both are shown stripped, which is what the aliasing produces.
- Cells are null, text or integer: floating-point values and NaN are not modelled (NaN is modelled as null).
- Dashboard2.CoerceLevel: `pd.to_numeric` of decimal-looking text such as "1.5" is not modelled. Only integer text is parsed; anything else becomes 0.
- Common.ParseInt / Hierarchy.IntOrZero: Python's `int()` also accepts surrounding whitespace, underscores between digits and non-ASCII Unicode decimal digits (such as '٣'); the model parses an optional sign ('+' or '-') and decimal digits only.
- A `KeyError` for a column missing from a whole frame is modelled only for update_table's `Level` coercion. The other frames always have their columns.
- The duplicate `COUNT(*) as CntRecs` inside the dashboards' select lists is not modelled. The frame is read as carrying the group count under `CntRecs`.
- Column names are matched case-insensitively, as DuckDB does: `ingredient_parentlot` is the view's `ingredient_ParentLot`.
- An unaliased column reference is taken to carry the spelling of the column's definition, as DuckDB names it: app.py's `level` comes back as `Level` (defined `1 as Level`), so its frame has the column update_table reads.
- Dashboard.LevelDrawn: takes as a hypothesis that the request's `outputcols` is read as a select list. app.py's text contains no `exclude`, but evaluating the 430-character literal is beyond what the verifier can do cheaply, so this is not proved about the literal.
- The transaction and edge views are assumed to hold no SQL NULL in the columns the model types as plain text: a transaction's item code, lot, parent lot, PLN, supplier lot, SLNADJ and labels, and an edge's item code, lot, SLNADJ and PLN. Only the consumed batch of an edge and the ItemMaster fields can be NULL. A NULL in one of the other columns would match nothing in the seed tests of `func_Source`/`func_Target` and the equality joins of the closures and result views (Lineage.py:182-185, 324-325, 430-432, 490-520), and a NULL parent lot would reach the chart as a null `ParentPN`, whose row app.py:448's `dropna` removes. The model does not capture either effect.
- ItemMaster is assumed to hold at most one row per item code (it is a map from code to item). Duplicate rows would multiply the result rows of the three `LEFT JOIN ItemMaster` and each group's `CntRecs`, which the model does not capture.
