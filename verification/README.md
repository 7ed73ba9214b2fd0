# Verified models of pg_orca's plan and query transformations

pg_orca lets the ORCA optimizer plan queries for PostgreSQL. Around the optimizer
it translates queries and plans back and forth, rewrites them, and adds a small
run-time protocol. This project models that surrounding logic in Dafny and proves
what it must preserve. `dfyconfig.toml` lists the project's files.

| files | subject |
|---|---|
| `Plans`, `ParamSets`, `FinalizePass` | executable plans with PARAM_EXEC slots, the sets `allParam`/`extParam`, the pass that fills them, and caching across rescans |
| `Dxl`, `Closure`, `ClosureProof`, `ClosureSets`, `ClosureScopes`, `ClosureContext`, `SubPlanTests` | translation of correlated subqueries to SubPlans and InitPlans |
| `ResultPlans`, `RedundantResults`, `ResultScopes`, `ResultPass` | removal of redundant Result nodes |
| `Partitions`, `DynScanRuns`, `DynScan` | dynamic partition elimination: PartitionSelector and DynamicTableScan |
| `Queries`, `LevelsUp` | pushing a query one level down |
| `VirtualColumns`, `VirtualExpansion` | expansion of virtual generated columns |
| `GroupedWindows`, `GroupedWindowsExact`, `GroupedWindowPass`, `SplitLevels` | splitting queries that mix grouping and window functions |
| `PruneSteps`, `PruneMaps`, `RangeTables` | partition-pruning steps and tables, and the range-table entries they refer to |
| `AggSharing`, `HashJoin`, `SetOps`, `NotIn` | aggregate numbering, NULL-safe hash joins, set-operation chains, NOT IN |
| `MdCache` | invalidation of the metadata cache |
| `Options` | optional values |

Operators, scans, joins, aggregates, hash functions and sublinks are function
parameters of the model (`Database`, `World`, `Group`, `Catalog`, ...), so the
theorems hold for every meaning of them. Code that updates objects, lists or
arrays step by step is modelled by classes and loops that are proved against
specification functions; the theorems are then about those functions.

Several promises hold only under a condition. The code is modelled as it is, a
lemma gives an input on which the promise fails, and the condition is proved to
be exact:

- type modifiers after collapsing a Result: references to one child entry must agree (`TypmodLost`, `TypmodsKept`);
- pushing a query down: aggregates of outer queries are not shifted (`OuterAggregateMoves`, `ConvertBinds`);
- virtual columns: tables inside sublinks are never expanded (`SublinkMissed`, `LeftQuery`);
- grouped windows: a column of an outer query may be taken for a local key (`OuterColumnCaptured`, `PickExact`), and a
  sublink's test must hold no window function and no GROUPING whose references change (`WindowInSublinkLost`,
  `GroupingInSublinkMisread`, `MovesExactly`, and for the whole query `QueryExact`);
- grouped windows: the split query's own WITH list is out of reach of the split-off subquery (`OwnCteLost`, `SplitBinds`);
- sublinks that compare two columns of their body: the body must list the left one first (`SwappedColumns`, `PairExact`,
  `ComputesExact`);
- hash keys of different types: the zeros of both types must hash alike (`ZerosApart`, `NullPairMissed`, `ProbeExact`);
- metadata cache: only changes to catalogs with a callback are seen (`UncoveredChangeMissed`, `CoherentIffCovered`).

Start-up pruning of one Append would close a range-table entry for another Append
that shares it (`SharedEntryLost`). Translated statements never share one: scans
reuse an entry only for the target of a data-modifying statement, and updates and
deletes of partitioned tables are rejected
(gpopt/translate/CTranslatorQueryToDXL.cpp:1218-1223, 1310-1315). So every
partition that its filter selects is scanned through an open entry
(`SelectedScansOpen`).

## Model

| member | source | states |
|---|---|---|
| `ParamSets.RowsAgree` | gpopt/translate/CTranslatorDXLToPlStmt.cpp:699-798 | Non-interference: two PARAM_EXEC environments that agree on a plan's `extParam` give it the same rows, through nested SubPlans, InitPlans and all children, for every operator meaning. |
| `ParamSets.SubAgree` | gpopt/translate/CTranslatorDXLToPlStmt.cpp:699-798 | A SubPlan's value depends only on its test, its arguments and the external parameters of its body; `parParam` slots are local. |
| `ParamSets.InitsAgree` | gpopt/translate/CTranslatorDXLToPlStmt.cpp:699-798 | After a node's InitPlans have run, environments that agreed on `extParam` also agree on what the InitPlans set. |
| `ParamSets.BodyExtsPrefix` | gpopt/translate/CTranslatorDXLToPlStmt.cpp:415-421 | Finalizing the bodies in list order reads only sets that are already final: each body's `extParam` is computed from the bodies before it. |
| `ParamSets.CachedRunsExact` | gpopt/translate/CTranslatorDXLToPlStmt.cpp:659-676 | Over every run of rescans, a node that recomputes only when a reported parameter is in `extParam` returns at each rescan the rows of a fresh scan. |
| `ParamSets.ChangePropagates` | gpopt/translate/CTranslatorDXLToPlStmt.cpp:699-798 | A changed parameter that a child depends on is in the parent's `allParam`, so the report reaches the child. |
| `FinalizePass.Extractor.WalkPlan` | compat/utils/walkers.c:112-240 | The walk adds exactly the plan's Param ids, or exactly its SubPlans, and nothing of another tag. |
| `FinalizePass.Extractor.WalkSub` | compat/utils/walkers.c:366-382 | A SubPlan's test and arguments are entered, its body is not. |
| `FinalizePass.Extractor.WalkExpr` | compat/utils/walkers.c:401-430 | Expressions contribute exactly the nodes of the wanted tag. |
| `FinalizePass.SetParamIds` | gpopt/translate/CTranslatorDXLToPlStmt.cpp:659-676 | A node's initial sets are the Param ids found below it. |
| `FinalizePass.AddBodies` | gpopt/translate/CTranslatorDXLToPlStmt.cpp:699-798 | Arguments are removed from what a body reads, InitPlan outputs from the result: the node ends with exactly `allParam` and `extParam`. |
| `FinalizePass.FinalizeParamIds` | gpopt/translate/CTranslatorDXLToPlStmt.cpp:699-798 | Every node of the tree, children first, ends with exactly its two sets. |
| `FinalizePass.FinalizeStatement` | gpopt/translate/CTranslatorDXLToPlStmt.cpp:415-421 | One pass over the registered bodies and then the main plan leaves every node of every tree with its final sets. |
| `SubPlanTests.StatementMeans` | gpopt/translate/CTranslatorDXLToPlStmt.cpp:279-288 | Closure conversion preserves meaning: the translated statement with its SubPlans and InitPlans returns the rows of the original, in which correlated columns and the columns of tests are looked up by name, for every database, when the body of each compared sublink opens with the columns its test names. |
| `SubPlanTests.ScalarMeans` | gpopt/translate/CTranslatorDXLToScalar.cpp:2080-2111 | The same for a scalar at any depth. |
| `ClosureProof.StatementReads` | gpopt/translate/CTranslatorDXLToPlStmt.cpp:279-288 | For every statement, in order or not: the translated statement returns the rows of the original in which each test reads its columns by position. |
| `SubPlanTests.TestExact` | gpopt/translate/CTranslatorDXLToScalar.cpp:994-1034 | Over a body that hands on columns, the value of a test is the one it asks for in every database and environment exactly when the body's projection opens with the columns the test names. |
| `SubPlanTests.ComputesExact` | gpopt/translate/CTranslatorDXLToScalar.cpp:1043-1160 | From the statement to its translation: a statement that computes one sublink returns its rows in every database exactly when the sublink's body opens with the columns its test names. |
| `SubPlanTests.SwappedColumns` | gpopt/translate/CTranslatorDXLToScalar.cpp:1086-1142 | A scan that lists column 1 before column 2 under a test that compares column 2 with column 1: in some database the translated statement returns another row. |
| `SubPlanTests.RestrictResult` | libgpopt/src/translate/CTranslatorExprToDXL.cpp:3715-3777 | The required columns are kept in the order of the old projection; a single column is left as it is, and none is an error. |
| `SubPlanTests.PairExact` | libgpopt/src/translate/CTranslatorExprToDXL.cpp:3811-3846 | The sublink built for a test on two columns of its input keeps its value exactly when the input lists the left column before the right one. |
| `SubPlanTests.SingleKept` | libgpopt/src/translate/CTranslatorExprToDXL.cpp:3811-3846 | The sublink built for a test on one column of its input always keeps its value. |
| `ClosureProof.TranslateMeans` | gpopt/translate/CTranslatorDXLToScalar.cpp:2080-2111 | A translated scalar evaluated with parameters and the current rows equals the original under the scope of all visible columns, tests reading theirs by position. |
| `ClosureProof.SubPlanMeans` | gpopt/translate/CTranslatorDXLToScalar.cpp:865-983 | A SubPlan's body, run with its arguments bound and the rest inherited, returns the rows of the correlated subquery. |
| `ClosureProof.SubqueryMeans` | gpopt/translate/CTranslatorDXLToScalar.cpp:865-983 | Scalar, EXISTS and NOT EXISTS subqueries, correlated or hoisted, have the value of direct evaluation. |
| `ClosureProof.QuantifiedMeans` | gpopt/translate/CTranslatorDXLToScalar.cpp:1043-1160 | ANY and ALL subqueries that compare an outer expression evaluate it once more for each row of the body, against the row's first column. |
| `ClosureProof.RowTestedMeans` | gpopt/translate/CTranslatorDXLToScalar.cpp:1043-1160 | The two other tests: a constant, and a comparison of two slots that receive the first two columns of the row; the left side is the first one. |
| `ClosureProof.RelMeans` | gpopt/translate/CTranslatorDXLToPlStmt.cpp:4177-4231 | A translated operator with its own InitPlans returns the rows of the original operator. |
| `ClosureProof.HoistedInherits` | gpopt/translate/CTranslatorDXLToScalar.cpp:865-983 | An argument-free scalar subquery hoisted to an InitPlan of the enclosing body keeps its value on every row of that body. |
| `ClosureProof.RunInitsHold` | gpopt/translate/CTranslatorDXLToScalar.cpp:865-983 | Running a body's InitPlans in order puts each hoisted value in its slot and disturbs no other. |
| `ClosureProof.BodySees` | gpopt/translate/CTranslatorDXLToScalar.cpp:1173-1219 | Inside a body each outer column reads, through its parameter, the value it had outside. |
| `ClosureSets.OneRoute` | gpopt/translate/CTranslatorDXLToScalar.cpp:1173-1219 | Each outer column reaches a body by exactly one route: as an argument in a new slot, or inherited through the slot of an enclosing SubPlan. |
| `ClosureSets.TranslateOk` | gpopt/translate/CTranslatorDXLToScalar.cpp:2080-2111 | Translation of a scalar succeeds exactly when every column it names is in scope. |
| `ClosureSets.RelOk` | gpopt/translate/CTranslatorDXLToPlStmt.cpp:4177-4231 | Translation of an operator tree succeeds exactly when every column at every depth resolves. |
| `ClosureScopes.StatementScoped` | gpopt/translate/CContextDXLToPlStmt.cpp:317-336 | Every translated statement registers bodies after the SubPlans they contain and satisfies the scoping that non-interference needs. |
| `ClosureScopes.TranslatedBodyCached` | gpopt/translate/CTranslatorDXLToPlStmt.cpp:415-421 | End to end: every subquery body of a translated statement may keep its rows across any run of rescans that reports no parameter of its `extParam`. |
| `Closure.FreshSlots` | gpopt/translate/CTranslatorDXLToScalar.cpp:1173-1219 | Outer columns without a slot get new, distinct ones; columns with a slot keep it. |
| `ClosureContext.ColumnContext.Insert` | gpopt/translate/CDXLTranslateContext.cpp:94-109 | A column already mapped keeps its first parameter. |
| `ClosureContext.StatementContext.GetNextParamId` | gpopt/translate/CContextDXLToPlStmt.cpp:131-145 | Parameter ids are handed out once each, in order. |
| `ClosureContext.StatementContext.SubplanParams` | gpopt/translate/CTranslatorDXLToScalar.cpp:1173-1219 | The loop over outer references fills parameter and argument lists exactly as specified, or fails on the first unresolved column. |
| `ClosureContext.StatementContext.TranslateSubquery` | gpopt/translate/CTranslatorDXLToScalar.cpp:836-983 | The InitPlan list is swapped around the body and restored, and the body is registered last. |
| `ClosureContext.StatementContext.TranslateScalar` | gpopt/translate/CTranslatorDXLToScalar.cpp:2080-2111 | The translator with its mutable context computes the specified expression and state. |
| `ClosureContext.StatementContext.TranslateRowTest` | gpopt/translate/CTranslatorDXLToScalar.cpp:1081-1140 | The left side of a test inside the body gets its own new slot, placed first in the list of test slots. |
| `ClosureContext.StatementContext.TranslateOperator` | gpopt/translate/CTranslatorDXLToPlStmt.cpp:4177-4231 | Children, target list, filter and further conditions are translated in this order, and compute the specified plan and state. |
| `ClosureContext.PlanStatement` | gpopt/translate/CTranslatorDXLToPlStmt.cpp:279-288 | The statement's plan and subplan list are those of the specification; remaining InitPlans go to the top node. |
| `RedundantResults.RemoveMeans` | compat/utils/remove_redundant_results.cpp:158-276 | Every run of the rewritten plan returns the same rows and causes the same volatile calls and SubPlan runs in the same order, from any environment and trace. |
| `RedundantResults.CollapseMeans` | compat/utils/remove_redundant_results.cpp:238-272 | Dropping one redundant Result and giving its projection to the child keeps rows and events. |
| `RedundantResults.PushDownMeans` | compat/utils/remove_redundant_results.cpp:47-75 | Substituting the child's expressions for outer references keeps the value. |
| `RedundantResults.Remove` | compat/utils/remove_redundant_results.cpp:228-276 | The rewritten tree keeps the arity and the cost estimates of the original root. |
| `ResultScopes.RemoveLeavesScopes` | compat/utils/remove_redundant_results.cpp:97-149 | No Param and no scan-level Var moves to another plan node. |
| `ResultScopes.OnePassMayNotSuffice` | compat/utils/remove_redundant_results.cpp:234-236 | One pass is not always a fixed point: a plan is exhibited that a second pass would change. |
| `ResultScopes.TypmodsKept` | compat/utils/remove_redundant_results.cpp:62-69 | After the in-place modifier edits every substituted reference carries the modifier of the Var it replaced, exactly when references to one child entry agree on it. |
| `ResultScopes.TypmodLost` | compat/utils/remove_redundant_results.cpp:62-69 | Two references with different modifiers to one child entry: the first ends with the second's. |
| `ResultPass.Walk` | compat/utils/remove_redundant_results.cpp:228-276 | The in-place pass over the linked tree returns a node whose tree is the specified rewriting of the old one, stays inside the old footprint, and leaves exactly the modifiers that all collapses write, in the order of the pass. |
| `ResultScopes.PassKeepsOthers` | compat/utils/remove_redundant_results.cpp:62-69 | Over the whole pass a modifier changes only on a Const or Var of a target list below the root. |
| `ResultPass.RecurseChildren` | compat/utils/remove_redundant_results.cpp:158-222 | Each child slot is replaced by its cleaned tree; nothing else of the node changes. |
| `ResultPass.Absorb` | compat/utils/remove_redundant_results.cpp:250-271 | The child takes over the Result's target list and cost estimates. |
| `ResultPass.TypmodStore.PushDownExpr` | compat/utils/remove_redundant_results.cpp:47-75 | The mutator returns the substituted expression and performs exactly the specified modifier writes. |
| `DynScanRuns.RunJoins` | compat/executor/dyn_scan.c:364-449 | Partition elimination is sound over whole runs: whenever the scan has returned NULL after any allowed sequence of calls and rescans, the inner and the semi join of what it returned equal the joins over all partitions. |
| `DynScanRuns.InvAlways` | compat/executor/dyn_scan.c:660-698 | The invariant relating build input, approved partitions, visited partitions and rows still to come holds after every allowed run. |
| `DynScanRuns.InvKept` | compat/executor/dyn_scan.c:364-449 | Each selector call, scan call and rescan keeps the invariant. |
| `DynScanRuns.ChosenCovers` | compat/executor/dyn_scan.c:660-698 | Whatever the selector's state, the partitions chosen at the first scan call contain every qualifying row that can join. |
| `DynScanRuns.SameJoin` | compat/executor/dyn_scan.c:660-820 | Partitions left out contribute nothing to the inner or the semi join. |
| `DynScan.Selector.Exec` | compat/executor/dyn_scan.c:363-405 | A call passes on one row and approves the partition of its key, or finalizes at the end of input. |
| `DynScan.Selector.Rescan` | compat/executor/dyn_scan.c:421-449 | A rescan forgets approvals and finality. |
| `DynScan.ExecState.Attach` | compat/executor/dyn_scan.c:329-361 | Selector and scan with one scan id share one state, whichever begins first. |
| `DynScan.NextMember` | compat/executor/dyn_scan.c:760-790 | The next approved partition after the current one, or none. |
| `DynScan.DynamicScan.Exec` | compat/executor/dyn_scan.c:659-820 | Successive calls return exactly the qualifying, remapped rows of the chosen partitions in ascending order, then NULL; scan, relation and slot are open together or not at all. |
| `DynScan.DynamicScan.Start` | compat/executor/dyn_scan.c:660-698 | The first call fixes the partitions from the approved set and static pruning. |
| `DynScan.DynamicScan.Rescan` | compat/executor/dyn_scan.c:866-896 | A rescan closes what is open: opens equal closes. |
| `DynScan.DynamicScan.End` | compat/executor/dyn_scan.c:822-864 | Ending closes scan, relation, slot, map and root; opens equal closes. |
| `DynScan.JoinNodes.SelectorCall` | compat/executor/dyn_scan.c:363-405 | On the shared objects a selector call is the specified step of the run. |
| `DynScan.JoinNodes.ScanCall` | compat/executor/dyn_scan.c:659-820 | On the shared objects a scan call is the specified step and returns the specified row. |
| `DynScan.JoinNodes.RescanSelector` | compat/executor/dyn_scan.c:421-449 | A selector rescan is the specified step. |
| `DynScan.JoinNodes.RescanScan` | compat/executor/dyn_scan.c:866-896 | A scan rescan is the specified step. |
| `LevelsUp.ConvertBinds` | gpopt/translate/CQueryMutators.cpp:1289-1377 | After pushing a query one level down, every Var and CTE reference at any depth resolves as before exactly when no aggregate belongs to an outer query, and the kept WITH list resolves as before exactly when it does not refer to its owner's range table. |
| `LevelsUp.LowerQuery` | gpopt/translate/CQueryMutators.cpp:258-370 | The two level walks together keep the binding of every reference below the new query, if and only if aggregates are local. |
| `LevelsUp.KeepEntries` | gpopt/translate/CQueryMutators.cpp:1289-1377 | Which WITH entries keep their meaning when they stay with the upper query. |
| `LevelsUp.OuterAggregateMoves` | gpopt/translate/CQueryMutators.cpp:258-313 | An outer-level aggregate is captured by the new query, because its level is not shifted. |
| `VirtualColumns.ReplaceQueryPuts` | pg_orca.cpp:436-484 | Replacing a relation's virtual columns is capture-free at any depth: exactly the references that resolve to them become the generation expression over the same relation, and all others keep their binding. |
| `VirtualColumns.ReplacePuts` | pg_orca.cpp:436-484 | The same for an expression, sublinks included. |
| `VirtualExpansion.Expand` | pg_orca.cpp:486-565 | The driver, one walk per relation after its subqueries, computes the one-walk substitution of all virtual columns of all entered queries, and asks for the fallback exactly when an expanded query's virtual column is referenced under an outer join. |
| `VirtualExpansion.ExpandEntries` | pg_orca.cpp:493-511 | Subqueries of the range table and of the WITH list are expanded in order; their fallback requests add up. |
| `VirtualExpansion.StepBody` | pg_orca.cpp:523-562 | The walk for one more relation adds exactly that relation's columns to those already replaced, at every depth, and raises the flag for exactly its nulled references. |
| `VirtualExpansion.LeftQuery` | pg_orca.cpp:486-565 | After expansion a reference to a virtual column remains exactly when it was nulled by an outer join or bound by a query the driver skips. |
| `VirtualExpansion.SublinkMissed` | pg_orca.cpp:493-511 | A virtual column of a table inside a sublink is neither replaced nor reported. |
| `GroupedWindows.QueryMeans` | compat/utils/misc.c:1694-1840 | When the outer query reads everything right, the split query returns the original's rows for every sequence of groups and every meaning of operators, aggregates, sublinks and window functions. |
| `GroupedWindowsExact.QueryExact` | compat/utils/misc.c:1694-1840 | The split query returns the original's rows, for all groups and window functions, exactly when no column read is captured from another level and every sublink and grouping expression read is free of window functions and names the same grouping keys below as above. |
| `GroupedWindows.RecoversMeans` | compat/utils/misc.c:2026-2118 | An outer expression that reads the subquery's columns has the value of the expression it recovers. |
| `GroupedWindows.EntryMeans` | compat/utils/misc.c:1912-1950 | A subquery entry has, in every group, the value of the expression it was made for. |
| `GroupedWindows.PickExact` | compat/utils/misc.c:2076-2102 | The key found for a column has the column's value in every group, exactly when the column is not an outer one spelled like a local join column of a key, nor a local one first spelled among the keys by an outer column. |
| `GroupedWindows.LocalQueryUncaptured` | compat/utils/misc.c:2076-2102 | A query that names no outer column outside aggregates and sublinks, grouped by local keys, has no such column. |
| `GroupedWindows.OuterColumnCaptured` | compat/utils/misc.c:2076-2102 | An outer query's column spelled like a local join column is read from the local key. |
| `GroupedWindows.MovesExactly` | compat/utils/misc.c:2103-2106 | A node may be moved to the subquery as it stands exactly when no window function is inside it and every GROUPING inside it names the same expressions in both target lists. |
| `GroupedWindows.MovesIffFree` | compat/utils/misc.c:2103-2106 | A node may be computed below the window functions of the same list exactly when none is inside it. |
| `GroupedWindowPass.SplitQuery` | compat/utils/misc.c:1783-1815 | The split succeeds exactly when grouping references name targets and all columns are keys; then the outer lists recover the originals, the subquery list is the keys followed, once each, by what the outer query needs, and every row equals the original's exactly when that list, known from the query alone, is read right. |
| `SplitLevels.SplitBinds` | compat/utils/misc.c:1747-1823 | Every Var, aggregate and CTE reference inside the split-off subquery names what it named before exactly when none names the split query's own WITH list, which stays with the outer query. |
| `SplitLevels.ShiftBinds` | compat/utils/misc.c:1823 | The level walk keeps every reference below, at any depth, exactly under the same condition. |
| `SplitLevels.OwnCteLost` | compat/utils/misc.c:1747-1823 | A grouped window query over an entry of its own WITH list: in the subquery the reference finds no list. |
| `GroupedWindowPass.Context.Mutate` | compat/utils/misc.c:2026-2118 | The mutator fails exactly on unresolvable expressions, appends exactly the needed entries, and its result recovers the expression. |
| `GroupedWindowPass.Context.VarFor` | compat/utils/misc.c:1912-1950 | Entries are only appended, each `resno` is its position, and the Var returned names the expression. |
| `GroupedWindowPass.Context.Init` | compat/utils/misc.c:1847-1891 | The list opens with the grouping keys numbered by position, and each renumbered reference names the same expression as before. |
| `GroupedWindowPass.TableGood` | compat/utils/misc.c:1868-1891 | The renumbering table covers every grouping reference and sends it to a key with the same expression. |
| `GroupedWindowPass.Context.MapRefs` | compat/utils/misc.c:1977-1994 | GROUPING references are renumbered one by one; one outside the table is an error. |
| `GroupedWindowPass.AlternateVars` | compat/utils/misc.c:2174-2231 | The join-alias spellings of a column, in range-table order. |
| `GroupedWindowPass.PickInKeys` | compat/utils/misc.c:2076-2102 | Entries added along the way never change how a column is resolved. |
| `GroupedWindowPass.SubGoodIff` | compat/utils/misc.c:1912-1950 | The subquery's list is sound exactly when every key and every node moved has, in every group and whatever the window functions return, the value it had in the query. |
| `GroupedWindowPass.GroupingInSublinkMisread` | compat/utils/misc.c:2103-2106 | A GROUPING inside a sublink's test is moved without renumbering, and the sublink returns another value. |
| `GroupedWindowPass.WindowInSublinkLost` | compat/utils/misc.c:2103-2106 | A window function inside a sublink's test is moved below the windows, and the sublink returns another value. |
| `PruneSteps.StepsFromFilter` | gpopt/translate/CPartPruneStepsBuilder.cpp:270-296 | Translation succeeds exactly on supported filters; step ids are positions, combine steps look back only, and the last step of a single pass yields exactly the partitions the filter selects. |
| `PruneSteps.StepsFromBool` | gpopt/translate/CPartPruneStepsBuilder.cpp:215-268 | AND and OR combine their operands' sets; NOT is an error. |
| `PruneSteps.OperandSteps` | gpopt/translate/CPartPruneStepsBuilder.cpp:251-260 | The operands' steps follow in order and the last step of each is noted; each holds its operand's set. |
| `PruneSteps.StepFromCmp` | gpopt/translate/CPartPruneStepsBuilder.cpp:173-213 | A comparison becomes one step; an operator outside the family is an error. |
| `PruneSteps.CombineYields` | gpopt/translate/CPartPruneStepsBuilder.cpp:262-267 | Intersecting or uniting the operands' results gives the set of the whole filter. |
| `PruneSteps.CollectExecParams` | gpopt/translate/CPartPruneStepsBuilder.cpp:138-156 | All PARAM_EXEC ids of the steps, and no other. |
| `PruneMaps.BuildMaps` | gpopt/translate/CPartPruneStepsBuilder.cpp:101-132 | The merge loop consumes the surviving indexes completely exactly when they are increasing and in range; `subplan_map` inverts what was consumed and is -1 elsewhere, and the other tables and `present_parts` match. |
| `PruneMaps.CreatePruneInfo` | gpopt/translate/CPartPruneStepsBuilder.cpp:88-171 | Start-up steps contain no PARAM_EXEC; steps with one are run-time steps with exactly their ids. |
| `PruneMaps.UnprunableRelids` | gpopt/translate/CTranslatorDXLToPlStmt.cpp:299-336 | All range-table indexes except the leaves of records with start-up steps. |
| `PruneMaps.OpenIff` | gpopt/translate/CTranslatorDXLToPlStmt.cpp:299-336 | After start-up pruning an entry is open exactly when no Append with start-up pruning scans it, or one scans it for a partition its own filter selects. |
| `PruneMaps.SurvivorOpens` | gpopt/translate/CTranslatorDXLToPlStmt.cpp:4429-4460 | The scan of a partition its Append's filter selects finds its entry open exactly when the Append prunes at start-up, or no start-up Append scans that entry, or one that does selects a partition for it; each filter is read in its own table. |
| `PruneMaps.OwnEntriesOpen` | gpopt/translate/CTranslatorDXLToPlStmt.cpp:4429-4460 | When different Appends scan different entries, every selected partition's scan finds its entry open. |
| `PruneMaps.SelectedScansOpen` | gpopt/translate/CTranslatorDXLToPlStmt.cpp:4429-4460 | From the numbering of scans to execution: scans under the Appends carry no query id, whatever else the statement scans, so every selected partition is scanned through an open entry. |
| `PruneMaps.SharedEntryLost` | gpopt/translate/CTranslatorDXLToPlStmt.cpp:299-336 | Two Appends sharing an entry: start-up pruning of the one closes it for a partition the other selects. |
| `RangeTables.RangeTable.Process` | gpopt/translate/CTranslatorDXLToPlStmt.cpp:6005-6140 | A scan reuses the entry of its query id or gets the next one; only ids of target tables are remembered. |
| `RangeTables.ProcessAll` | gpopt/translate/CContextDXLToPlStmt.cpp:575-602 | Over any sequence of scans, two share an entry exactly when both carry the same query id of a target table. |
| `AggSharing.SharingMeans` | gpopt/translate/CTranslatorDXLToPlStmt.cpp:3143-3244 | Reading the shared state through a call's final function equals computing the call alone, although final functions run one after the other on shared states. |
| `AggSharing.Context.FillInfo` | gpopt/translate/CTranslatorDXLToPlStmt.cpp:3143-3244 | Each call gets slots in range that compute it; equal calls share unless volatile; a volatile call starts a result and a state of its own; a new state is started only if no shareable one fits. |
| `AggSharing.Context.FindCompatibleAgg` | gpopt/gpdbwrappers.cpp:881-942 | The entry of the same call, or the states of exactly the shareable entries over the same input; nothing for a volatile call. |
| `AggSharing.Context.FindCompatibleTrans` | gpopt/gpdbwrappers.cpp:945-986 | A candidate state the aggregate could have built itself, if it is shareable and there is one. |
| `AggSharing.FillAll` | gpopt/translate/CTranslatorDXLToPlStmt.cpp:3143-3244 | Over every sequence of calls the numbering keeps these properties. |
| `AggSharing.VolatileInputAlone` | gpopt/gpdbwrappers.cpp:881-942 | A state fed by volatile input is read by one entry only. |
| `HashJoin.ProbeMeans` | gpopt/translate/CTranslatorDXLToPlStmt.cpp:1810-1976 | Probing finds exactly the inner rows the nested loop would, in order, NULL keys and collisions included, for every equality-respecting hash and every mix of conditions. |
| `HashJoin.ProbeExact` | gpopt/translate/CTranslatorDXLToPlStmt.cpp:1680-1719 | For any list of conditions, with a mixing that loses nothing, the refinement holds on all rows exactly when each NULL-safe condition that NULLs can meet has key types whose zeros hash alike. |
| `HashJoin.ZerosApart` | gpopt/translate/CTranslatorDXLToPlStmt.cpp:1680-1719 | A by-value type and a varlena type whose zeros hash apart: two NULLs that are not distinct are not joined. |
| `HashJoin.NullPairMissed` | gpopt/translate/CTranslatorDXLToPlStmt.cpp:1680-1719 | A pair with NULLs in a condition whose zeros hash apart satisfies all conditions and is not found. |
| `HashJoin.SingleCondExact` | gpopt/translate/CTranslatorDXLToPlStmt.cpp:1680-1719 | For one NULL-safe condition the same holds whatever the mixing of hashes. |
| `HashJoin.TranslateHashJoin` | gpopt/translate/CTranslatorDXLToPlStmt.cpp:1810-1976 | Both key lists are wrapped in COALESCE or neither is, depending on any NULL-safe condition; the original conditions remain the recheck. |
| `HashJoin.PlanSkips` | gpopt/translate/CTranslatorDXLToPlStmt.cpp:1680-1719 | With wrapped keys every row has a hash on both sides, so no row is left out of the hash table or the probe. |
| `SetOps.ChainMeans` | gpopt/translate/CTranslatorDXLToPlStmt.cpp:4655-4713 | The chain computes the n-ary operation: minimum, first minus the sum of the rest, and their 0/1 forms. |
| `SetOps.IntermediateBounded` | gpopt/translate/CTranslatorDXLToPlStmt.cpp:4668-4678 | Every intermediate bag is contained in the first input. |
| `SetOps.BuildChain` | gpopt/translate/CTranslatorDXLToPlStmt.cpp:4668-4706 | The nodes form a left-deep chain over the inputs in order that ends in the operator's own node; fewer than two inputs are an error. |
| `MdCache.InvAlways` | gpopt/gpdbwrappers.cpp:2929-3044 | Coherence over every allowed run: first use, resets, failures, changes in mid-task and caching switched off. |
| `MdCache.BeginIsCurrent` | gpopt/utils/COptTasks.cpp:585-602 | After any allowed run, the start-of-task check leaves no cached entry older than a delivered change. |
| `MdCache.CoherentIffCovered` | gpopt/gpdbwrappers.cpp:2952-3018 | Changes to an object are seen at the start of every task, over all runs in which it changes, exactly when its catalog has a callback. |
| `MdCache.UncoveredChangeMissed` | gpopt/gpdbwrappers.cpp:2952-3018 | A change to an object of any catalog without a callback leaves a stale entry. |
| `MdCache.Session.NeedsReset` | gpopt/gpdbwrappers.cpp:3022-3043 | Registers once, reports whether the count moved, and remembers it. |
| `MdCache.Session.BeginTask` | gpopt/utils/COptTasks.cpp:579-602 | Creates, resets or keeps the cache; a failure on the way leaves no stale cache. |
| `MdCache.Session.Lookup` | gpopt/utils/COptTasks.cpp:629-633 | A looked-up object reflects every change delivered before the task began. |
| `MdCache.Session.EndTask` | gpopt/utils/COptTasks.cpp:706-749 | A failed task, or one with caching off, drops the cache. |
| `MdCache.Session.Deliver` | gpopt/gpdbwrappers.cpp:2933-2949 | A delivered change is counted once the callbacks are registered. |
| `NotIn.AntiJoinIsNotIn` | gpopt/translate/CTranslatorDXLToPlStmt.cpp:2416-2437 | The anti join over wrapped conjuncts returns, in order, exactly the outer rows for which NOT IN is true under three-valued logic. |
| `NotIn.WrappedPasses` | gpopt/translate/CTranslatorDXLToPlStmt.cpp:2423-2428 | Wrapping each conjunct matches exactly the pairs on which the whole condition is not false. |
| `NotIn.WrapJoinQuals` | gpopt/translate/CTranslatorDXLToPlStmt.cpp:2421-2437 | Every conjunct is wrapped in place for the NOT IN join type, and nothing is changed for others. |

## Left out

- `NestLoop.nestParams`, index-nested-loop parameters, hash keys of Hash nodes and CTE bodies behind CteScan: the parameter walk does not visit them, so they are not part of the plan language.
- Runtime errors: a scalar subquery with more than one row, failing operators, memory exhaustion.
- Casts around the columns of a sublink's test, and the flag that lets an ANY sublink hash its rows: they do not change which values are compared.
- ParamSets.RowsAgree: needs InitPlan outputs to be read only inside the owning node; StatementScoped shows that translated statements satisfy this.
- Dynamic partition elimination under outer and anti joins, and composite keys: joins are inner or semi on one key.
- The static pruning of PostgreSQL is represented by any function that returns a superset of the matching partitions or no pruning.
- LevelsUp.ConvertBinds: states the result for both fix flags on; with a flag off the target list or HAVING clause is deliberately not adjusted. The in-place range-table updates are modelled as a function on trees.
- VirtualExpansion.Expand: the range table is rebuilt as a value; generation expressions are taken to contain only stored columns of their own relation, as PostgreSQL requires.
- GroupedWindowPass.SplitQuery: column names and the alias of the subquery are not part of the model. An outer query's column whose range-table index is beyond the local range table makes the code read past that list (compat/utils/misc.c:2182); the model finds no alternate for it.
- SplitLevels.ShiftBinds: the walk over levels is PostgreSQL's own (`IncrementVarSublevelsUp`) and is modelled by its documented rule.
- GroupedWindowsExact.QueryExact: asks what SQL guarantees, that window functions name a window and are not nested.
- SubPlanTests.TestExact: is about bodies that hand on columns, which is what the optimizer builds for two compared columns; the commuting of a comparison whose columns stand the wrong way round (libgpopt/src/translate/CTranslatorExprToDXL.cpp:3856-3879) is not part of the model.
- GroupedWindows.QueryMeans: assumes a join's alias column has the value of the column it stands for, and takes window frames as an arbitrary function of all rows.
- PruneSteps.StepsFromFilter: for an OR without operands only the numbering is stated; the source demands at least two operands.
- Several levels of partitioning: the source builds one level only.
- AggSharing.SharingMeans: partial aggregation, combine and serialization functions are compared but not run.
- SetOps.BuildChain: comparison operators, collations and cost fields of the nodes; rows are compared by equality of values.
- HashJoin.ProbeExact: takes the mixing of several hashes to be without collisions; ProbeMeans needs no such assumption.
- HashJoin.ProbeMeans: the matching rows only; the emission of unmatched rows by outer joins follows from them and is not modelled.
- MdCache.InvAlways: the counters are unbounded integers; quota settings appear only as evictions.
- Costs, collations, locks, permissions, EXPLAIN output, motions and slices, DML, foreign scans, the optimizer's search and all catalog wrappers not named above: they do not bear on the results above, or their code is not part of this model.
