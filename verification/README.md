# Marble backend: index planning, error grouping and codecs

This project models parts of the Marble backend and proves properties of the models.

Most of it is about index planning. Aggregation rules run as SQL queries; the backend reads off which columns a
query filters on, works out which Postgres index shapes would serve it, compares them with the indexes that exist,
merges shapes that can share an index, and creates what is missing. Later a job prunes indexes that others dominate.

| module | what it models |
|---|---|
| `QueryExtraction` | the columns of an aggregation node, sorted into equality, inequality and other columns |
| `QueryExpansion` | the index families that can serve a query, and what a covering index guarantees |
| `IndexModels` | `Covers`: window checks against an existential over the orders of the flexible columns |
| `Hashing`, `HashOrder` | the printed keys used for deduplication and for ordering |
| `FamilyMerging` | merging two families, as functions on values, with the exact verdict on every merge |
| `MergeKeepsIndexes` | which merges are accepted and what a merge gives away |
| `FamilyRefinement` | the same merge as it runs, on families whose sets are shared pointers |
| `FamilyCuts` | when every index for one family serves another, decided on the families alone |
| `MergeRun`, `RunVerdict` | reducing the families of one table, and when that is right |
| `IndexPlanning`, `PlanVerdict`, `QueryVerdict`, `IndexCreation`, `PlanExamples` | the whole pipeline from queries to created indexes, and when it is right |
| `IndexPruning` | dominated indexes and the rollover job |
| `IndexNaming` | generated names, their collisions, and the JSON form of an index |
| `ErrorGrouping` | the worker middleware that groups errors, as a timed transition system |
| `AstCodec` | the two translations between rule ASTs and their DTOs |
| `DataRewriting` | a map that is rewritten while it is ranged over |
| `TableOperations` | a tagged operation list split into typed lists |
| `NavigationPlanning`, `NavigationOptions` | where navigation options come from, and their grouping in an export |
| `ModelConfig` | the layered lookup of AI models |

`GoSets`, `Sorting` and `Wrappers` hold the sets, listings and result types that the others share.

Column and table names are compared after folding to upper case. Folding is a parameter `up` of which only one
thing is used: no name but the empty one folds to the empty name. Where two names must stay apart when folded, the
contract says so.

## What the code does not guarantee

Each of these is proved. Where a property of the code fails there is a lemma at a concrete input, and the exact
condition under which it holds unless the item says that only a sufficient one is given.

* **A plan can leave a query without an index.** From `a = 1` and from `a = 1, b = 2` one index is made, and when it is
  made on (b, a) no index leads the first query (`PlanExamples.PlanLosesQuery`). In every outcome every query is led by
  an index exactly when each is led by an existing one or guided by a family that the reduction leaves
  (`IndexCreation.QueryPlanVerdictIff`, `IndexCreation.LeadableQueriesIff`). To guide a query is to prescribe its
  equality columns as a cut, a bag of leading columns, to allow only its inequality columns next, and to offer all of
  its columns (`QueryVerdict.GuidesIff`): that is decided on the family and the query.
* **A reduction can lose a member of an expansion,** even when another member still leads the query
  (`PlanExamples.MemberIsLostQueryIsLed`). Every member is served in every outcome exactly when each that needed an
  index is served by an existing one or replaced by a family left (`IndexCreation.PlanVerdictIff`,
  `IndexCreation.SafeQueriesIff`; for one table `RunVerdict.ReductionVerdict`), and to replace a family is to prescribe
  its cuts and offer its columns (`RunVerdict.AlwaysServesIff`). Guards that hold at every merge are sufficient, not
  necessary (`IndexCreation.SafeMergesAreEnough`, `RunVerdict.LaterMergeRepairs`). For families without a last column
  the condition is on the input alone: no column set is a proper subset of another (`RunVerdict.OpenVerdict`).
* **A merge can be wrong.** It accepts pairs whose merged family does not serve both, and pairs that no index at all can
  serve. For families without repeated columns `FamilyMerging.MergeVerdict` gives both conditions as guards
  (`ShareGuard`, `OrderGuard`) that can be computed before the merge; for any families `FamilyCuts.AnyMergeVerdict`
  gives them by cuts. The source marks one of the branches as "to check".
* **A merge gives indexes away** when it pins two or more columns in an order of its own: an existing index that fits
  both families then need not fit the merged one. It keeps every index for both exactly when it pins at most one
  (`MergeKeepsIndexes.KeepsAllIff`).
* **The order of filters matters.** A filter `x > 1` followed by `x = 2` puts x into both sets, and the index planned for
  it repeats a column; in the other order it does not (`QueryExtraction.FilterOrderExample`,
  `QueryExtraction.SeparatedIff`). When all three sets are disjoint is `QueryExtraction.DisjointIff`.
* **`Covers` is stricter than need be.** An index that leads a query is accepted exactly when it also offers the remaining
  columns in the right place: included or trailing without an inequality column, included with one, and never among
  the leading columns (`QueryExpansion.CoveringIff`). So it rejects (a, b, c) for `a = 1, b > 2, c > 3`
  (`QueryExpansion.GuaranteeIsNotEnough`) and (x) for `x != 1, x = 2` (`QueryExpansion.LeadingColumnIsNotOffered`).
* **Deduplication by printed key** merges different queries when a column name is empty, contains a space, or contains
  a closing bracket, with one collision for each (`Hashing.SpacesMakeHashesCollide`,
  `Hashing.EmptyNamesMakeHashesCollide`, `Hashing.BracketsMakeHashesCollide`). That no name is of this kind is
  sufficient for the keys to be faithful; some queries with such names have keys of their own. Names that keep to the
  rule for new tables and fields (`^[a-z][a-z0-9_]{0,62}$`, usecases/data_model_usecase.go:71) are of none of these kinds
  (`Hashing.ValidNamesAreClean`); the extraction of queries does not check it.
* **The rollover job drops both of two equal indexes** from its list (`IndexPruning.TwinsVanish`); nothing is lost exactly
  when such twins are dominated (`IndexPruning.NothingLostIffTwinsDominated`). It then deletes nothing, whatever the
  input, because no name has both of the prefixes it asks for (`IndexPruning.NothingIsDeleted`).
* **Error keys** tell failures apart exactly by kind and message as long as kinds contain no colon
  (`ErrorGrouping.KeysTellFailures`); "a" with "b:c" and "a:b" with "c" share one (`ErrorGrouping.ColonsConfuseKeys`).
* **Index names.** For different tables the bases of names may agree (`IndexNaming.BaseNamesConfuseTables`). For a base of 53 characters or more, two names are equal exactly when they are made within the same
  block of 65.536 seconds: nothing random is kept of the id (`IndexNaming.CutOffNamesCollide`). `MarshalJSON` names a
  copy, so an unnamed index and its round trip may get different names (`IndexNaming.RoundTripKeepsNameIff`), although
  the comment above the method says that the name is initialised.
* **Rewriting client data** depends on the order of the range loop when quoted keys that strip to the same name differ
  (`DataRewriting.OrderExample`, `DataRewriting.OrderIndependence`).
* **The export of navigation options** depends on the order in which the tables are ranged over when two tables list
  options of one source, unless their lists may be concatenated either way (`NavigationOptions.OrderShowsIff`,
  `NavigationOptions.TwoTablesShowOrderIff`). A model read by the program is not of this kind as long as links and pivots
  agree with the ids of the tables they name: it lists every option under its own table
  (`NavigationPlanning.ReadModelHidesOrder`). Only models built in another way are affected.
* **The table update adapter** forgets how operations with different tags are interleaved, and nothing else
  (`TableOperations.InterleavingIsForgotten`, `TableOperations.SplitForgetsOnlyInterleaving`).

## Model

| member | source | states |
|---|---|---|
| `GoSets.Pigeonhole` | models/concrete_index.go:190-201 | a window as long as a set and containing it lists the set once each: why removing the window from the set is enough |
| `GoSets.StringSet.Slice` | models/aggregate_query.go:39 | the elements of a set in some order, each once |
| `IndexModels.FamilyRef.Copy` | models/index_family.go:51-59 | the same value behind two new, different set pointers |
| `IndexModels.FitsIffWindows` | models/concrete_index.go:165-231 | some order of the flexible columns fits exactly when the windows of the index columns do |
| `IndexModels.WindowChecks` | models/concrete_index.go:161-233 | prefix loop, windows, set removal and the split on the last column decide exactly the declarative meaning of coverage, for every index and family |
| `IndexModels.Covers` | models/concrete_index.go:143-234 | the same with all names folded, on a copy: the caller's family is not changed |
| `IndexModels.WindowCheckIsImplied` | models/concrete_index.go:196-226 | the window comparison made without a last column can never fail after the removal check |
| `IndexModels.CoversFoldedIff` | models/concrete_index.go:203-231 | coverage without slices: leading columns in some order, and each included column included in the index or, without a last column, indexed behind them; for fixed columns too |
| `IndexModels.OrderMayBeFixed` | models/concrete_index.go:172-231 | a family is covered exactly when it is with its flexible columns fixed in some order |
| `IndexModels.CoversServes` | models/concrete_index.go:203-231 | a covering index has the right leading columns and offers every column of the family |
| `Sorting.Sort` | models/aggregate_query.go:40 | a sorted permutation |
| `Sorting.LeIsLexicographic` | models/aggregate_query.go:40 | the order of bytes: a prefix, or smaller where the strings first differ |
| `Sorting.SortedIsUnique` | models/aggregate_query.go:39-41 | two sorted listings of one set are equal, whatever order the set was enumerated in |
| `Hashing.PrintSortedSlice` | models/aggregate_query.go:36-42 | the printed form depends on the set alone, and tells a nil set from an empty one |
| `Hashing.HashTexts` | models/aggregate_query.go:57 | the printed forms of a query, of nil and empty sets, and of a family |
| `Hashing.PrintListDecodes` | models/aggregate_query.go:41 | the printed form of a list of clean names (not empty, no space, no closing bracket), and what follows it, can be read back in one way |
| `Hashing.QueryHashIsFaithful` | models/aggregate_query.go:26-58 | for clean names, equal hashes exactly for equal queries, nil sets told from empty ones |
| `Hashing.ValidNamesAreClean` | usecases/data_model_usecase.go:71 | queries whose names keep to the rule for tables and fields have clean names |
| `Hashing.FamilyHashIsFaithful` | models/index_family.go:27-49 | the same for index families, whose fixed columns and last column are printed too |
| `Hashing.SpacesMakeHashesCollide` | models/aggregate_query.go:57 | a column "a b" and the columns "a", "b" have one hash |
| `Hashing.EmptyNamesMakeHashesCollide` | models/aggregate_query.go:57 | an aggregated field with an empty name, which is not refused, prints like none |
| `Hashing.BracketsMakeHashesCollide` | models/aggregate_query.go:57 | columns "+]", "-", "[b" spell out the end of one list and the beginning of the next |
| `QueryExtraction.AggregationNodeToQueryFamily` | usecases/indexes/aggregate_query.go:112-186 | success exactly when every filter names the table, a field and a known operator; then the sets are those of the conditions, else the error is that of the first improper filter |
| `QueryExtraction.SetsOfFilters` | usecases/indexes/aggregate_query.go:158-183 | by the filters alone: equality columns have an "=" filter; inequality columns a comparison with no "=" before it; other columns one of the eight other operators with neither before it, and the aggregated field if it is in no other set |
| `QueryExtraction.ReadIffProper` | usecases/indexes/aggregate_query.go:136-176 | when one filter can be read, as what, and when its empty field name aborts the extraction |
| `QueryExtraction.ExtractionIsUnique` | usecases/indexes/aggregate_query.go:112-186 | a node has at most one query and one list of conditions |
| `QueryExtraction.EveryColumnIsMentioned` | usecases/indexes/aggregate_query.go:158-183 | the three sets together hold the filtered columns and the aggregated one, and no other |
| `QueryExtraction.SeparatedIff` | usecases/indexes/aggregate_query.go:158-164 | equality and inequality columns are disjoint exactly when no column gets an equality filter after an inequality filter |
| `QueryExtraction.DisjointIff` | usecases/indexes/aggregate_query.go:158-183 | all three sets are disjoint exactly when, besides, no column is tested for equality or inequality after a first test of another kind |
| `QueryExtraction.FilterOrderExample` | usecases/indexes/aggregate_query.go:158-164 | both nodes are extracted: x > 1 and then x = 2 puts x into two sets, the other order into one |
| `QueryExtraction.LateEqualityNeedsRepeatedColumn` | models/aggregate_query.go:94-108 | otherwise a member of the expansion fits only indexes with a repeated column |
| `QueryExpansion.WithLast` | models/aggregate_query.go:94-105 | the member for one inequality column, in sets of its own |
| `QueryExpansion.ToIndexFamilies` | models/aggregate_query.go:60-111 | the output is the expansion as far as keys tell its members apart, for every iteration order; no set is shared with the input, the base or a sibling |
| `QueryExpansion.ExpansionSize` | models/aggregate_query.go:66-108 | none without usable conditions, one with equalities only, else one per inequality column |
| `QueryExpansion.CleanExpansionIsExact` | models/aggregate_query.go:106 | with clean names the output is exactly the expansion |
| `QueryExpansion.ExpansionIsRight` | models/aggregate_query.go:60-111 | an index serves some member exactly when it leads the query: equality columns first in some order, an inequality column next, every column available |
| `QueryExpansion.IndexGuarantee` | models/concrete_index.go:143-234 | an index that `Covers` accepts for any member leads the query |
| `QueryExpansion.CoveringIff` | models/concrete_index.go:143-234 | `Covers` accepts an index for some member exactly when it leads the query and offers the remaining columns where the check looks for them |
| `QueryExpansion.CoverageIsUnambiguous` | models/concrete_index.go:207-210 | if the inequality columns stay distinct when folded, an index covers at most one member |
| `QueryExpansion.GuaranteeIsNotEnough` | models/concrete_index.go:207-215 | an index on (a, b, c) leads a = 1, b > 2, c > 3 and is accepted for no member |
| `QueryExpansion.LeadingColumnIsNotOffered` | models/concrete_index.go:219-231 | an index on (x) leads x != 1, x = 2 and is not accepted: without a last column either |
| `FamilyMerging.CompatibleVerdict` | usecases/indexes/index_family.go:113-273 | two families without repeated columns share an index exactly when the merge is accepted and the share guard holds |
| `FamilyMerging.ServesBothVerdict` | usecases/indexes/index_family.go:113-273 | for them, every index for the merged family serves both exactly when both guards hold |
| `FamilyMerging.RefineIgnoresTables` | usecases/indexes/index_family.go:113-273 | table names play no part in a merge; the result has that of the second family |
| `FamilyMerging.RefineStripped` | usecases/indexes/index_family.go:72-94 | the recursion on a common fixed prefix gives what merging the rest gives, with the prefix in front |
| `FamilyMerging.MergeVerdict` | usecases/indexes/index_family.go:72-273 | both verdicts by guards for any two families without repeated columns, with or without fixed columns |
| `FamilyMerging.OpenOrderExample` | usecases/indexes/index_family.go:246-253 | {a} and {a, b} are merged into {a, b}, and an index on (b, a) does not serve {a} |
| `FamilyMerging.RepeatedColumnExample` | usecases/indexes/index_family.go:115-144 | a merge of families that no index serves, whose result repeats a column |
| `FamilyMerging.UncheckedPrefixExample` | usecases/indexes/index_family.go:228-237 | another one: only the position of the last column is compared with the fixed columns |
| `FamilyCuts.FitsIffCuts` | models/concrete_index.go:165-231 | columns fit a family exactly when they start with each of its cuts; nothing is assumed of the family |
| `FamilyCuts.CutsDecide` | usecases/indexes/index_family.go:113-273 | every index that fits one family fits another exactly when the cuts of the second are among those of the first |
| `FamilyCuts.ChainsDecide` | usecases/indexes/index_family.go:113-273 | two families share an index exactly when any two of their cuts are nested |
| `FamilyCuts.AnyMergeVerdict` | usecases/indexes/index_family.go:72-273 | both verdicts on the merge of any two families, repeated columns included |
| `FamilyCuts.GuardsNeedWellFormed` | usecases/indexes/index_family.go:249-253 | families with a repeated column that share an index though the share guard fails |
| `MergeKeepsIndexes.AcceptedIff` | usecases/indexes/index_family.go:113-273 | which pairs are accepted, whether or not an index can serve both |
| `MergeKeepsIndexes.NoFixedKeepsAllIff` | usecases/indexes/index_family.go:113-273 | of families that share an index, the merge keeps every index for both exactly when it pins at most one column in an order of its own |
| `MergeKeepsIndexes.KeepsAllIff` | usecases/indexes/index_family.go:72-273 | the same for any two families without repeated columns |
| `MergeKeepsIndexes.ArbitraryIsSorted` | usecases/indexes/index_family.go:133-139 | columns pinned in an order of its own come sorted, right after the fixed ones |
| `FamilyRefinement.AllIndexedValues` | models/index_family.go:61-67 | the fixed, flexible and last columns, in a new set |
| `FamilyRefinement.UpdateLast` | models/index_family.go:101-113 | the last column is set, or fixed when nothing is flexible; the sets stay the same objects |
| `FamilyRefinement.MergeIncludedFrom` | models/index_family.go:115-120 | both families' included columns without the indexed ones, in sets of its own |
| `FamilyRefinement.RefineIdxFamilies` | usecases/indexes/index_family.go:72-111 | on shared sets the merge computes the value that the verdicts are about; its sets are new and both inputs are unchanged |
| `FamilyRefinement.RefineFirstHasNoFixed` | usecases/indexes/index_family.go:113-273 | the same for the case without fixed columns |
| `FamilyRefinement.MergeLonger` | usecases/indexes/index_family.go:115-144 | its first case by size |
| `FamilyRefinement.MergeEqual` | usecases/indexes/index_family.go:146-203 | its second case |
| `FamilyRefinement.MergeShorter` | usecases/indexes/index_family.go:205-273 | its third case |
| `MergeRun.CombineInto` | usecases/indexes/index_family.go:28-47 | the first family that can be merged is replaced, at the end of the list |
| `MergeRun.ExtractMinimal` | usecases/indexes/index_family.go:21-50 | the loop over one table computes the run that the lemmas are about |
| `MergeRun.MergeKeepsColumns` | usecases/indexes/index_family.go:72-273 | a merge indexes what either family indexes and neither loses nor invents a column |
| `MergeRun.RunKeepsColumns` | usecases/indexes/index_family.go:28-47 | for every list: columns are conserved, the list gets no longer, and every family is absorbed by one that is left |
| `MergeRun.SafeMerge` | usecases/indexes/index_family.go:72-273 | a merge under both guards stays well formed and on its table, and refines both families |
| `MergeRun.SafeRunRefines` | usecases/indexes/index_family.go:28-47 | when every merge of a run meets the guards, every index for some family left serves each family of the input (sufficient; `RunVerdict.ReductionVerdict` is exact) |
| `HashOrder.SortFamilies` | usecases/indexes/index_family.go:26 | families in the order of their hashes |
| `HashOrder.ByHashSorts` | usecases/indexes/index_family.go:63-70 | a sorted permutation of the input |
| `HashOrder.ReductionIsDeterministic` | usecases/indexes/index_family.go:21-50 | with clean names the run does not depend on the order in which the families came |
| `IndexPlanning.Project` | usecases/indexes/concrete_index.go:17-29 | an index with the family's columns, in some order of the flexible ones |
| `IndexPlanning.NeedsIndex` | usecases/indexes/concrete_index.go:43-54 | whether no existing index covers a family |
| `IndexPlanning.FoldFits` | models/concrete_index.go:148-159 | when folding keeps a family's flexible columns apart, an index that fits it as written fits it folded |
| `IndexPlanning.RefinesFolded` | usecases/indexes/index_family.go:72-273 | an index that serves a refining family on folded names serves the refined one on folded names |
| `IndexPlanning.ProjectionIsCovered` | usecases/indexes/concrete_index.go:16-31 | `Covers` accepts the index made for a family, so it is not made again |
| `RunVerdict.RefinesIffReplaces` | usecases/indexes/index_family.go:72-273 | a family refines another, by all indexes, exactly when it replaces it, by cuts and columns |
| `RunVerdict.AlwaysServesIff` | usecases/indexes/concrete_index.go:16-31 | every index that a family may be projected on serves another family exactly when the first replaces the second on its table |
| `RunVerdict.ReductionVerdict` | usecases/indexes/index_family.go:21-50 | the reduction of a table is right exactly when, whatever index each family left is projected on, some index serves each family that went in |
| `RunVerdict.SafeRunIsRight` | usecases/indexes/index_family.go:28-47 | guards that hold at every merge make it right |
| `RunVerdict.OpenVerdict` | usecases/indexes/index_family.go:21-50 | the reduction of families without fixed and last columns is right exactly when none of their column sets is a proper subset of another |
| `RunVerdict.ReductionLosesFamily` | usecases/indexes/index_family.go:28-47 | from {a} and {a, b}, in either order, {a, b} is left and does not replace {a} |
| `RunVerdict.ReductionKeepsBoth` | usecases/indexes/index_family.go:28-47 | from a = 1 and from a = 1, b > 2 the second family is left and replaces both |
| `RunVerdict.MergedGoesLast` | usecases/indexes/index_family.go:41-47 | from {a}, {c} and then {a, b} what is left is {c} and then {a, b} |
| `RunVerdict.LaterMergeRepairs` | usecases/indexes/index_family.go:28-47 | a run that is right although one of its merges is not safe |
| `PlanVerdict.ProvidedIff` | usecases/indexes/aggregate_query.go:198-199 | a family is served in every outcome exactly when an existing index serves it or a family left replaces it |
| `QueryVerdict.PrescribesIff` | usecases/indexes/concrete_index.go:16-31 | every order of a family's flexible columns starts with the equality columns and goes on with an inequality column exactly when the family prescribes it |
| `QueryVerdict.GuidesIff` | usecases/indexes/concrete_index.go:16-31 | every index that a family may be projected on leads a query exactly when the family guides it, on its table |
| `QueryVerdict.ReplacementGuides` | models/aggregate_query.go:60-111 | a family that replaces a member of an expansion guides the query |
| `QueryVerdict.QueryProvidedIff` | usecases/indexes/aggregate_query.go:198-199 | a query is led in every outcome exactly when an existing index leads it or a family left guides it |
| `IndexCreation.FamiliesToCreate` | usecases/indexes/aggregate_query.go:192-197 | the union of the uncovered members: never more, and with clean names all of them |
| `IndexCreation.GroupByTable` | usecases/indexes/index_family.go:52-61 | every table that occurs has its families, and no other |
| `IndexCreation.ExtractMinimalByTable` | usecases/indexes/index_family.go:10-19 | the families left by the runs of all tables, as far as keys tell them apart |
| `IndexCreation.ProjectFamilies` | usecases/indexes/concrete_index.go:8-34 | exactly one index for each uncovered family, in order |
| `IndexCreation.ReductionIgnoresIteration` | usecases/indexes/index_family.go:10-61 | two listings of the same clean families are reduced alike, table by table |
| `IndexCreation.IndexesToCreate` | usecases/indexes/aggregate_query.go:188-200 | no index is made except for an uncovered family that the reduction leaves; with clean names the result is one of the outcomes that the two plan verdicts are about; so leadable queries are all led, and safe ones have every member served |
| `IndexCreation.PlanVerdictIff` | usecases/indexes/aggregate_query.go:188-200 | every outcome serves every member of every expansion exactly when each that needs an index is served by an existing one or replaced by one left |
| `IndexCreation.SafeQueriesIff` | usecases/indexes/aggregate_query.go:188-200 | the same for members, over every order in which maps may be ranged over |
| `IndexCreation.QueryPlanVerdictIff` | usecases/indexes/aggregate_query.go:188-200 | every outcome leads every usable query exactly when each is led by an existing index or guided by a family left |
| `IndexCreation.LeadableQueriesIff` | usecases/indexes/aggregate_query.go:188-200 | the same for queries, over every order in which maps may be ranged over |
| `IndexCreation.ServedIsLed` | usecases/indexes/aggregate_query.go:188-200 | serving every member leads every usable query |
| `IndexCreation.NamesApart` | usecases/indexes/aggregate_query.go:188-200 | clean names that folding never confuses meet the hypotheses of the verdicts, whatever the reduction leaves |
| `IndexCreation.SafeMergesAreEnough` | usecases/indexes/index_family.go:10-50 | separated queries and guards that hold at every merge make the plan right |
| `PlanExamples.PlanLosesQuery` | usecases/indexes/aggregate_query.go:188-200 | an outcome for a = 1 and a = 1, b = 2 in which no index leads a = 1 |
| `PlanExamples.PlanKeepsBoth` | usecases/indexes/aggregate_query.go:188-200 | a = 1 and a = 1, b > 2 are safe queries, with one merge |
| `PlanExamples.MemberIsLostQueryIsLed` | usecases/indexes/aggregate_query.go:188-200 | b = 1, d = 2, a > 3, e > 4 and a = 1, b > 2: the reduction loses a member, and each query is guided by a family left |
| `IndexPruning.SubsetIsPreorder` | models/concrete_index.go:34-51 | `IsSubset` is reflexive and transitive, and mutual exactly for `Equal` indexes |
| `IndexPruning.SubsetIffCoversLess` | models/concrete_index.go:34-51 | an index with columns is a subset of another exactly when the other covers all that it covers |
| `IndexPruning.BareSubsetIff` | models/concrete_index.go:34-51 | without indexed columns, the other covers as much exactly when it offers the included columns |
| `IndexPruning.DominatingCovers` | models/concrete_index.go:34-51 | what an index covers, every index that dominates it covers |
| `IndexPruning.EqualIndexesCoverAlike` | models/concrete_index.go:137-141 | `Equal` indexes cover the same families |
| `IndexPruning.RemovalsAreSafe` | models/concrete_index.go:34-51 | any sequence of removals, each dominated by an index still there, keeps the set of covered families |
| `IndexPruning.RemoveSubsumed` | usecases/worker_jobs/index_rollover_job.go:105-121 | the indexes that no index of another name dominates, in order |
| `IndexPruning.NothingLostIffTwinsDominated` | usecases/worker_jobs/index_rollover_job.go:105-121 | every index stays dominated by a kept one exactly when equal indexes of different names are themselves strictly dominated |
| `IndexPruning.PruningIsSafe` | usecases/worker_jobs/index_rollover_job.go:105-121 | under that condition no covered family is lost |
| `IndexPruning.TwinsVanish` | usecases/worker_jobs/index_rollover_job.go:109-118 | of two equal indexes with different names neither is kept |
| `IndexPruning.NothingIsDeleted` | usecases/worker_jobs/index_rollover_job.go:123-139 | no index passes the tests for deletion |
| `IndexNaming.ConcreteIndex.SetName` | models/concrete_index.go:94-118 | a name that is set stays; otherwise the generated one |
| `IndexNaming.ConcreteIndex.Name` | models/concrete_index.go:125-130 | the name is never empty, and at most 63 characters if it was generated |
| `IndexNaming.ConcreteIndex.WithName` | models/concrete_index.go:132-135 | a copy with another name; the receiver is unchanged |
| `IndexNaming.ConcreteIndex.MarshalJSON` | models/concrete_index.go:54-71 | the fields with a name, while the receiver stays unnamed |
| `IndexNaming.ConcreteIndex.UnmarshalJSON` | models/concrete_index.go:74-92 | every field but the status is taken over |
| `IndexNaming.NameShape` | models/concrete_index.go:110-117 | the first min(len, 53) characters of the base, "_", and min(36, 62 - that) characters of the id |
| `IndexNaming.NamesCollide` | models/concrete_index.go:110-117 | names over base parts of one length collide exactly when those and the kept id characters agree |
| `IndexNaming.UnevenNamesCollide` | models/concrete_index.go:110-117 | over base parts of different lengths only if the longer base spells out a piece of the other's id |
| `IndexNaming.CollisionWindow` | models/concrete_index.go:112-117 | bases of 49 to 53 characters: how coarse the clock of the id becomes; shorter ones never collide across milliseconds |
| `IndexNaming.CutOffNamesCollide` | models/concrete_index.go:112-117 | a cut-off base: names collide exactly within one block of 65536 milliseconds |
| `IndexNaming.KindShowsInTheName` | usecases/worker_jobs/index_rollover_job.go:125-130 | the prefixes that jobs test for tell exactly the kind of a generated name |
| `IndexNaming.BaseNamesTellColumns` | models/concrete_index.go:99-112 | for one table and columns without dashes, bases agree exactly when prefix and columns do |
| `IndexNaming.BaseNameText` | models/concrete_index.go:99-112 | the base for each kind of index |
| `IndexNaming.BaseNamesConfuseTables` | models/concrete_index.go:111-112 | two tables and columns with one base |
| `IndexNaming.JsonRoundTrip` | models/concrete_index.go:54-92 | the decoded index is `Equal`, and identical exactly if it had a name and the status agrees |
| `IndexNaming.NameIsStable` | models/concrete_index.go:94-130 | a name once given is kept by every later call and round trip |
| `IndexNaming.RoundTripKeepsNameIff` | models/concrete_index.go:54-71 | original and round trip agree on the name exactly if it was set before or the kept id characters agree |
| `ErrorGrouping.KeysTellFailures` | jobs/middlewares.go:75 | for kinds without colons, failures share a key exactly when kind and message agree |
| `ErrorGrouping.ColonsConfuseKeys` | jobs/middlewares.go:75 | with colons they may share one otherwise |
| `ErrorGrouping.LoggerMiddleware.AggregateAndLogError` | jobs/middlewares.go:71-89 | the key's counter is one higher, and a reporter starts exactly when it becomes one |
| `ErrorGrouping.LoggerMiddleware.Work` | jobs/middlewares.go:52-68 | only a failure that is not a snooze counts |
| `ErrorGrouping.Execute` | jobs/middlewares.go:38-89 | the methods take exactly the steps of the transition system |
| `ErrorGrouping.Invariant` | jobs/middlewares.go:71-89 | in every interleaving a key is counted exactly while its group is open, with one sleeping reporter, and past reports were right |
| `ErrorGrouping.NoFailureIsLost` | jobs/middlewares.go:71-89 | failures of a key = closed groups + open group; one closed group per report, none empty |
| `ErrorGrouping.ReportsAreSpaced` | jobs/middlewares.go:79-87 | consecutive reports of one key are at least 30 seconds apart |
| `ErrorGrouping.RunTheorem` | jobs/middlewares.go:38-89 | over every run: the span of n reports, no more reports than failures, and a reporter exactly for the counted keys |
| `ErrorGrouping.ReportsCarryTheError` | jobs/middlewares.go:71-89 | over every run of jobs of such kinds, all failures and reports of one key have the same error |
| `ErrorGrouping.FailureIsReportedInTime` | jobs/middlewares.go:57-89 | in every reachable state a failure 30 seconds old has been followed by a report of its key or has a reporter that may wake up |
| `AstCodec.BuildNameMap` | dto/dto_ast_node.go:74-80 | every name, with one of the functions that have it, in some iteration order |
| `AstCodec.EncodeSucceeds` | dto/dto_ast_node.go:17-44 | a tree is encoded exactly when every function in it has attributes |
| `AstCodec.DecodeSucceeds` | dto/dto_ast_node.go:46-88 | a DTO is decoded exactly when every name in it is known, "Unknown" being read as "Undefined" |
| `AstCodec.TreeRoundTrip` | dto/dto_ast_node.go:17-88 | a tree comes back, without its indexes, exactly when every function in it is the one its name leads back to |
| `AstCodec.InjectiveRoundTrip` | dto/dto_ast_node.go:17-88 | with distinct names, none of them "Unknown", exactly when every function has attributes |
| `AstCodec.DtoRoundTrip` | dto/dto_ast_node.go:17-88 | a decodable DTO comes back with "Unknown" renamed at every depth |
| `AstCodec.NormalisedTwice` | dto/dto_ast_node.go:47-49 | renaming is idempotent |
| `AstCodec.SharedNameIsLost` | dto/dto_ast_node.go:74-80 | of two functions with one name, one does not come back |
| `AstCodec.LeavesAreNamed` | dto/dto_ast_node.go:41-49 | how a single node is written and read, "Unknown" as "Undefined" |
| `DataRewriting.StripQuotes` | dto/client_data_object.go:70 | no quote is left, and a key without quotes is kept |
| `DataRewriting.StripQuotesCharByChar` | dto/client_data_object.go:69 | quotes go, every other character stays, in order |
| `DataRewriting.ClientObjectDetail.RewriteData` | dto/client_data_object.go:62-73 | the loop visits keys in some order that the language allows and leaves what that order leads to |
| `DataRewriting.ClientObjectDetail.RewriteEntry` | dto/client_data_object.go:63-72 | one iteration |
| `DataRewriting.LegalOrderRewrites` | dto/client_data_object.go:62-73 | for every legal order: the keys are the stripped keys, none has a quote, and each entry is the rendered value of a key that strips to it, a quoted one if there is any |
| `DataRewriting.PointsBecomeText` | dto/client_data_object.go:63-66 | after the loop no point is left, and a point whose key no other strips to is there as text |
| `DataRewriting.InjectiveResult` | dto/client_data_object.go:62-73 | if stripping confuses no keys: exactly the stripped and rendered map |
| `DataRewriting.OrderIndependence` | dto/client_data_object.go:62-73 | the result is the same for all legal orders exactly when quoted keys that strip alike have equal rendered values |
| `DataRewriting.OrderShows` | dto/client_data_object.go:62-73 | two quoted keys that strip alike: both orders are legal and the key visited last decides |
| `DataRewriting.OrderExample` | dto/client_data_object.go:62-73 | the keys `"a` and `a"`: two legal orders, two results |
| `DataRewriting.RewritingTwice` | dto/client_data_object.go:54-73 | serialising the shared map again changes nothing |
| `TableOperations.SplitOperations` | dto/data_model_dto.go:285-406 | the lists are what the operations read as, or the error is that of the first that cannot be read |
| `TableOperations.AdaptToUpdateTableCompositeInput` | dto/data_model_dto.go:246-408 | success exactly for valid input; then lossless; else the first error, table values before fields before links |
| `TableOperations.ReplayInvertsSplit` | dto/data_model_dto.go:285-406 | replaying a tag sequence over three lists gives a list of changes exactly if it is split into them with those tags |
| `TableOperations.OperationsAreRebuilt` | dto/data_model_dto.go:285-406 | the operations' tags and the three lists rebuild what every operation reads as; lengths add up |
| `TableOperations.SplitForgetsOnlyInterleaving` | dto/data_model_dto.go:285-406 | lists and tags together determine the changes |
| `TableOperations.InterleavingIsForgotten` | dto/data_model_dto.go:285-406 | without the tags they do not |
| `TableOperations.LosslessIsUnique` | dto/data_model_dto.go:246-408 | the contract of the adapter leaves one result |
| `TableOperations.ErrorIsUnique` | dto/data_model_dto.go:246-408 | and one error, and never both |
| `TableOperations.OnlySoundChanges` | dto/data_model_dto.go:262-404 | no empty id, empty alias or unknown type gets past the adapter |
| `TableOperations.FieldOperationIff` | dto/data_model_dto.go:285-358 | what a field operation reads as, every part of its payload included |
| `TableOperations.LinkOperationIff` | dto/data_model_dto.go:361-405 | the same for link operations |
| `NavigationPlanning.AddNavigationOptions` | models/data_model.go:490-588 | exactly the options that an index supports by a reverse link or a pivot are filed, and each table gets those filed under its name, or keeps its own if there are none |
| `NavigationPlanning.OptionsAreSupported` | models/data_model.go:498-577 | every option filters and orders by an index's first two fields and leads over a link to its table or over a pivot based on it |
| `NavigationPlanning.ReadModelListsOnlyOwn` | models/data_model.go:490-588 | if links and pivots agree with the ids of the tables they name, every table lists only its own options |
| `NavigationPlanning.ReadModelHidesOrder` | models/data_model.go:490-588 | so the export does not show the order of the tables |
| `NavigationOptions.AdaptImportDataModel` | dto/org_export.go:29-77 | for some order of the tables: each table once, and the options grouped as they are met |
| `NavigationOptions.OptionsAreConserved` | dto/org_export.go:35-50 | for every order, the groups hold each option as often as the tables do, under its source table; no group is empty |
| `NavigationOptions.GroupLists` | dto/org_export.go:39-49 | a group is the options of its key in the order met |
| `NavigationOptions.GroupOfOneTable` | dto/org_export.go:37-50 | if one table alone has options with a source, their group is its list, whatever the order |
| `NavigationOptions.OwnOptionsKeepTheirOrder` | dto/org_export.go:37-50 | tables that list only their own options: each group equals the table's list, entry by entry |
| `NavigationOptions.OrderShowsIff` | dto/org_export.go:37-50 | the groups are the same for every order of the tables exactly when, source by source, the lists of any two tables may be concatenated either way |
| `NavigationOptions.TwoTablesShowOrderIff` | dto/org_export.go:37-50 | two tables with one option each: the order shows exactly when the options share their source and differ |
| `ModelConfig.AiAgentModelConfig.Merge` | models/ai_agent_config.go:151-159 | afterwards every own model of a feature and every default is the override's, if it sets it, and else what it was |
| `ModelConfig.AiAgentModelConfig.GetModel` | models/ai_agent_config.go:77-94 | the feature's own model for the tier, else the default |
| `ModelConfig.FeaturesAreSeparate` | models/ai_agent_config.go:50-63 | each feature reads its own override, light and heavy, and no other |
| `ModelConfig.Load` | models/ai_agent_config.go:139-166 | success exactly when both files can be read and the merged defaults are set; else the first of the three errors |
| `ModelConfig.LookupIsLayered` | models/ai_agent_config.go:77-166 | override's feature, base's feature, override's default, base's default: the first that is set |
| `ModelConfig.ValidIffNeverEmpty` | models/ai_agent_config.go:68-94 | validation holds exactly when no lookup, of any feature and tier, is empty |
| `ModelConfig.OverrideIsLocal` | models/ai_agent_config.go:151-159 | an override changes no lookup that it says nothing about |

## Left out

- IndexCreation.IndexesToCreate: promises something about queries only for clean names that folding keeps apart (`NamesApart`); for these the conditions are exact (`LeadableQueriesIff`, `SafeQueriesIff`).
- IndexCreation.FamiliesToCreate: the queries come as a list; the walk over ASTs that collects them into a set, and its logging, are not modelled.
- MergeRun.SafeRunRefines: a sufficient condition; the exact one is in `RunVerdict.ReductionVerdict`.
- FamilyMerging.MergeVerdict: the guards judge families without repeated columns; `FamilyCuts.AnyMergeVerdict` judges all, by cuts instead of guards.
- Hashing.QueryHashIsFaithful: clean names are sufficient, not necessary, for faithful keys.
- FamilyRefinement.RefineIdxFamilies: a refused merge returns nothing, where the code returns an empty family and a flag; slices are values, so that `PrependPrefix` may write into the array behind the first family's fixed columns is not captured. In a reduction that family is being replaced.
- FamilyMerging.RefineStripped: the merged family of two families with a common fixed prefix has no table name, as in the code; no such pair occurs in a reduction, where one side has no fixed columns.
- HashOrder.SortFamilies: an insertion sort stands for the library's sort, which is not part of this model.
- QueryExpansion.ToIndexFamilies: the library's sets and hash sets are sets with unspecified iteration order and a key per element; their internals are not modelled.
- IndexNaming.ConcreteIndex.Name: an id that would be drawn at random is a parameter; characters stand for bytes.
- IndexNaming.ConcreteIndex.MarshalJSON: JSON text is not modelled, only the record that is written and read.
- ErrorGrouping.Invariant: counters are unbounded, so a counter that wraps around is not captured; the lock is modelled by atomic steps; logging, metrics and the reporting service are not.
- AstCodec.EncodeSucceeds: which error is returned is not kept; constants are copied without looking at them.
- DataRewriting.ClientObjectDetail.RewriteData: the number format of coordinates is a parameter; annotations and related objects are not modelled.
- TableOperations.AdaptToUpdateTableCompositeInput: JSON decoding and the enumerations of entities, types and properties are parameters; the two loops of the code share one method; on an error the half-filled result is not returned.
- NavigationOptions.AdaptImportDataModel: links and pivots, which are mapped one by one, and the fields of a table other than its id and options.
- NavigationPlanning.AddNavigationOptions: names of fields and the status of an option, which the export drops; the contract says which options are filed, not how often each is.
- ModelConfig.Load: opening and decoding the files; what reading each came to is a parameter. The merge library is modelled by its effect on these fields.
- `strings.ToUpper`: only that it maps nothing but the empty string to the empty string; real folding is not modelled.
- The first loop of the rollover job, which keeps the indexes that cover some required family.
- Request handlers, process wiring, database access and calls to other services.
- Tables from enumerations to strings and the status transitions of cases.
