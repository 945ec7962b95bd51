# Data cleaning and knowledge-graph core, modelled in Dafny

This project models the data-handling core of the `Files_Deep_Learning`
repository. Four Python components are covered:

- **`AIToolsDataCleaner`** (`NeuraGuide/data_cleaner.py`) keeps a list of
  tool records, which are dictionaries from column name to text. It applies
  these passes in order:
  - load: rows without a Tool Name are skipped;
  - clean: each field is normalised; Pricing Model is classified and a year
    is picked out of Launch Year;
  - deduplicate: similar tools (by name containment or shared web domain)
    are grouped greedily and each group is merged into one record;
  - categorize: tools marked "General" get a category by keyword;
  - enhance: missing Key Features and generic Target Users are filled in
    from the category;
  - statistics: counts per value.
- **`DuplicateHandler`** (`NeuraGuide/data_validation_pipeline.py`) groups
  the rows of a table that agree on Tool Name, Company and Website, scores
  the rows of each group and keeps the best one. It returns the cleaned
  table and the removed rows.
- **`DataCleaningPipeline`** (`NeuraGuide/data_cleaning_pipeline.py`) holds
  a table (`df`), its original shape and a cleaning report. Its operations
  are: load, drop duplicate rows, handle missing values (drop, fill,
  forward fill, backward fill, or auto: median for numeric columns, mode
  for the rest), standardise text columns, rename columns (optionally to
  snake_case), remove columns, and reset the index.
- **The capstone knowledge-graph script**
  (`Capstone/capstone_knowledge_graph.py`) turns the lines of a scheme of
  work into week/topic pairs and emits Cypher statements. Week markers are
  found with a `WEEK <n>` pattern, with `<n>` written as digits or as
  ONE..TEN. The topic comes from the same line or from the next lines. The
  pairs are de-duplicated by week (first wins) and sorted by week. A
  concept id is built from a slug of the topic.

## Files

| file | module | contents |
|---|---|---|
| `wrappers.dfy` | `Wrappers` | `Option` |
| `text.dfy` | `Text` | ASCII character classes and the string operations Python provides: `lower`, `upper`, `strip`, `in`, `title`, `str(int)`, whitespace collapsing |
| `tool_records.dfy` | `ToolRecords` | a tool record: an insertion-ordered dictionary from column name to text |
| `data_cleaner.dfy` | `DataCleaner` | `AIToolsDataCleaner` (a class whose `toolsData` field the passes reassign) and the functions that specify each pass |
| `frames.dfy` | `Frames` | a table: column labels, index labels, and rows of cells (missing, text, number); the pandas operations the core uses |
| `stats.dfy` | `Stats` | sorting, median, the string and cell orders, and mode |
| `duplicate_handler.dfy` | `DuplicateHandler` | `DuplicateHandler`, as pure functions on tables |
| `cleaning_pipeline.dfy` | `CleaningPipeline` | `DataCleaningPipeline` (a class with `df`, `originalShape` and `report`), plus the specification functions of its operations |
| `knowledge_graph.dfy` | `KnowledgeGraph` | week normalisation, slug, the week/topic scan (methods with loops), and the Cypher generation |

## Model

| member | source | states |
|---|---|---|
| Text.Lower | NeuraGuide/data_cleaner.py:28 | `str.lower` on ASCII: same length; each character is mapped by `ToLower`, which leaves no upper-case letter and keeps letters, digits and spaces in their class |
| Text.Strip | NeuraGuide/data_cleaner.py:28 | `str.strip`: the result is no longer than the input and neither starts nor ends with whitespace |
| Text.TrimKeepsFiltered | NeuraGuide/data_cleaner.py:28 | trimming characters of one class leaves the characters of any disjoint kept class unchanged, in order |
| Text.StripUpper | Capstone/capstone_knowledge_graph.py:13 | `strip` and `upper` commute, so `token.strip().upper()` is the same whichever is applied first |
| Text.LowerUpper | Capstone/capstone_knowledge_graph.py:13 | helper: lower-casing an upper-cased string is the same as lower-casing the original |
| Text.ContainsIff | NeuraGuide/data_cleaner.py:51 | Python's substring test `a in b` holds exactly when `a` occurs at some position of `b` |
| Text.EmptyOccursEverywhere | NeuraGuide/data_cleaner.py:51 | helper: the empty string is contained in every string |
| Text.TitleShape | NeuraGuide/data_cleaner.py:132 | `str.title`: non-letters are unchanged; a letter that starts a word becomes upper-case and a letter that follows a letter becomes lower-case |
| Text.CollapseShape | NeuraGuide/data_cleaner.py:30 | `re.sub(r'\s+', ' ', ...)`: the result holds no whitespace other than spaces, and no two spaces are adjacent |
| Text.CollapseRun | NeuraGuide/data_cleaner.py:30 | a maximal whitespace run at the front becomes exactly one space, followed by the collapse of what comes after the run |
| Text.CollapseNone | NeuraGuide/data_cleaner.py:30 | text without whitespace is left unchanged |
| Text.CollapseAppend | NeuraGuide/data_cleaner.py:30 | collapsing works piece by piece across any cut that is not inside a whitespace run; with CollapseRun and CollapseNone this places one space exactly where each maximal whitespace run was |
| Text.CollapseKeeps | NeuraGuide/data_cleaner.py:30 | collapsing whitespace keeps every non-space character, in order |
| Text.NatToString | Capstone/capstone_knowledge_graph.py:80 | decimal rendering of a natural number: non-empty, all digits, and it parses back to the number |
| Text.IntToString | Capstone/capstone_knowledge_graph.py:80 | `str(int)`: the decimal digits, with a leading '-' for a negative number |
| Text.UpperAllDigits | Capstone/capstone_knowledge_graph.py:13-14 | `isdigit` after `upper` holds exactly when it held before |
| Text.Join | Capstone/capstone_knowledge_graph.py:96 | `"\n".join`: no parts give the empty string, and one part gives that part |
| Text.JoinAppend | Capstone/capstone_knowledge_graph.py:96 | joining two non-empty lists puts exactly one separator between the two joined halves |
| Text.JoinLast | Capstone/capstone_knowledge_graph.py:96 | with two or more parts, the last part follows the join of the others after one separator |
| Text.JoinLength | Capstone/capstone_knowledge_graph.py:96 | the joined length is the sum of the part lengths plus one separator for each pair of neighbours |
| ToolRecords.Put | NeuraGuide/data_cleaner.py:78 | assigning a field: the key now maps to the value; every other key is unchanged; a new key is appended to the key order and an existing key keeps its place |
| ToolRecords.Get | NeuraGuide/data_cleaner.py:55 | `dict.get(k, default)`: the stored value when the key is present, otherwise the default |
| DataCleaner.NormalizeText | NeuraGuide/data_cleaner.py:24-31 | `normalize_text`: empty in, empty out; only lower-case word characters and single spaces remain; the word characters are exactly those of the lower-cased input |
| DataCleaner.NormalizeKeepsWords | NeuraGuide/data_cleaner.py:28-30 | the normalisation steps drop no word character of the lower-cased text |
| DataCleaner.NormalizeSpacing | NeuraGuide/data_cleaner.py:30 | the normalised text has no two adjacent spaces |
| DataCleaner.ExtractDomain | NeuraGuide/data_cleaner.py:33-39 | `extract_domain`: the network location after `//`, lower-cased; it is empty when the text after the scheme does not start with `//` |
| DataCleaner.TakeUntil | NeuraGuide/data_cleaner.py:36 | the network location is the longest prefix without `/`, `?` or `#` |
| DataCleaner.AreSimilarSymmetric | NeuraGuide/data_cleaner.py:41-61 | `are_similar_tools` gives the same answer with its arguments swapped |
| DataCleaner.EmptyNameSimilarToAll | NeuraGuide/data_cleaner.py:51 | a tool whose normalised name is empty is similar to every tool, because the empty string is contained in every name |
| DataCleaner.DomainClause | NeuraGuide/data_cleaner.py:54-61 | without a domain, similarity is name equality or containment; when the names are unrelated, the tools are similar exactly when both have the same non-empty domain |
| DataCleaner.BaseIndexMax | NeuraGuide/data_cleaner.py:69 | `max(tools, key=...)`: the base record has the greatest count of known fields, and every earlier record has a strictly smaller count |
| DataCleaner.MergeFieldFacts | NeuraGuide/data_cleaner.py:76-85 | merging one field: a missing or "Unknown" field takes the other value. A known Description is replaced exactly when the other one is strictly longer. Known Key Features: an incoming "See website" changes nothing; otherwise a current "See website" is replaced, and any other current value becomes `cur + ", " + v`. Any other known field keeps its value |
| DataCleaner.MergeFromFacts | NeuraGuide/data_cleaner.py:76-85 | merging one tool: the keys become the union of both tools' keys; known fields other than Description and Key Features keep their values, and settled Key Features are only extended |
| DataCleaner.MergedGroup | NeuraGuide/data_cleaner.py:63-87 | `merge_tools`: `None` exactly for an empty group |
| DataCleaner.MergedGroupFacts | NeuraGuide/data_cleaner.py:63-87 | the merged record has every key of every member, and it keeps the base record's known fields other than Description and Key Features. The base record's settled Key Features are a prefix of the merged ones |
| DataCleaner.MergeInto | NeuraGuide/data_cleaner.py:76-85 | the field loop of `merge_tools` computes the field-by-field merge |
| DataCleaner.MergeTools | NeuraGuide/data_cleaner.py:63-87 | the merge loop over the group computes `MergedGroup` |
| DataCleaner.StripHttp | NeuraGuide/data_cleaner.py:133-134 | a value starting with `http` has no leading whitespace, so `strip()` removes trailing whitespace only and keeps the `http` prefix |
| DataCleaner.CleanWebsite | NeuraGuide/data_cleaner.py:133-134 | the cleaned Website is empty exactly when the raw value does not start with `http`; otherwise it is `value.strip()`, which here removes only trailing whitespace, and still starts with `http` |
| DataCleaner.PricingOutcomes | NeuraGuide/data_cleaner.py:141-152 | an empty price gives "Unknown". Otherwise, on the stripped, lower-cased value, the first matching rule wins: "free" and "trial" give "Freemium"; "free" alone gives "Free"; "subscription" or "monthly" gives "Subscription"; "pay" gives "Pay-per-use". With none of the keywords, the raw value is title-cased |
| DataCleaner.PricingIgnoresCase | NeuraGuide/data_cleaner.py:142 | the pricing class does not depend on the case of the input |
| DataCleaner.FindYearLeftmost | NeuraGuide/data_cleaner.py:155 | the year search finds the leftmost `20dd` with word boundaries, or reports that there is none |
| DataCleaner.CleanYearFacts | NeuraGuide/data_cleaner.py:153-156 | the cleaned year is "Unknown" exactly when no year occurs; otherwise it is the four characters of the leftmost occurrence |
| DataCleaner.CleanRecordFacts | NeuraGuide/data_cleaner.py:126-159 | cleaning a record keeps its keys and their order, and every field is cleaned by the rule for its name |
| DataCleaner.CleanRecordValue | NeuraGuide/data_cleaner.py:130-158 | a field is present after cleaning exactly when it was before; every field except Primary Function is the cleaned form of its own raw value |
| DataCleaner.NameSurvives | NeuraGuide/data_cleaner.py:131-162 | a record survives `clean_data` exactly when its stripped raw Tool Name is non-empty |
| DataCleaner.CleanAll | NeuraGuide/data_cleaner.py:120-165 | the cleaned list is no longer than the input, and every record in it has a non-empty Tool Name |
| DataCleaner.CleanAllKeeps | NeuraGuide/data_cleaner.py:124-164 | cleaning then filtering equals filtering by raw name then cleaning, so the survivors keep their input order |
| DataCleaner.CleanAllWellFormed | NeuraGuide/data_cleaner.py:120-165 | every cleaned record is a well-formed dictionary |
| DataCleaner.CleanTool | NeuraGuide/data_cleaner.py:127-158 | the field loop computes the cleaned record |
| DataCleaner.GroupingMembers | NeuraGuide/data_cleaner.py:172-190 | every index not yet processed lands in some group, and no other index does |
| DataCleaner.GroupingDistinct | NeuraGuide/data_cleaner.py:172-190 | no index lands in two groups |
| DataCleaner.GroupingLeaders | NeuraGuide/data_cleaner.py:175-180 | every group is led by its smallest index; leaders are unprocessed indices and come in increasing order |
| DataCleaner.GroupingSimilar | NeuraGuide/data_cleaner.py:182-188 | every member of a group is similar to its leader, and members follow their leader in index order |
| DataCleaner.GroupingGreedy | NeuraGuide/data_cleaner.py:182-188 | no tool in a later group is similar to an earlier group's leader, so each leader takes all similar tools still free |
| DataCleaner.SimilarGroupsPartition | NeuraGuide/data_cleaner.py:172-190 | the groups partition the indices, with the leader, similarity and greedy properties above |
| DataCleaner.GroupTools | NeuraGuide/data_cleaner.py:172-190 | the two nested loops with `processed_indices` compute the grouping, and the group contents are the tools at those indices |
| DataCleaner.CollectGroup | NeuraGuide/data_cleaner.py:179-188 | the inner loop collects the leader and its free similar followers, and marks them processed |
| DataCleaner.MergeAllFacts | NeuraGuide/data_cleaner.py:193-197 | when every group merges to a truthy record, there is one output per group, in group order |
| DataCleaner.MergeEach | NeuraGuide/data_cleaner.py:193-197 | the merge loop keeps each truthy merged record |
| DataCleaner.DedupFacts | NeuraGuide/data_cleaner.py:167-200 | after deduplication there is one record per group, and each is its group's merge; none are lost, and all still have a Tool Name |
| DataCleaner.DissimilarToolsKept | NeuraGuide/data_cleaner.py:167-200 | when no two tools are similar, deduplication returns the list unchanged |
| DataCleaner.CategoryFrom | NeuraGuide/data_cleaner.py:229-234 | the category chosen is the first in dictionary order with a keyword in the text, and none before it matches |
| DataCleaner.CategoryNamesNotGeneral | NeuraGuide/data_cleaner.py:206-221 | helper: no category name is "General" |
| DataCleaner.RecategorizeFacts | NeuraGuide/data_cleaner.py:225-234 | only tools marked "General" (in Category or Primary Function) with a matching keyword change. Both fields then become the first matching category, and every other field is unchanged |
| DataCleaner.RecategorizeIdempotent | NeuraGuide/data_cleaner.py:225-234 | recategorizing twice equals recategorizing once |
| DataCleaner.CountIsChanged | NeuraGuide/data_cleaner.py:223-236 | `categorized_count` equals the number of records whose recategorization changed them, and is at most the list length |
| DataCleaner.RecategorizeTool | NeuraGuide/data_cleaner.py:226-234 | the keyword loop recategorizes one tool and reports whether it did |
| DataCleaner.FeaturesFrom | NeuraGuide/data_cleaner.py:258-261 | the features chosen are those of the first category key contained in the lower-cased category |
| DataCleaner.EnhanceFacts | NeuraGuide/data_cleaner.py:238-276 | only Key Features and Target Users change. Key Features change only when they were "See website" or empty, and then to the first matching feature list. Target Users change only from "General", to the users derived from the category |
| DataCleaner.FeaturesSet | NeuraGuide/data_cleaner.py:247-256 | helper: every feature list is non-empty and is not "See website" |
| DataCleaner.UsersNotGeneral | NeuraGuide/data_cleaner.py:267-276 | helper: the derived target users are never "General" |
| DataCleaner.EnhanceIdempotent | NeuraGuide/data_cleaner.py:238-276 | enhancing twice equals enhancing once |
| DataCleaner.FillFeatures | NeuraGuide/data_cleaner.py:244-261 | the feature-map loop computes the Key Features update |
| DataCleaner.NarrowUsers | NeuraGuide/data_cleaner.py:264-276 | the chain of category tests computes the Target Users update |
| DataCleaner.TallyCounts | NeuraGuide/data_cleaner.py:300-307 | a `defaultdict(int)` tally has exactly the values seen, each with its number of occurrences |
| DataCleaner.StatsFacts | NeuraGuide/data_cleaner.py:290-319 | `total_tools` is the list length. Categories, pricing models and target users count each value's occurrences, with "Unknown" for a missing field. Launch years count every year except "Unknown" |
| DataCleaner.KnownYearsCount | NeuraGuide/data_cleaner.py:305-307 | the years tallied are those of the Launch Year column with "Unknown" removed |
| DataCleaner.RowsWithName | NeuraGuide/data_cleaner.py:103-108 | the loaded rows are input rows with a non-empty Tool Name |
| DataCleaner.AIToolsDataCleaner.constructor | NeuraGuide/data_cleaner.py:19-22 | a new cleaner holds no tools |
| DataCleaner.AIToolsDataCleaner.LoadRows | NeuraGuide/data_cleaner.py:103-109 | the rows with a Tool Name are appended in order, and the count loaded is their number |
| DataCleaner.AIToolsDataCleaner.CleanData | NeuraGuide/data_cleaner.py:120-165 | `tools_data` becomes the cleaned list (see CleanAll and the lemmas on it) |
| DataCleaner.AIToolsDataCleaner.DeduplicateData | NeuraGuide/data_cleaner.py:167-200 | `tools_data` becomes one merged record per similarity group (see DedupFacts) |
| DataCleaner.AIToolsDataCleaner.CategorizeUncategorizedTools | NeuraGuide/data_cleaner.py:202-236 | every tool is recategorized in place, and the count returned is the number changed |
| DataCleaner.AIToolsDataCleaner.EnhanceData | NeuraGuide/data_cleaner.py:238-276 | every tool is enhanced in place |
| DataCleaner.AIToolsDataCleaner.GenerateStatistics | NeuraGuide/data_cleaner.py:290-319 | the statistics returned are those of the current list (see StatsFacts), and the list is not changed |
| Frames.ResetIndex | NeuraGuide/data_cleaning_pipeline.py:272 | `reset_index(drop=True)`: same rows and columns, labels `0..n-1` |
| Frames.Select | NeuraGuide/data_validation_pipeline.py:24 | boolean selection keeps the rows whose mask is true, with their labels, in order |
| Frames.KeptIff | NeuraGuide/data_validation_pipeline.py:24 | a row position is selected exactly when its mask is true |
| Frames.KeptSplit | NeuraGuide/data_validation_pipeline.py:44-45 | a mask and its negation select all the rows between them |
| Frames.CountMissingZero | NeuraGuide/data_cleaning_pipeline.py:100 | `isnull().sum().sum()` is zero exactly when no cell is missing |
| Frames.MissingIn | NeuraGuide/data_cleaning_pipeline.py:100 | the missing cells in a row: at most the row length, and zero exactly when none is missing |
| Frames.Complete | NeuraGuide/data_cleaning_pipeline.py:106 | a row counts as complete exactly when none of the chosen columns is missing in it |
| Frames.DropNaComplete | NeuraGuide/data_cleaning_pipeline.py:106 | `dropna(subset=...)` leaves no missing value in the chosen columns, and keeps every row that had none |
| Frames.SetColumnTwice | NeuraGuide/data_cleaning_pipeline.py:188-194 | assigning a column twice equals assigning it the second time only |
| Frames.MapColumnsOthers | NeuraGuide/data_cleaning_pipeline.py:110-119 | a per-column rewrite leaves the unchosen columns unchanged |
| Frames.MapColumnsOnce | NeuraGuide/data_cleaning_pipeline.py:122-130 | with an idempotent rewrite, each chosen column ends as the rewrite of its original |
| Frames.Duplicated | NeuraGuide/data_cleaning_pipeline.py:81 | `duplicated(subset, keep)`: a row is flagged exactly when an earlier row (keep first), a later row (keep last) or any other row (keep False) has the same key |
| Frames.DropDuplicates | NeuraGuide/data_cleaning_pipeline.py:81 | `drop_duplicates` returns an `empty` table (no rows or no columns) unchanged. It keeps exactly the rows `duplicated` does not flag otherwise: same columns, no more rows |
| Frames.FirstSame | NeuraGuide/data_cleaning_pipeline.py:81 | the first row with the same key as a given row |
| Frames.DropFirstKeepsFirst | NeuraGuide/data_cleaning_pipeline.py:81 | with `keep='first'`, the first row of every key survives. In a table with at least one column, no two remaining rows share a key |
| Frames.ColumnsKept | NeuraGuide/data_cleaning_pipeline.py:262 | the positions kept by `drop(columns=...)` are exactly those not dropped, in order |
| Frames.DropColumns | NeuraGuide/data_cleaning_pipeline.py:262 | `drop(columns=...)` keeps the index and every row, projected onto the kept columns |
| Frames.FillCol | NeuraGuide/data_cleaning_pipeline.py:110 | `fillna(v)` replaces exactly the missing cells by `v` |
| Frames.LastPresent | NeuraGuide/data_cleaning_pipeline.py:114 | forward fill: the nearest present value at or above the row, and missing only when there is none |
| Frames.NextPresent | NeuraGuide/data_cleaning_pipeline.py:118 | backward fill: the nearest present value at or below the row, and missing only when there is none |
| Frames.ApplyOp | NeuraGuide/data_cleaning_pipeline.py:109-119 | a fill operation never changes a present cell |
| Frames.FillColumnsFewer | NeuraGuide/data_cleaning_pipeline.py:109-119 | filling never increases the number of missing cells |
| Frames.FillWithComplete | NeuraGuide/data_cleaning_pipeline.py:110 | filling the chosen columns with a present value leaves none of them missing |
| Stats.SortReals | NeuraGuide/data_cleaning_pipeline.py:125 | the values the median is read from, sorted and a permutation of the input |
| Stats.MedianSplits | NeuraGuide/data_cleaning_pipeline.py:125 | the median has at most half the values strictly below it and at most half strictly above it |
| Stats.StrLessTotal | NeuraGuide/data_cleaning_pipeline.py:128 | the code-point order on strings is total, so the least mode is well defined |
| Stats.StrLessTransitive | NeuraGuide/data_cleaning_pipeline.py:128 | the code-point order on strings is transitive |
| Stats.CellLessTotal | NeuraGuide/data_cleaning_pipeline.py:128 | the order on cells is total |
| Stats.CellLessTransitive | NeuraGuide/data_cleaning_pipeline.py:128 | the order on cells is transitive |
| Stats.Mode | NeuraGuide/data_cleaning_pipeline.py:128-130 | `mode()[0]`: a value of the column that occurs as often as any other, and is the least among those that do |
| Stats.FirstModeUnique | NeuraGuide/data_cleaning_pipeline.py:128-130 | only one value has that property |
| Stats.Present | NeuraGuide/data_cleaning_pipeline.py:128 | the values `mode` counts: exactly the column's non-missing values |
| Stats.Numbers | NeuraGuide/data_cleaning_pipeline.py:125 | the values `median` reads: exactly the column's numbers |
| Stats.AutoValue | NeuraGuide/data_cleaning_pipeline.py:121-131 | the auto fill value is missing exactly when the whole column is missing |
| Stats.AutoValueCases | NeuraGuide/data_cleaning_pipeline.py:121-131 | a numeric column with numbers gets its median; an all-missing numeric column gets nothing; any other column gets its first mode, which occurs in the column |
| DuplicateHandler.KeyPs | NeuraGuide/data_validation_pipeline.py:20 | the positions of the three key columns |
| DuplicateHandler.DupMask | NeuraGuide/data_validation_pipeline.py:24 | `duplicated(keep=False)`: a row is flagged exactly when another row agrees with it on all three keys |
| DuplicateHandler.DupAtIff | NeuraGuide/data_validation_pipeline.py:24 | the `keep=False` case of the general `duplicated` gives that same mask |
| DuplicateHandler.MissingKeysMatch | NeuraGuide/data_validation_pipeline.py:24-41 | rows missing all three keys count as duplicates of each other and share a group |
| DuplicateHandler.FindDuplicates | NeuraGuide/data_validation_pipeline.py:22-24 | `find_duplicates` returns the flagged rows with their labels, in order |
| DuplicateHandler.FindDuplicatesIff | NeuraGuide/data_validation_pipeline.py:22-24 | a row is returned exactly when another row shares its key |
| DuplicateHandler.Group | NeuraGuide/data_validation_pipeline.py:41 | `groupby` on the keys: the group of a row holds, in order, only rows with the same key |
| DuplicateHandler.GroupComplete | NeuraGuide/data_validation_pipeline.py:41 | every row with the same key is in the group |
| DuplicateHandler.GroupShared | NeuraGuide/data_validation_pipeline.py:41 | rows with the same key have the same group |
| DuplicateHandler.GroupAllDuplicated | NeuraGuide/data_validation_pipeline.py:41 | every member of a duplicate's group is a duplicate |
| DuplicateHandler.Completeness | NeuraGuide/data_validation_pipeline.py:29 | `notna().sum(axis=1)`: at most the row length, and equal to it exactly when no cell is missing |
| DuplicateHandler.ArgMax | NeuraGuide/data_validation_pipeline.py:34 | `idxmax`: a greatest score, and the first one |
| DuplicateHandler.Best | NeuraGuide/data_validation_pipeline.py:26-34 | `rank_records`: the row of the group with the greatest score, where the score is completeness plus reviews, rating and year (missing as 0) minus the position in the group. Every earlier member scores strictly lower |
| DuplicateHandler.Keeper | NeuraGuide/data_validation_pipeline.py:41 | the kept row of a group shares the group's key |
| DuplicateHandler.KeeperShared | NeuraGuide/data_validation_pipeline.py:41 | all rows of a group agree on the kept row |
| DuplicateHandler.CleanMask | NeuraGuide/data_validation_pipeline.py:43 | the cleaned rows are exactly those not removed |
| DuplicateHandler.RemoveDuplicates | NeuraGuide/data_validation_pipeline.py:36-47 | `remove_duplicates`: with no duplicates, the table itself and an empty table. Otherwise the surviving rows relabelled `0..n-1`, and the removed rows with their labels. Together they hold every row once |
| DuplicateHandler.CleanAt | NeuraGuide/data_validation_pipeline.py:43 | a row survives exactly when it is not a duplicate or it is its group's kept row |
| DuplicateHandler.OneSurvivorPerGroup | NeuraGuide/data_validation_pipeline.py:41-43 | from each duplicate group, the kept row and only the kept row survives |
| DuplicateHandler.UniqueRowsSurvive | NeuraGuide/data_validation_pipeline.py:42-43 | a row with no duplicate survives and is not removed |
| DuplicateHandler.SurvivorsDistinct | NeuraGuide/data_validation_pipeline.py:41-43 | no two surviving rows share a key |
| DuplicateHandler.CleanedHasNoDuplicates | NeuraGuide/data_validation_pipeline.py:36-47 | the cleaned table has no duplicates |
| DuplicateHandler.RemoveDuplicatesIdempotent | NeuraGuide/data_validation_pipeline.py:36-47 | running `remove_duplicates` on the cleaned table returns it unchanged with nothing removed |
| CleaningPipeline.Chosen | NeuraGuide/data_cleaning_pipeline.py:102-103 | the columns acted on: the named ones, in the order given, or all columns when none are named |
| CleaningPipeline.StrategyOf | NeuraGuide/data_cleaning_pipeline.py:105-121 | parsing a strategy name: a recognised strategy is the one whose name was given |
| CleaningPipeline.StrategyNamesParse | NeuraGuide/data_cleaning_pipeline.py:105-121 | helper: each strategy's name parses back to that strategy |
| CleaningPipeline.AutoColumn | NeuraGuide/data_cleaning_pipeline.py:122-130 | auto-filling a column keeps its present cells and leaves a cell missing only when the whole column is missing |
| CleaningPipeline.AutoColumnIdempotent | NeuraGuide/data_cleaning_pipeline.py:122-130 | auto-filling a column twice equals doing it once |
| CleaningPipeline.AutoFilledColumnwise | NeuraGuide/data_cleaning_pipeline.py:122-130 | the auto strategy fills each chosen column from that column alone, and leaves the other columns unchanged |
| CleaningPipeline.AutoFill | NeuraGuide/data_cleaning_pipeline.py:122-130 | the per-column loop of the auto strategy computes the auto-filled table |
| CleaningPipeline.Handled | NeuraGuide/data_cleaning_pipeline.py:100-131 | `handle_missing_values` on the table: the columns are unchanged |
| CleaningPipeline.HandledFewerMissing | NeuraGuide/data_cleaning_pipeline.py:100-134 | no strategy increases the missing-value count, so `missing_values_handled` is never negative |
| CleaningPipeline.DropLeavesNoMissing | NeuraGuide/data_cleaning_pipeline.py:105-106 | after 'drop', no remaining row has a missing value in the chosen columns |
| CleaningPipeline.FillLeavesNoMissing | NeuraGuide/data_cleaning_pipeline.py:109-110 | after 'fill' with a present value, the chosen columns have no missing value, and the rows and labels are kept |
| CleaningPipeline.ForwardFillNearest | NeuraGuide/data_cleaning_pipeline.py:113-114 | after 'ffill', a chosen cell holds the nearest present value at or above it in its column, and is missing only when there is none |
| CleaningPipeline.BackwardFillNearest | NeuraGuide/data_cleaning_pipeline.py:117-118 | after 'bfill', a chosen cell holds the nearest present value at or below it in its column, and is missing only when there is none |
| CleaningPipeline.AutoFillsWithStatistic | NeuraGuide/data_cleaning_pipeline.py:121-131 | after 'auto', a missing cell of a numeric column holds the column median. In any other column it holds the column's first mode. It stays missing exactly when the whole column is missing |
| CleaningPipeline.TextStep | NeuraGuide/data_cleaning_pipeline.py:190-194 | one `astype(str).str.<op>` step: every cell becomes the operation applied to its text form |
| CleaningPipeline.StripStep | NeuraGuide/data_cleaning_pipeline.py:189-190 | when enabled, the text neither starts nor ends with whitespace; otherwise it is unchanged |
| CleaningPipeline.LowerStep | NeuraGuide/data_cleaning_pipeline.py:191-192 | when enabled, no upper-case letter remains and whitespace stays in place; otherwise the text is unchanged |
| CleaningPipeline.SpecialStep | NeuraGuide/data_cleaning_pipeline.py:193-194 | when enabled, only letters, digits and whitespace remain; it never introduces an upper-case letter; otherwise the text is unchanged |
| CleaningPipeline.Steps | NeuraGuide/data_cleaning_pipeline.py:188-194 | the three steps together leave text of the shape the enabled flags promise |
| CleaningPipeline.Standardized | NeuraGuide/data_cleaning_pipeline.py:188-194 | a standardised cell has the promised shape, and with no flag set it is unchanged |
| CleaningPipeline.StandardizedShape | NeuraGuide/data_cleaning_pipeline.py:185-194 | after `standardize_text`, every chosen cell has the promised shape and the other columns are unchanged |
| CleaningPipeline.MissingBecomesNan | NeuraGuide/data_cleaning_pipeline.py:190-194 | with any flag set, a missing cell becomes the text "nan" |
| CleaningPipeline.SpecialAfterStripKeepsBlanks | NeuraGuide/data_cleaning_pipeline.py:189-194 | strip runs before special-character removal, so `"#  a"` becomes `"  a"`: the blanks that were inside the stripped text stay at its front |
| CleaningPipeline.StandardizeColumn | NeuraGuide/data_cleaning_pipeline.py:189-194 | the three conditional column assignments produce the standardised column |
| CleaningPipeline.ObjectPositions | NeuraGuide/data_cleaning_pipeline.py:185-186 | `select_dtypes(include=['object'])`: exactly the non-numeric columns, in order |
| CleaningPipeline.SplitCamel | NeuraGuide/data_cleaning_pipeline.py:243 | `(?<!^)(?=[A-Z])` → `_`: the first character stays first; every upper-case letter after it follows a `_`; removing the underscores leaves the input's other characters, in order; a name with no inner capital is unchanged |
| CleaningPipeline.SplitCamelRoundTrip | NeuraGuide/data_cleaning_pipeline.py:243 | the inserted underscores are exactly those `Unsplit` removes (a `_` directly before an upper-case letter), so reading the split name back gives the original name |
| CleaningPipeline.Underscored | NeuraGuide/data_cleaning_pipeline.py:244 | every character outside `[a-z0-9_]` becomes `_`, and the others are kept |
| CleaningPipeline.UnderscoredKeeps | NeuraGuide/data_cleaning_pipeline.py:244 | the replacement keeps every lower-case letter and digit, in order |
| CleaningPipeline.Squeeze | NeuraGuide/data_cleaning_pipeline.py:245 | runs of `_` become one `_`: no `__` remains, every character other than `_` is kept in order, and a name without such runs is unchanged |
| CleaningPipeline.SnakeTrim | NeuraGuide/data_cleaning_pipeline.py:245 | stripping `_` from both ends leaves a snake_case name |
| CleaningPipeline.SnakeCase | NeuraGuide/data_cleaning_pipeline.py:242-245 | the snake_case conversion always yields only `[a-z0-9_]`, with no leading, trailing or doubled `_`, and keeps exactly the name's letters (lower-cased) and digits, in order |
| CleaningPipeline.SnakeFixed | NeuraGuide/data_cleaning_pipeline.py:242-245 | a name already in snake_case is unchanged |
| CleaningPipeline.SnakeIdempotent | NeuraGuide/data_cleaning_pipeline.py:242-245 | converting twice equals converting once |
| CleaningPipeline.Renamed | NeuraGuide/data_cleaning_pipeline.py:236 | `rename(columns=d)`: a name in the dictionary is replaced and the others are kept |
| CleaningPipeline.SnakeNamesIdempotent | NeuraGuide/data_cleaning_pipeline.py:239-247 | renaming all columns to snake_case twice equals doing it once |
| CleaningPipeline.NewNames | NeuraGuide/data_cleaning_pipeline.py:235-247 | `rename_columns` keeps the number of columns, and with `snake_case` every name ends in snake_case |
| CleaningPipeline.Existing | NeuraGuide/data_cleaning_pipeline.py:261 | `existing_cols`: the requested names that are columns of the table |
| CleaningPipeline.RemoveColumnsKeepsOthers | NeuraGuide/data_cleaning_pipeline.py:261-262 | after `remove_columns`, the columns are exactly the old ones not requested, each with its old values |
| CleaningPipeline.DataCleaningPipeline.constructor | NeuraGuide/data_cleaning_pipeline.py:25-35 | no table, no shape and an empty report |
| CleaningPipeline.DataCleaningPipeline.Load | NeuraGuide/data_cleaning_pipeline.py:37-53 | the table is stored, its shape is remembered, and the report records the original rows and columns |
| CleaningPipeline.DataCleaningPipeline.RemoveDuplicates | NeuraGuide/data_cleaning_pipeline.py:68-85 | without a table nothing changes. An empty table stays as it is, whatever the subset, and 0 rows are reported removed. Otherwise the table becomes `drop_duplicates` of itself, and the report records the rows removed |
| CleaningPipeline.DataCleaningPipeline.HandleMissingValues | NeuraGuide/data_cleaning_pipeline.py:87-134 | without a table nothing changes. Otherwise the table becomes the handled table, and the report records the drop in missing cells (not negative, by HandledFewerMissing) |
| CleaningPipeline.DataCleaningPipeline.StandardizeText | NeuraGuide/data_cleaning_pipeline.py:171-197 | without a table nothing changes. With a table, the report records `len(columns)`. With no flag set, the table is unchanged and any names are accepted. Otherwise the chosen text columns are standardised one after another |
| CleaningPipeline.ListedCount | NeuraGuide/data_cleaning_pipeline.py:183-197 | the count reported is the number of names given, or of `object` columns when none are given, and it equals the number of positions chosen when the names exist |
| CleaningPipeline.DataCleaningPipeline.RenameColumns | NeuraGuide/data_cleaning_pipeline.py:223-248 | without a table nothing changes. Otherwise only the column names change, to the new names; rows, index and report stay the same |
| CleaningPipeline.DataCleaningPipeline.RemoveColumns | NeuraGuide/data_cleaning_pipeline.py:250-264 | without a table nothing changes. Otherwise the existing requested columns are dropped, and the report records how many |
| CleaningPipeline.DataCleaningPipeline.ResetIndex | NeuraGuide/data_cleaning_pipeline.py:266-273 | without a table nothing changes. Otherwise the labels become `0..n-1` and nothing else changes |
| KnowledgeGraph.WordToNum | Capstone/capstone_knowledge_graph.py:7-10 | `WORD_TO_NUM.get(token, -1)`: -1 exactly for a word outside ONE..TEN; otherwise the word's position, 1 to 10 |
| KnowledgeGraph.NormalizeWeek | Capstone/capstone_knowledge_graph.py:12-16 | `normalize_week` is never below -1, and is -1 exactly when the stripped token is neither all digits nor a number word |
| KnowledgeGraph.NormalizeNumeral | Capstone/capstone_knowledge_graph.py:12-15 | a numeral surrounded by whitespace normalises to its value |
| KnowledgeGraph.NormalizeWord | Capstone/capstone_knowledge_graph.py:12-16 | a number word in any case, surrounded by whitespace, normalises to its number |
| KnowledgeGraph.Slug | Capstone/capstone_knowledge_graph.py:18-22 | `slug` is non-empty and at most 80 characters, uses only `[a-z0-9_]`, and does not start with `_` |
| KnowledgeGraph.Cut | Capstone/capstone_knowledge_graph.py:22 | the first 80 characters of a non-empty body, or "unknown" for an empty one |
| KnowledgeGraph.SlugBody | Capstone/capstone_knowledge_graph.py:19-21 | the body uses only `[a-z0-9_]` and neither starts nor ends with `_` |
| KnowledgeGraph.SlugKeepsWords | Capstone/capstone_knowledge_graph.py:18-22 | the letters and digits of the slug are exactly those of the lower-cased input, for an input of at most 80 characters with at least one letter or digit |
| KnowledgeGraph.SlugFixed | Capstone/capstone_knowledge_graph.py:18-22 | a short slug-shaped string is its own slug |
| KnowledgeGraph.SlugUnknown | Capstone/capstone_knowledge_graph.py:22 | text without a letter or digit slugs to "unknown" |
| KnowledgeGraph.MarkerAt | Capstone/capstone_knowledge_graph.py:5 | a `WEEK` marker found at a position starts with WEEK (any case) at a `\b` and ends at a `\b`; its group is a digit run or a number word |
| KnowledgeGraph.MarkerComplete | Capstone/capstone_knowledge_graph.py:5 | the converse: WEEK at a `\b`, any whitespace, then a number word or a digit run that ends at a `\b`, is always found by the match attempt at that position |
| KnowledgeGraph.SearchLeftmost | Capstone/capstone_knowledge_graph.py:30 | `WEEK_RE.search` finds no match exactly when no position matches; otherwise it finds the leftmost |
| KnowledgeGraph.NoMarkerKeeps | Capstone/capstone_knowledge_graph.py:38 | removing week markers from a line without any leaves it unchanged |
| KnowledgeGraph.LookAhead | Capstone/capstone_knowledge_graph.py:39-48 | the look-ahead topic is the first of the next lines, up to three and stopping at a week marker, with at least 3 characters; empty when there is none |
| KnowledgeGraph.LookAheadScan | Capstone/capstone_knowledge_graph.py:41-48 | the look-ahead loop computes that topic |
| KnowledgeGraph.Entry | Capstone/capstone_knowledge_graph.py:30-51 | a line yields an entry only with a positive week and a non-empty topic |
| KnowledgeGraph.CollectEntries | Capstone/capstone_knowledge_graph.py:27-52 | the line loop collects the entries of the lines, in order |
| KnowledgeGraph.SomesMembers | Capstone/capstone_knowledge_graph.py:50-51 | the results are exactly the entries some line yields |
| KnowledgeGraph.KeepFirst | Capstone/capstone_knowledge_graph.py:54-61 | de-duplication keeps only results, covers the same weeks, and leaves each week once |
| KnowledgeGraph.KeepFirstEarliest | Capstone/capstone_knowledge_graph.py:54-61 | for each week, the entry kept is the earliest one |
| KnowledgeGraph.SortByWeek | Capstone/capstone_knowledge_graph.py:62 | the sort is a permutation, and it is ascending by week when the weeks are distinct |
| KnowledgeGraph.ExtractWeeksTopics | Capstone/capstone_knowledge_graph.py:24-63 | `extract_weeks_topics` returns entries in strictly ascending week order, each with a positive week and a non-empty topic |
| KnowledgeGraph.ExtractedFromLines | Capstone/capstone_knowledge_graph.py:24-63 | every returned entry is the entry of some line |
| KnowledgeGraph.ExtractedComplete | Capstone/capstone_knowledge_graph.py:24-63 | every week some line yields is returned |
| KnowledgeGraph.ExtractedEarliest | Capstone/capstone_knowledge_graph.py:54-61 | the entry returned for a week comes from a line no later than any other line with that week |
| KnowledgeGraph.Escape | Capstone/capstone_knowledge_graph.py:79 | `replace("'", "\\'")`: every quote in the output is preceded by a backslash |
| KnowledgeGraph.EscapeRoundTrip | Capstone/capstone_knowledge_graph.py:79 | the model's own reader `Unescape`, which decodes only `\'`, gives back the topic from the escaped one |
| KnowledgeGraph.EscapeNoQuote | Capstone/capstone_knowledge_graph.py:79 | a topic without quotes is unchanged |
| KnowledgeGraph.EscapeSlug | Capstone/capstone_knowledge_graph.py:79-81 | the concept id built from the escaped topic is the one built from the raw topic |
| KnowledgeGraph.WeekIdsDistinct | Capstone/capstone_knowledge_graph.py:80 | different week numbers give different week ids |
| KnowledgeGraph.Header | Capstone/capstone_knowledge_graph.py:66-74 | the constraint and resource header is 8 lines |
| KnowledgeGraph.WeekBlock | Capstone/capstone_knowledge_graph.py:77-87 | each week contributes 6 lines |
| KnowledgeGraph.Footer | Capstone/capstone_knowledge_graph.py:89-95 | the prerequisite footer is 6 lines |
| KnowledgeGraph.CypherEnds | Capstone/capstone_knowledge_graph.py:65-96 | the script has 14 + 6·n lines: the header first and the footer last |
| KnowledgeGraph.CypherBlock | Capstone/capstone_knowledge_graph.py:77-87 | lines `8+6k .. 14+6k` are exactly the block of the k-th week, in input order |
| KnowledgeGraph.GenerateCypher | Capstone/capstone_knowledge_graph.py:65-96 | the loop that appends lines produces the header, one block per week and the footer, joined with newlines |

## Left out

- **I/O:** reading CSV and `.docx` files, saving CSV, `logging` and
  `print`. Loading takes rows or a table as a parameter:
  - `AIToolsDataCleaner.LoadRows` takes the rows of one file, and the loop
    over the three file names is not modelled;
  - `DataCleaningPipeline.Load` takes the parsed table, and a read error
    (which the source re-raises) is not modelled;
  - `extract_weeks_topics` takes the list of non-blank stripped paragraph
    texts.
- **Operations outside the model:**
  - `display_info`, `save_cleaned_data`, `generate_report` (which divides
    and formats percentages), `remove_outliers` (floating-point quantiles
    and z-scores) and `convert_data_types` (dtype conversion through
    pandas);
  - `run_cleaning_process` and the `__main__` blocks, which only sequence
    the modelled passes with I/O;
  - the `MissingDataHandler` and `URLValidator` classes of the validation
    pipeline, and `load_data` there, which is a CSV read;
  - `generate_statistics` sorts and logs the top ten categories; the model
    returns the tallies and leaves out the logging.
- **Text:** character classes are ASCII. `lower`, `upper`, `title`,
  `strip`, `\w`, `\s` and `isdigit` are not modelled on non-ASCII
  characters.
- DataCleaner.ExtractDomain: `urlparse` is simplified. The network location
  is the text after `//` that follows the scheme (or that starts the URL
  when there is no scheme), up to the first `/`, `?` or `#`. User-info, ports and IPv6 brackets are not separated.
  The model's simplification cannot fail, so the `except` branch is
  unreachable in the model only. `urlparse` itself differs in these cases:
  it strips leading control characters and spaces, and it deletes tab, CR
  and LF anywhere. It also raises `ValueError` on an unbalanced `[` or `]` in
  the network location, so the source returns "" for `"http://[abc"` where
  the model returns `"[abc"`.
- KnowledgeGraph.EscapeRoundTrip: the round trip is proved with the
  model's own reader, which decodes only `\'`. Cypher's string reader also
  decodes `\\`, and the source does not escape backslashes, so Cypher does
  not read back a topic containing a backslash as written.
- A CSV cell that `csv.DictReader` gives as `None` (a short row) is treated
  as the empty string. Both are falsy, and every test in `clean_data` only
  asks for truthiness.
- **Numbers:** floats are modelled as exact reals. How a number prints after
  `astype(str)` is a parameter (`numText`) of the text standardisation. A
  missing cell prints as "nan".
- **Column types:** a column counts as numeric when all its present cells
  are numbers. pandas derives this at read time.
- Stats.Mode: in a column that mixes numbers and text, ties between
  most-frequent values are broken with numbers before text. pandas cannot
  sort that mix and leaves such modes in an unspecified order.
- CleaningPipeline.DataCleaningPipeline.HandleMissingValues:
  - It takes a parsed `Strategy`; `StrategyOf` maps the source's strategy
    strings to it. An unrecognised string changes nothing but is still
    reported, as in the source.
  - `fill` with `fill_value=None` is excluded by a precondition, since pandas
    raises for it.
  - The chained `self.df[col].fillna(..., inplace=True)` of the auto branch
    is modelled as taking effect.
- CleaningPipeline.DataCleaningPipeline.RenameColumns requires the new column
  names to be distinct. pandas allows repeated labels, but the table model
  addresses columns by name.
- CleaningPipeline.DataCleaningPipeline.RemoveDuplicates excludes, for a non-empty table, `subset` names that are not columns, because pandas raises `KeyError` for them. It also excludes an empty `subset` list, for which `duplicated` raises `ValueError`. An empty table is returned before either check, and the model accepts any subset there.
- CleaningPipeline.DataCleaningPipeline.HandleMissingValues excludes `columns` names that are not columns, for every recognised strategy, because pandas raises `KeyError` for them (`dropna(subset=...)`, `df[columns]`, `df[col]`).
- CleaningPipeline.DataCleaningPipeline.StandardizeText excludes `columns` names that are not columns when a flag is set, because `df[col]` raises `KeyError` for them. With no flag set, the model accepts them, as the source does.
- DuplicateHandler.Ready excludes a table without the three key columns, because `duplicated(subset=...)` raises `KeyError` for it. The exception is a table with no rows or no columns, which pandas accepts and the model still excludes.
- DuplicateHandler.Scorable excludes a table that has duplicates but lacks `review_count`, `average_rating` or `Launch Year`, because `rank_records` raises `KeyError` for it. It also excludes text in those columns within duplicate rows, which pandas would not add as numbers.
- DuplicateHandler.RemoveDuplicates: the properties about which rows
  survive assume distinct index labels. The source selects by `isin` on
  labels, and a repeated label would tie unrelated rows together. The table
  produced by `read_csv` has distinct labels.
- DataCleaner.AIToolsDataCleaner.DeduplicateData requires every record to
  have a Tool Name, because `are_similar_tools` reads it with `[]`. The
  cleaning pass guarantees this.
- `AutoFill` and `StandardizeColumn` compute a new table value that the
  pipeline then assigns, so aliasing between pandas views is not modelled.
- The duplicate scoring reads `review_count`, `average_rating` and
  `Launch Year` as numbers or missing values; text in them (which pandas
  would reject in the sum) is excluded.
- Rows whose three key columns are all missing are grouped together as
  duplicates, because `duplicated` and `groupby(dropna=False)` treat
  missing as equal.
