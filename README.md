# model2indicators in Dafny

This project models the core of *model2indicators*. That pipeline:

1. feeds species-distribution models with environmental patches read around occurrence points;
2. takes the per-point class scores the model predicts;
3. writes them to a classes stream and a probabilities stream;
4. turns them into conservation indicator maps.

The indicators are:

- the sum of the probabilities of threatened species, binary or per IUCN status;
- the worst status;
- the Shannon index.

They are rasterised on a global grid and written as GeoTIFF buffers that are later merged.

The model covers these parts:

- **Inputs.** The raster provider reads environmental rasters and cuts, resizes and encodes patches (`Rasters`, `RasterPatches`, `RasterCatalog`, `Ecoregions`, `RasterProviders`). The geographic provider builds latitude and longitude patches (`GeoProviders`). The modular dataset concatenates the providers' outputs (`ModularDatasets`).
- **Label index.** Labels are interned, reversed and cached (`LabelIndex`).
- **Buffered export.** Batches are buffered and flushed. Per point, the top-`size` classes and scores go to the two streams, and the maps are computed under the export count (`Export`, `ExportLayout`).
- **Indicator stages.**
  - Pure per-row logic lives in `IndicesRows`. It covers the threshold, the range filter, normalisation, the status table, `sumap` and the worst status.
  - A data-frame `class Frame` in `IndicesFrame` changes its columns in place, stage after stage.
  - `IndicesMaps` covers rasterisation parameters, the band dictionary, stacking, the profile, the buffer paths and the names used by the incremental merge.
- **Merging.** `MapsMerge` names the folders and files of the tile merge.

Helper modules give Python and NumPy semantics in Dafny's terms:

- `Numeric`: floor division, `round`, `int()`, float `%` and slicing.
- `Text`: `str(n)`, `os.path` and `str.split`.
- `NdArrays`: `np.concatenate`, `np.stack` and Python indexing.
- `Wrappers`: `Option` and `Result`. `Result` carries the Python exception a call raises.

The source is partly imperative and partly value-oriented, and the model follows the same split:

- `Indexer`, `MultiIndexer` and `IndexCache` are classes, because they update dictionaries and globals in place.
- `Raster` is a class whose cells the transforms rewrite.
- `RasterProvider` is a class with its list of rasters.
- `Frame` is a class whose columns the indicator stages add and rewrite.
- `Exporter` is a class holding the two output streams and the log of written maps.
- The geographic `Normalize` and `Standardize` rewrite an `array3` in place.
- Pure computations are functions, with lemmas relating them to independent reference definitions.

## Model

| member | source | states |
|---|---|---|
| LabelIndex.Interned | src/model/loaders/util/index.py:16-18 | the label is always present afterwards; a known label leaves the dict unchanged; an unseen label is added with id `len(indexer)` |
| LabelIndex.InternedKeepsDense | src/model/loaders/util/index.py:16-18 | interning keeps ids dense (distinct, exactly `0..len-1`), never changes an id already handed out, and gives a new label the next id |
| LabelIndex.Indexer.constructor | src/model/loaders/util/index.py:8 | an indexer starts as an empty dict |
| LabelIndex.Indexer.IndexLabel | src/model/loaders/util/index.py:15-18 | the dict becomes `Interned(old, label)`; the id returned is the label's entry: its old id if known, `len(old)` otherwise |
| LabelIndex.MultiIndexer.constructor | src/model/loaders/util/index.py:8 | one empty dict per task |
| LabelIndex.MultiIndexer.IndexLabels | src/model/loaders/util/index.py:10-14 | component `i` is interned in dict `i` only, and other dicts are untouched; it succeeds exactly when there are no more components than dicts (otherwise IndexError); on success the ids come back in component order, each the entry of its component |
| LabelIndex.ReversedPrefixSpec | src/model/loaders/util/index.py:68-71 | after the first `n` items in dict order, the reversed dict has one key per value met, each mapping back to a key holding that value, and for a value held by several keys the last in dict order wins |
| LabelIndex.ReversedPrefix | src/model/loaders/util/index.py:68-71 | the reversed dict after the first `n` items in dict order; `ReversedPrefixSpec` states its keys and values |
| LabelIndex.ReverseMap | src/model/loaders/util/index.py:68-73 | the loop's result is a reversal of the dict: its keys are exactly the dict's values, each mapping back to a key holding it, the last in iteration order |
| LabelIndex.ReverseIndexing | src/model/loaders/util/index.py:61-73 | a flat index is reversed itself; a list index has its `column`-th dict reversed, with IndexError past either end |
| LabelIndex.ReversalInjective | src/model/loaders/util/index.py:61-73 | the reversal of an injective map is injective |
| LabelIndex.DoubleReversal | src/model/loaders/util/index.py:61-73 | reversing an injective map twice gives back the map: the round trip of the saved index |
| LabelIndex.IndexCache.constructor | src/model/loaders/util/index.py:4-5 | both globals start as None |
| LabelIndex.IndexCache.GetIndex | src/model/loaders/util/index.py:22-47 | a cached path returns the cached labels without looking at the disk; otherwise a file on disk is returned and becomes the cache; a missing file returns None and leaves the cache as it was |
| LabelIndex.IndexCache.ReloadIndex | src/model/loaders/util/index.py:50-58 | forgets the cached path, then returns what is on disk (None when absent), caching it |
| LabelIndex.IndexCache.SaveReversedIndex | src/model/loaders/util/index.py:76-96 | the file receives the reversal of the chosen dict; the cache holds the un-reversed index under that path; an out-of-range column raises before anything is written |
| LabelIndex.IndexCache.HasPreviousIndex | src/model/loaders/util/index.py:99-101 | true exactly when labels are cached |
| LabelIndex.SaveThenLoad | src/model/loaders/util/index.py:50-96 | after a save, `get_index` on that path returns the un-reversed index from the cache, while `reload_index` returns the reversed map from disk |
| IndicesRows.Mask | src/model/indices.py:110-111 | boolean-mask selection is no longer than its input and holds only elements of it |
| IndicesRows.MaskMembers | src/model/indices.py:110-111 | the selection holds every flagged element, and each element it holds is a flagged one |
| IndicesRows.MaskZip | src/model/indices.py:110-111 | masking two parallel lists with one mask is masking their pairs: they stay aligned |
| IndicesRows.ListIndex | src/model/indices.py:110 | indexing with a list of booleans: an empty list selects nothing; otherwise lengths must agree (IndexError) and the result is the mask |
| IndicesRows.ArrayIndex | src/model/indices.py:243 | indexing with a boolean array: lengths must agree, even when empty (IndexError); otherwise the mask |
| IndicesRows.AtLeast | src/model/indices.py:67 | keeps, in order, exactly the probabilities of at least `T` |
| IndicesRows.AtLeastNoneReach | src/model/indices.py:67 | when no probability reaches `T`, nothing is kept, neither probabilities nor pairs |
| IndicesRows.AppliesT | src/model/indices.py:66-69 | probabilities filtered to those at least `T`, classes cut to as many |
| IndicesRows.AppliesTAligned | src/model/indices.py:66-69 | on equal-length lists the result stays aligned, keeps only probabilities of at least `T`, and keeps a prefix of the classes |
| IndicesRows.SortedThresholdIsPrefix | src/model/indices.py:67-68 | on non-increasing probabilities, the filtered probabilities are a prefix, and so are the kept (class, probability) pairs |
| IndicesRows.AppliesTKeepsPairs | src/model/indices.py:66-69 | on non-increasing probabilities (the export's order), the kept pairs are exactly the pairs reaching `T` |
| IndicesRows.AppliesTUnsortedMisaligns | src/model/indices.py:66-69 | a concrete unsorted row whose cut pairs a kept probability with another class |
| IndicesRows.OorSelector | src/model/indices.py:109 | one flag per class, true when the point's region is in the species' range; KeyError for a class without a range |
| IndicesRows.MaskIsPairsInRange | src/model/indices.py:109-111 | masking by the selector keeps exactly the pairs whose range contains the region |
| IndicesRows.OorFilterKeepsInRangePairs | src/model/indices.py:108-112 | the filter raises KeyError exactly when a class has no range; otherwise it keeps exactly the in-range (class, probability) pairs, in order |
| IndicesRows.RemovesOorSpecies | src/model/indices.py:108-112 | `removes_oor_species` on one point raises only KeyError or IndexError; on success it keeps at most the point's classes, each one with a range that holds the point's region (`OorFilterKeepsInRangePairs` states the exact pairs kept) |
| IndicesRows.ThreatBinary | src/model/indices.py:138-139 | a ground truth is a threat exactly when it is one of the three most threatened steps of the IUCN ladder LC, NT, VU, EN, CR |
| IndicesRows.PredThreat | src/model/indices.py:154-155 | "Threatened" is a threat prediction and "Not Threatened" is not |
| IndicesRows.NormAbT | src/model/indices.py:123 | each probability divided by the row's sum, same length; a row summing to zero has each entry replaced by `byZero` of it, the float NumPy's division by zero yields |
| IndicesRows.NormAbTSumsToOne | src/model/indices.py:121-124 | renormalised positive probabilities sum to 1 and keep their order |
| IndicesRows.IsEmpty | src/model/indices.py:277 | true exactly when no probability is left |
| IndicesRows.PredictionsSplitByGroundTruth | src/model/indices.py:193-200 | the "only" and "on GT" columns are never both present and together give back the prediction |
| IndicesRows.GroundTruthPrecedence | src/model/indices.py:201-204 | where ground truth is known, the status column is the ground truth and the binary column its threat class; elsewhere both are the predictions |
| IndicesRows.GTb | src/model/indices.py:138-141 | `GTb`: the threat class of a known ground truth; `GroundTruthPrecedence` uses it |
| IndicesRows.PredB | src/model/indices.py:154-156 | `pred_B`: the threat class of a binary prediction |
| IndicesRows.PredBOnly | src/model/indices.py:193-194 | `pred_B_only`; `PredictionsSplitByGroundTruth` states how it and `pred_B_onGT` split `pred_B` |
| IndicesRows.PredSOnly | src/model/indices.py:195-196 | `pred_S_only`; `PredictionsSplitByGroundTruth` states how it and `pred_S_onGT` split `pred_S` |
| IndicesRows.PredBOnGT | src/model/indices.py:197-198 | `pred_B_onGT`, the other half of `PredictionsSplitByGroundTruth` |
| IndicesRows.PredSOnGT | src/model/indices.py:199-200 | `pred_S_onGT`, the other half of `PredictionsSplitByGroundTruth` |
| IndicesRows.GtOrPredB | src/model/indices.py:201-202 | `GTorPred_B`; `GroundTruthPrecedence` states that known ground truth wins |
| IndicesRows.GtOrPredS | src/model/indices.py:203-204 | `GTorPred_S`; `GroundTruthPrecedence` states that known ground truth wins |
| IndicesRows.Column | src/model/indices.py:224-227 | comp reads `GT_o_pred_<level>`; iucn reads `GT` for S and `GTb` for B |
| IndicesRows.ThreatDict | src/model/indices.py:220-230 | the keys are exactly the species keys of the table |
| IndicesRows.Sumap | src/model/indices.py:246-254 | the summed probability of one point; `SumapIsSumOfMatching` states when it succeeds, its value, and its KeyError and IndexError |
| IndicesRows.SumapName | src/model/indices.py:253 | the column `sumap` writes; `SumapNameParts` states its parts and `SumapNameInjective` that distinct statuses get distinct names |
| IndicesRows.SumapNameParts | src/model/indices.py:253 | the column name is the source's name, a "-", then the status, or "B" for the binary sum |
| IndicesRows.ThreatDictLastWins | src/model/indices.py:229-230 | each species key maps to the column value of its last row |
| IndicesRows.ClassesSelector | src/model/indices.py:233-237 | one flag per class, set exactly when the class's status matches; KeyError for a class missing from the dict |
| IndicesRows.SumMaskIsSumSelected | src/model/indices.py:240-243 | summing the masked probabilities equals summing those whose class is selected |
| IndicesRows.SumapIsSumOfMatching | src/model/indices.py:246-255 | a point's sumap is the sum of its probabilities whose class status matches (0 without predictions); KeyError for a class missing from the dict; IndexError when the lists differ in length |
| IndicesRows.SourceName | src/model/indices.py:253 | a four-letter name ("comp" or "iucn") without "-" |
| IndicesRows.Uint8 | src/model/indices.py:288-289 | the stored byte is in `[0, 256)` and congruent to the value modulo 256 |
| IndicesRows.WorstStatus | src/model/indices.py:291-297 | the last non-zero position plus one, and None when every sum is zero: no later status is non-zero |
| IndicesRows.WorstCat | src/model/indices.py:286-297 | the code `worst_status_cat` stores for one point; `WorstCatCode` states its values |
| IndicesRows.WorstCatCode | src/model/indices.py:286-297 | a byte; the empty value cast to a byte when every status sum is zero; otherwise, with fewer than 256 statuses, one plus the position of the last non-zero status, with only zeros after it |
| IndicesFrame.InsertIdBehind | src/model/indices.py:44 | inserting behind the head of a strictly increasing list keeps the head in front |
| IndicesFrame.GroupKeys | src/model/indices.py:43-45 | `groupby` keys: strictly increasing, and exactly the output's ids |
| IndicesFrame.Group | src/model/indices.py:44 | `aggregate(list)` for one id: its classes and probabilities, aligned, in output order |
| IndicesFrame.Matches | src/model/indices.py:58 | exactly the reference records with that id, in grid order |
| IndicesFrame.JoinGroup | src/model/indices.py:58 | one row per matching record, or one row with no record; every row carries the group |
| IndicesFrame.LeftJoin | src/model/indices.py:58 | the rows of every key's join, key after key |
| IndicesFrame.Out2Df | src/model/indices.py:34-63 | an empty output raises ValueError, where the three-column frame cannot be built from it; any other output gives the left join of the point groups, in ascending id order, with the reference grid (`JoinedRows`), whose rows `Out2DfKeepsEveryPoint` and `Out2DfOneRowPerPoint` state |
| IndicesFrame.Out2DfKeepsEveryPoint | src/model/indices.py:34-63 | every exported point keeps at least one row carrying all its predictions in output order; no row comes from a record without output; a row carries a record exactly when the reference holds one for its id |
| IndicesFrame.FirstPositions | src/model/indices.py:99 | the positions kept by `drop_duplicates`: increasing, and exactly the first occurrences |
| IndicesFrame.FirstPositionsStep | src/model/indices.py:99 | position `n-1` is kept exactly when its id is new |
| IndicesFrame.DropDuplicatesKeepsOnePerId | src/model/indices.py:99 | afterwards every id appears once and every input id is still there |
| IndicesFrame.MatchesNone | src/model/indices.py:58 | an id no reference record carries matches nothing in the join |
| IndicesFrame.MatchesAtMostOne | src/model/indices.py:58 | with one reference record per id, an id matches at most one record |
| IndicesFrame.LeftJoinOneRowPerKey | src/model/indices.py:58 | with one reference record per id, the left join makes exactly one row per group key, in key order |
| IndicesFrame.Out2DfOneRowPerPoint | src/model/indices.py:34-63 | with one reference record per id, `out2df` makes exactly one row per point, in ascending id order, no id repeated |
| IndicesFrame.FirstPositionsOfDistinct | src/model/indices.py:99 | when no id repeats, `drop_duplicates` keeps every position |
| IndicesFrame.FirstOccurrence | src/model/indices.py:99 | returns the first position holding the same id |
| IndicesFrame.Select | src/model/indices.py:99 | picking rows by a list of positions: one row per position, the row at that position |
| IndicesFrame.RowIds | src/model/indices.py:99 | the `gbifid` column: one id per row, in row order |
| IndicesFrame.MapAppliesT | src/model/indices.py:66-69 | `appliesT` applied row by row; every other field is unchanged |
| IndicesFrame.MapNormAbT | src/model/indices.py:121-124 | `normAbT` applied row by row; every other field is unchanged |
| IndicesFrame.MapNormAbTIgnoresByZero | src/model/indices.py:121-124 | on rows that never sum to zero, the result does not depend on what a division by zero yields |
| IndicesFrame.MapOorFilter | src/model/indices.py:115-118 | succeeds exactly when every row's filter does, row by row; otherwise it raises the first failing row's exception |
| IndicesFrame.SumapColumn | src/model/indices.py:250-254 | one sum per row, each that row's `sumap`; otherwise the first row's exception |
| IndicesFrame.StatusNames | src/model/indices.py:293 | the names `source-status`, one per status, in order |
| IndicesFrame.Burned | src/model/indices.py:321 | the (geometry, value) pairs, one per row, in row order |
| IndicesFrame.CatsColumn | src/model/indices.py:283-299 | one worst-status code per row |
| IndicesFrame.CatsAfter | src/model/indices.py:287-297 | the category column after the first `i` statuses, one entry per row; a status named "cats" reads this column as written so far |
| IndicesFrame.CatsLoop | src/model/indices.py:291-297 | the status loop of `worst_status_cat`: reports a missing column exactly when some status other than the category column itself is absent, and otherwise leaves `CatsAfter` of every status |
| IndicesFrame.CatsStep | src/model/indices.py:294-297 | one status: its code on every row whose status column is non-zero, every other row unchanged |
| IndicesFrame.CatsAfterWorst | src/model/indices.py:283-299 | with no status column named after the category column, each row holds the byte of the last status with a non-zero sum, or of the empty value |
| IndicesFrame.CatsAfterIsCatsColumn | src/model/indices.py:283-299 | without a status named "cats", the category column is `CatsColumn` |
| IndicesFrame.CatsAfterNonZero | src/model/indices.py:287-297 | while no code reaches 256 and the empty byte is non-zero, no row of the category column is zero |
| IndicesFrame.CatsStatusFloods | src/model/indices.py:291-297 | a status named "cats" reads the category column itself, which is non-zero everywhere by then, so every row takes that status's code |
| IndicesFrame.StatusNameIsNotCats | src/model/indices.py:285-293 | a status other than "cats" never names the category column |
| IndicesFrame.WorstStatusStep | src/model/indices.py:291-297 | one more status extends the worst-status code exactly as one loop turn does |
| IndicesFrame.Frame.constructor | src/model/indices.py:34-63 | the frame holds the rows `out2df` built and no added column |
| IndicesFrame.Frame.AppliesT | src/model/indices.py:66-69 | the rows become `MapAppliesT(old rows)`; the columns are untouched |
| IndicesFrame.Frame.Df2Gdf | src/model/indices.py:88-105 | without `removes_oor` nothing changes; with it each row receives its region code; outside the W2_05 grid (which a tuple `grid_name` never equals), rows with an id seen before are then dropped, and every column keeps the values of the kept rows |
| IndicesFrame.Frame.AppliesOorFilter | src/model/indices.py:115-118 | without `removes_oor` nothing changes; with it the call succeeds exactly when `MapOorFilter` does and the rows become its result; an exception leaves the frame as it was |
| IndicesFrame.Frame.NormAbT | src/model/indices.py:121-124 | the rows are normalised when the flag is set (a zero sum giving `byZero`'s values), else unchanged; the columns are untouched |
| IndicesFrame.Frame.ComputesEmptyPreds | src/model/indices.py:274-279 | the flag column marks exactly the rows without probabilities; nothing else changes |
| IndicesFrame.Frame.Sumap | src/model/indices.py:246-255 | succeeds exactly when `SumapColumn` does, writing it under `source-status` (or `source-level`) and nothing else; an exception leaves the frame as it was |
| IndicesFrame.Frame.Shannon | src/model/indices.py:261-270 | the column "shannon" receives the given entropies and nothing else changes |
| IndicesFrame.Frame.WorstStatusCat | src/model/indices.py:283-299 | succeeds exactly when every status column other than `source-cats` itself exists, writing `source-cats` as `CatsAfter` of all statuses (each row's worst-status code, or the empty value as uint8; a status named "cats" reading the column being written); a missing column raises KeyError after the category column was initialised |
| IndicesFrame.Frame.MaskEmpty | src/model/indices.py:317-321 | succeeds exactly when the column and the flag exist (else KeyError and nothing changes); the column gets the empty value on flagged rows only, and the burnt pairs are returned |
| IndicesMaps.RasterizeDict | src/model/indices.py:306-314 | a zero resolution raises; otherwise a grid anchored at (-180, 90) with square pixels of `secs/3600` degrees, never all-touched, the given fill and dtype |
| IndicesMaps.GridCoversGlobe | src/model/indices.py:312-313 | for a positive resolution the rows span 180 and the columns 360 degrees, short by less than one pixel |
| IndicesMaps.SpanBounds | src/model/indices.py:313 | `degrees*3600 // secs` pixels cover the span, short by less than one pixel |
| IndicesMaps.DefaultGrid | src/model/indices.py:306 | the default 30-second grid is 21600 by 43200 pixels of 1/120 degree |
| IndicesMaps.Rasterization | src/model/indices.py:317-331 | succeeds exactly when the column and the flag exist (else KeyError and nothing changes); the column is masked on empty rows only; the band burns its pairs on the given grid |
| IndicesMaps.Keys | src/model/indices.py:336 | the keys of the dictionary, in insertion order |
| IndicesMaps.Values | src/model/indices.py:337 | the values, in insertion order, aligned with the keys |
| IndicesMaps.Dedup | src/model/indices.py:425-427 | the same elements, each once, in first-occurrence order |
| IndicesMaps.DictPut | src/model/indices.py:422 | keys stay distinct; a new key goes last and an existing key keeps its place; only that key's value changes |
| IndicesMaps.Stacking | src/model/indices.py:335-338 | ValueError for an empty dict; otherwise the name is the keys joined with "_" and the bands are the values, both in insertion order |
| IndicesMaps.StackNameSplits | src/model/indices.py:336 | splitting the stack name on "_" gives back the keys when none contains "_" |
| IndicesMaps.DefinesProfile | src/model/indices.py:342-357 | one band per layer, the stack's height and width, the grid's transform, fill as nodata and dtype, 512 blocks, EPSG:4326, untiled |
| IndicesMaps.BufferTifPathsDistinct | src/model/indices.py:362-364 | two buffers of one stack go to the same file exactly when their counts are equal |
| IndicesMaps.BufferTifPath | src/model/indices.py:362-364 | the buffer file of one stack and count; `BufferTifPathEnds` and `BufferTifPathsDistinct` state its name |
| IndicesMaps.BufferTifPathEnds | src/model/indices.py:362-364 | the buffer file name ends with `<count>.tif` |
| IndicesMaps.MapDict | src/model/indices.py:410-414 | the raster parameters of a `grid2tif` call; `MapDictParams` states them |
| IndicesMaps.MapDictParams | src/model/indices.py:410-414 | ZeroDivisionError exactly when `seconds` is 0; otherwise the raster keeps the seconds, with the category fill and dtype for `cat` and the sumap ones for every other type |
| IndicesMaps.SumapNameInjective | src/model/indices.py:253 | two statuses share a column name only when they are the same |
| IndicesMaps.StatusColumnStep | src/model/indices.py:425-427 | writing one more status column keeps the earlier statuses' masked columns |
| IndicesMaps.BandsOfPut | src/model/indices.py:427 | putting a freshly written column's band keeps every band burning its column |
| IndicesMaps.StatusStageStep | src/model/indices.py:425-427 | one loop turn extends the S-stage invariant: keys in first-occurrence order, bands burning their masked columns, no other column changed |
| IndicesMaps.StatusBand | src/model/indices.py:426-427 | one status: on success the S-stage invariant holds for one more status; an exception leaves the frame as it was |
| IndicesMaps.StatusBands | src/model/indices.py:424-427 | every status in order: on success the dictionary holds each status name once, each band burning its masked sumap column, and other columns unchanged; no status gives an empty dictionary |
| IndicesMaps.SingleBand | src/model/indices.py:420-435 | succeeds exactly when the column and the flag exist; the dictionary has the one key burning its masked column; other columns unchanged |
| IndicesMaps.BinaryBands | src/model/indices.py:420-422 | on success the binary sumap column is written, masked, and burnt under its name; other columns unchanged |
| IndicesMaps.ShannonBands | src/model/indices.py:429-431 | on success "shannon" holds the masked entropies and is burnt; other columns unchanged |
| IndicesMaps.CatBands | src/model/indices.py:433-435 | succeeds exactly when every status column `worst_status_cat` reads and the flag exist; on success the category column is computed from the status columns as they were (a status named "cats" reading the column being written), masked and burnt |
| IndicesMaps.TypeBands | src/model/indices.py:419-438 | the stage the type selects: on success the type's bands, columns and untouched others |
| IndicesMaps.Grid2Tif | src/model/indices.py:406-447 | an unknown type raises AssertionError and a zero resolution ZeroDivisionError, both before any change; "S" with no status raises ValueError when stacking; "cat" succeeds exactly when the status columns it reads, the empty flag and a `str` grid name are there; a tuple `grid_name` raises TypeError when the path is joined, after the columns are computed, so no call succeeds under it; on success the file written is the type's stack of masked, burnt columns with its profile, at the buffer path of the export count |
| IndicesMaps.StackWritten | src/model/indices.py:440-447 | stacking the bands and naming the buffer file gives the file `WrittenAs` describes |
| IndicesMaps.IncrementalTifMerge | src/model/indices.py:450-524 | mosaics `tif`, then `tif2` if given, else the last merge when the merged folder lists it; destination `<stem>[_<stem2>]_merged.tif` in the merged folder unless given; copy path `last_tif2merge.tif` or the copy name exactly when copying |
| IndicesMaps.PathJoinEndsWith | src/model/indices.py:476-490 | a relative name joined onto a directory ends the path |
| IndicesMaps.MergeDestinationInMergedFolder | src/model/indices.py:464-490 | the default destination lies in `<dir>/merged` and is named after the merged files' stems |
| IndicesMaps.StemLacksSlash | src/model/indices.py:464 | a stem has no "/" |
| IndicesMaps.Stem | src/model/indices.py:464 | `basename[:-4]`: a prefix of the basename, four characters shorter (empty for a shorter one); a `.tif` basename is the stem plus `.tif` |
| IndicesMaps.MergedFolder | src/model/indices.py:464-466 | `dirname/merged`: it starts with the directory and ends with "merged" |
| ExportLayout.InsertByScore | src/model/export.py:27 | inserting an index into a descending order gives a sequence one longer holding the same indices plus the new one |
| ExportLayout.InsertByScoreMembers | src/model/export.py:27 | inserting adds exactly the new index |
| ExportLayout.InsertByScoreDescending | src/model/export.py:27 | inserting keeps the scores non-increasing |
| ExportLayout.InsertByScoreDistinct | src/model/export.py:27 | inserting a new index keeps indices distinct |
| ExportLayout.ArgsortDesc | src/model/export.py:27 | `np.argsort(-row)`: `n` indices below `n`; `ArgsortDescSpec` and `ArgsortDescTies` state the order, ties in index order |
| ExportLayout.ArgsortDescSpec | src/model/export.py:27 | the descending order is a permutation of `0..n-1` with non-increasing scores |
| ExportLayout.ArgsortDescMembers | src/model/export.py:27 | it holds exactly the indices below `n` |
| ExportLayout.ArgsortDescOrdered | src/model/export.py:27 | it is distinct and non-increasing in score |
| ExportLayout.InsertByScoreTies | src/model/export.py:27 | inserting an index above every present one keeps equal scores in index order |
| ExportLayout.ArgsortDescTies | src/model/export.py:27 | equal scores come in index order, as a stable sort of the negated row gives them |
| ExportLayout.TopK | src/model/export.py:27 | a row's order is a prefix of the descending order, cut by a Python slice |
| ExportLayout.TopKSize | src/model/export.py:27 | a non-negative size keeps `min(size, C)` classes |
| ExportLayout.TopKIsTop | src/model/export.py:27 | the kept classes are distinct, non-increasing in score, no class left out scores higher than one kept, and one left out at a kept score has a higher index |
| ExportLayout.TopKTies | src/model/export.py:27 | a class left out at the score of a kept one has a higher index |
| ExportLayout.ClassId | src/model/export.py:39-46 | without an index the class is `j`; with one it is the indexed label when `j` is a key, else None |
| ExportLayout.ClassIdRecoversLabel | src/model/export.py:39-46 | with the reversed index saved at training, every output index gets back the label interned under it |
| ExportLayout.ClassIds | src/model/export.py:37-48 | one class id per index of the order |
| ExportLayout.Selected | src/model/export.py:38 | one score per index of the order |
| ExportLayout.RowEntries | src/model/export.py:50 | one triple per kept class: the point id, the class id and its score |
| ExportLayout.LayoutSizes | src/model/export.py:33-50 | with `c` classes and `k = min(size, c)`, the classes stream holds `1 + k` values per point, the probas stream `k` and `output` `k` triples |
| ExportLayout.ClassesLayout | src/model/export.py:33-48 | `L_classes`: per point its id, then its kept classes mapped through the label index; `ClassesLayoutSize` and `ClassesLayoutConcat` state its size and how it splits |
| ExportLayout.ProbasLayout | src/model/export.py:49 | `L_probas`: the kept scores, point after point; `ProbasLayoutSize` and `ProbasLayoutConcat` state its size and how it splits |
| ExportLayout.OutputLayout | src/model/export.py:50 | `output`: one (id, class, score) triple per kept class; `OutputLayoutSize` and `OutputLayoutConcat` state its size and how it splits |
| ExportLayout.ClassesLayoutSize | src/model/export.py:36-48 | the classes stream holds `1 + k` values per point |
| ExportLayout.ProbasLayoutSize | src/model/export.py:49 | the probas stream holds `k` values per point |
| ExportLayout.OutputLayoutSize | src/model/export.py:50 | `output` holds `k` triples per point |
| ExportLayout.LayoutsConcat | src/model/export.py:33-50 | laying out two runs of rows one after the other is laying out their concatenation |
| ExportLayout.ClassesLayoutConcat | src/model/export.py:36-48 | the classes part of `LayoutsConcat` |
| ExportLayout.ProbasLayoutConcat | src/model/export.py:49 | the probas part of `LayoutsConcat` |
| ExportLayout.OutputLayoutConcat | src/model/export.py:50 | the output part of `LayoutsConcat` |
| ExportLayout.ToUint32 | src/model/export.py:53 | a None raises TypeError; otherwise one word per value, each the value modulo 2^32 |
| ExportLayout.Wrapped | src/model/export.py:53 | each present value reduced modulo 2^32, None kept |
| ExportLayout.ToUint32Words | src/model/export.py:53 | every stored word lies in `[0, 2^32)` |
| ExportLayout.WrappedFits | src/model/export.py:53 | values that fit in uint32 are stored unchanged |
| ExportLayout.WrappedCollides | src/model/export.py:53 | the id 2^32 is stored as 0: two ids collide in the stream |
| ExportLayout.WrappedConcat | src/model/export.py:53 | wrapping distributes over concatenation |
| Export.FlattenConcat | src/model/export.py:23 | the rows of two runs of batches are the rows of their concatenation |
| Export.Concatenate | src/model/export.py:23 | an empty buffer raises ValueError; otherwise the buffered rows in order |
| Export.IdsOf | src/model/export.py:34 | the `n` ids from position `start`, in order |
| Export.IdsOfConcat | src/model/export.py:34 | two consecutive runs of ids are the ids of the whole run, with no gap and no repeat |
| Export.LiftToUint32 | src/model/export.py:53 | a successful conversion reads back as the ids it converted, modulo 2^32 |
| Export.LayoutsAppendRow | src/model/export.py:33-50 | laying out one more row appends its part of each layout |
| Export.OutputClassesKnown | src/model/export.py:53 | once the classes stream converts, every `output` triple has a class id |
| Export.WrittenNamed | src/model/export.py:108-118 | a written map is named as its stage says |
| Export.FlushMapsSource | src/model/export.py:108-111 | the maps of one more source extend the maps of a flush |
| Export.FlushMapsShannon | src/model/export.py:117-118 | the Shannon map ends the maps of a flush |
| Export.PositiveAfterT | src/model/export.py:75 | a positive threshold leaves only positive probabilities |
| Export.PositiveAfterOor | src/model/export.py:85 | the range filter only removes probabilities |
| Export.PositiveNormalisable | src/model/export.py:91 | positive probabilities never sum to zero, so normalisation is defined |
| Export.PreparedNormalisable | src/model/export.py:75-91 | with a positive threshold, every row reaching `normAbT` is empty or has a non-zero sum |
| Export.PreparedOf | src/model/export.py:70-91 | after a successful `out2df`, the prepared frame is the filtered located rows, normalised when the flag is set; with a positive threshold those rows never sum to zero |
| Export.SourceMaps | src/model/export.py:108-111 | the B, S and cat maps of one source in order, each named as its stage under the flush's count; once S succeeds, cat cannot fail |
| Export.SourceMap | src/model/export.py:111 | one `grid2tif` call: the rows and flags stay; the cat map cannot fail; success means a non-zero `seconds` and a `str` grid name, and writes the stage `SourceStage` describes; after S the status columns exist |
| Export.SourceMapStep | src/model/export.py:108-111 | one pass of the per-source loop: the stage's `grid2tif` call extends the chain of the source's stages by one, the columns it left following the chain; the cat stage cannot fail once S has run |
| Export.StagesOfSource | src/model/export.py:108-111 | the stages of source `s` are its B, S and cat maps, iucn first then comp |
| Export.Located | src/model/indices.py:88-103 | `df2gdf` never leaves more rows than it was given |
| Export.LocatedKeepsPositions | src/model/indices.py:88-105 | with one reference record per id, `df2gdf` drops no row after `out2df` and `appliesT`: row for row the same points and predictions, so the index stays 0..n-1 |
| Export.LocatedGrid | src/model/export.py:70-79 | a fresh frame holding the `Located` rows of the thresholded joined rows, with no column yet |
| Export.PrepareGrid | src/model/export.py:70-94 | the frame becomes `Prepared`: `out2df`, `appliesT`, `df2gdf`, the range filter and `normAbT`, with no value column and the empty flag of each row; it raises exactly when `out2df` (an empty output, ValueError) or the range filter does, with its exception |
| Export.WriteMaps | src/model/export.py:105-121 | the maps of a flush in stage order, all under the count; seven on success |
| Export.Triples | src/model/export.py:50 | the `output` triples as the frame reads them: one per entry, its id, class id and score |
| Export.ComputeIndices | src/model/export.py:67-121 | an exception of `out2df` (an empty output) or of the range filter writes no map; otherwise the maps are written stage after stage on the `Prepared` frame, each the stage's stack of the columns it found and left; seven on success |
| Export.RowLayout | src/model/export.py:36-50 | the inner loop appends, for one point, its id and class ids to `L_classes`, its scores to `L_probas` and its triples to `output`, exactly the row's layouts |
| Export.LayOutStep | src/model/export.py:33-50 | laying out row `i` after the earlier rows appends its part of each layout, under its id |
| Export.LayOut | src/model/export.py:33-50 | IndexError exactly when `test_ids` runs out; otherwise the three lists are the layouts of the rows under consecutive ids |
| Export.Encode | src/model/export.py:23-53 | an empty buffer raises ValueError, too few ids IndexError and a None class id TypeError, in that order; otherwise the layouts and the uint32 words |
| Export.Pending | src/model/export.py:171-193 | at most the number of batches seen are still buffered |
| Export.BufferSlices | src/model/export.py:183-193 | buffering one more batch keeps the flushed part and the buffer as consecutive slices of the batches |
| Export.DefaultsLeaveNothingPending | src/model/export.py:186 | with `bs_test = 512` and `buffer_size = 100`, nothing is ever left buffered |
| Export.FlushCount | src/model/export.py:171-193 | at most one flush per batch |
| Export.FlushCountNext | src/model/export.py:183-193 | one more batch adds a flush exactly when the buffer fills, and then nothing stays pending; otherwise one more batch is pending |
| Export.FlushCountMonotone | src/model/export.py:171-193 | more batches never mean fewer flushes |
| Export.DefaultsFlushEveryBatch | src/model/export.py:186 | with the default `bs_test` (512) and `buffer_size` (100) every batch is flushed |
| Export.Exporter.constructor | src/model/export.py:160-169 | empty maps log; the streams start with what the files held |
| Export.Exporter.Flush | src/model/export.py:11-123 | an empty buffer, too few ids or an unmapped class raise before anything is written; otherwise both streams grow by the layouts (words modulo 2^32), the maps are logged under the advanced count, and the count is returned when they all succeed |
| Export.Exporter.FlushAfter | src/model/export.py:191 | an empty buffer raises ValueError; on success the streams hold the rows of every batch flushed so far under consecutive ids, and the new count is above every earlier flush's |
| Export.Exporter.FlushFull | src/model/export.py:186-191 | a full buffer's flush: on success the streams hold every batch so far and the complete flushes grow by one; on failure the run stops short of its flushes; at most one flush is logged |
| Export.Exporter.BufferBatch | src/model/export.py:183-197 | one turn of the flush loop: the batch joins the buffer; a full buffer is flushed and emptied, the streams then holding every batch so far and the complete flushes growing by one; a raise is a failed flush or, with an empty `grid_ref`, the progress line's ZeroDivisionError |
| Export.Exporter.FlushLoop | src/model/export.py:171-197 | on success the buffer left is the last `Pending` batches, and the streams hold every earlier row under consecutive ids; the maps log grows with strictly increasing counts for non-empty batches; a raise is a failed flush or, with an empty `grid_ref`, the progress line's ZeroDivisionError right after the first flush, so at most one flush is logged |
| Export.Exporter.LastFlush | src/model/export.py:200-203 | the final flush: ValueError on an empty buffer; on success the count is the number of rows and the streams hold all of them |
| Export.Exporter.ExportBigdata | src/model/export.py:127-208 | as written: with nothing pending after the loop the export always raises, ValueError when every flush wrote its maps (and `grid_ref` is not empty or there was no batch); with a batch pending it succeeds exactly when every flush wrote all seven maps and `grid_ref` is not empty; an empty `grid_ref` always raises, after at most one flush (the progress percentage divides by its length); a tuple `grid_name` always raises; any success holds every row in the streams under consecutive ids |
| Export.Exporter.ExportBigdataFixed | src/model/export.py:127-208 | with the final flush guarded by a non-empty buffer: the export succeeds exactly when every flush, the final one included if any batch is pending, wrote all seven maps and, if there was a batch, `grid_ref` is not empty (the progress percentage divides by its length), then holds every row in the streams; an empty `grid_ref` logs at most one flush; a tuple `grid_name` raises unless there is no batch |
| Export.Exporter.LogIndices | src/model/export.py:67-121 | the maps `compute_indices` writes are logged under the count, named as their stages; the streams are untouched |
| Export.WrittenUnderStr | src/model/indices.py:362-364 | a flush that wrote a map had a `str` grid name |
| Export.AllWrittenUnderStr | src/model/indices.py:362-364 | a run of flushes that all wrote seven maps had a `str` grid name |
| Export.FlushLogStep | src/model/export.py:191 | a flush keeps the maps log, and on success its count is above every logged one |
| Export.FlushStreamsStep | src/model/export.py:191 | a successful flush after earlier batches leaves the rows of both in the streams under consecutive ids |
| Export.FlushedUnchanged | src/model/export.py:23-53 | a flush that raises before writing leaves the streams and the log as they were |
| Export.FlushedWritten | src/model/export.py:52-118 | a flush that writes its rows logs one entry of maps under the advanced count |
| Export.LogStep | src/model/export.py:191 | the log after a flush still extends the original, with counts bounded by the new one |
| Export.FlushedWithLogShape | src/model/export.py:11-123 | the log is untouched (and the flush raised) or one entry longer at the advanced count |
| Export.FlushedOk | src/model/export.py:52-61 | a successful flush converted its class ids and appended both streams |
| Export.LogAppend | src/model/export.py:111 | logging one more flush, at a count above the earlier ones when strict, keeps the log |
| Export.FlushExtends | src/model/export.py:52-61 | a successful flush of rows `b` at count `count` extends the streams by them, attributed to the next ids |
| Export.ProbasStreamExtends | src/model/export.py:54 | the probas part of `FlushExtends` |
| Export.ClassesStreamExtends | src/model/export.py:53 | the classes part of `FlushExtends`, ids and class ids modulo 2^32 |
| RasterCatalog.Names | src/model/loaders/dataset/providers/raster_provider.py:12-67 | the entry names, in order |
| RasterCatalog.Find | src/model/loaders/dataset/providers/raster_provider.py:333 | `raster_metadata[name]` is the last entry with that name; KeyError exactly when none has it |
| RasterCatalog.SortedKeys | src/model/loaders/dataset/providers/raster_provider.py:319 | every name once, in ascending string order |
| RasterCatalog.HumanPressureWellFormed | src/model/loaders/dataset/providers/raster_provider.py:13-26 | the human-pressure entries are well formed |
| RasterCatalog.BiomesEcoregionsWellFormed | src/model/loaders/dataset/providers/raster_provider.py:27-34 | the biome and ecoregion entries are well formed for codes in `[10101, 81333]` |
| RasterCatalog.HumanFootprintClimateWellFormed | src/model/loaders/dataset/providers/raster_provider.py:35-55 | the footprint and climate entries are well formed |
| RasterCatalog.SoilGridsWellFormed | src/model/loaders/dataset/providers/raster_provider.py:56-66 | the soil entries are well formed |
| RasterCatalog.AllWellFormedAppend | src/model/loaders/dataset/providers/raster_provider.py:12-67 | well-formedness of two parts gives it for their concatenation |
| RasterCatalog.CatalogWellFormed | src/model/loaders/dataset/providers/raster_provider.py:12-67 | every entry has its sentinel below its range, a positive range and deviation, its categories inside the range, and none is ignored |
| RasterCatalog.HumanPressure | src/model/loaders/dataset/providers/raster_provider.py:13-26 | the human-pressure entries; `HumanPressureWellFormed` states that they are well formed |
| RasterCatalog.BiomesEcoregions | src/model/loaders/dataset/providers/raster_provider.py:27-34 | the biome and ecoregion entries; `BiomesEcoregionsWellFormed` states that they are well formed |
| RasterCatalog.HumanFootprintClimate | src/model/loaders/dataset/providers/raster_provider.py:35-55 | the footprint and climate entries; `HumanFootprintClimateWellFormed` states that they are well formed |
| RasterCatalog.SoilGrids | src/model/loaders/dataset/providers/raster_provider.py:56-66 | the soil entries; `SoilGridsWellFormed` states that they are well formed |
| RasterCatalog.Catalog | src/model/loaders/dataset/providers/raster_provider.py:12-67 | `raster_metadata` in key order; `CatalogWellFormed` states that every entry is well formed |
| RasterCatalog.SentinelOutsideRange | src/model/loaders/dataset/providers/raster_provider.py:12-67 | a well-formed sentinel is neither a category nor in the valid range |
| RasterCatalog.FindWellFormed | src/model/loaders/dataset/providers/raster_provider.py:333 | a name found in a well-formed catalog has a well-formed entry |
| Ecoregions.SortInts | src/model/loaders/dataset/providers/raster_provider.py:119 | ascending, and a permutation of the input |
| Ecoregions.TruncAll | src/model/loaders/dataset/providers/raster_provider.py:119 | each value truncated toward zero |
| Ecoregions.SortIntsStrict | src/model/loaders/dataset/providers/raster_provider.py:119 | sorting distinct numbers gives a strictly increasing list |
| Ecoregions.ZipRanksDistinct | src/model/loaders/dataset/providers/raster_provider.py:120-121 | for distinct keys, each key maps to its 1-based position and there are as many entries as keys |
| Ecoregions.RankKeysStrict | src/model/loaders/dataset/providers/raster_provider.py:119 | sorting keeps the number of codes, and distinct codes sort strictly increasing |
| Ecoregions.RankKeysMembers | src/model/loaders/dataset/providers/raster_provider.py:119 | the keys are the truncated codes, reordered |
| Ecoregions.RankKeysFiveDigits | src/model/loaders/dataset/providers/raster_provider.py:119 | five-digit codes give five-digit keys of `D` |
| Ecoregions.RankKeys | src/model/loaders/dataset/providers/raster_provider.py:119 | as many keys as codes |
| Ecoregions.RankDict | src/model/loaders/dataset/providers/raster_provider.py:117-122 | `D` maps `new_nan` to itself; `RankDictRanks` and `RankDictSize` state the ranks and the size |
| Ecoregions.BiomesRef | src/model/loaders/dataset/providers/raster_provider.py:124 | ValueError when a key has fewer than two digits (`int` of an empty slice); otherwise strictly ascending and holding the biome of `new_nan` |
| Ecoregions.RankDictRanks | src/model/loaders/dataset/providers/raster_provider.py:117-122 | for distinct integral codes without `new_nan`, `D` maps the k-th smallest code to k and `new_nan` to itself |
| Ecoregions.RankDictSize | src/model/loaders/dataset/providers/raster_provider.py:117-122 | `len(D)` is the number of codes plus one |
| Ecoregions.BiomeOfKey | src/model/loaders/dataset/providers/raster_provider.py:124 | `int(str(k)[1:3])`: ValueError exactly for a one-character decimal form |
| Ecoregions.BiomeOfCode | src/model/loaders/dataset/providers/raster_provider.py:124-275 | for a five-digit code the biome read from its digits is `k // 100 % 100`, the one the per-biome bands compare |
| Ecoregions.BiomeOfMinusOne | src/model/loaders/dataset/providers/raster_provider.py:122-124 | `new_nan = -1` gives biome 1 |
| Ecoregions.BiomesOfKeys | src/model/loaders/dataset/providers/raster_provider.py:124 | the keys' biomes in key order, or the first key's ValueError |
| Ecoregions.AscendingSet | src/model/loaders/dataset/providers/raster_provider.py:124 | each value once, strictly ascending, the same values |
| Ecoregions.InsertUnique | src/model/loaders/dataset/providers/raster_provider.py:124 | adding a value to a strictly ascending list keeps it strictly ascending, with exactly the old values and the new one |
| Ecoregions.BiomesOfCodeKeys | src/model/loaders/dataset/providers/raster_provider.py:124 | five-digit keys followed by -1 all have biomes: `// 100 % 100`, and 1 for -1 |
| Ecoregions.KeyOfBiome | src/model/loaders/dataset/providers/raster_provider.py:124 | every biome read from five-digit keys followed by -1 is 1 or the biome of one of the keys |
| Ecoregions.BiomesOfRankKeysSound | src/model/loaders/dataset/providers/raster_provider.py:124 | every biome read from `D`'s keys is 1 or a code's biome |
| Ecoregions.BiomesOfRankKeysComplete | src/model/loaders/dataset/providers/raster_provider.py:124 | every code's biome is read from `D`'s keys |
| Ecoregions.BiomesRefOfCodes | src/model/loaders/dataset/providers/raster_provider.py:117-124 | for five-digit codes, `biomes_ref` is the ascending list of the codes' biomes together with 1 |
| Ecoregions.EcoValueOfCode | src/model/loaders/dataset/providers/raster_provider.py:268-285 | a pixel holding the k-th code has rank k in its biome's band and 0 elsewhere; a no-data pixel is -1 in every band |
| Ecoregions.EcoValueOneBand | src/model/loaders/dataset/providers/raster_provider.py:275-277 | a pixel is non-zero in at most one biome band |
| Ecoregions.EcoValue | src/model/loaders/dataset/providers/raster_provider.py:268-285 | one pixel of one biome band; `EcoValueOfCode` and `EcoValueOneBand` state its values |
| Rasters.LoadCellSentinel | src/model/loaders/dataset/providers/raster_provider.py:165-174 | a loaded cell is the sentinel exactly when the file held NaN, the no-data value, the sentinel or (roads only) a value below no-data; otherwise it keeps the file's value |
| Rasters.LoadCell | src/model/loaders/dataset/providers/raster_provider.py:165-174 | one loaded cell; `LoadCellSentinel` states when it is the sentinel and that it otherwise keeps the file's value |
| Rasters.LoadGrid | src/model/loaders/dataset/providers/raster_provider.py:159-174 | the same shape, each cell loaded |
| Rasters.LoadInRange | src/model/loaders/dataset/providers/raster_provider.py:165-174 | when the file's numbers are no-data or in range, every loaded cell is the sentinel or in range |
| Rasters.Loaded | src/model/loaders/dataset/providers/raster_provider.py:165-174 | the raster as loaded, before the transforms; `LoadInRange` states its cells |
| Rasters.StandardizeInverse | src/model/loaders/dataset/providers/raster_provider.py:70-72 | standardising is undone by `v * sigma + mu`; the sentinel is kept |
| Rasters.NormalizeUnit | src/model/loaders/dataset/providers/raster_provider.py:75-81 | linear normalisation maps `[min_val, max_val]` onto `[0, 1]` and the sentinel to -1 |
| Rasters.StandardizeCell | src/model/loaders/dataset/providers/raster_provider.py:72 | one standardised cell; `StandardizeInverse` states that `v * sigma + mu` undoes it and that it keeps the sentinel |
| Rasters.NormalizeCell | src/model/loaders/dataset/providers/raster_provider.py:78-80 | one normalised cell; `NormalizeUnit` states the unit range and the -1 sentinel |
| Rasters.StandardizeGrid | src/model/loaders/dataset/providers/raster_provider.py:72 | the same shape, each cell standardised |
| Rasters.NormalizeGrid | src/model/loaders/dataset/providers/raster_provider.py:78-80 | the same shape, each cell normalised |
| Rasters.StandardizeKeepsSentinel | src/model/loaders/dataset/providers/raster_provider.py:70-72 | every sentinel cell stays the sentinel, and the other cells become z-scores of in-range values |
| Rasters.NormalizeKeepsSentinel | src/model/loaders/dataset/providers/raster_provider.py:75-81 | after linear normalisation the sentinel is -1, other cells lie in `[0, 1]`, and a cell is -1 exactly when it was the sentinel |
| Rasters.CategoricalUntouched | src/model/loaders/dataset/providers/raster_provider.py:70-81 | categorical rasters are left unchanged by every transform list |
| Rasters.ApplyTransforms | src/model/loaders/dataset/providers/raster_provider.py:176-178 | the transforms one after the other, in list order; `CategoricalUntouched` states that a categorical raster keeps its state |
| Rasters.Raster.constructor | src/model/loaders/dataset/providers/raster_provider.py:89-185 | the raster holds the given metadata, geometry, tables and cells |
| Rasters.Raster.GetPatch | src/model/loaders/dataset/providers/raster_provider.py:187-260 | a zero resolution raises ZeroDivisionError; a patch is numeric and well shaped, one-dimensional for `size == 1`, three-dimensional otherwise, with the encoding's depth first |
| Rasters.GetPatchShape | src/model/loaders/dataset/providers/raster_provider.py:187-260 | with `size > 1` and positive resolutions the patch succeeds exactly when its encoding has a band, and is then depth by size by size |
| Rasters.Standardize | src/model/loaders/dataset/providers/raster_provider.py:70-72 | the raster's state becomes `StandardizeState` of the old one |
| Rasters.StandardizeState | src/model/loaders/dataset/providers/raster_provider.py:70-72 | `Standardize(raster)`; `StandardizeKeepsSentinel` and `CategoricalUntouched` state its effect |
| Rasters.NormalizeState | src/model/loaders/dataset/providers/raster_provider.py:75-81 | `Normalize(raster)`; `NormalizeKeepsSentinel` and `CategoricalUntouched` state its effect |
| Rasters.Normalize | src/model/loaders/dataset/providers/raster_provider.py:75-81 | the raster's state becomes `NormalizeState` of the old one |
| Rasters.EcoTables | src/model/loaders/dataset/providers/raster_provider.py:117-124 | only the ecoregions raster has tables |
| Rasters.OpenRaster | src/model/loaders/dataset/providers/raster_provider.py:89-185 | the table error, then IOError for a missing file, then TypeError for a bare transform; it succeeds exactly without them, with the loaded cells transformed in list order |
| RasterPatches.RowNum | src/model/loaders/dataset/providers/raster_provider.py:199 | ZeroDivisionError for a zero resolution; otherwise the truncated row |
| RasterPatches.ColNum | src/model/loaders/dataset/providers/raster_provider.py:200 | ZeroDivisionError for a zero resolution; otherwise the truncated column |
| RasterPatches.RowNumInRaster | src/model/loaders/dataset/providers/raster_provider.py:199 | a latitude in `(y_min, north edge]` gives a row of the raster |
| RasterPatches.ColNumInRaster | src/model/loaders/dataset/providers/raster_provider.py:200 | a longitude in `[x_min, east edge)` gives a column of the raster |
| RasterPatches.SubGrid | src/model/loaders/dataset/providers/raster_provider.py:213-239 | `g[r0:r1, c0:c1]`: the sliced rows, each sliced |
| RasterPatches.SubGridRect | src/model/loaders/dataset/providers/raster_provider.py:213-216 | a window of a rectangular grid is rectangular with the slices' lengths |
| RasterPatches.Full | src/model/loaders/dataset/providers/raster_provider.py:229 | an `h` by `w` grid whose every cell is `v` |
| RasterPatches.CropStartInside | src/model/loaders/dataset/providers/raster_provider.py:236-237 | on an axis at least `size` long the crop lies inside |
| RasterPatches.CropStart | src/model/loaders/dataset/providers/raster_provider.py:236-237 | `n // 2 - size // 2`; `CropStartInside` states that the crop lies inside an axis at least `size` long |
| RasterPatches.CentreCrop | src/model/loaders/dataset/providers/raster_provider.py:235-239 | the centred slice; `CropExact` states that it is exactly `size` by `size` |
| RasterPatches.CropExact | src/model/loaders/dataset/providers/raster_provider.py:235-239 | a grid at least `size` square is cropped to exactly `size` by `size`, the block at the centred corner |
| RasterPatches.BlockInside | src/model/loaders/dataset/providers/raster_provider.py:239 | a block inside a rectangular grid is cut out row for row |
| RasterPatches.BrutSide | src/model/loaders/dataset/providers/raster_provider.py:208-209 | at least 4, and at least 1.5 times the patch in cells |
| RasterPatches.RunningSideCovers | src/model/loaders/dataset/providers/raster_provider.py:208-219 | the resize is asked for at least `size` cells per side |
| RasterPatches.RunningSide | src/model/loaders/dataset/providers/raster_provider.py:218-219 | the side asked of the resize; `RunningSideCovers` states that it is at least `size` |
| RasterPatches.Window | src/model/loaders/dataset/providers/raster_provider.py:212-216 | the window around the pixel; `PatchAroundSquare` states the square patch cut from its resize |
| RasterPatches.Resized | src/model/loaders/dataset/providers/raster_provider.py:222-231 | the resized window when cv2 succeeds; otherwise `size` by `size` of `new_nan` (ValueError for a negative size) |
| RasterPatches.Crop | src/model/loaders/dataset/providers/raster_provider.py:235-239 | the centred crop, flattened, with its shape |
| RasterPatches.ResizedCovers | src/model/loaders/dataset/providers/raster_provider.py:222-231 | resize and fallback both give at least `size` cells per side |
| RasterPatches.CropSquare | src/model/loaders/dataset/providers/raster_provider.py:235-239 | a patch at least `size` per side crops to `size` by `size` |
| RasterPatches.PatchAround | src/model/loaders/dataset/providers/raster_provider.py:207-239 | the window around the pixel, resized and centre-cropped |
| RasterPatches.ReadPatch | src/model/loaders/dataset/providers/raster_provider.py:192-239 | `size == 1` reads one cell with NumPy indexing (IndexError off the raster); otherwise the patch around the pixel |
| RasterPatches.ReadOneCell | src/model/loaders/dataset/providers/raster_provider.py:204-205 | with `size == 1` the patch is the one cell at the pixel |
| RasterPatches.ReadPatchAround | src/model/loaders/dataset/providers/raster_provider.py:207-239 | past the single cell and the divisions, the patch is the one read around the pixel |
| RasterPatches.PixelSidesPositive | src/model/loaders/dataset/providers/raster_provider.py:193-194 | positive inputs give positive pixel sides |
| RasterPatches.PatchAroundSquare | src/model/loaders/dataset/providers/raster_provider.py:207-239 | with `size > 1` the patch is exactly `size` by `size`, whether the resize succeeds or not |
| RasterPatches.ReadPatchSquare | src/model/loaders/dataset/providers/raster_provider.py:187-239 | the same for the whole read |
| RasterPatches.PatchAroundFallback | src/model/loaders/dataset/providers/raster_provider.py:227-229 | when the resize fails the patch is `size` by `size` of `new_nan` |
| RasterPatches.ReadPatchFallback | src/model/loaders/dataset/providers/raster_provider.py:227-239 | the same for the whole read |
| RasterPatches.FlattenGridOf | src/model/loaders/dataset/providers/raster_provider.py:229 | a constant grid flattens to that constant |
| RasterPatches.CatGrid | src/model/loaders/dataset/providers/raster_provider.py:262-266 | one band per category, each a cell per pixel |
| RasterPatches.CatOneHot | src/model/loaders/dataset/providers/raster_provider.py:265 | for a non-sentinel pixel band k is 1 exactly when the pixel is category k, so with distinct categories at most one band is 1; a sentinel pixel is `new_nan` in every band |
| RasterPatches.CatValue | src/model/loaders/dataset/providers/raster_provider.py:265 | one pixel of one category band; `CatOneHot` states the one-hot property |
| RasterPatches.BiomeMask | src/model/loaders/dataset/providers/raster_provider.py:275 | -1, 0 or 1: -1 exactly for a no-data pixel, 1 exactly when the pixel's biome `code // 100 % 100` is the band's |
| RasterPatches.RankOf | src/model/loaders/dataset/providers/raster_provider.py:272-273 | `D.get(code, -1)`; `ComputeEcoregionsPerBiomePatch` proves that writing it over a mask's 1s gives `EcoValue` |
| RasterPatches.MaskBand | src/model/loaders/dataset/providers/raster_provider.py:275 | -1 for no-data, else 1 or 0 as the pixel's biome is the band's |
| RasterPatches.EcoBand | src/model/loaders/dataset/providers/raster_provider.py:275-284 | each pixel's value for the band's biome |
| RasterPatches.EcoGrid | src/model/loaders/dataset/providers/raster_provider.py:275-284 | one band per biome, each the pixels' values for it |
| RasterPatches.ComputeEcoregionsPerBiomePatch | src/model/loaders/dataset/providers/raster_provider.py:268-285 | the stacked masks with every 1 overwritten by the pixel's rank and scaled under Normalize equal `EcoGrid` cell for cell; ValueError for an empty patch or no biome |
| RasterPatches.FlattenGridAt | src/model/loaders/dataset/providers/raster_provider.py:257-258 | band `k` at pixel `i` is element `k * w + i` of the flattened array |
| RasterPatches.Encode | src/model/loaders/dataset/providers/raster_provider.py:257-275 | the patch with a new axis, the one-hot bands or the biome bands; depth first, well shaped and numeric; ValueError exactly for no category, no biome, or a biome patch without pixels |
| RasterPatches.EncodeOneHotAt | src/model/loaders/dataset/providers/raster_provider.py:257-266 | in a one-hot patch band `k` at pixel `i` is the pixel's one-hot value for category `k` |
| RasterPatches.EncodePerBiomeAt | src/model/loaders/dataset/providers/raster_provider.py:257-285 | in a biome patch band `k` at pixel `i` is the pixel's value for biome `k` |
| RasterProviders.ApplyPatchSteps | src/model/loaders/dataset/providers/raster_provider.py:379-381 | the steps in order; a string step raises TypeError |
| RasterProviders.AddAllNames | src/model/loaders/dataset/providers/raster_provider.py:319-321 | the catalog's names in sorted order without the ignored ones |
| RasterProviders.Unignored | src/model/loaders/dataset/providers/raster_provider.py:320 | the keys in order, without those whose entry is ignored |
| RasterProviders.Patches | src/model/loaders/dataset/providers/raster_provider.py:376 | every raster's patch in raster order, or the exception of one of them |
| RasterProviders.RasterProvider.constructor | src/model/loaders/dataset/providers/raster_provider.py:299-307 | the provider holds its parameters and no raster |
| RasterProviders.RasterProvider.RastersOrder | src/model/loaders/dataset/providers/raster_provider.py:367-368 | one name per raster, in raster order |
| RasterProviders.RasterProvider.Len | src/model/loaders/dataset/providers/raster_provider.py:384-389 | the number of variables is the number of names `get_rasters_order` lists |
| RasterProviders.RasterProvider.AppendOutcome | src/model/loaders/dataset/providers/raster_provider.py:323-336 | a successful append adds a raster exactly when its file opens |
| RasterProviders.RasterProvider.Append | src/model/loaders/dataset/providers/raster_provider.py:323-336 | the outcome is `AppendOutcome`; an added raster goes last, freshly loaded and transformed; otherwise the list is unchanged |
| RasterProviders.RasterProvider.AppendAll | src/model/loaders/dataset/providers/raster_provider.py:312-313 | it raises exactly when `AddedNames` does, with its exception; on success the names added are appended in order |
| RasterProviders.RasterProvider.AddAll | src/model/loaders/dataset/providers/raster_provider.py:315-321 | the same over the sorted, unignored catalog names |
| RasterProviders.RasterProvider.Populate | src/model/loaders/dataset/providers/raster_provider.py:309-313 | every catalog entry when the list is empty, otherwise the names listed |
| RasterProviders.RasterProvider.Clean | src/model/loaders/dataset/providers/raster_provider.py:338-343 | every raster is removed |
| RasterProviders.RasterProvider.GetItem | src/model/loaders/dataset/providers/raster_provider.py:370-382 | with no raster, `rasters[0]` raises IndexError |
| RasterProviders.AddedNamesExactly | src/model/loaders/dataset/providers/raster_provider.py:312-336 | when no name raises, the names added are exactly those asked for whose file opens, in order |
| RasterProviders.RasterProvider.AddedNames | src/model/loaders/dataset/providers/raster_provider.py:312-336 | the names an `append` loop adds, or the first exception; `AddedNamesExactly`, `AddedNamesAvailable` and `AddedNamesSorted` state which names |
| RasterProviders.AddedNamesNext | src/model/loaders/dataset/providers/raster_provider.py:312-313 | one more name extends the names added as one more `append` does |
| RasterProviders.AddedNamesStop | src/model/loaders/dataset/providers/raster_provider.py:312-313 | once a name raises, the whole list raises that exception |
| RasterProviders.AddedNamesAvailable | src/model/loaders/dataset/providers/raster_provider.py:332-336 | a name is added only when the catalog has it and its file opens |
| RasterProviders.AddedNamesSorted | src/model/loaders/dataset/providers/raster_provider.py:319 | names asked in sorted order are added in sorted order |
| RasterProviders.CatalogAppendsOk | src/model/loaders/dataset/providers/raster_provider.py:323-336 | over the catalog, a catalog name never raises: it is added or skipped as its file opens |
| RasterProviders.AddAllOverCatalog | src/model/loaders/dataset/providers/raster_provider.py:315-321 | `add_all` over the catalog never raises and adds, sorted, exactly the catalog rasters whose file opens |
| RasterProviders.AddAllNamesSorted | src/model/loaders/dataset/providers/raster_provider.py:319 | `add_all` goes through the names in sorted order |
| RasterProviders.CatalogEcoEntry | src/model/loaders/dataset/providers/raster_provider.py:27-34 | the catalog has one ecoregions entry, whose categories are the ecoregion codes and whose sentinel is -1 |
| RasterProviders.UnignoredSorted | src/model/loaders/dataset/providers/raster_provider.py:319-320 | dropping the ignored names from a sorted list of catalog names keeps it sorted |
| RasterProviders.PatchesJoined | src/model/loaders/dataset/providers/raster_provider.py:375-376 | each raster's patch appears unchanged at its offset along the first axis, in raster order |
| RasterProviders.PatchesChannels | src/model/loaders/dataset/providers/raster_provider.py:376 | the patches' first dimensions add up to the rasters' total depth |
| RasterProviders.GetItemShape | src/model/loaders/dataset/providers/raster_provider.py:370-382 | with rasters on proper grids and each encoded as at least one band, `size > 1` and no patch transform, the tensor is total depth by size by size |
| GeoProviders.LatUnit | src/model/loaders/dataset/providers/geo_provider.py:22 | maps `[-90, 90]` onto `[-1, 1]` exactly, and is inverted by the affine map back |
| GeoProviders.LonUnit | src/model/loaders/dataset/providers/geo_provider.py:23 | maps `[-180, 180]` onto `[-1, 1]` exactly, and is inverted by the affine map back |
| GeoProviders.LatScore | src/model/loaders/dataset/providers/geo_provider.py:27 | inverted by `z * std + avg`; non-negative exactly from the mean up |
| GeoProviders.LonScore | src/model/loaders/dataset/providers/geo_provider.py:28 | inverted by `z * std + avg`; non-negative exactly from the mean up |
| GeoProviders.RewritesMonotone | src/model/loaders/dataset/providers/geo_provider.py:21-29 | all four maps keep the order of coordinates |
| GeoProviders.MapBand | src/model/loaders/dataset/providers/geo_provider.py:22-28 | band `b` is rewritten cell by cell and every other cell keeps its value |
| GeoProviders.Normalize | src/model/loaders/dataset/providers/geo_provider.py:21-24 | in place, band 0 through `LatUnit` and band 1 through `LonUnit`; other bands unchanged |
| GeoProviders.Standardize | src/model/loaders/dataset/providers/geo_provider.py:26-29 | in place, band 0 through `LatScore` and band 1 through `LonScore`; other bands unchanged |
| GeoProviders.HalfSide | src/model/loaders/dataset/providers/geo_provider.py:58 | non-negative for a non-negative side |
| GeoProviders.WrapMin | src/model/loaders/dataset/providers/geo_provider.py:64-68 | never below `-m`; a bound below `-m` is wrapped into `[0, m)` |
| GeoProviders.WrapMax | src/model/loaders/dataset/providers/geo_provider.py:65-69 | never above `m`; a bound above `m` is wrapped into `(-m, 0]` |
| GeoProviders.ExtentOf | src/model/loaders/dataset/providers/geo_provider.py:54-71 | every bound lies within the latitude and longitude ranges |
| GeoProviders.ExtentAround | src/model/loaders/dataset/providers/geo_provider.py:54-71 | away from the poles and the antimeridian the extent is centred on the point, `2 d / 111` degrees tall and `2 delta_lon` wide |
| GeoProviders.Linspace | src/model/loaders/dataset/providers/geo_provider.py:96-100 | `n` values starting at `start` and, for two or more, ending exactly at `stop` |
| GeoProviders.LinspaceAt | src/model/loaders/dataset/providers/geo_provider.py:96-100 | every value is `start + i * step`: evenly spaced |
| GeoProviders.StepSign | src/model/loaders/dataset/providers/geo_provider.py:96-100 | the step has the sign of `stop - start` |
| GeoProviders.Step | src/model/loaders/dataset/providers/geo_provider.py:96-100 | the spacing of `np.linspace`; `StepSign` and `LinspaceAt` state it |
| GeoProviders.LinspaceMonotone | src/model/loaders/dataset/providers/geo_provider.py:96-100 | the values run monotonically from `start` to `stop` and stay between them |
| GeoProviders.DecimalStep | src/model/loaders/dataset/providers/geo_provider.py:89-90 | the step of `decimals` places is positive: the inverse of `10^decimals`, or `10^-decimals` for negative `decimals` |
| GeoProviders.DividedByStep | src/model/loaders/dataset/providers/geo_provider.py:89-90 | for non-negative `decimals`, dividing by the step is multiplying by `10^decimals` |
| GeoProviders.RoundToMultiple | src/model/loaders/dataset/providers/geo_provider.py:89-90 | rounding to a multiple of `s`: divided by `s`, a whole number within half a unit of `x / s`, and an even one on a tie |
| GeoProviders.DividedBack | src/model/loaders/dataset/providers/geo_provider.py:89-90 | the rounded quotient times the step, divided by the step again, is that whole number, within half a unit of `x / s` and even on a tie |
| GeoProviders.RoundTo | src/model/loaders/dataset/providers/geo_provider.py:89-90 | divided by the step `10^-decimals` (that is, scaled by `10^decimals` when `decimals >= 0`, by `DividedByStep`), the result is a whole number within half a unit of the scaled input, and an even one on a tie |
| GeoProviders.RowsOf | src/model/loaders/dataset/providers/geo_provider.py:97 | a square grid whose row `i` repeats `vec[i]` |
| GeoProviders.ColumnsOf | src/model/loaders/dataset/providers/geo_provider.py:101 | a square grid whose every row is `vec` |
| GeoProviders.GeoFeatures | src/model/loaders/dataset/providers/geo_provider.py:74-106 | raises exactly for a negative size in a known mode; a result has two bands of `size` by `size` |
| GeoProviders.ConstantFeatures | src/model/loaders/dataset/providers/geo_provider.py:82-85 | every cell of band 0 is the latitude and every cell of band 1 the longitude |
| GeoProviders.SlidingFeatures | src/model/loaders/dataset/providers/geo_provider.py:92-101 | band 0 is constant along rows and falls from the top latitude to the bottom; band 1 is constant along columns and rises from west to east |
| GeoProviders.MapGrid | src/model/loaders/dataset/providers/geo_provider.py:22-28 | the same shape, each cell through `f` |
| GeoProviders.RewriteBands | src/model/loaders/dataset/providers/geo_provider.py:46-50 | None raises TypeError and the one-dimensional object array IndexError; otherwise the two bands rewritten, same shape |
| GeoProviders.GetItem | src/model/loaders/dataset/providers/geo_provider.py:32-51 | a present item has two square bands; it raises only under a transform, with TypeError or IndexError |
| GeoProviders.FailureGivesNone | src/model/loaders/dataset/providers/geo_provider.py:38-44 | a failure inside `geo_features` gives None without a transform, and a TypeError with one |
| GeoProviders.NormalizeWins | src/model/loaders/dataset/providers/geo_provider.py:47-50 | with both transforms named only Normalize runs |
| GeoProviders.NormalizedConstantInUnit | src/model/loaders/dataset/providers/geo_provider.py:21-85 | normalised constant patches of valid coordinates lie in `[-1, 1]` and map back to the coordinates |
| GeoProviders.UnknownModeRaises | src/model/loaders/dataset/providers/geo_provider.py:102-106 | an unknown mode reaches a transform as a one-dimensional array, which raises IndexError |
| GeoProviders.AsArray | src/model/loaders/dataset/providers/geo_provider.py:106 | a numeric `(2, n, n)` array for bands, and a non-numeric `(2,)` array for the Nones |
| ModularDatasets.Collect | src/model/loaders/dataset/modular_dataset.py:29-32 | succeeds exactly when every provider does, holding their outputs in provider order; otherwise one provider's exception |
| ModularDatasets.Len | src/model/loaders/dataset/modular_dataset.py:19-20 | `len(self.ids)`; `ItemAt` and `ToNumpy` state what it bounds |
| ModularDatasets.ItemAt | src/model/loaders/dataset/modular_dataset.py:23-27 | IndexError exactly when `idx` is outside the dataset or the ids; in range, the item is `(str(id), lat, lng)` |
| ModularDatasets.Values | src/model/loaders/dataset/modular_dataset.py:34 | the numbers of a numeric array, in order |
| ModularDatasets.GetItem | src/model/loaders/dataset/modular_dataset.py:22-37 | a sample is a numeric array of at least one dimension, labelled `labels[idx]` |
| ModularDatasets.GetItemParts | src/model/loaders/dataset/modular_dataset.py:29-34 | provider `k`'s array sits unchanged at its offset, and the channel count is the sum of the providers' |
| ModularDatasets.GetItemFailures | src/model/loaders/dataset/modular_dataset.py:31-34 | a raising provider makes the sample raise the first such exception; a None output is a ValueError |
| ModularDatasets.GetItemInRange | src/model/loaders/dataset/modular_dataset.py:22-37 | in range, the sample carries `labels[idx]` and is built from occurrence `idx` |
| ModularDatasets.GetItemOneProvider | src/model/loaders/dataset/modular_dataset.py:34-37 | with one provider the sample is its array |
| ModularDatasets.Rows | src/model/loaders/dataset/modular_dataset.py:39-43 | `n` flattened samples in order, or one failing sample's exception |
| ModularDatasets.ToNumpy | src/model/loaders/dataset/modular_dataset.py:19-43 | one flattened sample per id (`len(self)`), each the sample's data |
| ModularDatasets.RowsOk | src/model/loaders/dataset/modular_dataset.py:39-43 | `numpy()` succeeds exactly when every sample does |
| MapsMerge.DedupDistinct | src/model/maps_merge.py:42 | a list without repeats is its own de-duplication |
| MapsMerge.StatusNamesDistinct | src/model/maps_merge.py:42 | distinct statuses give distinct sumap names |
| MapsMerge.TypeFolderIsStackName | src/model/maps_merge.py:42-43 | the folder a merge reads is the stack name the export wrote for the binary, Shannon and category maps |
| MapsMerge.StatusFolderIsStackName | src/model/maps_merge.py:42-43 | the status folder is the status stack's name when no status repeats |
| MapsMerge.MapsMergeOne | src/model/maps_merge.py:30-96 | a `str` maps path (`str / str`) or a tuple `grid_name` (`Path / tuple`) raises TypeError, and nothing else does; otherwise the list file beside the tiles lists them and the COG goes to the returned folder |
| MapsMerge.ListFileRoundTrip | src/model/maps_merge.py:74-80 | reading the list file back gives the tiles found, in order |
| MapsMerge.OutTifInOutDir | src/model/maps_merge.py:47-84 | the COG is `merged_<stamp>.tif` in the returned folder |
| MapsMerge.MergeCalls | src/model/maps_merge.py:23-24 | eight calls: iucn then comp, each over cats, shannon, B, S |
| MapsMerge.MapsMergeEach | src/model/maps_merge.py:23-27 | one folder per call, in order, or the first call's TypeError |
| MapsMerge.OutDirsCons | src/model/maps_merge.py:23-26 | the folders of the later calls follow the first call's |
| MapsMerge.MapsMergeAll | src/model/maps_merge.py:21-27 | succeeds exactly with a `Path` maps path and a `str` grid name, giving eight folders call by call; otherwise TypeError |
| MapsMerge.ShannonMergedTwice | src/model/maps_merge.py:23-42 | calls 1 and 5 merge the same Shannon folder |
| MapsMerge.LevelsMergedApart | src/model/maps_merge.py:23-42 | the category and binary folders of the two levels differ |
| MapsMerge.LevelFoldersApart | src/model/maps_merge.py:42-47 | for a type other than shannon and S, the two levels' folders differ |
| MapsMerge.PlainTypeFolder | src/model/maps_merge.py:42 | other types name their folder `<level>-<type>` |
| MapsMerge.Slash | src/model/maps_merge.py:43 | `Path / str`: TypeError exactly when the left side is a `str`; otherwise a path ending with the right side |
| MapsMerge.SlashGrid | src/model/maps_merge.py:43 | `/ grid_name`: TypeError exactly for a tuple grid name; otherwise a path ending with the name |
| MapsMerge.TypeFolder | src/model/maps_merge.py:42 | for S the folder is empty exactly when there are no statuses; for other types than shannon a non-empty folder starts with `<level>-` |
| MapsMerge.OutDir | src/model/maps_merge.py:47 | the merged folder ends with the grid name |
| MapsMerge.FoldersApart | src/model/maps_merge.py:47 | folders that differ in their first letter stay apart once joined onto one root and grid |
| Numeric.DivideAll | src/model/indices.py:123 | same length, each element divided |
| Numeric.SumDivideAll | src/model/indices.py:123 | the sum of the divided elements is the sum divided |
| Numeric.SumPositive | src/model/indices.py:123 | positive terms sum to a positive number |
| Numeric.Sum | src/model/indices.py:123 | `np.sum`; `SumAppend`, `SumPositive` and `SumDivideAll` state its properties |
| Numeric.SumAppend | src/model/indices.py:123 | the sum of a concatenation is the sum of the parts |
| Numeric.FloorDiv | src/model/loaders/dataset/providers/geo_provider.py:58 | the Python `//`: the quotient rounded toward negative infinity |
| Numeric.Ceil | src/model/loaders/dataset/providers/raster_provider.py:208-209 | the least integer not below `x` |
| Numeric.Round | src/model/loaders/dataset/providers/raster_provider.py:218-219 | within half a unit of `x`, a tie going to the even neighbour |
| Numeric.Trunc | src/model/loaders/dataset/providers/raster_provider.py:199-200 | truncation toward zero: below `x` by less than 1 for `x >= 0`, above it by less than 1 otherwise |
| Numeric.Fraction | src/model/loaders/dataset/providers/geo_provider.py:64-69 | the fractional part lies in `[0, 1)` |
| Numeric.PyMod | src/model/loaders/dataset/providers/geo_provider.py:64-69 | Python's float `x % m`: `x` is `m * floor(x / m)` plus the result, which has the divisor's sign and is smaller in magnitude |
| Numeric.SliceIndex | src/model/loaders/dataset/providers/raster_provider.py:213-216 | a slice bound lands inside `[0, n]` |
| Numeric.PySlice | src/model/loaders/dataset/providers/raster_provider.py:213-239 | in-range bounds slice exactly |
| Text.NatToString | src/model/indices.py:364 | at least one decimal digit, without a leading zero |
| Text.NatToStringInjective | src/model/indices.py:364 | distinct counts have distinct decimal names |
| Text.JoinWith | src/model/indices.py:253 | `sep.join(parts)`; `JoinWithFirst` states its first part and `SplitJoin` the round trip |
| Text.JoinWithFirst | src/model/indices.py:253 | joining no parts gives the empty string; otherwise the join starts with the first part |
| Text.PathJoinAll | src/model/indices.py:362 | `os.path.join` of several parts; `PathJoinAllLast` states its last part |
| Text.PathJoinAllLast | src/model/indices.py:362 | the join of several parts is the first alone when there is no other, otherwise it ends with the last |
| Text.IntToString | src/model/loaders/dataset/providers/raster_provider.py:124 | a leading '-' exactly for negatives |
| Text.IntToStringInjective | src/model/loaders/dataset/modular_dataset.py:25 | distinct ints have distinct decimal names |
| Text.PathJoin | src/model/indices.py:362-364 | an absolute part replaces the first; otherwise exactly one separator between the parts |
| Text.PathJoinInjective | src/model/indices.py:364 | joining onto one directory keeps relative names apart |
| Text.Basename | src/model/indices.py:464 | the slash-free suffix of the path |
| Text.AfterLastSlash | src/model/indices.py:464 | the position after the last "/", with no "/" from there on |
| Text.Dirname | src/model/indices.py:464 | a prefix of the path |
| Text.JoinDirnameBasename | src/model/indices.py:464-466 | for a slash-free name, basename and dirname of a join give back its parts |
| Text.DropLast | src/model/indices.py:464 | `s[:-k]` for a string at least `k` long, else empty |
| Text.StripTrailingSlashes | src/model/indices.py:464 | the trailing "/" that `os.path.dirname` removes: a prefix of the path not ending in "/" |
| Text.StrLeTotal | src/model/loaders/dataset/providers/raster_provider.py:319 | Python string order is total |
| Text.StrLeTransitive | src/model/loaders/dataset/providers/raster_provider.py:319 | and transitive |
| Text.StrLeAntisymmetric | src/model/loaders/dataset/providers/raster_provider.py:319 | and antisymmetric |
| Text.SortStrings | src/model/loaders/dataset/providers/raster_provider.py:319 | `sorted(...)`: ascending and a permutation |
| Text.SortedStringsAllPairs | src/model/loaders/dataset/providers/raster_provider.py:319 | adjacent order extends to every pair |
| Text.Split | src/model/indices.py:336 | at least one piece, none containing the separator |
| Text.SplitJoin | src/model/indices.py:336 | splitting a join on its separator gives back the parts when none contains it |
| Text.FirstIndexOf | src/model/indices.py:336 | the first position of the character, with none before it; the length when absent |
| Text.ReadLinesText | src/model/maps_merge.py:78-80 | reading back the lines written gives them, in order |
| Text.LinesText | src/model/maps_merge.py:78-80 | each line followed by "\n": empty exactly for no lines, otherwise ending in "\n", at least one character per line |
| Text.ReadLines | src/model/maps_merge.py:78-83 | the lines of a text: none exactly for an empty text, none containing "\n" |
| NdArrays.FlattenGridLength | src/model/loaders/dataset/modular_dataset.py:43 | an `h` by `w` grid flattens to `h * w` numbers |
| NdArrays.FlattenBandsLength | src/model/loaders/dataset/providers/raster_provider.py:265-275 | `b` bands of `h` by `w` flatten to `b * h * w` numbers |
| NdArrays.StackGrids | src/model/loaders/dataset/providers/raster_provider.py:265-275 | `np.stack`: numeric, well shaped, of shape `(bands, h, w)` |
| NdArrays.Vector | src/model/loaders/dataset/providers/raster_provider.py:257 | a numeric, well-shaped one-dimensional array |
| NdArrays.PyIndex | src/model/loaders/dataset/providers/raster_provider.py:205 | Python and NumPy indexing (also `index[column]` in the label index): defined exactly for `-n <= i < n`, landing on `i` or `i + n` |
| NdArrays.Concatenate | src/model/loaders/dataset/modular_dataset.py:34 | succeeds exactly when the parts are joinable (not empty, no None, same trailing shape), otherwise ValueError |
| NdArrays.JoinDataPart | src/model/loaders/dataset/modular_dataset.py:34 | each part's elements appear unchanged at its offset: the parts keep their order |
| NdArrays.JoinDataLength | src/model/loaders/dataset/modular_dataset.py:34 | joined parts hold channels times trailing-size elements |
| NdArrays.ConcatenateWellShaped | src/model/loaders/dataset/modular_dataset.py:34 | well-shaped parts concatenate to a well-shaped array |
| NdArrays.ConcatenateOne | src/model/loaders/dataset/modular_dataset.py:34 | a single non-scalar part concatenates to itself |
| NdArrays.ChannelsAppend | src/model/loaders/dataset/modular_dataset.py:34 | the first dimension of a join is the sum of the parts' |

## Left out

- File and network I/O are parameters or left out. This covers `rasterio` reads and writes, `json` files, CSV and binary writes, `np.save` of sampled patches, `glob`, `subprocess` (lz4, `rm`), `tif2cog` and directory creation. The disk of the label index is a map from path to dict. The tiles `glob` finds are a function.
- Time is a parameter or left out: the timestamps of `maps_merge_one` and every timing and print. The one print that can raise, the exported percentage `100 * exported_count / len(grid_ref)` after each flush, is modelled as its ZeroDivisionError on an empty reference grid.
- The model itself (`torch`, `DataLoader`, `no_grad`) is left out. Batches of scores are the input of the export.
- `cv2.resize` is a parameter (`Resizer`). Its success gives a grid of the asked shape, and its failure a value the code turns into the `new_nan` fallback.
- `math.cos` is a parameter: the cosine of the latitude for the raster pixel size, and the longitude half-width for the geographic extent.
- `features.rasterize` is not executed. A band is represented by the (geometry, value) pairs and the grid parameters handed to it.
- The mosaic of `incremental_tif_merge` is left out; only the file names and the destination choice are modelled.
- Reading the status table from CSV (`status_table`, `loads_GT`, `loads_predsBS`, `computes_species_ref`) is left out. The table is given as records, and the derived columns are modelled from line 193 on.
- `loads_grid_ref` and `loads_DZ` are file reads and are left out. The range dictionary `DZ` and the grid are inputs.
- The spatial join of `df2gdf` is a parameter: one region code per row.
- The Shannon index itself is not modelled. It needs `log`, so the entropies are given per row.
- Floating point is modelled as real numbers. NaN, infinities, `float32` rounding and NumPy's float `round` are left out. Division by zero in the raster geometry is excluded by the `Divisible` precondition rather than modelled as infinity.
- Normalising a row whose probabilities sum to 0 gives infinities or NaN in NumPy. The model leaves that float abstract: `normAbT` maps each entry through the parameter `byZero`. With a positive threshold no such row reaches `normAbT` (`PreparedOf`).
- The 815 ecoregion codes of the catalog are a parameter (`ecoCodes`). The proofs about them assume five-digit codes in `[10101, 81333]`.
- The iteration order of a Python dict or set is a parameter where it matters (`reverse_indexing`). A set built from a sorted list is modelled as ascending.
- `Raster.__len__` always returns 1 and `RasterProvider.__str__` and `__repr__` only format text, so they are left out.
- The CRS check of `Raster.__init__` only prints, and the `GeoMetaData.csv` fallback is a file read, so the raster's geometry is an input.
- In the default configuration `raster_transform` is the bare function `Normalize`, which is not iterable. The model makes the constructor raise TypeError for it (`OpenRaster`).
- The patch transform `["Normalize"]` holds strings, which cannot be called. The model makes `RasterProvider.GetItem` raise TypeError for it (`ApplyPatchSteps`).
- `export_params["bin_export"]` is a one-element tuple (line 133), so it is always true. Only the binary export is modelled.
- `update_dicts` also stores `grid_name` as a one-element tuple. The model carries this as `GridTuple`. Joining it into a path raises TypeError in `grid2tif` and `maps_merge_one`, so under the default parameters the first map of the first non-empty flush raises. Because the tuple never equals `"W2_05_grid"`, `df2gdf` always takes the spatial-join branch.
- ExportLayout.ArgsortDesc: ties come in index order. This is the order NumPy's default sort gives on rows short enough for its insertion sort; for longer rows NumPy promises no tie order, and the layouts then fix one it may not give.
- Rasters.StandardizeKeepsSentinel: it states only that sentinel cells stay the sentinel. A valid cell can also be standardised onto the sentinel value (for `wc2.1_30s_bio_4`, `423.9162` maps to about -1), so the converse does not hold.
- RasterProviders.RasterProvider.GetItem: its own contract covers only the empty provider. Shapes are stated by `GetItemShape`, `PatchesJoined` and `PatchesChannels` under the assumptions they list.
- MapsMerge.MapsMergeOne: the folders are only strings; `mkdir`, `glob` and the list-file write do not touch a disk. The only call in the program, `maps_merge_all(indices_params=None)` in `main.py`, fails on `None["levels"]` before any path is built; that call is glue and is left out, so the model starts from a parameter dict.
- IndicesFrame.Frame.WorstStatusCat: it writes the category by position, while `df.loc[stat_idxs, ...]` picks rows by index label. The two agree when the frame's index is 0..n-1. `LocatedKeepsPositions` proves this holds when the reference grid has one record per id. With a repeated id, `drop_duplicates` leaves a gap in the index, and `.loc` then addresses other rows or raises KeyError, which the model does not capture.
- The geographic `patch_transform` is modelled as a list of names, checked for membership as the source does.
- The label index's multitask return value is a generator in the source. The model returns the ids it would yield.

## Findings

| source | as written | input that shows it | evidently intended | confidence | as-written member | corrected member |
|---|---|---|---|---|---|---|
| src/model/export.py:201-203 | the final flush runs whenever `len(results) >= 0`, which always holds, so it also runs on an empty buffer, and `np.concatenate([])` raises ValueError | the default `bs_test = 512` with `buffer_size = 100`, a `str` grid name and a non-empty reference grid: every batch flushes on its own, the buffer is empty after the loop, and the export ends in ValueError after writing everything | flush the remaining batches only when `len(results) > 0` | not executed | Export.Exporter.ExportBigdata, Export.DefaultsLeaveNothingPending | Export.Exporter.ExportBigdataFixed |
