# SolarJets core in Dafny

This project models three parts of the SolarJets "Box the Jets" pipeline and
proves properties of them.

- **The jet object** (`BoxTheJets/aggregation/jet.py`, module `Jets`, with
  `ArgSort` for numpy's `argsort`). A `Jet` is a consensus jet. It has a
  start point, an end point, a box given by four corners, and the raw
  extracts volunteers drew for it. At construction it orients the box: the
  two corners nearest the start are the *base points*. Walking the corner
  ring from the nearest corner gives the *height points*. The width and
  height are the lengths of those two segments, and the angle is the
  direction of the height segment.
- **The subject metadata service** (`utils/meta_file_handler.py`, module
  `MetaFileHandler`, with `Unique` for numpy's `unique`). A metadata file is
  a list of subject records. Each record has a Zooniverse `subjectId` and a
  `data` dictionary. The service answers queries over that list: by HEK
  event (`#sol_standard`), by date range, by subject id, by a list of ids,
  and by jet cluster. Python's exceptions are modelled as values, each
  raised where the list comprehension would raise it. Each query then maps
  the error the way its `except` clauses do: it returns the empty array,
  or returns nothing (None) where the clause has no `return`.
- **The frame-squashing script** (`BoxTheJets/scripts/squash_frames.py`,
  module `SquashFrames`). An extract table has one row per classification
  task. For each variable it has one column per video frame 0..14. The
  script first moves each variable's data from frames 1..14 into frame 0 in
  place, blanking the cells it moved. Then, on a copy of the table, it
  appends each T5 row's frame-0 list to the frame-0 list of the first T1 row
  of the same classification, and blanks the T5 cell. The table is an
  `array<Row>` and the script's loops are methods. Each method is proved
  against a function of the old table (`SquashTable`, `MergeColumnPair`) or
  a relational description of the result (`MergedPairs`).

The main results are these:

- The base points are the nearest and the second-nearest corners. For a
  genuine rectangle they always form one side, and the height segment is the
  perpendicular side that starts at the second base point.
- Point extracts survive the column/point round trip both ways.
- `SOL_unique` is the unique strictly sorted list of the event names.
- Every query returns the records it selects in file order or list order,
  and each query's error replies are characterised.
- After the squash, frame 0 holds the last frame that had data.
- After the merge, each classification's first T1 cell holds its own list
  followed by all of the classification's T5 lists in row order. Every
  column pair ends as if it had been merged alone, and nothing else changes.

## Model

| member | source | states |
|---|---|---|
| ArgSort.Argsort | BoxTheJets/aggregation/jet.py:177 | the result is a permutation of the indices of the distances, ordered by ascending distance, with equal distances in index order |
| ArgSort.ArgsortFirstTwo | BoxTheJets/aggregation/jet.py:177-181 | the first two argsort entries differ; the first is a smallest distance, and the second is a smallest distance among the rest (lowest index on ties) |
| Jets.Nearest | BoxTheJets/aggregation/jet.py:177-181 | the nearest corner to the start: no corner is closer, and no equally close corner has a lower index |
| Jets.SecondNearest | BoxTheJets/aggregation/jet.py:177-181 | a corner other than the nearest one, and the nearest of the remaining three under the same tie-break |
| Jets.Orient | BoxTheJets/aggregation/jet.py:173-194 | autorotate yields two base points and two height points |
| Jets.BasePointsNearest | BoxTheJets/aggregation/jet.py:176-181 | the base points are [nearest corner, second-nearest corner], and each is as close to the start as any candidate |
| Jets.HeightPointsOnRing | BoxTheJets/aggregation/jet.py:184-194 | the far height point is the corner opposite the nearest one on the ring; the near height point is the ring successor of the nearest corner when that successor equals the second base point, and its ring predecessor otherwise |
| Jets.HeightStartsAtBaseEnd | BoxTheJets/aggregation/jet.py:187-194 | when the two base corners are ring neighbours, the height segment starts at the second base point |
| Jets.RectangleBaseIsSide | BoxTheJets/aggregation/jet.py:176-194 | for a rectangle and any start point, the base corners are ring neighbours, so the height segment starts where the base ends |
| Jets.RectangleHeightPerpendicular | BoxTheJets/aggregation/jet.py:199-205 | for a rectangle, the height segment is perpendicular to the base, so width and height are the two side lengths |
| Jets.Transpose | BoxTheJets/aggregation/jet.py:48 | `np.transpose([x, y])`: the i-th point pairs the i-th x with the i-th y |
| Jets.ColumnsOfTranspose | BoxTheJets/aggregation/jet.py:45-48 | splitting the transposed points gives back the x and y lists |
| Jets.TransposeOfColumns | BoxTheJets/aggregation/jet.py:45-48 | transposing the columns of a point list gives back the points |
| Jets.Jet.constructor | BoxTheJets/aggregation/jet.py:14-26 | stores subject, start, end, box and cluster values, starts with empty extract lists, and leaves the jet oriented |
| Jets.Jet.Autorotate | BoxTheJets/aggregation/jet.py:168-205 | base points, height points, direction, height and width are those of the box's orientation seen from the start |
| Jets.Jet.AddBoxExtract | BoxTheJets/aggregation/jet.py:22 | appends one value to each of the five box extract lists; they stay the same length and the orientation is unchanged |
| Jets.Jet.AddStartExtract | BoxTheJets/aggregation/jet.py:23 | appends one point to the start extract lists |
| Jets.Jet.AddEndExtract | BoxTheJets/aggregation/jet.py:24 | appends one point to the end extract lists |
| Jets.Jet.GetExtractStarts | BoxTheJets/aggregation/jet.py:34-48 | one point per start extract, whose x and y columns are exactly the stored lists |
| Jets.Jet.GetExtractEnds | BoxTheJets/aggregation/jet.py:50-64 | one point per end extract, whose x and y columns are exactly the stored lists |
| Jets.Jet.GetExtractBoxes | BoxTheJets/aggregation/jet.py:66-88 | one box per extract in insertion order, with the i-th centre, width and height, and the i-th angle converted to radians |
| Jets.Jet.GetWidthHeightPairs | BoxTheJets/aggregation/jet.py:207-220 | returns exactly the stored base and height points: the base pair is [nearest corner, second-nearest corner]; the height pair ends at the corner two steps round the ring from the nearest one and starts at the ring successor of the nearest corner when that successor equals the second base point, at its ring predecessor otherwise |
| Unique.Unique | utils/meta_file_handler.py:32 | `np.unique`: a strictly sorted list holding exactly the values of the input |
| Unique.SortedListDeterminedBySet | utils/meta_file_handler.py:32 | two strictly sorted lists with the same values are equal, so `SOL_unique` is fully determined |
| MetaFileHandler.Filter | utils/meta_file_handler.py:49 | a comprehension's `if` clause keeps exactly the accepted elements and never grows the list |
| MetaFileHandler.FilterInOrder | utils/meta_file_handler.py:49 | the kept elements are those at the accepting positions, in increasing position order |
| MetaFileHandler.FilterAt | utils/meta_file_handler.py:49 | the filtered list is the list of the elements at the accepting positions: one entry per position, the k-th being the element at the k-th position |
| MetaFileHandler.FilterExactlyOne | utils/meta_file_handler.py:146-148 | a filter has length one iff exactly one element is accepted, and then it is that element |
| MetaFileHandler.LookupAll | utils/meta_file_handler.py:97-99 | a key lookup over records succeeds iff every lookup does, giving the values in order; otherwise it raises the first failing record's error |
| MetaFileHandler.LookupAllPlainKey | utils/meta_file_handler.py:99-100 | for a non-date key, the lookup fails iff some record lacks the key, always with KeyError, and otherwise yields the raw values |
| MetaFileHandler.LookupAllFirstFailure | utils/meta_file_handler.py:97-99 | when record i is the first whose lookup fails, the comprehension raises exactly that record's error |
| MetaFileHandler.LookupAllAt | utils/meta_file_handler.py:97-99 | the lookup over the records at a list of positions succeeds iff the lookup succeeds at every position, yields the values position by position, and otherwise raises the error of the first failing position |
| MetaFileHandler.Open | utils/meta_file_handler.py:29-32 | keeps the file name and records; `subjects` lists every id in file order; `SOL_unique` is strictly sorted and holds exactly the records' `#sol_standard` values |
| MetaFileHandler.SubjectIdsBySolStandard | utils/meta_file_handler.py:48-53 | one id per record whose `#sol_standard` is the event, the k-th being the id of the k-th such record in file order |
| MetaFileHandler.SubjectDataBySolStandard | utils/meta_file_handler.py:69-74 | one data dictionary per record of the event, the k-th being the data of the k-th such record in file order |
| MetaFileHandler.SolStandardQueriesInFileOrder | utils/meta_file_handler.py:48-74 | the id and data queries return one entry per record of the event, and only those, in file order |
| MetaFileHandler.SubjectKeyValueBySolStandard | utils/meta_file_handler.py:95-105 | a value comes back iff the lookup succeeds in every record of the event, listing the values in file order; otherwise the first failing record of the event decides the reply: None for KeyError, the empty array for any other error |
| MetaFileHandler.SolStandardKeyValues | utils/meta_file_handler.py:99-101 | a non-date key missing from one record of the event makes the query return None |
| MetaFileHandler.SubjectIdsByDates | utils/meta_file_handler.py:123-131 | a bound that does not parse gives None; with both bounds parsed, ids come back iff every record's start date can be read, and they are the ids of the records the date filter accepts, in file order; otherwise the first unreadable start date decides: None for a malformed date (ValueError), the empty array for a missing or non-string one |
| MetaFileHandler.DateQueryKeepsStrictlyInside | utils/meta_file_handler.py:125 | a record is kept iff its start date lies strictly after the first bound and strictly before the second |
| MetaFileHandler.SubjectDataById | utils/meta_file_handler.py:145-152 | data comes back iff exactly one record has the id, and then it is that record's data; otherwise the query returns the empty array |
| MetaFileHandler.WithId | utils/meta_file_handler.py:177 | the records the inner comprehension selects are exactly those with the id |
| MetaFileHandler.WithIdInFileOrder | utils/meta_file_handler.py:177 | those records are the ones at the positions holding the id, in increasing position order, and the first of them is the first record with the id |
| MetaFileHandler.FirstValue | utils/meta_file_handler.py:175-177 | `[...][0]` over the records with the id: a value iff some record has the id and every such record yields the key, and then it is the first record's value; no such record raises IndexError; otherwise the first failing record's error is raised |
| MetaFileHandler.SubjectKeyValueById | utils/meta_file_handler.py:173-182 | a value iff some record has the id and the lookup succeeds in every such record, and then it is the first record's value; no such record gives the empty array; otherwise the first failing record decides: None for KeyError, the empty array for any other error |
| MetaFileHandler.KeyValueByIdUnknown | utils/meta_file_handler.py:173-182 | an id that no record has gives the empty array (IndexError) |
| MetaFileHandler.KeyValueByIdMissingKey | utils/meta_file_handler.py:173-179 | a non-date key missing from any record with the id gives None (KeyError) |
| MetaFileHandler.KeyValueByIdFirstRecord | utils/meta_file_handler.py:176-177 | otherwise the value comes from the first record with the id |
| MetaFileHandler.FirstValues | utils/meta_file_handler.py:203-205 | the outer comprehension succeeds iff every requested id yields a value, listing them in request order |
| MetaFileHandler.FirstValueOfOneId | utils/meta_file_handler.py:205 | with the key in every record, one id fails iff no record has it, always with IndexError, and otherwise yields the key of its first record |
| MetaFileHandler.FirstValuesError | utils/meta_file_handler.py:203-205 | the error of the outer comprehension is the error of the first requested id whose value cannot be found, every earlier id having a value |
| MetaFileHandler.SubjectKeyValueByList | utils/meta_file_handler.py:201-211 | a value iff every requested id yields one, listing them in request order; otherwise the first failing id decides: None for KeyError, the empty array for any other error (IndexError for an id no record has) |
| MetaFileHandler.KeyValueByListInListOrder | utils/meta_file_handler.py:201-205 | for known ids and a key present everywhere, one value per requested id in request order, each from the first record with that id |
| MetaFileHandler.KeyValueByListUnknownId | utils/meta_file_handler.py:205-211 | a single unknown id turns the whole answer into the empty array |
| MetaFileHandler.SubjectIdsByJetCluster | utils/meta_file_handler.py:233-239 | only the first two clusters are searched; the jets' subjects come back iff one of them has the identifier (the first one wins), otherwise the empty array, including for a list of fewer than two clusters |
| MetaFileHandler.SubjectDataByJetCluster | utils/meta_file_handler.py:258-259 | over the subjects of the found cluster (none when it is not found): raises ValueError iff one subject has exactly one record and another does not (`np.asarray` of data mixed with empty arrays); otherwise one reply per subject in jet order, the k-th being that subject's data query, a value iff exactly one record has it |
| MetaFileHandler.SubjectKeyValueByJetCluster | utils/meta_file_handler.py:283-284 | a found cluster gives the list query over its jets' subjects; a cluster that is not found gives an empty list of values |
| MetaFileHandler.KeyValueByJetClusterInJetOrder | utils/meta_file_handler.py:283-284 | for a found cluster whose subjects all occur and a non-date key present in every record: one value per jet, in jet order, each from the first record of that jet's subject |
| SquashFrames.SquashKeepsLastData | BoxTheJets/scripts/squash_frames.py:18-31 | after frames 1..k move, each moved frame that had data is blank, the others are untouched, and frame 0 holds the highest-numbered frame with data, or its own value when none had data |
| SquashFrames.SquashTableCells | BoxTheJets/scripts/squash_frames.py:85-93 | over the whole table and every variable: data frames are blanked, and frame 0 ends with the last data frame's value, or its own value |
| SquashFrames.MoveFrameColumn | BoxTheJets/scripts/squash_frames.py:25-31 | every row's frame-j data moves to frame 0 and frame j is blanked; rows without data and other variables are unchanged |
| SquashFrames.SquashVariable | BoxTheJets/scripts/squash_frames.py:19-31 | frames 1..14 of one variable are moved in increasing order in every row |
| SquashFrames.SquashColumns | BoxTheJets/scripts/squash_frames.py:18-31 | the table becomes the squashed table of its old contents |
| SquashFrames.FirstT1 | BoxTheJets/scripts/squash_frames.py:51 | the lowest row with the classification id and task T1, or none exists |
| SquashFrames.FindFirstT1 | BoxTheJets/scripts/squash_frames.py:51 | the scan returns that lowest row |
| SquashFrames.MergeRow | BoxTheJets/scripts/squash_frames.py:50-69 | a row with T5 data blanks its T5 cell and extends its classification's first T1 cell with the T5 list; nothing else changes |
| SquashFrames.MergeUpToStepT5 | BoxTheJets/scripts/squash_frames.py:49-69 | visiting one row blanks its T5 cell exactly when it held data and leaves every other row's T5 cell as it was |
| SquashFrames.MergeBlanksT5 | BoxTheJets/scripts/squash_frames.py:47-69 | after rows 0..n-1, a T5 cell is blank iff it held data and was visited |
| SquashFrames.MergeAccumulates | BoxTheJets/scripts/squash_frames.py:49-65 | after rows 0..n-1, each classification's first T1 cell holds its own list followed by the classification's T5 lists in row order; other T1 cells are untouched |
| SquashFrames.MergeStepT1 | BoxTheJets/scripts/squash_frames.py:57-65 | one visited row appends its T5 list to the accumulated T1 list |
| SquashFrames.MergeColumnPairCells | BoxTheJets/scripts/squash_frames.py:38-69 | the merge of one column pair over the whole table, stated cell by cell |
| SquashFrames.MergeRowInPlace | BoxTheJets/scripts/squash_frames.py:50-69 | one turn of the row loop changes the table exactly as MergeRow describes |
| SquashFrames.MergeColumn | BoxTheJets/scripts/squash_frames.py:98-129 | the row loop of one pair leaves the table as MergeColumnPair of its old contents |
| SquashFrames.PairMergedAlone | BoxTheJets/scripts/squash_frames.py:47-69 | merging one pair satisfies the cell-level description of a merged pair |
| SquashFrames.MergePairStep | BoxTheJets/scripts/squash_frames.py:38-41 | one turn of the pair loop keeps every earlier pair merged, merges the new pair as if alone, and changes nothing outside frame 0 of its columns |
| SquashFrames.MergeColumns | BoxTheJets/scripts/squash_frames.py:38-69 | after the loop over pairs, each pair is merged as if alone on the input, and no other cell changed |
| SquashFrames.SquashAndMerge | BoxTheJets/scripts/squash_frames.py:18-69 | the table is squashed in place, and a fresh copy of it is merged pair by pair |
| SquashFrames.SquashAndMergePoints | BoxTheJets/scripts/squash_frames.py:18-69 | the point-extractor table is squashed in place with "N/A" as the missing-value text, and a fresh copy of it is merged pair by pair |
| SquashFrames.SquashAndMergeShapes | BoxTheJets/scripts/squash_frames.py:85-129 | the shape-extractor table is squashed in place with "None" as the missing-value text (the `~mask` of `== 'None'`), and a fresh copy of it is merged pair by pair |

## Left out

- Plotting (`Jet.plot`), the box overlap (IoU) it draws, and `adding_new_attr` are display and attribute plumbing with nothing to prove.
- `shape_utils.get_box_edges`, `sigma_shape` and shapely's `Polygon` are not part of this model. `Jet.GetExtractBoxes` returns each box's parameters with the angle in radians instead of the corner polygon built from them.
- Jets.Jet.Autorotate: distances are squared, which orders corners the same way. So `width` and `height` are squared lengths, and the angle `arctan2(dh[0], -dh[1])` is kept as the direction vector `dh`, because square roots and arctangent are floating point.
- ArgSort.Argsort: ties are broken by lower index, as a stable sort would. numpy's default `argsort` kind is quicksort, which its documentation calls unstable, and builds that dispatch to a vectorised sort may order equal distances differently. Index order on ties is an assumption of the model.
- Jets: corner coordinates are exact reals. The source computes floating-point norms, in which distinct distances can round to equal ones. The rectangle results hold for exact arithmetic. When all four distances tie (the start at the rectangle's centre) which corners become the base rests on the tie-break assumed above.
- The four corners are taken as the first four ring points of the box polygon; the closing fifth point is dropped at jet.py:173.
- The `Add…Extract` methods stand for callers appending to the extract dictionaries created at jet.py:22-24; `jet.py` itself has no such method.
- Reading the JSON file and its two failure messages (meta_file_handler.py:20-27), and every `print`, are I/O.
- `string_to_datetime` (`datetime.fromisoformat`) is a parameter, `parse`. Dates are instants on a time line. Comparisons of naive and aware datetimes are not modelled.
- MetaFileHandler.Open: requires every record to have a `#sol_standard` string. The constructor reads that key of every record at line 32, so a file without it raises and leaves no object. Values that are not strings, which numpy would convert before sorting, are excluded too.
- MetaFileHandler.SubjectIdsBySolStandard, SubjectDataBySolStandard and SubjectKeyValueBySolStandard treat a record without `#sol_standard` as not in the event. In the source such a record raises KeyError, but no opened file has one.
- MetaFileHandler.SubjectDataByJetCluster: the ValueError for a mix of found and unfound subjects is what `np.asarray` does in numpy 1.24 and later. Earlier numpy builds an object array holding both and returns it.
- Query results are lists rather than numpy arrays, and `np.asarray`'s dtype coercion is not modelled: in the source a list mixing numbers and strings becomes strings, and bools mixed with floats become floats, whereas the model returns the raw values. The `datetime64` conversion is the identity on instants. `np.asarray` of an empty comprehension is an empty list value.
- Extract tables are read and written with astropy (squash_frames.py:8, 71-72, 77, 131-132); those steps are I/O. Column names are abstracted to a variable index and a frame index, and the `T1`/`T5` name pairing to a `ColumnPair`, so `sorted(...)` only fixes the order of the pairs.
- SquashFrames.AsList: a T1 cell that is not a list is read as the empty list. In the script, a masked cell or a name such as N/A makes `ast.literal_eval` raise ValueError, and the script uses the empty list. The script stops on an empty text (SyntaxError) and on a number or `None` (TypeError from `extend`). A tuple, string, set or dict literal passes both `ast.literal_eval` and `extend`, and the script appends its elements; the model takes such a T1 cell as the empty list, so those elements are not carried over. The extractor writes only lists into these cells.
- SquashFrames.RowMergeable: excludes a T5 cell with data that is not a list, and a classification without a T1 row (IndexError at line 51). The script stops on most such T5 texts, but a tuple, string, set or dict literal it extends element by element; the model does not cover those tables. The str/literal_eval round trip of the written lists is modelled as keeping the list itself.
- The masked, vectorised assignments of the squash are modelled as a loop over the rows. The merge tests each row's T5 cell at its turn, whereas the script builds the row mask before the loop; both select the same rows, because a row's T5 cell changes only at its own turn.
- SquashFrames.MergeColumns: the merged table is described relationally (`MergedPairs`) rather than by a function of the input. Frame 0 of every pair's columns is exactly determined, and every other cell is unchanged.
