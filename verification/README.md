# Agentic AI performance analysis, modelled in Dafny

This project models the data pipeline of two Python scripts, `analyze_data.py` and
`explore_data.py`. Both read a spreadsheet of agentic-AI performance records. They promote its
first row to column labels and coerce two columns: `multimodal_capability` by Python truthiness,
and `bias_detection_score` to numbers, with NaN for text that does not parse. They then answer
three questions:

1. Which agent types have the highest share of multimodal rows?
2. Which model architectures have the highest share of multimodal rows?
3. Which task categories have the highest median bias detection score?

The analysis script packs the top three of each into a `results` record, which it writes as
JSON. The exploration script prints the full ranked tables, the number of multimodal rows and
the mean score of each task category.

The model is split into these modules:

- `Cells`: spreadsheet cells, plus the per-cell coercions `astype(bool)` and
  `to_numeric(errors='coerce')`.
- `Tables`: the data frame as a value, stored by columns. It holds header promotion, column
  lookup with its KeyError, and column replacement.
- `Frames`: a `Frame` class whose fields the cleaning methods overwrite in place, as the scripts
  reassign `df`. Each method is proved against the `Tables` function it performs.
- `Ranking`: `sort_values(..., ascending=False)` and `head(n)`. A column that can hold NaN is
  sorted with the NaN rows last. The facts about the top rows are proved for every order a
  descending sort may produce, so they do not depend on how pandas breaks ties.
- `Statistics`: minimum, maximum, mean and median of a group's numeric scores.
- `Grouping`: `groupby` with pandas' defaults. It keeps one group per distinct present key and
  drops NaN keys. It computes the ratio table of questions 1 and 2 and the median/count/mean
  table of question 3.
- `Reports`: the `results` record of the analysis script and the `Analyze` method that runs
  the whole script.
- `Exploration`: what the exploration script computes and prints, and the `Explore` method.

## Model

| member | source | states |
|---|---|---|
| Cells.Truthy | analyze_data.py:48 | A cell is falsy exactly when it is the empty string, the number 0 or False. Every other string (also "False" or "0") and NaN are truthy. |
| Cells.AsBool | analyze_data.py:48 | The stored cell is a boolean, True exactly when the original cell is truthy. |
| Cells.ToNumeric | analyze_data.py:52 | Coercion never fails: the result is a number or NaN. A number stays the same number. A string becomes the number `parse` reads from it, or NaN when `parse` rejects it. True and False become 1 and 0. NaN stays NaN. |
| Cells.Score | analyze_data.py:110-112 | A cleaned score cell contributes a value to the statistics exactly when it holds a number, and that value is the number. |
| Tables.Row | analyze_data.py:28 | `df.iloc[i]` has one cell per column, and cell j is column j's cell in row i. |
| Tables.ColumnIndex | analyze_data.py:48 | Finds the first column with the given label. It finds none exactly when no column has that label. |
| Tables.Column | analyze_data.py:48 | `df[name]` succeeds exactly when a column is labelled `name`. It then returns that column, with one cell per row; otherwise it fails with KeyError(name). |
| Tables.PromoteHeader | analyze_data.py:28-37 | Fails (IndexError) exactly on a frame with no rows. Otherwise the labels are raw row 0, there is one row fewer, and data row i is raw row i + 1. |
| Tables.MapColumn | analyze_data.py:48-52 | Fails with KeyError exactly when the column is missing. Otherwise only that column changes, cell by cell; labels, row count and every other column stay as they were. |
| Tables.Clean | analyze_data.py:28-52 | Cleaning a well-formed frame (one label per column, every column as tall as the frame) gives a well-formed frame. Its contents are stated by `Tables.CleanFacts`. |
| Tables.CleanFacts | analyze_data.py:28-52 | Cleaning fails with IndexError on an empty sheet, then with KeyError for the multimodal column, then for the score column, and succeeds otherwise. On success, the multimodal column is the truthiness of the raw cells one row down and the score column their numeric coercion; every other cell is the raw cell one row down. |
| Frames.Frame.constructor | analyze_data.py:24 | The frame holds the sheet with row labels 0 to n − 1. |
| Frames.Frame.PromoteHeader | analyze_data.py:28-37 | The in-place update leaves the frame equal to `Tables.PromoteHeader` of the old frame, renumbered from 0. On failure it leaves the frame unchanged. |
| Frames.Frame.Replace | analyze_data.py:48-52 | The in-place update leaves the frame equal to `Tables.MapColumn` of the old frame, with the row labels kept. On failure it leaves the frame unchanged. |
| Frames.LoadAndClean | analyze_data.py:28-52 | Cleaning one frame step by step gives exactly `Tables.Clean` of the sheet. |
| Ranking.SortDesc | analyze_data.py:74 | The result is a permutation of the table, non-increasing in the measure. |
| Ranking.Head | analyze_data.py:77 | `head(n)` is the first min(n, rows) rows. |
| Ranking.TopOfRanking | analyze_data.py:74-77 | For any descending permutation, the top n has min(n, rows) rows. They are non-increasing, all come from the table, and none repeats when the table has no duplicate. No row left out has a larger measure than a kept row. |
| Ranking.RankedMeasuresUnique | analyze_data.py:74-77 | Any two descending orders of the same table have the same measure at every position, so the reported ratios do not depend on tie order. |
| Ranking.NaLastMeasuresUnique | analyze_data.py:115 | Any two descending orders of the same table with the NaN rows last agree at every position on whether the row has a number, and on that number. |
| Ranking.SortDescNaLast | analyze_data.py:115 | The result is a permutation of the table. Every row with a number comes before every NaN row, and the numbers never increase. |
| Ranking.TopOfNaLastRanking | analyze_data.py:115-117 | For any such order, the top n has min(n, rows) rows from the table, none repeated when the table has no duplicate, still NaN-last. No row left out has a number when a kept row has none, or a larger number than a kept row. |
| Ranking.TotalPermutation | explore_data.py:29-31 | Reordering a table, as sorting does, does not change the sum of a count column. |
| Statistics.Mean | explore_data.py:64-66 | The mean lies between the smallest and the largest value. |
| Statistics.Median | analyze_data.py:110-112 | The median lies between the smallest and the largest value. |
| Statistics.MedianOfAscending | analyze_data.py:110-112 | On values already in ascending order, the median is the middle value, or the mean of the two middle values. |
| Statistics.MedianSplitsInHalves | analyze_data.py:110-112 | At least half of the values are at most the median, and at least half are at least the median. |
| Statistics.MedianOrderIndependent | analyze_data.py:110-112 | The median depends only on the multiset of values, not on row order. |
| Grouping.DistinctKeys | analyze_data.py:63 | One group per key, no key twice. The keys are exactly the present values of the key column: `Grouping.Present` excludes NaN, so rows with a NaN key belong to no group. |
| Grouping.Partition | analyze_data.py:63-65 | Summed over all groups, any per-group row count equals that count over the rows with a present key. So each such row is in exactly one group, and rows with a NaN key are in none. |
| Grouping.Mask | explore_data.py:22 | `df[flags == True]` keeps exactly the rows whose flag is set, in order. |
| Grouping.PresentHitsWithinMask | explore_data.py:22-28 | The flagged rows with a present key are at most the rows the mask keeps, and exactly those rows when no key is NaN. |
| Grouping.RatioOf | analyze_data.py:63-71 | `total_count` is the group size (at least 1), and `multimodal_count` the number of flagged rows in it (at most the size). `ratio` is their quotient, between 0 and 1. |
| Grouping.RatioTable | analyze_data.py:63-71 | There is one row per distinct present key and every such key has a row. No key appears twice, and each row is `RatioOf` its group. |
| Grouping.RatioTableSums | analyze_data.py:63-68 | Summed over the table, `total_count` is the number of rows with a present key, and `multimodal_count` the number of those rows that are flagged. |
| Grouping.GroupScores | analyze_data.py:110-112 | A group's values are as many as its rows with a numeric score. |
| Grouping.GroupScoresMembers | analyze_data.py:110-112 | A group's values are exactly the numeric scores of its rows. NaN scores are left out. |
| Grouping.GroupScoresCounts | analyze_data.py:110-112 | Each number occurs in a group's values exactly as often as the group's rows hold it as their score. So the median is taken over the group's scores with their multiplicities. |
| Grouping.HasScoreHits | analyze_data.py:110-112 | A group has a numeric score exactly when its count is at least 1. |
| Grouping.ScoreOf | analyze_data.py:110-114 | `count` is the number of the group's rows with a numeric score. `median` and `mean` are NaN exactly when that count is 0; otherwise they are the median and mean of those scores. |
| Grouping.ScoreTable | analyze_data.py:110-114 | There is one row per distinct present key and every such key has a row. No key appears twice, and each row is `ScoreOf` its group. |
| Grouping.ScoreTableCount | analyze_data.py:110-112 | Summed over the table, `count` is the number of rows with a present key and a numeric score. |
| Reports.Flags | analyze_data.py:64 | The flags that `sum` counts are exactly the cells equal to True. |
| Reports.Scores | analyze_data.py:110 | Each score cell becomes its numeric value, or NaN. |
| Reports.RankedRatios | analyze_data.py:74 | The sorted ratio table is a ranking of the table: the same rows, each as often, with ratios non-increasing. |
| Reports.RankedScores | analyze_data.py:115 | The sorted table of question 3 is a ranking of the table: the same rows, each as often, numeric medians non-increasing and NaN medians last. |
| Reports.RankedMediansUnique | analyze_data.py:115-117 | Any two rankings of the same table of question 3 list the same median, or NaN, at every position, so the reported medians do not depend on tie order. |
| Reports.RatioEntries | analyze_data.py:134-142 | Each entry copies its ranked row field by field (`name` the key, `ratio`, `multimodal_count`, `total_count`), one entry per row, in the same order. The same comprehension builds question 2 at analyze_data.py:146-154. |
| Reports.ScoreEntries | analyze_data.py:158-165 | Each entry copies its ranked row field by field (`name` the key, `median_score` the median, `count`), one entry per row, in the same order. |
| Reports.RatioSection | analyze_data.py:77 | The data list of question 1 or 2 has min(3, groups) entries. Entry i copies row i of the sorted ratio table. |
| Reports.ScoreSection | analyze_data.py:117 | The data list of question 3 has min(3, groups) entries. Entry i copies row i of the sorted table of question 3. |
| Reports.RatioSectionOrder | analyze_data.py:74-77 | For every ranking of the ratio table, including any order pandas gives tied groups: questions 1 and 2 list min(3, groups) entries. Their ratios are non-increasing, and no group appears twice. |
| Reports.RatioSectionCounts | analyze_data.py:132-143 | For every ranking of the ratio table, each entry names a present key. It carries that group's true flagged count and size, and their quotient as the ratio. |
| Reports.RatioSectionBest | analyze_data.py:74-77 | For every ranking of the ratio table, no group left out of question 1 or 2 has a higher ratio than a listed one. |
| Reports.ScoreSectionOrder | analyze_data.py:115-117 | For every ranking of the table of question 3, including any order pandas gives tied groups: question 3 lists min(3, groups) entries, with no group twice. The numeric medians are non-increasing and come before any NaN one. |
| Reports.ScoreSectionCounts | analyze_data.py:156-166 | For every ranking of the table of question 3, each entry names a present key and carries its count of numeric scores. Its median is NaN exactly when that count is 0, and otherwise is the median of those scores. |
| Reports.ScoreSectionBest | analyze_data.py:115-117 | For every ranking of the table of question 3, no group left out of question 3 has a numeric median that a listed entry lacks or exceeds. |
| Reports.ReportFrom | analyze_data.py:63-167 | Fails with KeyError on the first missing column, in the order the script groups and aggregates. Otherwise `total_records` is the row count and the three titles are the fixed strings. Question 1 is the top three of the agent types and question 2 of the model architectures, both ranked by their ratio of multimodal rows. Question 3 is the top three of the task categories, ranked by median bias score. |
| Reports.ReportOf | analyze_data.py:28-167 | The whole analysis on the raw sheet fails only with IndexError, or with KeyError on one of the five columns it uses. On success `total_records` is the sheet's rows minus 1, the header row. |
| Reports.ReportOfFacts | analyze_data.py:28-131 | The analysis fails with IndexError on an empty sheet. It fails with KeyError on the first of its five columns the header lacks, in lookup order. Otherwise it succeeds, with `total_records` equal to the sheet's rows minus 1. |
| Reports.Analyze | analyze_data.py:24-167 | Running the script, with cleaning done in place on one frame, gives exactly `ReportOf` the sheet. |
| Exploration.ExploreFrom | explore_data.py:22-74 | Fails with KeyError on the first missing column in lookup order. Otherwise it records the frame's shape. |
| Exploration.ExploreFields | explore_data.py:21-74 | On success all five columns are found. The mask count is the number of rows flagged True. The three printed tables are the sorted tables of the agent type, model architecture and task category columns. Each top three is the first min(3, rows) rows of its table. |
| Exploration.ExploreOf | explore_data.py:4-74 | The whole exploration on the raw sheet fails only with IndexError, or with KeyError on one of the five columns it uses. On success it records the sheet's rows minus 1 and one column per header cell. |
| Exploration.Explore | explore_data.py:4-74 | Running the script, with cleaning done in place, gives exactly `ExploreOf` the sheet. |
| Exploration.ExploreOfFacts | explore_data.py:4-15 | The exploration fails exactly when the analysis does, with the same error, and otherwise counts the same records. |
| Exploration.ExploreCounts | explore_data.py:22-37 | Summed over a ranked group table, `multimodal_count` is at most the number of multimodal rows. Both sums cover all rows when no key is NaN. Summed over the task table, `count` is the number of rows with a task category and a numeric score. |
| Exploration.RatioGroupCounts | explore_data.py:26-31 | The sorted ratio table's sums equal the counts of flagged rows and of rows with a present key. |
| Exploration.ExploreOrder | explore_data.py:29-74 | The printed tables are sorted: ratios non-increasing, numeric medians non-increasing and NaN last. Every row of the two ratio tables has `multimodal_count` at most `total_count` and a ratio between 0 and 1. Each top three is the table's first rows. Every numeric median and mean lies between its group's smallest and largest score. |

## Left out

- Reading the Excel file (`pd.read_excel`) is binary file input. The model starts from the frame
  the reader returns, as a table of cells.
- Serialising the report to JSON and writing `results.json` is file output. The report is a
  datatype; `float(NaN)` is represented as `None`.
- All printing and number formatting (percentages, four decimals, `to_string`) is console
  output.
- `script.js` and `dashboard.html` (the browser dashboard that reads `results.json`) are not
  part of this model.
- The order pandas gives tied groups is not modelled. pandas' default sort is not stable, and
  `groupby` itself sorts the keys. The model groups in first-appearance order and sorts by
  insertion, so `Reports.ReportFrom` and `Exploration.ExploreFrom` list tied groups in one
  particular order, which may differ from pandas'. The `Reports.RatioSection*` and
  `Reports.ScoreSection*` lemmas are stated for every ranking of the grouped table, pandas'
  order included. `Ranking.RankedMeasuresUnique` shows that the listed ratios, and
  `Reports.RankedMediansUnique` that the listed medians, do not depend on that order.
- Group keys are compared as cells. pandas treats True as the key 1 and False as the key 0, so
  a key column that mixes booleans with those numbers has one group per pair; the model has
  two.
- Floating-point arithmetic is modelled with exact reals.
- Parsing text to a number in `to_numeric` is the parameter `parse`. A boolean cell is taken
  as 1 or 0.
- A score column made only of booleans (which pandas would keep as a boolean column) is not
  distinguished from a numeric one.
- A header with the same label twice is resolved to the first column with that label. pandas
  would return several columns for that label, and the script would then fail: `groupby` on it
  raises ValueError, and `to_numeric` on the score label raises TypeError.
- The statistics frames' in-place column assignments (`stats.columns = ...`,
  `stats['ratio'] = ...`) are modelled as building each row at once.
