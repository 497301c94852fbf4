# Hashtag analysis, modelled in Dafny

`hashtag_analysis.py` reads a table of Instagram hashtag readings. Each row
holds a hashtag, its post count and the time of the reading. The program
turns the table into a summary of how each hashtag changed. This project models
that analysis and proves properties of the model.

- **Table** (`table.dfy`) models the table as a sequence of observations with
  times in whole seconds. It covers:
  - `iloc` positions, where a negative index counts from the end and anything
    else is `IndexError`;
  - the list of hashtag names, in order of first appearance
    (`total_df['hashtag'].unique()`);
  - each hashtag's rows (the boolean mask);
  - the clean-up that renumbers a group from 0 and drops its `hashtag` column.

  The lemmas prove that:
  - each name is listed once, in first-appearance order;
  - a name is listed exactly when some row carries it;
  - a group holds exactly its name's rows, in their original order;
  - together the groups hold every row.
- **Deltas** (`deltas.dfy`) models `row_delta` and
  `calculate_timedelta_in_hours`. Each field of the record gets a meaning:
  - the post difference;
  - the later row's time;
  - the elapsed hours;
  - the hourly rate;
  - the percentage rate.

  The two ratios are `Undefined` when their divisor is zero. The lemmas prove
  that:
  - the elapsed time is positive when the later reading is later;
  - swapping the two rows negates the post difference and the hours and keeps
    the rate;
  - `iloc` reaches a row from either end;
  - worked scenarios come out as expected.
- **Frames** (`frames.dfy`) models the summary step:
  - dictionaries as ordered key/value lists;
  - `pd.DataFrame(list_of_dicts)`, whose columns are the keys in order of first
    appearance and whose missing keys become NaN;
  - column selection `frame[cols]`, which raises `KeyError` on an unknown
    column;
  - the column reorder of `_total_changes`.

  The reorder keeps the code's behaviour as written. It overwrites the first
  non-`hashtag` column with `hashtag`, so the summary table has no
  `post_diff` column, and with no hashtags at all it raises `IndexError`.
- **Analysis** (`analysis.dfy`) holds the two classes. `Hashtag` has `df`,
  `deltaDf` and `totalChange`, set by its constructor. Its `ChangeBetween`
  is a `while` loop proved against `RowDelta`. It keeps the `if i == j: break` branch of line 67, with an `assert false` there proving that the branch can never be taken inside `while i < j`. `HashtagAnalyzer` has the
  table, the `hashtags` dictionary with its keys in insertion order, and the
  summary table. `LoadDataframes` and `CollectTotals`, which `TotalChanges` calls, are loops over the names.
  The summary is proved equal to a function `Analyze` of the table, and the
  lemmas `AnalyzeShape` and `AnalyzeRow` state what it contains.

## Model

| member | source | states |
|---|---|---|
| Table.Position | hashtag_analysis.py:76-77 | `iloc[i]` on `n` rows succeeds exactly when `-n <= i < n`. The row it picks is `i` or `n + i`. Otherwise it raises `IndexError`. |
| Table.NamesDistinct | hashtag_analysis.py:22 | `unique()` lists every hashtag name only once. |
| Table.NamesCover | hashtag_analysis.py:22 | A name is listed if and only if some row of the table carries it. |
| Table.NamesInFirstAppearanceOrder | hashtag_analysis.py:22 | Names are listed in the order of their first rows: an earlier name's first row comes before a later name's first row. |
| Table.TagRowsCarryTag | hashtag_analysis.py:25 | Every row the mask keeps for a hashtag carries that hashtag. |
| Table.PositionsExact | hashtag_analysis.py:25 | The positions the mask keeps are strictly increasing. They are exactly the positions of the rows carrying the hashtag. |
| Table.TagRowsAt | hashtag_analysis.py:25 | Group row `k` is the table row at the `k`-th kept position. The group keeps the table's order. |
| Table.TagRowsNonEmpty | hashtag_analysis.py:22-25 | A hashtag's group is non-empty if and only if the hashtag occurs in the table. |
| Table.GroupsCoverRows | hashtag_analysis.py:22-26 | The groups of the listed names together hold as many rows as the table, so every row lands in exactly one group. |
| Table.CleanUp | hashtag_analysis.py:51-54 | The cleaned series has the group's length. Row `k` keeps group row `k`'s posts and time, renumbered from 0 without the hashtag. |
| Deltas.Divide | hashtag_analysis.py:83 | A ratio is defined exactly when the divisor is non-zero. Quotient times divisor gives back the dividend. |
| Deltas.PercentOf | hashtag_analysis.py:84 | The percentage is defined exactly when the rate is defined and the base count is non-zero. Percentage times base equals rate times 100. |
| Deltas.TimedeltaInHours | hashtag_analysis.py:92-97 | Succeeds exactly when both indices address a row, otherwise `IndexError`. Hours times 3600 equals the later time minus the earlier, in seconds. |
| Deltas.RowDelta | hashtag_analysis.py:74-85 | Succeeds exactly when both indices address a row. Otherwise the error is `IndexError`. |
| Deltas.RowDeltaFields | hashtag_analysis.py:76-84 | Field by field: post difference `posts[j] - posts[i]`, time `time[j]`, and elapsed hours from the seconds. The hourly rate is defined iff the times differ. The percentage is defined iff additionally `posts[i]` is non-zero, with its defining identity. |
| Deltas.TotalChange | hashtag_analysis.py:87-90 | The total change of a non-empty series is last minus first in posts, the last time, and the hours from the first reading to the last. |
| Deltas.TotalChangeFirstToLast | hashtag_analysis.py:90 | `row_delta(0, -1)` is the same record as `row_delta(0, len(df) - 1)`. |
| Deltas.ElapsedPositive | hashtag_analysis.py:92-97 | If row `j` is later than row `i`, the elapsed hours are positive and the hourly rate is defined. |
| Deltas.RowDeltaSwap | hashtag_analysis.py:78-83 | Swapping `i` and `j` negates the post difference and the elapsed hours, reports the other row's time, and keeps the hourly rate. |
| Deltas.RowDeltaFromEnd | hashtag_analysis.py:76-77 | Addressing either row from the end (`k - len(df)`) gives the same record as addressing it from the front. |
| Deltas.OneHourScenario | hashtag_analysis.py:74-85 | 100 posts, then 150 posts an hour later, gives +50 posts, 1 hour, 50 posts per hour and 50 percent. |
| Deltas.ZeroStartScenario | hashtag_analysis.py:83-84 | Starting from 0 posts, with 10 posts two hours later, gives a defined rate of 5 per hour and an undefined percentage. |
| Frames.Assign | hashtag_analysis.py:33 | `d[key] = v` stores `v` under `key` and leaves every other key's value alone. A present key keeps its place; a new key goes last. |
| Frames.BuildFrame | hashtag_analysis.py:35 | `pd.DataFrame(records)` has one row per record. Every column of every row holds that record's value, or NaN where the record lacks the key, and a row has no keys other than the columns. |
| Frames.ColumnsOfUniform | hashtag_analysis.py:35 | If all records have the same distinct keys, those keys in order are the columns. With no records there are no columns. |
| Frames.Select | hashtag_analysis.py:40 | `frame[cols]` succeeds exactly when every name in `cols` is a column, otherwise `KeyError`. Its columns are `cols` in that order, with the same rows, and each selected cell is kept. |
| Frames.Without | hashtag_analysis.py:38 | The comprehension keeps exactly the columns other than the excluded name. |
| Frames.WithoutAppend | hashtag_analysis.py:38 | The comprehension keeps the columns' order: filtering a concatenation is filtering each part and concatenating the results. |
| Frames.WithoutFirst | hashtag_analysis.py:38 | The first kept column is the first column of the list that is not the excluded name; every column before it is that name. |
| Frames.ReorderColumns | hashtag_analysis.py:38-39 | `IndexError` exactly when nothing but `hashtag` is left. Otherwise the result is as long as the non-`hashtag` list and starts with `hashtag`; positions 1 onwards are unchanged. |
| Frames.ReorderDropsFirstColumn | hashtag_analysis.py:38-39 | For distinct columns, the reordered list loses the first column of the original list that is not `hashtag`, and has no repeats. |
| Frames.ReorderSummaryColumns | hashtag_analysis.py:37-39 | The totals' columns reorder to `hashtag, time, time_diff_in_hrs, avg_posts_per_hr, percent_rate_of_change`. `post_diff` is overwritten. |
| Frames.TaggedTotal | hashtag_analysis.py:32-33 | A copy of a total change with `hashtag` added: its keys are the five fields of `row_delta` in order, then `hashtag`. |
| Frames.TaggedTotalCells | hashtag_analysis.py:32-33 | The copy holds the name under `hashtag` and each of the five fields of the total change under its own key. || Frames.TaggedTotals | hashtag_analysis.py:30-34 | One tagged record per hashtag, in the given order. |
| Frames.SummaryIsSelection | hashtag_analysis.py:35-40 | With at least one hashtag the summary is the raw table's selection of the reordered columns, and it succeeds. |
| Frames.SelectedRecord | hashtag_analysis.py:35-40 | Row `k` of a selection from `pd.DataFrame(records)` has exactly the selected columns, each with record `k`'s value. |
| Frames.SummaryRow | hashtag_analysis.py:30-40 | Summary row `k` has exactly the summary columns and holds hashtag `k`'s name, time, hours, rate and percentage. |
| Frames.SummaryShape | hashtag_analysis.py:35-40 | No hashtags gives `IndexError`. Otherwise the columns are the summary columns, with no `post_diff`, and there is one row per hashtag. |
| Analysis.GroupTotal | hashtag_analysis.py:24-26 | A listed hashtag's group is non-empty. Its total change is `row_delta(0, len(df) - 1)` on the cleaned group: last minus first in posts, the last time, and the hours from the first row to the last. |
| Analysis.TotalsOf | hashtag_analysis.py:31-33 | One (name, total change) pair per listed name, in the order of the names. |
| Analysis.AnalyzeShape | hashtag_analysis.py:28-40 | The analyzer raises `IndexError` on an empty table. Otherwise the summary starts with `hashtag`, lacks `post_diff` and has one row per distinct hashtag. |
| Analysis.AnalyzeRow | hashtag_analysis.py:28-40 | Summary row `k` belongs to the `k`-th hashtag by first appearance: its name, the time of its last reading, and the hours from its first reading to its last. All of its fields are that hashtag's `row_delta(0, -1)` on its cleaned group, apart from the overwritten `post_diff`. |
| Analysis.Hashtag.constructor | hashtag_analysis.py:44-49 | Keeps the name and stores the cleaned series. Afterwards `deltaDf` has one delta per consecutive pair and `totalChange` is `row_delta(0, -1)`. |
| Analysis.Hashtag.ChangeBetween | hashtag_analysis.py:58-72 | With `j` resolved to `len(df) + j` when negative, it returns `j - i` records when `i < j` and none otherwise. Record `k` is `row_delta(i + k, i + k + 1)`. It fails with `IndexError` exactly when `i < j` and `i` or `j` is out of range. |
| Analysis.Hashtag.CalculateTotalChange | hashtag_analysis.py:87-90 | Sets `deltaDf` to `change_between()`, one delta per consecutive pair, and `totalChange` to `row_delta(0, -1)`. |
| Analysis.HashtagAnalyzer.constructor | hashtag_analysis.py:13-16 | Keeps the table and loads one `Hashtag` per distinct name. The summary becomes `Analyze(table)`. |
| Analysis.HashtagAnalyzer.LoadDataframes | hashtag_analysis.py:18-26 | The dictionary keys are exactly the distinct names, in order of first appearance. Each `Hashtag` carries its name and consistent deltas, and its series is the cleaned group of exactly that name's rows. |
| Analysis.HashtagAnalyzer.CollectTotals | hashtag_analysis.py:30-34 | The collected list holds one tagged copy of each hashtag's total change, in order of first appearance. |
| Analysis.HashtagAnalyzer.TotalChanges | hashtag_analysis.py:28-40 | Sets the summary table to `Analyze` of the table and leaves every `Hashtag`'s `totalChange` unchanged, because a copy is taken. |

## Left out

- `scraper.py` is not part of this model. It scrapes the network through a third-party library, sleeps for random times, shows a progress bar and appends to a CSV file.
- `pd.read_csv` and the datetime parsing of `_clean_up_dataframe` (lines 20, 55-56) are left out. The table is given as observations whose times are already whole seconds.
- The `csv_fpath` argument and field are left out; the analyzer's constructor takes the table itself.
- Plotting (`plot_df`, `plot_delta_df`), `__repr__`, `main` and the `CSV_FPATH` constant are left out, being display and program entry only.
- Floating point is left out. Hours and ratios are exact reals. A zero divisor gives `Undefined` (stored as NaN in a table) rather than numpy's `inf`/`nan`.
- Posts are unbounded integers rather than numpy `int64`, so the wrap-around of `post_diff` beyond 2^63 is not modelled.
- The results of `change_between` and `delta_df` are sequences of delta records, not data frames.
- Analysis.Hashtag.constructor: requires a non-empty group, which is the only way the analyzer calls it. On an empty series `row_delta(0, -1)` would raise `IndexError`, and the model does not cover that.
- Analysis.HashtagAnalyzer.constructor: on an empty table, the `IndexError` from the column reorder is stored as `Err(IndexError)` in the summary field rather than aborting the construction.
