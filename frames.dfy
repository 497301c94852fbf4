/** Records as ordered dictionaries, the table that `pd.DataFrame` builds from
    a list of them, column selection, and the summary table that
    `HashtagAnalyzer._total_changes` assembles from it. */
module Frames {
  import opened Errors
  import opened Deltas

  /** One value of a table: a count, a time in seconds, a number of hours or
      a rate, a hashtag name, or the not-a-number value that stands for an
      undefined rate and for a key that a record lacks. */
  datatype Cell = IntCell(i: int) | TimeCell(t: int) | RealCell(x: real) | TextCell(s: string) | NaN

  /** A dictionary: its keys, each once, in insertion order, with their values. */
  type Record = seq<(string, Cell)>

  /** The names of the columns that `row_delta` fills, in insertion order. */
  const DeltaColumns: seq<string> :=
    ["post_diff", "time", "time_diff_in_hrs", "avg_posts_per_hr", "percent_rate_of_change"]

  /** The columns of the summary table once `hashtag` is moved to the front. */
  const SummaryColumns: seq<string> :=
    ["hashtag", "time", "time_diff_in_hrs", "avg_posts_per_hr", "percent_rate_of_change"]

  predicate Distinct(s: seq<string>) {
    forall a, b :: 0 <= a < b < |s| ==> s[a] != s[b]
  }

  /** The keys of a record, in insertion order. */
  function Keys(rec: Record): (ks: seq<string>)
    ensures |ks| == |rec|
    ensures forall k :: 0 <= k < |rec| ==> ks[k] == rec[k].0
    decreases |rec|
  {
    if rec == [] then [] else [rec[0].0] + Keys(rec[1..])
  }

  /** The value stored under `key`, or `NaN` when the record has no such key. */
  function CellOf(rec: Record, key: string): Cell
    decreases |rec|
  {
    if rec == [] then NaN
    else if rec[0].0 == key then rec[0].1
    else CellOf(rec[1..], key)
  }

  /** `rec[key] = v`: an existing key keeps its place and takes the new value,
      a new key goes at the end; every other key keeps its value. */
  function Assign(rec: Record, key: string, v: Cell): (r: Record)
    ensures CellOf(r, key) == v
    ensures forall other :: other != key ==> CellOf(r, other) == CellOf(rec, other)
    ensures key in Keys(rec) ==> Keys(r) == Keys(rec)
    ensures key !in Keys(rec) ==> Keys(r) == Keys(rec) + [key]
    decreases |rec|
  {
    if rec == [] then [(key, v)]
    else if rec[0].0 == key then [(key, v)] + rec[1..]
    else
      var tail := Assign(rec[1..], key, v);
      assert ([rec[0]] + tail)[1..] == tail;
      [rec[0]] + tail
  }

  /** Appends to `cols` each key of `keys` that is not there yet. */
  function AddKeys(cols: seq<string>, keys: seq<string>): seq<string>
    decreases |keys|
  {
    if keys == [] then cols
    else AddKeys(if keys[0] in cols then cols else cols + [keys[0]], keys[1..])
  }

  function ColumnsFrom(cols: seq<string>, records: seq<Record>): seq<string>
    decreases |records|
  {
    if records == [] then cols
    else ColumnsFrom(AddKeys(cols, Keys(records[0])), records[1..])
  }

  /** The columns of `pd.DataFrame(records)`: every key of every record, once,
      in order of first appearance. */
  function ColumnsOf(records: seq<Record>): seq<string> {
    ColumnsFrom([], records)
  }

  /** A table: its column names in order, and one row per record mapping
      each column to its value. */
  datatype Frame = Frame(columns: seq<string>, rows: seq<map<string, Cell>>)

  /** `pd.DataFrame(records)`: a key that a record lacks is `NaN` in its row. */
  function BuildFrame(records: seq<Record>): (f: Frame)
    ensures f.columns == ColumnsOf(records)
    ensures |f.rows| == |records|
    ensures forall k, c :: 0 <= k < |records| && c in f.columns ==>
      c in f.rows[k] && f.rows[k][c] == CellOf(records[k], c)
    ensures forall k, c :: 0 <= k < |records| && c in f.rows[k] ==> c in f.columns
  {
    var cols := ColumnsOf(records);
    Frame(cols, seq(|records|, k requires 0 <= k < |records| => map c | c in cols :: CellOf(records[k], c)))
  }

  /** `frame[cols]`: the named columns in the given order, or `KeyError` when
      one of them is not a column of the table. */
  function Select(f: Frame, cols: seq<string>): (r: Result<Frame>)
    ensures r.Ok? <==> forall c :: c in cols ==> c in f.columns
    ensures r.Err? ==> r.error == KeyError
    ensures r.Ok? ==> r.value.columns == cols && |r.value.rows| == |f.rows|
    ensures r.Ok? ==> forall k, c :: 0 <= k < |f.rows| && c in cols && c in f.rows[k] ==>
      c in r.value.rows[k] && r.value.rows[k][c] == f.rows[k][c]
    ensures r.Ok? ==> forall k, c :: 0 <= k < |f.rows| && c in r.value.rows[k] ==> c in cols
  {
    if forall c :: c in cols ==> c in f.columns then
      Ok(Frame(cols, seq(|f.rows|, k requires 0 <= k < |f.rows| =>
        map c | c in cols && c in f.rows[k] :: f.rows[k][c])))
    else Err(KeyError)
  }

  /** `[c for c in cols if c != name]`. */
  function Without(cols: seq<string>, name: string): (r: seq<string>)
    ensures forall c :: c in r <==> c in cols && c != name
    ensures |r| <= |cols|
    decreases |cols|
  {
    if cols == [] then []
    else (if cols[0] == name then [] else [cols[0]]) + Without(cols[1..], name)
  }

  /** The comprehension keeps the order of the columns: filtering a
      concatenation filters each part in turn. */
  lemma {:induction false} WithoutAppend(a: seq<string>, b: seq<string>, name: string)
    ensures Without(a + b, name) == Without(a, name) + Without(b, name)
    decreases |a|
  {
    if a == [] {
      assert a + b == b;
    } else {
      assert (a + b)[1..] == a[1..] + b;
      WithoutAppend(a[1..], b, name);
    }
  }

  /** The first kept column is the first column of `cols` that is not `name`. */
  lemma {:induction false} WithoutFirst(cols: seq<string>, name: string)
    requires Without(cols, name) != []
    ensures exists p :: (0 <= p < |cols| && cols[p] == Without(cols, name)[0] && cols[p] != name &&
      forall m :: 0 <= m < p ==> cols[m] == name)
    decreases |cols|
  {
    var tail := cols[1..];
    if cols[0] == name {
      WithoutFirst(tail, name);
      var p :| 0 <= p < |tail| && tail[p] == Without(tail, name)[0] && tail[p] != name &&
        forall m :: 0 <= m < p ==> tail[m] == name;
      assert cols[p + 1] == Without(cols, name)[0];
      forall m | 0 <= m < p + 1 ensures cols[m] == name {
        if m > 0 {
          assert cols[m] == tail[m - 1];
        }
      }
    } else {
      assert cols[0] == Without(cols, name)[0];
    }
  }

  /** Lines 38-39: the non-`hashtag` columns with the first of them replaced
      by `hashtag`; when there is no such column, `columns[0]` raises
      `IndexError`. */
  function ReorderColumns(cols: seq<string>): (r: Result<seq<string>>)
    ensures r.Err? <==> Without(cols, "hashtag") == []
    ensures r.Err? ==> r.error == IndexError
    ensures r.Ok? ==> |r.value| == |Without(cols, "hashtag")| && r.value[0] == "hashtag"
    ensures r.Ok? ==> r.value[1..] == Without(cols, "hashtag")[1..]
  {
    var others := Without(cols, "hashtag");
    if |others| == 0 then Err(IndexError) else Ok(others[0 := "hashtag"])
  }

  /** The reordered list keeps `hashtag` once and loses the first
      non-`hashtag` column of `cols` altogether. */
  lemma ReorderDropsFirstColumn(cols: seq<string>)
    requires Distinct(cols)
    requires Without(cols, "hashtag") != []
    ensures ReorderColumns(cols).Ok?
    ensures Without(cols, "hashtag")[0] !in ReorderColumns(cols).value
    ensures exists p :: (0 <= p < |cols| && cols[p] != "hashtag" && cols[p] !in ReorderColumns(cols).value &&
      forall m :: 0 <= m < p ==> cols[m] == "hashtag")
    ensures Distinct(ReorderColumns(cols).value)
  {
    WithoutFirst(cols, "hashtag");
    WithoutDistinct(cols, "hashtag");
    var others := Without(cols, "hashtag");
    var r := ReorderColumns(cols).value;
    forall k | 0 <= k < |r| ensures r[k] != others[0] {
      if k > 0 {
        assert r[k] == others[k];
      }
    }
    forall a, b | 0 <= a < b < |r| ensures r[a] != r[b] {
      assert r[b] == others[b];
      if a > 0 {
        assert r[a] == others[a];
      } else {
        assert others[b] in others;
      }
    }
  }

  lemma {:induction false} WithoutDistinct(cols: seq<string>, name: string)
    requires Distinct(cols)
    ensures Distinct(Without(cols, name))
    decreases |cols|
  {
    if cols != [] {
      WithoutDistinct(cols[1..], name);
      var rest := Without(cols[1..], name);
      if cols[0] != name {
        assert cols[0] !in rest;
      }
    }
  }

  /** The record `row_delta` returns, as a dictionary. */
  function DeltaFields(d: DeltaRecord): (rec: Record)
    ensures Keys(rec) == DeltaColumns
  {
    [("post_diff", IntCell(d.postDiff)),
     ("time", TimeCell(d.time)),
     ("time_diff_in_hrs", RealCell(d.timeDiffInHrs)),
     ("avg_posts_per_hr", QuotientCell(d.avgPostsPerHr)),
     ("percent_rate_of_change", QuotientCell(d.percentRateOfChange))]
  }

  function QuotientCell(q: Quotient): Cell {
    match q
    case Defined(x) => RealCell(x)
    case Undefined => NaN
  }

  /** Lines 32-33: a copy of a hashtag's total change with its name added
      after the five fields of `row_delta`. */
  function TaggedTotal(name: string, d: DeltaRecord): (rec: Record)
    ensures Keys(rec) == DeltaColumns + ["hashtag"]
  {
    HashtagIsNoDeltaColumn();
    Assign(DeltaFields(d), "hashtag", TextCell(name))
  }

  /** `hashtag` is not one of the keys that `row_delta` fills. */
  lemma HashtagIsNoDeltaColumn()
    ensures "hashtag" !in DeltaColumns
  {
    assert |"hashtag"| == 7;
    assert |DeltaColumns[0]| == 9 && |DeltaColumns[1]| == 4 && |DeltaColumns[2]| == 16;
    assert |DeltaColumns[3]| == 16 && |DeltaColumns[4]| == 22;
  }

  /** The tagged copy holds the name under `hashtag` and each field of the
      total change under its own key. */
  lemma TaggedTotalCells(name: string, d: DeltaRecord)
    ensures CellOf(TaggedTotal(name, d), "hashtag") == TextCell(name)
    ensures CellOf(TaggedTotal(name, d), "post_diff") == IntCell(d.postDiff)
    ensures CellOf(TaggedTotal(name, d), "time") == TimeCell(d.time)
    ensures CellOf(TaggedTotal(name, d), "time_diff_in_hrs") == RealCell(d.timeDiffInHrs)
    ensures CellOf(TaggedTotal(name, d), "avg_posts_per_hr") == QuotientCell(d.avgPostsPerHr)
    ensures CellOf(TaggedTotal(name, d), "percent_rate_of_change") == QuotientCell(d.percentRateOfChange)
  {
    var rec := DeltaFields(d);
    HashtagIsNoDeltaColumn();
    CellAt(rec, 0, "post_diff");
    CellAt(rec, 1, "time");
    CellAt(rec, 2, "time_diff_in_hrs");
    CellAt(rec, 3, "avg_posts_per_hr");
    CellAt(rec, 4, "percent_rate_of_change");
  }

  /** The value under a key is the one at the key's first place in the record. */
  lemma {:induction false} CellAt(rec: Record, k: nat, key: string)
    requires k < |rec| && rec[k].0 == key
    requires forall m :: 0 <= m < k ==> rec[m].0 != key
    ensures CellOf(rec, key) == rec[k].1
    decreases k
  {
    if k > 0 {
      CellAt(rec[1..], k - 1, key);
    }
  }

  /** The records `_total_changes` collects, one per hashtag in order. */
  function TaggedTotals(totals: seq<(string, DeltaRecord)>): (recs: seq<Record>)
    ensures |recs| == |totals|
    ensures forall k :: 0 <= k < |totals| ==> recs[k] == TaggedTotal(totals[k].0, totals[k].1)
  {
    seq(|totals|, k requires 0 <= k < |totals| => TaggedTotal(totals[k].0, totals[k].1))
  }

  /** The summary table of lines 35-40, from each hashtag's name and total
      change, in the analyzer's order. */
  function SummaryFrame(totals: seq<(string, DeltaRecord)>): Result<Frame> {
    var raw := BuildFrame(TaggedTotals(totals));
    var cols :- ReorderColumns(raw.columns);
    Select(raw, cols)
  }

  lemma {:induction false} AddKeysFresh(cols: seq<string>, keys: seq<string>)
    requires Distinct(cols + keys)
    ensures AddKeys(cols, keys) == cols + keys
    decreases |keys|
  {
    if keys != [] {
      forall k | 0 <= k < |cols| ensures cols[k] != keys[0] {
        assert (cols + keys)[k] != (cols + keys)[|cols|];
      }
      assert cols + keys == (cols + [keys[0]]) + keys[1..];
      AddKeysFresh(cols + [keys[0]], keys[1..]);
    }
  }

  lemma {:induction false} AddKeysKnown(cols: seq<string>, keys: seq<string>)
    requires forall c :: c in keys ==> c in cols
    ensures AddKeys(cols, keys) == cols
    decreases |keys|
  {
    if keys != [] {
      AddKeysKnown(cols, keys[1..]);
    }
  }

  lemma {:induction false} ColumnsFromKnown(cols: seq<string>, records: seq<Record>)
    requires forall k :: 0 <= k < |records| ==> Keys(records[k]) == cols
    ensures ColumnsFrom(cols, records) == cols
    decreases |records|
  {
    if records != [] {
      AddKeysKnown(cols, Keys(records[0]));
      ColumnsFromKnown(cols, records[1..]);
    }
  }

  /** When every record has the same distinct keys, the table's columns are
      those keys in the records' order, and a table of no records has none. */
  lemma ColumnsOfUniform(records: seq<Record>, keys: seq<string>)
    requires Distinct(keys)
    requires forall k :: 0 <= k < |records| ==> Keys(records[k]) == keys
    ensures ColumnsOf(records) == if records == [] then [] else keys
  {
    if records != [] {
      AddKeysFresh([], keys);
      assert [] + keys == keys;
      ColumnsFromKnown(keys, records[1..]);
    }
  }

  /** No key of a collected record repeats. */
  lemma RecordKeysDistinct()
    ensures Distinct(DeltaColumns + ["hashtag"])
  {
    var keys := DeltaColumns + ["hashtag"];
    assert keys == ["post_diff", "time", "time_diff_in_hrs", "avg_posts_per_hr", "percent_rate_of_change", "hashtag"];
    assert |keys[0]| == 9 && |keys[1]| == 4 && |keys[2]| == 16 && |keys[3]| == 16 && |keys[4]| == 22 && |keys[5]| == 7;
    assert keys[2][0] != keys[3][0];
  }

  /** Every collected record has the keys of `row_delta` followed by
      `hashtag`, so those are the raw table's columns. */
  lemma RawColumns(totals: seq<(string, DeltaRecord)>)
    requires totals != []
    ensures BuildFrame(TaggedTotals(totals)).columns == DeltaColumns + ["hashtag"]
  {
    RecordKeysDistinct();
    ColumnsOfUniform(TaggedTotals(totals), DeltaColumns + ["hashtag"]);
  }

  /** Reordering the raw columns overwrites `post_diff` with `hashtag`. */
  lemma ReorderSummaryColumns()
    ensures ReorderColumns(DeltaColumns + ["hashtag"]) == Ok(SummaryColumns)
  {
    var keys := DeltaColumns + ["hashtag"];
    assert keys[5..] == ["hashtag"];
    assert Without(keys[5..], "hashtag") == [];
    assert keys[4..][1..] == keys[5..];
    assert Without(keys[4..], "hashtag") == DeltaColumns[4..];
    assert keys[3..][1..] == keys[4..];
    assert Without(keys[3..], "hashtag") == DeltaColumns[3..];
    assert keys[2..][1..] == keys[3..];
    assert Without(keys[2..], "hashtag") == DeltaColumns[2..];
    assert keys[1..][1..] == keys[2..];
    assert Without(keys[1..], "hashtag") == DeltaColumns[1..];
    assert Without(keys, "hashtag") == DeltaColumns;
    assert DeltaColumns[0 := "hashtag"] == SummaryColumns;
  }

  /** With at least one hashtag the summary is the raw table's selection of
      the reordered columns. */
  lemma SummaryIsSelection(totals: seq<(string, DeltaRecord)>)
    requires totals != []
    ensures SummaryFrame(totals) == Select(BuildFrame(TaggedTotals(totals)), SummaryColumns)
    ensures SummaryFrame(totals).Ok?
  {
    RawColumns(totals);
    ReorderSummaryColumns();
  }

  /** Row `k` of a selection from `pd.DataFrame(records)` holds exactly the
      selected columns, each with record `k`'s value. */
  lemma SelectedRecord(records: seq<Record>, cols: seq<string>, k: int)
    requires forall c :: c in cols ==> c in ColumnsOf(records)
    requires 0 <= k < |records|
    ensures Select(BuildFrame(records), cols).Ok?
    ensures |Select(BuildFrame(records), cols).value.rows| == |records|
    ensures forall c :: c in Select(BuildFrame(records), cols).value.rows[k] <==> c in cols
    ensures forall c :: c in cols ==> Select(BuildFrame(records), cols).value.rows[k][c] == CellOf(records[k], c)
  {
  }

  /** Every summary column is a column of the raw table. */
  lemma SummaryColumnsKnown()
    ensures forall c :: c in SummaryColumns ==> c in DeltaColumns + ["hashtag"]
  {
    assert SummaryColumns == (DeltaColumns + ["hashtag"])[5..6] + (DeltaColumns + ["hashtag"])[1..5];
  }

  /** `row` is a summary row for hashtag `name` with total change `d`: it has
      exactly the summary columns, `name` under `hashtag`, and every field of
      `d` except the post difference. */
  ghost predicate CarriesTotal(row: map<string, Cell>, name: string, d: DeltaRecord) {
    && (forall c :: c in row <==> c in SummaryColumns)
    && "hashtag" in row && row["hashtag"] == TextCell(name)
    && "time" in row && row["time"] == TimeCell(d.time)
    && "time_diff_in_hrs" in row && row["time_diff_in_hrs"] == RealCell(d.timeDiffInHrs)
    && "avg_posts_per_hr" in row && row["avg_posts_per_hr"] == QuotientCell(d.avgPostsPerHr)
    && "percent_rate_of_change" in row
    && row["percent_rate_of_change"] == QuotientCell(d.percentRateOfChange)
  }

  /** Row `k` of the summary holds hashtag `k`'s name and total change. */
  lemma SummaryRow(totals: seq<(string, DeltaRecord)>, k: int)
    requires 0 <= k < |totals|
    ensures SummaryFrame(totals).Ok? && |SummaryFrame(totals).value.rows| == |totals|
    ensures CarriesTotal(SummaryFrame(totals).value.rows[k], totals[k].0, totals[k].1)
  {
    SummaryIsSelection(totals);
    RawColumns(totals);
    SummaryColumnsKnown();
    SelectedRecord(TaggedTotals(totals), SummaryColumns, k);
    TaggedTotalCells(totals[k].0, totals[k].1);
    assert SummaryColumns[0] == "hashtag" && SummaryColumns[1] == "time";
    assert SummaryColumns[2] == "time_diff_in_hrs" && SummaryColumns[3] == "avg_posts_per_hr";
    assert SummaryColumns[4] == "percent_rate_of_change";
  }

  /** The summary table: with no hashtags the reorder raises `IndexError`;
      otherwise `hashtag` is the first column, `post_diff` is gone, and there
      is one row per hashtag (whose contents `SummaryRow` gives). */
  lemma SummaryShape(totals: seq<(string, DeltaRecord)>)
    ensures totals == [] ==> SummaryFrame(totals) == Err(IndexError)
    ensures totals != [] ==> SummaryFrame(totals).Ok?
    ensures totals != [] ==>
      && SummaryFrame(totals).value.columns == SummaryColumns
      && "post_diff" !in SummaryFrame(totals).value.columns
      && |SummaryFrame(totals).value.rows| == |totals|
  {
    if totals == [] {
      ColumnsOfUniform(TaggedTotals(totals), []);
    } else {
      SummaryIsSelection(totals);
    }
  }
}
