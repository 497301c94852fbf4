/** The two classes of the analyzer: `Hashtag`, one hashtag's cleaned series
    with its deltas, and `HashtagAnalyzer`, which splits the table into
    hashtags and assembles their total changes into one summary table. */
module Analysis {
  import opened Errors
  import opened Table
  import opened Deltas
  import opened Frames

  /** The last position of a `change_between` range, with a negative `j`
      counted back from the end (lines 63-64). No bound is checked here. */
  function EndIndex(n: nat, j: int): int {
    if j < 0 then n + j else j
  }

  /** The total change of the group of a listed hashtag. */
  function GroupTotal(rows: seq<Observation>, tag: string): (d: DeltaRecord)
    requires tag in HashtagNames(rows)
    ensures |TagRows(rows, tag)| > 0
    ensures var g := TagRows(rows, tag);
      && d.postDiff == g[|g| - 1].posts - g[0].posts
      && d.time == g[|g| - 1].time
      && d.timeDiffInHrs * (SecondsPerHr as real) == (g[|g| - 1].time - g[0].time) as real
    ensures Ok(d) == RowDelta(CleanUp(TagRows(rows, tag)), 0, |TagRows(rows, tag)| - 1)
  {
    NamedGroupNonEmpty(rows, tag);
    TotalChangeFirstToLast(CleanUp(TagRows(rows, tag)));
    TotalChange(CleanUp(TagRows(rows, tag)))
  }

  /** Each listed hashtag's name and total change, in the order of the names. */
  function TotalsOf(rows: seq<Observation>): (totals: seq<(string, DeltaRecord)>)
    ensures |totals| == |HashtagNames(rows)|
    ensures forall k :: 0 <= k < |totals| ==>
      totals[k].0 == HashtagNames(rows)[k] && totals[k].1 == GroupTotal(rows, totals[k].0)
  {
    var names := HashtagNames(rows);
    seq(|names|, k requires 0 <= k < |names| => (names[k], GroupTotal(rows, names[k])))
  }

  /** The summary table that `HashtagAnalyzer(table).total_change_df` holds,
      or the error its construction raises. */
  function Analyze(rows: seq<Observation>): Result<Frame> {
    SummaryFrame(TotalsOf(rows))
  }

  lemma NamedGroupNonEmpty(rows: seq<Observation>, tag: string)
    requires tag in HashtagNames(rows)
    ensures |TagRows(rows, tag)| > 0
  {
    NamesCover(rows, tag);
    TagRowsNonEmpty(rows, tag);
  }

  /** An empty table makes the analyzer raise `IndexError`; otherwise the
      summary has `hashtag` first, no `post_diff`, and one row per hashtag. */
  lemma AnalyzeShape(rows: seq<Observation>)
    ensures rows == [] ==> Analyze(rows) == Err(IndexError)
    ensures rows != [] ==> Analyze(rows).Ok?
    ensures rows != [] ==>
      && Analyze(rows).value.columns == SummaryColumns
      && "post_diff" !in Analyze(rows).value.columns
      && |Analyze(rows).value.rows| == |HashtagNames(rows)|
  {
    if rows != [] {
      NamesCover(rows, rows[0].hashtag);
    }
    SummaryShape(TotalsOf(rows));
  }

  /** Row `k` of the summary is the `k`-th hashtag by first appearance, with
      the time of its last reading and the hours from its first to its last. */
  lemma AnalyzeRow(rows: seq<Observation>, k: int)
    requires 0 <= k < |HashtagNames(rows)|
    ensures Analyze(rows).Ok? && |Analyze(rows).value.rows| == |HashtagNames(rows)|
    ensures SummarizesGroup(Analyze(rows).value.rows[k], HashtagNames(rows)[k], TagRows(rows, HashtagNames(rows)[k]))
    ensures CarriesTotal(Analyze(rows).value.rows[k], HashtagNames(rows)[k],
      TotalChange(CleanUp(TagRows(rows, HashtagNames(rows)[k]))))
  {
    var name := HashtagNames(rows)[k];
    var totals := TotalsOf(rows);
    var d := GroupTotal(rows, name);
    assert totals[k] == (name, d);
    SummaryRow(totals, k);
    CarriesGroupTotal(SummaryFrame(totals).value.rows[k], rows, name);
  }

  lemma CarriesGroupTotal(row: map<string, Cell>, rows: seq<Observation>, name: string)
    requires name in HashtagNames(rows)
    requires CarriesTotal(row, name, GroupTotal(rows, name))
    ensures SummarizesGroup(row, name, TagRows(rows, name))
  {
  }

  /** `row` is the summary row of hashtag `name` whose rows are `g`: the name,
      the time of the last reading, and the hours from the first reading to
      the last. */
  ghost predicate SummarizesGroup(row: map<string, Cell>, name: string, g: seq<Observation>) {
    && |g| > 0
    && (forall c :: c in row <==> c in SummaryColumns)
    && "hashtag" in row && row["hashtag"] == TextCell(name)
    && "time" in row && row["time"] == TimeCell(g[|g| - 1].time)
    && "time_diff_in_hrs" in row && row["time_diff_in_hrs"].RealCell?
    && row["time_diff_in_hrs"].x * (SecondsPerHr as real) == (g[|g| - 1].time - g[0].time) as real
  }

  lemma TaggedTotalsSnoc(totals: seq<(string, DeltaRecord)>, idx: int)
    requires 0 <= idx < |totals|
    ensures TaggedTotals(totals[..idx + 1]) ==
      TaggedTotals(totals[..idx]) + [TaggedTotal(totals[idx].0, totals[idx].1)]
  {
    assert totals[..idx + 1] == totals[..idx] + [totals[idx]];
  }

  class Hashtag {
    const hashtag: string
    var df: seq<Sample>
    var deltaDf: seq<DeltaRecord>
    var totalChange: DeltaRecord

    /** What `_calculate_total_change` leaves behind: one delta per pair of
        consecutive rows, and the change from the first row to the last. */
    ghost predicate Consistent()
      reads this
    {
      && |df| > 0
      && |deltaDf| == |df| - 1
      && (forall k :: 0 <= k < |deltaDf| ==> RowDelta(df, k, k + 1) == Ok(deltaDf[k]))
      && totalChange == TotalChange(df)
    }

    /** This is the `Hashtag` that the analyzer builds for `tag` from `rows`. */
    ghost predicate SeriesOf(rows: seq<Observation>, tag: string)
      reads this
    {
      hashtag == tag && df == CleanUp(TagRows(rows, tag)) && Consistent()
    }

    /** `Hashtag(hashtag, df)` for the rows of one hashtag, which the analyzer
        never calls with no rows. */
    constructor (hashtag: string, tagDf: seq<Observation>)
      requires |tagDf| > 0
      ensures this.hashtag == hashtag && df == CleanUp(tagDf)
      ensures Consistent()
    {
      this.hashtag := hashtag;
      df := CleanUp(tagDf);
      new;
      CalculateTotalChange();
    }

    /** `change_between(i, j)`: one delta per consecutive pair of rows from
        `i` up to the end position, with `row_delta`'s `IndexError` when a
        position falls outside the series. */
    method ChangeBetween(i: int, j: int) returns (r: Result<seq<DeltaRecord>>)
      ensures var last := EndIndex(|df|, j);
        r.Err? <==> i < last && (i < -|df| || last >= |df|)
      ensures r.Err? ==> r.error == IndexError
      ensures r.Ok? ==>
        |r.value| == (if i < EndIndex(|df|, j) then EndIndex(|df|, j) - i else 0)
      ensures r.Ok? ==>
        forall k :: 0 <= k < |r.value| ==> RowDelta(df, i + k, i + k + 1) == Ok(r.value[k])
    {
      var last := j;
      if last < 0 {
        last := |df| + last;
      }
      var deltaData: seq<DeltaRecord> := [];
      var pos := i;
      while pos < last
        invariant i <= pos && (pos <= last || pos == i)
        invariant |deltaData| == pos - i
        invariant forall k :: 0 <= k < |deltaData| ==> RowDelta(df, i + k, i + k + 1) == Ok(deltaData[k])
        decreases last - pos
      {
        if pos == last {
          assert false;
          break;
        } else {
          var d := RowDelta(df, pos, pos + 1);
          if d.Err? {
            return Err(d.error);
          }
          deltaData := deltaData + [d.value];
        }
        pos := pos + 1;
      }
      assert last == EndIndex(|df|, j);
      if i < last {
        assert RowDelta(df, i + 0, i + 0 + 1) == Ok(deltaData[0]);
        assert RowDelta(df, last - 1, last).Ok? by {
          assert RowDelta(df, i + (last - 1 - i), i + (last - 1 - i) + 1) == Ok(deltaData[last - 1 - i]);
        }
      }
      return Ok(deltaData);
    }

    /** `_calculate_total_change`. */
    method CalculateTotalChange()
      requires |df| > 0
      modifies this`deltaDf, this`totalChange
      ensures Consistent()
    {
      var deltas := ChangeBetween(0, -1);
      deltaDf := deltas.value;
      var total := RowDelta(df, 0, -1);
      totalChange := total.value;
    }
  }

  class HashtagAnalyzer {
    var totalDf: seq<Observation>
    /** The keys of `hashtags` in insertion order. */
    var names: seq<string>
    var hashtags: map<string, Hashtag>
    /** The summary table, or the `IndexError` that stops the construction. */
    var totalChangeDf: Result<Frame>

    /** What `_load_dataframes` leaves behind: one `Hashtag` per distinct name,
        in order of first appearance, holding exactly that name's rows. */
    ghost predicate Loaded()
      reads this`totalDf, this`names, this`hashtags, hashtags.Values
    {
      && names == HashtagNames(totalDf)
      && (forall t :: t in hashtags <==> t in names)
      && (forall t :: t in hashtags ==> hashtags[t].SeriesOf(totalDf, t))
    }

    /** `HashtagAnalyzer(csv_fpath)` on the table the file holds. */
    constructor (table: seq<Observation>)
      ensures totalDf == table && Loaded()
      ensures totalChangeDf == Analyze(table)
    {
      totalDf := table;
      names := [];
      hashtags := map[];
      totalChangeDf := Err(IndexError);
      new;
      LoadDataframes();
      TotalChanges();
    }

    /** `_load_dataframes`. */
    method LoadDataframes()
      modifies this
      ensures totalDf == old(totalDf) && totalChangeDf == old(totalChangeDf)
      ensures Loaded()
    {
      var tagNames := HashtagNames(totalDf);
      hashtags := map[];
      names := [];
      for idx := 0 to |tagNames|
        invariant totalDf == old(totalDf) && totalChangeDf == old(totalChangeDf)
        invariant names == tagNames[..idx]
        invariant forall t :: t in hashtags <==> t in names
        invariant forall t :: t in hashtags ==> hashtags[t].SeriesOf(totalDf, t)
      {
        var tag := tagNames[idx];
        NamedGroupNonEmpty(totalDf, tag);
        var h := new Hashtag(tag, TagRows(totalDf, tag));
        hashtags := hashtags[tag := h];
        names := names + [tag];
      }
    }

    /** Lines 30-34: one tagged copy of each hashtag's total change, in the
        order of the dictionary's values. */
    method CollectTotals() returns (allData: seq<Record>)
      requires Loaded()
      ensures allData == TaggedTotals(TotalsOf(totalDf))
    {
      ghost var totals := TotalsOf(totalDf);
      allData := [];
      for idx := 0 to |names|
        invariant allData == TaggedTotals(totals[..idx])
      {
        var tag := hashtags[names[idx]];
        assert tag.hashtag == totals[idx].0 && tag.totalChange == totals[idx].1 by {
          assert tag.SeriesOf(totalDf, names[idx]);
        }
        var tagData := DeltaFields(tag.totalChange);
        tagData := Assign(tagData, "hashtag", TextCell(tag.hashtag));
        TaggedTotalsSnoc(totals, idx);
        allData := allData + [tagData];
      }
      assert totals[..|names|] == totals;
    }

    /** `_total_changes`, which leaves every `Hashtag` untouched. */
    method TotalChanges()
      requires Loaded()
      modifies this`totalChangeDf
      ensures totalChangeDf == Analyze(totalDf)
      ensures forall t :: t in hashtags ==> hashtags[t].totalChange == old(hashtags[t].totalChange)
    {
      var allData := CollectTotals();
      var frame := BuildFrame(allData);
      assert Analyze(totalDf) == (var cols :- ReorderColumns(frame.columns); Select(frame, cols));
      var columns := Without(frame.columns, "hashtag");
      if |columns| == 0 {
        totalChangeDf := Err(IndexError);
      } else {
        columns := columns[0 := "hashtag"];
        totalChangeDf := Select(frame, columns);
      }
    }
  }
}
