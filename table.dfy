/** The observation table and how the analyzer splits it into one series
    per hashtag (`HashtagAnalyzer._load_dataframes` and
    `Hashtag._clean_up_dataframe`). */
module Table {
  import opened Errors

  /** One row of the table: a hashtag, its post count and the moment of the
      reading, already truncated to whole seconds. */
  datatype Observation = Observation(hashtag: string, posts: int, time: int)

  /** One row of a hashtag's cleaned series, whose `hashtag` column is dropped. */
  datatype Sample = Sample(posts: int, time: int)

  /** The row that `iloc[i]` selects in a table of `n` rows: a non-negative
      position counts from the front, a negative one from the back, and
      anything else raises `IndexError`. */
  function Position(n: nat, i: int): (r: Result<nat>)
    ensures r.Ok? <==> -(n as int) <= i < n
    ensures r.Ok? ==> r.value < n && (r.value == i || r.value == n + i)
  {
    if 0 <= i < n then Ok(i)
    else if -(n as int) <= i < 0 then Ok(n + i)
    else Err(IndexError)
  }

  /** Some row of `rows` carries `tag`. */
  predicate Occurs(rows: seq<Observation>, tag: string) {
    exists k :: 0 <= k < |rows| && rows[k].hashtag == tag
  }

  /** Row `k` is the first row that carries `tag`. */
  predicate FirstAt(rows: seq<Observation>, tag: string, k: int) {
    0 <= k < |rows| && rows[k].hashtag == tag &&
    forall m :: 0 <= m < k ==> rows[m].hashtag != tag
  }

  /** The distinct hashtag names in order of first appearance, as
      `total_df['hashtag'].unique()` lists them. */
  function HashtagNames(rows: seq<Observation>): seq<string>
    decreases |rows|
  {
    if rows == [] then []
    else
      var names := HashtagNames(rows[..|rows| - 1]);
      var tag := rows[|rows| - 1].hashtag;
      if tag in names then names else names + [tag]
  }

  /** The rows that carry `tag`, in their original order: the boolean mask
      `total_df[total_df['hashtag'] == tag]`. */
  function TagRows(rows: seq<Observation>, tag: string): seq<Observation>
    decreases |rows|
  {
    if rows == [] then []
    else
      var last := rows[|rows| - 1];
      TagRows(rows[..|rows| - 1], tag) + (if last.hashtag == tag then [last] else [])
  }

  /** The positions in `rows` of the rows that carry `tag`, in increasing order:
      the index labels the mask keeps before `reset_index` renumbers them. */
  function Positions(rows: seq<Observation>, tag: string): seq<nat>
    decreases |rows|
  {
    if rows == [] then []
    else
      var p := Positions(rows[..|rows| - 1], tag);
      if rows[|rows| - 1].hashtag == tag then p + [|rows| - 1] else p
  }

  /** `_clean_up_dataframe`: the group's rows renumbered from 0 with the
      `hashtag` column dropped; posts and times are kept row by row. */
  function CleanUp(tagDf: seq<Observation>): (df: seq<Sample>)
    ensures |df| == |tagDf|
    ensures forall k :: 0 <= k < |df| ==>
      df[k].posts == tagDf[k].posts && df[k].time == tagDf[k].time
  {
    seq(|tagDf|, k requires 0 <= k < |tagDf| => Sample(tagDf[k].posts, tagDf[k].time))
  }

  /** The number of rows in the groups of the names in `names`. */
  function GroupSizes(rows: seq<Observation>, names: seq<string>): nat
    decreases |names|
  {
    if names == [] then 0 else |TagRows(rows, names[0])| + GroupSizes(rows, names[1..])
  }

  /** How often `tag` appears in `names`. */
  function Count(names: seq<string>, tag: string): nat
    decreases |names|
  {
    if names == [] then 0 else (if names[0] == tag then 1 else 0) + Count(names[1..], tag)
  }

  /** Every name appears once in the list of names. */
  lemma {:induction false} NamesDistinct(rows: seq<Observation>)
    ensures forall a, b :: 0 <= a < b < |HashtagNames(rows)| ==>
      HashtagNames(rows)[a] != HashtagNames(rows)[b]
    decreases |rows|
  {
    if rows != [] {
      NamesDistinct(rows[..|rows| - 1]);
    }
  }

  /** A name is listed exactly when some row carries it. */
  lemma {:induction false} NamesCover(rows: seq<Observation>, tag: string)
    ensures tag in HashtagNames(rows) <==> Occurs(rows, tag)
    decreases |rows|
  {
    if rows != [] {
      var init := rows[..|rows| - 1];
      NamesCover(init, tag);
      if Occurs(init, tag) {
        var k :| 0 <= k < |init| && init[k].hashtag == tag;
        assert rows[k].hashtag == tag;
      }
      if Occurs(rows, tag) && !Occurs(init, tag) {
        var k :| 0 <= k < |rows| && rows[k].hashtag == tag;
        assert k == |init|;
      }
    }
  }

  /** A name that occurs in the rows before the last one still occurs first
      at the same place once the last row is added. */
  lemma FirstAtInit(rows: seq<Observation>, tag: string, k: int)
    requires rows != [] && FirstAt(rows, tag, k)
    requires Occurs(rows[..|rows| - 1], tag)
    ensures k < |rows| - 1 && FirstAt(rows[..|rows| - 1], tag, k)
  {
    var init := rows[..|rows| - 1];
    var m :| 0 <= m < |init| && init[m].hashtag == tag;
    assert rows[m].hashtag == tag;
  }

  /** The names are listed in the order in which they first appear. */
  lemma {:induction false} NamesInFirstAppearanceOrder(rows: seq<Observation>, a: int, b: int, ka: int, kb: int)
    requires 0 <= a < b < |HashtagNames(rows)|
    requires FirstAt(rows, HashtagNames(rows)[a], ka)
    requires FirstAt(rows, HashtagNames(rows)[b], kb)
    ensures ka < kb
    decreases |rows|
  {
    var init := rows[..|rows| - 1];
    var names := HashtagNames(rows);
    var old_names := HashtagNames(init);
    NamesCover(init, names[a]);
    NamesCover(init, names[b]);
    if b == |old_names| {
      // the name at b is the last row's and appears nowhere before it
      assert !(names[b] in old_names) by { NamesDistinct(rows); }
      FirstAtInit(rows, names[a], ka);
      assert kb == |init|;
    } else {
      FirstAtInit(rows, names[a], ka);
      FirstAtInit(rows, names[b], kb);
      NamesInFirstAppearanceOrder(init, a, b, ka, kb);
    }
  }

  /** Every row of a group carries the group's name. */
  lemma {:induction false} TagRowsCarryTag(rows: seq<Observation>, tag: string)
    ensures forall r :: r in TagRows(rows, tag) ==> r.hashtag == tag
    decreases |rows|
  {
    if rows != [] {
      TagRowsCarryTag(rows[..|rows| - 1], tag);
    }
  }

  /** The positions are increasing and are exactly the rows that carry `tag`. */
  lemma {:induction false} PositionsExact(rows: seq<Observation>, tag: string)
    ensures forall a, b :: 0 <= a < b < |Positions(rows, tag)| ==>
      Positions(rows, tag)[a] < Positions(rows, tag)[b]
    ensures forall k :: k in Positions(rows, tag) <==> 0 <= k < |rows| && rows[k].hashtag == tag
    decreases |rows|
  {
    if rows != [] {
      var init := rows[..|rows| - 1];
      var p := Positions(init, tag);
      PositionsExact(init, tag);
      forall k | 0 <= k < |init| ensures rows[k] == init[k] { }
      forall a | 0 <= a < |p| ensures p[a] < |init| {
        assert p[a] in p;
      }
    }
  }

  /** Group row `k` is the table row at the `k`-th position carrying `tag`:
      the group keeps its rows in their original order, renumbered from 0. */
  lemma {:induction false} TagRowsAt(rows: seq<Observation>, tag: string)
    ensures |TagRows(rows, tag)| == |Positions(rows, tag)|
    ensures forall k :: 0 <= k < |TagRows(rows, tag)| ==>
      Positions(rows, tag)[k] < |rows| && TagRows(rows, tag)[k] == rows[Positions(rows, tag)[k]]
    decreases |rows|
  {
    if rows != [] {
      var init := rows[..|rows| - 1];
      TagRowsAt(init, tag);
      PositionsExact(init, tag);
    }
  }

  /** A name's group is non-empty exactly when some row carries the name. */
  lemma {:induction false} TagRowsNonEmpty(rows: seq<Observation>, tag: string)
    ensures |TagRows(rows, tag)| > 0 <==> Occurs(rows, tag)
  {
    TagRowsAt(rows, tag);
    PositionsExact(rows, tag);
    if Occurs(rows, tag) {
      var k :| 0 <= k < |rows| && rows[k].hashtag == tag;
      assert k in Positions(rows, tag);
    }
    if |TagRows(rows, tag)| > 0 {
      var p := Positions(rows, tag)[0];
      assert p in Positions(rows, tag);
      assert rows[p].hashtag == tag;
    }
  }

  lemma {:induction false} CountDistinct(names: seq<string>, tag: string)
    requires forall a, b :: 0 <= a < b < |names| ==> names[a] != names[b]
    ensures Count(names, tag) == if tag in names then 1 else 0
    decreases |names|
  {
    if names != [] {
      CountDistinct(names[1..], tag);
      if names[0] == tag {
        assert tag !in names[1..] by {
          forall k | 0 <= k < |names[1..]| ensures names[1..][k] != tag {
            assert names[k + 1] != names[0];
          }
        }
      }
    }
  }

  /** Adding one row adds one to the group of each of its name's occurrences. */
  lemma {:induction false} GroupSizesStep(rows: seq<Observation>, names: seq<string>)
    requires rows != []
    ensures GroupSizes(rows, names) ==
      GroupSizes(rows[..|rows| - 1], names) + Count(names, rows[|rows| - 1].hashtag)
    decreases |names|
  {
    if names != [] {
      GroupSizesStep(rows, names[1..]);
    }
  }

  lemma {:induction false} GroupSizesOfCover(rows: seq<Observation>, names: seq<string>)
    requires forall a, b :: 0 <= a < b < |names| ==> names[a] != names[b]
    requires forall k :: 0 <= k < |rows| ==> rows[k].hashtag in names
    ensures GroupSizes(rows, names) == |rows|
    decreases |rows|
  {
    if rows == [] {
      GroupSizesEmpty(names);
    } else {
      var init := rows[..|rows| - 1];
      forall k | 0 <= k < |init| ensures init[k].hashtag in names {
        assert init[k] == rows[k];
      }
      GroupSizesOfCover(init, names);
      GroupSizesStep(rows, names);
      CountDistinct(names, rows[|rows| - 1].hashtag);
    }
  }

  lemma {:induction false} GroupSizesEmpty(names: seq<string>)
    ensures GroupSizes([], names) == 0
    decreases |names|
  {
    if names != [] {
      GroupSizesEmpty(names[1..]);
    }
  }

  /** The groups of the listed names together hold every row of the table. */
  lemma GroupsCoverRows(rows: seq<Observation>)
    ensures GroupSizes(rows, HashtagNames(rows)) == |rows|
  {
    NamesDistinct(rows);
    forall k | 0 <= k < |rows| ensures rows[k].hashtag in HashtagNames(rows) {
      NamesCover(rows, rows[k].hashtag);
    }
    GroupSizesOfCover(rows, HashtagNames(rows));
  }
}
