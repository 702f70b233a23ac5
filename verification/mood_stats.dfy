/** The statistics page: per-mood counts with percentages, the ten most used
    tags, and four summary counters, all computed from the loaded posts. */
module MoodStats {
  import opened Wrappers
  import opened JournalTypes
  import opened Seqs
  import opened Sorting
  import opened Tally
  import opened PostList

  /** One bar of the mood chart. */
  datatype MoodRow = MoodRow(mood: string, count: nat, percentage: real)

  /** The mood record: each post with a non-empty mood counts once for it. */
  method CountMoods(posts: seq<BlogPost>) returns (counts: seq<Entry>)
    ensures counts == TallyOf(MoodsOf(posts))
  {
    counts := [];
    for i := 0 to |posts|
      invariant counts == TallyOf(MoodsOf(posts[..i]))
    {
      PrefixStep(posts, i);
      var p := posts[i];
      if Truthy(p.mood) {
        TallySnoc(MoodsOf(posts[..i]), p.mood.value);
        counts := Bump(counts, p.mood.value);
      } else {
        assert MoodsOf(posts[..i + 1]) == MoodsOf(posts[..i]);
      }
    }
    assert posts[..|posts|] == posts;
  }

  /** Counting every tag of one post into a record. */
  method CountEach(counts: seq<Entry>, ghost seen: seq<string>, ts: seq<string>) returns (r: seq<Entry>)
    requires counts == TallyOf(seen)
    ensures r == TallyOf(seen + ts)
  {
    r := counts;
    assert seen + ts[..0] == seen;
    for j := 0 to |ts|
      invariant r == TallyOf(seen + ts[..j])
    {
      TallySnoc(seen + ts[..j], ts[j]);
      ExtendPrefix(seen, ts, j);
      r := Bump(r, ts[j]);
    }
    assert ts[..|ts|] == ts;
  }

  /** The tag record: every occurrence of a tag in every post counts. */
  method CountTags(posts: seq<BlogPost>) returns (counts: seq<Entry>)
    ensures counts == TallyOf(TagsOf(posts))
  {
    counts := [];
    for i := 0 to |posts|
      invariant counts == TallyOf(TagsOf(posts[..i]))
    {
      PrefixStep(posts, i);
      counts := CountEach(counts, TagsOf(posts[..i]), posts[i].tags);
    }
    assert posts[..|posts|] == posts;
  }

  /** `total > 0 ? (count / total) * 100 : 0`. */
  function Percentage(count: nat, total: nat): real {
    if total > 0 then (count as real / total as real) * 100.0 else 0.0
  }

  /** The row of one record entry. */
  function RowOf(e: Entry, total: nat): MoodRow {
    MoodRow(e.key, e.count, Percentage(e.count, total))
  }

  /** `Object.entries(moodCounts).map(...)`: one row per entry, in record order. */
  function MoodRows(t: seq<Entry>, total: nat): (r: seq<MoodRow>)
    ensures |r| == |t|
  {
    if t == [] then [] else [RowOf(t[0], total)] + MoodRows(t[1..], total)
  }

  /** The k-th row is the k-th entry with its percentage. */
  lemma {:induction false} MoodRowsAt(t: seq<Entry>, total: nat, k: nat)
    requires k < |t|
    ensures MoodRows(t, total)[k] == RowOf(t[k], total)
    decreases k
  {
    if k > 0 {
      MoodRowsAt(t[1..], total, k - 1);
    }
  }

  function RowDescending(r: MoodRow): int {
    -(r.count as int)
  }

  function RowCount(r: MoodRow): int {
    r.count
  }

  /** `moodData`: the rows sorted by count, largest first. */
  function MoodData(posts: seq<BlogPost>): (r: seq<MoodRow>)
    ensures |r| == |Distinct(MoodsOf(posts))|
  {
    var t := TallyOf(MoodsOf(posts));
    TallyOfSpec(MoodsOf(posts));
    SortBy(MoodRows(t, Total(t)), RowDescending)
  }

  /** The rows come largest count first. */
  lemma MoodDataDescending(posts: seq<BlogPost>)
    ensures var r := MoodData(posts);
      forall i, j :: 0 <= i < j < |r| ==> r[i].count >= r[j].count
  {
    var r := MoodData(posts);
    MoodDataIs(posts);
    assert forall i, j :: 0 <= i < j < |r| ==> RowDescending(r[i]) <= RowDescending(r[j]);
  }

  lemma RowsOfEntries(t: seq<Entry>, total: nat)
    ensures forall row :: row in MoodRows(t, total) ==>
      Entry(row.mood, row.count) in t && row.percentage == Percentage(row.count, total)
    ensures forall e :: e in t ==> MoodRow(e.key, e.count, Percentage(e.count, total)) in MoodRows(t, total)
  {
    var rows := MoodRows(t, total);
    forall row | row in rows
      ensures Entry(row.mood, row.count) in t && row.percentage == Percentage(row.count, total)
    {
      RowOfEntry(t, total, row);
    }
    forall e | e in t ensures MoodRow(e.key, e.count, Percentage(e.count, total)) in rows {
      var i :| 0 <= i < |t| && t[i] == e;
      MoodRowsAt(t, total, i);
      assert rows[i] == RowOf(e, total);
    }
  }

  lemma RowOfEntry(t: seq<Entry>, total: nat, row: MoodRow)
    requires row in MoodRows(t, total)
    ensures Entry(row.mood, row.count) in t && row.percentage == Percentage(row.count, total)
  {
    var rows := MoodRows(t, total);
    var i :| 0 <= i < |rows| && rows[i] == row;
    MoodRowsAt(t, total, i);
    assert t[i] == Entry(row.mood, row.count);
  }

  /** A percentage of a positive total is that share of a hundred; of an
      empty total it is zero. */
  lemma ShareOf(count: nat, total: nat, p: real)
    requires p == Percentage(count, total)
    ensures total > 0 ==> p * (total as real) == 100.0 * (count as real)
    ensures total == 0 ==> p == 0.0
  {
  }

  lemma RowFacts(s: seq<string>, row: MoodRow)
    requires row in MoodRows(TallyOf(s), Total(TallyOf(s)))
    ensures row.count == Count(s, row.mood) >= 1
    ensures row.percentage == Percentage(row.count, |s|)
  {
    var t := TallyOf(s);
    RowOfEntry(t, Total(t), row);
    EntryCounted(s, Entry(row.mood, row.count));
    TallyTotal(s);
  }

  /** Every row is a mood that occurs, counted exactly, at least once, with its
      share of all mood-bearing posts as its percentage (what that share means
      is `ShareOf`). */
  lemma MoodDataRows(posts: seq<BlogPost>)
    ensures forall row :: row in MoodData(posts) ==>
      && row.count == Count(MoodsOf(posts), row.mood) >= 1
      && row.percentage == Percentage(row.count, |MoodsOf(posts)|)
  {
    var s := MoodsOf(posts);
    var t := TallyOf(s);
    SortByMembers(MoodRows(t, Total(t)), RowDescending);
    forall row | row in MoodData(posts)
      ensures row.count == Count(s, row.mood) >= 1
      ensures row.percentage == Percentage(row.count, |s|)
    {
      RowFacts(s, row);
    }
  }

  /** Each mood that occurs has a row, and only those. */
  lemma MoodDataCoversMoods(posts: seq<BlogPost>, m: string)
    ensures m in MoodsOf(posts) <==> exists row :: row in MoodData(posts) && row.mood == m
  {
    var s := MoodsOf(posts);
    var t := TallyOf(s);
    EntriesCounted(s);
    var rows := MoodRows(t, Total(t));
    SortByMembers(rows, RowDescending);
    RowsOfEntries(t, Total(t));
    if m in s {
      var e :| e in t && e.key == m;
      assert MoodRow(e.key, e.count, Percentage(e.count, Total(t))) in rows;
    }
  }

  /** The counts add up to the number of posts that have a mood. */
  lemma MoodDataSum(posts: seq<BlogPost>)
    ensures SumBy(MoodData(posts), RowCount) == |MoodsOf(posts)| == WithMood(posts)
  {
    var s := MoodsOf(posts);
    var t := TallyOf(s);
    TallyOfSpec(s);
    var rows := MoodRows(t, Total(t));
    SortSum(rows, RowDescending, RowCount);
    RowsSum(t, Total(t));
    WithMoodIsMoods(posts);
  }

  /** The percentages of the moods present add up to a hundred; with no mood
      there are no rows. */
  lemma PercentagesSumTo100(posts: seq<BlogPost>)
    ensures MoodsOf(posts) != [] ==> SumPct(MoodData(posts)) == 100.0
    ensures MoodsOf(posts) == [] ==> MoodData(posts) == []
  {
    if MoodsOf(posts) != [] {
      MoodDataRows(posts);
      MoodDataSum(posts);
      RowsTo100(MoodData(posts), |MoodsOf(posts)|);
    }
  }

  /** The sum of the rows' percentages. */
  function SumPct(rows: seq<MoodRow>): real {
    if rows == [] then 0.0 else rows[0].percentage + SumPct(rows[1..])
  }

  /** Rows carrying their counts' shares of a positive total, whose counts make
      up that total, have percentages adding up to a hundred. */
  lemma RowsTo100(rows: seq<MoodRow>, total: nat)
    requires total > 0 && SumBy(rows, RowCount) == total
    requires forall row :: row in rows ==> row.percentage == Percentage(row.count, total)
    ensures SumPct(rows) == 100.0
  {
    RowsScaled(rows, total);
    Cancel(SumPct(rows), 100.0, total as real);
  }

  /** A positive factor cancels. */
  lemma Cancel(x: real, y: real, t: real)
    requires t > 0.0 && x * t == y * t
    ensures x == y
  {
    assert (x - y) * t == 0.0;
  }

  /** Scaled by the total, the percentages sum to a hundred times the counts. */
  lemma {:induction false} RowsScaled(rows: seq<MoodRow>, total: nat)
    requires total > 0
    requires forall row :: row in rows ==> row.percentage == Percentage(row.count, total)
    ensures SumPct(rows) * (total as real) == 100.0 * (SumBy(rows, RowCount) as real)
    decreases |rows|
  {
    if rows != [] {
      RowsScaled(rows[1..], total);
      ShareOf(rows[0].count, total, rows[0].percentage);
    }
  }

  lemma {:induction false} RowsSum(t: seq<Entry>, total: nat)
    ensures SumBy(MoodRows(t, total), RowCount) == Total(t)
    decreases |t|
  {
    if t != [] {
      RowsSum(t[1..], total);
      assert MoodRows(t, total)[1..] == MoodRows(t[1..], total);
    }
  }

  /** Moods with equal counts keep the order in which they were first met. */
  lemma MoodDataTies(posts: seq<BlogPost>, count: int)
    ensures var t := TallyOf(MoodsOf(posts));
      WithKey(MoodData(posts), RowDescending, -count) == WithKey(MoodRows(t, Total(t)), RowDescending, -count)
  {
    MoodDataIs(posts);
    var t := TallyOf(MoodsOf(posts));
    RowsTies(MoodRows(t, Total(t)), count);
  }

  /** Sorting the rows keeps rows with equal counts in their order. */
  lemma RowsTies(rows: seq<MoodRow>, count: int)
    ensures WithKey(SortBy(rows, RowDescending), RowDescending, -count) == WithKey(rows, RowDescending, -count)
  {
    SortStable(rows, RowDescending, -count);
  }

  lemma MoodDataIs(posts: seq<BlogPost>)
    ensures var t := TallyOf(MoodsOf(posts));
      MoodData(posts) == SortBy(MoodRows(t, Total(t)), RowDescending)
  {
  }

  function EntryDescending(e: Entry): int {
    -(e.count as int)
  }

  /** `tagData`: the record's entries by count, largest first, cut to ten. */
  function TopTags(posts: seq<BlogPost>): (r: seq<Entry>)
    ensures |r| <= 10
  {
    Take(SortBy(TallyOf(TagsOf(posts)), EntryDescending), 10)
  }

  lemma TopTagsIs(posts: seq<BlogPost>)
    ensures TopTags(posts) == Take(SortBy(TallyOf(TagsOf(posts)), EntryDescending), 10)
  {
  }

  /** The listed tags come most used first. */
  lemma TopTagsDescending(posts: seq<BlogPost>)
    ensures var r := TopTags(posts); forall i, j :: 0 <= i < j < |r| ==> r[i].count >= r[j].count
  {
    TopTagsIs(posts);
    var sorted := SortBy(TallyOf(TagsOf(posts)), EntryDescending);
    var r := TopTags(posts);
    forall i, j | 0 <= i < j < |r| ensures r[i].count >= r[j].count {
      assert r[i] == sorted[i] && r[j] == sorted[j];
      assert EntryDescending(sorted[i]) <= EntryDescending(sorted[j]);
    }
  }

  lemma TopTagsFromRecord(posts: seq<BlogPost>)
    ensures forall e :: e in TopTags(posts) ==> e in TallyOf(TagsOf(posts))
  {
    var t := TallyOf(TagsOf(posts));
    SortByMembers(t, EntryDescending);
  }

  /** Every listed tag is counted exactly, at least once. */
  lemma TopTagsCounted(posts: seq<BlogPost>)
    ensures forall e :: e in TopTags(posts) ==> e.count == Count(TagsOf(posts), e.key) >= 1
  {
    TopTagsFromRecord(posts);
    forall e | e in TopTags(posts) ensures e.count == Count(TagsOf(posts), e.key) >= 1 {
      EntryCounted(TagsOf(posts), e);
    }
  }

  /** A tag left out of the ten is used no more often than any tag listed. */
  lemma TopTagsMaximal(posts: seq<BlogPost>, tag: string)
    requires tag in TagsOf(posts) && tag !in Keys(TopTags(posts))
    ensures forall e :: e in TopTags(posts) ==> Count(TagsOf(posts), tag) <= e.count
  {
    var s := TagsOf(posts);
    EntriesCounted(s);
    var e :| e in TallyOf(s) && e.key == tag;
    TopTagsIs(posts);
    TopBelow(TallyOf(s), e);
  }

  /** An entry of the record that misses the first ten of the sorted record
      counts no more than any of them. */
  lemma TopBelow(t: seq<Entry>, e: Entry)
    requires e in t && e.key !in Keys(Take(SortBy(t, EntryDescending), 10))
    ensures forall x :: x in Take(SortBy(t, EntryDescending), 10) ==> e.count <= x.count
  {
    var sorted := SortBy(t, EntryDescending);
    SortByMembers(t, EntryDescending);
    var r := Take(sorted, 10);
    var k :| 0 <= k < |sorted| && sorted[k] == e;
    assert forall a :: 0 <= a < |r| ==> r[a] == sorted[a] && r[a].key == Keys(r)[a];
    assert k >= |r|;
    forall x | x in r ensures e.count <= x.count {
      var a :| 0 <= a < |r| && r[a] == x;
      assert EntryDescending(sorted[a]) <= EntryDescending(sorted[k]);
    }
  }

  function HasImages(p: BlogPost): bool {
    p.images.Some? && |p.images.value| > 0
  }

  function HasMood(p: BlogPost): bool {
    Truthy(p.mood)
  }

  /** The "with images" counter. */
  function WithImages(posts: seq<BlogPost>): (n: nat)
    ensures n <= |posts|
  {
    |Filter(posts, HasImages)|
  }

  /** The "with a mood" counter. */
  function WithMood(posts: seq<BlogPost>): (n: nat)
    ensures n <= |posts|
  {
    |Filter(posts, HasMood)|
  }

  /** The "distinct tags" counter: `new Set(posts.flatMap(p => p.tags)).size`. */
  function DistinctTags(posts: seq<BlogPost>): (n: nat)
    ensures n <= |TagsOf(posts)|
  {
    |Distinct(TagsOf(posts))|
  }

  lemma {:induction false} WithMoodIsMoods(posts: seq<BlogPost>)
    ensures WithMood(posts) == |MoodsOf(posts)|
  {
    if posts != [] {
      WithMoodIsMoods(Init(posts));
    }
  }

  /** The counters agree with the charts: as many posts with a mood as mood
      counts add up to, and as many distinct tags as the tag record has keys. */
  lemma CountersAgree(posts: seq<BlogPost>)
    ensures WithMood(posts) == Total(TallyOf(MoodsOf(posts)))
    ensures DistinctTags(posts) == |TallyOf(TagsOf(posts))|
    ensures |TopTags(posts)| == if DistinctTags(posts) < 10 then DistinctTags(posts) else 10
  {
    WithMoodIsMoods(posts);
    TallyOfSpec(MoodsOf(posts));
    TallyOfSpec(TagsOf(posts));
  }
}
