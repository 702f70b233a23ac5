/** The advanced filter panel's state: criteria are replaced by merging a
    partial update, moods and tags are toggled, and everything can be cleared. */
module AdvancedFilter {
  import opened Wrappers
  import opened JournalTypes
  import opened Seqs

  /** The filter criteria; a date is kept as the instant `getTime()` reports. */
  datatype FilterOptions = FilterOptions(
    dateFrom: Option<Millis>, dateTo: Option<Millis>,
    moods: seq<string>, tags: seq<string>, searchText: string)

  /** `Partial<FilterOptions>`: a date may be given as `undefined` to unset it. */
  datatype FilterPatch = FilterPatch(
    dateFrom: Option<Option<Millis>>, dateTo: Option<Option<Millis>>,
    moods: Option<seq<string>>, tags: Option<seq<string>>, searchText: Option<string>)

  /** The initial state and the one `clearFilters` installs. */
  const Cleared := FilterOptions(None, None, [], [], "")

  const NoChange := FilterPatch(None, None, None, None, None)

  /** `handleFilterChange`: `{...filters, ...patch}`, which is both the new
      state and the value reported to the list. */
  function Merge(f: FilterOptions, p: FilterPatch): (r: FilterOptions)
    ensures p.dateFrom.None? ==> r.dateFrom == f.dateFrom
    ensures p.dateFrom.Some? ==> r.dateFrom == p.dateFrom.value
    ensures p.dateTo.None? ==> r.dateTo == f.dateTo
    ensures p.dateTo.Some? ==> r.dateTo == p.dateTo.value
    ensures p.moods.None? ==> r.moods == f.moods
    ensures p.moods.Some? ==> r.moods == p.moods.value
    ensures p.tags.None? ==> r.tags == f.tags
    ensures p.tags.Some? ==> r.tags == p.tags.value
    ensures p.searchText.None? ==> r.searchText == f.searchText
    ensures p.searchText.Some? ==> r.searchText == p.searchText.value
  {
    FilterOptions(
      if p.dateFrom.Some? then p.dateFrom.value else f.dateFrom,
      if p.dateTo.Some? then p.dateTo.value else f.dateTo,
      if p.moods.Some? then p.moods.value else f.moods,
      if p.tags.Some? then p.tags.value else f.tags,
      if p.searchText.Some? then p.searchText.value else f.searchText)
  }

  /** Merging the same update twice is merging it once, and an empty update
      changes nothing. */
  lemma MergeIdempotent(f: FilterOptions, p: FilterPatch)
    ensures Merge(Merge(f, p), p) == Merge(f, p)
    ensures Merge(f, NoChange) == f
  {
  }

  /** Removes `x` when present, otherwise appends it at the end. */
  function Toggle(xs: seq<string>, x: string): (r: seq<string>)
    ensures x in xs ==> r == Remove(xs, x)
    ensures x !in xs ==> r == xs + [x]
    ensures x in r <==> x !in xs
    ensures forall y :: y != x ==> (y in r <==> y in xs)
  {
    if x in xs then Remove(xs, x) else xs + [x]
  }

  /** Toggling keeps a list duplicate-free; toggling a new value twice restores
      the list exactly, and toggling a present value twice moves it to the end. */
  lemma ToggleTwice(xs: seq<string>, x: string)
    ensures NoDup(xs) ==> NoDup(Toggle(xs, x))
    ensures x !in xs ==> Toggle(Toggle(xs, x), x) == xs
    ensures x in xs ==> Toggle(Toggle(xs, x), x) == Remove(xs, x) + [x]
  {
    if x !in xs {
      assert Toggle(xs, x) == xs + [x];
      assert x in xs + [x];
      RemoveAppended(xs, x);
      if NoDup(xs) {
        NoDupSnoc(xs, x);
      }
    } else {
      assert Toggle(xs, x) == Remove(xs, x);
      if NoDup(xs) {
        RemoveNoDup(xs, x);
      }
    }
  }

  /** `toggleMood`: only the moods change. */
  function ToggleMood(f: FilterOptions, mood: string): (r: FilterOptions)
    ensures r == f.(moods := Toggle(f.moods, mood))
  {
    Merge(f, NoChange.(moods := Some(Toggle(f.moods, mood))))
  }

  /** `toggleTag`: only the tags change. */
  function ToggleTag(f: FilterOptions, tag: string): (r: FilterOptions)
    ensures r == f.(tags := Toggle(f.tags, tag))
  {
    Merge(f, NoChange.(tags := Some(Toggle(f.tags, tag))))
  }

  /** `hasActiveFilters`: some criterion is set. */
  predicate HasActiveFilters(f: FilterOptions) {
    |f.moods| > 0 || |f.tags| > 0 || f.searchText != "" || f.dateFrom.Some? || f.dateTo.Some?
  }

  /** The number on the filter button's badge. */
  function BadgeCount(f: FilterOptions): (n: nat)
    ensures n >= |f.moods| + |f.tags|
    ensures n <= |f.moods| + |f.tags| + 3
  {
    |f.moods| + |f.tags| + (if f.searchText != "" then 1 else 0)
      + (if f.dateFrom.Some? then 1 else 0) + (if f.dateTo.Some? then 1 else 0)
  }

  /** The badge shows a positive count exactly when a filter is active, and
      clearing leaves no active filter. */
  lemma BadgeCountActive(f: FilterOptions)
    ensures BadgeCount(f) > 0 <==> HasActiveFilters(f)
    ensures !HasActiveFilters(Cleared) && BadgeCount(Cleared) == 0
  {
  }

  /** Toggling a new mood or tag adds exactly one to the badge. */
  lemma ToggleNewCountsOne(f: FilterOptions, x: string)
    ensures x !in f.moods ==> BadgeCount(ToggleMood(f, x)) == BadgeCount(f) + 1
    ensures x !in f.tags ==> BadgeCount(ToggleTag(f, x)) == BadgeCount(f) + 1
  {
  }
}
