/** The diary list: the conjunctive filter over the loaded posts and the
    mood and tag choices offered to the advanced filter. */
module PostList {
  import opened Wrappers
  import opened JournalTypes
  import opened Seqs
  import opened Text
  import opened AdvancedFilter

  /** One day in milliseconds: the end date is widened by this much. */
  const DayMillis := 86400000

  /** The quick search box: empty matches everything; otherwise the term occurs,
      ignoring case, in the title, the content or a tag, or, with case, in the
      category. */
  predicate MatchesSearch(p: BlogPost, term: string) {
    || term == ""
    || Contains(Lower(p.title), Lower(term))
    || Contains(Lower(p.content), Lower(term))
    || (exists t :: t in p.tags && Contains(Lower(t), Lower(term)))
    || (Truthy(p.category) && Contains(p.category.value, term))
  }

  /** The advanced search text: title or content only, ignoring case. */
  predicate MatchesFilterText(p: BlogPost, text: string) {
    text == "" || Contains(Lower(p.title), Lower(text)) || Contains(Lower(p.content), Lower(text))
  }

  /** With moods selected, a post needs a (non-empty) mood among them. */
  predicate MatchesMood(p: BlogPost, moods: seq<string>) {
    moods == [] || (Truthy(p.mood) && p.mood.value in moods)
  }

  /** With tags selected, a post needs at least one of them. */
  predicate MatchesTags(p: BlogPost, tags: seq<string>) {
    tags == [] || exists t :: t in tags && t in p.tags
  }

  predicate MatchesDateFrom(p: BlogPost, from: Option<Millis>) {
    from.None? || p.createdAt >= from.value
  }

  predicate MatchesDateTo(p: BlogPost, to: Option<Millis>) {
    to.None? || p.createdAt <= to.value + DayMillis
  }

  predicate Matches(p: BlogPost, term: string, f: FilterOptions) {
    && MatchesSearch(p, term) && MatchesFilterText(p, f.searchText)
    && MatchesMood(p, f.moods) && MatchesTags(p, f.tags)
    && MatchesDateFrom(p, f.dateFrom) && MatchesDateTo(p, f.dateTo)
  }

  function MatchesAll(term: string, f: FilterOptions): BlogPost -> bool {
    (p: BlogPost) => Matches(p, term, f)
  }

  /** `filteredPosts`: the posts meeting all six criteria, in their order. */
  function FilterPosts(posts: seq<BlogPost>, term: string, f: FilterOptions): (r: seq<BlogPost>)
    ensures IsSubseq(r, posts)
    ensures forall p :: p in r <==> p in posts && Matches(p, term, f)
  {
    Filter(posts, MatchesAll(term, f))
  }

  /** With an empty search box and cleared filters every post is shown. */
  lemma ClearedShowsAll(posts: seq<BlogPost>)
    ensures FilterPosts(posts, "", Cleared) == posts
  {
    FilterAll(posts, MatchesAll("", Cleared));
  }

  /** Filtering what is already filtered changes nothing. */
  lemma FilterPostsIdempotent(posts: seq<BlogPost>, term: string, f: FilterOptions)
    ensures FilterPosts(FilterPosts(posts, term, f), term, f) == FilterPosts(posts, term, f)
  {
    FilterImplied(posts, MatchesAll(term, f), MatchesAll(term, f));
  }

  /** Once a mood is selected, posts without a mood are never shown. */
  lemma MoodlessExcluded(posts: seq<BlogPost>, term: string, f: FilterOptions, p: BlogPost)
    requires f.moods != [] && !Truthy(p.mood)
    ensures p !in FilterPosts(posts, term, f)
  {
  }

  /** Both date bounds are inclusive, the end one a full day after `dateTo`. */
  lemma DateBoundsInclusive(p: BlogPost, from: Millis, to: Millis)
    ensures MatchesDateFrom(p, Some(from)) <==> from <= p.createdAt
    ensures MatchesDateTo(p, Some(to)) <==> p.createdAt <= to + 86400000
    ensures p.createdAt == to + DayMillis ==> MatchesDateTo(p, Some(to))
    ensures p.createdAt == to + DayMillis + 1 ==> !MatchesDateTo(p, Some(to))
  {
  }

  /** The mood a post contributes to the mood list: its mood when non-empty. */
  function MoodOf(p: BlogPost): seq<string> {
    if Truthy(p.mood) then [p.mood.value] else []
  }

  /** The non-empty moods of the posts, in order, repeats included. */
  function MoodsOf(posts: seq<BlogPost>): (r: seq<string>)
    ensures |r| <= |posts|
  {
    if posts == [] then [] else MoodsOf(Init(posts)) + MoodOf(Last(posts))
  }

  /** Every tag of every post, in order, repeats included. */
  function TagsOf(posts: seq<BlogPost>): (r: seq<string>)
  {
    if posts == [] then [] else TagsOf(Init(posts)) + Last(posts).tags
  }

  lemma PrefixStep(posts: seq<BlogPost>, i: nat)
    requires i < |posts|
    ensures MoodsOf(posts[..i + 1]) == MoodsOf(posts[..i]) + MoodOf(posts[i])
    ensures TagsOf(posts[..i + 1]) == TagsOf(posts[..i]) + posts[i].tags
  {
    assert Init(posts[..i + 1]) == posts[..i] && Last(posts[..i + 1]) == posts[i];
  }

  /** A mood is listed exactly when some post has it. */
  lemma {:induction false} MoodsOfMembers(posts: seq<BlogPost>, m: string)
    ensures m in MoodsOf(posts) <==> exists p :: p in posts && p.mood == Some(m) && m != ""
  {
    if posts != [] {
      MoodsOfMembers(Init(posts), m);
      assert forall p :: p in posts <==> p in Init(posts) || p == Last(posts);
    }
  }

  /** A tag is listed exactly when some post carries it. */
  lemma {:induction false} TagsOfMembers(posts: seq<BlogPost>, t: string)
    ensures t in TagsOf(posts) <==> exists p :: p in posts && t in p.tags
  {
    if posts != [] {
      TagsOfMembers(Init(posts), t);
      assert forall p :: p in posts <==> p in Init(posts) || p == Last(posts);
    }
  }

  /** The mood and tag choices hold no repeats and offer exactly the moods and
      tags that occur in the posts. */
  lemma ChoicesAreOccurring(posts: seq<BlogPost>, m: string, t: string)
    ensures NoDup(Distinct(MoodsOf(posts))) && NoDup(Distinct(TagsOf(posts)))
    ensures m in Distinct(MoodsOf(posts)) <==> exists p :: p in posts && p.mood == Some(m) && m != ""
    ensures t in Distinct(TagsOf(posts)) <==> exists p :: p in posts && t in p.tags
  {
    MoodsOfMembers(posts, m);
    TagsOfMembers(posts, t);
  }

  /** `availableMoods`: each distinct non-empty mood once, in first-seen order. */
  method AvailableMoods(posts: seq<BlogPost>) returns (moods: seq<string>)
    ensures moods == Distinct(MoodsOf(posts))
  {
    moods := [];
    ghost var seen: seq<string> := [];
    for i := 0 to |posts|
      invariant seen == MoodsOf(posts[..i])
      invariant moods == Distinct(seen)
    {
      PrefixStep(posts, i);
      var p := posts[i];
      if Truthy(p.mood) {
        DistinctSnoc(seen, p.mood.value);
        if p.mood.value !in moods {
          moods := moods + [p.mood.value];
        }
        seen := seen + [p.mood.value];
      }
    }
    assert posts[..|posts|] == posts;
  }

  lemma ExtendPrefix(seen: seq<string>, ts: seq<string>, j: nat)
    requires j < |ts|
    ensures seen + ts[..j + 1] == (seen + ts[..j]) + [ts[j]]
  {
    assert ts[..j + 1] == ts[..j] + [ts[j]];
  }

  /** Adding each of `ts` to an insertion-ordered set holding the first
      occurrences of `seen`. */
  method AddEach(acc: seq<string>, ghost seen: seq<string>, ts: seq<string>) returns (r: seq<string>)
    requires acc == Distinct(seen)
    ensures r == Distinct(seen + ts)
  {
    r := acc;
    ghost var done := seen;
    assert ts[..0] == [];
    for j := 0 to |ts|
      invariant done == seen + ts[..j]
      invariant r == Distinct(done)
    {
      DistinctSnoc(done, ts[j]);
      if ts[j] !in r {
        r := r + [ts[j]];
      }
      ExtendPrefix(seen, ts, j);
      done := done + [ts[j]];
    }
    assert ts[..|ts|] == ts;
  }

  /** `availableTags`: each distinct tag once, in first-seen order. */
  method AvailableTags(posts: seq<BlogPost>) returns (tags: seq<string>)
    ensures tags == Distinct(TagsOf(posts))
  {
    tags := [];
    for i := 0 to |posts|
      invariant tags == Distinct(TagsOf(posts[..i]))
    {
      PrefixStep(posts, i);
      tags := AddEach(tags, TagsOf(posts[..i]), posts[i].tags);
    }
    assert posts[..|posts|] == posts;
  }
}
