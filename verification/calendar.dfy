/** The calendar: posts grouped by the day of their creation, the preview each
    day cell shows, and what a click on a cell does. The day a timestamp falls
    on is a parameter (`dayKey`), standing for the `yyyy-MM-dd` text the date
    library formats in the local time zone. */
module Calendar {
  import opened Wrappers
  import opened JournalTypes
  import opened Seqs

  /** The test a bucket applies: created on day `key`. */
  function OnDay(dayKey: Millis -> string, key: string): BlogPost -> bool {
    (p: BlogPost) => dayKey(p.createdAt) == key
  }

  /** The day of each post, in order, repeats included. */
  function DaysOf(posts: seq<BlogPost>, dayKey: Millis -> string): (r: seq<string>)
    ensures |r| == |posts|
    ensures forall i :: 0 <= i < |posts| ==> r[i] == dayKey(posts[i].createdAt)
    ensures forall p :: p in posts ==> dayKey(p.createdAt) in r
    ensures forall k :: k in r <==> exists p :: p in posts && dayKey(p.createdAt) == k
  {
    var r := seq(|posts|, i requires 0 <= i < |posts| => dayKey(posts[i].createdAt));
    assert forall i :: 0 <= i < |posts| ==> r[i] == dayKey(posts[i].createdAt) && posts[i] in posts;
    r
  }

  /** The posts of one day, in their order. */
  function Bucket(posts: seq<BlogPost>, dayKey: Millis -> string, key: string): (r: seq<BlogPost>)
    ensures IsSubseq(r, posts)
    ensures forall p :: p in r <==> p in posts && dayKey(p.createdAt) == key
  {
    Filter(posts, OnDay(dayKey, key))
  }

  /** `postsByDate`: one entry per day on which some post was created, holding
      that day's posts in their order. */
  ghost function Buckets(posts: seq<BlogPost>, dayKey: Millis -> string): map<string, seq<BlogPost>> {
    map k | k in DaysOf(posts, dayKey) :: Bucket(posts, dayKey, k)
  }

  lemma DaysSnoc(posts: seq<BlogPost>, dayKey: Millis -> string, post: BlogPost)
    ensures DaysOf(posts + [post], dayKey) == DaysOf(posts, dayKey) + [dayKey(post.createdAt)]
  {
  }

  /** The day of a stored post is among the listed days. */
  lemma DayListed(posts: seq<BlogPost>, dayKey: Millis -> string, q: BlogPost)
    requires q in posts
    ensures dayKey(q.createdAt) in DaysOf(posts, dayKey)
  {
    var j :| 0 <= j < |posts| && posts[j] == q;
    assert DaysOf(posts, dayKey)[j] == dayKey(q.createdAt);
  }

  /** A day on which no post was created has an empty bucket. */
  lemma UnlistedDayEmpty(posts: seq<BlogPost>, dayKey: Millis -> string, key: string)
    requires key !in DaysOf(posts, dayKey)
    ensures Bucket(posts, dayKey, key) == []
  {
    forall q | q in posts ensures !OnDay(dayKey, key)(q) {
      DayListed(posts, dayKey, q);
    }
    FilterNone(posts, OnDay(dayKey, key));
  }

  /** The buckets after one more post: its day's list grows by it, a new day
      starts a list holding only it, and every other list stays. */
  lemma BucketsSnoc(posts: seq<BlogPost>, dayKey: Millis -> string, post: BlogPost)
    ensures var key := dayKey(post.createdAt);
      var m := Buckets(posts, dayKey);
      Buckets(posts + [post], dayKey) == m[key := CellPosts(m, key) + [post]]
  {
    var key := dayKey(post.createdAt);
    var m := Buckets(posts, dayKey);
    var m' := Buckets(posts + [post], dayKey);
    DaysSnoc(posts, dayKey, post);
    forall k | k in m'
      ensures m'[k] == m[key := CellPosts(m, key) + [post]][k]
    {
      FilterSnoc(posts, post, OnDay(dayKey, k));
      if k == key && key !in m {
        UnlistedDayEmpty(posts, dayKey, key);
      }
    }
  }

  /** `postsByDate`: a map filled by one pass over the posts, each post pushed
      onto the list of its day, the list created on the day's first post. */
  method PostsByDate(posts: seq<BlogPost>, dayKey: Millis -> string) returns (m: map<string, seq<BlogPost>>)
    ensures m == Buckets(posts, dayKey)
  {
    m := map[];
    ghost var done: seq<BlogPost> := [];
    for i := 0 to |posts|
      invariant done == posts[..i]
      invariant m == Buckets(done, dayKey)
    {
      var post := posts[i];
      var key := dayKey(post.createdAt);
      BucketsSnoc(done, dayKey, post);
      var bucket := if key in m then m[key] else [];
      assert bucket == CellPosts(m, key);
      m := m[key := bucket + [post]];
      PrefixSnoc(posts, i);
      done := done + [post];
    }
    assert done == posts;
  }

  /** `postsByDate.get(dateKey) || []`: the posts a day cell shows. */
  function CellPosts(m: map<string, seq<BlogPost>>, key: string): seq<BlogPost> {
    if key in m then m[key] else []
  }

  /** Each day cell gets exactly the posts created on that day, in their order,
      and a post sits in the bucket of its own day and in no other. */
  lemma CellsAreDays(posts: seq<BlogPost>, dayKey: Millis -> string, key: string, p: BlogPost)
    ensures CellPosts(Buckets(posts, dayKey), key) == Bucket(posts, dayKey, key)
    ensures p in CellPosts(Buckets(posts, dayKey), key) <==> p in posts && dayKey(p.createdAt) == key
    ensures key in Buckets(posts, dayKey) <==> exists q :: q in posts && dayKey(q.createdAt) == key
  {
    if key !in DaysOf(posts, dayKey) {
      UnlistedDayEmpty(posts, dayKey, key);
    } else {
      var j :| 0 <= j < |posts| && DaysOf(posts, dayKey)[j] == key;
      assert posts[j] in posts;
    }
    forall q | q in posts && dayKey(q.createdAt) == key ensures key in DaysOf(posts, dayKey) {
      DayListed(posts, dayKey, q);
    }
  }

  /** Sum of the bucket sizes of the given days. */
  function SumSizes(posts: seq<BlogPost>, dayKey: Millis -> string, days: seq<string>): nat {
    if days == [] then 0 else SumSizes(posts, dayKey, Init(days)) + |Bucket(posts, dayKey, Last(days))|
  }

  /** One more post adds one to the sizes of distinct days exactly when its day is among them. */
  lemma {:induction false} SumSizesSnoc(posts: seq<BlogPost>, dayKey: Millis -> string, post: BlogPost, days: seq<string>)
    requires NoDup(days)
    ensures SumSizes(posts + [post], dayKey, days) ==
      SumSizes(posts, dayKey, days) + (if dayKey(post.createdAt) in days then 1 else 0)
    decreases |days|
  {
    if days != [] {
      var d := Last(days);
      assert NoDup(Init(days)) && (d in days <==> d in Init(days) || d == Last(days));
      assert forall x :: x in days <==> x in Init(days) || x == d;
      assert d !in Init(days);
      SumSizesSnoc(posts, dayKey, post, Init(days));
      FilterSnoc(posts, post, OnDay(dayKey, d));
    }
  }

  /** The buckets together hold every post once: their sizes add up to the
      number of posts. */
  lemma {:induction false} BucketSizesSum(posts: seq<BlogPost>, dayKey: Millis -> string)
    ensures SumSizes(posts, dayKey, Distinct(DaysOf(posts, dayKey))) == |posts|
    decreases |posts|
  {
    if posts != [] {
      var s := Init(posts);
      var post := Last(posts);
      var d := dayKey(post.createdAt);
      BucketSizesSum(s, dayKey);
      DaysSnoc(s, dayKey, post);
      DistinctSnoc(DaysOf(s, dayKey), d);
      var ds := Distinct(DaysOf(s, dayKey));
      SumSizesSnoc(s, dayKey, post, ds);
      if d !in ds {
        var all := ds + [d];
        assert Init(all) == ds && Last(all) == d;
        FilterSnoc(s, post, OnDay(dayKey, d));
        UnlistedDayEmpty(s, dayKey, d);
      }
    }
  }

  /** What a day cell shows: up to two titles and, beyond two posts, the number
      of the others. */
  datatype Preview = Preview(titles: seq<string>, more: Option<nat>)

  function CellPreview(bucket: seq<BlogPost>): (r: Preview)
    ensures |r.titles| == if |bucket| < 2 then |bucket| else 2
    ensures forall i :: 0 <= i < |r.titles| ==> r.titles[i] == bucket[i].title
    ensures r.more.Some? <==> |bucket| > 2
  {
    var shown := Take(bucket, 2);
    Preview(seq(|shown|, i requires 0 <= i < |shown| => shown[i].title),
            if |bucket| > 2 then Some(|bucket| - 2) else None)
  }

  /** The preview accounts for every post of the day: the titles shown plus the
      number announced make up the bucket, and an empty day shows nothing. */
  lemma PreviewAccountsForAll(bucket: seq<BlogPost>)
    ensures var r := CellPreview(bucket);
      |r.titles| + (if r.more.Some? then r.more.value else 0) == |bucket|
    ensures bucket == [] ==> CellPreview(bucket) == Preview([], None)
  {
  }

  /** A click on a day cell: nothing, the callback with nothing further, or
      navigation to the day's only post. */
  datatype Click = NoCallback | CallbackOnly | OpenPost(id: Id)

  /** The cell only reports a click when its day has posts, and the app then
      opens the post when there is exactly one. */
  function OnCellClick(bucket: seq<BlogPost>): (r: Click)
    ensures r == NoCallback <==> bucket == []
    ensures r.OpenPost? <==> |bucket| == 1
    ensures r.OpenPost? ==> r.id == bucket[0].id
  {
    if |bucket| > 0 then
      if |bucket| == 1 then OpenPost(bucket[0].id) else CallbackOnly
    else NoCallback
  }

  /** Clicking a day opens a post only when that day has exactly one post, which
      is then the post opened. */
  lemma ClickOpensOnlyPost(posts: seq<BlogPost>, dayKey: Millis -> string, key: string)
    ensures var b := CellPosts(Buckets(posts, dayKey), key);
      OnCellClick(b).OpenPost? ==>
        exists p :: p in posts && dayKey(p.createdAt) == key && p.id == OnCellClick(b).id
    ensures var b := CellPosts(Buckets(posts, dayKey), key);
      OnCellClick(b) == NoCallback <==> forall p :: p in posts ==> dayKey(p.createdAt) != key
    ensures var b := CellPosts(Buckets(posts, dayKey), key);
      OnCellClick(b).OpenPost? <==> |Bucket(posts, dayKey, key)| == 1
  {
    var b := CellPosts(Buckets(posts, dayKey), key);
    if b != [] {
      CellsAreDays(posts, dayKey, key, b[0]);
      assert b[0] in b;
    } else {
      if posts != [] {
        CellsAreDays(posts, dayKey, key, posts[0]);
      }
      forall p | p in posts ensures dayKey(p.createdAt) != key {
        CellsAreDays(posts, dayKey, key, p);
      }
    }
  }
}
