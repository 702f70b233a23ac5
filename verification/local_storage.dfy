/** The browser-side post store used without a backend: one array of every
    user's posts, of which each operation sees only the current user's. The
    current user is what the session holds (`None` when nobody is logged in). */
module LocalStorage {
  import opened Wrappers
  import opened JournalTypes
  import opened Seqs

  /** `Partial<BlogPostInput>`: each property absent or given. `mood`,
      `category`, `images` and `aiSummary` may also be given as `undefined`. */
  datatype PostPatch = PostPatch(
    title: Option<string>, content: Option<string>, mood: Option<Option<string>>,
    tags: Option<seq<string>>, category: Option<Option<string>>,
    images: Option<Option<seq<string>>>, aiSummary: Option<Option<string>>,
    colorTheme: Option<ColorTheme>)

  const NotAuthenticated := "User not authenticated"

  function OwnedBy(uid: Id): BlogPost -> bool {
    (p: BlogPost) => p.userId == uid
  }

  /** The test `findIndex`, `find` and `filter` apply: this id, this owner. */
  function Matches(id: Id, uid: Id): BlogPost -> bool {
    (p: BlogPost) => p.id == id && p.userId == uid
  }

  function KeptBy(id: Id, uid: Id): BlogPost -> bool {
    (p: BlogPost) => !(p.id == id && p.userId == uid)
  }

  /** `{...post, ...updates, updatedAt}`: given properties overwrite, the rest stay. */
  function ApplyPatch(p: BlogPost, u: PostPatch, now: Millis): (r: BlogPost)
    ensures r.id == p.id && r.userId == p.userId && r.createdAt == p.createdAt
    ensures r.comments == p.comments && r.updatedAt == now
  {
    p.(title := if u.title.Some? then u.title.value else p.title,
       content := if u.content.Some? then u.content.value else p.content,
       mood := if u.mood.Some? then u.mood.value else p.mood,
       tags := if u.tags.Some? then u.tags.value else p.tags,
       category := if u.category.Some? then u.category.value else p.category,
       images := if u.images.Some? then u.images.value else p.images,
       aiSummary := if u.aiSummary.Some? then u.aiSummary.value else p.aiSummary,
       colorTheme := if u.colorTheme.Some? then u.colorTheme.value else p.colorTheme,
       updatedAt := now)
  }

  /** Supplied properties overwrite and the others are kept; an empty patch
      refreshes only `updatedAt`. */
  lemma ApplyPatchChangesOnlyGiven(p: BlogPost, u: PostPatch, now: Millis)
    ensures var r := ApplyPatch(p, u, now);
      && (u.title.None? ==> r.title == p.title) && (u.title.Some? ==> r.title == u.title.value)
      && (u.content.None? ==> r.content == p.content) && (u.content.Some? ==> r.content == u.content.value)
      && (u.mood.None? ==> r.mood == p.mood) && (u.mood.Some? ==> r.mood == u.mood.value)
      && (u.tags.None? ==> r.tags == p.tags) && (u.tags.Some? ==> r.tags == u.tags.value)
      && (u.category.None? ==> r.category == p.category) && (u.category.Some? ==> r.category == u.category.value)
      && (u.images.None? ==> r.images == p.images) && (u.images.Some? ==> r.images == u.images.value)
      && (u.aiSummary.None? ==> r.aiSummary == p.aiSummary) && (u.aiSummary.Some? ==> r.aiSummary == u.aiSummary.value)
      && (u.colorTheme.None? ==> r.colorTheme == p.colorTheme)
      && (u.colorTheme.Some? ==> r.colorTheme == u.colorTheme.value)
    ensures u == PostPatch(None, None, None, None, None, None, None, None) ==>
      ApplyPatch(p, u, now) == p.(updatedAt := now)
  {
  }

  class LocalPostStore {
    /** Every user's posts, newest save first. */
    var posts: seq<BlogPost>

    constructor ()
      ensures posts == []
    {
      posts := [];
    }

    /** `getPosts`: nothing without a user, otherwise exactly that user's posts
        in stored order. */
    function GetPosts(user: Option<User>): (r: seq<BlogPost>)
      reads this
      ensures user.None? ==> r == []
      ensures user.Some? ==> forall p :: p in r <==> p in posts && p.userId == user.value.id
      ensures IsSubseq(r, posts)
    {
      if user.None? then [] else Filter(posts, OwnedBy(user.value.id))
    }

    /** `getPostById`: the first post with this id owned by the current user. */
    function GetPostById(user: Option<User>, id: Id): (r: Option<BlogPost>)
      reads this
      ensures r.Some? ==> user.Some? && r.value in posts && r.value.id == id && r.value.userId == user.value.id
      ensures r.None? <==> user.None? || forall p :: p in posts ==> !(p.id == id && p.userId == user.value.id)
    {
      if user.None? then None
      else
        var i := FirstIndex(posts, Matches(id, user.value.id));
        if i == |posts| then None else Some(posts[i])
    }

    /** A post found by id is one of the posts the same user lists. */
    lemma FoundIsListed(user: Option<User>, id: Id)
      ensures GetPostById(user, id).Some? ==> GetPostById(user, id).value in GetPosts(user)
    {
    }

    /** `savePost`: throws without a user; otherwise the new post, owned by the
        current user and stamped now, goes in front of all earlier posts. */
    method SavePost(user: Option<User>, input: BlogPostInput, freshId: Id, now: Millis)
      returns (r: Result<BlogPost, string>)
      requires forall p :: p in posts ==> p.id != freshId
      modifies this
      ensures user.None? ==> r == Failure(NotAuthenticated) && posts == old(posts)
      ensures user.Some? ==>
        && r == Success(PostOf(input, freshId, user.value.id, now, now))
        && posts == [r.value] + old(posts)
        && GetPostById(user, freshId) == Some(r.value)
        && InputOf(r.value) == input
      ensures forall v: User :: user.None? || v.id != user.value.id ==>
        GetPosts(Some(v)) == old(GetPosts(Some(v)))
    {
      if user.None? {
        return Failure(NotAuthenticated);
      }
      var p := PostOf(input, freshId, user.value.id, now, now);
      InputRoundTrip(input, p);
      forall v: User | v.id != user.value.id
        ensures Filter([p] + posts, OwnedBy(v.id)) == Filter(posts, OwnedBy(v.id))
      {
        FilterConsFailing(p, posts, OwnedBy(v.id));
      }
      posts := [p] + posts;
      assert FirstIndex(posts, Matches(freshId, user.value.id)) == 0;
      r := Success(p);
    }

    /** `updatePost`: throws without a user; `null` and no change when no post
        has both this id and the current owner; otherwise only the first match
        is replaced by its patched copy. */
    method UpdatePost(user: Option<User>, id: Id, updates: PostPatch, now: Millis)
      returns (r: Result<Option<BlogPost>, string>)
      modifies this
      ensures user.None? ==> r == Failure(NotAuthenticated) && posts == old(posts)
      ensures user.Some? && old(GetPostById(user, id)).None? ==>
        r == Success(None) && posts == old(posts)
      ensures user.Some? && old(GetPostById(user, id)).Some? ==>
        var i := FirstIndex(old(posts), Matches(id, user.value.id));
        && i < |old(posts)|
        && r == Success(Some(ApplyPatch(old(posts)[i], updates, now)))
        && posts == old(posts)[i := r.value.value]
        && GetPostById(user, id) == r.value
      ensures forall v: User :: user.None? || v.id != user.value.id ==>
        GetPosts(Some(v)) == old(GetPosts(Some(v)))
    {
      if user.None? {
        return Failure(NotAuthenticated);
      }
      var uid := user.value.id;
      var i := FirstIndex(posts, Matches(id, uid));
      if i == |posts| {
        return Success(None);
      }
      var updated := ApplyPatch(posts[i], updates, now);
      forall v: User | v.id != uid
        ensures Filter(posts[i := updated], OwnedBy(v.id)) == Filter(posts, OwnedBy(v.id))
      {
        FilterUpdateAt(posts, i, updated, OwnedBy(v.id));
      }
      ghost var before := posts;
      posts := posts[i := updated];
      assert forall j :: 0 <= j < i ==> posts[j] == before[j];
      FirstIndexUnique(posts, Matches(id, uid), i);
      r := Success(Some(updated));
    }

    /** `deletePost`: without a user nothing happens; otherwise exactly the
        posts with this id and the current owner go and the rest keep their order. */
    method DeletePost(user: Option<User>, id: Id)
      modifies this
      ensures user.None? ==> posts == old(posts)
      ensures user.Some? ==> posts == Filter(old(posts), KeptBy(id, user.value.id))
      ensures GetPostById(user, id).None?
      ensures forall v: User :: user.None? || v.id != user.value.id ==>
        GetPosts(Some(v)) == old(GetPosts(Some(v)))
    {
      if user.None? {
        return;
      }
      var uid := user.value.id;
      forall v: User | v.id != uid
        ensures Filter(Filter(posts, KeptBy(id, uid)), OwnedBy(v.id)) == Filter(posts, OwnedBy(v.id))
      {
        FilterImplied(posts, KeptBy(id, uid), OwnedBy(v.id));
      }
      posts := Filter(posts, KeptBy(id, uid));
    }
  }
}
