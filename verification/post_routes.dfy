/** The `/api/posts` routes: every handler runs for an authenticated requester,
    reads the post collection and answers with one of the statuses in `Http`.
    The collection is the list of stored documents in natural (insertion) order. */
module PostRoutes {
  import opened Wrappers
  import opened JournalTypes
  import opened Http
  import opened Seqs
  import opened Sorting
  import opened PostModel

  /** A post as the routes send it: `_id` renamed to `id`. */
  datatype PostView = PostView(id: Id, fields: PostFields)

  /** A comment as `POST /:id/comments` sends it. */
  datatype CommentView = CommentView(id: Id, fields: CommentFields)

  /** The `$set` object of `PUT /:id`: the properties the request body carries.
      `updatedAt` is not here because the handler always overrides it. */
  datatype PostSet = PostSet(
    userId: Option<Id>, title: Option<string>, content: Option<string>,
    mood: Option<string>, tags: Option<seq<string>>, category: Option<string>,
    images: Option<seq<string>>, aiSummary: Option<string>, colorTheme: Option<ColorTheme>,
    createdAt: Option<Millis>)

  function ViewOf(d: PostDoc): PostView {
    PostView(d.docId, d.fields)
  }

  function PostIdIs(id: Id): PostDoc -> bool {
    (d: PostDoc) => d.docId == id
  }

  function IsOwnedBy(u: Id): PostDoc -> bool {
    (d: PostDoc) => d.fields.userId == u
  }

  function CommentIdIs(id: Id): CommentDoc -> bool {
    (c: CommentDoc) => c.docId == id
  }

  /** No two stored posts share an `_id`. */
  ghost predicate UniqueIds(docs: seq<PostDoc>) {
    forall i, j :: 0 <= i < j < |docs| ==> docs[i].docId != docs[j].docId
  }

  /** The embedded comments of one post: distinct `_id`s, each one validated. */
  ghost predicate CommentsValid(cs: seq<CommentDoc>) {
    && (forall i, j :: 0 <= i < j < |cs| ==> cs[i].docId != cs[j].docId)
    && (forall i :: 0 <= i < |cs| ==> cs[i].fields.username != "" && cs[i].fields.content != "")
  }

  /** `document.save()` validates every required path of a stored post again. */
  predicate Savable(f: PostFields) {
    f.title != "" && f.content != ""
  }

  /** `findById`: the position of the post with `_id` `id`, or |docs|. */
  function IndexOfPost(docs: seq<PostDoc>, id: Id): (i: nat)
    ensures i <= |docs|
    ensures i < |docs| ==> docs[i].docId == id
    ensures i == |docs| <==> forall d :: d in docs ==> d.docId != id
  {
    FirstIndex(docs, PostIdIs(id))
  }

  /** `post.comments.id(commentId)`: the position of that comment, or |cs|. */
  function IndexOfComment(cs: seq<CommentDoc>, id: Id): (j: nat)
    ensures j <= |cs|
    ensures j < |cs| ==> cs[j].docId == id
    ensures j == |cs| <==> forall c :: c in cs ==> c.docId != id
  {
    FirstIndex(cs, CommentIdIs(id))
  }

  /** The owner's posts in natural order: `find({ userId })`. */
  function OwnedBy(docs: seq<PostDoc>, u: Id): (r: seq<PostDoc>)
    ensures forall d :: d in r <==> d in docs && d.fields.userId == u
  {
    Filter(docs, IsOwnedBy(u))
  }

  function NewestFirst(d: PostDoc): int {
    -d.fields.createdAt
  }

  /** Posts as the routes send them, in the same order. */
  function Views(ds: seq<PostDoc>): (r: seq<PostView>)
    ensures |r| == |ds|
    ensures forall i :: 0 <= i < |ds| ==> r[i] == ViewOf(ds[i])
    ensures forall v :: v in r <==> PostDoc(v.id, v.fields) in ds
  {
    if ds == [] then []
    else
      assert ds == [ds[0]] + ds[1..];
      [ViewOf(ds[0])] + Views(ds[1..])
  }

  lemma NewestFirstOrder(s: seq<PostDoc>)
    requires SortedBy(s, NewestFirst)
    ensures forall i, j :: 0 <= i < j < |s| ==> s[i].fields.createdAt >= s[j].fields.createdAt
  {
    forall i, j | 0 <= i < j < |s| ensures s[i].fields.createdAt >= s[j].fields.createdAt {
      assert NewestFirst(s[i]) <= NewestFirst(s[j]);
    }
  }

  /** `GET /`: the requester's posts, sorted newest first, as views. */
  function ListPosts(docs: seq<PostDoc>, u: Id): (r: seq<PostView>)
    ensures |r| == |OwnedBy(docs, u)|
  {
    Views(SortBy(OwnedBy(docs, u), NewestFirst))
  }

  /** The listing holds exactly the requester's posts, newest first. */
  lemma ListPostsSpec(docs: seq<PostDoc>, u: Id)
    ensures var r := ListPosts(docs, u);
      && (forall v :: v in r <==> PostDoc(v.id, v.fields) in docs && v.fields.userId == u)
      && (forall i, j :: 0 <= i < j < |r| ==> r[i].fields.createdAt >= r[j].fields.createdAt)
  {
    var owned := OwnedBy(docs, u);
    var sorted := SortBy(owned, NewestFirst);
    SortByMembers(owned, NewestFirst);
    NewestFirstOrder(sorted);
  }

  /** A user's listing depends on their own documents only. */
  lemma SameOwnedSameListing(d1: seq<PostDoc>, d2: seq<PostDoc>, u: Id)
    requires OwnedBy(d1, u) == OwnedBy(d2, u)
    ensures ListPosts(d1, u) == ListPosts(d2, u)
  {
  }

  /** The check `PUT /:id` and `DELETE /:id` make before acting: 404 when the post
      does not exist, then 401 when the requester does not own it. */
  function Access(docs: seq<PostDoc>, u: Id, id: Id): (s: Status)
    ensures s != ServerError
    ensures s == NotFound <==> forall d :: d in docs ==> d.docId != id
    ensures s == Ok ==> exists d :: d in docs && d.docId == id && d.fields.userId == u
    ensures s == Unauthorized ==> exists d :: d in docs && d.docId == id && d.fields.userId != u
  {
    var i := IndexOfPost(docs, id);
    if i == |docs| then NotFound
    else if docs[i].fields.userId != u then Unauthorized
    else Ok
  }

  lemma SameIdSamePost(docs: seq<PostDoc>, i: nat, k: nat)
    requires UniqueIds(docs) && i < |docs| && k < |docs| && docs[i].docId == docs[k].docId
    ensures i == k
  {
  }

  /** With unique `_id`s, access to an existing post is granted exactly to its owner. */
  lemma AccessIsOwnership(docs: seq<PostDoc>, u: Id, k: nat)
    requires UniqueIds(docs) && k < |docs|
    ensures Access(docs, u, docs[k].docId) == Ok <==> docs[k].fields.userId == u
    ensures Access(docs, u, docs[k].docId) == Unauthorized <==> docs[k].fields.userId != u
  {
    var i := IndexOfPost(docs, docs[k].docId);
    assert docs[k] in docs;
    SameIdSamePost(docs, i, k);
  }

  /** The `$set` of `PUT /:id` exactly as written: every property of the body
      replaces the stored one, including `userId`, and `updatedAt` becomes now. */
  function SetFieldsAsWritten(f: PostFields, s: PostSet, now: Millis): (r: PostFields)
    ensures r.updatedAt == now && r.comments == f.comments
    ensures s == PostSet(None, None, None, None, None, None, None, None, None, None) ==>
      r == f.(updatedAt := now)
  {
    f.(userId := if s.userId.Some? then s.userId.value else f.userId,
       title := if s.title.Some? then s.title.value else f.title,
       content := if s.content.Some? then s.content.value else f.content,
       mood := if s.mood.Some? then s.mood else f.mood,
       tags := if s.tags.Some? then s.tags.value else f.tags,
       category := if s.category.Some? then s.category else f.category,
       images := if s.images.Some? then s.images.value else f.images,
       aiSummary := if s.aiSummary.Some? then s.aiSummary else f.aiSummary,
       colorTheme := if s.colorTheme.Some? then s.colorTheme.value else f.colorTheme,
       createdAt := if s.createdAt.Some? then s.createdAt.value else f.createdAt,
       updatedAt := now)
  }

  /** As written, an owner's update whose body names another `userId` moves the
      post into that user's listing and out of the owner's. */
  lemma AsWrittenUpdateGivesPostAway(docs: seq<PostDoc>, k: nat, s: PostSet, now: Millis)
    requires k < |docs| && s.userId.Some? && s.userId.value != docs[k].fields.userId
    ensures var d := PostDoc(docs[k].docId, SetFieldsAsWritten(docs[k].fields, s, now));
      && ViewOf(d) in ListPosts(docs[k := d], s.userId.value)
      && ViewOf(d) !in ListPosts(docs[k := d], docs[k].fields.userId)
  {
    var d := PostDoc(docs[k].docId, SetFieldsAsWritten(docs[k].fields, s, now));
    assert docs[k := d][k] == d;
    ListPostsSpec(docs[k := d], s.userId.value);
    ListPostsSpec(docs[k := d], docs[k].fields.userId);
  }

  /** The update the route evidently intends: the body's properties replace the
      stored ones except the owner, which the server alone decides. */
  function SetFields(f: PostFields, s: PostSet, now: Millis): (r: PostFields)
    ensures r.userId == f.userId && r.comments == f.comments && r.updatedAt == now
  {
    SetFieldsAsWritten(f, s.(userId := None), now)
  }

  /** Only the properties present in the body change, besides `updatedAt`. */
  lemma SetFieldsChangesOnlyPresent(f: PostFields, s: PostSet, now: Millis)
    ensures var r := SetFields(f, s, now);
      && (s.title.None? ==> r.title == f.title) && (s.title.Some? ==> r.title == s.title.value)
      && (s.content.None? ==> r.content == f.content) && (s.content.Some? ==> r.content == s.content.value)
      && (s.mood.None? ==> r.mood == f.mood) && (s.mood.Some? ==> r.mood == s.mood)
      && (s.tags.None? ==> r.tags == f.tags) && (s.tags.Some? ==> r.tags == s.tags.value)
      && (s.category.None? ==> r.category == f.category) && (s.category.Some? ==> r.category == s.category)
      && (s.images.None? ==> r.images == f.images) && (s.images.Some? ==> r.images == s.images.value)
      && (s.aiSummary.None? ==> r.aiSummary == f.aiSummary) && (s.aiSummary.Some? ==> r.aiSummary == s.aiSummary)
      && (s.colorTheme.None? ==> r.colorTheme == f.colorTheme)
      && (s.colorTheme.Some? ==> r.colorTheme == s.colorTheme.value)
      && (s.createdAt.None? ==> r.createdAt == f.createdAt) && (s.createdAt.Some? ==> r.createdAt == s.createdAt.value)
  {
  }

  /** The body of `POST /` exactly as the handler builds it: the client's
      properties, `comments` included, with owner and both timestamps overridden
      by the server. */
  function StampedAsWritten(b: PostBody, u: Id, now: Millis): (r: PostBody)
    ensures r.userId == Some(u) && r.createdAt == Some(now) && r.updatedAt == Some(now)
    ensures r.title == b.title && r.content == b.content && r.colorTheme == b.colorTheme
    ensures r.comments == b.comments
  {
    b.(userId := Some(u), createdAt := Some(now), updatedAt := Some(now))
  }

  /** As written, creation fails exactly when the title or content is missing or
      empty, the theme is not one of the five or a body comment fails its schema;
      a created post belongs to the requester, is stamped now and holds the
      body's comments, each with the author the client named. */
  lemma CreateAsWritten(b: PostBody, u: Id, id: Id, commentIds: seq<Id>, now: Millis)
    requires |commentIds| == |BodyComments(b)|
    ensures |commentIds| == |BodyComments(StampedAsWritten(b, u, now))|
    ensures var made := NewPostDoc(StampedAsWritten(b, u, now), id, commentIds, now);
      && (made.Success? <==> Mongoose.RequiredString(b.title) && Mongoose.RequiredString(b.content)
                             && ThemeAccepted(b.colorTheme) && CommentsAccepted(b))
      && (made.Success? ==>
            && made.value.fields.userId == u && made.value.fields.createdAt == now
            && made.value.fields.updatedAt == now
            && |made.value.fields.comments| == |BodyComments(b)|
            && forall i :: 0 <= i < |BodyComments(b)| ==>
                 Some(made.value.fields.comments[i].fields.userId) == BodyComments(b)[i].userId)
  {
    var sb := StampedAsWritten(b, u, now);
    assert BodyComments(sb) == BodyComments(b);
    var made := NewPostDoc(sb, id, commentIds, now);
    if made.Success? {
      NewPostDefaults(sb, id, commentIds, now);
    }
  }

  /** As written, an accepted create body whose `comments` name another user
      makes a post that already holds a comment attributed to that user. */
  lemma AsWrittenCreateForgesComment(b: PostBody, u: Id, id: Id, commentIds: seq<Id>, now: Millis, k: nat)
    requires |commentIds| == |BodyComments(b)|
    requires Mongoose.RequiredString(b.title) && Mongoose.RequiredString(b.content)
    requires ThemeAccepted(b.colorTheme) && CommentsAccepted(b)
    requires k < |BodyComments(b)| && BodyComments(b)[k].userId != Some(u)
    ensures |commentIds| == |BodyComments(StampedAsWritten(b, u, now))|
    ensures var made := NewPostDoc(StampedAsWritten(b, u, now), id, commentIds, now);
      && made.Success? && made.value.fields.userId == u
      && made.value.fields.comments[k].fields.userId != u
      && Some(made.value.fields.comments[k].fields.userId) == BodyComments(b)[k].userId
  {
    CreateAsWritten(b, u, id, commentIds, now);
  }

  /** The stamping the route evidently intends: as written, but the client's
      `comments` are dropped too, since comments are added only through
      `POST /:id/comments` under the requester's own id. */
  function Stamped(b: PostBody, u: Id, now: Millis): (r: PostBody)
    ensures r.userId == Some(u) && r.createdAt == Some(now) && r.updatedAt == Some(now)
    ensures r.title == b.title && r.content == b.content && r.colorTheme == b.colorTheme
    ensures r.comments == None
  {
    StampedAsWritten(b.(comments := None), u, now)
  }

  /** With the corrected stamping, creation fails exactly when the title or
      content is missing or empty or the theme is not one of the five, and a
      created post belongs to the requester, is stamped now and has no comments. */
  lemma CreateStampsOwner(b: PostBody, u: Id, id: Id, now: Millis)
    ensures BodyComments(Stamped(b, u, now)) == []
    ensures var made := NewPostDoc(Stamped(b, u, now), id, [], now);
      && (made.Success? <==> Mongoose.RequiredString(b.title) && Mongoose.RequiredString(b.content)
                             && ThemeAccepted(b.colorTheme))
      && (made.Success? ==> made.value.docId == id && made.value.fields.userId == u
                            && made.value.fields.createdAt == now && made.value.fields.updatedAt == now
                            && made.value.fields.comments == [])
  {
    var made := NewPostDoc(Stamped(b, u, now), id, [], now);
    if made.Success? {
      NewPostDefaults(Stamped(b, u, now), id, [], now);
    }
  }

  /** The check `DELETE /:id/comments/:commentId` makes: 404 for a missing post,
      404 for a missing comment, then 401 unless the requester wrote the comment
      or owns the post. */
  function CommentAccess(docs: seq<PostDoc>, u: Id, postId: Id, commentId: Id): (s: Status)
    ensures s != ServerError
    ensures IndexOfPost(docs, postId) == |docs| ==> s == NotFound
    ensures IndexOfPost(docs, postId) < |docs| ==>
      var cs := docs[IndexOfPost(docs, postId)].fields.comments;
      && (s == NotFound <==> IndexOfComment(cs, commentId) == |cs|)
      && (s == Ok <==> IndexOfComment(cs, commentId) < |cs|
                       && (cs[IndexOfComment(cs, commentId)].fields.userId == u
                           || docs[IndexOfPost(docs, postId)].fields.userId == u))
  {
    var i := IndexOfPost(docs, postId);
    if i == |docs| then NotFound
    else
      var cs := docs[i].fields.comments;
      var j := IndexOfComment(cs, commentId);
      if j == |cs| then NotFound
      else if cs[j].fields.userId != u && docs[i].fields.userId != u then Unauthorized
      else Ok
  }

  /** Two parties may delete a comment: its author and the owner of the post. */
  lemma CommentDeletionRule(docs: seq<PostDoc>, u: Id, k: nat, c: CommentDoc)
    requires UniqueIds(docs) && k < |docs| && CommentsValid(docs[k].fields.comments)
    requires c in docs[k].fields.comments
    ensures CommentAccess(docs, u, docs[k].docId, c.docId) == Ok
      <==> c.fields.userId == u || docs[k].fields.userId == u
  {
    var i := IndexOfPost(docs, docs[k].docId);
    assert docs[k] in docs;
    SameIdSamePost(docs, i, k);
    var cs := docs[k].fields.comments;
    var j := IndexOfComment(cs, c.docId);
    var m :| 0 <= m < |cs| && cs[m] == c;
    assert j < |cs| && cs[j].docId == cs[m].docId;
    assert j == m;
  }

  /** For a stored post, the comment check answers 404 exactly when the post
      holds no comment with that `_id`. */
  lemma CommentMissing(docs: seq<PostDoc>, u: Id, k: nat, commentId: Id)
    requires UniqueIds(docs) && k < |docs|
    ensures CommentAccess(docs, u, docs[k].docId, commentId) == NotFound
      <==> forall c :: c in docs[k].fields.comments ==> c.docId != commentId
  {
    var i := IndexOfPost(docs, docs[k].docId);
    assert docs[k] in docs;
    SameIdSamePost(docs, i, k);
  }

  /** Removing one post keeps the others' `_id`s distinct and drops its `_id`. */
  lemma RemoveKeepsUnique(docs: seq<PostDoc>, i: nat)
    requires UniqueIds(docs) && i < |docs|
    ensures UniqueIds(docs[..i] + docs[i + 1..])
    ensures forall d :: d in docs[..i] + docs[i + 1..] ==> d.docId != docs[i].docId
  {
    var t := docs[..i] + docs[i + 1..];
    forall a | 0 <= a < |t| ensures t[a] == docs[if a < i then a else a + 1] {
    }
  }

  /** Appending a post leaves every other user's listing as it was. */
  lemma AppendOthersUnchanged(docs: seq<PostDoc>, d: PostDoc)
    ensures forall u :: u != d.fields.userId ==> ListPosts(docs + [d], u) == ListPosts(docs, u)
  {
    forall u | u != d.fields.userId ensures ListPosts(docs + [d], u) == ListPosts(docs, u) {
      FilterSnocFailing(docs, d, IsOwnedBy(u));
      SameOwnedSameListing(docs + [d], docs, u);
    }
  }

  /** A post with a new `_id` can be appended without a clash. */
  /** A post with a new `_id` and valid comments can be appended to a valid collection. */
  lemma AppendKeepsValid(docs: seq<PostDoc>, d: PostDoc)
    requires UniqueIds(docs) && forall x :: x in docs ==> x.docId != d.docId
    requires forall i :: 0 <= i < |docs| ==> CommentsValid(docs[i].fields.comments)
    requires CommentsValid(d.fields.comments)
    ensures UniqueIds(docs + [d])
    ensures forall i :: 0 <= i < |docs + [d]| ==> CommentsValid((docs + [d])[i].fields.comments)
  {
    AppendKeepsUnique(docs, d);
    var t := docs + [d];
    forall i | 0 <= i < |t| ensures CommentsValid(t[i].fields.comments) {
      if i < |docs| { assert t[i] == docs[i]; }
    }
  }

  lemma AppendKeepsUnique(docs: seq<PostDoc>, d: PostDoc)
    requires UniqueIds(docs) && forall x :: x in docs ==> x.docId != d.docId
    ensures UniqueIds(docs + [d])
  {
    var t := docs + [d];
    forall i, j | 0 <= i < j < |t| ensures t[i].docId != t[j].docId {
      assert t[i] == docs[i] && docs[i] in docs;
    }
  }

  /** A validated comment with a new `_id` can be appended to valid comments. */
  lemma AppendCommentKeepsValid(cs: seq<CommentDoc>, c: CommentDoc)
    requires CommentsValid(cs) && forall x :: x in cs ==> x.docId != c.docId
    requires c.fields.username != "" && c.fields.content != ""
    ensures CommentsValid(cs + [c])
  {
    var t := cs + [c];
    forall i, j | 0 <= i < j < |t| ensures t[i].docId != t[j].docId {
      assert t[i] == cs[i] && cs[i] in cs;
    }
  }

  /** A post replaced by one with the same `_id` keeps the `_id`s distinct. */
  lemma ReplaceKeepsUnique(docs: seq<PostDoc>, i: nat, d: PostDoc)
    requires UniqueIds(docs) && i < |docs| && d.docId == docs[i].docId
    ensures UniqueIds(docs[i := d])
  {
  }

  /** Removing one comment keeps the rest valid. */
  lemma RemoveCommentKeepsValid(cs: seq<CommentDoc>, j: nat)
    requires CommentsValid(cs) && j < |cs|
    ensures CommentsValid(cs[..j] + cs[j + 1..])
  {
    var t := cs[..j] + cs[j + 1..];
    forall a | 0 <= a < |t| ensures t[a] == cs[if a < j then a else a + 1] {
    }
  }

  class PostCollection {
    var docs: seq<PostDoc>

    ghost predicate Valid()
      reads this
    {
      && UniqueIds(docs)
      && (forall i :: 0 <= i < |docs| ==> CommentsValid(docs[i].fields.comments))
    }

    constructor ()
      ensures Valid() && docs == []
    {
      docs := [];
    }

    /** `POST /`: the stamped body is validated and stored, or 500 and nothing changes. */
    method Create(requester: Id, body: PostBody, freshId: Id, now: Millis)
      returns (status: Status, sent: Option<PostView>)
      requires Valid()
      requires forall d :: d in docs ==> d.docId != freshId
      modifies this
      ensures Valid()
      ensures BodyComments(Stamped(body, requester, now)) == []
      ensures var made := NewPostDoc(Stamped(body, requester, now), freshId, [], now);
        if made.Success? then
          status == Ok && docs == old(docs) + [made.value] && sent == Some(ViewOf(made.value))
        else
          status == ServerError && docs == old(docs) && sent == None
      ensures forall u :: u != requester ==> ListPosts(docs, u) == ListPosts(old(docs), u)
    {
      CreateStampsOwner(body, requester, freshId, now);
      var made := NewPostDoc(Stamped(body, requester, now), freshId, [], now);
      if made.Failure? {
        return ServerError, None;
      }
      var d := made.value;
      assert d.fields.comments == [];
      AppendOthersUnchanged(docs, d);
      AppendKeepsValid(docs, d);
      docs := docs + [d];
      status, sent := Ok, Some(ViewOf(d));
    }

    /** `PUT /:id`: after the ownership check the body's properties are set and
        `updatedAt` becomes now; the update itself is not validated. */
    method Update(requester: Id, id: Id, patch: PostSet, now: Millis)
      returns (status: Status, sent: Option<PostView>)
      requires Valid()
      modifies this
      ensures Valid()
      ensures status == Access(old(docs), requester, id)
      ensures status != Ok ==> docs == old(docs) && sent == None
      ensures status == Ok ==>
        var i := IndexOfPost(old(docs), id);
        && docs == old(docs)[i := PostDoc(id, SetFields(old(docs)[i].fields, patch, now))]
        && sent == Some(ViewOf(docs[i]))
      ensures forall u :: u != requester ==> ListPosts(docs, u) == ListPosts(old(docs), u)
    {
      var i := IndexOfPost(docs, id);
      if i == |docs| {
        return NotFound, None;
      }
      if docs[i].fields.userId != requester {
        return Unauthorized, None;
      }
      var d := PostDoc(id, SetFields(docs[i].fields, patch, now));
      forall u | u != requester ensures ListPosts(docs[i := d], u) == ListPosts(docs, u) {
        FilterUpdateAt(docs, i, d, IsOwnedBy(u));
        SameOwnedSameListing(docs[i := d], docs, u);
      }
      docs := docs[i := d];
      status, sent := Ok, Some(ViewOf(d));
    }

    /** `DELETE /:id`: after the ownership check the post is gone, so a second
        delete of the same id answers 404. */
    method Delete(requester: Id, id: Id) returns (status: Status)
      requires Valid()
      modifies this
      ensures Valid()
      ensures status == Access(old(docs), requester, id)
      ensures status != Ok ==> docs == old(docs)
      ensures status == Ok ==>
        var i := IndexOfPost(old(docs), id);
        docs == old(docs)[..i] + old(docs)[i + 1..]
      ensures status == Ok ==> forall u :: Access(docs, u, id) == NotFound
      ensures forall u :: u != requester ==> ListPosts(docs, u) == ListPosts(old(docs), u)
    {
      var i := IndexOfPost(docs, id);
      if i == |docs| {
        return NotFound;
      }
      if docs[i].fields.userId != requester {
        return Unauthorized;
      }
      forall u | u != requester ensures ListPosts(docs[..i] + docs[i + 1..], u) == ListPosts(docs, u) {
        FilterRemoveAt(docs, i, IsOwnedBy(u));
        SameOwnedSameListing(docs[..i] + docs[i + 1..], docs, u);
      }
      RemoveKeepsUnique(docs, i);
      var rest := docs[..i] + docs[i + 1..];
      assert forall d :: d in rest ==> d in docs;
      docs := rest;
      status := Ok;
    }

    /** `POST /:id/comments`: any authenticated user may comment on an existing
        post; the comment is appended and the post saved, which fails with 500
        when the comment or the stored post does not validate. */
    method AddComment(requester: Id, username: string, postId: Id, content: Option<string>,
                      freshId: Id, now: Millis)
      returns (status: Status, sent: Option<CommentView>)
      requires Valid()
      requires forall d, c :: d in docs && c in d.fields.comments ==> c.docId != freshId
      modifies this
      ensures Valid()
      ensures IndexOfPost(old(docs), postId) == |old(docs)| ==>
        status == NotFound && docs == old(docs) && sent == None
      ensures IndexOfPost(old(docs), postId) < |old(docs)| ==>
        var i := IndexOfPost(old(docs), postId);
        var post := old(docs)[i];
        var made := NewCommentDoc(freshId, requester, username, content, now);
        if made.Success? && Savable(post.fields) then
          && status == Ok
          && docs == old(docs)[i := post.(fields := post.fields.(comments := post.fields.comments + [made.value]))]
          && sent == Some(CommentView(freshId, made.value.fields))
          && sent.value.id == Last(docs[i].fields.comments).docId
        else
          status == ServerError && docs == old(docs) && sent == None
    {
      var i := IndexOfPost(docs, postId);
      if i == |docs| {
        return NotFound, None;
      }
      var post := docs[i];
      var made := NewCommentDoc(freshId, requester, username, content, now);
      if made.Failure? || !Savable(post.fields) {
        return ServerError, None;
      }
      var c := made.value;
      var cs := post.fields.comments + [c];
      assert post in docs;
      AppendCommentKeepsValid(post.fields.comments, c);
      ReplaceKeepsUnique(docs, i, post.(fields := post.fields.(comments := cs)));
      docs := docs[i := post.(fields := post.fields.(comments := cs))];
      status, sent := Ok, Some(CommentView(freshId, c.fields));
    }

    /** `DELETE /:id/comments/:commentId`: the comment's author or the post's
        owner removes that one comment and the post is saved again. */
    method DeleteComment(requester: Id, postId: Id, commentId: Id) returns (status: Status)
      requires Valid()
      modifies this
      ensures Valid()
      ensures var access := CommentAccess(old(docs), requester, postId, commentId);
        access != Ok ==> status == access && docs == old(docs)
      ensures CommentAccess(old(docs), requester, postId, commentId) == Ok ==>
        var i := IndexOfPost(old(docs), postId);
        var post := old(docs)[i];
        var cs := post.fields.comments;
        var j := IndexOfComment(cs, commentId);
        if Savable(post.fields) then
          status == Ok && docs == old(docs)[i := post.(fields := post.fields.(comments := cs[..j] + cs[j + 1..]))]
        else
          status == ServerError && docs == old(docs)
    {
      var i := IndexOfPost(docs, postId);
      if i == |docs| {
        return NotFound;
      }
      var post := docs[i];
      var cs := post.fields.comments;
      var j := IndexOfComment(cs, commentId);
      if j == |cs| {
        return NotFound;
      }
      if cs[j].fields.userId != requester && post.fields.userId != requester {
        return Unauthorized;
      }
      if !Savable(post.fields) {
        return ServerError;
      }
      RemoveCommentKeepsValid(cs, j);
      docs := docs[i := post.(fields := post.fields.(comments := cs[..j] + cs[j + 1..]))];
      status := Ok;
    }
  }
}
