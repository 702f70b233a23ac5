/** The stored shape of a post and of its embedded comments, with the schema's
    required paths, the colour-theme enumeration and the defaults. */
module PostModel {
  import opened Wrappers
  import opened JournalTypes
  import opened Mongoose

  datatype CommentFields = CommentFields(
    userId: Id, username: string, content: string, createdAt: Millis)

  /** An embedded comment, with the `_id` Mongoose gives every subdocument. */
  datatype CommentDoc = CommentDoc(docId: Id, fields: CommentFields)

  datatype PostFields = PostFields(
    userId: Id, title: string, content: string,
    mood: Option<string>, tags: seq<string>, category: Option<string>,
    images: seq<string>, aiSummary: Option<string>, colorTheme: ColorTheme,
    comments: seq<CommentDoc>, createdAt: Millis, updatedAt: Millis)

  /** A stored post document: its `_id` and everything else. */
  datatype PostDoc = PostDoc(docId: Id, fields: PostFields)

  /** A comment object inside a JSON body; each property may be missing. */
  datatype CommentBody = CommentBody(
    userId: Option<Id>, username: Option<string>, content: Option<string>, createdAt: Option<Millis>)

  /** A JSON object offered to `new Post(...)`; each property may be missing. */
  datatype PostBody = PostBody(
    userId: Option<Id>, title: Option<string>, content: Option<string>,
    mood: Option<string>, tags: Option<seq<string>>, category: Option<string>,
    images: Option<seq<string>>, aiSummary: Option<string>, colorTheme: Option<string>,
    comments: Option<seq<CommentBody>>, createdAt: Option<Millis>, updatedAt: Option<Millis>)

  /** The body's `comments` array, a missing one read as empty. */
  function BodyComments(b: PostBody): seq<CommentBody> {
    if b.comments.Some? then b.comments.value else []
  }

  /** A comment the embedded schema accepts: an author id and a non-empty name and text. */
  predicate CommentAccepted(c: CommentBody) {
    Required(c.userId) && RequiredString(c.username) && RequiredString(c.content)
  }

  /** Every comment of the body is accepted. */
  predicate CommentsAccepted(b: PostBody) {
    forall i :: 0 <= i < |BodyComments(b)| ==> CommentAccepted(BodyComments(b)[i])
  }

  /** The embedded comment cast from an accepted `c`, with `_id` `id`; its
      `createdAt` defaults to now. */
  function CommentOf(c: CommentBody, id: Id, now: Millis): CommentDoc
    requires CommentAccepted(c)
  {
    CommentDoc(id, CommentFields(c.userId.value, c.username.value, c.content.value,
      if c.createdAt.Some? then c.createdAt.value else now))
  }

  /** A `colorTheme` value the enumeration accepts; a missing one is defaulted. */
  predicate ThemeAccepted(o: Option<string>) {
    o.None? || ParseTheme(o.value).Some?
  }

  /** The paths that fail validation, in schema order. */
  function PostErrors(b: PostBody): (errs: seq<string>)
    ensures errs == [] <==>
      && Required(b.userId) && RequiredString(b.title) && RequiredString(b.content)
      && ThemeAccepted(b.colorTheme) && CommentsAccepted(b)
  {
    Check(Required(b.userId), "userId") + Check(RequiredString(b.title), "title")
      + Check(RequiredString(b.content), "content") + Check(ThemeAccepted(b.colorTheme), "colorTheme")
      + Check(CommentsAccepted(b), "comments")
  }

  /** `new Post(b).save()` with `_id` `id` at time `now`: the validated document
      with the schema defaults filled in, or the failing paths. The body's
      comments get the `_id`s `commentIds`, one each. */
  function NewPostDoc(b: PostBody, id: Id, commentIds: seq<Id>, now: Millis): (r: Result<PostDoc, seq<string>>)
    requires |commentIds| == |BodyComments(b)|
    ensures r.Failure? <==> PostErrors(b) != []
    ensures r.Failure? ==> r.error == PostErrors(b)
  {
    var errs := PostErrors(b);
    if errs != [] then Failure(errs)
    else
      Success(PostDoc(id, PostFields(
        b.userId.value, b.title.value, b.content.value,
        b.mood, if b.tags.Some? then b.tags.value else [], b.category,
        if b.images.Some? then b.images.value else [], b.aiSummary,
        if b.colorTheme.Some? then ParseTheme(b.colorTheme.value).value else Yellow,
        seq(|BodyComments(b)|, i requires 0 <= i < |BodyComments(b)| =>
          CommentOf(BodyComments(b)[i], commentIds[i], now)),
        if b.createdAt.Some? then b.createdAt.value else now,
        if b.updatedAt.Some? then b.updatedAt.value else now)))
  }

  /** A saved post keeps the body's values and takes the defaults for the rest:
      tags, images and comments start empty and the theme is yellow. Each body
      comment is stored in place with its own values and a new `_id`. */
  lemma NewPostDefaults(b: PostBody, id: Id, commentIds: seq<Id>, now: Millis)
    requires |commentIds| == |BodyComments(b)|
    requires NewPostDoc(b, id, commentIds, now).Success?
    ensures var f := NewPostDoc(b, id, commentIds, now).value.fields;
      && NewPostDoc(b, id, commentIds, now).value.docId == id
      && Some(f.userId) == b.userId && Some(f.title) == b.title && Some(f.content) == b.content
      && f.title != "" && f.content != ""
      && f.mood == b.mood && f.category == b.category && f.aiSummary == b.aiSummary
      && (b.tags.None? ==> f.tags == []) && (b.tags.Some? ==> f.tags == b.tags.value)
      && (b.images.None? ==> f.images == []) && (b.images.Some? ==> f.images == b.images.value)
      && (b.colorTheme.None? ==> f.colorTheme == Yellow)
      && (b.colorTheme.Some? ==> ThemeName(f.colorTheme) == b.colorTheme.value)
      && (b.comments.None? ==> f.comments == []) && |f.comments| == |BodyComments(b)|
      && (forall i :: 0 <= i < |f.comments| ==>
            && f.comments[i].docId == commentIds[i]
            && Some(f.comments[i].fields.userId) == BodyComments(b)[i].userId
            && Some(f.comments[i].fields.username) == BodyComments(b)[i].username
            && Some(f.comments[i].fields.content) == BodyComments(b)[i].content
            && f.comments[i].fields.username != "" && f.comments[i].fields.content != ""
            && (BodyComments(b)[i].createdAt.None? ==> f.comments[i].fields.createdAt == now)
            && (BodyComments(b)[i].createdAt.Some? ==>
                  f.comments[i].fields.createdAt == BodyComments(b)[i].createdAt.value))
      && (b.createdAt.None? ==> f.createdAt == now) && (b.updatedAt.None? ==> f.updatedAt == now)
  {
  }

  /** A pushed comment `{userId, username, content, createdAt}` once the embedded
      schema has checked it: the author's name and the text are required strings
      (the author's id always comes from the authenticated request). */
  function NewCommentDoc(id: Id, userId: Id, username: string, content: Option<string>, createdAt: Millis)
    : (r: Result<CommentDoc, seq<string>>)
    ensures r.Success? <==> username != "" && RequiredString(content)
    ensures r.Success? ==> r.value == CommentDoc(id, CommentFields(userId, username, content.value, createdAt))
  {
    var errs := Check(username != "", "username") + Check(RequiredString(content), "content");
    if errs != [] then Failure(errs)
    else Success(CommentDoc(id, CommentFields(userId, username, content.value, createdAt)))
  }
}
