/** The post editor's state and the list helpers behind it: tag merging after
    an analysis, the comma-separated tag box, the four-image cap and image
    removal, and the input record handed to the store on submit. */
module PostEditor {
  import opened Wrappers
  import opened JournalTypes
  import opened Seqs
  import opened Text

  const DefaultCategory := "日常生活"
  const PredefinedCategories := ["日常生活", "心情隨筆", "旅遊", "美食", "工作/學習", "靈感"]
  const MaxImages := 4
  const TooManyImages := "最多只能上傳 4 張照片喔！"

  /** The editor's fields, each a piece of component state. */
  datatype Editor = Editor(
    title: string, content: string, tags: seq<string>, mood: string,
    category: string, images: seq<string>, summary: string, colorTheme: ColorTheme)

  /** `x || fallback` for an optional string. */
  function OrElse(o: Option<string>, fallback: string): (r: string)
    ensures Truthy(o) ==> r == o.value
    ensures !Truthy(o) ==> r == fallback
  {
    if Truthy(o) then o.value else fallback
  }

  /** The state the editor opens with: the fields of the post being edited, an
      empty string for a missing text, and for a new post the category
      `日常生活` and the yellow theme. */
  function Open(initial: Option<BlogPost>): (e: Editor)
    ensures initial.None? ==>
      e == Editor("", "", [], "", DefaultCategory, [], "", Yellow)
    ensures initial.Some? ==>
      && e.title == initial.value.title && e.content == initial.value.content
      && e.tags == initial.value.tags && e.colorTheme == initial.value.colorTheme
      && e.mood == OrElse(initial.value.mood, "")
      && e.category == OrElse(initial.value.category, DefaultCategory)
      && e.summary == OrElse(initial.value.aiSummary, "")
      && e.images == (if initial.value.images.Some? then initial.value.images.value else [])
  {
    match initial
    case None => Editor("", "", [], "", DefaultCategory, [], "", Yellow)
    case Some(p) =>
      Editor(p.title, p.content, p.tags, OrElse(p.mood, ""), OrElse(p.category, DefaultCategory),
             if p.images.Some? then p.images.value else [], OrElse(p.aiSummary, ""), p.colorTheme)
  }

  /** `handleSubmit`: every field goes out as it stands. */
  function Submit(e: Editor): (r: BlogPostInput)
    ensures r.title == e.title && r.content == e.content && r.tags == e.tags
    ensures r.mood == Some(e.mood) && r.category == Some(e.category)
    ensures r.images == Some(e.images) && r.aiSummary == Some(e.summary)
    ensures r.colorTheme == e.colorTheme
  {
    BlogPostInput(e.title, e.content, Some(e.mood), e.tags, Some(e.category), Some(e.images),
                  Some(e.summary), e.colorTheme)
  }

  /** `images || []`. */
  function ImagesOr(images: Option<seq<string>>): seq<string> {
    if images.Some? then images.value else []
  }

  /** Opening a post and saving it untouched hands back that post's input, except
      that a missing or empty mood or summary goes out as "", a missing or empty
      category as `日常生活`, and missing images as none; a post whose optional
      texts are all set comes back exactly. A new post is saved as a `日常生活`
      post in yellow. */
  lemma OpenSubmitRoundTrip(p: BlogPost)
    ensures Submit(Open(Some(p))) == InputOf(p).(
      mood := Some(OrElse(p.mood, "")), category := Some(OrElse(p.category, DefaultCategory)),
      images := Some(ImagesOr(p.images)), aiSummary := Some(OrElse(p.aiSummary, "")))
    ensures Truthy(p.mood) && Truthy(p.category) && Truthy(p.aiSummary) && p.images.Some? ==>
      Submit(Open(Some(p))) == InputOf(p)
    ensures !Truthy(p.category) ==> Submit(Open(Some(p))).category == Some(DefaultCategory)
    ensures Submit(Open(None)).category == Some(DefaultCategory) && Submit(Open(None)).colorTheme == Yellow
    ensures DefaultCategory == PredefinedCategories[0]
  {
  }

  /** Saving the editor and opening the saved post shows the same fields again,
      except that an empty category comes back as `日常生活`. */
  lemma SubmitOpenRoundTrip(e: Editor, id: Id, u: Id, createdAt: Millis, updatedAt: Millis)
    ensures Open(Some(PostOf(Submit(e), id, u, createdAt, updatedAt)))
      == e.(category := if e.category == "" then DefaultCategory else e.category)
    ensures e.category != "" ==> Open(Some(PostOf(Submit(e), id, u, createdAt, updatedAt))) == e
  {
  }

  /** `Array.from(new Set([...prev, ...added]))`. */
  function MergeTags(prev: seq<string>, added: seq<string>): (r: seq<string>)
    ensures NoDup(r)
    ensures forall t :: t in r <==> t in prev || t in added
  {
    Distinct(prev + added)
  }

  /** Existing tags stay first and in their order; only new ones are appended,
      each once, in the order the analysis gave them. */
  lemma MergeKeepsExisting(prev: seq<string>, added: seq<string>)
    ensures MergeTags(prev, added) == Distinct(prev) + Distinct(Without(added, prev))
    ensures NoDup(prev) ==> MergeTags(prev, added) == prev + Distinct(Without(added, prev))
    ensures |MergeTags(prev, added)| >= |Distinct(prev)|
  {
    DistinctAppend(prev, added);
    if NoDup(prev) {
      DistinctOfNoDup(prev);
    }
  }

  /** What the analysis service returns. */
  datatype Analysis = Analysis(mood: string, summary: string, tags: seq<string>)

  /** The result the service returns when the request or the parsing of the
      reply fails. */
  const Fallback := Analysis("neutral", "暫時無法生成摘要。", ["日記"])

  /** `handleAnalyze`: nothing happens for blank content or when the call
      throws (`None`, which only a missing API key causes); otherwise the mood
      and summary are replaced and the tags merged. */
  function Analyze(e: Editor, result: Option<Analysis>): (r: Editor)
    ensures Trim(e.content) == "" || result.None? ==> r == e
    ensures Trim(e.content) != "" && result.Some? ==>
      r == e.(mood := result.value.mood, summary := result.value.summary,
              tags := MergeTags(e.tags, result.value.tags))
    ensures r.title == e.title && r.content == e.content && r.images == e.images
    ensures r.category == e.category && r.colorTheme == e.colorTheme
    ensures forall t :: t in e.tags ==> t in r.tags
    ensures NoDup(e.tags) ==> e.tags <= r.tags
  {
    if Trim(e.content) == "" then e
    else match result
      case None => e
      case Some(a) =>
        MergeKeepsExisting(e.tags, a.tags);
        e.(mood := a.mood, summary := a.summary, tags := MergeTags(e.tags, a.tags))
  }

  /** When the service falls back, a non-blank entry gets the mood "neutral",
      the fallback summary and the tag 日記, and keeps its other tags. */
  lemma AnalyzeFallback(e: Editor)
    ensures var r := Analyze(e, Some(Fallback));
      Trim(e.content) != "" ==>
        && r.mood == "neutral" && r.summary == "暫時無法生成摘要。" && "日記" in r.tags
        && (forall t :: t in r.tags <==> t in e.tags || t == "日記")
  {
  }

  /** Analysing twice with the same result leaves the tags as after once. */
  lemma AnalyzeTwice(e: Editor, a: Analysis)
    ensures Analyze(Analyze(e, Some(a)), Some(a)) == Analyze(e, Some(a))
  {
    MergeTagsTwice(e.tags, a.tags);
  }

  /** Merging the same tags a second time adds nothing. */
  lemma MergeTagsTwice(prev: seq<string>, added: seq<string>)
    ensures MergeTags(MergeTags(prev, added), added) == MergeTags(prev, added)
  {
    var t := MergeTags(prev, added);
    DistinctAppend(t, added);
    DistinctOfNoDup(t);
    NoneWithout(added, t);
  }

  lemma NoneWithout(s: seq<string>, a: seq<string>)
    requires forall x :: x in s ==> x in a
    ensures Without(s, a) == []
  {
  }

  /** `map(t => t.trim())`. */
  function TrimAll(ts: seq<string>): (r: seq<string>)
    ensures |r| == |ts|
    ensures forall k :: 0 <= k < |ts| ==> r[k] == Trim(ts[k])
    ensures forall k :: 0 <= k < |r| ==> Trim(r[k]) == r[k]
  {
    TrimmedAll(ts);
    seq(|ts|, k requires 0 <= k < |ts| => Trim(ts[k]))
  }

  lemma TrimmedAll(ts: seq<string>)
    ensures forall k :: 0 <= k < |ts| ==> Trim(Trim(ts[k])) == Trim(ts[k])
  {
    forall k | 0 <= k < |ts| ensures Trim(Trim(ts[k])) == Trim(ts[k]) {
      TrimIdempotent(ts[k]);
    }
  }

  function NonEmpty(t: string): bool {
    t != ""
  }

  /** A tag as the tag box produces it: non-empty, trimmed, without a comma. */
  predicate CleanTag(t: string) {
    t != "" && Trim(t) == t && ',' !in t
  }

  /** A comma-free piece, once trimmed, is a clean tag unless it is empty. */
  lemma TrimmedPiece(piece: string)
    requires ',' !in piece
    ensures Trim(piece) == "" || CleanTag(Trim(piece))
  {
    TrimIdempotent(piece);
    var t := Trim(piece);
    assert forall i :: 0 <= i < |t| ==> t[i] != ',';
  }

  /** The tag box: `split(',').map(t => t.trim()).filter(Boolean)`. */
  function ParseTags(text: string): (r: seq<string>)
    ensures forall t :: t in r ==> t != ""
  {
    Filter(TrimAll(Split(text, ',')), NonEmpty)
  }

  lemma TrimAllOrigin(pieces: seq<string>, t: string)
    requires t in TrimAll(pieces)
    ensures exists k :: 0 <= k < |pieces| && t == Trim(pieces[k])
  {
  }

  lemma ParsedTagOrigin(text: string, t: string)
    requires t in ParseTags(text)
    ensures exists k :: 0 <= k < |Split(text, ',')| && t == Trim(Split(text, ',')[k])
  {
    var pieces := Split(text, ',');
    assert t in TrimAll(pieces);
    TrimAllOrigin(pieces, t);
  }

  lemma ParsedTagClean(text: string, t: string)
    requires t in ParseTags(text)
    ensures CleanTag(t)
  {
    ParsedTagOrigin(text, t);
    var pieces := Split(text, ',');
    var k :| 0 <= k < |pieces| && t == Trim(pieces[k]);
    TrimmedPiece(pieces[k]);
  }

  /** Every parsed tag is non-empty, trimmed and free of commas. */
  lemma ParsedTagsClean(text: string)
    ensures forall t :: t in ParseTags(text) ==> CleanTag(t)
  {
    forall t | t in ParseTags(text) ensures CleanTag(t) {
      ParsedTagClean(text, t);
    }
  }

  /** Showing tags as `join(', ')` and reading the box back gives the same tags
      whenever they are clean, which is always the case for parsed tags. */
  lemma ParseJoinRoundTrip(tags: seq<string>)
    requires forall t :: t in tags ==> CleanTag(t)
    ensures ParseTags(Join(tags, ", ")) == tags
  {
    if tags == [] {
      assert Split("", ',') == [""];
      assert TrimAll([""]) == [""];
      assert Filter([""], NonEmpty) == [] by { assert Init([""]) == []; }
    } else {
      forall k | 0 <= k < |tags| ensures ',' !in tags[k] {
        assert tags[k] in tags;
      }
      SplitJoin("", tags);
      assert "" + Join(tags, ", ") == Join(tags, ", ");
      assert "" + tags[0] == tags[0];
      var pieces := [tags[0]] + SpacePrefixed(tags[1..]);
      TrimAllSpacePrefixed(tags);
      FilterAll(tags, NonEmpty);
    }
  }

  lemma {:induction false} SpacePrefixedAt(ts: seq<string>, k: nat)
    requires k < |ts|
    ensures SpacePrefixed(ts)[k] == " " + ts[k]
    decreases |ts|
  {
    if k > 0 {
      SpacePrefixedAt(ts[1..], k - 1);
    }
  }

  lemma TrimmedPieceAt(tags: seq<string>, k: nat)
    requires k < |tags| && CleanTag(tags[k])
    ensures Trim(([tags[0]] + SpacePrefixed(tags[1..]))[k]) == tags[k]
  {
    var pieces := [tags[0]] + SpacePrefixed(tags[1..]);
    if k > 0 {
      assert pieces[k] == SpacePrefixed(tags[1..])[k - 1];
      SpacePrefixedAt(tags[1..], k - 1);
      assert tags[1..][k - 1] == tags[k];
      TrimSpacePrefix(tags[k]);
    } else {
      assert pieces[0] == tags[0];
    }
  }

  lemma TrimAllSpacePrefixed(tags: seq<string>)
    requires tags != [] && forall t :: t in tags ==> CleanTag(t)
    ensures TrimAll([tags[0]] + SpacePrefixed(tags[1..])) == tags
  {
    var pieces := [tags[0]] + SpacePrefixed(tags[1..]);
    var r := TrimAll(pieces);
    forall k | 0 <= k < |tags| ensures r[k] == tags[k] {
      assert tags[k] in tags;
      TrimmedPieceAt(tags, k);
    }
    assert |r| == |tags|;
  }

  /** Reparsing what the box shows for parsed tags changes nothing. */
  lemma ParseTagsStable(text: string)
    ensures ParseTags(Join(ParseTags(text), ", ")) == ParseTags(text)
  {
    ParsedTagsClean(text);
    ParseJoinRoundTrip(ParseTags(text));
  }

  /** Every file was read: each `FileReader` promise resolved. */
  predicate AllRead(files: seq<Option<string>>) {
    forall k :: 0 <= k < |files| ==> files[k].Some?
  }

  /** The data URLs of files that were all read, in file order. */
  function DataUrls(files: seq<Option<string>>): (r: seq<string>)
    requires AllRead(files)
    ensures |r| == |files|
    ensures forall k :: 0 <= k < |files| ==> r[k] == files[k].value
  {
    seq(|files|, k requires 0 <= k < |files| && AllRead(files) => files[k].value)
  }

  /** `handleImageUpload`, one entry of `files` per chosen file (`None` for a
      file the reader fails on): an upload that would bring the total above four
      is refused; otherwise, when every file is read, the data URLs follow the
      current images, and when one read fails `Promise.all` rejects and nothing
      is added. */
  function Upload(images: seq<string>, files: seq<Option<string>>): (r: Result<seq<string>, string>)
    ensures r.Failure? <==> |images| + |files| > MaxImages
    ensures r.Failure? ==> r.error == TooManyImages
    ensures r.Success? && AllRead(files) ==> r.value == images + DataUrls(files)
    ensures r.Success? && !AllRead(files) ==> r.value == images
    ensures r.Success? ==> images <= r.value && |r.value| <= MaxImages
  {
    if |images| + |files| > MaxImages then Failure(TooManyImages)
    else if AllRead(files) then Success(images + DataUrls(files))
    else Success(images)
  }

  /** `prev.filter((_, i) => i !== index)`: the images at every other position. */
  function RemoveImage(images: seq<string>, index: int): (r: seq<string>)
    ensures |r| <= |images|
  {
    if images == [] then []
    else RemoveImage(Init(images), index) + (if |images| - 1 != index then [Last(images)] else [])
  }

  /** Removing position `index` drops exactly that image and keeps the others in
      order; an index outside the list removes nothing. */
  lemma {:induction false} RemoveImageSpec(images: seq<string>, index: int)
    ensures 0 <= index < |images| ==> RemoveImage(images, index) == images[..index] + images[index + 1..]
    ensures !(0 <= index < |images|) ==> RemoveImage(images, index) == images
    decreases |images|
  {
    if images != [] {
      var s := Init(images);
      RemoveImageSpec(s, index);
      if 0 <= index < |s| {
        assert images[..index] == s[..index];
        assert images[index + 1..] == s[index + 1..] + [Last(images)];
      } else if index == |s| {
        assert images[..index] == s;
      }
    }
  }

  /** Uploads and removals never take the editor above four images once it is
      at or below four. */
  lemma ImageCapKept(images: seq<string>, files: seq<Option<string>>, index: int)
    requires |images| <= MaxImages
    ensures Upload(images, files).Success? ==> |Upload(images, files).value| <= MaxImages
    ensures |RemoveImage(images, index)| <= MaxImages
    ensures 0 <= index < |images| ==> |RemoveImage(images, index)| == |images| - 1
  {
    RemoveImageSpec(images, index);
  }
}
