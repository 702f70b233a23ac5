/** The client-side record types: users, comments, reminders and diary posts. */
module JournalTypes {
  import opened Wrappers

  type Id = string

  /** Milliseconds since the epoch, as `Date.now()` returns them. */
  type Millis = int

  datatype ColorTheme = Red | Blue | Green | Yellow | Purple

  datatype User = User(id: Id, username: string, email: string)

  datatype Comment = Comment(
    id: Id, postId: Id, userId: Id, username: string, content: string, createdAt: Millis)

  datatype Reminder = Reminder(
    id: Id, userId: Id, title: string, message: string,
    scheduledTime: Millis, isActive: bool, createdAt: Millis)

  /** A diary post; `None` stands for an absent optional property. */
  datatype BlogPost = BlogPost(
    id: Id, userId: Id, title: string, content: string,
    createdAt: Millis, updatedAt: Millis,
    mood: Option<string>, tags: seq<string>, category: Option<string>,
    images: Option<seq<string>>, aiSummary: Option<string>,
    colorTheme: ColorTheme, comments: Option<seq<Comment>>)

  /** A post without the fields the store assigns: id, timestamps, owner and comments. */
  datatype BlogPostInput = BlogPostInput(
    title: string, content: string, mood: Option<string>, tags: seq<string>,
    category: Option<string>, images: Option<seq<string>>, aiSummary: Option<string>,
    colorTheme: ColorTheme)

  /** The text of each colour theme, as stored and sent over the wire. */
  function ThemeName(c: ColorTheme): string {
    match c
    case Red => "red"
    case Blue => "blue"
    case Green => "green"
    case Yellow => "yellow"
    case Purple => "purple"
  }

  /** Reads a colour theme back from its text; any other string is not a theme. */
  function ParseTheme(s: string): (r: Option<ColorTheme>)
    ensures r.Some? ==> ThemeName(r.value) == s
  {
    if s == "red" then Some(Red)
    else if s == "blue" then Some(Blue)
    else if s == "green" then Some(Green)
    else if s == "yellow" then Some(Yellow)
    else if s == "purple" then Some(Purple)
    else None
  }

  /** Exactly five strings are themes, and each theme reads back as itself. */
  lemma ThemeRoundTrip(c: ColorTheme)
    ensures ParseTheme(ThemeName(c)) == Some(c)
  {
  }

  /** JavaScript truthiness of an optional string: present and not empty. */
  predicate Truthy(o: Option<string>) {
    o.Some? && o.value != ""
  }

  /** `Omit<BlogPost, 'id' | 'createdAt' | 'updatedAt' | 'userId' | 'comments'>`. */
  function InputOf(p: BlogPost): (r: BlogPostInput)
    ensures r.title == p.title && r.content == p.content && r.tags == p.tags
  {
    BlogPostInput(p.title, p.content, p.mood, p.tags, p.category, p.images, p.aiSummary, p.colorTheme)
  }

  /** `{...input, id, userId, createdAt, updatedAt}`: a stored post built from an input. */
  function PostOf(input: BlogPostInput, id: Id, userId: Id, createdAt: Millis, updatedAt: Millis): (p: BlogPost)
    ensures p.id == id && p.userId == userId && p.createdAt == createdAt && p.updatedAt == updatedAt
    ensures p.comments == None
  {
    BlogPost(id, userId, input.title, input.content, createdAt, updatedAt,
      input.mood, input.tags, input.category, input.images, input.aiSummary,
      input.colorTheme, None)
  }

  /** An input is exactly a post with the five store-assigned fields left out:
      adding them and omitting them again gives the input back, and a post
      without comments is rebuilt from its input and those five fields. */
  lemma InputRoundTrip(input: BlogPostInput, p: BlogPost)
    ensures InputOf(PostOf(input, p.id, p.userId, p.createdAt, p.updatedAt)) == input
    ensures p.comments == None ==> PostOf(InputOf(p), p.id, p.userId, p.createdAt, p.updatedAt) == p
  {
  }
}
