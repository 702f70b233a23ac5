# Doodle journal: a verified model of its stores, queries and reminder check

The journaling app keeps diary posts, comments on them and timed reminders for
each user. It has two back ends:

- a browser-only mock that keeps every user's posts and a users table in local
  storage;
- an Express/Mongoose server with post, comment and reminder routes guarded by
  ownership checks.

The React front end filters and aggregates the loaded posts. It shows a
calendar, edits posts and fires due reminders.

This project models that core in Dafny and proves what it promises. It has three parts.

**Owner-scoped stores**, which are classes whose methods change their state.

- `LocalStorage.LocalPostStore` is the mock post array. The current user is a parameter.
- `PostRoutes.PostCollection` holds the post documents with their embedded comments.
- `ReminderRoutes.ReminderCollection` holds the reminder documents.
- `MockAuth.AuthService` holds the users table, the token and the current user.

The document shapes and the schema validation with its defaults are in
`PostModel`, `ReminderModel` and `JournalTypes`. Each route returns a `Status`:
`Ok`, `NotFound` (404), `Unauthorized` (401) or `ServerError` (500).

**Queries over a snapshot of posts.**

- `PostList` covers the conjunctive list filter and the mood and tag choices.
- `AdvancedFilter` covers the filter state: merge, toggles, clear and the badge.
- `MoodStats` covers the mood and tag counting, the top-ten tags and the counters.
- `Calendar` covers the day buckets and the cell preview and click rules. The day
  of a timestamp is an uninterpreted function `dayKey`.
- `PostEditor` covers the editor's defaults, the tag merge, tag parsing, the
  four-image cap and image removal.

**The reminder check.** `ReminderManager` covers:

- one run of `checkReminders` at a given instant;
- the active/past split;
- form submission, connected to the server's reminder schema.

Helper modules: `Seqs` (filter, distinct, remove and first index on sequences),
`Text` (JavaScript `trim`, `split`, `join` and ASCII lower-casing), `Sorting`
(a stable sort by a numeric key, as `Array.prototype.sort` performs; it also
stands for Mongo's `sort`, whose order of ties is unspecified) and `Tally` (a `Record<string, number>`
counter, which keeps its keys in insertion order).

Two details of the routes shape the model:

- The update and delete routes answer 404 for an unknown id before they answer
  401 for a foreign one.
- Adding a comment does not trim its text. Only an empty string is rejected, by
  the schema's `required`.

## Model

| member | source | states |
|---|---|---|
| JournalTypes.ParseTheme | types.ts:43 | a theme name parses only to the theme of that name |
| JournalTypes.ThemeRoundTrip | server/models/Post.js:42-46 | every one of the five themes reads back from its name |
| JournalTypes.InputOf | types.ts:47 | the input record keeps title, content and tags of the post |
| JournalTypes.PostOf | types.ts:31-47 | a post made from an input carries the given id, owner and timestamps and no comments |
| JournalTypes.InputRoundTrip | types.ts:47 | dropping id, owner, timestamps and comments is inverse to adding them: input → post → input is the identity, and post → input → post is too for a post without comments |
| Mongoose.Check | server/models/Post.js:24-36 | a path is reported as failing exactly when its test fails |
| PostModel.PostErrors | server/models/Post.js:23-56 | a post body validates iff userId is present, title and content are non-empty strings, colorTheme is absent or one of the five, and every comment in it has an author id and a non-empty username and content |
| PostModel.NewPostDoc | server/models/Post.js:23-56 | saving fails exactly when validation fails, and reports the failing paths |
| PostModel.NewPostDefaults | server/models/Post.js:3-55 | a saved post keeps the body's values; tags, images and comments default to empty, the theme to yellow and the timestamps to now; each body comment is stored in place with its own author, name and text, a new `_id` and createdAt defaulting to now |
| PostModel.NewCommentDoc | server/models/Post.js:3-21 | an embedded comment is accepted iff username and content are non-empty, and then holds exactly the author, text and time given |
| ReminderModel.ReminderErrors | server/models/Reminder.js:3-29 | a reminder body validates iff userId, a non-empty title and message, and scheduledTime are present |
| ReminderModel.NewReminderDoc | server/models/Reminder.js:3-29 | saving fails exactly when validation fails, with the failing paths |
| ReminderModel.NewReminderDefaults | server/models/Reminder.js:21-28 | a saved reminder keeps the body's values, is active unless the body says otherwise and is created now unless the body says otherwise |
| PostRoutes.IndexOfPost | server/routes/posts.js:44 | the position found holds the id, and the end position means no document has it |
| PostRoutes.IndexOfComment | server/routes/posts.js:114 | the same for a comment id among a post's comments |
| PostRoutes.OwnedBy | server/routes/posts.js:9 | exactly the documents of that owner |
| PostRoutes.Views | server/routes/posts.js:11-15 | each document is sent with its `_id` as `id`, one view per document, in order |
| PostRoutes.NewestFirstOrder | server/routes/posts.js:9 | sorting by the descending key orders by createdAt, newest first |
| PostRoutes.ListPosts | server/routes/posts.js:7-21 | one view per post the requester owns |
| PostRoutes.ListPostsSpec | server/routes/posts.js:7-21 | the listing holds exactly the requester's posts, as views, newest first |
| PostRoutes.SameOwnedSameListing | server/routes/posts.js:9 | a user's listing depends only on that user's documents |
| PostRoutes.Access | server/routes/posts.js:46-49 | 404 iff no post has the id; otherwise 200 for the owner and 401 for anyone else, never 500 |
| PostRoutes.SameIdSamePost | server/routes/posts.js:44 | with unique ids, one id names one document |
| PostRoutes.AccessIsOwnership | server/routes/posts.js:69-72 | for an existing post, access is granted iff the requester owns it and refused with 401 iff not |
| PostRoutes.SetFieldsAsWritten | server/routes/posts.js:51-56 | the raw `$set`: updatedAt is now and the comments stay; an empty body changes only updatedAt |
| PostRoutes.AsWrittenUpdateGivesPostAway | server/routes/posts.js:51-56 | as written, an owner's update naming another userId moves the post into that user's listing and out of the owner's |
| PostRoutes.SetFields | server/routes/posts.js:51-56 | the corrected update keeps the owner and the comments and stamps updatedAt |
| PostRoutes.SetFieldsChangesOnlyPresent | server/routes/posts.js:51-56 | each property present in the body is replaced and each absent one is kept |
| PostRoutes.StampedAsWritten | server/routes/posts.js:26-31 | owner, createdAt and updatedAt come from the server, whatever the body says; the other properties, comments included, are the body's |
| PostRoutes.CreateAsWritten | server/routes/posts.js:24-33 | as written, creation fails exactly when the body or one of its comments fails validation; a created post belongs to the requester, is stamped now and holds the body's comments with the authors the client named |
| PostRoutes.AsWrittenCreateForgesComment | server/routes/posts.js:26-31 | as written, an accepted body whose comment names another user creates the requester's post holding a comment attributed to that user |
| PostRoutes.Stamped | server/routes/posts.js:26-31 | the corrected stamping: as written, but the client's comments are dropped |
| PostRoutes.CreateStampsOwner | server/routes/posts.js:24-39 | with the corrected stamping, creation fails exactly when title, content or theme fails validation; a created post belongs to the requester, is stamped now and has no comments |
| PostRoutes.CommentDeletionRule | server/routes/posts.js:112-119 | deletion of an existing comment is allowed iff the requester is its author or the post's owner |
| PostRoutes.CommentMissing | server/routes/posts.js:112-116 | for a stored post, the comment check answers 404 iff the post holds no comment with that id |
| PostRoutes.RemoveKeepsUnique | server/routes/posts.js:74 | removing a document keeps ids unique and leaves no document with the removed id |
| PostRoutes.RemoveCommentKeepsValid | server/routes/posts.js:121-122 | removing one comment keeps the remaining comments valid and their ids unique |
| PostRoutes.PostCollection.constructor | server/models/Post.js:58 | an empty collection is valid |
| PostRoutes.PostCollection.Create | server/routes/posts.js:24-39 | the body with the corrected stamping is validated; on success exactly the new document, without comments, is appended and sent; on failure 500 and no change; other users' listings are unchanged |
| PostRoutes.PostCollection.Update | server/routes/posts.js:42-62 | the status is the 404-then-401 access check; on error nothing changes; on success only that document changes, by the corrected update, and is sent back; other users' listings are unchanged |
| PostRoutes.PostCollection.Delete | server/routes/posts.js:65-80 | the same checks; on success exactly that document, with its comments, is removed; the id is then unknown to everyone; other users' listings are unchanged |
| PostRoutes.PostCollection.AddComment | server/routes/posts.js:83-105 | 404 for a missing post and no ownership check; an accepted comment, with the requester's id and name, is appended last and is the one sent back; a rejected one gives 500 and no change |
| PostRoutes.PostCollection.DeleteComment | server/routes/posts.js:108-129 | the status is the comment access check; when it allows the deletion, only that comment is removed and the others keep their order, unless the stored post no longer passes its required paths (after a `$set` of an empty title, say), which answers 500 and changes nothing |
| ReminderRoutes.IndexOfReminder | server/routes/reminders.js:42 | the position found holds the id, and the end position means no document has it |
| ReminderRoutes.SameIdSameReminder | server/routes/reminders.js:42 | with unique ids, one id names one document |
| ReminderRoutes.OwnedBy | server/routes/reminders.js:9 | exactly the documents of that owner |
| ReminderRoutes.Views | server/routes/reminders.js:10-14 | each document is sent with its `_id` as `id`, in order |
| ReminderRoutes.ListReminders | server/routes/reminders.js:7-20 | one view per reminder the requester owns |
| ReminderRoutes.ListRemindersSpec | server/routes/reminders.js:7-20 | the listing holds exactly the requester's reminders, earliest scheduled first |
| ReminderRoutes.SameOwnedSameListing | server/routes/reminders.js:9 | a user's listing depends only on that user's documents |
| ReminderRoutes.Access | server/routes/reminders.js:44-47 | 404 iff no reminder has the id; otherwise 200 for the owner and 401 for anyone else |
| ReminderRoutes.AccessIsOwnership | server/routes/reminders.js:62-65 | for an existing reminder, access is granted iff the requester owns it |
| ReminderRoutes.SetFieldsAsWritten | server/routes/reminders.js:49 | the raw `$set`; an empty body changes nothing |
| ReminderRoutes.AsWrittenUpdateGivesReminderAway | server/routes/reminders.js:49 | as written, an owner's update naming another userId moves the reminder into that user's listing and out of the owner's |
| ReminderRoutes.SetFields | server/routes/reminders.js:49 | the corrected update keeps the owner |
| ReminderRoutes.SetFieldsChangesOnlyPresent | server/routes/reminders.js:49 | each property present in the body is replaced and each absent one is kept (no updatedAt); `{isActive: false}` changes only isActive |
| ReminderRoutes.Stamped | server/routes/reminders.js:25-29 | owner and createdAt come from the server; title, message and time from the body |
| ReminderRoutes.CreateStampsOwner | server/routes/reminders.js:23-37 | creation fails exactly when title or message is missing or empty or the time is missing; a created reminder belongs to the requester, is created now and is active by default |
| ReminderRoutes.RemoveKeepsUnique | server/routes/reminders.js:67 | removing a document keeps ids unique and leaves none with the removed id |
| ReminderRoutes.ReminderCollection.constructor | server/models/Reminder.js:31 | an empty collection is valid |
| ReminderRoutes.ReminderCollection.Create | server/routes/reminders.js:23-37 | on success exactly the new document is appended and sent; on failure 500 and no change; other users' listings are unchanged |
| ReminderRoutes.ReminderCollection.Update | server/routes/reminders.js:40-55 | 404-then-401; no change on error; on success only that reminder changes, by the corrected update; other users' listings are unchanged |
| ReminderRoutes.ReminderCollection.Delete | server/routes/reminders.js:58-73 | 404-then-401; on success exactly that reminder is removed; other users' listings are unchanged |
| LocalStorage.ApplyPatch | services/storage.ts:49 | id, owner, createdAt and comments are kept and updatedAt is refreshed |
| LocalStorage.ApplyPatchChangesOnlyGiven | services/storage.ts:49 | supplied properties overwrite and the others are kept; an empty patch changes only updatedAt |
| LocalStorage.LocalPostStore.constructor | services/storage.ts:16 | an empty store has no posts |
| LocalStorage.LocalPostStore.GetPosts | services/storage.ts:11-18 | nothing without a user; otherwise exactly the current user's posts, in stored order |
| LocalStorage.LocalPostStore.GetPostById | services/storage.ts:66-73 | a post is found iff one has both this id and the current owner, and never without a user |
| LocalStorage.LocalPostStore.FoundIsListed | services/storage.ts:66-73 | a post found by id is among the posts the same user lists |
| LocalStorage.LocalPostStore.SavePost | services/storage.ts:20-37 | fails without a user; otherwise the new post is owned by the current user, stamped now on both timestamps, placed first before all earlier posts, found by its id and carries the input unchanged; other users' posts are unchanged |
| LocalStorage.LocalPostStore.UpdatePost | services/storage.ts:39-53 | fails without a user; `null` and no change when nothing matches; otherwise only the first match is replaced by its patched copy; other users' posts are unchanged |
| LocalStorage.LocalPostStore.DeletePost | services/storage.ts:55-64 | no-op without a user; otherwise exactly the posts with this id and owner go, the rest keep their order; other users' posts are unchanged |
| MockAuth.Decimal | services/authService.ts:31 | the decimal text of a number is a non-empty run of digits |
| MockAuth.DecimalRoundTrip | services/authService.ts:31 | the decimal text reads back as the number |
| MockAuth.TokenFor | services/authService.ts:31 | a token starts with `mock-jwt-token-` |
| MockAuth.TokensDiffer | services/authService.ts:31 | one user's tokens from different instants differ |
| MockAuth.IndexOfEmail | services/authService.ts:17 | the first user with this email, or the end iff none has it |
| MockAuth.IndexOfCredentials | services/authService.ts:45 | the first user with this email and password, or the end iff none has both |
| MockAuth.AuthService.constructor | services/authService.ts:15 | an empty table with no session is valid |
| MockAuth.AuthService.GetCurrentUser | services/authService.ts:109-112 | in a valid state, a returned user is the password-free copy of a user in the table, and a user is returned iff a session token is stored |
| MockAuth.AuthService.SessionIsCurrentUser | services/authService.ts:113-115 | in a valid state, authenticated iff a current user is stored |
| MockAuth.AuthService.Register | services/authService.ts:12-38 | a taken email fails with its message and changes nothing; otherwise exactly one user is appended, so emails stay unique, and a session starts for the returned password-free user |
| MockAuth.AuthService.Login | services/authService.ts:40-55 | succeeds iff some user has this email and this password, and then starts a session for that user without the password; otherwise fails and changes nothing |
| MockAuth.AuthService.Logout | services/authService.ts:57-60 | token and current user are removed, so nobody is authenticated; the table is unchanged |
| AdvancedFilter.MergeIdempotent | components/AdvancedFilter.tsx:33-37 | merging twice is merging once; an empty update changes nothing |
| AdvancedFilter.Toggle | components/AdvancedFilter.tsx:39-51 | a present value is removed, an absent one appended at the end; no other value's membership changes |
| AdvancedFilter.ToggleTwice | components/AdvancedFilter.tsx:39-51 | toggling keeps a list duplicate-free; toggling a new value twice restores the list |
| AdvancedFilter.ToggleMood | components/AdvancedFilter.tsx:39-44 | only the moods change, by a toggle |
| AdvancedFilter.ToggleTag | components/AdvancedFilter.tsx:46-51 | only the tags change, by a toggle |
| AdvancedFilter.BadgeCount | components/AdvancedFilter.tsx:76 | the badge counts every selected mood and tag and at most three more |
| AdvancedFilter.BadgeCountActive | components/AdvancedFilter.tsx:53-63 | the badge is positive iff a filter is active; after clearing, nothing is active and the badge is 0 |
| AdvancedFilter.ToggleNewCountsOne | components/AdvancedFilter.tsx:39-51 | selecting a new mood or tag adds exactly one to the badge |
| PostList.FilterPosts | components/PostList.tsx:38-68 | an order-preserving subsequence holding exactly the posts that meet all six criteria |
| PostList.ClearedShowsAll | components/PostList.tsx:41-66 | with an empty search and cleared filters every post is shown |
| PostList.FilterPostsIdempotent | components/PostList.tsx:38-68 | filtering the filtered list changes nothing |
| PostList.MoodlessExcluded | components/PostList.tsx:53-54 | once a mood is selected, a post without a mood is never shown |
| PostList.DateBoundsInclusive | components/PostList.tsx:61-64 | the start bound is inclusive; the end bound is inclusive at dateTo plus one day and excludes one millisecond later |
| PostList.MoodsOfMembers | components/PostList.tsx:22-28 | a mood is collected iff some post has it as a non-empty mood |
| PostList.TagsOfMembers | components/PostList.tsx:30-36 | a tag is collected iff some post carries it |
| PostList.ChoicesAreOccurring | components/PostList.tsx:22-36 | the choices hold no repeats and offer exactly the occurring moods and tags |
| PostList.AvailableMoods | components/PostList.tsx:22-28 | the loop yields each distinct non-empty mood once, in first-seen order |
| PostList.AddEach | components/PostList.tsx:32-34 | adding a post's tags to the set extends its first-seen order |
| PostList.AvailableTags | components/PostList.tsx:30-36 | the loop yields each distinct tag once, in first-seen order |
| Tally.TallyOfSpec | components/MoodStats.tsx:11-16 | counting into a record gives each key its number of occurrences, keys in first-seen order |
| Tally.TallyTotal | components/MoodStats.tsx:18 | the counts of a record add up to the number of items counted |
| Sorting.SortStable | components/MoodStats.tsx:26 | the sort keeps equal-count entries in their original order |
| Sorting.InsertPermutes | components/MoodStats.tsx:26 | one insertion step adds exactly the inserted element |
| MoodStats.CountMoods | components/MoodStats.tsx:11-16 | the loop builds the record of non-empty moods |
| MoodStats.CountEach | components/MoodStats.tsx:56-58 | counting one post's tags extends the record |
| MoodStats.CountTags | components/MoodStats.tsx:54-59 | the loop counts every occurrence of every tag |
| MoodStats.MoodRows | components/MoodStats.tsx:20-25 | one row per record entry, in record order |
| MoodStats.MoodRowsAt | components/MoodStats.tsx:20-25 | the k-th row is the k-th entry's mood with its count and percentage |
| MoodStats.MoodData | components/MoodStats.tsx:10-27 | one row per distinct mood |
| MoodStats.MoodDataDescending | components/MoodStats.tsx:26 | rows come largest count first |
| MoodStats.ShareOf | components/MoodStats.tsx:24 | the percentage times the total is a hundred times the count, and 0 when there is no total |
| MoodStats.RowFacts | components/MoodStats.tsx:18-24 | a row's count is the mood's occurrences, at least one, and its percentage is taken of all moods |
| MoodStats.MoodDataRows | components/MoodStats.tsx:18-24 | every row is an occurring mood counted exactly, at least once, with its share of all moods |
| MoodStats.MoodDataCoversMoods | components/MoodStats.tsx:12-16 | a mood has a row iff some post has it |
| MoodStats.MoodDataSum | components/MoodStats.tsx:12-18 | the row counts add up to the number of posts with a mood |
| MoodStats.PercentagesSumTo100 | components/MoodStats.tsx:18-26 | the percentages of the moods present add up to 100; with no mood there are no rows |
| MoodStats.RowsTo100 | components/MoodStats.tsx:21-25 | rows whose counts make up a positive total and whose percentages are their shares of it sum to 100 |
| MoodStats.MoodDataTies | components/MoodStats.tsx:20-26 | rows with equal counts keep record order |
| MoodStats.TopTags | components/MoodStats.tsx:61-64 | at most ten tag entries |
| MoodStats.TopTagsDescending | components/MoodStats.tsx:63 | the listed tags come most used first |
| MoodStats.TopTagsFromRecord | components/MoodStats.tsx:61-64 | every listed entry comes from the tag record |
| MoodStats.TopTagsCounted | components/MoodStats.tsx:55-64 | every listed tag is counted exactly, at least once |
| MoodStats.TopTagsMaximal | components/MoodStats.tsx:63-64 | a tag left out of the ten is used no more often than any tag listed |
| MoodStats.TopBelow | components/MoodStats.tsx:63-64 | an entry missing from the first ten of the sorted record counts no more than any of them |
| MoodStats.WithImages | components/MoodStats.tsx:146 | at most the number of posts |
| MoodStats.WithMood | components/MoodStats.tsx:153 | at most the number of posts |
| MoodStats.DistinctTags | components/MoodStats.tsx:160 | at most the number of tag occurrences |
| MoodStats.WithMoodIsMoods | components/MoodStats.tsx:153 | the "with a mood" counter equals the number of moods collected for the chart |
| MoodStats.CountersAgree | components/MoodStats.tsx:140-160 | the counters agree with the charts: mood posts equal the chart total, distinct tags equal the record size, and the top list has min(10, distinct tags) entries |
| Calendar.DaysOf | components/CalendarView.tsx:26 | one day key per post, and a key is listed iff some post falls on that day |
| Calendar.Bucket | components/CalendarView.tsx:25-31 | a day's bucket is an order-preserving subsequence holding exactly the posts of that day |
| Calendar.DaysSnoc | components/CalendarView.tsx:25-26 | one more post adds its day key |
| Calendar.DayListed | components/CalendarView.tsx:26 | every post's day is among the keys |
| Calendar.UnlistedDayEmpty | components/CalendarView.tsx:83 | a day no post falls on has an empty bucket |
| Calendar.BucketsSnoc | components/CalendarView.tsx:27-30 | one more post is pushed onto its day's bucket, created empty if new |
| Calendar.PostsByDate | components/CalendarView.tsx:23-33 | the loop builds exactly the map from each occurring day to its bucket |
| Calendar.CellsAreDays | components/CalendarView.tsx:83 | a cell shows exactly its day's posts; a day has an entry iff some post falls on it |
| Calendar.SumSizesSnoc | components/CalendarView.tsx:25-31 | one more post adds one to exactly one bucket size |
| Calendar.BucketSizesSum | components/CalendarView.tsx:24-32 | the bucket sizes add up to the number of posts, so each post is in exactly one bucket |
| Calendar.CellPreview | components/CalendarView.tsx:102-117 | the first min(2, n) titles, and a "+(n−2)" note iff n > 2 |
| Calendar.PreviewAccountsForAll | components/CalendarView.tsx:104-116 | titles shown plus the note's number is the bucket size; an empty cell shows nothing |
| Calendar.ClickOpensOnlyPost | App.tsx:131-135 | a click on a day cell reports nothing iff no post falls on that day, opens a post iff exactly one does, and the post opened is of that day |
| ReminderManager.NotificationOf | components/ReminderManager.tsx:47-55 | a notification shows the reminder's title, its message as the body, and is tagged with its id |
| ReminderManager.ListsAt | components/ReminderManager.tsx:35-39 | the k-th switched-off id and notification belong to the k-th reminder |
| ReminderManager.DueReminders | components/ReminderManager.tsx:36 | an order-preserving subsequence of exactly the active reminders whose time has come |
| ReminderManager.CheckReminders | components/ReminderManager.tsx:33-41 | one check switches off exactly the due reminders, in order, and notifies them iff permission is granted |
| ReminderManager.SwitchOff | components/ReminderManager.tsx:38 | applying `{isActive: false}` by id changes only `isActive`, keeps every reminder in its place, and a reminder stays active iff it was active and not named |
| ReminderManager.DueIsSwitchedOff | components/ReminderManager.tsx:36-38 | every due reminder is switched off |
| ReminderManager.SwitchedOffIsDue | components/ReminderManager.tsx:36-38 | with unique ids, only due reminders are switched off; inactive and future ones are untouched |
| ReminderManager.SwitchOffOnlyDue | components/ReminderManager.tsx:36-38 | after the updates are applied, each due reminder is switched off and every other reminder is exactly as before, in its place |
| ReminderManager.SecondCheckSilent | components/ReminderManager.tsx:36-38 | once the updates are applied, a second check at the same instant finds nothing due |
| ReminderManager.ActiveReminders | components/ReminderManager.tsx:77 | exactly the active reminders still in the future, in order |
| ReminderManager.PastReminders | components/ReminderManager.tsx:78 | exactly the others, in order |
| ReminderManager.UpcomingPastPartition | components/ReminderManager.tsx:77-78 | every reminder is in exactly one list; the lengths add up; every due reminder is past |
| ReminderManager.ShownPast | components/ReminderManager.tsx:206 | the first min(5, n) of the n past reminders, in order |
| ReminderManager.SubmitReminder | components/ReminderManager.tsx:57-75 | rejected iff the trimmed title or message is empty or no time is given; a reminder sent has a non-empty title and message that trimming does not change, and is active |
| ReminderManager.SubmittedIsAccepted | components/ReminderManager.tsx:62-67 | every submitted reminder passes the server schema and is stored with those values for the requester |
| PostEditor.OpenSubmitRoundTrip | components/PostEditor.tsx:16-23 | saving an opened post untouched gives back its input record, with a missing mood or summary as "", a missing category as 日常生活 and missing images as none; exactly its input when all are set; a new post is saved as 日常生活 in yellow |
| PostEditor.SubmitOpenRoundTrip | components/PostEditor.tsx:77-89 | opening a saved editor state shows the same fields again, with an empty category shown as 日常生活 |
| PostEditor.MergeTags | components/PostEditor.tsx:35 | no duplicates, and a tag is present iff it was there before or was suggested |
| PostEditor.MergeKeepsExisting | components/PostEditor.tsx:35 | the existing tags, repeats dropped, stay first in order, followed by the new ones not already present; without repeats the existing tags are kept as they are |
| PostEditor.Analyze | components/PostEditor.tsx:27-41 | title, content, images, category and theme never change, every existing tag is kept, and existing tags without repeats stay a prefix of the new ones |
| PostEditor.AnalyzeFallback | services/geminiService.ts:49-56 | when the service falls back, a non-blank entry gets mood neutral, the fallback summary and the tag 日記 besides its own |
| PostEditor.AnalyzeTwice | components/PostEditor.tsx:27-41 | applying the same analysis twice is applying it once |
| PostEditor.MergeTagsTwice | components/PostEditor.tsx:35 | merging the same tags again adds nothing |
| PostEditor.TrimAll | components/PostEditor.tsx:233 | one result per piece, in order, each one already trimmed |
| PostEditor.ParseTags | components/PostEditor.tsx:233 | no parsed tag is empty |
| PostEditor.ParsedTagOrigin | components/PostEditor.tsx:233 | every parsed tag is the trimmed text of some comma-separated piece |
| PostEditor.ParsedTagsClean | components/PostEditor.tsx:233 | every parsed tag is non-empty, has no comma and no surrounding whitespace |
| PostEditor.ParseJoinRoundTrip | components/PostEditor.tsx:232-233 | showing clean tags joined by ", " and parsing the text back gives the same tags |
| PostEditor.ParseTagsStable | components/PostEditor.tsx:232-233 | re-showing and re-parsing parsed tags changes nothing |
| Text.SplitJoin | components/PostEditor.tsx:232-233 | splitting a join of comma-free pieces on the comma gives the pieces back |
| PostEditor.Upload | components/PostEditor.tsx:43-71 | rejected with its message iff the images would exceed four; otherwise the current images stay first, within four, followed by every file's data URL when all files are read and by nothing when a read fails |
| PostEditor.RemoveImageSpec | components/PostEditor.tsx:73-75 | exactly the image at the index goes and the rest keep their order; an index outside the list changes nothing |
| PostEditor.ImageCapKept | components/PostEditor.tsx:51-75 | uploads and removals never take the images over four; a removal shortens the list by one |

## Left out

- Local storage, JSON encoding and the artificial `delay` of the mock services.
  The stored post array and the users table are class fields.
- The network back-end wrappers (`apiStorage` in services/storage.ts,
  services/reminderService.ts, services/commentService.ts and the backend
  switch in services/config.ts). They only forward to the routes modelled here.
- The Express and Mongoose plumbing: the auth middleware, `findById`, the
  cast error a malformed id raises, the JSON responses and server/index.js.
  Each route is a method that returns its status.
- A fault in the database itself is not modelled. The only 500 modelled is a
  document that fails validation on save.
- The Gemini call in services/geminiService.ts. Its result is a parameter of
  `PostEditor.Analyze`. A failed request or an unreadable reply makes the
  service return its fallback (`PostEditor.Fallback`), which the editor applies
  like any other result. `None` stands for the only failure that reaches the
  editor: a missing API key, thrown before the `try`.
- ShareButton, the browser Notification API (permission is a parameter) and the
  ten-second `setInterval`. One run of the reminder check is modelled.
- date-fns and time zones. The day of a timestamp and the parsing of the form's
  date-time text are function parameters. An invalid date (`NaN`) is not modelled.
- `toLowerCase` folds ASCII letters only. Unicode case mapping is not modelled.
- Each `Date.now()` the code reads twice in one handler is one instant here.
- `crypto.randomUUID` and Mongo's `_id` are fresh-id parameters, each with a
  freshness precondition.
- JavaScript's numbers are modelled as unbounded integers, and percentages as
  reals. `MoodStats.MoodDataRows` states each percentage through `Percentage`;
  the meaning of `Percentage` is stated separately in `MoodStats.ShareOf`.
  Floating-point rounding is not modelled, so `MoodStats.PercentagesSumTo100`
  holds exactly here and only up to rounding in the code.
- The record that counts moods and tags keeps every key in insertion order.
  JavaScript lists integer-like keys first; that ordering is not modelled.
- TallyOfSpec: every string is an ordinary key of the counting record. In the
  source the record is a plain `{}`, so a mood or tag named `constructor` or
  `toString` starts from an inherited function and ends up with a text count
  (and a `NaN` percentage), and `__proto__` is never stored. The same holds
  for `Tally.TallyOf`, `MoodStats.CountMoods` and `MoodStats.CountTags`. These
  prototype keys are not modelled.
- The tie order of the two listings (`GET /` for posts, sorted by `createdAt`,
  and for reminders, sorted by `scheduledTime`) is unspecified in Mongo. The
  model fixes it as stored order (`PostRoutes.ListPostsSpec`,
  `ReminderRoutes.ListRemindersSpec`), so it pins down more than the source
  promises.
- A `Map` iterates in insertion order. The calendar's buckets are modelled as a
  Dafny `map`, which has no order; only look-up by day is used.
- `$set` of `comments`, `_id` or a colour outside the five themes is not
  modelled, because the update body type cannot express those properties.
- A client-chosen `_id` in a create body or in one of its comments is not
  modelled: the post and each comment get a fresh id. A create body whose
  properties have the wrong JSON type (a `comments` that is not an array, an
  author id that is not an ObjectId) is not modelled either.
- PostModel.PostErrors: a failing comment is reported under the one path
  `comments`, not under Mongoose's indexed paths such as `comments.0.content`.
  The route answers 500 without the paths in either case.
- The UI components: routing and themes in App.tsx (apart from the day click),
  SketchButton, LoginPage, RegisterPage, PostCard and PostDetail.
- CommentSection offers the delete button only to a comment's author
  (components/CommentSection.tsx:91). That is narrower than the server's rule,
  which is the one modelled.
- The image upload reads the files asynchronously after the cap check. A second
  upload started before the first finishes is not modelled; `PostEditor.Upload`
  is one upload against the images present. A failed file read is modelled as
  `None` among the files and adds nothing, as the rejected `Promise.all` does.
- PostEditor.ParseTags: its own contract states only that no tag is empty; that
  parsed tags carry no comma and no surrounding whitespace is stated in
  `PostEditor.ParsedTagsClean`.
- MoodStats.WithImages, MoodStats.WithMood and MoodStats.DistinctTags: their
  own contracts state only bounds. What they count is stated in
  `MoodStats.WithMoodIsMoods` and `MoodStats.CountersAgree`; the image counter
  has no further lemma.

## Findings

| source | as written | input that shows it | evidently intended | confidence | as-written member | corrected member |
|---|---|---|---|---|---|---|
| server/routes/posts.js:51-56 | the update `$set`s the whole request body, `userId` included, once ownership has been checked | the owner of post P sends `PUT /P` with body `{"userId": "<another user's id>"}` | only the post's content changes; its owner stays the requester, as creation enforces at lines 26-31 | medium, not executed | PostRoutes.AsWrittenUpdateGivesPostAway | PostRoutes.PostCollection.Update |
| server/routes/reminders.js:49 | the update `$set`s the whole request body, `userId` included | the owner of reminder R sends `PUT /R` with body `{"userId": "<another user's id>"}` | the reminder stays with its owner, as creation enforces at lines 25-29 | medium, not executed | ReminderRoutes.AsWrittenUpdateGivesReminderAway | ReminderRoutes.ReminderCollection.Update |
| server/routes/posts.js:26-31 | `new Post({...req.body, userId, createdAt, updatedAt})` keeps a `comments` array from the client, and the embedded schema checks only that each comment has an author id, a name and a text | user U sends `POST /` with body `{"title": "t", "content": "c", "comments": [{"userId": "<V's id>", "username": "x", "content": "y"}]}` | a new post starts without comments, as the client's input type omits them (types.ts:47) and comments are otherwise added only under the requester's id (lines 88-96) | medium, not executed | PostRoutes.AsWrittenCreateForgesComment | PostRoutes.PostCollection.Create |
