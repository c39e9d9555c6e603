# School voice message board: client-side bookkeeping

This project models the client-side logic of the "school voice" message board front-end,
and proves properties of it. It covers:

- the local vote cache `voteStorage`: two storage entries mapping an entity id to a like or a dislike flag;
- the post cooldown `spamProtection`: one stored timestamp and a 60 000 ms window;
- the relative-age label `formatTimeAgo`;
- the `PostDetail` handlers: post votes, comment votes, comments, replies and the initial load of the vote flags;
- the `Index` page's feed ordering and `handleCreatePost`;
- the `CreatePostDialog` submit pipeline: required fields, then cooldown, then record, submit, reset and close.

Modules are `Optional` (the `Option` type), `Text` (`trim`, decimal text), `VoteStorage`,
`SpamProtection`, `TimeAgo`, `Feed` (the `Index` page), `PostDetail` and `CreatePostDialog`.
State that the source changes in place is a class:
- `VoteStorage.Store` holds the two storage entries;
- `SpamProtection.SpamGuard` holds `lastPostTime`;
- `PostDetail.PostDetail`, `CreatePostDialog.Dialog` and `Feed.IndexPage` hold the components' state.

Pure computations are functions with lemmas. A callback that a handler invokes (`onVote`,
`onSubmit`, …) is modelled by the value it would receive, which the method returns.
The clock is a parameter `now` in milliseconds. A storage entry is a
`Slot`: `Missing`, `Unreadable` or `Saved(map)`.

Facts about the source that the model keeps:
- The `popular` tab orders by net score `likes - dislikes` (src/pages/Index.tsx:74).
- `Index` applies no category filter, so the `categories` tab shows every post unchanged (src/pages/Index.tsx:79-81).
- None of the modelled handlers reads a viewer identity or calls a remote store. Only `Header`, left out as presentation, reads the signed-in user (`useAuth`, src/components/Header.tsx:12,21).
- The local vote cache does not keep the like and dislike of one entity exclusive (see Findings).

## Model

| member | source | states |
|---|---|---|
| VoteStorage.Put | src/lib/utils-school.ts:24-28 | after the read-modify-write the flag for `id` reads as the written value (the key is present when set and deleted when cleared), and every other key is unchanged |
| VoteStorage.Entries | src/lib/utils-school.ts:3-19 | what `getLikes`/`getDislikes` return for an entry: the parsed object when it parsed, and `{}` when the entry is absent, empty or unparsable |
| VoteStorage.Flag | src/lib/utils-school.ts:49-57 | `!!m[id]`: an absent key reads as not voted, and a present key reads as the flag stored under it |
| VoteStorage.Store.Likes | src/lib/utils-school.ts:3-10 | `getLikes()`: the stored likes object, or `{}` when that entry is absent or unparsable |
| VoteStorage.Store.Dislikes | src/lib/utils-school.ts:12-19 | `getDislikes()`: the stored dislikes object, or `{}` when that entry is absent or unparsable |
| VoteStorage.PutKeepsOtherFlags | src/lib/utils-school.ts:21-33 | writing the flag of one id never changes how any other id reads |
| VoteStorage.Store.HasLiked | src/lib/utils-school.ts:49-52 | true exactly when the likes entry parsed and holds `true` under the id; a missing or unparsable entry, a missing key or a `false` value reads as not liked |
| VoteStorage.Store.HasDisliked | src/lib/utils-school.ts:54-57 | the same reading of the dislikes entry |
| VoteStorage.Store.SetLike | src/lib/utils-school.ts:21-33 | rewrites the likes entry from the old parsed object (or `{}`), so `hasLiked(id)` equals the written flag and no other id's reading changes; the dislikes entry is untouched |
| VoteStorage.Store.SetDislike | src/lib/utils-school.ts:35-47 | the symmetric law for the dislikes entry; the likes entry is untouched |
| SpamProtection.CanPostAt | src/lib/utils-school.ts:62-74 | allowed with no recorded post; otherwise allowed exactly when `now` is more than 60 000 ms past the recorded time |
| SpamProtection.CooldownRemaining | src/lib/utils-school.ts:84-96 | never negative; 0 with no record; at most 60 000 when the clock is not behind the record; 0 whenever posting is allowed; 0 exactly from 60 000 ms after the record on; otherwise it is the time left until the window ends |
| SpamProtection.CanPostStaysAllowed | src/lib/utils-school.ts:62-71 | once posting is allowed at some instant, it is allowed at every later one |
| SpamProtection.RecordedPostBlocksSameInstant | src/lib/utils-school.ts:62-93 | right after a post recorded at `t`, posting at `t` is refused, the full 60 000 ms remain and the notice shows 60 seconds |
| SpamProtection.BoundaryInstantShowsZeroWait | src/lib/utils-school.ts:62-93 | exactly 60 000 ms after the record, posting is still refused while the remaining time, and so the seconds shown, are 0 |
| SpamProtection.ClockBehindRecord | src/lib/utils-school.ts:84-93 | with the clock behind the recorded time, the remaining time exceeds the window |
| SpamProtection.WaitSeconds | src/components/CreatePostDialog.tsx:62 | `Math.ceil(ms / 1000)`: the least whole number of seconds covering the remaining milliseconds |
| SpamProtection.SpamGuard.RecordPost | src/lib/utils-school.ts:76-82 | the stored time becomes `now`; posting at `now` is then refused and the full window remains |
| Text.Trim | src/components/PostDetail.tsx:152 | `trim()` is empty exactly when the text is all ECMAScript white space, and otherwise neither starts nor ends with white space |
| Text.TrimIsInfix | src/components/PostDetail.tsx:152 | `trim()` is the slice of the text between a blank prefix and a blank suffix: the text with its leading and trailing white space removed |
| Text.Decimal | src/lib/utils-school.ts:78 | `toString()` of a non-negative integer: a nonempty text of decimal digits with no leading zero; with `Text.DecimalRoundTrip` the value of that text is the integer |
| Text.DigitsValue | src/lib/utils-school.ts:67 | `parseInt` of a text of decimal digits: a non-negative number below ten to the power of the text's length, and a single digit's own value |
| Text.DecimalRoundTrip | src/lib/utils-school.ts:67-78 | the decimal text of a non-negative clock reading, written by `toString()`, parses back to the same number, so the stored `lastPostTime` reads back as the recorded instant |
| TimeAgo.Classify | src/lib/utils-school.ts:105-118 | the floored minute, hour and day counts select exactly one bucket per range of differences: under 1 min just now; then minutes below 60; hours below 24; yesterday for 1 day; days below 7; the locale date from 7 days on; each count is the floor of the difference in its unit |
| TimeAgo.Render | src/lib/utils-school.ts:114-120 | the fallback bucket shows the locale date; every count label (minutes, hours, days) begins with a digit; the full label texts are stated by `TimeAgo.FormatTimeAgo` |
| TimeAgo.FormatTimeAgo | src/lib/utils-school.ts:105-121 | the label is "только что" exactly when less than a minute has passed (when the locale date is a different text); the floored minutes with " мин назад" below an hour; the floored hours with " ч назад" below a day; "вчера" between one and two days; the floored days with " дн назад" from two to seven days; the locale date from seven days on |
| Feed.ScoreSign | src/pages/Index.tsx:74 | the comparator's key `likes - dislikes` is positive exactly when a post has more likes than dislikes, zero exactly when they balance, and moves by one with each like or dislike |
| Feed.SortDesc | src/pages/Index.tsx:70-75 | the sorted feed is a permutation of the posts, of the same length, non-increasing in the key |
| Feed.SortDescStable | src/pages/Index.tsx:74 | the sort is stable: for every key value, the posts with that key keep their original order |
| Feed.SortDescOfSorted | src/pages/Index.tsx:74 | a feed that is already in order is returned unchanged |
| Feed.FeedFor | src/pages/Index.tsx:69-85 | for every tab the feed is a permutation of the posts; `popular` is non-increasing in net score; `new` is non-increasing in the parsed time; `categories` and every other tab give the posts in the same order |
| Feed.NewTabAllUnreadable | src/pages/Index.tsx:76-78 | when no timestamp of the feed is readable (one constant `parseTime`), the `new` tab keeps the posts in their order |
| Feed.PopularExample | src/pages/Index.tsx:73-75 | net scores 5, 2, 9 appear as 9, 5, 2 on the `popular` tab |
| Feed.NewPost | src/pages/Index.tsx:87-98 | the new post has no likes, dislikes or comments (net score 0), copies the title, content and category, has an author exactly when the name is shown, and that author is the form's name; its id is the clock reading's decimal text and its timestamp is "только что" |
| Feed.IndexPage.constructor | src/pages/Index.tsx:64-66 | the page starts with the given posts on the `popular` tab |
| Feed.IndexPage.FilteredPosts | src/pages/Index.tsx:67-85 | the shown feed is a permutation of the posts, ordered by net score on `popular`, and the posts unchanged on tabs other than `popular` and `new` |
| Feed.IndexPage.HandleCreatePost | src/pages/Index.tsx:87-101 | the posts become the new post followed by the old posts in their order; the feed gains exactly the new post |
| Feed.IndexPage.SetActiveTab | src/components/Navigation.tsx:18 | the tab changes and the posts do not |
| Feed.IndexPage.Submit | src/pages/Index.tsx:140-144 | the dialog's outcome is forwarded: on publish the post time is recorded, the posts gain the new post, the form is reset and the dialog closed; on either rejection the posts, the stored time, the form and the open flag are unchanged |
| Feed.SubmitTwiceAtOnce | src/components/CreatePostDialog.tsx:61-71 | of two complete submissions at the same instant, the first is published and the second is refused with a 60-second wait |
| CreatePostDialog.Complete | src/components/CreatePostDialog.tsx:51 | the form passes exactly when category, title and content are all non-empty, with no trimming; the reset form never passes |
| CreatePostDialog.BlankTitlePasses | src/components/CreatePostDialog.tsx:51 | a title of white space only passes the required-field check |
| CreatePostDialog.Dialog.constructor | src/components/CreatePostDialog.tsx:39-45 | the form starts with every text field empty and the name hidden |
| CreatePostDialog.Dialog.Edit | src/components/CreatePostDialog.tsx:104-167 | a field edit replaces the form data and leaves the dialog open or closed as it was |
| CreatePostDialog.Dialog.HandleSubmit | src/components/CreatePostDialog.tsx:48-87 | an incomplete form (a required field is the empty string, with no trimming) is rejected before the cooldown is consulted and nothing changes; inside the cooldown, nothing is recorded or submitted and the wait is the remaining time rounded up to seconds; otherwise the time is recorded, the unreset form is submitted, the form is reset and the dialog closed |
| PostDetail.Toggled | src/components/PostDetail.tsx:124-140 | a like flips the like flag and clears the dislike flag; a dislike flips the dislike flag and clears the like flag; the two are never both set afterwards |
| PostDetail.ToggleTwice | src/components/PostDetail.tsx:124-141 | pressing the same button twice restores that button and leaves the other one off |
| PostDetail.AuthorOf | src/components/PostDetail.tsx:156 | no author exactly when the name is blank; otherwise the trimmed, non-empty name |
| PostDetail.CommentKey | src/components/PostDetail.tsx:181-183 | a comment's cache key is `comment-` followed by its id, so distinct comments have distinct keys |
| PostDetail.PostDetail.constructor | src/components/PostDetail.tsx:103-109 | both buttons start off, every input empty and no reply target |
| PostDetail.PostDetail.ShowPost | src/components/PostDetail.tsx:112-117 | for a shown post both button flags are read from the vote cache, independently; with no post they keep their values |
| PostDetail.PostDetail.HandleVote | src/components/PostDetail.tsx:121-149 | the buttons change as `Toggled` says; only the voted polarity's cache entry is written with the new flag; the other polarity's entry is left as it was; `onVote` receives the post id, the polarity and the new flag; the forms are untouched; with no post nothing happens |
| PostDetail.PostDetail.HandleVoteExclusive | src/components/PostDetail.tsx:121-149 | corrected handler: as `HandleVote`, except that the switched-off polarity is also cleared in the cache, so the cache agrees with the buttons and never holds both flags |
| PostDetail.PostDetail.HandleCommentVote | src/components/PostDetail.tsx:177-203 | the cached flag of the chosen polarity under `"comment-" + id` flips from its cached value; no other key, the other polarity and the buttons do not change; `onCommentVote` receives the new flag |
| PostDetail.PostDetail.EditComment | src/components/PostDetail.tsx:319-327 | the comment inputs take the typed values and nothing else changes |
| PostDetail.PostDetail.HandleAddComment | src/components/PostDetail.tsx:151-167 | blank text does nothing; otherwise the untrimmed text is sent with the trimmed author only when that is not blank, and both inputs are cleared |
| PostDetail.PostDetail.ToggleReplyTarget | src/components/PostDetail.tsx:399 | the reply form opens for the comment, or closes if it was open for it |
| PostDetail.PostDetail.EditReply | src/components/PostDetail.tsx:420-428 | the reply inputs take the typed values and nothing else changes |
| PostDetail.PostDetail.HandleReply | src/components/PostDetail.tsx:205-222 | blank text does nothing; otherwise the untrimmed reply is sent for the comment with the same author rule, the reply target becomes none and both reply inputs are cleared |
| PostDetail.LikeDislikeReopen | src/components/PostDetail.tsx:112-140 | with the handler as written, like then dislike then reopening the post lights both buttons |
| PostDetail.LikeDislikeReopenExclusive | src/components/PostDetail.tsx:112-140 | with the corrected handler, the same sequence shows only the dislike |
| PostDetail.VoteThenReopenExclusive | src/components/PostDetail.tsx:112-140 | with the corrected handler, reopening a post after a vote shows exactly the buttons the vote produced, never both |

## Findings

| source | as written | input that shows it | evidently intended | confidence | as-written member | corrected member |
|---|---|---|---|---|---|---|
| src/components/PostDetail.tsx:124-140 | `handleVote` clears the opposite button (`setUserDisliked(false)` / `setUserLiked(false)`, "Remove dislike if setting like") but writes only the voted polarity to the cache | on a post with neither flag set: like, then dislike, then open the post again; the load of lines 112-117 reads `hasLiked` and `hasDisliked` as both true and lights both buttons | the cache clears the opposite polarity too, so a viewer holds a like or a dislike, never both | medium, not executed | PostDetail.LikeDislikeReopen | PostDetail.PostDetail.HandleVoteExclusive |

## Left out

- Rendering, styling, icons, the category colour and icon tables, and toast notifications. A notice is modelled only as the `Outcome` tag of `CreatePostDialog.Dialog.HandleSubmit`, or as the absence of an event.
- `Header`, `PostCard` and the markup of `Navigation`: these are presentation only.
- Real `localStorage`, `JSON.parse`/`JSON.stringify` and the `try`/`catch` warnings. An entry is an abstract `Slot`. Parsing is assumed to yield either an object from ids to flags or an error. A stored JSON value that is not an object (such as `null`) is not modelled.
- A failing `setItem` (storage full or disabled): the model always writes. So is the `catch` that makes `canPost` true and `getCooldownRemaining` 0.
- SpamProtection.SpamGuard: a `lastPostTime` entry not written by `recordPost` is not modelled. Non-numeric text would make `parseInt` give `NaN`, which refuses posting and shows `NaN` seconds. The stored time is an integer, justified by `Text.DecimalRoundTrip`.
- SpamProtection.CooldownRemaining: `canPost`, `getCooldownRemaining` and `recordPost` each read `Date.now()`, and `handleCreatePost` reads it again for the new post's id. The model reads all of them at one instant `now` (in `CreatePostDialog.Dialog.HandleSubmit` and `Feed.IndexPage.Submit`), so it does not capture the clock advancing between those reads.
- `Date.now()`, `new Date(...)` and `getTime()`: these become integer parameters (`now`, the difference given to `TimeAgo.Classify`, and `parseTime` for the `new` tab).
- Feed.FeedFor: on the `new` tab, a timestamp that `new Date` cannot read gives `NaN`. The abstract operation CompareArrayElements of ECMA-262 treats a `NaN` comparison as equal. When no timestamp is readable, as with the mock timestamps and "только что", every pair compares equal and the stable sort keeps the posts in order; a constant `parseTime` models this (`Feed.NewTabAllUnreadable`). A mix of readable and unreadable timestamps makes the comparator inconsistent, and that case is not modelled: `parseTime` is a total function to integers.
- TimeAgo.FormatTimeAgo: `toLocaleDateString('ru-RU')` is an opaque `localeDate` text, and an unreadable timestamp (`NaN` difference) is not modelled.
- VoteStorage.Flag: `!!likes[postId]` looks the key up through the object's prototype, so an id such as `constructor` or `toString` reads as voted in the source but not in the model. The ids the application produces (decimal clock text, the mock ids, and `comment-` followed by an id) never name a prototype member.
- `generateId` (random and time-based) and the mock data arrays.
- React effect scheduling, re-rendering and asynchrony. `filteredPosts` is the function `Feed.IndexPage.FilteredPosts` of the current posts and tab, which is the value the effect settles on.
- Feed.Post: likes, dislikes and comments are unbounded integers rather than JavaScript numbers. The scores involved are far below the range where floating point loses precision.
- `handleReport` (only a notice), the comment and reply lists of a post, and `onOpenChange` beyond the dialog's `open` flag.
- CreatePostDialog.Dialog.HandleSubmit: `recordPost` runs before `onSubmit`, and the model keeps that order. No modelled callback reads the stored time, so the order has no observable effect here.
