/** The `Index` page: the feed ordering effect and `handleCreatePost`. */
module Feed {
  import opened Optional
  import Text
  import SpamProtection
  import CreatePostDialog

  /** A post as the page holds it. */
  datatype Post = Post(
    id: string, title: string, content: string, category: string,
    likes: int, dislikes: int, comments: int,
    author: Option<string>, timestamp: string)

  /** The net score the `popular` tab orders by. */
  function Score(p: Post): int {
    p.likes - p.dislikes
  }

  /** The net score is positive exactly when a post has more likes than dislikes, zero exactly
      when they balance, and it rises with every like and falls with every dislike. */
  lemma ScoreSign(p: Post)
    ensures Score(p) > 0 <==> p.likes > p.dislikes
    ensures Score(p) == 0 <==> p.likes == p.dislikes
    ensures Score(p.(likes := p.likes + 1)) == Score(p) + 1
    ensures Score(p.(dislikes := p.dislikes + 1)) == Score(p) - 1
  {
  }

  /** The creation time the `new` tab orders by, as `parseTime` reads it from the timestamp. */
  function TimeKey(parseTime: string -> int): Post -> int {
    (p: Post) => parseTime(p.timestamp)
  }

  /** Non-increasing in `key`. */
  ghost predicate SortedDesc(s: seq<Post>, key: Post -> int) {
    forall i, j :: 0 <= i < j < |s| ==> key(s[i]) >= key(s[j])
  }

  /** The posts of `s` whose key is `v`, in their order in `s`. */
  function WithKey(s: seq<Post>, key: Post -> int, v: int): seq<Post> {
    if s == [] then [] else Pick(s[0], key, v) + WithKey(s[1..], key, v)
  }

  /** `[p]` when `p` has key `v`, else nothing. */
  function Pick(p: Post, key: Post -> int, v: int): seq<Post> {
    if key(p) == v then [p] else []
  }

  lemma {:induction false} WithKeyAppend(a: seq<Post>, b: seq<Post>, key: Post -> int, v: int)
    ensures WithKey(a + b, key, v) == WithKey(a, key, v) + WithKey(b, key, v)
  {
    if a == [] {
      assert a + b == b;
    } else {
      assert (a + b)[0] == a[0];
      assert (a + b)[1..] == a[1..] + b;
      WithKeyAppend(a[1..], b, key, v);
      calc {
        WithKey(a + b, key, v);
        Pick(a[0], key, v) + WithKey(a[1..] + b, key, v);
        Pick(a[0], key, v) + (WithKey(a[1..], key, v) + WithKey(b, key, v));
        (Pick(a[0], key, v) + WithKey(a[1..], key, v)) + WithKey(b, key, v);
      }
    }
  }

  /** No post of `s` has a key above `b`. */
  ghost predicate KeysAtMost(s: seq<Post>, key: Post -> int, b: int) {
    forall i :: 0 <= i < |s| ==> key(s[i]) <= b
  }

  /** Places `x` in front of the first post of `t` whose key is not greater than its own. */
  function Insert(x: Post, t: seq<Post>, key: Post -> int): (r: seq<Post>)
    ensures |r| == |t| + 1
    ensures multiset(r) == multiset(t) + multiset{x}
  {
    if t == [] then [x]
    else if key(t[0]) <= key(x) then [x] + t
    else
      assert t == [t[0]] + t[1..];
      [t[0]] + Insert(x, t[1..], key)
  }

  lemma {:induction false} InsertBounded(x: Post, t: seq<Post>, key: Post -> int, b: int)
    requires KeysAtMost(t, key, b) && key(x) <= b
    ensures KeysAtMost(Insert(x, t, key), key, b)
  {
    if t != [] && key(t[0]) > key(x) {
      InsertBounded(x, t[1..], key, b);
    }
  }

  /** Inserting into a feed in order keeps it in order. */
  lemma {:induction false} InsertSorted(x: Post, t: seq<Post>, key: Post -> int)
    requires SortedDesc(t, key)
    ensures SortedDesc(Insert(x, t, key), key)
  {
    if t != [] {
      if key(t[0]) > key(x) {
        InsertSorted(x, t[1..], key);
        InsertBounded(x, t[1..], key, key(t[0]));
      } else {
        assert forall j :: 0 <= j < |t| ==> key(t[j]) <= key(t[0]);
      }
    }
  }

  lemma WithKeyCons(p: Post, s: seq<Post>, key: Post -> int, v: int)
    ensures WithKey([p] + s, key, v) == Pick(p, key, v) + WithKey(s, key, v)
  {
    assert ([p] + s)[0] == p;
    assert ([p] + s)[1..] == s;
  }

  /** `x` goes before every post of `t` with the same key, as it would if it came first. */
  lemma {:induction false} InsertKeepsTies(x: Post, t: seq<Post>, key: Post -> int, v: int)
    ensures WithKey(Insert(x, t, key), key, v) == WithKey([x] + t, key, v)
  {
    if t != [] && key(t[0]) > key(x) {
      var rest := Insert(x, t[1..], key);
      assert Insert(x, t, key) == [t[0]] + rest;
      assert t == [t[0]] + t[1..];
      InsertKeepsTies(x, t[1..], key, v);
      WithKeyCons(t[0], rest, key, v);
      WithKeyCons(x, t[1..], key, v);
      WithKeyCons(t[0], t[1..], key, v);
      WithKeyCons(x, t, key, v);
      assert Pick(t[0], key, v) == [] || Pick(x, key, v) == [];
    }
  }

  /** `[...s].sort((a, b) => key(b) - key(a))`: the array sort is stable, so this is the
      unique reordering of `s` that is non-increasing in `key` and keeps posts with equal keys
      in their original order (see `SortDescStable`). */
  function SortDesc(s: seq<Post>, key: Post -> int): (r: seq<Post>)
    ensures |r| == |s|
    ensures multiset(r) == multiset(s)
    ensures SortedDesc(r, key)
  {
    if s == [] then []
    else
      var rest := SortDesc(s[1..], key);
      InsertSorted(s[0], rest, key);
      assert s == [s[0]] + s[1..];
      Insert(s[0], rest, key)
  }

  /** Stability: among posts with any one key, the sorted feed keeps their original order. */
  lemma {:induction false} SortDescStable(s: seq<Post>, key: Post -> int, v: int)
    ensures WithKey(SortDesc(s, key), key, v) == WithKey(s, key, v)
  {
    if s != [] {
      SortDescStable(s[1..], key, v);
      InsertKeepsTies(s[0], SortDesc(s[1..], key), key, v);
      WithKeyAppend([s[0]], SortDesc(s[1..], key), key, v);
      WithKeyAppend([s[0]], s[1..], key, v);
      assert s == [s[0]] + s[1..];
    }
  }

  /** A list that is already in order is left as it is. */
  lemma {:induction false} SortDescOfSorted(s: seq<Post>, key: Post -> int)
    requires SortedDesc(s, key)
    ensures SortDesc(s, key) == s
  {
    if s != [] {
      SortDescOfSorted(s[1..], key);
      assert SortDesc(s, key) == Insert(s[0], s[1..], key);
    }
  }

  /** When `new Date` reads no timestamp of the feed, every comparison of the `new` tab is
      `NaN`, which the sort treats as equal: the stable sort keeps the posts in their order.
      A `parseTime` that is one constant stands for that. */
  lemma NewTabAllUnreadable(posts: seq<Post>, c: int)
    ensures FeedFor("new", posts, _ => c) == posts
  {
    SortDescOfSorted(posts, TimeKey(_ => c));
  }

  /** The feed effect for `activeTab`: `popular` orders by net score, highest first; `new`
      orders by the time `parseTime` reads from each timestamp, latest first; every other tab,
      `categories` included, keeps the posts as they are. In every case the feed is a
      reordering of the posts and the posts themselves are not changed. */
  function FeedFor(tab: string, posts: seq<Post>, parseTime: string -> int): (r: seq<Post>)
    ensures multiset(r) == multiset(posts)
    ensures tab == "popular" ==> SortedDesc(r, Score)
    ensures tab == "new" ==> SortedDesc(r, TimeKey(parseTime))
    ensures tab != "popular" && tab != "new" ==> r == posts
  {
    if tab == "popular" then SortDesc(posts, Score)
    else if tab == "new" then SortDesc(posts, TimeKey(parseTime))
    else posts
  }

  lemma PopularExample()
    ensures var a := Post("a", "", "", "", 5, 0, 0, None, "");
            var b := Post("b", "", "", "", 2, 0, 0, None, "");
            var c := Post("c", "", "", "", 9, 0, 0, None, "");
            FeedFor("popular", [a, b, c], _ => 0) == [c, a, b]
  {
  }

  /** The post `handleCreatePost` builds from the submitted form at time `now`: no votes and no
      comments yet, the form's title, content and category, the author name only when the
      form asked to show it, the clock reading's decimal text as its id and "только что" as its
      timestamp. */
  function NewPost(data: CreatePostDialog.FormData, now: nat): (p: Post)
    ensures p.likes == 0 && p.dislikes == 0 && p.comments == 0 && Score(p) == 0
    ensures p.title == data.title && p.content == data.content && p.category == data.category
    ensures p.author.Some? <==> data.showName
    ensures p.author.Some? ==> p.author.value == data.authorName
    ensures p.id == Text.Decimal(now)
    ensures p.timestamp == "только что"
  {
    Post(Text.Decimal(now), data.title, data.content, data.category, 0, 0, 0,
         if data.showName then Some(data.authorName) else None, "только что")
  }

  class IndexPage {
    var posts: seq<Post>
    var activeTab: string
    /** `new Date(timestamp).getTime()`, for timestamps it can read. */
    const parseTime: string -> int

    constructor (initial: seq<Post>, parseTime: string -> int)
      ensures posts == initial && activeTab == "popular" && this.parseTime == parseTime
    {
      posts := initial;
      activeTab := "popular";
      this.parseTime := parseTime;
    }

    /** `filteredPosts`, which the effect recomputes whenever `posts` or `activeTab` change. */
    function FilteredPosts(): (r: seq<Post>)
      reads this
      ensures multiset(r) == multiset(posts)
      ensures activeTab == "popular" ==> SortedDesc(r, Score)
      ensures activeTab != "popular" && activeTab != "new" ==> r == posts
    {
      FeedFor(activeTab, posts, parseTime)
    }

    /** `onTabChange`. */
    method SetActiveTab(tab: string)
      modifies this
      ensures activeTab == tab && posts == old(posts)
    {
      activeTab := tab;
    }

    /** `handleCreatePost`: the new post goes in front; the existing posts keep their order. */
    method HandleCreatePost(data: CreatePostDialog.FormData, now: nat)
      modifies this
      ensures posts == [NewPost(data, now)] + old(posts)
      ensures |posts| == |old(posts)| + 1 && posts[1..] == old(posts)
      ensures activeTab == old(activeTab)
      ensures multiset(FilteredPosts()) == multiset(old(FilteredPosts())) + multiset{NewPost(data, now)}
    {
      posts := [NewPost(data, now)] + posts;
    }

    /** The dialog's `onSubmit` wired to `handleCreatePost`: the feed gains exactly the new post
        when the dialog publishes, and is unchanged otherwise. */
    method Submit(dialog: CreatePostDialog.Dialog, now: nat) returns (outcome: CreatePostDialog.Outcome)
      modifies this, dialog, dialog.guard
      ensures !CreatePostDialog.Complete(old(dialog.formData)) ==> outcome == CreatePostDialog.MissingFields
      ensures CreatePostDialog.Complete(old(dialog.formData)) && !SpamProtection.CanPostAt(old(dialog.guard.lastPostTime), now) ==>
        outcome == CreatePostDialog.CoolingDown(
          SpamProtection.WaitSeconds(SpamProtection.CooldownRemaining(old(dialog.guard.lastPostTime), now)))
      ensures CreatePostDialog.Complete(old(dialog.formData)) && SpamProtection.CanPostAt(old(dialog.guard.lastPostTime), now) ==>
        && outcome == CreatePostDialog.Published(old(dialog.formData))
        && dialog.guard.lastPostTime == Some(now)
      ensures outcome.Published? ==> posts == [NewPost(outcome.data, now)] + old(posts)
      ensures !outcome.Published? ==> posts == old(posts) && dialog.guard.lastPostTime == old(dialog.guard.lastPostTime)
      ensures outcome.Published? ==> dialog.formData == CreatePostDialog.EmptyForm && !dialog.open
      ensures !outcome.Published? ==> dialog.formData == old(dialog.formData) && dialog.open == old(dialog.open)
      ensures activeTab == old(activeTab)
    {
      outcome := dialog.HandleSubmit(now);
      if outcome.Published? {
        HandleCreatePost(outcome.data, now);
      }
    }
  }

  /** Two complete submissions at the same instant: the first is published, and the second,
      after the form is filled in again, is refused with the full 60-second wait. */
  method SubmitTwiceAtOnce(page: IndexPage, dialog: CreatePostDialog.Dialog, data: CreatePostDialog.FormData, now: nat)
    returns (first: CreatePostDialog.Outcome, second: CreatePostDialog.Outcome)
    requires CreatePostDialog.Complete(data)
    requires SpamProtection.CanPostAt(dialog.guard.lastPostTime, now)
    modifies page, dialog, dialog.guard
    ensures first == CreatePostDialog.Published(data)
    ensures second == CreatePostDialog.CoolingDown(60)
    ensures page.posts == [NewPost(data, now)] + old(page.posts)
  {
    dialog.Edit(data);
    first := page.Submit(dialog, now);
    dialog.Edit(data);
    second := page.Submit(dialog, now);
    SpamProtection.RecordedPostBlocksSameInstant(now);
  }
}
