/** `PostDetail`: the open post's vote buttons, comment form and reply form. Each handler's
    callback (`onVote`, `onCommentVote`, `onAddComment`, `onAddReply`) is modelled by the
    event it would receive, returned from the method. */
module PostDetail {
  import opened Optional
  import opened Text
  import opened VoteStorage

  datatype Polarity = Like | Dislike

  /** `onVote(postId, voteType, isActive)` */
  datatype VoteEvent = VoteEvent(postId: string, kind: Polarity, active: bool)
  /** `onCommentVote(postId, commentId, voteType, isActive)` */
  datatype CommentVoteEvent = CommentVoteEvent(postId: string, commentId: string, kind: Polarity, active: bool)
  /** `onAddComment(postId, {content, author})` */
  datatype CommentEvent = CommentEvent(postId: string, content: string, author: Option<string>)
  /** `onAddReply(postId, commentId, {content, author})` */
  datatype ReplyEvent = ReplyEvent(postId: string, commentId: string, content: string, author: Option<string>)

  /** The button state `userLiked`/`userDisliked`. */
  datatype Buttons = Buttons(liked: bool, disliked: bool)

  /** What `handleVote` does to the buttons: the chosen polarity flips, and the other is
      switched off, so the two are never both on afterwards. */
  function Toggled(b: Buttons, kind: Polarity): (r: Buttons)
    ensures !(r.liked && r.disliked)
    ensures kind == Like ==> r.liked == !b.liked && !r.disliked
    ensures kind == Dislike ==> r.disliked == !b.disliked && !r.liked
  {
    match kind
    case Like => Buttons(!b.liked, false)
    case Dislike => Buttons(false, !b.disliked)
  }

  /** Pressing the same button twice restores that button, and leaves the other one off. */
  lemma ToggleTwice(b: Buttons, kind: Polarity)
    ensures Toggled(Toggled(b, kind), kind) ==
      if kind == Like then Buttons(b.liked, false) else Buttons(false, b.disliked)
  {
  }

  /** `author: name.trim() || undefined`: the trimmed name, or none when it is blank. */
  function AuthorOf(name: string): (a: Option<string>)
    ensures a.None? <==> Blank(name)
    ensures a.Some? ==> a.value == Trim(name) && a.value != []
  {
    var t := Trim(name);
    if t == [] then None else Some(t)
  }

  /** The cache key of a comment's votes: the prefix `comment-` followed by the comment id, so
      distinct comments have distinct keys. */
  function CommentKey(commentId: string): (k: string)
    ensures |k| == |commentId| + 8 && k[..8] == "comment-" && k[8..] == commentId
  {
    "comment-" + commentId
  }

  class PostDetail {
    /** The module-level `voteStorage`. */
    const store: Store
    /** The id of the `post` prop, or none when no post is shown. */
    var postId: Option<string>
    var userLiked: bool
    var userDisliked: bool
    var commentText: string
    var commentAuthor: string
    var replyingTo: Option<string>
    var replyText: string
    var replyAuthor: string

    constructor (store: Store)
      ensures this.store == store && postId == None
      ensures !userLiked && !userDisliked
      ensures commentText == "" && commentAuthor == ""
      ensures replyingTo == None && replyText == "" && replyAuthor == ""
    {
      this.store := store;
      postId := None;
      userLiked, userDisliked := false, false;
      commentText, commentAuthor := "", "";
      replyingTo, replyText, replyAuthor := None, "", "";
    }

    function ButtonState(): Buttons
      reads this
    {
      Buttons(userLiked, userDisliked)
    }

    /** A new `post` prop and the effect it triggers: for a post, both button flags are read
        from the vote cache; for none, the flags keep their values. The forms are untouched. */
    method ShowPost(post: Option<string>)
      modifies this
      ensures postId == post
      ensures post.Some? ==> userLiked == store.HasLiked(post.value) && userDisliked == store.HasDisliked(post.value)
      ensures post.None? ==> userLiked == old(userLiked) && userDisliked == old(userDisliked)
      ensures commentText == old(commentText) && commentAuthor == old(commentAuthor)
      ensures replyingTo == old(replyingTo) && replyText == old(replyText) && replyAuthor == old(replyAuthor)
    {
      postId := post;
      if post.Some? {
        userLiked := store.HasLiked(post.value);
        userDisliked := store.HasDisliked(post.value);
      }
    }

    /** `handleVote(kind)`. The buttons change as `Toggled` says; only the voted polarity's
        cache entry is written, with the new flag of that button; the other polarity's entry
        is left as it was; `onVote` receives the post, the polarity and the new flag. */
    method HandleVote(kind: Polarity) returns (event: Option<VoteEvent>)
      modifies this, store
      ensures postId.None? ==>
        && event == None && ButtonState() == old(ButtonState())
        && store.likesSlot == old(store.likesSlot) && store.dislikesSlot == old(store.dislikesSlot)
      ensures postId.Some? ==> ButtonState() == Toggled(old(ButtonState()), kind)
      ensures postId.Some? && kind == Like ==>
        && store.likesSlot == Saved(Put(old(store.Likes()), postId.value, userLiked))
        && store.dislikesSlot == old(store.dislikesSlot)
        && event == Some(VoteEvent(postId.value, Like, userLiked))
      ensures postId.Some? && kind == Dislike ==>
        && store.dislikesSlot == Saved(Put(old(store.Dislikes()), postId.value, userDisliked))
        && store.likesSlot == old(store.likesSlot)
        && event == Some(VoteEvent(postId.value, Dislike, userDisliked))
      ensures !(userLiked && userDisliked) || postId.None?
      ensures postId == old(postId)
      ensures commentText == old(commentText) && commentAuthor == old(commentAuthor)
      ensures replyingTo == old(replyingTo) && replyText == old(replyText) && replyAuthor == old(replyAuthor)
    {
      if postId.None? {
        return None;
      }
      var id := postId.value;
      if kind == Like {
        var newLikeState := !userLiked;
        store.SetLike(id, newLikeState);
        userLiked := newLikeState;
        userDisliked := false;
        event := Some(VoteEvent(id, Like, newLikeState));
      } else {
        var newDislikeState := !userDisliked;
        store.SetDislike(id, newDislikeState);
        userDisliked := newDislikeState;
        userLiked := false;
        event := Some(VoteEvent(id, Dislike, newDislikeState));
      }
    }

    /** `handleVote` as its comments intend it: the switched-off polarity is also cleared in
        the cache, so the cache entries for the post always agree with the buttons and can
        never hold both a like and a dislike. */
    method HandleVoteExclusive(kind: Polarity) returns (event: Option<VoteEvent>)
      modifies this, store
      ensures postId.None? ==>
        && event == None && ButtonState() == old(ButtonState())
        && store.likesSlot == old(store.likesSlot) && store.dislikesSlot == old(store.dislikesSlot)
      ensures postId.Some? ==>
        && ButtonState() == Toggled(old(ButtonState()), kind)
        && store.HasLiked(postId.value) == userLiked
        && store.HasDisliked(postId.value) == userDisliked
        && !(store.HasLiked(postId.value) && store.HasDisliked(postId.value))
        && (forall k :: k != postId.value ==> store.HasLiked(k) == old(store.HasLiked(k)))
        && (forall k :: k != postId.value ==> store.HasDisliked(k) == old(store.HasDisliked(k)))
        && event == Some(VoteEvent(postId.value, kind, if kind == Like then userLiked else userDisliked))
      ensures postId == old(postId)
      ensures commentText == old(commentText) && commentAuthor == old(commentAuthor)
      ensures replyingTo == old(replyingTo) && replyText == old(replyText) && replyAuthor == old(replyAuthor)
    {
      if postId.None? {
        return None;
      }
      var id := postId.value;
      if kind == Like {
        var newLikeState := !userLiked;
        store.SetLike(id, newLikeState);
        store.SetDislike(id, false);
        userLiked := newLikeState;
        userDisliked := false;
        event := Some(VoteEvent(id, Like, newLikeState));
      } else {
        var newDislikeState := !userDisliked;
        store.SetDislike(id, newDislikeState);
        store.SetLike(id, false);
        userDisliked := newDislikeState;
        userLiked := false;
        event := Some(VoteEvent(id, Dislike, newDislikeState));
      }
    }

    /** `handleCommentVote(commentId, kind)`: the cache flag of the chosen polarity under
        `"comment-" + commentId` flips, starting from what the cache holds; nothing else in
        the cache and nothing in the component changes. */
    method HandleCommentVote(commentId: string, kind: Polarity) returns (event: Option<CommentVoteEvent>)
      modifies store
      ensures postId.None? ==>
        event == None && store.likesSlot == old(store.likesSlot) && store.dislikesSlot == old(store.dislikesSlot)
      ensures postId.Some? && kind == Like ==>
        && store.HasLiked(CommentKey(commentId)) == !old(store.HasLiked(CommentKey(commentId)))
        && (forall k :: k != CommentKey(commentId) ==> store.HasLiked(k) == old(store.HasLiked(k)))
        && store.dislikesSlot == old(store.dislikesSlot)
        && event == Some(CommentVoteEvent(postId.value, commentId, Like, store.HasLiked(CommentKey(commentId))))
      ensures postId.Some? && kind == Dislike ==>
        && store.HasDisliked(CommentKey(commentId)) == !old(store.HasDisliked(CommentKey(commentId)))
        && (forall k :: k != CommentKey(commentId) ==> store.HasDisliked(k) == old(store.HasDisliked(k)))
        && store.likesSlot == old(store.likesSlot)
        && event == Some(CommentVoteEvent(postId.value, commentId, Dislike, store.HasDisliked(CommentKey(commentId))))
    {
      if postId.None? {
        return None;
      }
      var key := CommentKey(commentId);
      if kind == Like {
        var currentLiked := store.HasLiked(key);
        store.SetLike(key, !currentLiked);
        event := Some(CommentVoteEvent(postId.value, commentId, Like, !currentLiked));
      } else {
        var currentDisliked := store.HasDisliked(key);
        store.SetDislike(key, !currentDisliked);
        event := Some(CommentVoteEvent(postId.value, commentId, Dislike, !currentDisliked));
      }
    }

    /** The comment form's inputs. */
    method EditComment(text: string, author: string)
      modifies this
      ensures commentText == text && commentAuthor == author
      ensures postId == old(postId) && ButtonState() == old(ButtonState())
      ensures replyingTo == old(replyingTo) && replyText == old(replyText) && replyAuthor == old(replyAuthor)
    {
      commentText, commentAuthor := text, author;
    }

    /** `handleAddComment`: a blank comment, or no post, does nothing; otherwise the untrimmed
        text is sent with the trimmed author name when it is not blank, and both inputs are
        cleared. */
    method HandleAddComment() returns (event: Option<CommentEvent>)
      modifies this
      ensures Blank(old(commentText)) || postId.None? ==>
        event == None && commentText == old(commentText) && commentAuthor == old(commentAuthor)
      ensures !Blank(old(commentText)) && postId.Some? ==>
        && event == Some(CommentEvent(postId.value, old(commentText), AuthorOf(old(commentAuthor))))
        && commentText == "" && commentAuthor == ""
      ensures postId == old(postId) && ButtonState() == old(ButtonState())
      ensures replyingTo == old(replyingTo) && replyText == old(replyText) && replyAuthor == old(replyAuthor)
    {
      if Trim(commentText) == [] || postId.None? {
        return None;
      }
      event := Some(CommentEvent(postId.value, commentText, AuthorOf(commentAuthor)));
      commentText := "";
      commentAuthor := "";
    }

    /** The "reply" button of a comment: opens the reply form for it, or closes the form if it
        was already open for that comment. */
    method ToggleReplyTarget(commentId: string)
      modifies this
      ensures old(replyingTo) == Some(commentId) ==> replyingTo == None
      ensures old(replyingTo) != Some(commentId) ==> replyingTo == Some(commentId)
      ensures replyText == old(replyText) && replyAuthor == old(replyAuthor)
      ensures postId == old(postId) && ButtonState() == old(ButtonState())
      ensures commentText == old(commentText) && commentAuthor == old(commentAuthor)
    {
      replyingTo := if replyingTo == Some(commentId) then None else Some(commentId);
    }

    /** The reply form's inputs. */
    method EditReply(text: string, author: string)
      modifies this
      ensures replyText == text && replyAuthor == author && replyingTo == old(replyingTo)
      ensures postId == old(postId) && ButtonState() == old(ButtonState())
      ensures commentText == old(commentText) && commentAuthor == old(commentAuthor)
    {
      replyText, replyAuthor := text, author;
    }

    /** `handleReply(commentId)`: a blank reply, or no post, does nothing; otherwise the
        untrimmed text is sent for `commentId` with the same author rule as comments, the
        reply form is closed and both its inputs are cleared. */
    method HandleReply(commentId: string) returns (event: Option<ReplyEvent>)
      modifies this
      ensures Blank(old(replyText)) || postId.None? ==>
        && event == None && replyingTo == old(replyingTo)
        && replyText == old(replyText) && replyAuthor == old(replyAuthor)
      ensures !Blank(old(replyText)) && postId.Some? ==>
        && event == Some(ReplyEvent(postId.value, commentId, old(replyText), AuthorOf(old(replyAuthor))))
        && replyingTo == None && replyText == "" && replyAuthor == ""
      ensures postId == old(postId) && ButtonState() == old(ButtonState())
      ensures commentText == old(commentText) && commentAuthor == old(commentAuthor)
    {
      if Trim(replyText) == [] || postId.None? {
        return None;
      }
      event := Some(ReplyEvent(postId.value, commentId, replyText, AuthorOf(replyAuthor)));
      replyingTo := None;
      replyText := "";
      replyAuthor := "";
    }
  }

  /** With the handlers as written, liking a post, then disliking it, then showing it again
      lights both buttons: the like stays in the cache because the dislike does not clear it. */
  method LikeDislikeReopen(view: PostDetail, id: string)
    requires view.postId == Some(id) && !view.userLiked && !view.userDisliked
    modifies view, view.store
    ensures view.userLiked && view.userDisliked
  {
    var e1 := view.HandleVote(Like);
    var e2 := view.HandleVote(Dislike);
    view.ShowPost(Some(id));
  }

  /** The same sequence with the exclusive handler shows only the dislike. */
  method LikeDislikeReopenExclusive(view: PostDetail, id: string)
    requires view.postId == Some(id) && !view.userLiked && !view.userDisliked
    modifies view, view.store
    ensures !view.userLiked && view.userDisliked
  {
    var e1 := view.HandleVoteExclusive(Like);
    var e2 := view.HandleVoteExclusive(Dislike);
    view.ShowPost(Some(id));
  }

  /** After one exclusive vote, showing the post again gives exactly the buttons that vote
      produced, so reopening never lights both. */
  method VoteThenReopenExclusive(view: PostDetail, kind: Polarity)
    requires view.postId.Some?
    modifies view, view.store
    ensures view.ButtonState() == Toggled(old(view.ButtonState()), kind)
    ensures !(view.userLiked && view.userDisliked)
  {
    var e := view.HandleVoteExclusive(kind);
    view.ShowPost(view.postId);
  }
}
