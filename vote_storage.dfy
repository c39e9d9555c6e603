/** The local vote cache `voteStorage`: two independent browser-storage entries,
    `schoolLikes` and `schoolDislikes`, each holding a JSON object from an entity id to a flag. */
module VoteStorage {

  /** A storage entry as `getItem` plus `JSON.parse` see it: absent (or the empty string),
      text that does not parse, or a parsed object. */
  datatype Slot = Missing | Unreadable | Saved(entries: map<string, bool>)

  /** `getLikes`/`getDislikes`: the parsed object, or `{}` when the entry is absent or unparsable. */
  function Entries(slot: Slot): (m: map<string, bool>)
    ensures slot.Saved? ==> m == slot.entries
    ensures !slot.Saved? ==> m == map[]
  {
    if slot.Saved? then slot.entries else map[]
  }

  /** `!!m[id]`: an absent key, or one that holds `false`, reads as "not voted". */
  predicate Flag(m: map<string, bool>, id: string): (b: bool)
    ensures id !in m ==> !b
    ensures id in m ==> (b <==> m[id])
  {
    id in m && m[id]
  }

  /** The read-modify-write of `setLike`/`setDislike` on the parsed object: `m[id] = true`
      when setting, `delete m[id]` when clearing. Afterwards the flag for `id` reads as `on`,
      and every other key is exactly as before. */
  function Put(m: map<string, bool>, id: string, on: bool): (r: map<string, bool>)
    ensures Flag(r, id) == on
    ensures on ==> id in r
    ensures !on ==> id !in r
    ensures r - {id} == m - {id}
  {
    if on then m[id := true] else m - {id}
  }

  /** Outside `id`, the flags read from `Put(m, id, on)` are those read from `m`. */
  lemma PutKeepsOtherFlags(m: map<string, bool>, id: string, on: bool, other: string)
    requires other != id
    ensures Flag(Put(m, id, on), other) == Flag(m, other)
  {
  }

  class Store {
    var likesSlot: Slot
    var dislikesSlot: Slot

    /** Whatever the browser holds when the page loads. */
    constructor (likes: Slot, dislikes: Slot)
      ensures likesSlot == likes && dislikesSlot == dislikes
    {
      likesSlot := likes;
      dislikesSlot := dislikes;
    }

    /** `getLikes()`: the stored likes object, or `{}` when the entry is absent or unparsable. */
    function Likes(): (m: map<string, bool>)
      reads this
      ensures likesSlot.Saved? ==> m == likesSlot.entries
      ensures !likesSlot.Saved? ==> m == map[]
    {
      Entries(likesSlot)
    }

    /** `getDislikes()`: the stored dislikes object, or `{}` when the entry is absent or unparsable. */
    function Dislikes(): (m: map<string, bool>)
      reads this
      ensures dislikesSlot.Saved? ==> m == dislikesSlot.entries
      ensures !dislikesSlot.Saved? ==> m == map[]
    {
      Entries(dislikesSlot)
    }

    /** `hasLiked(id)`: true only if the stored likes object parsed and holds `true` under `id`;
        a missing or unreadable entry, or a missing key, reads as "not liked". */
    function HasLiked(id: string): (b: bool)
      reads this
      ensures b ==> likesSlot.Saved? && id in likesSlot.entries && likesSlot.entries[id]
      ensures likesSlot.Saved? && id in likesSlot.entries && likesSlot.entries[id] ==> b
    {
      Flag(Likes(), id)
    }

    /** `hasDisliked(id)`, the same reading of the dislikes entry. */
    function HasDisliked(id: string): (b: bool)
      reads this
      ensures b ==> dislikesSlot.Saved? && id in dislikesSlot.entries && dislikesSlot.entries[id]
      ensures dislikesSlot.Saved? && id in dislikesSlot.entries && dislikesSlot.entries[id] ==> b
    {
      Flag(Dislikes(), id)
    }

    /** `setLike(id, liked)`: rewrites the likes entry with the flag for `id` set or deleted;
        an unreadable entry is replaced, starting from `{}`. The dislikes entry is untouched. */
    method SetLike(id: string, liked: bool)
      modifies this
      ensures likesSlot == Saved(Put(old(Likes()), id, liked))
      ensures dislikesSlot == old(dislikesSlot)
      ensures HasLiked(id) == liked
      ensures forall k :: k != id ==> HasLiked(k) == old(HasLiked(k))
    {
      var likes := Likes();
      if liked {
        likes := likes[id := true];
      } else {
        likes := likes - {id};
      }
      likesSlot := Saved(likes);
      forall k | k != id ensures HasLiked(k) == old(HasLiked(k)) {
        PutKeepsOtherFlags(old(Likes()), id, liked, k);
      }
    }

    /** `setDislike(id, disliked)`: the symmetric update of the dislikes entry only. */
    method SetDislike(id: string, disliked: bool)
      modifies this
      ensures dislikesSlot == Saved(Put(old(Dislikes()), id, disliked))
      ensures likesSlot == old(likesSlot)
      ensures HasDisliked(id) == disliked
      ensures forall k :: k != id ==> HasDisliked(k) == old(HasDisliked(k))
    {
      var dislikes := Dislikes();
      if disliked {
        dislikes := dislikes[id := true];
      } else {
        dislikes := dislikes - {id};
      }
      dislikesSlot := Saved(dislikes);
      forall k | k != id ensures HasDisliked(k) == old(HasDisliked(k)) {
        PutKeepsOtherFlags(old(Dislikes()), id, disliked, k);
      }
    }
  }
}
