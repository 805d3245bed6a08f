/** The like button of a post card: an optimistic toggle applied once the
    like request has answered. */
module PostLike {
  /** What the card shows. */
  datatype LikeState = LikeState(isLiked: bool, likesCount: int)

  /** `handleLike` after the request answered, `ok` being whether it succeeded. */
  function HandleLike(s: LikeState, ok: bool): (r: LikeState)
    ensures !ok ==> r == s
    ensures ok ==> r.isLiked == !s.isLiked
    ensures ok && s.isLiked ==> r.likesCount == s.likesCount - 1
    ensures ok && !s.isLiked ==> r.likesCount == s.likesCount + 1
  {
    if !ok then s
    else LikeState(!s.isLiked, if s.isLiked then s.likesCount - 1 else s.likesCount + 1)
  }

  /** The count moves with the flag: a liked card counts one more than the
      same card unliked. */
  predicate Consistent(s: LikeState, base: int) {
    s.likesCount == base + (if s.isLiked then 1 else 0)
  }

  /** A toggle keeps the count in step with the flag. */
  lemma HandleLikeConsistent(s: LikeState, ok: bool, base: int)
    requires Consistent(s, base)
    ensures Consistent(HandleLike(s, ok), base)
  {
  }

  /** Two successful toggles restore the card. */
  lemma ToggleTwice(s: LikeState)
    ensures HandleLike(HandleLike(s, true), true) == s
  {
  }
}
