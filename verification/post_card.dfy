/**
 * A feed post's local state: liked, bookmarked, comments shown, and the
 * displayed like count, which the like button keeps in step with `liked`.
 */
module PostCard {

  /** The new `(liked, likesCount)` after `handleLike`. */
  function LikeStep(liked: bool, likesCount: int): (r: (bool, int))
    ensures r.0 == !liked
    ensures r.1 == likesCount + (if liked then -1 else 1)
  {
    (!liked, if liked then likesCount - 1 else likesCount + 1)
  }

  /** Two presses of the like button restore both flag and count. */
  lemma LikeTwiceRestores(liked: bool, likesCount: int)
    ensures var r := LikeStep(liked, likesCount); LikeStep(r.0, r.1) == (liked, likesCount)
  {
  }

  class PostCardState {
    const postLikes: int
    var liked: bool
    var bookmarked: bool
    var showComments: bool
    var likesCount: int

    /** The shown count is the post's likes plus this viewer's own like. */
    predicate Valid()
      reads this
    {
      likesCount == postLikes + (if liked then 1 else 0)
    }

    constructor (postLikes: int)
      ensures this.postLikes == postLikes
      ensures !liked && !bookmarked && !showComments && likesCount == postLikes
      ensures Valid()
    {
      this.postLikes := postLikes;
      liked, bookmarked, showComments := false, false, false;
      likesCount := postLikes;
    }

    /** `handleLike`. */
    method HandleLike()
      requires Valid()
      modifies this
      ensures Valid()
      ensures (liked, likesCount) == LikeStep(old(liked), old(likesCount))
      ensures bookmarked == old(bookmarked) && showComments == old(showComments)
    {
      if liked {
        likesCount := likesCount - 1;
      } else {
        likesCount := likesCount + 1;
      }
      liked := !liked;
    }

    /** The bookmark button. */
    method ToggleBookmark()
      requires Valid()
      modifies this`bookmarked
      ensures Valid()
      ensures bookmarked == !old(bookmarked)
    {
      bookmarked := !bookmarked;
    }

    /** The comment icon and the "View all comments" link. */
    method ToggleComments()
      requires Valid()
      modifies this`showComments
      ensures Valid()
      ensures showComments == !old(showComments)
    {
      showComments := !showComments;
    }
  }

  /** Liking twice, or toggling bookmark or comments twice, leaves the card as it was. */
  method TogglesAreInvolutions(card: PostCardState)
    requires card.Valid()
    modifies card
    ensures card.liked == old(card.liked) && card.likesCount == old(card.likesCount)
    ensures card.bookmarked == old(card.bookmarked) && card.showComments == old(card.showComments)
  {
    card.HandleLike();
    card.HandleLike();
    card.ToggleBookmark();
    card.ToggleBookmark();
    card.ToggleComments();
    card.ToggleComments();
  }
}
