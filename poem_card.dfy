/** The like button of a poem card (components/PoemCard.tsx): an optimistic count, then the
    server's count. */
module PoemCard {
  import opened Types
  import opened PoemService

  /** The count shown right after a click: one less when the poem was liked, one more otherwise. */
  function OptimisticLikes(wasLiked: bool, likes: int): (r: int)
    ensures r == likes - 1 || r == likes + 1
    ensures wasLiked <==> r < likes
  {
    if wasLiked then likes - 1 else likes + 1
  }

  /** The arguments `onLikeUpdate` receives. */
  datatype LikeUpdate = LikeUpdate(id: string, likes: int)

  class PoemCard {
    const poem: Poem
    var likes: int
    var isLiked: bool
    var canInteract: bool

    constructor (poem: Poem)
      ensures this.poem == poem && likes == poem.likes && !isLiked && !canInteract
    {
      this.poem := poem;
      likes := poem.likes;
      isLiked := false;
      canInteract := false;
    }

    /** The auth effect: a signed-in reader may interact, and sees whether they liked the poem. */
    method CheckAuth(signedIn: bool, liked: bool)
      modifies this
      ensures canInteract == signedIn && likes == old(likes)
      ensures isLiked == if signedIn then liked else old(isLiked)
    {
      canInteract := signedIn;
      if signedIn {
        isLiked := liked;
      }
    }

    /** handleLike: refused without sign-in; otherwise flips `isLiked`, shows the optimistic count,
        calls toggleLike and shows the count it replies, and hands that count to `onLikeUpdate`
        when the card has one. */
    method HandleLike(store: PoemStore, fetchOk: bool, updateOk: bool, hasCallback: bool)
      returns (optimistic: Option<int>, update: Option<LikeUpdate>)
      requires store.Valid()
      modifies this, store
      ensures store.Valid() && store.categories == old(store.categories)
      ensures !old(canInteract) ==>
                likes == old(likes) && isLiked == old(isLiked) && store.poems == old(store.poems)
                && optimistic == None && update == None
      ensures old(canInteract) ==>
                isLiked == !old(isLiked)
                && optimistic == Some(OptimisticLikes(old(isLiked), old(likes)))
                && likes == ToggleReply(old(store.poems), poem.id, fetchOk, updateOk)
                && update == if hasCallback then Some(LikeUpdate(poem.id, likes)) else None
      ensures old(canInteract) ==>
                |store.poems| == |old(store.poems)|
                && forall i :: 0 <= i < |store.poems| ==>
                     store.poems[i] == if fetchOk && updateOk && old(store.poems)[i].id == poem.id
                                       then old(store.poems)[i].(likes := likes) else old(store.poems)[i]
      // the server only ever increments: an un-like click on an up-to-date card ends one higher
      ensures old(canInteract) && old(isLiked) && fetchOk && updateOk && HasId(old(store.poems), poem.id)
              && StoredLikes(old(store.poems), poem.id) == old(likes)
              ==> likes == old(likes) + 1 && !isLiked
      ensures canInteract == old(canInteract)
    {
      if !canInteract {
        return None, None;
      }
      var prevIsLiked := isLiked;
      isLiked := !prevIsLiked;
      likes := OptimisticLikes(prevIsLiked, likes);
      optimistic := Some(likes);
      var newCount := store.ToggleLike(poem.id, fetchOk, updateOk);
      likes := newCount;
      update := if hasCallback then Some(LikeUpdate(poem.id, newCount)) else None;
    }
  }
}
