/** The like and share actions of the poem page (pages/PoemDetailPage.tsx). */
module PoemDetailPage {
  import opened Types
  import opened PoemService
  import opened PoemCard

  /** What a click on share does. */
  datatype ShareAction =
    | SignInRequired
    | NativeShare(title: string, text: string)
    | LinkCopied

  class PoemDetailPage {
    var poem: Option<Poem>
    var likes: int
    var isLiked: bool
    var canInteract: bool
    var isLoading: bool

    constructor ()
      ensures poem == None && likes == 0 && !isLiked && !canInteract && isLoading
    {
      poem := None;
      likes := 0;
      isLiked := false;
      canInteract := false;
      isLoading := true;
    }

    /** The fetch effect for route id `id`, with `data` the reply of getPoemById and `signedIn`,
        `liked` the replies of the auth and like checks. */
    method Fetch(id: Option<string>, data: Option<Poem>, signedIn: bool, liked: bool)
      modifies this
      ensures id.None? || id.value == "" ==>
                poem == old(poem) && likes == old(likes) && isLiked == old(isLiked)
                && canInteract == old(canInteract) && isLoading == old(isLoading)
      ensures id.Some? && id.value != "" ==>
                && poem == (if data.Some? then data else old(poem))
                && likes == (if data.Some? then data.value.likes else old(likes))
                && canInteract == signedIn
                && isLiked == (if signedIn then liked else old(isLiked))
                && !isLoading
    {
      if id.Some? && id.value != "" {
        isLoading := true;
        if data.Some? {
          poem := data;
          likes := data.value.likes;
        }
        canInteract := signedIn;
        if signedIn {
          isLiked := liked;
        }
        isLoading := false;
      }
    }

    /** handleLike: nothing without a poem or without sign-in; otherwise flips `isLiked`, shows the
        optimistic count, then the count toggleLike replies. */
    method HandleLike(store: PoemStore, fetchOk: bool, updateOk: bool) returns (optimistic: Option<int>)
      requires store.Valid()
      modifies this, store
      ensures store.Valid() && store.categories == old(store.categories)
      ensures poem == old(poem) && canInteract == old(canInteract) && isLoading == old(isLoading)
      ensures old(poem).None? || !old(canInteract) ==>
                likes == old(likes) && isLiked == old(isLiked) && store.poems == old(store.poems)
                && optimistic == None
      ensures old(poem).Some? && old(canInteract) ==>
                isLiked == !old(isLiked)
                && optimistic == Some(OptimisticLikes(old(isLiked), old(likes)))
                && likes == ToggleReply(old(store.poems), old(poem).value.id, fetchOk, updateOk)
      ensures old(poem).Some? && old(canInteract) ==>
                |store.poems| == |old(store.poems)|
                && forall i :: 0 <= i < |store.poems| ==>
                     store.poems[i] == if fetchOk && updateOk && old(store.poems)[i].id == old(poem).value.id
                                       then old(store.poems)[i].(likes := likes) else old(store.poems)[i]
    {
      if poem.None? || !canInteract {
        return None;
      }
      var prevIsLiked := isLiked;
      isLiked := !prevIsLiked;
      likes := OptimisticLikes(prevIsLiked, likes);
      optimistic := Some(likes);
      var newCount := store.ToggleLike(poem.value.id, fetchOk, updateOk);
      likes := newCount;
    }

    /** handleShare: refused without sign-in; the native share sheet when the browser has one and a
        poem is loaded; otherwise the link is copied. */
    method HandleShare(shareSupported: bool) returns (action: ShareAction)
      ensures !canInteract <==> action == SignInRequired
      ensures action.NativeShare? <==> canInteract && shareSupported && poem.Some?
      ensures action.NativeShare? ==> action.title == poem.value.title
                                      && action.text == "BeyazBulut - " + poem.value.title
    {
      if !canInteract {
        return SignInRequired;
      }
      if shareSupported && poem.Some? {
        return NativeShare(poem.value.title, "BeyazBulut - " + poem.value.title);
      }
      return LinkCopied;
    }
  }
}
