/** The recipe like button of app/components/social/like-button.tsx: its
    state is the shown liked flag and count, seeded from the props, and the
    pending flag of the running transition. A click is split in two: `Begin`
    starts the toggle action and `Finish` applies its outcome. */
module LikeButtonComponent {
  import opened Wrappers
  import opened Types
  import Social

  class LikeButton {
    const recipeId: RecipeId
    const initialLiked: bool
    const initialCount: int
    const showCount: bool
    var isLiked: bool
    var likeCount: int
    var isPending: bool

    constructor (recipeId: RecipeId, initialLiked: bool, initialCount: int, showCount: bool)
      ensures this.recipeId == recipeId && this.initialLiked == initialLiked
      ensures this.initialCount == initialCount && this.showCount == showCount
      ensures isLiked == initialLiked && likeCount == initialCount && !isPending
    {
      this.recipeId := recipeId;
      this.initialLiked := initialLiked;
      this.initialCount := initialCount;
      this.showCount := showCount;
      isLiked := initialLiked;
      likeCount := initialCount;
      isPending := false;
    }

    /** The button is disabled while the transition runs. */
    function Disabled(): (r: bool)
      reads this
      ensures r <==> isPending
    {
      isPending
    }

    /** The count the button renders, when `showCount` asks for one. */
    function ShownCount(): (r: Option<int>)
      reads this
      ensures r.Some? <==> showCount
      ensures r.Some? ==> r.value == likeCount
    {
      if showCount then Some(likeCount) else None
    }

    /** A click: on an enabled button it starts the toggle of this recipe;
        on a disabled one nothing happens. */
    method BeginToggle() returns (request: Option<RecipeId>)
      modifies this`isPending
      ensures old(isPending) ==> request == None && isPending
      ensures !old(isPending) ==> request == Some(recipeId) && isPending
    {
      if isPending {
        return None;
      }
      isPending := true;
      request := Some(recipeId);
    }

    /** The action settled: a result replaces the shown state; a thrown error
        puts back the values the button was created with. */
    method FinishToggle(outcome: Result<LikeToggleResponse>)
      requires isPending
      modifies this`isLiked, this`likeCount, this`isPending
      ensures !isPending
      ensures outcome.Ok? ==> isLiked == outcome.value.liked && likeCount == outcome.value.like_count
      ensures outcome.Err? ==> isLiked == initialLiked && likeCount == initialCount
    {
      if outcome.Ok? {
        isLiked, likeCount := outcome.value.liked, outcome.value.like_count;
      } else {
        isLiked, likeCount := initialLiked, initialCount;
      }
      isPending := false;
    }
  }

  /** One click on an enabled button, run against the store: when the
      toggle falls back to the manual sequence and succeeds, the button
      shows the viewer's like and the recount exactly as the store now holds
      them; when the action fails, it shows its initial props. */
  method Click(button: LikeButton, store: Social.SocialStore, viewer: Option<UserId>,
               rpc: Social.RpcOutcome, faults: Social.ToggleFaults)
    requires !button.isPending
    modifies button, store`recipeLikes
    ensures !button.isPending
    ensures viewer.Some? && Social.UsesManualPath(rpc) && !faults.countFails &&
            store.recipeLikes == Social.Toggled(old(store.recipeLikes), button.recipeId, viewer.value) ==>
      && button.isLiked == ((button.recipeId, viewer.value) in store.recipeLikes)
      && button.likeCount == Social.LikeCount(store.recipeLikes, button.recipeId)
    ensures viewer.None? ==> button.isLiked == button.initialLiked && button.likeCount == button.initialCount
  {
    var request := button.BeginToggle();
    var outcome := store.ToggleRecipeLike(viewer, request.value, rpc, faults);
    button.FinishToggle(outcome);
  }
}
