/** One rendered comment of app/components/social/comment-item.tsx: its
    like state seeded from the listing, the inline editor, the owner's
    actions menu and the error line. The one transition of the component
    runs at most one action at a time, because every control that starts one
    is disabled while it is pending; `pending` records which one it is. */
module CommentItemComponent {
  import opened Wrappers
  import opened Types
  import Text
  import CommentFormComponent
  import Social

  datatype Pending = Idle | LikePending | SavePending | DeletePending

  class CommentItem {
    const comment: CommentWithStats
    const currentUserId: Option<UserId>
    var isLiked: bool
    var likeCount: int
    var isEditing: bool
    var editContent: string
    var showActions: bool
    var error: Option<string>
    var pending: Pending

    constructor (comment: CommentWithStats, currentUserId: Option<UserId>)
      ensures this.comment == comment && this.currentUserId == currentUserId
      ensures isLiked == comment.user_has_liked && likeCount == comment.like_count
      ensures !isEditing && editContent == comment.comment.content && !showActions
      ensures error == None && pending == Idle
    {
      this.comment := comment;
      this.currentUserId := currentUserId;
      isLiked := comment.user_has_liked;
      likeCount := comment.like_count;
      isEditing := false;
      editContent := comment.comment.content;
      showActions := false;
      error := None;
      pending := Idle;
    }

    /** Only the author sees the actions menu: a signed-in viewer whose id is the comment's author. */
    function IsOwner(): (r: bool)
      ensures r <==> currentUserId.Some? && currentUserId.value == comment.comment.user_id
    {
      currentUserId == Some(comment.comment.user_id)
    }

    /** The "(edited)" marker: the two timestamps differ. */
    function WasEdited(): (r: bool)
      ensures r <==> comment.comment.updated_at != comment.comment.created_at
    {
      comment.comment.updated_at != comment.comment.created_at
    }

    /** The like button: disabled while pending or when nobody is signed in. */
    function LikeDisabled(): (r: bool)
      reads this
      ensures !r <==> pending == Idle && currentUserId.Some?
    {
      pending != Idle || currentUserId.None?
    }

    /** The save button: disabled while pending or while the draft is blank,
        that is, enabled exactly when idle and the draft passes the blank check. */
    function SaveDisabled(): (r: bool)
      reads this
      ensures !r <==> pending == Idle && CommentFormComponent.ClientCheck(editContent) != Err(Social.CommentRequired)
    {
      pending != Idle || !Text.HasText(editContent)
    }

    /** The menu button flips the menu; a click outside closes it. */
    method ToggleMenu()
      requires IsOwner()
      modifies this`showActions
      ensures showActions == !old(showActions)
    {
      showActions := !showActions;
    }

    method CloseMenu()
      modifies this`showActions
      ensures !showActions
    {
      showActions := false;
    }

    /** A click on the enabled like button (shown outside editing) starts the toggle. */
    method BeginLike() returns (request: CommentId)
      requires !isEditing && !LikeDisabled()
      modifies this`pending
      ensures pending == LikePending && request == comment.comment.id
    {
      pending := LikePending;
      request := comment.comment.id;
    }

    /** A result replaces the shown like state; a thrown error changes nothing
        that is shown. */
    method FinishLike(outcome: Result<LikeToggleResponse>)
      requires pending == LikePending
      modifies this`isLiked, this`likeCount, this`pending
      ensures pending == Idle
      ensures outcome.Ok? ==> isLiked == outcome.value.liked && likeCount == outcome.value.like_count
      ensures outcome.Err? ==> isLiked == old(isLiked) && likeCount == old(likeCount)
    {
      if outcome.Ok? {
        isLiked, likeCount := outcome.value.liked, outcome.value.like_count;
      }
      pending := Idle;
    }

    /** "Edit" in the open menu: opens the editor, closes the menu, clears the error. */
    method Edit()
      requires IsOwner() && showActions
      modifies this`isEditing, this`showActions, this`error
      ensures isEditing && !showActions && error == None
    {
      isEditing, showActions, error := true, false, None;
    }

    /** "Cancel": closes the editor and puts the stored text back in the draft. */
    method CancelEdit()
      requires isEditing && pending == Idle
      modifies this`isEditing, this`editContent, this`error
      ensures !isEditing && editContent == comment.comment.content && error == None
    {
      isEditing, editContent, error := false, comment.comment.content, None;
    }

    /** Typing into the editor, which is disabled while pending. */
    method InputDraft(value: string)
      requires isEditing && pending == Idle
      modifies this`editContent
      ensures editContent == CommentFormComponent.Typed(value)
    {
      editContent := CommentFormComponent.Typed(value);
    }

    /** `handleSaveEdit` up to the action call, with the form's check: a
        refused draft sets the error; an accepted one clears it and sends the
        trimmed draft for this comment. */
    method BeginSave() returns (send: Option<(CommentId, string)>)
      requires isEditing && pending == Idle
      modifies this`error, this`pending
      ensures CommentFormComponent.ClientCheck(editContent).Err? ==>
        send == None && error == Some(CommentFormComponent.ClientCheck(editContent).message) && pending == Idle
      ensures CommentFormComponent.ClientCheck(editContent).Ok? ==>
        send == Some((comment.comment.id, Text.Trim(editContent))) && error == None && pending == SavePending
    {
      var checked := CommentFormComponent.ClientCheck(editContent);
      if checked.Err? {
        error := Some(checked.message);
        return None;
      }
      error := None;
      pending := SavePending;
      send := Some((comment.comment.id, checked.value));
    }

    /** Success closes the editor and tells the parent; a thrown error shows
        its message and keeps the editor open. */
    method FinishSave(outcome: Result<CommentWithAuthor>) returns (updated: bool)
      requires pending == SavePending
      modifies this`isEditing, this`error, this`pending
      ensures pending == Idle
      ensures updated <==> outcome.Ok?
      ensures outcome.Ok? ==> !isEditing && error == old(error)
      ensures outcome.Err? ==> isEditing == old(isEditing) && error == Some(outcome.message)
    {
      pending := Idle;
      if outcome.Ok? {
        isEditing := false;
        return true;
      }
      error := Some(outcome.message);
      updated := false;
    }

    /** "Delete" in the open menu: nothing happens unless the confirmation
        dialog is accepted; then the delete of this comment starts. */
    method BeginDelete(confirmed: bool) returns (request: Option<CommentId>)
      requires IsOwner() && showActions && pending == Idle
      modifies this`pending
      ensures !confirmed ==> request == None && pending == Idle
      ensures confirmed ==> request == Some(comment.comment.id) && pending == DeletePending
    {
      if !confirmed {
        return None;
      }
      pending := DeletePending;
      request := Some(comment.comment.id);
    }

    /** Success tells the parent; a thrown error shows its message. */
    method FinishDelete(outcome: Result<()>) returns (deleted: bool)
      requires pending == DeletePending
      modifies this`error, this`pending
      ensures pending == Idle
      ensures deleted <==> outcome.Ok?
      ensures outcome.Ok? ==> error == old(error)
      ensures outcome.Err? ==> error == Some(outcome.message)
    {
      pending := Idle;
      if outcome.Ok? {
        return true;
      }
      error := Some(outcome.message);
      deleted := false;
    }
  }

  /** Saving the open editor against the store: a save that reports success
      has stored exactly the trimmed draft under this comment's id, and a
      refused or failed one leaves the store's comments as they were. */
  method Save(item: CommentItem, store: Social.SocialStore, viewer: Option<UserId>, now: Timestamp,
              faults: Social.CommentFaults)
    returns (updated: bool)
    requires item.isEditing && item.pending == Idle && store.Valid()
    modifies item, store`comments
    ensures store.Valid() && item.pending == Idle
    ensures updated ==> item.comment.comment.id in store.comments
                        && store.comments[item.comment.comment.id].content == Text.Trim(item.editContent)
                        && !item.isEditing
    ensures !updated ==> store.comments == old(store.comments)
  {
    var draft, id := item.editContent, item.comment.comment.id;
    var send := item.BeginSave();
    if send.None? {
      return false;
    }
    var text := Text.Trim(draft);
    assert send.value == (id, text);
    CommentFormComponent.ClientCheckPassesServer(draft);
    Text.TrimIdempotent(draft);
    var outcome := store.UpdateComment(viewer, id, text, now, faults);
    assert outcome.Ok? ==> id in store.comments && store.comments[id].content == text;
    updated := item.FinishSave(outcome);
  }
}
