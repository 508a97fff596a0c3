/** The new-comment form of app/components/social/comment-form.tsx and the
    client-side content check it shares with the comment editor. */
module CommentFormComponent {
  import opened Wrappers
  import opened Types
  import Text
  import Social

  /** The textarea's `maxLength`. */
  const MaxLength := 1000

  /** The textarea's value after the user enters `value`: the browser keeps
      the longest prefix of at most `maxLength` UTF-16 code units. */
  function Typed(value: string): (r: string)
    ensures Text.Utf16Length(r) <= MaxLength
    ensures Text.Utf16Length(value) <= MaxLength ==> r == value
    ensures r <= value
    ensures r != value ==> Text.Utf16Length(r) + Text.Utf16Units(value[|r|]) > MaxLength
  {
    Text.Utf16Prefix(value, MaxLength)
  }

  /** The handler's check before the action is called: non-blank, then the
      UNtrimmed `length` (in UTF-16 units) at most 1000; what is sent is the
      trimmed text. */
  function ClientCheck(content: string): (r: Result<string>)
    ensures r.Ok? <==> Text.HasText(content) && Text.Utf16Length(content) <= MaxLength
    ensures r.Ok? ==> r.value == Text.Trim(content)
    ensures !Text.HasText(content) ==> r == Err(Social.CommentRequired)
    ensures Text.HasText(content) && Text.Utf16Length(content) > MaxLength ==> r == Err(Social.CommentTooLong)
  {
    if !Text.HasText(content) then Err(Social.CommentRequired)
    else if Text.Utf16Length(content) > MaxLength then Err(Social.CommentTooLong)
    else Ok(Text.Trim(content))
  }

  /** Whatever the client lets through, the server's content check accepts
      unchanged. */
  lemma ClientCheckPassesServer(content: string)
    requires ClientCheck(content).Ok?
    ensures Social.ValidateCommentContent(ClientCheck(content).value) == Ok(ClientCheck(content).value)
  {
    Text.TrimIdempotent(content);
    Text.TrimUtf16Length(content);
  }

  /** Text entered through the textarea never trips the length check; only
      a blank entry is refused. */
  lemma TypedNeverTooLong(value: string)
    ensures ClientCheck(Typed(value)) != Err(Social.CommentTooLong)
    ensures ClientCheck(Typed(value)).Err? <==> !Text.HasText(Typed(value))
  {
  }

  class CommentForm {
    const recipeId: RecipeId
    var content: string
    var error: Option<string>
    var isPending: bool

    /** The textarea holds at most `maxLength` UTF-16 code units. */
    ghost predicate Valid()
      reads this
    {
      Text.Utf16Length(content) <= MaxLength
    }

    constructor (recipeId: RecipeId)
      ensures Valid()
      ensures this.recipeId == recipeId && content == "" && error == None && !isPending
    {
      this.recipeId := recipeId;
      content := "";
      error := None;
      isPending := false;
    }

    /** The submit button is disabled while posting or while the text is
        blank, that is, enabled exactly when idle and the text passes the
        blank check. */
    function SubmitDisabled(): (r: bool)
      reads this
      ensures !r <==> !isPending && ClientCheck(content) != Err(Social.CommentRequired)
    {
      isPending || !Text.HasText(content)
    }

    /** Typing into the textarea, which is disabled while posting. */
    method Input(value: string)
      requires !isPending
      modifies this`content
      ensures Valid()
      ensures content == Typed(value)
    {
      content := Typed(value);
    }

    /** `handleSubmit` up to the action call: a refused text sets the error;
        an accepted one clears it, starts the transition and sends the
        trimmed text. */
    method BeginSubmit() returns (send: Option<string>)
      requires !isPending
      modifies this`error, this`isPending
      ensures ClientCheck(content).Err? ==>
        send == None && error == Some(ClientCheck(content).message) && !isPending
      ensures ClientCheck(content).Ok? ==>
        send == Some(Text.Trim(content)) && error == None && isPending
    {
      var checked := ClientCheck(content);
      if checked.Err? {
        error := Some(checked.message);
        return None;
      }
      error := None;
      isPending := true;
      send := Some(checked.value);
    }

    /** The action settled: success empties the textarea and tells the
        parent; a thrown error shows its message and keeps the text. */
    method FinishSubmit(outcome: Result<CommentWithAuthor>) returns (added: bool)
      requires isPending && Valid()
      modifies this`content, this`error, this`isPending
      ensures !isPending && Valid()
      ensures added <==> outcome.Ok?
      ensures outcome.Ok? ==> content == "" && error == old(error)
      ensures outcome.Err? ==> content == old(content) && error == Some(outcome.message)
    {
      isPending := false;
      if outcome.Ok? {
        content := "";
        return true;
      }
      error := Some(outcome.message);
      added := false;
    }
  }

  /** A full post of whatever the user typed, against the store: when the
      client accepts the text and the viewer is signed in, the store fails
      only if its insert fails, and a stored comment holds exactly the text
      that was sent. */
  method Post(form: CommentForm, store: Social.SocialStore, value: string, viewer: Option<UserId>,
              newId: CommentId, now: Timestamp, insertFails: bool)
    returns (added: bool)
    requires !form.isPending && store.Valid()
    modifies form, store`comments
    ensures store.Valid() && !form.isPending
    ensures added ==> newId in store.comments && store.comments[newId].content == Text.Trim(Typed(value))
                      && form.content == ""
    ensures ClientCheck(Typed(value)).Ok? && viewer.Some? && !insertFails && newId !in old(store.comments) ==> added
  {
    form.Input(value);
    var send := form.BeginSubmit();
    if send.None? {
      return false;
    }
    ClientCheckPassesServer(form.content);
    Text.TrimIdempotent(form.content);
    var outcome := store.CreateComment(viewer, form.recipeId, send.value, newId, now, insertFails);
    added := form.FinishSubmit(outcome);
  }
}
