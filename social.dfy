/** The social-engagement server actions of lib/actions/social.ts over an
    in-memory picture of the store: the recipe-like and comment-like tables
    (sets of (target, user) pairs, so each pair occurs at most once, as the
    tables' composite unique keys demand), the comment table keyed by id, and
    the author names of the profiles table. The signed-in user, the outcome
    of the stored like-toggle routines and the failures the store may report
    are inputs of each action. */
module Social {
  import opened Wrappers
  import opened Types
  import Text

  /** The store's error code for "`.single()` found no row". */
  const NoRowsCode := "PGRST116"
  const MaxCommentLength := 1000

  const LoginToLikeRecipes := "You must be logged in to like recipes"
  const FailedToCheckLike := "Failed to check like status"
  const FailedToRemoveLike := "Failed to remove like"
  const FailedToAddLike := "Failed to add like"
  const FailedToGetLikeCount := "Failed to get like count"
  const LoginToComment := "You must be logged in to comment"
  const CommentRequired := "Comment content is required"
  const CommentTooLong := "Comment must be 1000 characters or less"
  const FailedToCreateComment := "Failed to create comment"
  const LoginToUpdateComments := "You must be logged in to update comments"
  const CommentNotFound := "Comment not found"
  const OnlyUpdateOwn := "You can only update your own comments"
  const FailedToUpdateComment := "Failed to update comment"
  const LoginToDeleteComments := "You must be logged in to delete comments"
  const OnlyDeleteOwn := "You can only delete your own comments"
  const FailedToDeleteComment := "Failed to delete comment"
  const LoginToLikeComments := "You must be logged in to like comments"
  const FailedToToggleLike := "Failed to toggle like"
  /** The TypeError the runtime throws when `data.liked` is read from `null`. */
  const NullDataMessage := "Cannot read properties of null (reading 'liked')"

  // ---------------------------------------------------------------- like tables

  /** The rows of a like table that reference `target`. */
  function LikeRows<K(==)>(likes: set<(K, UserId)>, target: K): set<(K, UserId)>
  {
    set p | p in likes && p.0 == target
  }

  /** The exact row count `select('*', { count: 'exact' }).eq(target)` returns. */
  function LikeCount<K(==)>(likes: set<(K, UserId)>, target: K): nat
  {
    |LikeRows(likes, target)|
  }

  /** The users who currently like `target`. */
  function Likers<K(==)>(likes: set<(K, UserId)>, target: K): set<UserId>
  {
    set p | p in likes && p.0 == target :: p.1
  }

  /** The like table after deleting the (target, user) row if it exists and inserting it otherwise. */
  function Toggled<K(==)>(likes: set<(K, UserId)>, target: K, user: UserId): (r: set<(K, UserId)>)
    ensures (target, user) in r <==> (target, user) !in likes
    ensures forall p | p in likes && p != (target, user) :: p in r
    ensures forall p | p in r && p != (target, user) :: p in likes
  {
    if (target, user) in likes then likes - {(target, user)} else likes + {(target, user)}
  }

  /** Toggling the same pair twice restores the table. */
  lemma ToggleTwice<K>(likes: set<(K, UserId)>, target: K, user: UserId)
    ensures Toggled(Toggled(likes, target, user), target, user) == likes
  {
  }

  /** A toggle moves the target's count by exactly one and leaves every other target's count alone. */
  lemma LikeCountAfterToggle<K>(likes: set<(K, UserId)>, target: K, user: UserId, other: K)
    ensures LikeCount(Toggled(likes, target, user), target) ==
      if (target, user) in likes then LikeCount(likes, target) - 1 else LikeCount(likes, target) + 1
    ensures other != target ==> LikeCount(Toggled(likes, target, user), other) == LikeCount(likes, other)
  {
    var pair := (target, user);
    var after := Toggled(likes, target, user);
    if pair in likes {
      assert LikeRows(after, target) == LikeRows(likes, target) - {pair};
    } else {
      assert LikeRows(after, target) == LikeRows(likes, target) + {pair};
    }
    if other != target {
      assert LikeRows(after, other) == LikeRows(likes, other);
    }
  }

  /** The row count equals the number of distinct users liking the target:
      the table keeps one row per (target, user). */
  lemma {:induction false} LikeCountIsDistinctUsers<K>(likes: set<(K, UserId)>, target: K)
    ensures LikeCount(likes, target) == |Likers(likes, target)|
    decreases |likes|
  {
    if LikeRows(likes, target) != {} {
      var p :| p in LikeRows(likes, target);
      var rest := likes - {p};
      LikeCountIsDistinctUsers(rest, target);
      assert LikeRows(likes, target) == LikeRows(rest, target) + {p};
      assert Likers(likes, target) == Likers(rest, target) + {p.1};
      assert p.1 !in Likers(rest, target) by {
        forall q | q in rest && q.0 == target ensures q.1 != p.1 {
          assert q != p;
        }
      }
    } else {
      assert forall q | q in likes :: q !in LikeRows(likes, target);
      assert forall q | q in likes :: q.0 != target;
    }
  }

  // ---------------------------------------------------------------- lookups

  /** What a `.single()` lookup of one like row tells the action. */
  datatype Lookup = Found | NotFound | LookupFailed

  /** The lookup outcome: with no reported error the row's presence decides;
      the "no row" code counts as not found; any other code is a failure. */
  function LookupRow(present: bool, error: Option<string>): (r: Lookup)
    ensures r == Found <==> present && error.None?
    ensures r == LookupFailed <==> error.Some? && error.value != NoRowsCode
  {
    match error
    case None => if present then Found else NotFound
    case Some(code) => if code == NoRowsCode then NotFound else LookupFailed
  }

  /** What the `toggle_recipe_like` / `toggle_comment_like` routine call produced:
      it threw, or it returned an error flag and possibly data. */
  datatype RpcOutcome = RpcThrew(message: string) | RpcReturned(failed: bool, data: Option<LikeToggleResponse>)

  /** The recipe toggle falls back to the manual sequence unless the routine
      returned data without an error. */
  predicate UsesManualPath(rpc: RpcOutcome)
  {
    rpc.RpcThrew? || rpc.failed || rpc.data.None?
  }

  /** Store failures on the manual toggle path: the error (code) the lookup
      reports, a failing delete/insert, a failing recount. */
  datatype ToggleFaults = ToggleFaults(lookupError: Option<string>, writeFails: bool, countFails: bool)

  /** The manual toggle's effect and answer, from the table before and after. */
  ghost predicate ManualToggleOutcome(before: set<(RecipeId, UserId)>, after: set<(RecipeId, UserId)>,
                                      r: Result<LikeToggleResponse>, target: RecipeId, user: UserId,
                                      faults: ToggleFaults)
  {
    var pair := (target, user);
    var lookup := LookupRow(pair in before, faults.lookupError);
    var rejected := lookup == LookupFailed || faults.writeFails || (lookup == NotFound && pair in before);
    && (lookup == LookupFailed ==> r == Err(FailedToCheckLike))
    && (lookup == Found && faults.writeFails ==> r == Err(FailedToRemoveLike))
    && (lookup == NotFound && (faults.writeFails || pair in before) ==> r == Err(FailedToAddLike))
    && (rejected ==> after == before)
    && (!rejected ==> after == Toggled(before, target, user))
    && (!rejected && faults.countFails ==> r == Err(FailedToGetLikeCount))
    && (!rejected && !faults.countFails ==> r == Ok(LikeToggleResponse(pair in after, LikeCount(after, target))))
  }

  /** A successful manual toggle flips the viewer's like and reports the recount. */
  lemma ManualToggleSuccess(before: set<(RecipeId, UserId)>, after: set<(RecipeId, UserId)>,
                            r: Result<LikeToggleResponse>, target: RecipeId, user: UserId, faults: ToggleFaults)
    requires ManualToggleOutcome(before, after, r, target, user, faults)
    requires r.Ok?
    ensures after == Toggled(before, target, user)
    ensures r.value.liked <==> (target, user) !in before
    ensures r.value.like_count ==
      if (target, user) in before then LikeCount(before, target) - 1 else LikeCount(before, target) + 1
  {
    LikeCountAfterToggle(before, target, user, target);
  }

  /** Two successful toggles in a row: the second answer flips `liked` back,
      reports the original count, and the table is as it was. */
  lemma ToggleTwiceRestores(before: set<(RecipeId, UserId)>, mid: set<(RecipeId, UserId)>, after: set<(RecipeId, UserId)>,
                            r1: Result<LikeToggleResponse>, r2: Result<LikeToggleResponse>,
                            target: RecipeId, user: UserId, f1: ToggleFaults, f2: ToggleFaults)
    requires ManualToggleOutcome(before, mid, r1, target, user, f1) && r1.Ok?
    requires ManualToggleOutcome(mid, after, r2, target, user, f2) && r2.Ok?
    ensures after == before
    ensures r2.value.liked == !r1.value.liked
    ensures r2.value.like_count == LikeCount(before, target)
  {
    ManualToggleSuccess(before, mid, r1, target, user, f1);
    ManualToggleSuccess(mid, after, r2, target, user, f2);
    ToggleTwice(before, target, user);
  }

  // ---------------------------------------------------------------- comments

  /** The content check of create and update: trimmed first, then non-empty,
      then at most 1000 characters as `length` counts them (UTF-16 units). */
  function ValidateCommentContent(raw: string): (r: Result<string>)
    ensures r.Ok? <==> Text.HasText(raw) && Text.Utf16Length(Text.Trim(raw)) <= MaxCommentLength
    ensures r.Ok? ==> r.value == Text.Trim(raw) && 1 <= |r.value| && Text.Utf16Length(r.value) <= MaxCommentLength
    ensures Text.IsBlank(raw) ==> r == Err(CommentRequired)
    ensures !Text.IsBlank(raw) && Text.Utf16Length(Text.Trim(raw)) > MaxCommentLength ==> r == Err(CommentTooLong)
  {
    var content := Text.Trim(raw);
    if content == [] then Err(CommentRequired)
    else if Text.Utf16Length(content) > MaxCommentLength then Err(CommentTooLong)
    else Ok(content)
  }

  /** The existence and ownership guard shared by update and delete. */
  function OwnedComment(comments: map<CommentId, RecipeComment>, id: CommentId, user: UserId,
                        lookupFails: bool, notOwnerMessage: string): (r: Result<RecipeComment>)
    ensures r.Ok? <==> !lookupFails && id in comments && comments[id].user_id == user
    ensures r.Ok? ==> r.value == comments[id]
    ensures (lookupFails || id !in comments) ==> r == Err(CommentNotFound)
    ensures !lookupFails && id in comments && comments[id].user_id != user ==> r == Err(notOwnerMessage)
  {
    if lookupFails || id !in comments then Err(CommentNotFound)
    else if comments[id].user_id != user then Err(notOwnerMessage)
    else Ok(comments[id])
  }

  /** Store failures of a comment update or delete: the existence check, the write. */
  datatype CommentFaults = CommentFaults(lookupFails: bool, writeFails: bool)

  /** Store failures of the comment listing: the ordered select, and the
      per-comment count and viewer-like queries whose errors the code ignores. */
  datatype ListFaults = ListFaults(fetchFails: bool, countFails: set<CommentId>, likeLookupFails: set<CommentId>)

  function ProfileOf(profiles: map<UserId, AuthorNames>, user: UserId): (r: Option<AuthorNames>)
    ensures r.Some? <==> user in profiles
    ensures r.Some? ==> r.value == profiles[user]
  {
    if user in profiles then Some(profiles[user]) else None
  }

  /** `profiles?.username || 'Unknown'`: a missing profile or an empty name gives the placeholder. */
  function DisplayUsername(p: Option<AuthorNames>): (r: string)
    ensures r != ""
    ensures p.Some? && p.value.username != "" ==> r == p.value.username
    ensures !(p.Some? && p.value.username != "") ==> r == "Unknown"
  {
    if p.Some? && p.value.username != "" then p.value.username else "Unknown"
  }

  /** `profiles?.full_name || 'Unknown User'`. */
  function DisplayFullName(p: Option<AuthorNames>): (r: string)
    ensures r != ""
    ensures p.Some? && p.value.full_name != "" ==> r == p.value.full_name
    ensures !(p.Some? && p.value.full_name != "") ==> r == "Unknown User"
  {
    if p.Some? && p.value.full_name != "" then p.value.full_name else "Unknown User"
  }

  /** One listed comment with its author placeholders, its like count and the viewer's like flag. */
  function WithStats(c: RecipeComment, profiles: map<UserId, AuthorNames>, commentLikes: set<(CommentId, UserId)>,
                     viewer: Option<UserId>, faults: ListFaults): (r: CommentWithStats)
    ensures r.comment == c
    ensures r.like_count == if c.id in faults.countFails then 0 else LikeCount(commentLikes, c.id)
    ensures r.user_has_liked <==> viewer.Some? && c.id !in faults.likeLookupFails && (c.id, viewer.value) in commentLikes
    ensures viewer.None? ==> !r.user_has_liked
  {
    var author := ProfileOf(profiles, c.user_id);
    CommentWithStats(
      c, author, DisplayUsername(author), DisplayFullName(author),
      if c.id in faults.countFails then 0 else LikeCount(commentLikes, c.id),
      viewer.Some? && c.id !in faults.likeLookupFails && (c.id, viewer.value) in commentLikes)
  }

  predicate SortedByCreation(rows: seq<RecipeComment>)
  {
    forall i, j | 0 <= i < j < |rows| :: rows[i].created_at <= rows[j].created_at
  }

  predicate DistinctIds(rows: seq<RecipeComment>)
  {
    forall i, j | 0 <= i < j < |rows| :: rows[i].id != rows[j].id
  }

  /** Places `c` after every row created no later than it. */
  function InsertByCreation(rows: seq<RecipeComment>, c: RecipeComment): (r: seq<RecipeComment>)
    ensures |r| == |rows| + 1
    ensures forall x :: x in r <==> x in rows || x == c
    ensures SortedByCreation(rows) ==> SortedByCreation(r)
    ensures DistinctIds(rows) && (forall i | 0 <= i < |rows| :: rows[i].id != c.id) ==> DistinctIds(r)
    decreases |rows|
  {
    if rows == [] then [c]
    else if c.created_at < rows[0].created_at then
      [c] + rows
    else
      var tail := InsertByCreation(rows[1..], c);
      var r := [rows[0]] + tail;
      assert rows == [rows[0]] + rows[1..];
      HeadBeforeRest(rows, c, tail);
      assert rows[0].created_at <= c.created_at;
      ConsKeepsOrder(rows[0], tail);
      ConsKeepsIds(rows[0], tail);
      r
  }

  /** What `InsertByCreation` learns about the rows after the head of `rows`. */
  lemma HeadBeforeRest(rows: seq<RecipeComment>, c: RecipeComment, tail: seq<RecipeComment>)
    requires rows != []
    requires forall x :: x in tail <==> x in rows[1..] || x == c
    ensures SortedByCreation(rows) ==> forall i | 0 <= i < |tail| && tail[i] != c :: rows[0].created_at <= tail[i].created_at
    ensures DistinctIds(rows) ==> forall i | 0 <= i < |tail| && tail[i] != c :: tail[i].id != rows[0].id
  {
    forall i | 0 <= i < |tail| && tail[i] != c
      ensures exists k | 1 <= k < |rows| :: rows[k] == tail[i]
    {
      assert tail[i] in tail;
      var k :| 0 <= k < |rows[1..]| && rows[1..][k] == tail[i];
      assert rows[k + 1] == tail[i];
    }
  }

  /** A head created no later than every row of a sorted list keeps it sorted. */
  lemma ConsKeepsOrder(h: RecipeComment, t: seq<RecipeComment>)
    ensures SortedByCreation(t) && (forall i | 0 <= i < |t| :: h.created_at <= t[i].created_at) ==> SortedByCreation([h] + t)
  {
    var r := [h] + t;
    assert forall i | 1 <= i < |r| :: r[i] == t[i - 1];
  }

  /** A head whose id no row of `t` has keeps the ids distinct. */
  lemma ConsKeepsIds(h: RecipeComment, t: seq<RecipeComment>)
    ensures DistinctIds(t) && (forall i | 0 <= i < |t| :: t[i].id != h.id) ==> DistinctIds([h] + t)
  {
    var r := [h] + t;
    assert forall i | 1 <= i < |r| :: r[i] == t[i - 1];
  }

  /** `toggleCommentLikeAction`: sign-in check, then the routine's answer;
      a routine error becomes 'Failed to toggle like', a `null` answer the
      runtime's TypeError. The routine's own writes are outside the model. */
  function ToggleCommentLike(viewer: Option<UserId>, rpc: RpcOutcome): (r: Result<LikeToggleResponse>)
    ensures viewer.None? ==> r == Err(LoginToLikeComments)
    ensures r.Ok? <==> viewer.Some? && rpc.RpcReturned? && !rpc.failed && rpc.data.Some?
    ensures r.Ok? ==> r.value == rpc.data.value
    ensures viewer.Some? && rpc.RpcReturned? && rpc.failed ==> r == Err(FailedToToggleLike)
  {
    if viewer.None? then Err(LoginToLikeComments)
    else
      match rpc
      case RpcThrew(message) => Err(message)
      case RpcReturned(failed, data) =>
        if failed then Err(FailedToToggleLike)
        else if data.None? then Err(NullDataMessage)
        else Ok(data.value)
  }

  /** `rows` is exactly the thread of `recipeId`: its comments, each once,
      as stored, oldest first. */
  predicate IsThread(comments: map<CommentId, RecipeComment>, recipeId: RecipeId, rows: seq<RecipeComment>)
  {
    && SortedByCreation(rows)
    && DistinctIds(rows)
    && (forall i | 0 <= i < |rows| :: rows[i].id in comments && comments[rows[i].id] == rows[i]
                                      && rows[i].recipe_id == recipeId)
    && (forall id | id in comments && comments[id].recipe_id == recipeId :: id in IdsOf(rows))
  }

  /** The ids of a sequence of comment rows. */
  function IdsOf(rows: seq<RecipeComment>): set<CommentId>
  {
    set x | x in rows :: x.id
  }

  /** The comment rows of a listing. */
  function CommentsOf(listing: seq<CommentWithStats>): (rows: seq<RecipeComment>)
    ensures |rows| == |listing|
    ensures forall i | 0 <= i < |rows| :: rows[i] == listing[i].comment
  {
    seq(|listing|, i requires 0 <= i < |listing| => listing[i].comment)
  }

  /** Every comment is filed under its own id. */
  predicate KeyedById(comments: map<CommentId, RecipeComment>)
  {
    forall id | id in comments :: comments[id].id == id
  }

  /** The select's progress: the rows gathered so far form the thread of the
      comments already visited. */
  ghost predicate Gathered(comments: map<CommentId, RecipeComment>, pending: set<CommentId>,
                           rows: seq<RecipeComment>, recipeId: RecipeId)
  {
    && pending <= comments.Keys
    && SortedByCreation(rows)
    && DistinctIds(rows)
    && (forall i | 0 <= i < |rows| :: rows[i].id in comments && comments[rows[i].id] == rows[i]
                                      && rows[i].recipe_id == recipeId && rows[i].id !in pending)
    && (forall id | id in comments && id !in pending && comments[id].recipe_id == recipeId :: id in IdsOf(rows))
  }

  /** Visiting one more comment keeps the gathered rows a thread. */
  lemma GatherStep(comments: map<CommentId, RecipeComment>, pending: set<CommentId>,
                   rows: seq<RecipeComment>, recipeId: RecipeId, id: CommentId)
    requires KeyedById(comments)
    requires Gathered(comments, pending, rows, recipeId) && id in pending
    ensures Gathered(comments, pending - {id},
                     if comments[id].recipe_id == recipeId then InsertByCreation(rows, comments[id]) else rows,
                     recipeId)
  {
    if comments[id].recipe_id == recipeId {
      var next := InsertByCreation(rows, comments[id]);
      InsertedRowsStored(comments, pending, rows, recipeId, id);
      InsertedIds(rows, comments[id]);
    }
  }

  lemma InsertedRowsStored(comments: map<CommentId, RecipeComment>, pending: set<CommentId>,
                           rows: seq<RecipeComment>, recipeId: RecipeId, id: CommentId)
    requires KeyedById(comments)
    requires Gathered(comments, pending, rows, recipeId) && id in pending
    requires comments[id].recipe_id == recipeId
    ensures var next := InsertByCreation(rows, comments[id]);
      && SortedByCreation(next) && DistinctIds(next)
      && forall k | 0 <= k < |next| :: next[k].id in comments && comments[next[k].id] == next[k]
                                       && next[k].recipe_id == recipeId && next[k].id !in pending - {id}
  {
    var c := comments[id];
    assert forall i | 0 <= i < |rows| :: rows[i].id != c.id;
    var next := InsertByCreation(rows, c);
    forall k | 0 <= k < |next|
      ensures next[k].id in comments && comments[next[k].id] == next[k]
              && next[k].recipe_id == recipeId && next[k].id !in pending - {id}
    {
      assert next[k] in next;
    }
  }

  lemma InsertedIds(rows: seq<RecipeComment>, c: RecipeComment)
    ensures IdsOf(InsertByCreation(rows, c)) == IdsOf(rows) + {c.id}
  {
    var next := InsertByCreation(rows, c);
    assert c in next;
  }

  /** With nothing left to visit, the gathered rows are the whole thread. */
  lemma GatheredAll(comments: map<CommentId, RecipeComment>, rows: seq<RecipeComment>, recipeId: RecipeId)
    requires Gathered(comments, {}, rows, recipeId)
    ensures IsThread(comments, recipeId, rows)
  {
  }

  // ---------------------------------------------------------------- the store

  class SocialStore {
    var recipeLikes: set<(RecipeId, UserId)>
    var commentLikes: set<(CommentId, UserId)>
    var comments: map<CommentId, RecipeComment>
    var profiles: map<UserId, AuthorNames>

    ghost predicate Valid()
      reads this
    {
      KeyedById(comments)
    }

    constructor (profiles: map<UserId, AuthorNames>)
      ensures Valid()
      ensures recipeLikes == {} && commentLikes == {} && comments == map[] && this.profiles == profiles
    {
      recipeLikes := {};
      commentLikes := {};
      comments := map[];
      this.profiles := profiles;
    }

    /** `toggleRecipeLikeAction`: sign-in check; the routine's answer when it
        returned data without error; otherwise the manual lookup, delete or
        insert, and recount. Only the recipe-like table can change. */
    method ToggleRecipeLike(viewer: Option<UserId>, recipeId: RecipeId, rpc: RpcOutcome, faults: ToggleFaults)
      returns (r: Result<LikeToggleResponse>)
      modifies this`recipeLikes
      ensures viewer.None? ==> r == Err(LoginToLikeRecipes) && recipeLikes == old(recipeLikes)
      ensures viewer.Some? && !UsesManualPath(rpc) ==> r == Ok(rpc.data.value) && recipeLikes == old(recipeLikes)
      ensures viewer.Some? && UsesManualPath(rpc) ==>
        ManualToggleOutcome(old(recipeLikes), recipeLikes, r, recipeId, viewer.value, faults)
    {
      if viewer.None? {
        return Err(LoginToLikeRecipes);
      }
      var user := viewer.value;
      if !UsesManualPath(rpc) {
        return Ok(rpc.data.value);
      }
      var pair := (recipeId, user);
      var lookup := LookupRow(pair in recipeLikes, faults.lookupError);
      if lookup == LookupFailed {
        return Err(FailedToCheckLike);
      }
      var liked: bool;
      if lookup == Found {
        if faults.writeFails {
          return Err(FailedToRemoveLike);
        }
        recipeLikes := recipeLikes - {pair};
        liked := false;
      } else {
        // the unique key on (recipe_id, user_id) rejects a second row
        if faults.writeFails || pair in recipeLikes {
          return Err(FailedToAddLike);
        }
        recipeLikes := recipeLikes + {pair};
        liked := true;
      }
      if faults.countFails {
        return Err(FailedToGetLikeCount);
      }
      r := Ok(LikeToggleResponse(liked, LikeCount(recipeLikes, recipeId)));
    }

    /** `getRecipeLikeStatus`: the recipe's like count and whether the viewer
        likes it; any failure answers `{isLiked: false, likeCount: 0}`. */
    method GetRecipeLikeStatus(viewer: Option<UserId>, recipeId: RecipeId, countFails: bool, lookupError: Option<string>)
      returns (s: LikeStatus)
      ensures var failed := countFails || (viewer.Some? && LookupRow((recipeId, viewer.value) in recipeLikes, lookupError) == LookupFailed);
        s == if failed then LikeStatus(false, 0)
             else LikeStatus(viewer.Some? && (recipeId, viewer.value) in recipeLikes && lookupError.None?, LikeCount(recipeLikes, recipeId))
      ensures s.isLiked ==> viewer.Some? && (recipeId, viewer.value) in recipeLikes
      ensures viewer.None? && !countFails ==> s == LikeStatus(false, LikeCount(recipeLikes, recipeId))
    {
      if countFails {
        return LikeStatus(false, 0);
      }
      var likeCount := LikeCount(recipeLikes, recipeId);
      var isLiked := false;
      if viewer.Some? {
        var lookup := LookupRow((recipeId, viewer.value) in recipeLikes, lookupError);
        if lookup == LookupFailed {
          return LikeStatus(false, 0);
        }
        isLiked := lookup == Found;
      }
      s := LikeStatus(isLiked, likeCount);
    }

    /** `createCommentAction`: sign-in check, content check, then the insert of
        a row stamped `now` for both timestamps. `newId` is the id the store
        assigns; an id already in use or a failing insert is an insert error. */
    method CreateComment(viewer: Option<UserId>, recipeId: RecipeId, content: string,
                         newId: CommentId, now: Timestamp, insertFails: bool)
      returns (r: Result<CommentWithAuthor>)
      requires Valid()
      modifies this`comments
      ensures Valid()
      ensures viewer.None? ==> r == Err(LoginToComment) && comments == old(comments)
      ensures viewer.Some? && ValidateCommentContent(content).Err? ==>
        r == Err(ValidateCommentContent(content).message) && comments == old(comments)
      ensures viewer.Some? && ValidateCommentContent(content).Ok? && (insertFails || newId in old(comments)) ==>
        r == Err(FailedToCreateComment) && comments == old(comments)
      ensures r.Ok? <==> viewer.Some? && ValidateCommentContent(content).Ok? && !insertFails && newId !in old(comments)
      ensures r.Ok? ==>
        var c := RecipeComment(newId, recipeId, viewer.value, Text.Trim(content), now, now);
        && comments == old(comments)[newId := c]
        && r.value == CommentWithAuthor(c, ProfileOf(profiles, viewer.value))
    {
      if viewer.None? {
        return Err(LoginToComment);
      }
      var checked := ValidateCommentContent(content);
      if checked.Err? {
        return Err(checked.message);
      }
      if insertFails || newId in comments {
        return Err(FailedToCreateComment);
      }
      var c := RecipeComment(newId, recipeId, viewer.value, checked.value, now, now);
      comments := comments[newId := c];
      r := Ok(CommentWithAuthor(c, ProfileOf(profiles, viewer.value)));
    }

    /** `updateCommentAction`: sign-in check, content check, existence and
        ownership check, then the write of `content` and `updated_at` only. */
    method UpdateComment(viewer: Option<UserId>, commentId: CommentId, content: string, now: Timestamp, faults: CommentFaults)
      returns (r: Result<CommentWithAuthor>)
      requires Valid()
      modifies this`comments
      ensures Valid()
      ensures viewer.None? ==> r == Err(LoginToUpdateComments) && comments == old(comments)
      ensures viewer.Some? && ValidateCommentContent(content).Err? ==>
        r == Err(ValidateCommentContent(content).message) && comments == old(comments)
      ensures viewer.Some? && ValidateCommentContent(content).Ok? &&
              OwnedComment(old(comments), commentId, viewer.value, faults.lookupFails, OnlyUpdateOwn).Err? ==>
        r == Err(OwnedComment(old(comments), commentId, viewer.value, faults.lookupFails, OnlyUpdateOwn).message)
        && comments == old(comments)
      ensures r.Err? ==> comments == old(comments)
      ensures r.Ok? <==> viewer.Some? && ValidateCommentContent(content).Ok? && !faults.writeFails &&
                         OwnedComment(old(comments), commentId, viewer.value, faults.lookupFails, OnlyUpdateOwn).Ok?
      ensures r.Ok? ==>
        var c := old(comments)[commentId].(content := Text.Trim(content), updated_at := now);
        && comments == old(comments)[commentId := c]
        && r.value == CommentWithAuthor(c, ProfileOf(profiles, c.user_id))
    {
      if viewer.None? {
        return Err(LoginToUpdateComments);
      }
      var checked := ValidateCommentContent(content);
      if checked.Err? {
        return Err(checked.message);
      }
      var existing := OwnedComment(comments, commentId, viewer.value, faults.lookupFails, OnlyUpdateOwn);
      if existing.Err? {
        return Err(existing.message);
      }
      if faults.writeFails {
        return Err(FailedToUpdateComment);
      }
      var c := existing.value.(content := checked.value, updated_at := now);
      comments := comments[commentId := c];
      r := Ok(CommentWithAuthor(c, ProfileOf(profiles, c.user_id)));
    }

    /** `deleteCommentAction`: sign-in check, existence and ownership check,
        then removal of that one comment. */
    method DeleteComment(viewer: Option<UserId>, commentId: CommentId, faults: CommentFaults)
      returns (r: Result<()>)
      requires Valid()
      modifies this`comments
      ensures Valid()
      ensures viewer.None? ==> r == Err(LoginToDeleteComments) && comments == old(comments)
      ensures viewer.Some? && OwnedComment(old(comments), commentId, viewer.value, faults.lookupFails, OnlyDeleteOwn).Err? ==>
        r == Err(OwnedComment(old(comments), commentId, viewer.value, faults.lookupFails, OnlyDeleteOwn).message)
        && comments == old(comments)
      ensures r.Err? ==> comments == old(comments)
      ensures r.Ok? <==> viewer.Some? && !faults.writeFails &&
                         OwnedComment(old(comments), commentId, viewer.value, faults.lookupFails, OnlyDeleteOwn).Ok?
      ensures r.Ok? ==> comments == old(comments) - {commentId} && commentId in old(comments)
    {
      if viewer.None? {
        return Err(LoginToDeleteComments);
      }
      var existing := OwnedComment(comments, commentId, viewer.value, faults.lookupFails, OnlyDeleteOwn);
      if existing.Err? {
        return Err(existing.message);
      }
      if faults.writeFails {
        return Err(FailedToDeleteComment);
      }
      comments := comments - {commentId};
      r := Ok(());
    }

    /** The store's `select ... .eq('recipe_id', recipeId).order('created_at')`:
        the recipe's comments, oldest first. */
    method SelectThread(recipeId: RecipeId) returns (rows: seq<RecipeComment>)
      requires Valid()
      ensures IsThread(comments, recipeId, rows)
    {
      rows := [];
      var pending := comments.Keys;
      while pending != {}
        invariant Gathered(comments, pending, rows, recipeId)
        decreases pending
      {
        var id :| id in pending;
        GatherStep(comments, pending, rows, recipeId, id);
        if comments[id].recipe_id == recipeId {
          rows := InsertByCreation(rows, comments[id]);
        }
        pending := pending - {id};
      }
    }

    /** `getRecipeComments`: the recipe's comments oldest first, each with its
        author placeholders, like count and the viewer's like flag; a failing
        select answers the empty list. */
    method GetRecipeComments(viewer: Option<UserId>, recipeId: RecipeId, faults: ListFaults)
      returns (r: seq<CommentWithStats>)
      requires Valid()
      ensures faults.fetchFails ==> r == []
      ensures !faults.fetchFails ==> IsThread(comments, recipeId, CommentsOf(r))
      ensures forall i | 0 <= i < |r| :: r[i] == WithStats(r[i].comment, profiles, commentLikes, viewer, faults)
    {
      if faults.fetchFails {
        return [];
      }
      var rows := SelectThread(recipeId);
      var authors, likes := profiles, commentLikes;
      r := seq(|rows|, i requires 0 <= i < |rows| => WithStats(rows[i], authors, likes, viewer, faults));
      assert CommentsOf(r) == rows;
    }
  }

  /** Two toggles in a row by the same signed-in user, with the routine
      unavailable and the store healthy, end where they started. */
  method ToggleTwiceScenario(store: SocialStore, user: UserId, recipeId: RecipeId)
    returns (r1: Result<LikeToggleResponse>, r2: Result<LikeToggleResponse>)
    modifies store
    ensures store.recipeLikes == old(store.recipeLikes)
    ensures r1.Ok? && r2.Ok? && r2.value.liked == !r1.value.liked
    ensures r2.value.like_count == LikeCount(old(store.recipeLikes), recipeId)
  {
    var before := store.recipeLikes;
    var healthy := ToggleFaults(None, false, false);
    r1 := store.ToggleRecipeLike(Some(user), recipeId, RpcThrew("routine missing"), healthy);
    var mid := store.recipeLikes;
    r2 := store.ToggleRecipeLike(Some(user), recipeId, RpcReturned(true, None), healthy);
    ToggleTwiceRestores(before, mid, store.recipeLikes, r1, r2, recipeId, user, healthy, healthy);
  }
}
