/** The records of lib/types.ts. Identifiers are opaque strings; timestamps
    are instants (the ISO-8601 strings of the store compare like them). */
module Types {
  import opened Wrappers

  type UserId = string
  type RecipeId = string
  type CommentId = string
  type Timestamp = nat

  datatype Difficulty = Easy | Medium | Hard

  /** The stored spelling of a difficulty. */
  function DifficultyName(d: Difficulty): string
  {
    match d
    case Easy => "easy"
    case Medium => "medium"
    case Hard => "hard"
  }

  /** The author columns joined from `profiles`. */
  datatype AuthorNames = AuthorNames(username: string, full_name: string)

  datatype Profile = Profile(
    id: UserId,
    username: string,
    full_name: string,
    bio: Option<string>,
    created_at: Timestamp,
    updated_at: Timestamp)

  datatype Recipe = Recipe(
    id: RecipeId,
    created_at: Timestamp,
    user_id: UserId,
    title: string,
    description: Option<string>,
    ingredients: string,
    instructions: string,
    cooking_time: Option<int>,
    difficulty: Option<Difficulty>,
    category: Option<string>,
    profiles: Option<AuthorNames>)

  /** The recipe payload sent to the store. `difficulty` is whatever string the
      form supplied: the source casts it to the enum without checking it. */
  datatype CreateRecipeData = CreateRecipeData(
    title: string,
    description: Option<string>,
    ingredients: string,
    instructions: string,
    cooking_time: Option<int>,
    difficulty: Option<string>,
    category: Option<string>)

  datatype UpdateProfileData = UpdateProfileData(
    username: Option<string>,
    full_name: Option<string>,
    bio: Option<string>)

  /** A row of `recipe_comments`. */
  datatype RecipeComment = RecipeComment(
    id: CommentId,
    recipe_id: RecipeId,
    user_id: UserId,
    content: string,
    created_at: Timestamp,
    updated_at: Timestamp)

  /** A comment row as returned by an insert or update with the author join. */
  datatype CommentWithAuthor = CommentWithAuthor(comment: RecipeComment, profiles: Option<AuthorNames>)

  /** A comment row with the author placeholders and per-viewer stats attached. */
  datatype CommentWithStats = CommentWithStats(
    comment: RecipeComment,
    profiles: Option<AuthorNames>,
    username: string,
    full_name: string,
    like_count: nat,
    user_has_liked: bool)

  datatype LikeToggleResponse = LikeToggleResponse(liked: bool, like_count: int)

  /** The result of `getRecipeLikeStatus`. */
  datatype LikeStatus = LikeStatus(isLiked: bool, likeCount: int)
}
