# Recipe sharing: a Dafny model of the server actions and recipe views

This project models the core of a Next.js recipe-sharing application whose
data lives in a Supabase (PostgreSQL) store. It covers:

- the social server actions: recipe likes, comments and comment likes;
- the recipe server actions: create, update and delete;
- the profile update and the paged recipe query of the database layer;
- the client components that talk to the social actions: the like button,
  the comment form and the comment item;
- the recipe form, the recipe detail page, the recipe card and the filtered
  recipe listing.

Module layout, one module per source file:

| module | source file |
|---|---|
| `Social` | `lib/actions/social.ts` |
| `RecipeActions` | `lib/actions/recipes.ts` |
| `Database` | `lib/database.ts` |
| `LikeButtonComponent` | `app/components/social/like-button.tsx` |
| `CommentFormComponent` | `app/components/social/comment-form.tsx` |
| `CommentItemComponent` | `app/components/social/comment-item.tsx` |
| `RecipeFormComponent` | `app/components/recipes/recipe-form.tsx` |
| `RecipeDetailView` | `app/components/recipes/recipe-detail.tsx` |
| `RecipeCardView` | `app/components/recipes/recipe-card.tsx` |
| `RecipesPage` | `app/recipes/page.tsx` |

Shared modules:

- `Types`: the records of `lib/types.ts`.
- `Wrappers`: `Option` and `Result`.
- `Text`: the string operations the code relies on, namely `trim`,
  `toLowerCase`, `includes`, `split('\n')`, `parseInt`, the printing of
  integers, and `length` counted in UTF-16 code units.
- `Seqs`: list filtering.
- `Json`: `JSON.stringify` of a string list, plus a decoder for it.

How the model is built:

- The store is Dafny state. `Social.SocialStore` holds the like tables, the
  comments and the profiles. `Database.ProfileStore` holds the profiles the
  update writes.
- Everything the store or the runtime decides on its own becomes an input:
  - the answer of a database routine;
  - a failed query;
  - the error code of a `.single()` lookup;
  - the id of a new row;
  - the clock;
  - the outcome of `JSON.parse`.
- React components are classes whose fields are their `useState` variables.
- An event handler that awaits a server action is split in two. `Begin…`
  runs the code up to the `await` and returns the request it would send,
  or nothing. `Finish…` takes the server's answer.

## Model

| member | source | states |
|---|---|---|
| Social.Toggled | lib/actions/social.ts:67-96 | the manual toggle deletes the viewer's like row when it exists and inserts it otherwise; every other row is kept |
| Social.ToggleTwice | lib/actions/social.ts:67-96 | toggling the same (recipe, user) pair twice restores the like table |
| Social.LikeCountAfterToggle | lib/actions/social.ts:99-117 | after a toggle the target's exact row count moves by one (up when the row was absent, down when present); other targets' counts are unchanged |
| Social.LikeCountIsDistinctUsers | lib/actions/social.ts:99-104 | the exact count of like rows for a target equals the number of distinct users who like it |
| Social.LookupRow | lib/actions/social.ts:53-63 | a `.single()` lookup finds the row only when it exists and no error came back; an error other than PGRST116 is a failure; PGRST116 means "no row" |
| Social.ManualToggleSuccess | lib/actions/social.ts:53-117 | a successful manual toggle leaves the table toggled, reports `liked` exactly when the like was absent before, and reports the recount of the new table |
| Social.ToggleTwiceRestores | lib/actions/social.ts:53-117 | two successful manual toggles restore the table; the second answer flips `liked` back and reports the original count |
| Social.SocialStore.ToggleRecipeLike | lib/actions/social.ts:15-122 | not signed in is an error and nothing changes; a usable routine answer is returned as is; otherwise the manual path runs, with its table update and count, its lookup, write and count errors, and "Failed to toggle like" |
| Social.SocialStore.GetRecipeLikeStatus | lib/actions/social.ts:124-164 | the like count and whether the viewer likes the recipe; any failure gives not-liked and a count of 0; a signed-out viewer never likes |
| Social.ValidateCommentContent | lib/actions/social.ts:176-183 | the content is trimmed; it is accepted exactly when the trimmed text is non-empty and its `length` (UTF-16 code units) is at most 1000; otherwise the "required" or the "1000 characters or less" error |
| Social.OwnedComment | lib/actions/social.ts:239-250 | update and delete go on only for an existing comment owned by the viewer; a missing comment or failed lookup is "Comment not found"; another author's comment gives the ownership error |
| Social.SocialStore.CreateComment | lib/actions/social.ts:168-217 | sign-in check, then the content check, then the insert; a successful comment is stored under its new id with the trimmed content, the viewer and the recipe; no error path changes the store |
| Social.SocialStore.UpdateComment | lib/actions/social.ts:219-283 | sign-in, content, existence and ownership checks in the source's order; success replaces only the content and `updated_at` of that comment; every error leaves the comments unchanged |
| Social.SocialStore.DeleteComment | lib/actions/social.ts:285-327 | sign-in, existence and ownership checks; success removes exactly that comment; every error leaves the comments unchanged |
| Social.DisplayUsername | lib/actions/social.ts:375 | the username when the profile has a non-empty one, otherwise the placeholder "Unknown" |
| Social.DisplayFullName | lib/actions/social.ts:376 | the full name when the profile has a non-empty one, otherwise the placeholder "Unknown User" |
| Social.WithStats | lib/actions/social.ts:352-380 | a listed comment keeps its row; its like count is the exact count (0 when counting fails); the viewer's flag is set exactly when a signed-in viewer's lookup succeeds and finds the row |
| Social.InsertByCreation | lib/actions/social.ts:344 | inserting a row into an oldest-first list keeps it oldest first, holds exactly the old rows plus the new one, and keeps ids distinct |
| Social.GatherStep | lib/actions/social.ts:340-344 | visiting one more comment keeps the rows gathered so far the sorted thread of the recipe |
| Social.InsertedRowsStored | lib/actions/social.ts:340-344 | every row gathered into the thread is the stored comment under its own id |
| Social.InsertedIds | lib/actions/social.ts:340-344 | the ids of the gathered rows grow by exactly the inserted id |
| Social.GatheredAll | lib/actions/social.ts:340-344 | once every comment is visited, the gathered rows are exactly the recipe's comments, each once, oldest first |
| Social.SocialStore.SelectThread | lib/actions/social.ts:340-344 | the ordered select returns exactly the recipe's comments, each once, oldest first |
| Social.SocialStore.GetRecipeComments | lib/actions/social.ts:329-388 | a failed select gives an empty list; otherwise the recipe's thread, oldest first, each comment with its stats |
| Social.ToggleCommentLike | lib/actions/social.ts:392-434 | not signed in is an error; a routine answer that is not an error and has data is returned; a routine error gives "Failed to toggle like" |
| Social.SocialStore.constructor | lib/actions/social.ts:15-434 | an empty store with the given profiles keeps its invariant |
| Social.ToggleTwiceScenario | lib/actions/social.ts:15-122 | two toggles of the same recipe by one signed-in user on the manual path restore the likes; the second answer flips `liked` and reports the original count |
| RecipeActions.CookingTimeOf | lib/actions/recipes.ts:43 | an absent or empty cooking-time field gives no time; otherwise `parseInt` of the text |
| RecipeActions.CategoryOf | lib/actions/recipes.ts:45 | an empty category is dropped; any other value is kept |
| RecipeActions.ShapeRecipe | lib/actions/recipes.ts:17-46 | the title, ingredients and instructions must be non-blank, checked in that order; the record holds their trimmed text and the trimmed description, or none when the description is blank; difficulty is passed on, category and cooking time are converted |
| RecipeActions.ShapeRecipeIdempotent | lib/actions/recipes.ts:17-46 | shaping the form fields of an already shaped record gives the same record |
| RecipeActions.CookingTimeReshaped | lib/actions/recipes.ts:43 | a cooking time printed into the form and parsed again is unchanged |
| RecipeActions.DescriptionReshaped | lib/actions/recipes.ts:40 | a trimmed non-blank description stays non-blank and equal to its own trim |
| RecipeActions.CreateRecipeAction | lib/actions/recipes.ts:9-65 | sign-in first, then validation; the insert runs only with a signed-in user and valid fields; a missing row is "Failed to create recipe"; success redirects to "/recipes/" and the new id |
| RecipeActions.UpdateRecipeAction | lib/actions/recipes.ts:67-124 | the same checks; the update is sent for the given recipe id; a missing row is "Failed to update recipe"; success redirects to that recipe's page |
| RecipeActions.DeleteRecipeAction | lib/actions/recipes.ts:126-151 | sign-in first; the delete is sent for the recipe; success redirects to "/recipes"; a failed delete is "Failed to delete recipe" |
| RecipeActions.CreateRecipeFromData | lib/actions/recipes.ts:154-177 | sign-in first; the given record goes to the store unchanged; the created row is returned; a missing row is "Failed to create recipe" |
| RecipeActions.CreateAndUpdateShapeAlike | lib/actions/recipes.ts:27-46 | create and update accept and reject the same fields and send the same record |
| RecipeActions.ResubmitReachesStore | lib/actions/recipes.ts:9-65 | resubmitting the form fields of a shaped record sends the same record to the store |
| Database.UpdateData | lib/database.ts:116-133 | `updated_at` is now; a username or full name is sent only when it is non-blank, and then trimmed; bio is sent only when given and the column exists, as its trim or null when blank |
| Database.ApplyPatch | lib/database.ts:137-142 | the written profile takes each field the update sends and keeps every other field |
| Database.ApplyPatchIdempotent | lib/database.ts:137-142 | writing the same update twice equals writing it once |
| Database.UpdateNeverBlanksNames | lib/database.ts:120-133 | an update never blanks a non-blank username or full name; without the bio column the bio never changes |
| Database.ResubmitKeepsNames | lib/database.ts:120-126 | resubmitting the stored names leaves them as their trim and leaves the bio untouched |
| Database.BuildUpdateData | lib/database.ts:116-133 | the step-by-step record building produces exactly the update record |
| Database.ErrorMessage | lib/database.ts:156-171 | a message naming the 'bio' column gives the bio notice; otherwise 23505 is "username taken", 23514 is "invalid data", any other error with a message is the prefix plus that message, and one without is the plain failure |
| Database.GenericMessageKeepsDetail | lib/database.ts:167-169 | the generic message carries the store's message after the prefix and differs from the plain failure |
| Database.GenericMessagesDistinct | lib/database.ts:167-169 | two different store messages never give the same generic message |
| Database.UpdateErrorMessage | lib/database.ts:156-171 | the reassigning code computes exactly the error mapping above |
| Database.ProfileStore.constructor | lib/database.ts:100-191 | a store holding the given profiles |
| Database.ProfileStore.UpdateProfile | lib/database.ts:100-191 | a missing profile is "Profile not found" and nothing changes; a store error gives its mapped message and no data gives "no data returned", neither changing anything; success stores and returns the patched profile |
| Database.GetRecipes | lib/database.ts:194-213 | at most `limit` rows; an error or an offset past the end gives none; otherwise the contiguous window at `offset` of the newest-first rows, itself newest first |
| Database.PagesTile | lib/database.ts:204-205 | consecutive pages tile the ordered rows: the page of `a` rows at `offset` followed by the page of `b` rows at `offset + a` is the page of `a + b` rows |
| LikeButtonComponent.LikeButton.constructor | app/components/social/like-button.tsx:26-28 | the button starts with the initial liked state and count, not pending |
| LikeButtonComponent.LikeButton.Disabled | app/components/social/like-button.tsx:65 | the button is disabled exactly while a toggle is pending |
| LikeButtonComponent.LikeButton.ShownCount | app/components/social/like-button.tsx:80-84 | the count is shown exactly when `showCount` is set, and it is the current count |
| LikeButtonComponent.LikeButton.BeginToggle | app/components/social/like-button.tsx:30-35 | a click while a toggle is pending sends nothing; otherwise it marks the button pending and sends the recipe id |
| LikeButtonComponent.LikeButton.FinishToggle | app/components/social/like-button.tsx:37-43 | success shows the server's liked state and count; failure returns to the initial values |
| LikeButtonComponent.Click | app/components/social/like-button.tsx:30-46 | a click runs against the store: signed out, the button keeps its initial values; a successful manual toggle shows the flipped like and the recount |
| CommentFormComponent.Typed | app/components/social/comment-form.tsx:58-64 | the textarea's `maxLength` keeps the longest prefix of what was typed that fits in 1000 UTF-16 code units; the input itself when it fits |
| CommentFormComponent.ClientCheck | app/components/social/comment-form.tsx:24-35 | the form refuses blank content and content whose untrimmed `length` (UTF-16 code units) exceeds 1000, with the server's messages; accepted content is sent trimmed |
| CommentFormComponent.ClientCheckPassesServer | app/components/social/comment-form.tsx:24-45 | content the form sends always passes the server's content check unchanged |
| CommentFormComponent.TypedNeverTooLong | app/components/social/comment-form.tsx:32-35 | with `maxLength` in place the "too long" branch is unreachable; blank content is the only refusal |
| CommentFormComponent.CommentForm.SubmitDisabled | app/components/social/comment-form.tsx:80 | the post button is enabled exactly when nothing is pending and the text passes the blank check |
| CommentFormComponent.CommentForm.constructor | app/components/social/comment-form.tsx:20-22 | an empty form, no error, not pending |
| CommentFormComponent.CommentForm.Input | app/components/social/comment-form.tsx:58-64 | typing stores the capped text |
| CommentFormComponent.CommentForm.BeginSubmit | app/components/social/comment-form.tsx:24-45 | a refused content sets the error and sends nothing; accepted content clears the error, marks the form pending and sends the trimmed text |
| CommentFormComponent.CommentForm.FinishSubmit | app/components/social/comment-form.tsx:45-51 | success clears the content and reports the new comment; failure keeps the content and shows the error |
| CommentFormComponent.Post | app/components/social/comment-form.tsx:24-53 | a submit runs against the store: an added comment holds the trimmed typed text; valid text from a signed-in user is always added when the insert succeeds |
| CommentItemComponent.CommentItem.constructor | app/components/social/comment-item.tsx:27-33 | the item starts with the listed like state, the stored text as draft, not editing, menu closed, no error |
| CommentItemComponent.CommentItem.IsOwner | app/components/social/comment-item.tsx:35 | only a signed-in viewer whose id is the comment's author owns it |
| CommentItemComponent.CommentItem.WasEdited | app/components/social/comment-item.tsx:37 | the "(edited)" marker shows exactly when the update time differs from the creation time |
| CommentItemComponent.CommentItem.LikeDisabled | app/components/social/comment-item.tsx:217 | the like button is enabled exactly when nothing is pending and a viewer is signed in |
| CommentItemComponent.CommentItem.SaveDisabled | app/components/social/comment-item.tsx:186 | the save button is enabled exactly when nothing is pending and the draft passes the blank check |
| CommentItemComponent.CommentItem.ToggleMenu | app/components/social/comment-item.tsx:126-131 | the owner's menu button opens or closes the menu |
| CommentItemComponent.CommentItem.CloseMenu | app/components/social/comment-item.tsx:244 | clicking outside closes the menu |
| CommentItemComponent.CommentItem.BeginLike | app/components/social/comment-item.tsx:39-42 | a like click marks the item pending and sends the comment id |
| CommentItemComponent.CommentItem.FinishLike | app/components/social/comment-item.tsx:43-47 | success shows the server's liked state and count; failure keeps the previous ones |
| CommentItemComponent.CommentItem.Edit | app/components/social/comment-item.tsx:51-55 | editing opens the editor, closes the menu and clears the error |
| CommentItemComponent.CommentItem.CancelEdit | app/components/social/comment-item.tsx:57-61 | cancelling closes the editor, restores the stored text and clears the error |
| CommentItemComponent.CommentItem.InputDraft | app/components/social/comment-item.tsx:166-169 | typing in the editor stores the capped text |
| CommentItemComponent.CommentItem.BeginSave | app/components/social/comment-item.tsx:63-82 | a refused draft sets the error and sends nothing; an accepted one is sent trimmed with the comment id |
| CommentItemComponent.CommentItem.FinishSave | app/components/social/comment-item.tsx:82-88 | success closes the editor and reports the update; failure keeps the editor open and shows the error |
| CommentItemComponent.CommentItem.BeginDelete | app/components/social/comment-item.tsx:92-99 | without confirmation nothing is sent; with it the item goes pending and sends the comment id |
| CommentItemComponent.CommentItem.FinishDelete | app/components/social/comment-item.tsx:99-104 | success reports the deletion; failure shows the error |
| CommentItemComponent.Save | app/components/social/comment-item.tsx:63-90 | a save runs against the store: an updated comment is still stored; a save that did not update leaves the comments unchanged |
| RecipeFormComponent.InitialList | app/components/recipes/recipe-form.tsx:58-80 | an empty stored text gives one empty row; a JSON string list is used as is; another JSON value gives the raw text as one row; text that is not JSON gives its non-blank lines |
| RecipeFormComponent.EditReopensStoredRows | app/components/recipes/recipe-form.tsx:58-80 | editing a recipe reopens exactly the rows that were stored |
| RecipeFormComponent.Appended | app/components/recipes/recipe-form.tsx:84-86 | adding a row appends one empty row and keeps the others |
| RecipeFormComponent.WithoutIndex | app/components/recipes/recipe-form.tsx:88-92 | filtering out one index drops that row and keeps the others in order; an index out of range keeps the list |
| RecipeFormComponent.Removed | app/components/recipes/recipe-form.tsx:88-92 | the last remaining row is never removed; otherwise the row at the index is dropped |
| RecipeFormComponent.Updated | app/components/recipes/recipe-form.tsx:94-98 | editing a row replaces it and keeps the others |
| RecipeFormComponent.FormErrors | app/components/recipes/recipe-form.tsx:116-139 | one error per failed rule (blank title, no non-blank ingredient, no non-blank instruction, negative cooking time) with its message, and none otherwise |
| RecipeFormComponent.ErrorMap | app/components/recipes/recipe-form.tsx:117-137 | the error object holds one entry per failed check, under that field's key and with its message, and is empty exactly when no check failed |
| RecipeFormComponent.Payload | app/components/recipes/recipe-form.tsx:149-158 | the submitted record has the trimmed title, the non-blank rows as JSON string lists, the trimmed description or none, and the other fields unchanged |
| RecipeFormComponent.SubmittedRowsReopen | app/components/recipes/recipe-form.tsx:58-80 | rows submitted by the form reopen as their non-blank entries, in the order typed |
| RecipeFormComponent.RecipeForm.constructor | app/components/recipes/recipe-form.tsx:48-80 | a new form is empty with one empty row per list; an edit form starts from the recipe's fields and stored rows |
| RecipeFormComponent.RecipeForm.AddIngredient | app/components/recipes/recipe-form.tsx:84-86 | the ingredient list gets one empty row |
| RecipeFormComponent.RecipeForm.RemoveIngredient | app/components/recipes/recipe-form.tsx:88-92 | the ingredient row is removed unless it is the last one |
| RecipeFormComponent.RecipeForm.UpdateIngredient | app/components/recipes/recipe-form.tsx:94-98 | the ingredient row takes the new text |
| RecipeFormComponent.RecipeForm.AddInstruction | app/components/recipes/recipe-form.tsx:100-102 | the instruction list gets one empty row |
| RecipeFormComponent.RecipeForm.RemoveInstruction | app/components/recipes/recipe-form.tsx:104-108 | the instruction row is removed unless it is the last one |
| RecipeFormComponent.RecipeForm.UpdateInstruction | app/components/recipes/recipe-form.tsx:110-114 | the instruction row takes the new text |
| RecipeFormComponent.RecipeForm.SetTitle | app/components/recipes/recipe-form.tsx:184 | the title input stores its text |
| RecipeFormComponent.RecipeForm.SetDescription | app/components/recipes/recipe-form.tsx:196 | the description input stores its text |
| RecipeFormComponent.RecipeForm.SetCategory | app/components/recipes/recipe-form.tsx:208 | an empty selection clears the category |
| RecipeFormComponent.RecipeForm.SetDifficulty | app/components/recipes/recipe-form.tsx:225 | the selected difficulty is stored as given |
| RecipeFormComponent.RecipeForm.SetCookingTime | app/components/recipes/recipe-form.tsx:247 | an empty input clears the time; otherwise `parseInt` of the text |
| RecipeFormComponent.RecipeForm.ValidateForm | app/components/recipes/recipe-form.tsx:116-139 | the stored errors are exactly the rule failures, and the form is valid exactly when there are none |
| RecipeFormComponent.RecipeForm.HandleSubmit | app/components/recipes/recipe-form.tsx:141-165 | an invalid form sends nothing; a valid one sends the payload record |
| RecipeDetailView.HourLabel | app/components/recipes/recipe-detail.tsx:48 | "hour" is plural exactly when there is more than one hour |
| RecipeDetailView.MinutesText | app/components/recipes/recipe-detail.tsx:45 | a minutes label is never "Not specified" |
| RecipeDetailView.HoursText | app/components/recipes/recipe-detail.tsx:46-48 | an hours label is never "Not specified" |
| RecipeDetailView.FormatCookingTime | app/components/recipes/recipe-detail.tsx:43-49 | "Not specified" exactly for no time or 0; under an hour "<m> minutes"; otherwise "<h> hour" or "<h> hours", followed by " <rem> minutes" only when minutes remain |
| RecipeDetailView.ReadMinutesText | app/components/recipes/recipe-detail.tsx:45 | a minutes label reads back to its minutes |
| RecipeDetailView.AfterHourLabelOf | app/components/recipes/recipe-detail.tsx:48 | the hour label is followed by exactly the remaining text |
| RecipeDetailView.ReadUnitsOfHourLabel | app/components/recipes/recipe-detail.tsx:46-48 | the hour label and the remaining minutes read back to the total minutes |
| RecipeDetailView.ReadHoursText | app/components/recipes/recipe-detail.tsx:46-48 | an hours label reads back to its total minutes |
| RecipeDetailView.CookingTimeRoundTrip | app/components/recipes/recipe-detail.tsx:43-49 | the rendered time loses no minute: reading it back gives every non-zero input |
| RecipeDetailView.FirstIndex | app/components/recipes/recipe-detail.tsx:53 | the position of the first occurrence of a character |
| RecipeDetailView.ReplaceFirst | app/components/recipes/recipe-detail.tsx:53 | `replace` with a string pattern changes only the first occurrence and keeps the length |
| RecipeDetailView.FormatCategory | app/components/recipes/recipe-detail.tsx:51-54 | "Uncategorized" for none or empty; otherwise the first letter upper-cased and the first '-' after it turned into a space |
| RecipeDetailView.ParseList | app/components/recipes/recipe-detail.tsx:66-82 | a JSON string list shows its non-blank entries; a JSON value that is not an array shows the raw text as one entry; text that is not JSON, or an array whose non-string entry makes `trim` throw, shows the non-blank lines |
| RecipeDetailView.StoredRowsRoundTrip | app/components/recipes/recipe-detail.tsx:66-82 | the rows the form stores come back unchanged |
| RecipeDetailView.PlainTextRoundTrip | app/components/recipes/recipe-detail.tsx:70-71 | plain text of non-blank lines comes back line by line |
| RecipeDetailView.Flipped | app/components/recipes/recipe-detail.tsx:87-105 | a click flips the clicked entry's mark and no other |
| RecipeDetailView.FlipTwice | app/components/recipes/recipe-detail.tsx:87-105 | clicking the same entry twice restores the checklist |
| RecipeDetailView.RecipeDetail.constructor | app/components/recipes/recipe-detail.tsx:38-39 | both checklists start empty |
| RecipeDetailView.RecipeDetail.ToggleIngredient | app/components/recipes/recipe-detail.tsx:87-95 | the ingredient checklist is flipped at the index |
| RecipeDetailView.RecipeDetail.ToggleStep | app/components/recipes/recipe-detail.tsx:97-105 | the step checklist is flipped at the index |
| RecipeCardView.CompactCookingTime | app/components/recipes/recipe-card.tsx:26-32 | no label exactly for no time or 0; under an hour "<m>m"; otherwise "<h>h", followed by " <rem>m" only when minutes remain |
| RecipeCardView.ReadCompactMinutes | app/components/recipes/recipe-card.tsx:28 | "<m>m" reads back to m |
| RecipeCardView.ReadCompactUnitsOfTail | app/components/recipes/recipe-card.tsx:29-31 | the hours suffix and the remaining minutes read back to the total |
| RecipeCardView.ReadCompactHours | app/components/recipes/recipe-card.tsx:29-31 | "<h>h <rem>m" reads back to the total minutes |
| RecipeCardView.CompactCookingTimeRoundTrip | app/components/recipes/recipe-card.tsx:26-32 | the compact label of every non-zero time reads back to it |
| RecipeCardView.CardAgreesWithDetail | app/components/recipes/recipe-card.tsx:26-32 | the card shows a time exactly when the detail page shows one, and both read back to the same minutes |
| RecipeCardView.CardCategory | app/components/recipes/recipe-card.tsx:34-37 | a label exactly for a non-empty category, the same as the detail page's |
| RecipeCardView.IngredientCount | app/components/recipes/recipe-card.tsx:48-59 | a JSON array counts its non-blank entries; any other JSON value counts 0; text that is not JSON, or an array whose non-string entry makes `trim` throw, counts its non-blank lines |
| RecipeCardView.IngredientCountMatchesDetail | app/components/recipes/recipe-card.tsx:48-59 | the card counts the entries the detail page lists, except a JSON value that is not an array: the card counts 0, the page lists 1 |
| RecipeCardView.StoredIngredientsCounted | app/components/recipes/recipe-card.tsx:48-59 | the ingredients the form stores are counted exactly |
| RecipeCardView.AuthorLine | app/components/recipes/recipe-card.tsx:109-114 | an author line exactly when asked for and the names are joined: "by " and the full name, or the username when that is empty |
| RecipeCardView.TimeStatAsWritten | app/components/recipes/recipe-card.tsx:87-92 | as written: a time of 0 renders the text "0"; any other value renders the compact label or nothing |
| RecipeCardView.TimeStatShowsBareZero | app/components/recipes/recipe-card.tsx:87-92 | as written, a stored time of 0 shows a bare "0" that reads back as no time |
| RecipeCardView.TimeStat | app/components/recipes/recipe-card.tsx:87-92 | corrected: the time stat appears exactly for a non-zero time, and reads back to it |
| RecipesPage.BySearchIsFilter | app/recipes/page.tsx:33-40 | the search step is one filter by "no search or a match" |
| RecipesPage.ByCategoryIsFilter | app/recipes/page.tsx:42-44 | the category step is one filter by "no category or equal" |
| RecipesPage.ByDifficultyIsFilter | app/recipes/page.tsx:46-48 | the difficulty step is one filter by "no difficulty or equal" |
| RecipesPage.RecipesListIsOneFilter | app/recipes/page.tsx:33-48 | the three steps are one filter by their conjunction |
| RecipesPage.RecipesListIsSubsequence | app/recipes/page.tsx:33-48 | the listing keeps the fetched order |
| RecipesPage.BySearch | app/recipes/page.tsx:33-40 | the search step keeps, in order, exactly the recipes whose lower-cased title, description or ingredients contain the lower-cased term; everything when there is no term |
| RecipesPage.ByCategory | app/recipes/page.tsx:42-44 | the category step keeps, in order, exactly the recipes of that category; everything when there is none |
| RecipesPage.ByDifficulty | app/recipes/page.tsx:46-48 | the difficulty step keeps, in order, exactly the recipes of that difficulty; everything when there is none |
| RecipesPage.RecipesList | app/recipes/page.tsx:33-48 | a recipe is listed exactly when it was fetched and passes every active filter |
| RecipesPage.NoFiltersKeepsAll | app/recipes/page.tsx:33-48 | without filters every fetched recipe is listed |
| RecipesPage.FiltersInAnyOrder | app/recipes/page.tsx:33-48 | applying the filters in the reverse order gives the same listing |
| RecipesPage.EmptyMessage | app/recipes/page.tsx:53-57 | the "no match" message exactly when some filter is present, otherwise the "nothing shared yet" message |
| RecipesPage.Listing | app/recipes/page.tsx:27-69 | a failed fetch shows the load error; otherwise every listed recipe was fetched and matches, and an empty listing of a non-empty fetch carries the "no match" message |
| RecipesPage.ListingFacts | app/recipes/page.tsx:33-57 | every listed recipe was fetched and matches; a non-empty fetch filtered to nothing means some filter is present |
| Text.Trim | app/components/recipes/recipe-form.tsx:156 | `trim()` leaves the infix between a blank prefix and a blank suffix, starting and ending with a non-space, and is empty exactly for blank text |
| Text.ToLower | app/recipes/page.tsx:34-38 | `toLowerCase` maps each character to its (ASCII) lower case and keeps the length |
| Text.Contains | app/recipes/page.tsx:36-38 | `includes` holds exactly when the term occurs at some position |
| Text.TrimmedOrNone | lib/database.ts:130 | `s.trim() \|\| null`: none exactly for blank text, otherwise the non-blank trim |
| Text.Utf16Length | lib/actions/social.ts:181 | `length` counts UTF-16 code units: between one and two per character |
| Text.Utf16LengthOfBmp | lib/actions/social.ts:181 | `length` equals the number of characters exactly when none lies outside the Basic Multilingual Plane |
| Text.TrimUtf16Length | lib/actions/social.ts:176-181 | trimming never makes `length` larger |
| Text.Utf16Prefix | app/components/social/comment-form.tsx:64 | the longest prefix within a budget of UTF-16 code units: it fits, it is the whole text when that fits, and the next character would not fit |
| Text.ParseIntOfIntToString | app/components/recipes/recipe-form.tsx:247 | `parseInt` of a printed integer gives the integer back |
| Text.ParseIntIgnoresTail | lib/actions/recipes.ts:43 | `parseInt` reads a printed integer followed by any text that does not start with a digit as that integer |
| Text.ParseIntSkipsSpace | lib/actions/recipes.ts:43 | `parseInt` skips leading white space |
| Json.StringifyRoundTrip | app/components/recipes/recipe-form.tsx:154-155 | the JSON text of a string list decodes back to the list |
| Json.Stringify | app/components/recipes/recipe-form.tsx:154-155 | the JSON text of a string list is bracketed, and is "[]" exactly for the empty list |

## Left out

- JSON.parse: the parser is not modelled. Its outcome is an input: failed; an array of strings; an array holding a non-string; any other value. `Json.ParseAgrees` ties that outcome to the text the model itself writes.
- Text: whitespace for `trim` is a fixed set (ASCII whitespace, NBSP, BOM, U+2028, U+2029). Case mapping is ASCII only. There is no Unicode normalisation.
- Text.ParseInt: models only decimal `parseInt` with optional sign and leading whitespace. Hexadecimal prefixes and radix handling are not modelled. NaN is `None`.
- Database routines: `toggle_recipe_like` and `toggle_comment_like` are not shown in this code. Their answers are inputs, and the model does not change the like tables on the routine path.
- Store faults (failed queries, `.single()` error codes, failed writes) are inputs. Comments with equal `created_at` come back in an unspecified order, which is all that `.order('created_at')` promises.
- The cascade that deletes a comment's likes together with the comment is not modelled: it lives in the database schema.
- `revalidatePath`, the framework's `redirect` and all `console` logging are not modelled. A redirect is the path value the action returns.
- Clocks are a `now` parameter. Dates are compared as numbers, and their locale formatting is not modelled.
- Concurrency: React transitions and overlapping requests are not modelled. Each component has a single pending request, finished by the matching `Finish…` call.
- JSX markup, icons and styling are not modelled, including the DIFFICULTY colour and icon maps of the card and detail page. Only the conditions that decide what text is shown are modelled.
- RecipeDetailView.RecipeDetail.IsOwner: the owner check is a predicate with no contract. The edit and delete links it guards are markup.
- RecipeFormComponent.InitialList: requires that the stored text is not a JSON array holding a non-string. The form then puts non-string values into its rows, which a list of strings cannot hold.
- RecipeFormComponent.RecipeForm.constructor: the same requirement on both stored lists, for the same reason.
- RecipeFormComponent.RecipeForm.UpdateIngredient: requires a valid index. JavaScript would extend the array past its end, but the form only ever passes the index of a rendered row.
- RecipeFormComponent.RecipeForm.UpdateInstruction: requires a valid index, for the same reason.
- Database.GetRecipes: `limit` and `offset` are natural numbers. Negative values, which the range query would pass to the store, are not modelled.
- Database.GetRecipes: takes the rows already in newest-first order, because the ordering is done by the store.
- Database.ProfileStore.UpdateProfile: the existence check (`getProfile`) and the bio-column check are inputs, as `lookupFails` and `bioColumnExists`.
- `getProfile`, `createProfile`, `getRecipe`, the other query helpers of `lib/database.ts`, and the page's data fetch are not part of this model. Their results are inputs.
- Social.ToggleCommentLike: the error the runtime raises when `data.liked` is read from a null answer is modelled as a fixed message.
- Types: `user_has_liked` is optional in `lib/types.ts`; the model makes it a `bool` that the listing always sets, so the `|| false` default of the comment item is not modelled.
- Database.GetRecipes: the defaults `limit = 20` and `offset = 0` are not modelled; both are always passed.
- CommentFormComponent.Typed: a character outside the Basic Multilingual Plane is kept whole or dropped at the 1000-unit limit; a lone surrogate cannot be a Dafny `char`, so a browser that splits a pair is not modelled.

## Findings

| source | as written | input that shows it | evidently intended | confidence | as-written member | corrected member |
|---|---|---|---|---|---|---|
| app/components/recipes/recipe-card.tsx:87-92 | `{recipe.cooking_time && (…)}` renders the number itself when the time is 0, so the stats row shows a bare "0" | a recipe with `cooking_time` 0 | no time stat for a time of 0, as `formatCookingTime` returns nothing for 0 | not executed | RecipeCardView.TimeStatShowsBareZero | RecipeCardView.TimeStat |
