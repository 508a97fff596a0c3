/** The recipe server actions of lib/actions/recipes.ts: the sign-in check,
    the validation of the submitted form fields, the record handed to the
    store and the outcome of the store call. The store's answer is an input;
    a redirect is an `Ok` carrying its path and a thrown error an `Err`. */
module RecipeActions {
  import opened Wrappers
  import opened Types
  import Text

  const LoginToCreate := "You must be logged in to create a recipe"
  const LoginToUpdate := "You must be logged in to update a recipe"
  const LoginToDelete := "You must be logged in to delete a recipe"
  const TitleRequired := "Recipe title is required"
  const IngredientsRequired := "Ingredients are required"
  const InstructionsRequired := "Instructions are required"
  const FailedToCreate := "Failed to create recipe"
  const FailedToUpdate := "Failed to update recipe"
  const FailedToDelete := "Failed to delete recipe"
  const RecipesPath := "/recipes"

  /** The path of one recipe's page. */
  function RecipePath(id: RecipeId): string
  {
    RecipesPath + "/" + id
  }

  /** The submitted form fields; `None` for a field the form did not send. */
  datatype RecipeFields = RecipeFields(
    title: Option<string>,
    description: Option<string>,
    ingredients: Option<string>,
    instructions: Option<string>,
    cooking_time: Option<string>,
    difficulty: Option<string>,
    category: Option<string>)

  /** `field?.trim()` is truthy. */
  predicate Filled(field: Option<string>)
  {
    field.Some? && Text.HasText(field.value)
  }

  /** `cooking_time ? parseInt(cooking_time) : undefined`, with a
      non-number read as no time. */
  function CookingTimeOf(field: Option<string>): (r: Option<int>)
    ensures field.None? || field.value == "" ==> r.None?
    ensures field.Some? && field.value != "" ==> r == Text.ParseInt(field.value)
  {
    if field.None? || field.value == "" then None else Text.ParseInt(field.value)
  }

  /** `category || undefined`. */
  function CategoryOf(field: Option<string>): (r: Option<string>)
    ensures r.Some? <==> field.Some? && field.value != ""
    ensures r.Some? ==> r == field
  {
    if field.None? || field.value == "" then None else field
  }

  /** The validation and record construction shared by the create and
      update actions: title, then ingredients, then instructions must be
      non-blank; the record holds them trimmed, the description trimmed or
      nothing when blank, the parsed cooking time, the difficulty as sent
      and the category unless it is empty. */
  function ShapeRecipe(fields: RecipeFields): (r: Result<CreateRecipeData>)
    ensures r.Ok? <==> Filled(fields.title) && Filled(fields.ingredients) && Filled(fields.instructions)
    ensures !Filled(fields.title) ==> r == Err(TitleRequired)
    ensures Filled(fields.title) && !Filled(fields.ingredients) ==> r == Err(IngredientsRequired)
    ensures Filled(fields.title) && Filled(fields.ingredients) && !Filled(fields.instructions) ==> r == Err(InstructionsRequired)
    ensures r.Ok? ==>
      && r.value.title == Text.Trim(fields.title.value) && Text.HasText(r.value.title)
      && r.value.ingredients == Text.Trim(fields.ingredients.value) && Text.HasText(r.value.ingredients)
      && r.value.instructions == Text.Trim(fields.instructions.value) && Text.HasText(r.value.instructions)
    ensures r.Ok? ==> (r.value.description.Some? <==> Filled(fields.description))
    ensures r.Ok? && r.value.description.Some? ==> r.value.description.value == Text.Trim(fields.description.value)
    ensures r.Ok? ==> r.value.difficulty == fields.difficulty && r.value.category == CategoryOf(fields.category)
    ensures r.Ok? ==> r.value.cooking_time == CookingTimeOf(fields.cooking_time)
  {
    if !Filled(fields.title) then Err(TitleRequired)
    else if !Filled(fields.ingredients) then Err(IngredientsRequired)
    else if !Filled(fields.instructions) then Err(InstructionsRequired)
    else
      Text.TrimIdempotent(fields.title.value);
      Text.TrimIdempotent(fields.ingredients.value);
      Text.TrimIdempotent(fields.instructions.value);
      Ok(CreateRecipeData(
        Text.Trim(fields.title.value),
        if fields.description.None? then None else Text.TrimmedOrNone(fields.description.value),
        Text.Trim(fields.ingredients.value),
        Text.Trim(fields.instructions.value),
        CookingTimeOf(fields.cooking_time),
        fields.difficulty,
        CategoryOf(fields.category)))
  }

  /** The form fields that submit a record as it is. */
  function FieldsOf(data: CreateRecipeData): RecipeFields
  {
    RecipeFields(
      Some(data.title),
      data.description,
      Some(data.ingredients),
      Some(data.instructions),
      if data.cooking_time.None? then None else Some(Text.IntToString(data.cooking_time.value)),
      data.difficulty,
      data.category)
  }

  /** Shaping is idempotent: submitting a shaped record again gives the same record. */
  lemma ShapeRecipeIdempotent(fields: RecipeFields)
    requires ShapeRecipe(fields).Ok?
    ensures ShapeRecipe(FieldsOf(ShapeRecipe(fields).value)) == ShapeRecipe(fields)
  {
    var d := ShapeRecipe(fields).value;
    var again := FieldsOf(d);
    Text.TrimIdempotent(fields.title.value);
    Text.TrimIdempotent(fields.ingredients.value);
    Text.TrimIdempotent(fields.instructions.value);
    assert Filled(again.title) && Filled(again.ingredients) && Filled(again.instructions);
    var d2 := ShapeRecipe(again).value;
    assert d2.title == d.title && d2.ingredients == d.ingredients && d2.instructions == d.instructions;
    DescriptionReshaped(fields.description, d.description);
    assert d2.description == d.description;
    CookingTimeReshaped(d.cooking_time);
    assert d2.cooking_time == d.cooking_time;
    assert d2.category == d.category;
  }

  /** A parsed cooking time, rendered back into the field, parses to itself. */
  lemma CookingTimeReshaped(time: Option<int>)
    ensures CookingTimeOf(if time.None? then None else Some(Text.IntToString(time.value))) == time
  {
    if time.Some? {
      Text.ParseIntOfIntToString(time.value);
    }
  }

  /** The description of a shaped record is shaped to itself. */
  lemma DescriptionReshaped(field: Option<string>, shaped: Option<string>)
    requires shaped.Some? <==> Filled(field)
    requires shaped.Some? ==> shaped.value == Text.Trim(field.value)
    ensures shaped.Some? <==> Filled(shaped)
    ensures shaped.Some? ==> shaped.value == Text.Trim(shaped.value)
  {
    if shaped.Some? {
      Text.TrimIdempotent(field.value);
    }
  }

  /** The store call an action makes, if it gets that far. */
  datatype StoreCall =
    | CreateCall(user: UserId, data: CreateRecipeData)
    | UpdateCall(recipeId: RecipeId, data: CreateRecipeData)
    | DeleteCall(recipeId: RecipeId)

  /** An action's store call and its outcome. */
  datatype ActionRun<T> = ActionRun(call: Option<StoreCall>, outcome: Result<T>)

  /** `createRecipeAction`: sign-in first, then the fields; the shaped
      record is created for the signed-in user, and a created recipe
      redirects to its page. */
  function CreateRecipeAction(user: Option<UserId>, fields: RecipeFields, created: Option<Recipe>): (r: ActionRun<string>)
    ensures user.None? ==> r == ActionRun(None, Err(LoginToCreate))
    ensures user.Some? && ShapeRecipe(fields).Err? ==> r == ActionRun(None, Err(ShapeRecipe(fields).message))
    ensures user.Some? && ShapeRecipe(fields).Ok? ==> r.call == Some(CreateCall(user.value, ShapeRecipe(fields).value))
    ensures r.call.Some? && created.None? ==> r.outcome == Err(FailedToCreate)
    ensures r.outcome.Ok? <==> r.call.Some? && created.Some?
    ensures r.outcome.Ok? ==> r.outcome.value == RecipePath(created.value.id)
  {
    if user.None? then ActionRun(None, Err(LoginToCreate))
    else
      match ShapeRecipe(fields)
      case Err(message) => ActionRun(None, Err(message))
      case Ok(data) =>
        var call := Some(CreateCall(user.value, data));
        if created.None? then ActionRun(call, Err(FailedToCreate))
        else ActionRun(call, Ok(RecipePath(created.value.id)))
  }

  /** `updateRecipeAction`: the same checks and record, sent as an update of
      the given recipe; an updated recipe redirects to that recipe's page. */
  function UpdateRecipeAction(user: Option<UserId>, recipeId: RecipeId, fields: RecipeFields, updated: Option<Recipe>): (r: ActionRun<string>)
    ensures user.None? ==> r == ActionRun(None, Err(LoginToUpdate))
    ensures user.Some? && ShapeRecipe(fields).Err? ==> r == ActionRun(None, Err(ShapeRecipe(fields).message))
    ensures user.Some? && ShapeRecipe(fields).Ok? ==> r.call == Some(UpdateCall(recipeId, ShapeRecipe(fields).value))
    ensures r.call.Some? && updated.None? ==> r.outcome == Err(FailedToUpdate)
    ensures r.outcome.Ok? <==> r.call.Some? && updated.Some?
    ensures r.outcome.Ok? ==> r.outcome.value == RecipePath(recipeId)
  {
    if user.None? then ActionRun(None, Err(LoginToUpdate))
    else
      match ShapeRecipe(fields)
      case Err(message) => ActionRun(None, Err(message))
      case Ok(data) =>
        var call := Some(UpdateCall(recipeId, data));
        if updated.None? then ActionRun(call, Err(FailedToUpdate))
        else ActionRun(call, Ok(RecipePath(recipeId)))
  }

  /** `deleteRecipeAction`: only the sign-in is checked, not who owns the
      recipe; a successful delete redirects to the listing. */
  function DeleteRecipeAction(user: Option<UserId>, recipeId: RecipeId, success: bool): (r: ActionRun<string>)
    ensures user.None? ==> r == ActionRun(None, Err(LoginToDelete))
    ensures user.Some? ==> r.call == Some(DeleteCall(recipeId))
    ensures r.outcome.Ok? <==> user.Some? && success
    ensures r.outcome.Ok? ==> r.outcome.value == RecipesPath
    ensures user.Some? && !success ==> r.outcome == Err(FailedToDelete)
  {
    if user.None? then ActionRun(None, Err(LoginToDelete))
    else if !success then ActionRun(Some(DeleteCall(recipeId)), Err(FailedToDelete))
    else ActionRun(Some(DeleteCall(recipeId)), Ok(RecipesPath))
  }

  /** `createRecipeFromData`: only the sign-in is checked; the record is
      handed to the store as given and the created recipe is returned. */
  function CreateRecipeFromData(user: Option<UserId>, data: CreateRecipeData, created: Option<Recipe>): (r: ActionRun<Recipe>)
    ensures user.None? ==> r == ActionRun(None, Err(LoginToCreate))
    ensures user.Some? ==> r.call == Some(CreateCall(user.value, data))
    ensures r.outcome.Ok? <==> user.Some? && created.Some?
    ensures r.outcome.Ok? ==> r.outcome.value == created.value
    ensures user.Some? && created.None? ==> r.outcome == Err(FailedToCreate)
  {
    if user.None? then ActionRun(None, Err(LoginToCreate))
    else if created.None? then ActionRun(Some(CreateCall(user.value, data)), Err(FailedToCreate))
    else ActionRun(Some(CreateCall(user.value, data)), Ok(created.value))
  }

  /** Creating and updating accept and refuse the same fields and hand the
      store the same record. */
  lemma CreateAndUpdateShapeAlike(user: UserId, recipeId: RecipeId, fields: RecipeFields, created: Option<Recipe>, updated: Option<Recipe>)
    ensures CreateRecipeAction(Some(user), fields, created).call.Some? <==> UpdateRecipeAction(Some(user), recipeId, fields, updated).call.Some?
    ensures CreateRecipeAction(Some(user), fields, created).call.Some? ==>
      CreateRecipeAction(Some(user), fields, created).call.value.data == UpdateRecipeAction(Some(user), recipeId, fields, updated).call.value.data
    ensures CreateRecipeAction(Some(user), fields, created).call.None? ==>
      CreateRecipeAction(Some(user), fields, created).outcome == UpdateRecipeAction(Some(user), recipeId, fields, updated).outcome
  {
  }

  /** A record that was created validly passes the direct path unchanged:
      re-submitting it through the form fields hands the store the same record. */
  lemma ResubmitReachesStore(user: UserId, fields: RecipeFields, created: Option<Recipe>)
    requires ShapeRecipe(fields).Ok?
    ensures CreateRecipeAction(Some(user), FieldsOf(ShapeRecipe(fields).value), created).call ==
            CreateRecipeFromData(Some(user), ShapeRecipe(fields).value, created).call
  {
    ShapeRecipeIdempotent(fields);
  }
}
