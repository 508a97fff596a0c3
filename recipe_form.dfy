/** The recipe editor of app/components/recipes/recipe-form.tsx: the form
    fields, the two editable lists (ingredients, instruction steps), the
    per-field error map, and the payload handed to `onSubmit`. */
module RecipeFormComponent {
  import opened Wrappers
  import opened Types
  import Text
  import Json
  import Seqs

  const TitleKey := "title"
  const IngredientsKey := "ingredients"
  const InstructionsKey := "instructions"
  const CookingTimeKey := "cooking_time"

  const TitleRequired := "Recipe title is required"
  const IngredientRequired := "At least one ingredient is required"
  const InstructionRequired := "At least one instruction step is required"
  const CookingTimePositive := "Cooking time must be positive"

  /** The list a stored text opens with. An empty text (or no recipe) opens
      one blank row; otherwise JSON decides: an array is used as it is,
      another value becomes the one-row list of the raw text, and text that
      is not JSON is split into its non-blank lines. */
  function InitialList(raw: string, parsed: Json.JsonParse): (r: seq<string>)
    requires parsed != Json.Parsed(Json.OtherArray)
    ensures raw == "" ==> r == [""]
    ensures raw != "" && parsed.Parsed? && parsed.value.StringArray? ==> r == parsed.value.items
    ensures raw != "" && parsed == Json.Parsed(Json.NonArray) ==> r == [raw]
    ensures raw != "" && parsed == Json.ParseFailed ==> r == Text.NonBlank(Text.Split(raw, '\n'))
  {
    if raw == "" then [""]
    else
      match parsed
      case ParseFailed => Text.NonBlank(Text.Split(raw, '\n'))
      case Parsed(StringArray(items)) => items
      case Parsed(NonArray) => [raw]
  }

  /** Opening the editor on a recipe this form stored gives back the rows
      that were stored. */
  lemma EditReopensStoredRows(rows: seq<string>, parsed: Json.JsonParse)
    requires rows != []
    requires Json.ParseAgrees(Json.Stringify(rows), parsed)
    ensures parsed == Json.Parsed(Json.StringArray(rows))
    ensures InitialList(Json.Stringify(rows), parsed) == rows
  {
    Json.StringifyRoundTrip(rows);
  }

  /** `[...list, '']`. */
  function Appended(list: seq<string>): (r: seq<string>)
    ensures |r| == |list| + 1 && r[..|list|] == list && r[|list|] == ""
  {
    list + [""]
  }

  /** `list.filter((_, i) => i !== index)`: every entry whose position is not `index`. */
  function WithoutIndex(list: seq<string>, index: int): (r: seq<string>)
    ensures 0 <= index < |list| ==> |r| == |list| - 1
    ensures 0 <= index < |list| ==> forall i | 0 <= i < index :: r[i] == list[i]
    ensures 0 <= index < |list| ==> forall i | index <= i < |r| :: r[i] == list[i + 1]
    ensures !(0 <= index < |list|) ==> r == list
    decreases |list|
  {
    if list == [] then []
    else (if index == 0 then [] else [list[0]]) + WithoutIndex(list[1..], index - 1)
  }

  /** The remove handler: a single row is never removed. */
  function Removed(list: seq<string>, index: int): (r: seq<string>)
    ensures |list| <= 1 ==> r == list
    ensures |list| >= 1 ==> |r| >= 1
    ensures |list| > 1 && 0 <= index < |list| ==> r == list[..index] + list[index + 1..]
    ensures !(0 <= index < |list|) ==> r == list
  {
    if |list| > 1 then
      var r := WithoutIndex(list, index);
      assert 0 <= index < |list| ==> r == list[..index] + list[index + 1..];
      r
    else list
  }

  /** The update handler: a copy with the one entry replaced. */
  function Updated(list: seq<string>, index: int, value: string): (r: seq<string>)
    requires 0 <= index < |list|
    ensures |r| == |list| && r[index] == value
    ensures forall i | 0 <= i < |list| && i != index :: r[i] == list[i]
  {
    list[index := value]
  }

  /** `formData.cooking_time && formData.cooking_time < 0`: 0 and no value never count. */
  predicate NegativeCookingTime(cookingTime: Option<int>)
  {
    cookingTime.Some? && cookingTime.value != 0 && cookingTime.value < 0
  }

  /** The four error keys are different strings. */
  lemma KeysDistinct()
    ensures TitleKey != IngredientsKey && TitleKey != InstructionsKey && TitleKey != CookingTimeKey
    ensures IngredientsKey != InstructionsKey && IngredientsKey != CookingTimeKey
    ensures InstructionsKey != CookingTimeKey
  {
    assert TitleKey[0] == 't' && CookingTimeKey[0] == 'c';
    assert IngredientsKey[0] == 'i' && InstructionsKey[0] == 'i';
    assert IngredientsKey[1] == 'n' && InstructionsKey[2] != IngredientsKey[2];
  }

  /** The error map for the four failed checks given as flags: one entry,
      with its message, per failed check. */
  function ErrorMap(noTitle: bool, noIngredient: bool, noInstruction: bool, negativeTime: bool)
    : (r: map<string, string>)
    ensures TitleKey in r <==> noTitle
    ensures IngredientsKey in r <==> noIngredient
    ensures InstructionsKey in r <==> noInstruction
    ensures CookingTimeKey in r <==> negativeTime
    ensures r.Keys <= {TitleKey, IngredientsKey, InstructionsKey, CookingTimeKey}
    ensures TitleKey in r ==> r[TitleKey] == TitleRequired
    ensures IngredientsKey in r ==> r[IngredientsKey] == IngredientRequired
    ensures InstructionsKey in r ==> r[InstructionsKey] == InstructionRequired
    ensures CookingTimeKey in r ==> r[CookingTimeKey] == CookingTimePositive
    ensures r == map[] <==> !noTitle && !noIngredient && !noInstruction && !negativeTime
  {
    KeysDistinct();
    var a := if noTitle then map[TitleKey := TitleRequired] else map[];
    var b := if noIngredient then a[IngredientsKey := IngredientRequired] else a;
    var c := if noInstruction then b[InstructionsKey := InstructionRequired] else b;
    var d := if negativeTime then c[CookingTimeKey := CookingTimePositive] else c;
    assert d == map[] ==> TitleKey !in d && IngredientsKey !in d && InstructionsKey !in d && CookingTimeKey !in d;
    d
  }

  /** The errors `validateForm` records, keyed by field. */
  function FormErrors(title: string, ingredients: seq<string>, instructions: seq<string>, cookingTime: Option<int>)
    : (r: map<string, string>)
    ensures TitleKey in r <==> !Text.HasText(title)
    ensures IngredientsKey in r <==> Text.NonBlank(ingredients) == []
    ensures InstructionsKey in r <==> Text.NonBlank(instructions) == []
    ensures CookingTimeKey in r <==> cookingTime.Some? && cookingTime.value < 0
    ensures r.Keys <= {TitleKey, IngredientsKey, InstructionsKey, CookingTimeKey}
    ensures TitleKey in r ==> r[TitleKey] == TitleRequired
    ensures IngredientsKey in r ==> r[IngredientsKey] == IngredientRequired
    ensures InstructionsKey in r ==> r[InstructionsKey] == InstructionRequired
    ensures CookingTimeKey in r ==> r[CookingTimeKey] == CookingTimePositive
    ensures r == map[] <==> Text.HasText(title) && Text.NonBlank(ingredients) != [] &&
                            Text.NonBlank(instructions) != [] && !(cookingTime.Some? && cookingTime.value < 0)
  {
    ErrorMap(!Text.HasText(title), Text.NonBlank(ingredients) == [], Text.NonBlank(instructions) == [],
             NegativeCookingTime(cookingTime))
  }

  /** The payload `handleSubmit` sends. */
  function Payload(title: string, description: string, ingredients: seq<string>, instructions: seq<string>,
                   cookingTime: Option<int>, difficulty: Option<string>, category: Option<string>)
    : (r: CreateRecipeData)
    ensures r.title == Text.Trim(title)
    ensures Json.DecodeStringArray(r.ingredients) == Some(Text.NonBlank(ingredients))
    ensures Json.DecodeStringArray(r.instructions) == Some(Text.NonBlank(instructions))
    ensures r.description == Text.TrimmedOrNone(description)
    ensures r.cooking_time == cookingTime && r.difficulty == difficulty && r.category == category
  {
    Json.StringifyRoundTrip(Text.NonBlank(ingredients));
    Json.StringifyRoundTrip(Text.NonBlank(instructions));
    CreateRecipeData(
      Text.Trim(title), Text.TrimmedOrNone(description),
      Json.Stringify(Text.NonBlank(ingredients)), Json.Stringify(Text.NonBlank(instructions)),
      cookingTime, difficulty, category)
  }

  /** The stored rows of a submitted payload are exactly the non-blank
      rows of the form, in order, and reopen in the editor unchanged. */
  lemma SubmittedRowsReopen(ingredients: seq<string>, parsed: Json.JsonParse)
    requires Text.NonBlank(ingredients) != []
    requires Json.ParseAgrees(Json.Stringify(Text.NonBlank(ingredients)), parsed)
    ensures parsed == Json.Parsed(Json.StringArray(Text.NonBlank(ingredients)))
    ensures InitialList(Json.Stringify(Text.NonBlank(ingredients)), parsed) == Text.NonBlank(ingredients)
    ensures Seqs.IsSubsequence(Text.NonBlank(ingredients), ingredients)
  {
    EditReopensStoredRows(Text.NonBlank(ingredients), parsed);
    Text.NonBlankProperties(ingredients);
  }

  class RecipeForm {
    var title: string
    var description: string
    var cookingTime: Option<int>
    var difficulty: Option<string>
    var category: Option<string>
    var ingredientsList: seq<string>
    var instructionsList: seq<string>
    var errors: map<string, string>

    /** The editor opened on `recipe` (edit mode) or on nothing (create
        mode); the outcomes of `JSON.parse` on the two stored texts are inputs. */
    constructor (recipe: Option<Recipe>, ingredientsParse: Json.JsonParse, instructionsParse: Json.JsonParse)
      requires ingredientsParse != Json.Parsed(Json.OtherArray) && instructionsParse != Json.Parsed(Json.OtherArray)
      ensures recipe.None? ==> title == "" && description == "" && cookingTime == None && difficulty == None
                               && category == None && ingredientsList == [""] && instructionsList == [""]
      ensures recipe.Some? ==>
        && title == recipe.value.title
        && description == (if recipe.value.description.Some? then recipe.value.description.value else "")
        && (cookingTime.Some? <==> recipe.value.cooking_time.Some? && recipe.value.cooking_time.value != 0)
        && (cookingTime.Some? ==> cookingTime == recipe.value.cooking_time)
        && difficulty == (if recipe.value.difficulty.Some? then Some(DifficultyName(recipe.value.difficulty.value)) else None)
        && (category.Some? <==> recipe.value.category.Some? && recipe.value.category.value != "")
        && (category.Some? ==> category == recipe.value.category)
        && ingredientsList == InitialList(recipe.value.ingredients, ingredientsParse)
        && instructionsList == InitialList(recipe.value.instructions, instructionsParse)
      ensures errors == map[]
    {
      if recipe.None? {
        title, description, cookingTime, difficulty, category := "", "", None, None, None;
        ingredientsList, instructionsList := [""], [""];
      } else {
        var r := recipe.value;
        title := r.title;
        description := if r.description.Some? then r.description.value else "";
        cookingTime := if r.cooking_time.Some? && r.cooking_time.value != 0 then r.cooking_time else None;
        difficulty := if r.difficulty.Some? then Some(DifficultyName(r.difficulty.value)) else None;
        category := if r.category.Some? && r.category.value != "" then r.category else None;
        ingredientsList := InitialList(r.ingredients, ingredientsParse);
        instructionsList := InitialList(r.instructions, instructionsParse);
      }
      errors := map[];
    }

    method AddIngredient()
      modifies this`ingredientsList
      ensures ingredientsList == Appended(old(ingredientsList))
    {
      ingredientsList := ingredientsList + [""];
    }

    method RemoveIngredient(index: int)
      modifies this`ingredientsList
      ensures ingredientsList == Removed(old(ingredientsList), index)
    {
      if |ingredientsList| > 1 {
        ingredientsList := WithoutIndex(ingredientsList, index);
      }
    }

    method UpdateIngredient(index: int, value: string)
      requires 0 <= index < |ingredientsList|
      modifies this`ingredientsList
      ensures ingredientsList == Updated(old(ingredientsList), index, value)
    {
      var updated := ingredientsList;
      updated := updated[index := value];
      ingredientsList := updated;
    }

    method AddInstruction()
      modifies this`instructionsList
      ensures instructionsList == Appended(old(instructionsList))
    {
      instructionsList := instructionsList + [""];
    }

    method RemoveInstruction(index: int)
      modifies this`instructionsList
      ensures instructionsList == Removed(old(instructionsList), index)
    {
      if |instructionsList| > 1 {
        instructionsList := WithoutIndex(instructionsList, index);
      }
    }

    method UpdateInstruction(index: int, value: string)
      requires 0 <= index < |instructionsList|
      modifies this`instructionsList
      ensures instructionsList == Updated(old(instructionsList), index, value)
    {
      var updated := instructionsList;
      updated := updated[index := value];
      instructionsList := updated;
    }

    method SetTitle(value: string)
      modifies this`title
      ensures title == value
    {
      title := value;
    }

    method SetDescription(value: string)
      modifies this`description
      ensures description == value
    {
      description := value;
    }

    /** The category select: the empty option clears the field. */
    method SetCategory(value: string)
      modifies this`category
      ensures category == if value == "" then None else Some(value)
    {
      category := if value == "" then None else Some(value);
    }

    /** The difficulty select: the chosen value is kept as is, the empty option included. */
    method SetDifficulty(value: string)
      modifies this`difficulty
      ensures difficulty == Some(value)
    {
      difficulty := Some(value);
    }

    /** The number input: empty clears the field, otherwise `parseInt` of the text. */
    method SetCookingTime(value: string)
      modifies this`cookingTime
      ensures cookingTime == if value == "" then None else Text.ParseInt(value)
    {
      cookingTime := if value == "" then None else Text.ParseInt(value);
    }

    /** `validateForm`: fills a fresh error map field by field, stores it,
        and reports whether it stayed empty. */
    method ValidateForm() returns (ok: bool)
      modifies this`errors
      ensures errors == FormErrors(title, ingredientsList, instructionsList, cookingTime)
      ensures ok <==> errors == map[]
    {
      var noTitle := !Text.HasText(title);
      var noIngredient := Text.NonBlank(ingredientsList) == [];
      var noInstruction := Text.NonBlank(instructionsList) == [];
      var negativeTime := NegativeCookingTime(cookingTime);
      var newErrors: map<string, string> := map[];
      if noTitle {
        newErrors := newErrors[TitleKey := TitleRequired];
      }
      ghost var a := newErrors;
      if noIngredient {
        newErrors := newErrors[IngredientsKey := IngredientRequired];
      }
      ghost var b := newErrors;
      if noInstruction {
        newErrors := newErrors[InstructionsKey := InstructionRequired];
      }
      ghost var c := newErrors;
      if negativeTime {
        newErrors := newErrors[CookingTimeKey := CookingTimePositive];
      }
      assert a == (if noTitle then map[TitleKey := TitleRequired] else map[]);
      assert b == (if noIngredient then a[IngredientsKey := IngredientRequired] else a);
      assert c == (if noInstruction then b[InstructionsKey := InstructionRequired] else b);
      assert newErrors == (if negativeTime then c[CookingTimeKey := CookingTimePositive] else c);
      assert newErrors == ErrorMap(noTitle, noIngredient, noInstruction, negativeTime);
      errors := newErrors;
      ok := |newErrors.Keys| == 0;
    }

    /** `handleSubmit`: an invalid form sends nothing; a valid one sends the
        payload built from the current fields. */
    method HandleSubmit() returns (sent: Option<CreateRecipeData>)
      modifies this`errors
      ensures errors == FormErrors(title, ingredientsList, instructionsList, cookingTime)
      ensures sent.Some? <==> errors == map[]
      ensures sent.Some? ==>
        sent.value == Payload(title, description, ingredientsList, instructionsList, cookingTime, difficulty, category)
    {
      var ok := ValidateForm();
      if !ok {
        return None;
      }
      sent := Some(Payload(title, description, ingredientsList, instructionsList, cookingTime, difficulty, category));
    }
  }
}
