/** The recipe page of app/components/recipes/recipe-detail.tsx: its text
    formatters, the decoding of the stored ingredient and instruction texts,
    the owner controls and the two checklists. */
module RecipeDetailView {
  import opened Wrappers
  import opened Types
  import Text
  import Json
  import Seqs

  const NotSpecified := "Not specified"
  const Uncategorized := "Uncategorized"

  /** " hour" or " hours": plural exactly when there is more than one hour. */
  function HourLabel(hours: int): (r: string)
    ensures r == " hour" || r == " hours"
    ensures r == " hours" <==> hours > 1
  {
    " hour" + (if hours > 1 then "s" else "")
  }

  /** "<m> minutes". */
  function MinutesText(m: int): (r: string)
    ensures r != NotSpecified
  {
    var digits := Text.IntToString(m);
    assert (digits + " minutes")[0] == digits[0];
    digits + " minutes"
  }

  /** "<h> hour(s)", followed by " <rem> minutes" when minutes remain. */
  function HoursText(hours: int, rem: int): (r: string)
    ensures r != NotSpecified
  {
    var digits := Text.IntToString(hours);
    var tail := HourLabel(hours) + (if rem > 0 then " " + MinutesText(rem) else "");
    assert (digits + tail)[0] == digits[0];
    digits + tail
  }

  /** `formatCookingTime`: no time (or 0) is "Not specified"; under an hour
      the minutes; otherwise whole hours and the remaining minutes, the
      minutes omitted when there are none. */
  function FormatCookingTime(minutes: Option<int>): (r: string)
    ensures r == NotSpecified <==> minutes.None? || minutes.value == 0
    ensures minutes.Some? && minutes.value != 0 && minutes.value < 60 ==> r == Text.IntToString(minutes.value) + " minutes"
    ensures minutes.Some? && minutes.value >= 60 ==>
      r == Text.IntToString(minutes.value / 60) + HourLabel(minutes.value / 60)
           + (if minutes.value % 60 > 0 then " " + Text.IntToString(minutes.value % 60) + " minutes" else "")
  {
    match minutes
    case None => NotSpecified
    case Some(m) =>
      if m == 0 then NotSpecified
      else if m < 60 then MinutesText(m)
      else HoursText(m / 60, m % 60)
  }

  /** What follows " hour " or " hours " in a rendered time, if anything does. */
  function AfterHourLabel(rest: string): Option<string>
  {
    if |rest| >= 7 && rest[..7] == " hours " then Some(rest[7..])
    else if |rest| >= 6 && rest[..6] == " hour " then Some(rest[6..])
    else None
  }

  /** Reads a rendered cooking time back into minutes. */
  function ReadCookingTime(s: string): Option<int>
  {
    match Text.ReadInt(s)
    case None => None
    case Some((n, rest)) => ReadUnits(n, rest)
  }

  /** The unit text after the leading number `n`. */
  function ReadUnits(n: int, rest: string): Option<int>
  {
    if rest == " minutes" then Some(n)
    else if rest == " hour" || rest == " hours" then Some(60 * n)
    else
      match AfterHourLabel(rest)
      case None => None
      case Some(more) => ReadTrailingMinutes(n, more)
  }

  /** The " <rem> minutes" after `n` hours. */
  function ReadTrailingMinutes(n: int, more: string): Option<int>
  {
    match Text.ReadInt(more)
    case Some((r, " minutes")) => Some(60 * n + r)
    case _ => None
  }

  lemma ReadMinutesText(m: int)
    ensures ReadCookingTime(MinutesText(m)) == Some(m)
    ensures Text.ReadInt(MinutesText(m)) == Some((m, " minutes"))
  {
    Text.ReadIntToString(m, " minutes");
  }

  lemma AfterHourLabelOf(hours: int, more: string)
    ensures AfterHourLabel(HourLabel(hours) + " " + more) == Some(more)
  {
    var tail := HourLabel(hours) + " " + more;
    if hours > 1 {
      assert tail == " hours " + more;
      assert tail[..7] == " hours ";
    } else {
      assert tail == " hour " + more;
      assert tail[5] == ' ' && " hours "[5] == 's';
      assert tail[..6] == " hour ";
    }
  }

  lemma ReadUnitsOfHourLabel(hours: int, rem: int)
    requires rem >= 0
    ensures ReadUnits(hours, HourLabel(hours) + (if rem > 0 then " " + MinutesText(rem) else "")) == Some(60 * hours + rem)
  {
    if rem > 0 {
      var more := MinutesText(rem);
      var tail := HourLabel(hours) + " " + more;
      assert HourLabel(hours) + (" " + more) == tail;
      assert |tail| > 8;
      AfterHourLabelOf(hours, more);
      ReadMinutesText(rem);
      assert ReadTrailingMinutes(hours, more) == Some(60 * hours + rem);
    }
  }

  lemma ReadHoursText(hours: int, rem: int)
    requires rem >= 0
    ensures ReadCookingTime(HoursText(hours, rem)) == Some(60 * hours + rem)
  {
    var tail := HourLabel(hours) + (if rem > 0 then " " + MinutesText(rem) else "");
    assert HoursText(hours, rem) == Text.IntToString(hours) + tail;
    assert tail[0] == ' ';
    Text.ReadIntToString(hours, tail);
    ReadUnitsOfHourLabel(hours, rem);
  }

  /** The rendered hours and minutes account for every minute of the input:
      reading the text back gives the minutes that were formatted. */
  lemma CookingTimeRoundTrip(m: int)
    requires m != 0
    ensures ReadCookingTime(FormatCookingTime(Some(m))) == Some(m)
  {
    if m < 60 {
      ReadMinutesText(m);
    } else {
      ReadHoursText(m / 60, m % 60);
    }
  }

  /** The position of the first `c` in `s`. */
  function FirstIndex(s: string, c: char): (k: nat)
    requires c in s
    ensures k < |s| && s[k] == c && c !in s[..k]
  {
    if s[0] == c then 0
    else
      var k := FirstIndex(s[1..], c);
      assert s[..k + 1] == [s[0]] + s[1..][..k];
      k + 1
  }

  /** `s.replace(from, to)` with a character pattern: only the first occurrence changes. */
  function ReplaceFirst(s: string, from: char, to: char): (r: string)
    ensures |r| == |s|
    ensures from !in s ==> r == s
    ensures from in s ==> r == s[..FirstIndex(s, from)] + [to] + s[FirstIndex(s, from) + 1..]
  {
    if s == [] then s
    else if s[0] == from then [to] + s[1..]
    else
      var tail := ReplaceFirst(s[1..], from, to);
      assert from in s[1..] ==> s[..FirstIndex(s, from)] == [s[0]] + s[1..][..FirstIndex(s[1..], from)];
      [s[0]] + tail
  }

  /** `formatCategory`: no category (or the empty one) is "Uncategorized";
      otherwise the first character upper-cased and the first '-' of the
      rest turned into a space. */
  function FormatCategory(category: Option<string>): (r: string)
    ensures category.None? || category.value == "" ==> r == Uncategorized
    ensures category.Some? && category.value != "" ==>
      && |r| == |category.value|
      && r[0] == Text.UpperChar(category.value[0])
      && r[1..] == ReplaceFirst(category.value[1..], '-', ' ')
  {
    if category.None? || category.value == "" then Uncategorized
    else [Text.UpperChar(category.value[0])] + ReplaceFirst(category.value[1..], '-', ' ')
  }

  /** `parseIngredients` / `parseInstructions`: the non-blank entries of a
      JSON array of strings; the raw text itself for any other JSON value;
      the non-blank lines when the text is not JSON, and also when the array
      holds a non-string (its `trim` throws inside the same `try`). */
  function ParseList(raw: string, parsed: Json.JsonParse): (r: seq<string>)
    ensures parsed.Parsed? && parsed.value.StringArray? ==> r == Text.NonBlank(parsed.value.items)
    ensures parsed == Json.Parsed(Json.NonArray) ==> r == [raw]
    ensures parsed == Json.ParseFailed || parsed == Json.Parsed(Json.OtherArray) ==> r == Text.NonBlank(Text.Split(raw, '\n'))
    ensures parsed != Json.Parsed(Json.NonArray) ==> forall i | 0 <= i < |r| :: Text.HasText(r[i])
  {
    match parsed
    case Parsed(StringArray(items)) => Text.NonBlank(items)
    case Parsed(NonArray) => [raw]
    case _ => Text.NonBlank(Text.Split(raw, '\n'))
  }

  /** The rows the form stores come back unchanged: decoding the JSON of
      non-blank rows filters nothing more. */
  lemma StoredRowsRoundTrip(rows: seq<string>, parsed: Json.JsonParse)
    requires Json.ParseAgrees(Json.Stringify(Text.NonBlank(rows)), parsed)
    ensures ParseList(Json.Stringify(Text.NonBlank(rows)), parsed) == Text.NonBlank(rows)
  {
    Json.StringifyRoundTrip(Text.NonBlank(rows));
    Text.NonBlankProperties(rows);
  }

  /** Plain text of non-blank lines (the older storage form) comes back line by line. */
  lemma PlainTextRoundTrip(lines: seq<string>)
    requires |lines| >= 1
    requires forall i | 0 <= i < |lines| :: Text.HasText(lines[i]) && '\n' !in lines[i]
    ensures ParseList(Text.Join(lines, '\n'), Json.ParseFailed) == lines
  {
    Text.SplitJoin(lines, '\n');
    Seqs.FilterAllKept(lines, Text.HasText);
  }

  /** A checklist after clicking entry `index`: its mark flips, nothing else changes. */
  function Flipped(marks: set<int>, index: int): (r: set<int>)
    ensures index in r <==> index !in marks
    ensures forall j | j != index :: j in r <==> j in marks
  {
    if index in marks then marks - {index} else marks + {index}
  }

  lemma FlipTwice(marks: set<int>, index: int)
    ensures Flipped(Flipped(marks, index), index) == marks
  {
  }

  class RecipeDetail {
    const recipe: Recipe
    const currentUserId: Option<UserId>
    var checkedIngredients: set<int>
    var completedSteps: set<int>

    constructor (recipe: Recipe, currentUserId: Option<UserId>)
      ensures this.recipe == recipe && this.currentUserId == currentUserId
      ensures checkedIngredients == {} && completedSteps == {}
    {
      this.recipe := recipe;
      this.currentUserId := currentUserId;
      checkedIngredients := {};
      completedSteps := {};
    }

    /** The edit and delete controls are shown to the recipe's author only. */
    predicate IsOwner()
    {
      currentUserId == Some(recipe.user_id)
    }

    /** `toggleIngredient`: copy the set, add or delete the index, store the copy. */
    method ToggleIngredient(index: int)
      modifies this`checkedIngredients
      ensures checkedIngredients == Flipped(old(checkedIngredients), index)
    {
      var newChecked := checkedIngredients;
      if index in newChecked {
        newChecked := newChecked - {index};
      } else {
        newChecked := newChecked + {index};
      }
      checkedIngredients := newChecked;
    }

    /** `toggleStep`, the same rule on the completed steps. */
    method ToggleStep(index: int)
      modifies this`completedSteps
      ensures completedSteps == Flipped(old(completedSteps), index)
    {
      var newCompleted := completedSteps;
      if index in newCompleted {
        newCompleted := newCompleted - {index};
      } else {
        newCompleted := newCompleted + {index};
      }
      completedSteps := newCompleted;
    }
  }
}
