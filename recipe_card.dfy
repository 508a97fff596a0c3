/** The recipe tile of app/components/recipes/recipe-card.tsx: its compact
    time and category labels, the ingredient count and the author line. */
module RecipeCardView {
  import opened Wrappers
  import opened Types
  import Text
  import Json
  import RecipeDetailView

  /** "<m>m". */
  function CompactMinutes(m: int): string
  {
    Text.IntToString(m) + "m"
  }

  /** "<h>h", followed by " <rem>m" when minutes remain. */
  function CompactHours(hours: int, rem: int): string
  {
    Text.IntToString(hours) + "h" + (if rem > 0 then " " + CompactMinutes(rem) else "")
  }

  /** The card's `formatCookingTime`: nothing for no time (or 0); under an
      hour "<m>m"; otherwise "<h>h" and the remaining "<rem>m" when there
      are any. */
  function CompactCookingTime(minutes: Option<int>): (r: Option<string>)
    ensures r.None? <==> minutes.None? || minutes.value == 0
    ensures minutes.Some? && minutes.value != 0 && minutes.value < 60 ==> r == Some(Text.IntToString(minutes.value) + "m")
    ensures minutes.Some? && minutes.value >= 60 ==>
      r == Some(Text.IntToString(minutes.value / 60) + "h"
                + (if minutes.value % 60 > 0 then " " + Text.IntToString(minutes.value % 60) + "m" else ""))
  {
    match minutes
    case None => None
    case Some(m) =>
      if m == 0 then None
      else if m < 60 then Some(CompactMinutes(m))
      else
        assert " " + CompactMinutes(m % 60) == " " + Text.IntToString(m % 60) + "m";
        Some(CompactHours(m / 60, m % 60))
  }

  /** Reads a compact time back into minutes. */
  function ReadCompactTime(s: string): Option<int>
  {
    match Text.ReadInt(s)
    case None => None
    case Some((n, rest)) => ReadCompactUnits(n, rest)
  }

  function ReadCompactUnits(n: int, rest: string): Option<int>
  {
    if rest == "m" then Some(n)
    else if rest == "h" then Some(60 * n)
    else if |rest| >= 2 && rest[..2] == "h " then
      match Text.ReadInt(rest[2..])
      case Some((r, "m")) => Some(60 * n + r)
      case _ => None
    else None
  }

  lemma ReadCompactMinutes(m: int)
    ensures Text.ReadInt(CompactMinutes(m)) == Some((m, "m"))
    ensures ReadCompactTime(CompactMinutes(m)) == Some(m)
  {
    Text.ReadIntToString(m, "m");
  }

  lemma ReadCompactUnitsOfTail(hours: int, rem: int)
    requires rem >= 0
    ensures ReadCompactUnits(hours, "h" + (if rem > 0 then " " + CompactMinutes(rem) else "")) == Some(60 * hours + rem)
  {
    if rem > 0 {
      var more := CompactMinutes(rem);
      var tail := "h" + (" " + more);
      assert tail == "h " + more;
      assert |tail| > 2 && tail[..2] == "h " && tail[2..] == more;
      assert tail != "m" && tail != "h";
      ReadCompactMinutes(rem);
      assert Text.ReadInt(tail[2..]) == Some((rem, "m"));
    } else {
      assert "h" + "" == "h";
    }
  }

  lemma ReadCompactHours(hours: int, rem: int)
    requires rem >= 0
    ensures ReadCompactTime(CompactHours(hours, rem)) == Some(60 * hours + rem)
  {
    var tail := "h" + (if rem > 0 then " " + CompactMinutes(rem) else "");
    assert CompactHours(hours, rem) == Text.IntToString(hours) + tail;
    Text.ReadIntToString(hours, tail);
    ReadCompactUnitsOfTail(hours, rem);
  }

  /** The compact label loses no minute: reading it back gives the input. */
  lemma CompactCookingTimeRoundTrip(m: int)
    requires m != 0
    ensures CompactCookingTime(Some(m)).Some?
    ensures ReadCompactTime(CompactCookingTime(Some(m)).value) == Some(m)
  {
    if m < 60 {
      ReadCompactMinutes(m);
    } else {
      ReadCompactHours(m / 60, m % 60);
    }
  }

  /** The card and the detail page agree: the card shows a time exactly when
      the detail page shows one other than "Not specified", and both read
      back to the same number of minutes. */
  lemma CardAgreesWithDetail(minutes: Option<int>)
    ensures CompactCookingTime(minutes).Some? <==> RecipeDetailView.FormatCookingTime(minutes) != RecipeDetailView.NotSpecified
    ensures CompactCookingTime(minutes).Some? ==>
      ReadCompactTime(CompactCookingTime(minutes).value) == RecipeDetailView.ReadCookingTime(RecipeDetailView.FormatCookingTime(minutes))
  {
    if minutes.Some? && minutes.value != 0 {
      CompactCookingTimeRoundTrip(minutes.value);
      RecipeDetailView.CookingTimeRoundTrip(minutes.value);
    }
  }

  /** The card's `formatCategory`: nothing for no category (or the empty
      one), otherwise the same label as the detail page. */
  function CardCategory(category: Option<string>): (r: Option<string>)
    ensures r.Some? <==> category.Some? && category.value != ""
    ensures r.Some? ==> r.value == RecipeDetailView.FormatCategory(category)
  {
    if category.None? || category.value == "" then None
    else Some([Text.UpperChar(category.value[0])] + RecipeDetailView.ReplaceFirst(category.value[1..], '-', ' '))
  }

  /** `getIngredientCount`: the non-blank entries of a JSON array of strings,
      0 for any other JSON value, and the non-blank lines when the text is
      not JSON or the array holds a non-string. */
  function IngredientCount(raw: string, parsed: Json.JsonParse): (n: nat)
    ensures parsed.Parsed? && parsed.value.StringArray? ==> n == |Text.NonBlank(parsed.value.items)|
    ensures parsed == Json.Parsed(Json.NonArray) ==> n == 0
    ensures parsed == Json.ParseFailed || parsed == Json.Parsed(Json.OtherArray) ==> n == |Text.NonBlank(Text.Split(raw, '\n'))|
  {
    match parsed
    case Parsed(StringArray(items)) => |Text.NonBlank(items)|
    case Parsed(NonArray) => 0
    case _ => |Text.NonBlank(Text.Split(raw, '\n'))|
  }

  /** The card counts the entries the detail page lists, except for a JSON
      value that is not an array: the page lists the raw text as one entry
      while the card counts none. */
  lemma IngredientCountMatchesDetail(raw: string, parsed: Json.JsonParse)
    ensures parsed != Json.Parsed(Json.NonArray) ==> IngredientCount(raw, parsed) == |RecipeDetailView.ParseList(raw, parsed)|
    ensures parsed == Json.Parsed(Json.NonArray) ==> IngredientCount(raw, parsed) == 0 && |RecipeDetailView.ParseList(raw, parsed)| == 1
  {
  }

  /** The ingredients the form stores are counted exactly. */
  lemma StoredIngredientsCounted(rows: seq<string>, parsed: Json.JsonParse)
    requires Json.ParseAgrees(Json.Stringify(Text.NonBlank(rows)), parsed)
    ensures IngredientCount(Json.Stringify(Text.NonBlank(rows)), parsed) == |Text.NonBlank(rows)|
  {
    var kept := Text.NonBlank(rows);
    Json.StringifyRoundTrip(kept);
    assert parsed == Json.Parsed(Json.StringArray(kept));
    Text.NonBlankProperties(rows);
    assert IngredientCount(Json.Stringify(kept), parsed) == |Text.NonBlank(kept)|;
  }

  /** The author line, shown when asked for and when the author's names were
      joined: "by" and the full name, or the username when that is empty. */
  function AuthorLine(showAuthor: bool, profiles: Option<AuthorNames>): (r: Option<string>)
    ensures r.Some? <==> showAuthor && profiles.Some?
    ensures r.Some? && profiles.value.full_name != "" ==> r.value == "by " + profiles.value.full_name
    ensures r.Some? && profiles.value.full_name == "" ==> r.value == "by " + profiles.value.username
  {
    if showAuthor && profiles.Some? then
      Some("by " + (if profiles.value.full_name != "" then profiles.value.full_name else profiles.value.username))
    else None
  }

  /** The time stat as the card renders it: `{recipe.cooking_time && ...}`
      renders nothing for a missing time, but React prints the number itself
      when the time is 0. */
  function TimeStatAsWritten(minutes: Option<int>): (r: Option<string>)
    ensures minutes == Some(0) ==> r == Some(Text.IntToString(0))
    ensures minutes != Some(0) ==> r == CompactCookingTime(minutes)
  {
    match minutes
    case None => None
    case Some(m) => if m == 0 then Some(Text.IntToString(m)) else CompactCookingTime(minutes)
  }

  /** A stored time of 0 puts a bare "0" among the stats, a text that does not
      read back as any time. */
  lemma TimeStatShowsBareZero()
    ensures TimeStatAsWritten(Some(0)) == Some("0")
    ensures ReadCompactTime("0") == None
  {
    Text.ReadIntToString(0, "");
    assert Text.IntToString(0) == "0";
  }

  /** The time stat as intended: shown exactly when there is a time other than
      0, and what is shown reads back to the stored minutes. */
  function TimeStat(minutes: Option<int>): (r: Option<string>)
    ensures r.None? <==> minutes.None? || minutes.value == 0
    ensures r.Some? ==> ReadCompactTime(r.value) == minutes
  {
    if minutes.None? || minutes.value == 0 then None
    else
      CompactCookingTimeRoundTrip(minutes.value);
      CompactCookingTime(minutes)
  }
}
