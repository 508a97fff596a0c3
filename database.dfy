/** The profile update and the recipe page query of lib/database.ts. The
    update builds its column set field by field and picks its error message
    through a reassigned variable, so both are methods here, each proved
    against the function that states its result; the store's reply to the
    write is an input. */
module Database {
  import opened Wrappers
  import opened Types
  import Text

  const ProfileNotFound := "Profile not found. Please ensure your profile is properly created."
  const BioNotSupported := "Bio field is not supported yet. Please update your database schema by running the migration script."
  const UsernameTaken := "Username is already taken. Please choose a different username."
  const InvalidData := "Invalid data provided. Please check your input and try again."
  const FailedToUpdateProfile := "Failed to update profile"
  const FailedToUpdateProfilePrefix := "Failed to update profile: "
  const NoDataReturned := "Profile update failed - no data returned"
  const UniqueViolation := "23505"
  const CheckViolation := "23514"
  const BioColumnMention := "'bio' column"

  /** The columns an update writes: always `updated_at`; the others only
      when present, `bio` possibly as null. */
  datatype ProfilePatch = ProfilePatch(
    updated_at: Timestamp,
    username: Option<string>,
    full_name: Option<string>,
    bio: Option<Option<string>>)

  /** The column set of an update: a name only when it is non-blank after
      trimming, and then trimmed; the bio only when the column exists,
      trimmed, or null when blank. */
  function UpdateData(updates: UpdateProfileData, bioColumnExists: bool, now: Timestamp): (r: ProfilePatch)
    ensures r.updated_at == now
    ensures r.username.Some? <==> updates.username.Some? && Text.HasText(updates.username.value)
    ensures r.username.Some? ==> r.username.value == Text.Trim(updates.username.value) && Text.HasText(r.username.value)
    ensures r.full_name.Some? <==> updates.full_name.Some? && Text.HasText(updates.full_name.value)
    ensures r.full_name.Some? ==> r.full_name.value == Text.Trim(updates.full_name.value) && Text.HasText(r.full_name.value)
    ensures r.bio.Some? <==> updates.bio.Some? && bioColumnExists
    ensures r.bio.Some? ==> r.bio.value == Text.TrimmedOrNone(updates.bio.value)
  {
    ProfilePatch(
      now,
      if updates.username.Some? then Text.TrimmedOrNone(updates.username.value) else None,
      if updates.full_name.Some? then Text.TrimmedOrNone(updates.full_name.value) else None,
      if updates.bio.Some? && bioColumnExists then Some(Text.TrimmedOrNone(updates.bio.value)) else None)
  }

  /** The row after the store applies a patch: the written columns change,
      every other column keeps its value. */
  function ApplyPatch(p: Profile, patch: ProfilePatch): (r: Profile)
    ensures r.id == p.id && r.created_at == p.created_at && r.updated_at == patch.updated_at
    ensures r.username == (if patch.username.Some? then patch.username.value else p.username)
    ensures r.full_name == (if patch.full_name.Some? then patch.full_name.value else p.full_name)
    ensures r.bio == (if patch.bio.Some? then patch.bio.value else p.bio)
  {
    p.(updated_at := patch.updated_at,
       username := if patch.username.Some? then patch.username.value else p.username,
       full_name := if patch.full_name.Some? then patch.full_name.value else p.full_name,
       bio := if patch.bio.Some? then patch.bio.value else p.bio)
  }

  /** Applying the same update twice is applying it once. */
  lemma ApplyPatchIdempotent(p: Profile, patch: ProfilePatch)
    ensures ApplyPatch(ApplyPatch(p, patch), patch) == ApplyPatch(p, patch)
  {
  }

  /** An update never blanks a name: a blank or missing input keeps the
      stored name, and a written one has text. A missing bio column leaves
      the bio alone. */
  lemma UpdateNeverBlanksNames(p: Profile, updates: UpdateProfileData, bioColumnExists: bool, now: Timestamp)
    ensures Text.HasText(p.username) ==> Text.HasText(ApplyPatch(p, UpdateData(updates, bioColumnExists, now)).username)
    ensures Text.HasText(p.full_name) ==> Text.HasText(ApplyPatch(p, UpdateData(updates, bioColumnExists, now)).full_name)
    ensures !bioColumnExists ==> ApplyPatch(p, UpdateData(updates, bioColumnExists, now)).bio == p.bio
    ensures ApplyPatch(p, UpdateData(updates, bioColumnExists, now)).bio != p.bio ==>
      var bio := ApplyPatch(p, UpdateData(updates, bioColumnExists, now)).bio;
      bio.None? || Text.HasText(bio.value)
  {
  }

  /** Submitting the stored, trimmed names again writes the same names. */
  lemma ResubmitKeepsNames(p: Profile, bioColumnExists: bool, now: Timestamp)
    requires Text.HasText(p.username) && Text.HasText(p.full_name)
    ensures ApplyPatch(p, UpdateData(UpdateProfileData(Some(p.username), Some(p.full_name), None), bioColumnExists, now)).username == Text.Trim(p.username)
    ensures ApplyPatch(p, UpdateData(UpdateProfileData(Some(p.username), Some(p.full_name), None), bioColumnExists, now)).full_name == Text.Trim(p.full_name)
    ensures ApplyPatch(p, UpdateData(UpdateProfileData(Some(p.username), Some(p.full_name), None), bioColumnExists, now)).bio == p.bio
  {
  }

  /** The `updateData` object, built one conditional assignment at a time. */
  method BuildUpdateData(updates: UpdateProfileData, bioColumnExists: bool, now: Timestamp) returns (patch: ProfilePatch)
    ensures patch == UpdateData(updates, bioColumnExists, now)
  {
    patch := ProfilePatch(now, None, None, None);
    if updates.username.Some? && Text.Trim(updates.username.value) != "" {
      patch := patch.(username := Some(Text.Trim(updates.username.value)));
    }
    if updates.full_name.Some? && Text.Trim(updates.full_name.value) != "" {
      patch := patch.(full_name := Some(Text.Trim(updates.full_name.value)));
    }
    if updates.bio.Some? && bioColumnExists {
      var trimmed := Text.Trim(updates.bio.value);
      patch := patch.(bio := Some(if trimmed != "" then Some(trimmed) else None));
    }
  }

  /** `error.message` is truthy. */
  predicate HasMessage(message: Option<string>)
  {
    message.Some? && message.value != ""
  }

  /** The message is about the missing `bio` column. */
  predicate MentionsBioColumn(message: Option<string>)
  {
    HasMessage(message) && Text.Contains(message.value, BioColumnMention)
  }

  /** The message thrown for a failed write: the bio column first, then the
      unique and check violations, then the store's own message, and a
      plain failure when there is none. */
  function ErrorMessage(code: Option<string>, message: Option<string>): (r: string)
    ensures MentionsBioColumn(message) ==> r == BioNotSupported
    ensures !MentionsBioColumn(message) && code == Some(UniqueViolation) ==> r == UsernameTaken
    ensures !MentionsBioColumn(message) && code == Some(CheckViolation) ==> r == InvalidData
    ensures !MentionsBioColumn(message) && code != Some(UniqueViolation) && code != Some(CheckViolation) ==>
      r == if HasMessage(message) then FailedToUpdateProfilePrefix + message.value else FailedToUpdateProfile
  {
    if MentionsBioColumn(message) then BioNotSupported
    else if code == Some(UniqueViolation) then UsernameTaken
    else if code == Some(CheckViolation) then InvalidData
    else if HasMessage(message) then FailedToUpdateProfilePrefix + message.value
    else FailedToUpdateProfile
  }

  /** The generic message carries the store's message after the prefix and
      differs from the plain failure, so no two different store messages
      reach the user as the same text. */
  lemma GenericMessageKeepsDetail(code: Option<string>, message: Option<string>)
    requires !MentionsBioColumn(message) && code != Some(UniqueViolation) && code != Some(CheckViolation)
    requires HasMessage(message)
    ensures |ErrorMessage(code, message)| > |FailedToUpdateProfilePrefix|
    ensures ErrorMessage(code, message)[|FailedToUpdateProfilePrefix|..] == message.value
    ensures ErrorMessage(code, message) != FailedToUpdateProfile
  {
  }

  /** Two different store messages in the generic case reach the user as two different texts. */
  lemma GenericMessagesDistinct(code1: Option<string>, message1: Option<string>, code2: Option<string>, message2: Option<string>)
    requires !MentionsBioColumn(message1) && code1 != Some(UniqueViolation) && code1 != Some(CheckViolation) && HasMessage(message1)
    requires !MentionsBioColumn(message2) && code2 != Some(UniqueViolation) && code2 != Some(CheckViolation) && HasMessage(message2)
    requires ErrorMessage(code1, message1) == ErrorMessage(code2, message2)
    ensures message1 == message2
  {
    GenericMessageKeepsDetail(code1, message1);
    GenericMessageKeepsDetail(code2, message2);
  }

  /** The `let errorMessage` reassignment, after the bio check. */
  method UpdateErrorMessage(code: Option<string>, message: Option<string>) returns (msg: string)
    ensures msg == ErrorMessage(code, message)
  {
    if MentionsBioColumn(message) {
      return BioNotSupported;
    }
    var errorMessage := FailedToUpdateProfile;
    if code == Some(UniqueViolation) {
      errorMessage := UsernameTaken;
    } else if code == Some(CheckViolation) {
      errorMessage := InvalidData;
    } else if HasMessage(message) {
      errorMessage := FailedToUpdateProfilePrefix + message.value;
    }
    msg := errorMessage;
  }

  /** The store's reply to the write. */
  datatype WriteOutcome = Written | WriteFailed(code: Option<string>, message: Option<string>) | NoData

  class ProfileStore {
    var profiles: map<UserId, Profile>

    constructor (profiles: map<UserId, Profile>)
      ensures this.profiles == profiles
    {
      this.profiles := profiles;
    }

    /** `updateProfile`: a profile that cannot be read stops the update
        before anything is written; otherwise the built column set is
        written, and the store's reply decides the result. */
    method UpdateProfile(userId: UserId, updates: UpdateProfileData, lookupFails: bool, bioColumnExists: bool,
                         now: Timestamp, outcome: WriteOutcome)
      returns (r: Result<Profile>)
      modifies this`profiles
      ensures userId !in old(profiles) || lookupFails ==> r == Err(ProfileNotFound) && profiles == old(profiles)
      ensures userId in old(profiles) && !lookupFails && outcome.WriteFailed? ==>
        r == Err(ErrorMessage(outcome.code, outcome.message)) && profiles == old(profiles)
      ensures userId in old(profiles) && !lookupFails && outcome.NoData? ==> r == Err(NoDataReturned) && profiles == old(profiles)
      ensures userId in old(profiles) && !lookupFails && outcome.Written? ==>
        && r == Ok(ApplyPatch(old(profiles)[userId], UpdateData(updates, bioColumnExists, now)))
        && profiles == old(profiles)[userId := r.value]
    {
      if userId !in profiles || lookupFails {
        return Err(ProfileNotFound);
      }
      var patch := BuildUpdateData(updates, bioColumnExists, now);
      if outcome.WriteFailed? {
        var msg := UpdateErrorMessage(outcome.code, outcome.message);
        return Err(msg);
      }
      if outcome.NoData? {
        return Err(NoDataReturned);
      }
      var row := ApplyPatch(profiles[userId], patch);
      profiles := profiles[userId := row];
      r := Ok(row);
    }
  }

  /** The rows are newest first. */
  predicate NewestFirst(rows: seq<Recipe>)
  {
    forall i, j | 0 <= i < j < |rows| :: rows[i].created_at >= rows[j].created_at
  }

  function Min(a: int, b: int): int
  {
    if a <= b then a else b
  }

  /** `getRecipes(limit, offset)` over the rows in the query's newest-first
      order: the inclusive range `offset .. offset + limit - 1`, cut short at
      the end of the table; nothing when the query fails. */
  function GetRecipes(ordered: seq<Recipe>, failed: bool, limit: nat, offset: nat): (r: seq<Recipe>)
    ensures |r| <= limit
    ensures failed || offset >= |ordered| ==> r == []
    ensures !failed && offset <= |ordered| ==> |r| == Min(limit, |ordered| - offset) && r == ordered[offset..offset + |r|]
    ensures NewestFirst(ordered) ==> NewestFirst(r)
  {
    if failed || offset >= |ordered| then []
    else ordered[offset..Min(offset + limit, |ordered|)]
  }

  /** Consecutive pages tile the table: a page of `a` rows followed by the
      next page of `b` rows is the page of `a + b` rows. */
  lemma PagesTile(ordered: seq<Recipe>, a: nat, b: nat, offset: nat)
    ensures GetRecipes(ordered, false, a, offset) + GetRecipes(ordered, false, b, offset + a) == GetRecipes(ordered, false, a + b, offset)
  {
    if offset < |ordered| && offset + a < |ordered| {
      assert ordered[offset..offset + a] + ordered[offset + a..Min(offset + a + b, |ordered|)] == ordered[offset..Min(offset + a + b, |ordered|)];
    }
  }
}
