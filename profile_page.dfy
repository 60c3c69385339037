/** The settings page of app/profile/page.tsx: the user's own details, the
    check that the four required ones are filled in, and their storage
    under "profile-settings" in the browser's local storage. The stored
    entry is modelled as the settings themselves; its JSON encoding is not
    part of this model. */
module ProfilePage {
  import opened Wrappers

  /** `ProfileSettings` (lines 26-34). */
  datatype ProfileSettings = ProfileSettings(
    name: string, age: string, gender: string, location: string,
    seeking: string, intention: string, slangLevel: string)

  /** `defaultSettings` (lines 36-44). */
  const DefaultSettings := ProfileSettings(
    name := "", age := "", gender := "", location := "",
    seeking := "", intention := "", slangLevel := "moderate")

  const MissingFields := "Please fill in all required fields"
  const SavedNotice := "Profile settings saved!"

  /** What a save leads to: the notice shown, and whether the settings
      were written. */
  datatype SaveOutcome = Saved | Rejected(message: string)

  /** The four fields `handleSave` insists on. */
  predicate Complete(settings: ProfileSettings) {
    settings.name != "" && settings.age != "" && settings.gender != "" && settings.location != ""
  }

  /** `handleSave`: the stored entry afterwards and the outcome. */
  function HandleSave(settings: ProfileSettings, stored: Option<ProfileSettings>)
    : (r: (Option<ProfileSettings>, SaveOutcome))
    ensures r.1.Saved? <==> settings.name != "" && settings.age != "" &&
                            settings.gender != "" && settings.location != ""
    ensures r.1.Saved? ==> r.0 == Some(settings)
    ensures r.1.Rejected? ==> r.0 == stored && r.1.message == MissingFields
  {
    if settings.name == "" || settings.age == "" || settings.gender == "" || settings.location == "" then
      (stored, Rejected(MissingFields))
    else
      (Some(settings), Saved)
  }

  /** The effect on mount: a stored entry replaces the current settings. */
  function LoadSettings(current: ProfileSettings, stored: Option<ProfileSettings>): (r: ProfileSettings)
    ensures stored.None? ==> r == current
    ensures stored.Some? ==> r == stored.value
  {
    if stored.Some? then stored.value else current
  }

  /** The page starts with every field empty except the slang level,
      "moderate", and cannot save that as it is. */
  lemma DefaultsIncomplete(stored: Option<ProfileSettings>)
    ensures DefaultSettings.slangLevel == "moderate"
    ensures DefaultSettings.(slangLevel := "") == ProfileSettings("", "", "", "", "", "", "")
    ensures HandleSave(DefaultSettings, stored) == (stored, Rejected(MissingFields))
  {
  }

  /** `seeking`, `intention` and `slangLevel` play no part in the check:
      changing them never changes whether a save goes through. */
  lemma OptionalFieldsNotRequired(settings: ProfileSettings, stored: Option<ProfileSettings>,
                                  seeking: string, intention: string, slangLevel: string)
    ensures var other := settings.(seeking := seeking, intention := intention, slangLevel := slangLevel);
      HandleSave(other, stored).1.Saved? == HandleSave(settings, stored).1.Saved?
  {
  }

  /** What is saved is read back unchanged the next time the page loads. */
  lemma SaveThenLoad(settings: ProfileSettings, stored: Option<ProfileSettings>, current: ProfileSettings)
    requires Complete(settings)
    ensures LoadSettings(current, HandleSave(settings, stored).0) == settings
  {
  }

  /** A rejected save leaves whatever was stored before, so the next load
      sees the earlier settings. */
  lemma RejectedSaveKeepsStored(settings: ProfileSettings, stored: Option<ProfileSettings>, current: ProfileSettings)
    requires !Complete(settings)
    ensures LoadSettings(current, HandleSave(settings, stored).0) == LoadSettings(current, stored)
  {
  }
}
