/**
  The page-flip preferences hook (lib/hooks/use-page-flip-settings.ts): the defaults, the
  partial update that keeps the fields it is not given, the revert after a failed save,
  and the reset.
*/
module PageFlipSettings {
  import opened Common

  datatype Settings = Settings(
    interactiveFlipEnabled: bool,
    pageFlipSpeed: real,
    pageFlipThreshold: real,
    pageFlipEasing: string)

  /** Flipping on, half a second per flip, 30% of the page width to turn, "easeOut". */
  const Defaults: Settings := Settings(true, 0.5, 0.3, "easeOut")

  /** A `Partial<PageFlipSettings>`: the fields given. */
  datatype Partial = Partial(
    interactiveFlipEnabled: Option<bool>,
    pageFlipSpeed: Option<real>,
    pageFlipThreshold: Option<real>,
    pageFlipEasing: Option<string>)

  const NoChange: Partial := Partial(None, None, None, None)

  /** Every field given. */
  function Whole(s: Settings): Partial
  {
    Partial(Some(s.interactiveFlipEnabled), Some(s.pageFlipSpeed), Some(s.pageFlipThreshold), Some(s.pageFlipEasing))
  }

  function Pick<T>(given: Option<T>, current: T): T
  {
    if given.Some? then given.value else current
  }

  /** `{ ...settings, ...newSettings }`: a given field overwrites, the others are kept. */
  function Merge(s: Settings, p: Partial): (r: Settings)
    ensures p.interactiveFlipEnabled.None? ==> r.interactiveFlipEnabled == s.interactiveFlipEnabled
    ensures p.interactiveFlipEnabled.Some? ==> r.interactiveFlipEnabled == p.interactiveFlipEnabled.value
    ensures p.pageFlipSpeed.None? ==> r.pageFlipSpeed == s.pageFlipSpeed
    ensures p.pageFlipSpeed.Some? ==> r.pageFlipSpeed == p.pageFlipSpeed.value
    ensures p.pageFlipThreshold.None? ==> r.pageFlipThreshold == s.pageFlipThreshold
    ensures p.pageFlipThreshold.Some? ==> r.pageFlipThreshold == p.pageFlipThreshold.value
    ensures p.pageFlipEasing.None? ==> r.pageFlipEasing == s.pageFlipEasing
    ensures p.pageFlipEasing.Some? ==> r.pageFlipEasing == p.pageFlipEasing.value
  {
    Settings(
      Pick(p.interactiveFlipEnabled, s.interactiveFlipEnabled),
      Pick(p.pageFlipSpeed, s.pageFlipSpeed),
      Pick(p.pageFlipThreshold, s.pageFlipThreshold),
      Pick(p.pageFlipEasing, s.pageFlipEasing))
  }

  /** An empty update changes nothing, repeating an update changes nothing more, and a
      whole record replaces the settings. */
  lemma MergeProperties(s: Settings, p: Partial, t: Settings)
    ensures Merge(s, NoChange) == s
    ensures Merge(Merge(s, p), p) == Merge(s, p)
    ensures Merge(s, Whole(t)) == t
  {
  }

  /** What the settings query gave. */
  datatype LoadOutcome = LoadFailed | Loaded(stored: Option<Settings>)

  class SettingsStore {
    const userId: Option<string>
    var settings: Settings
    var isLoading: bool

    constructor(user: Option<string>)
      ensures userId == user && settings == Defaults && isLoading
    {
      userId := user;
      settings := Defaults;
      isLoading := true;
    }

    /** `loadSettings`: stored settings of a signed-in user replace the current ones;
        without a user, on a failed query or with nothing stored they stay. */
    method LoadSettings(outcome: LoadOutcome)
      modifies this`settings, this`isLoading
      ensures !isLoading
      ensures settings == if userId.Some? && outcome.Loaded? && outcome.stored.Some?
                          then outcome.stored.value else old(settings)
    {
      if userId.None? {
        isLoading := false;
        return;
      }
      if outcome.Loaded? && outcome.stored.Some? {
        settings := outcome.stored.value;
      }
      isLoading := false;
    }

    /** `updateSettings`: without a user nothing happens; otherwise the merged settings
        are saved, and they stay only when the save succeeds. */
    method UpdateSettings(newSettings: Partial, saved: bool) returns (upserted: Option<Settings>)
      modifies this`settings
      ensures userId.None? ==> upserted.None? && settings == old(settings)
      ensures userId.Some? ==> upserted == Some(Merge(old(settings), newSettings))
      ensures settings == if userId.Some? && saved then Merge(old(settings), newSettings) else old(settings)
    {
      if userId.None? {
        return None;
      }
      var previous := settings;
      var updatedSettings := Merge(settings, newSettings);
      settings := updatedSettings;
      upserted := Some(updatedSettings);
      if !saved {
        settings := previous;
      }
    }

    /** `resetSettings`: an update with the whole default record. */
    method ResetSettings(saved: bool) returns (upserted: Option<Settings>)
      modifies this`settings
      ensures userId.Some? ==> upserted == Some(Defaults)
      ensures settings == if userId.Some? && saved then Defaults else old(settings)
    {
      MergeProperties(settings, Whole(Defaults), Defaults);
      upserted := UpdateSettings(Whole(Defaults), saved);
    }
  }
}
