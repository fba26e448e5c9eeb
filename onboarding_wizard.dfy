/** The first-run wizard: the same weekly-hours and slot-length draft as the
    settings page, finished by marking the settings as configured. */
module OnboardingWizard {
  import opened Types

  /** `{ ...settings, isConfigured: true }`. */
  function Completed(draft: Settings): (r: Settings)
    ensures r.isConfigured
    ensures r.workingHours == draft.workingHours && r.slotDuration == draft.slotDuration
    ensures ValidSettings(draft) ==> ValidSettings(r)
  {
    draft.(isConfigured := true)
  }

  /** Completing twice is completing once, and completing keeps the draft's hours
      and slot length. */
  lemma CompletedIdempotent(draft: Settings)
    ensures Completed(Completed(draft)) == Completed(draft)
    ensures Completed(draft) == draft <==> draft.isConfigured
  {
  }

  class Wizard {
    /** The draft (`useState(initialSettings)`). */
    var settings: Settings

    constructor(initialSettings: Settings)
      ensures settings == initialSettings
    {
      settings := initialSettings;
    }

    /** `handleDaySettingChange(dayIndex, field, value)`, for one of the rendered days. */
    method HandleDaySettingChange(dayIndex: int, f: DayField)
      requires 0 <= dayIndex < |settings.workingHours|
      modifies this
      ensures settings == UpdateDay(old(settings), dayIndex, f)
    {
      settings := settings.(workingHours := settings.workingHours[dayIndex := ApplyField(settings.workingHours[dayIndex], f)]);
    }

    /** The slot-length selector. */
    method SetSlotDuration(minutes: int)
      modifies this
      ensures settings == old(settings).(slotDuration := minutes)
    {
      settings := settings.(slotDuration := minutes);
    }

    /** `handleComplete`: the draft, marked as configured. */
    method HandleComplete() returns (completed: Settings)
      ensures completed == Completed(settings)
    {
      completed := settings.(isConfigured := true);
    }
  }
}
