/** The settings page: a draft of the settings, edited one field of one weekday at
    a time or by the slot-length selector, and handed back unchanged on save. */
module SettingsView {
  import opened Types

  /** Choosing a start or end hour from the offered lists keeps a full, valid week
      valid, and changes nothing but that field of that day. */
  lemma DraftEditKeepsValid(s: Settings, dayIndex: int, f: DayField)
    requires ValidSettings(s) && 0 <= dayIndex < 7
    requires f.StartTime? ==> f.startHour in HourStarts
    requires f.EndTime? ==> f.endHour in HourEnds
    ensures ValidSettings(UpdateDay(s, dayIndex, f))
    ensures forall i :: 0 <= i < 7 && i != dayIndex ==> UpdateDay(s, dayIndex, f).workingHours[i] == s.workingHours[i]
    ensures UpdateDay(s, dayIndex, f).slotDuration == s.slotDuration
  {
    OfferedOptionsKeepValid(s.workingHours[dayIndex], f);
  }

  /** Choosing an offered slot length keeps valid settings valid. */
  lemma DurationChoiceKeepsValid(s: Settings, minutes: int)
    requires ValidSettings(s) && minutes in DurationOptions
    ensures ValidSettings(s.(slotDuration := minutes))
  {
    OfferedOptions();
  }

  /** The offered choices do not keep a day's start before its end: a valid week
      can have a working day that starts at 17:00 and ends at 09:00. */
  lemma StartAfterEndAccepted(s: Settings)
    requires ValidSettings(s)
    ensures ValidSettings(UpdateDay(UpdateDay(s, 1, StartTime(17)), 1, EndTime(9)))
    ensures UpdateDay(UpdateDay(s, 1, StartTime(17)), 1, EndTime(9)).workingHours[1].startTime
      > UpdateDay(UpdateDay(s, 1, StartTime(17)), 1, EndTime(9)).workingHours[1].endTime
  {
    OfferedOptions();
    DraftEditKeepsValid(s, 1, StartTime(17));
    DraftEditKeepsValid(UpdateDay(s, 1, StartTime(17)), 1, EndTime(9));
  }

  class Form {
    /** The draft (`useState(currentSettings)`). */
    var settings: Settings

    constructor(currentSettings: Settings)
      ensures settings == currentSettings
    {
      settings := currentSettings;
    }

    /** `handleDaySettingChange(dayIndex, field, value)`, for one of the rendered days. */
    method HandleDaySettingChange(dayIndex: int, f: DayField)
      requires 0 <= dayIndex < |settings.workingHours|
      modifies this
      ensures settings == UpdateDay(old(settings), dayIndex, f)
    {
      settings := settings.(workingHours := settings.workingHours[dayIndex := ApplyField(settings.workingHours[dayIndex], f)]);
    }

    /** The slot-length selector: `setSettings({ ...settings, slotDuration })`. */
    method SetSlotDuration(minutes: int)
      modifies this
      ensures settings == old(settings).(slotDuration := minutes)
    {
      settings := settings.(slotDuration := minutes);
    }

    /** `handleSave`: the draft is handed over as it is, without checking it. */
    method HandleSave() returns (saved: Settings)
      ensures saved == settings
    {
      saved := settings;
    }
  }
}
