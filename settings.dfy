/**
 * The administrative settings page: an edited copy of the site settings, the last saved
 * copy, and a dirty flag.  The settings object is a map from its twelve keys to values; the
 * flag compares the two copies' JSON text, which for these flat objects with the same key
 * order is equality of the maps (a number that failed to parse is `NaN`, written `null`).
 */
module SettingsPage {
  import opened Wrappers

  datatype Field =
    | SiteName | SiteDescription | AdminEmail | AdminPassword | ContactPhone | ContactEmail
    | Address | BusinessHours | MaintenanceMode | AllowRegistrations | MaxFileUploadSize | SessionTimeout

  /** A field value; `Number(None)` is the `NaN` of an unparsable number input. */
  datatype SettingValue = Text(text: string) | Number(number: Option<int>) | Flag(flag: bool)

  type Settings = map<Field, SettingValue>

  /** The settings the page starts with. */
  const InitialSettings: Settings := map[
    SiteName := Text("흰당나귀"),
    SiteDescription := Text("AI 마케팅 자동화 플랫폼"),
    AdminEmail := Text("admin@whitedonkey.co.kr"),
    AdminPassword := Text("5o2o@"),
    ContactPhone := Text("1588-1234"),
    ContactEmail := Text("support@whitedonkey.co.kr"),
    Address := Text("서울특별시 강남구 테헤란로 123"),
    BusinessHours := Text("월-금 09:00-18:00"),
    MaintenanceMode := Flag(false),
    AllowRegistrations := Flag(true),
    MaxFileUploadSize := Number(Some(10)),
    SessionTimeout := Number(Some(24))]

  /** Changing a field and changing it back leaves the object as it was. */
  lemma EditBackRestores(s: Settings, key: Field, value: SettingValue)
    requires key in s
    ensures s[key := value][key := s[key]] == s
  {
  }

  class AdminSettings {
    var settings: Settings
    var originalSettings: Settings
    var hasChanges: bool

    /** The dirty flag tells exactly whether the edited copy differs from the saved one. */
    ghost predicate Valid()
      reads this
    {
      hasChanges <==> settings != originalSettings
    }

    constructor ()
      ensures Valid()
      ensures settings == InitialSettings && originalSettings == InitialSettings && !hasChanges
    {
      settings := InitialSettings;
      originalSettings := InitialSettings;
      hasChanges := false;
    }

    /** `handleInputChange`: replace one field, then recompute the flag against the saved
        copy, so editing a field back to its saved value clears it. */
    method HandleInputChange(key: Field, value: SettingValue)
      modifies this
      ensures Valid()
      ensures settings == old(settings)[key := value]
      ensures originalSettings == old(originalSettings)
    {
      var newSettings := settings[key := value];
      settings := newSettings;
      hasChanges := newSettings != originalSettings;
    }

    /** `handleSaveSettings`: the edited copy becomes the saved one. */
    method Save()
      modifies this
      ensures Valid() && !hasChanges
      ensures settings == old(settings) && originalSettings == old(settings)
    {
      originalSettings := settings;
      hasChanges := false;
    }

    /** `handleResetSettings`: after a confirmed prompt the saved copy replaces the edited
        one; a declined prompt changes nothing. */
    method Reset(confirmed: bool)
      requires Valid()
      modifies this
      ensures Valid()
      ensures originalSettings == old(originalSettings)
      ensures confirmed ==> settings == old(originalSettings) && !hasChanges
      ensures !confirmed ==> settings == old(settings) && hasChanges == old(hasChanges)
    {
      if confirmed {
        settings := originalSettings;
        hasChanges := false;
      }
    }

    /** The save button is disabled, and the cancel button hidden, exactly when nothing
        differs from the saved copy. */
    function SaveDisabled(): (disabled: bool)
      requires Valid()
      reads this
      ensures disabled <==> settings == originalSettings
    {
      !hasChanges
    }

    function CancelShown(): (shown: bool)
      requires Valid()
      reads this
      ensures shown <==> settings != originalSettings
    {
      hasChanges
    }
  }
}
