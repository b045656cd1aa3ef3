/** The preference store (client/src/lib/stores/useSettings.tsx): a theme
    and a corner style, written to local storage after every change. */
module Settings {
  import opened Base
  import opened Types
  import opened Storage

  datatype Preferences = Preferences(themeMode: ThemeMode, cornerStyle: CornerStyle)

  const Defaults := Preferences(Light, Rounded)

  /** What `saveToStorage` writes: exactly the two fields, under `research-settings`. */
  function SaveSettings(data: map<string, Stored>, p: Preferences): (r: map<string, Stored>)
    ensures Get(r, SettingsKey) == Some(SettingsBlob(Some(p.themeMode), Some(p.cornerStyle)))
    ensures forall k :: k != SettingsKey ==> Get(r, k) == Get(data, k)
  {
    data[SettingsKey := SettingsBlob(Some(p.themeMode), Some(p.cornerStyle))]
  }

  /** Whether a stored value is truthy: every stored object and list is, a
      string only when it is not empty. */
  predicate Truthy(v: Stored) {
    !(v.DateMarker? && v.date == "")
  }

  /** `loadFromStorage`: nothing stored (or a falsy value) leaves the
      preferences alone; otherwise each field is the stored one, or the
      default when the stored value lacks it. */
  function LoadSettings(p: Preferences, data: map<string, Stored>): (r: Preferences)
    ensures SettingsKey !in data ==> r == p
    ensures SettingsKey in data && data[SettingsKey].SettingsBlob? ==>
      && (data[SettingsKey].themeMode.Some? ==> r.themeMode == data[SettingsKey].themeMode.value)
      && (data[SettingsKey].themeMode.None? ==> r.themeMode == Light)
      && (data[SettingsKey].cornerStyle.Some? ==> r.cornerStyle == data[SettingsKey].cornerStyle.value)
      && (data[SettingsKey].cornerStyle.None? ==> r.cornerStyle == Rounded)
    ensures SettingsKey in data && !data[SettingsKey].SettingsBlob? && Truthy(data[SettingsKey]) ==> r == Defaults
  {
    match Get(data, SettingsKey)
    case None => p
    case Some(v) =>
      if !Truthy(v) then p
      else if v.SettingsBlob? then
        Preferences(if v.themeMode.Some? then v.themeMode.value else Light,
                    if v.cornerStyle.Some? then v.cornerStyle.value else Rounded)
      else Defaults
  }

  /** A save followed by a load restores the pair, whatever was in memory. */
  lemma SaveThenLoadSettings(data: map<string, Stored>, p: Preferences, before: Preferences)
    ensures LoadSettings(before, SaveSettings(data, p)) == p
  {
  }

  class SettingsStore {
    var themeMode: ThemeMode
    var cornerStyle: CornerStyle
    const storage: LocalStorage

    function Current(): Preferences
      reads this
    {
      Preferences(themeMode, cornerStyle)
    }

    constructor(storage: LocalStorage)
      ensures this.storage == storage && Current() == Defaults
    {
      this.storage := storage;
      themeMode := Light;
      cornerStyle := Rounded;
    }

    method SetThemeMode(mode: ThemeMode)
      modifies this, storage
      ensures Current() == old(Current()).(themeMode := mode)
      ensures storage.data == SaveSettings(old(storage.data), Current())
    {
      themeMode := mode;
      SaveToStorage();
    }

    method SetCornerStyle(style: CornerStyle)
      modifies this, storage
      ensures Current() == old(Current()).(cornerStyle := style)
      ensures storage.data == SaveSettings(old(storage.data), Current())
    {
      cornerStyle := style;
      SaveToStorage();
    }

    method LoadFromStorage()
      modifies this
      ensures Current() == LoadSettings(old(Current()), storage.data)
    {
      var stored := Get(storage.data, SettingsKey);
      if stored.Some? && Truthy(stored.value) {
        var v := stored.value;
        if v.SettingsBlob? {
          themeMode := if v.themeMode.Some? then v.themeMode.value else Light;
          cornerStyle := if v.cornerStyle.Some? then v.cornerStyle.value else Rounded;
        } else {
          themeMode := Light;
          cornerStyle := Rounded;
        }
      }
    }

    method SaveToStorage()
      modifies storage
      ensures storage.data == SaveSettings(old(storage.data), Current())
    {
      storage.Set(SettingsKey, SettingsBlob(Some(themeMode), Some(cornerStyle)));
    }
  }
}
