/** The browser's local storage as the stores use it: a map from key to the
    JSON value last written there. Each value is one of the shapes the stores
    write; reading a key that was never written gives nothing. */
module Storage {
  import opened Base
  import opened Types

  datatype Stored =
    | ProtocolsBlob(protocols: seq<Protocol>)
    | QuestsBlob(quests: seq<Quest>)
    | CompanionBlob(companion: Companion)
      /** `{score, level}`; a missing field is `None`. */
    | ScoreBlob(score: Option<int>, level: Option<int>)
      /** `{themeMode, cornerStyle}`; a missing field is `None`. */
    | SettingsBlob(themeMode: Option<ThemeMode>, cornerStyle: Option<CornerStyle>)
      /** The plain date string under `last-quest-generation`. */
    | DateMarker(date: string)

  const ProtocolsKey := "research-protocols"
  const QuestsKey := "research-quests"
  const CompanionKey := "research-companion"
  const ScoreKey := "research-score"
  const SettingsKey := "research-settings"
  const LastGenerationKey := "last-quest-generation"

  /** `getLocalStorage(key)`: the stored value, `None` for `null`. */
  function Get(data: map<string, Stored>, key: string): (r: Option<Stored>)
    ensures r.Some? <==> key in data
    ensures r.Some? ==> r.value == data[key]
  {
    if key in data then Some(data[key]) else None
  }

  class LocalStorage {
    var data: map<string, Stored>

    constructor(initial: map<string, Stored>)
      ensures data == initial
    {
      data := initial;
    }

    /** `setLocalStorage(key, value)`: the key now holds `value`, the others are untouched. */
    method Set(key: string, value: Stored)
      modifies this
      ensures data == old(data)[key := value]
    {
      data := data[key := value];
    }
  }
}
