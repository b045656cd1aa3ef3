/** The record types of client/src/types/research.ts, with the settings
    preference types of useSettings.tsx. Numbers that are counts, seconds or
    points are `int`; the temperature and pH targets are exact `real`s. */
module Types {
  import opened Base

  type Id = string

  /** A clock reading in milliseconds (`Date.now()`, `new Date()`), supplied by the caller. */
  type Time = nat

  /** The declared widget types (timer, pattern, measurement, pcr, storage)
      together with the ones the builder actually creates (checklist, note,
      temperature, ph). */
  datatype WidgetKind =
    | TimerKind | PatternKind | MeasurementKind | PcrKind | StorageKind
    | ChecklistKind | NoteKind | TemperatureKind | PhKind

  datatype Position = Position(x: int, y: int)

  /** The per-type configuration, as a tagged union instead of an untyped record. */
  datatype WidgetConfig =
    | TimerConfig(duration: int, autoStart: bool)
    | ChecklistConfig(items: seq<ChecklistItem>)
    | NoteConfig(content: string)
    | TemperatureConfig(unit: string, target: real)
    | PhConfig(target: real, rangeMin: real, rangeMax: real)
    | EmptyConfig

  datatype ProtocolWidget = ProtocolWidget(
    id: Id, kind: WidgetKind, title: string, config: WidgetConfig,
    position: Position, completed: Option<bool>)

  datatype Protocol = Protocol(
    id: Id, name: string, description: string, widgets: seq<ProtocolWidget>,
    created: Time, lastModified: Time, questReward: Option<int>)

  /** A countdown; `duration` and `remaining` are in seconds. */
  datatype Timer = Timer(
    id: Id, name: string, duration: int, remaining: int,
    isRunning: bool, isCompleted: bool, widgetId: Option<Id>)

  datatype ChecklistItem = ChecklistItem(id: Id, text: string, completed: bool, timestamp: Option<Time>)

  datatype Checklist = Checklist(id: Id, title: string, items: seq<ChecklistItem>, widgetId: Option<Id>)

  datatype QuestKind = ProtocolComplete | TimerComplete | ChecklistComplete | DailyLogin

  datatype Quest = Quest(
    id: Id, title: string, description: string, kind: QuestKind,
    target: int, progress: int, reward: int, completed: bool, unlocked: bool)

  datatype Mood = Happy | Excited | Working | Sleepy | Proud

  /** The companion; `energy` is documented as lying in 0..100. */
  datatype Companion = Companion(mood: Mood, energy: int, lastInteraction: Time, totalInteractions: int)

  datatype ThemeMode = Light | Dark

  datatype CornerStyle = Rounded | Sharp
}
