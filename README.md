# LabCompanion state layer in Dafny

LabCompanion is a browser app for laboratory researchers. It has timers,
checklists and protocols made of widgets, a per-day research journal, and a
game layer of quests, score, levels and a companion. This project models the
app's client-side state layer and proves properties about it:

- the five zustand stores: research timers and checklists, quests and
  scoring, protocols, journal, settings;
- the values that the screens built on those stores derive from them:
  the activity heatmap, the timer and checklist panels, the protocol builder,
  the protocol run page, the journal viewer and the quest screen.

Each store is a `class` whose fields are the store's state. Every action is a
`method` whose `ensures` gives the new state as a function of the old one.
Those functions carry their own contracts, and lemmas state the properties
the stores promise:

- clamps;
- "only the matching element changes";
- round trips such as save then load, add then remove, and format then parse;
- idempotence.

Browser `localStorage` is one shared `Storage.LocalStorage` object holding a
map from keys to typed blobs. Stores that persist hold a reference to it.

Clocks, random ids and "today" are parameters:

- a fresh id comes with a precondition that it is not already in use;
- `now` is a `Time` value;
- `today` is the date string the source would format.

Screen handlers are methods on small classes that hold the component's React
state. React effects are single steps. Each is a method or a function over
the effect's inputs.

Modules, one per source file:

- `Base`: Option, filter and find, JavaScript's `%`, percentage bounds.
- `Strings`: decimal printing and `parseInt`, `split` and `join`, `trim`
  with JavaScript white space, `padStart`, `length` in UTF-16 code units,
  and the default string order of `sort`.
- `Types`: the record types of `client/src/types/research.ts`.
- `Storage`: the browser storage.
- Stores: `Research`, `Quests`, `Protocols`, `Journal`, `Settings`.
- Screens: `Heatmap`, `TimerManager`, `ChecklistManager`, `ProtocolBuilder`,
  `RunProtocol`, `JournalViewer`, `QuestSystem`.

The model follows the code as written, including these behaviours:

- `completeQuest` credits the reward again for a quest that is already
  completed.
- The companion ends `excited` after `completeQuest`, even when the level
  went up.
- `startTimer` starts a completed timer.
- The widget-type union admits both the declared types and the types the
  builder creates.

## Model

| member | source | states |
|---|---|---|
| Research.ResearchStore.constructor | client/src/lib/stores/useResearch.tsx:27-28 | the store starts with no timers and no checklists |
| Research.AppendTimer | client/src/lib/stores/useResearch.tsx:30-38 | `addTimer` keeps every existing timer in order and puts exactly one new timer, with the fresh id, at the end |
| Research.ResearchStore.AddTimer | client/src/lib/stores/useResearch.tsx:30-38 | adds the timer under a fresh id; checklists are untouched |
| Research.SetRunning | client/src/lib/stores/useResearch.tsx:40-54 | only `isRunning` of the timers with that id changes; an unknown id leaves the list unchanged |
| Research.ResearchStore.StartTimer | client/src/lib/stores/useResearch.tsx:40-46 | sets the matching timers running, whatever their completion |
| Research.ResearchStore.PauseTimer | client/src/lib/stores/useResearch.tsx:48-54 | sets the matching timers paused |
| Research.StartCompletedTimer | client/src/lib/stores/useResearch.tsx:40-46 | starting a completed timer marks it running, it stays completed, and ticks then leave it as it is |
| Research.ResetTimers | client/src/lib/stores/useResearch.tsx:56-67 | a matching timer gets `remaining = duration`, not running, not completed, with nothing else changed; every other timer is unchanged |
| Research.ResearchStore.ResetTimer | client/src/lib/stores/useResearch.tsx:56-67 | the timer list becomes the reset list |
| Research.WithoutTimer | client/src/lib/stores/useResearch.tsx:69-73 | the timers left are exactly those whose id differs |
| Research.ResearchStore.RemoveTimer | client/src/lib/stores/useResearch.tsx:69-73 | removes the timers with that id |
| Research.AddThenRemoveTimer | client/src/lib/stores/useResearch.tsx:30-73 | removing the timer just added under a fresh id gives the previous list back, in order |
| Research.TickTimer | client/src/lib/stores/useResearch.tsx:78-88 | an idle or completed timer is unchanged; a running one loses one second, never below 0, is completed exactly when it reaches 0, and runs exactly while not completed; remaining never grows |
| Research.Tick | client/src/lib/stores/useResearch.tsx:75-91 | a tick applies the one-second step to each timer independently and keeps the list length |
| Research.ResearchStore.UpdateTimerTick | client/src/lib/stores/useResearch.tsx:75-91 | the timer list becomes its ticked version |
| Research.IdleTimerStays | client/src/lib/stores/useResearch.tsx:78 | any number of ticks leaves an idle or completed timer unchanged |
| Research.TicksCountDown | client/src/lib/stores/useResearch.tsx:80-87 | n ticks of a running timer with r seconds left leave `max(0, r - n)`, with completion exactly at 0 |
| Research.TickTimesPointwise | client/src/lib/stores/useResearch.tsx:75-91 | n ticks of the list are n ticks of each timer |
| Research.FreshTimerAfterTicks | client/src/lib/stores/useResearch.tsx:75-91 | a full running timer in the list has `max(0, duration - n)` seconds left after n ticks |
| Research.TimerActionsKeepRange | client/src/lib/stores/useResearch.tsx:40-91 | tick, start, pause, reset and remove keep every timer's remaining time between 0 and its duration |
| Research.AppendChecklist | client/src/lib/stores/useResearch.tsx:93-101 | `addChecklist` keeps the checklists in order and adds exactly one, with the fresh id, at the end |
| Research.ResearchStore.AddChecklist | client/src/lib/stores/useResearch.tsx:93-101 | adds the checklist under a fresh id; timers are untouched |
| Research.WithoutChecklist | client/src/lib/stores/useResearch.tsx:103-107 | the checklists left are exactly those whose id differs |
| Research.ResearchStore.RemoveChecklist | client/src/lib/stores/useResearch.tsx:103-107 | removes the checklists with that id |
| Research.AddThenRemoveChecklist | client/src/lib/stores/useResearch.tsx:93-107 | removing the checklist just added gives the previous list back, in order |
| Research.AddItem | client/src/lib/stores/useResearch.tsx:109-121 | only the checklist with the given id changes, and it gains exactly one item with the fresh id, at the end |
| Research.ResearchStore.AddChecklistItem | client/src/lib/stores/useResearch.tsx:109-121 | the checklists become the list with the item added |
| Research.ToggleItem | client/src/lib/stores/useResearch.tsx:130-136 | toggling flips `completed`; the timestamp is set to now exactly when the item becomes completed and cleared otherwise; id and text are kept |
| Research.ToggleTwice | client/src/lib/stores/useResearch.tsx:130-136 | toggling twice restores the item up to its timestamp, which is the second time for a completed item and none otherwise |
| Research.ToggleInChecklists | client/src/lib/stores/useResearch.tsx:123-142 | only the matching item of the matching checklist is toggled; every other item and checklist is unchanged |
| Research.ResearchStore.ToggleChecklistItem | client/src/lib/stores/useResearch.tsx:123-142 | the checklists become the toggled list |
| Research.RemoveItem | client/src/lib/stores/useResearch.tsx:144-152 | only the checklist with the given id changes; its items left are exactly those whose id differs |
| Research.ResearchStore.RemoveChecklistItem | client/src/lib/stores/useResearch.tsx:144-152 | the checklists become the list with the item removed |
| Quests.InitialState | client/src/lib/stores/useQuests.tsx:30-76 | the store starts with score 0, level 1, a happy companion at full energy, and three well-formed quests |
| Quests.QuestStore.constructor | client/src/lib/stores/useQuests.tsx:66-76 | the store starts in the initial state over the shared storage |
| Quests.FindQuest | client/src/lib/stores/useQuests.tsx:87-111 | `find` returns nothing exactly when no quest has the id, and otherwise a quest of the list with that id |
| Quests.LevelFor | client/src/lib/stores/useQuests.tsx:175 | the level for a score s is the l with `(l - 1) * 100 <= s < l * 100` |
| Quests.MarkCompleted | client/src/lib/stores/useQuests.tsx:80-85 | an uncompleted matching quest becomes completed with progress equal to its target; every other quest is unchanged |
| Quests.SetProgress | client/src/lib/stores/useQuests.tsx:101-108 | an uncompleted matching quest gets progress `min(progress, target)`, which sets rather than adds; completed and other quests are unchanged |
| Quests.FindAfterMark | client/src/lib/stores/useQuests.tsx:80-87 | after marking, `find` sees the same quest, now completed with full progress |
| Quests.FindAfterSetProgress | client/src/lib/stores/useQuests.tsx:101-111 | after setting progress, `find` sees the same quest with the clamped progress, unless it was completed |
| Quests.CheckLevelUpState | client/src/lib/stores/useQuests.tsx:173-181 | the level becomes the larger of the old level and the score's level, so it is never lowered; on a rise the mood becomes proud and nothing else changes |
| Quests.QuestStore.CheckLevelUp | client/src/lib/stores/useQuests.tsx:173-181 | applies the level-up step |
| Quests.CompleteQuestState | client/src/lib/stores/useQuests.tsx:78-98 | marks the quest completed; adds its reward whenever the id is found, even a second time; keeps the score for an unknown id; levels up; always ends with mood excited |
| Quests.QuestStore.CompleteQuest | client/src/lib/stores/useQuests.tsx:78-99 | applies completion and saves quests, companion and score |
| Quests.CompleteTwiceCreditsTwice | client/src/lib/stores/useQuests.tsx:87-88 | completing a found quest twice credits its reward twice and marks the list only once |
| Quests.UpdateProgressState | client/src/lib/stores/useQuests.tsx:101-117 | only quests with the id can change, the list length is kept, and the level never drops |
| Quests.AutoCompleteIff | client/src/lib/stores/useQuests.tsx:110-114 | the update completes the quest exactly when the found quest was uncompleted and the new progress reaches its target; otherwise it only sets progress |
| Quests.QuestStore.UpdateQuestProgress | client/src/lib/stores/useQuests.tsx:101-117 | applies the progress update and saves |
| Quests.ProgressKeepsWellFormed | client/src/lib/stores/useQuests.tsx:80-114 | setting a non-negative progress, completing and updating keep every quest's progress between 0 and its target, and a completed quest at its target |
| Quests.UpdateProgressIdempotent | client/src/lib/stores/useQuests.tsx:101-117 | the same progress update applied twice has the effect of applying it once |
| Quests.AddScoreState | client/src/lib/stores/useQuests.tsx:164-181 | the score grows by the points, the level is raised to the score's level if higher, and the quests are unchanged; on a rise the companion becomes proud, otherwise it is unchanged |
| Quests.QuestStore.AddScore | client/src/lib/stores/useQuests.tsx:164-171 | applies the score step and saves |
| Quests.QuestStore.UpdateCompanionMood | client/src/lib/stores/useQuests.tsx:145-149 | only the companion's mood changes |
| Quests.InteractState | client/src/lib/stores/useQuests.tsx:151-162 | one more interaction, energy `min(100, energy + 5)`, the interaction time set, the mood and everything else unchanged |
| Quests.QuestStore.InteractWithCompanion | client/src/lib/stores/useQuests.tsx:151-162 | applies the interaction and saves |
| Quests.InteractionsFillEnergy | client/src/lib/stores/useQuests.tsx:157 | after k interactions, energy in 0..100 stays in 0..100 and equals `min(100, energy + 5k)`, and the count grows by k |
| Quests.DailyQuest | client/src/lib/stores/useQuests.tsx:124-134 | the daily quest is a `daily-` quest of kind daily login, with target 2, reward 20, no progress, unlocked and not completed |
| Quests.ReplaceDaily | client/src/lib/stores/useQuests.tsx:136-138 | every `daily-` quest is dropped, every other quest is kept, and the new daily quest is the only daily one and comes last |
| Quests.GenerateDaily | client/src/lib/stores/useQuests.tsx:119-143 | with today's marker stored nothing changes; otherwise the daily quest is replaced, today's marker is written and the store is saved over it, leaving every other key alone; either way today's marker is stored afterwards |
| Quests.QuestStore.GenerateDailyQuests | client/src/lib/stores/useQuests.tsx:119-143 | state and storage become the generated world |
| Quests.GenerateTwiceSameDay | client/src/lib/stores/useQuests.tsx:119-143 | generating twice on the same day has the effect of generating once |
| Quests.SaveQuests | client/src/lib/stores/useQuests.tsx:209-217 | writes quests, companion and `{score, level}` under their three keys and no other key |
| Quests.QuestStore.SaveToStorage | client/src/lib/stores/useQuests.tsx:209-217 | storage becomes the saved map |
| Quests.SaveOverwrites | client/src/lib/stores/useQuests.tsx:209-217 | a second save overrides the first completely |
| Quests.OrElse | client/src/lib/stores/useQuests.tsx:203-204 | the `or` fallback keeps a present non-zero number and falls back on a missing value or 0 |
| Quests.LoadState | client/src/lib/stores/useQuests.tsx:183-207 | each key is read on its own: a stored quest list replaces only the quests, a stored companion only the companion, and a stored score blob sets the score to the stored score, or 0 when it is missing or zero, and the level to the stored level, or 1 when it is missing or zero; a part not stored keeps its field, so with nothing stored the state is unchanged |
| Quests.QuestStore.LoadFromStorage | client/src/lib/stores/useQuests.tsx:183-207 | the state becomes the one loaded from storage |
| Quests.SaveThenLoad | client/src/lib/stores/useQuests.tsx:183-217 | loading what was saved restores the saved state exactly, for any non-zero level |
| Quests.SavedLevelZero | client/src/lib/stores/useQuests.tsx:201-204 | a saved level of 0 reads back as 1, everything else as saved |
| Protocols.ProtocolStore.constructor | client/src/lib/stores/useProtocol.tsx:34-36 | no protocols, none current, not building |
| Protocols.NewProtocol | client/src/lib/stores/useProtocol.tsx:39-47 | a new protocol has the given name and description, no widgets, both timestamps now, and quest reward 10 |
| Protocols.CreateState | client/src/lib/stores/useProtocol.tsx:38-53 | appends the new protocol, makes it current and starts building; with a fresh id the list entry and the current protocol agree |
| Protocols.ProtocolStore.CreateProtocol | client/src/lib/stores/useProtocol.tsx:38-56 | applies creation and saves the protocol list |
| Protocols.LoadState | client/src/lib/stores/useProtocol.tsx:58-64 | an unknown id changes nothing; a known id makes a list protocol with that id current; the list and `isBuilding` are never touched |
| Protocols.ProtocolStore.LoadProtocol | client/src/lib/stores/useProtocol.tsx:58-64 | applies the load |
| Protocols.SaveState | client/src/lib/stores/useProtocol.tsx:66-73 | entries with the id are replaced by the protocol stamped now; others stay in place; an absent protocol is not added; the current protocol is replaced only when the ids match |
| Protocols.ProtocolStore.SaveProtocol | client/src/lib/stores/useProtocol.tsx:66-76 | applies the save and persists the list |
| Protocols.DeleteState | client/src/lib/stores/useProtocol.tsx:78-85 | the protocols left are exactly those with another id; the current protocol is cleared exactly when it had that id |
| Protocols.ProtocolStore.DeleteProtocol | client/src/lib/stores/useProtocol.tsx:78-85 | applies the deletion and persists the list |
| Protocols.WidgetsAdded | client/src/lib/stores/useProtocol.tsx:91-98 | the widgets keep their order and gain exactly one, with the fresh id, at the end |
| Protocols.WithWidgets | client/src/lib/stores/useProtocol.tsx:96-102 | the current protocol, with the new widgets and stamped now, replaces itself as current and at every list position with its id; the other entries, the list's length and order, and the builder flag are kept; list entry and current protocol agree afterwards |
| Protocols.AddWidgetState | client/src/lib/stores/useProtocol.tsx:87-103 | a no-op with no current protocol; otherwise the current protocol, with the new widget last and stamped now, replaces its list entries and nothing else changes; agreement is kept |
| Protocols.ProtocolStore.AddWidget | client/src/lib/stores/useProtocol.tsx:87-103 | applies the addition; storage is written only when a protocol is open |
| Protocols.ApplyPatch | client/src/lib/stores/useProtocol.tsx:112 | each field of `{...widget, ...updates}` is the update's value when given and the widget's otherwise |
| Protocols.WidgetsUpdated | client/src/lib/stores/useProtocol.tsx:111-113 | only the widgets with the id are merged with the update; the rest are unchanged |
| Protocols.UpdateWidgetState | client/src/lib/stores/useProtocol.tsx:105-118 | a no-op with no current protocol; otherwise the current protocol, with the widgets updated and stamped now, replaces its list entries and nothing else changes; agreement is kept |
| Protocols.ProtocolStore.UpdateWidget | client/src/lib/stores/useProtocol.tsx:105-118 | applies the update; storage is written only when a protocol is open |
| Protocols.WidgetsRemoved | client/src/lib/stores/useProtocol.tsx:126 | the widgets left are exactly those whose id differs |
| Protocols.RemoveWidgetState | client/src/lib/stores/useProtocol.tsx:120-131 | a no-op with no current protocol; otherwise the current protocol, with the widgets of that id removed and stamped now, replaces its list entries and nothing else changes; agreement is kept |
| Protocols.ProtocolStore.RemoveWidget | client/src/lib/stores/useProtocol.tsx:120-131 | applies the removal; storage is written only when a protocol is open |
| Protocols.AddThenRemoveWidget | client/src/lib/stores/useProtocol.tsx:91-126 | removing the widget just added under a fresh id gives the previous widget list back, in order |
| Protocols.PositionPatch | client/src/lib/stores/useProtocol.tsx:134 | the update `{ position }` sets the position and nothing else |
| Protocols.ProtocolStore.MoveWidget | client/src/lib/stores/useProtocol.tsx:133-135 | a move is an update with only the position |
| Protocols.MoveOnlyMoves | client/src/lib/stores/useProtocol.tsx:111-135 | a move changes the position of the widgets with the id and nothing else |
| Protocols.ProtocolStore.StartBuilding | client/src/lib/stores/useProtocol.tsx:137-139 | only `isBuilding` changes, to true |
| Protocols.ProtocolStore.StopBuilding | client/src/lib/stores/useProtocol.tsx:141-143 | only `isBuilding` changes, to false |
| Protocols.SaveProtocols | client/src/lib/stores/useProtocol.tsx:158-161 | writes the protocol list under its key and no other key |
| Protocols.ProtocolStore.SaveToStorage | client/src/lib/stores/useProtocol.tsx:158-161 | storage becomes the saved map |
| Protocols.LoadFromData | client/src/lib/stores/useProtocol.tsx:145-156 | a stored list replaces the protocols and nothing else; with nothing stored the state is unchanged |
| Protocols.ProtocolStore.LoadFromStorage | client/src/lib/stores/useProtocol.tsx:145-156 | the state becomes the loaded one |
| Protocols.SaveThenLoadProtocols | client/src/lib/stores/useProtocol.tsx:145-161 | loading what was saved restores the protocol list |
| Journal.JournalStore.constructor | client/src/lib/stores/useJournal.tsx:19 | the journal starts empty |
| Journal.AddLogTo | client/src/lib/stores/useJournal.tsx:20-32 | today's entry, created as `{date: today, logs: []}` if absent, gains the log at the end; the days are the old days plus today; every other day is unchanged |
| Journal.JournalStore.AddLog | client/src/lib/stores/useJournal.tsx:20-32 | the entries become the ones with the log added |
| Journal.LogsOnlyGrow | client/src/lib/stores/useJournal.tsx:11-32 | any sequence of `addLog` calls keeps every day, and only extends its logs, by exactly the calls made on that day |
| Journal.AddLogsSnoc | client/src/lib/stores/useJournal.tsx:20-32 | a sequence of calls is the calls made one after another |
| Journal.ExportDay | client/src/lib/stores/useJournal.tsx:33-37 | a day without entry exports as `''`; an entry's export starts with `## date` and a newline, and is exactly that heading when the day has no logs |
| Journal.ExportAfterAddLog | client/src/lib/stores/useJournal.tsx:20-37 | for any log text, `addLog` puts the log at the end of the day's export: after the heading for a new day or a day without logs, otherwise after a line break |
| Journal.ExportDayLines | client/src/lib/stores/useJournal.tsx:36 | split at newlines, the export is the heading line followed by the day's logs, one per line |
| Journal.ExportDayExample | client/src/lib/stores/useJournal.tsx:36 | logs `a` and `b` on day D export as `## D\na\nb` |
| Settings.SettingsStore.constructor | client/src/lib/stores/useSettings.tsx:23-24 | the preferences start as light and rounded |
| Settings.SettingsStore.SetThemeMode | client/src/lib/stores/useSettings.tsx:26-28 | only the theme changes, then both fields are saved |
| Settings.SettingsStore.SetCornerStyle | client/src/lib/stores/useSettings.tsx:38-41 | only the corner style changes, then both fields are saved |
| Settings.SaveSettings | client/src/lib/stores/useSettings.tsx:58-64 | writes exactly `{themeMode, cornerStyle}` under `research-settings`, and no other key |
| Settings.SettingsStore.SaveToStorage | client/src/lib/stores/useSettings.tsx:58-64 | storage becomes the saved map |
| Settings.LoadSettings | client/src/lib/stores/useSettings.tsx:43-56 | nothing stored leaves the preferences unchanged; stored fields are taken, and a missing field falls back to light or rounded |
| Settings.SettingsStore.LoadFromStorage | client/src/lib/stores/useSettings.tsx:43-56 | the preferences become the loaded ones |
| Settings.SaveThenLoadSettings | client/src/lib/stores/useSettings.tsx:43-64 | loading what was saved restores the pair |
| Storage.Get | client/src/lib/utils.ts:8-9 | reading a key gives its stored value, or nothing for a missing key |
| Storage.LocalStorage.Set | client/src/lib/utils.ts:10-11 | writing a key replaces that key's value and no other |
| Heatmap.LineEnd | client/src/components/ActivityHeatmap.tsx:31 | the end of the current line: the first line terminator from a position, or the end of the text |
| Heatmap.NoPrefixNoMatch | client/src/components/ActivityHeatmap.tsx:31 | a log without `Timer completed:` does not match and contributes no minutes |
| Heatmap.ScanBackSkip | client/src/components/ActivityHeatmap.tsx:31 | the greedy `.*` takes the last `(N minutes)` of the line: later positions without one are skipped |
| Heatmap.SumTimeSpent | client/src/components/ActivityHeatmap.tsx:29-35 | the loop adds the captured minutes of each matching log, giving the total over the logs |
| Heatmap.Bucket | client/src/components/ActivityHeatmap.tsx:37-40 | the bucket is 1 exactly for activity up to 2, 2 exactly above 2 up to 5, 3 exactly above 5 up to 10, and 4 exactly above 10 |
| Heatmap.BucketMonotone | client/src/components/ActivityHeatmap.tsx:37-40 | more activity never gives a lower bucket |
| Heatmap.ActivityLevel | client/src/components/ActivityHeatmap.tsx:24-41 | the level is 0 to 4, 0 exactly for a missing day or a day with no logs, and otherwise the bucket of the day's activity |
| Heatmap.MoreLogsNoLowerLevel | client/src/components/ActivityHeatmap.tsx:27-40 | one more log adds at least 1 to the activity and never lowers a non-empty day's level |
| Heatmap.DayCellFor | client/src/components/ActivityHeatmap.tsx:22-50 | a month day's cell carries its key, whether it has an entry, its log count, its level, and is not padding |
| Heatmap.MonthCells | client/src/components/ActivityHeatmap.tsx:22-50 | one cell per day key, in order |
| Heatmap.PaddingCell | client/src/components/ActivityHeatmap.tsx:57-64 | a padding cell is marked padding, has level 0, no entry and no logs |
| Heatmap.PadToSunday | client/src/components/ActivityHeatmap.tsx:52-66 | exactly one padding cell per leading weekday comes first, then the month's days unchanged |
| Heatmap.WeeksFlatten | client/src/components/ActivityHeatmap.tsx:68-71 | concatenating the weeks gives the padded list back |
| Heatmap.WeeksShape | client/src/components/ActivityHeatmap.tsx:68-71 | there are ceil(n / 7) weeks, all of 7 days except that the last may be shorter but not empty |
| Heatmap.GroupWeeks | client/src/components/ActivityHeatmap.tsx:68-71 | the loop produces exactly the chunks of 7 |
| Heatmap.ContributionsCountEntries | client/src/components/ActivityHeatmap.tsx:84 | the contribution count is the number of month days that have an entry, including entries with no logs |
| TimerManager.ClockDecomposes | client/src/components/TimerManager.tsx:94-97 | for s >= 0, hours * 3600 + minutes * 60 + seconds = s, with minutes and seconds below 60 |
| TimerManager.FormatTimeRoundTrip | client/src/components/TimerManager.tsx:94-103 | reading the hours, minutes and seconds fields back from the display gives the seconds it was made from |
| TimerManager.FormatTimeFields | client/src/components/TimerManager.tsx:99-102 | the display has three fields from one hour on and two below it |
| TimerManager.HoursRoundTrip | client/src/components/TimerManager.tsx:100 | the `H:MM:SS` display reads back as its total |
| TimerManager.MinutesRoundTrip | client/src/components/TimerManager.tsx:102 | the `M:SS` display reads back as its total |
| TimerManager.DisplaySplits | client/src/components/TimerManager.tsx:99-102 | the display's fields are the hours, then the minutes and seconds padded to two digits |
| TimerManager.ReadPadded | client/src/components/TimerManager.tsx:100-102 | a number below 60 padded to two digits reads back as itself |
| TimerManager.ReadPrinted | client/src/components/TimerManager.tsx:100-102 | a printed non-negative number reads back as itself |
| TimerManager.CompletionDayLevel | client/src/components/ActivityHeatmap.tsx:26-40 | a day whose only log is the completion line of a 30-minute timer named `X` (33 characters) has activity 1 + 0.33 + 2 = 3.33 and level 2 |
| TimerManager.NewTimer | client/src/components/TimerManager.tsx:77-88 | the new timer lasts minutes * 60 seconds, is full, runs exactly when the panel auto-starts, is not completed, and is named `Timer {count + 1}` when the name field is empty |
| TimerManager.TimerPanel.constructor | client/src/components/TimerManager.tsx:41-43 | the duration field starts at 5, the name field empty, nothing logged |
| TimerManager.TimerPanel.HandleAddTimer | client/src/components/TimerManager.tsx:77-92 | the store gets the new timer under a fresh id, and both fields are reset |
| TimerManager.NewTimerCountsDown | client/src/components/TimerManager.tsx:77-88 | an auto-started new timer completes after exactly minutes * 60 ticks, and not one tick earlier |
| TimerManager.TimerProgress | client/src/components/TimerManager.tsx:105-107 | the elapsed percentage is 0 exactly for a full timer, 100 exactly at 0 seconds left, within 0..100 in range, and undefined for a zero duration |
| TimerManager.TickNeverLowersProgress | client/src/components/TimerManager.tsx:105-107 | a tick never lowers a timer's progress |
| TimerManager.RelevantTimers | client/src/components/TimerManager.tsx:109-111 | with a widget id, exactly that widget's timers; without one, all timers |
| TimerManager.RoundMinutes | client/src/components/TimerManager.tsx:60 | the minutes are the duration in minutes rounded to nearest, halves up |
| TimerManager.CompletionLogMinutes | client/src/components/TimerManager.tsx:60-61 | the completion line matches the heatmap's timer pattern, which captures exactly its minutes |
| TimerManager.CompletionLogOneLine | client/src/components/TimerManager.tsx:61 | a completion line for a one-line name has no line terminator |
| TimerManager.NewlyCompletedMembers | client/src/components/TimerManager.tsx:57 | the timers the effect logs are exactly the completed timers whose id was not yet logged |
| TimerManager.LoggedOnce | client/src/components/TimerManager.tsx:57-68 | after a run, the same timers produce no new log, and later runs log only ids never logged before |
| TimerManager.CompletionCalls | client/src/components/TimerManager.tsx:60-61 | one journal line per newly completed timer, in order, for today |
| TimerManager.EffectRunJournals | client/src/components/TimerManager.tsx:56-74 | the journal receives one completion line per newly completed timer, in list order |
| TimerManager.EffectRunLogs | client/src/components/TimerManager.tsx:68 | the logged set grows by exactly the ids of the newly completed timers |
| TimerManager.EffectRunReports | client/src/components/TimerManager.tsx:63-65 | with a new completion, `quest-timer-1` progress is set to the number of completed timers and saved; otherwise quests and storage are unchanged |
| TimerManager.TimerPanel.RunEffect | client/src/components/TimerManager.tsx:56-74 | the loop over the timers has the effect of the step-by-step run, and calls `onComplete` once per newly completed timer |
| TimerManager.TimerPanel.CompletionEffect | client/src/components/TimerManager.tsx:55-75 | the effect journals each new completion once, records the ids, reports the completed count to the timer quest when there was a new one, and calls `onComplete` once per new completion |
| ChecklistManager.CompletedItems | client/src/components/ChecklistManager.tsx:55 | the count of completed items is at most the number of items |
| ChecklistManager.AllCountedIff | client/src/components/ChecklistManager.tsx:58-60 | every item is counted exactly when every item is completed |
| ChecklistManager.NoneCountedIff | client/src/components/ChecklistManager.tsx:92-93 | no item is counted exactly when no item is completed |
| ChecklistManager.CompleteTestsAgree | client/src/components/ChecklistManager.tsx:55-60 | the effect's count test and the `every` test of the quest count agree: at least one item, all completed |
| ChecklistManager.AddedItemUndone | client/src/components/ChecklistManager.tsx:82-85 | adding an uncompleted item makes a checklist incomplete |
| ChecklistManager.CompleteCount | client/src/components/ChecklistManager.tsx:60 | the number of complete checklists is at most the number of checklists |
| ChecklistManager.CompleteCountZeroIff | client/src/components/ChecklistManager.tsx:60 | the count is 0 exactly when no checklist is complete |
| ChecklistManager.ChecklistPanel.CompletionEffect | client/src/components/ChecklistManager.tsx:53-67 | with a complete checklist, `quest-checklist-1` progress is set to the number of complete checklists and saved; otherwise nothing changes |
| ChecklistManager.ChecklistPanel.Report | client/src/components/ChecklistManager.tsx:59-61 | reporting the same count again leaves the quest state where one report put it |
| ChecklistManager.Progress | client/src/components/ChecklistManager.tsx:90-94 | the percentage is 0 for an empty checklist, lies within 0..100, is 100 exactly when the checklist is complete, and is 0 exactly when no item is completed |
| ChecklistManager.RelevantChecklists | client/src/components/ChecklistManager.tsx:96-98 | with a widget id, exactly that widget's checklists; without one, all checklists |
| ChecklistManager.ChecklistPanel.constructor | client/src/components/ChecklistManager.tsx:35-36 | both input drafts start empty |
| ChecklistManager.ChecklistPanel.HandleAddChecklist | client/src/components/ChecklistManager.tsx:69-77 | a blank title does nothing; otherwise the untrimmed title becomes a new empty checklist and the field is cleared |
| ChecklistManager.ChecklistPanel.HandleAddItem | client/src/components/ChecklistManager.tsx:79-88 | missing or blank text does nothing; otherwise the trimmed text becomes an uncompleted item of that checklist and only that checklist's draft is cleared |
| ChecklistManager.InitWidgetChecklists | client/src/components/ChecklistManager.tsx:39-50 | a `Protocol Checklist` with the initial items is added only for a widget id with initial items that no checklist carries yet; otherwise nothing changes |
| ChecklistManager.ChecklistPanel.InitWidget | client/src/components/ChecklistManager.tsx:39-50 | applies the widget-mode initialisation to the store |
| ChecklistManager.InitGivesWidgetChecklist | client/src/components/ChecklistManager.tsx:39-50 | afterwards some checklist carries the widget id |
| ChecklistManager.InitOnce | client/src/components/ChecklistManager.tsx:39-50 | running the initialisation again adds nothing |
| ProtocolBuilder.View | client/src/components/ProtocolBuilder.tsx:56-60 | empty exactly when there are no protocols; editor exactly when there are some, one is current and building is on; library otherwise |
| ProtocolBuilder.CreateOpensEditor | client/src/components/ProtocolBuilder.tsx:56-75 | after creating a protocol the builder shows the editor |
| ProtocolBuilder.StopLeavesEditor | client/src/components/ProtocolBuilder.tsx:56-122 | after building stops the editor is never shown, and with protocols the library is |
| ProtocolBuilder.BuilderPanel.constructor | client/src/components/ProtocolBuilder.tsx:41-53 | the dialog fields start empty and closed, in build mode |
| ProtocolBuilder.BuilderPanel.HandleCreateProtocol | client/src/components/ProtocolBuilder.tsx:68-76 | a name that trims to empty does nothing; otherwise the protocol is created under the untrimmed name, the dialog is cleared and closed, and the editor shows |
| ProtocolBuilder.DefaultsAgree | client/src/components/ProtocolBuilder.tsx:90-116 | each default configuration has its type's shape; exactly the types titled `Widget` get an empty configuration; a timer lasts 5 minutes without auto-start; the pH target lies inside its range |
| ProtocolBuilder.DefaultTitle | client/src/components/ProtocolBuilder.tsx:107-116 | every type gets a non-empty title |
| ProtocolBuilder.WidgetDraft | client/src/components/ProtocolBuilder.tsx:78-86 | the palette widget has the type's default title and configuration, is not completed, and sits at the given position or (50, 50) |
| ProtocolBuilder.AddedWidgetHasDefaults | client/src/components/ProtocolBuilder.tsx:78-88 | adding from the palette puts the defaults under a fresh id after the open protocol's existing widgets |
| ProtocolBuilder.BuilderPanel.HandleAddWidget | client/src/components/ProtocolBuilder.tsx:78-88 | the draft goes to the store's `addWidget` |
| ProtocolBuilder.BuilderPanel.HandleSaveProtocol | client/src/components/ProtocolBuilder.tsx:118-125 | with no open protocol nothing happens; otherwise it is saved, `quest-protocol-1` progress is set to 1, building stops, run mode is set, and the editor is left |
| RunProtocol.FindProtocol | client/src/components/RunProtocolPage.tsx:36 | nothing exactly when no protocol has the id; otherwise a protocol of the list with that id |
| RunProtocol.RunPage.constructor | client/src/components/RunProtocolPage.tsx:15-38 | the run starts at step 0, not completed, with no touch positions |
| RunProtocol.Next | client/src/components/RunProtocolPage.tsx:45-51 | below the last step the step advances; at or past it the run completes and the step stays |
| RunProtocol.RunPage.HandleNext | client/src/components/RunProtocolPage.tsx:45-51 | applies one press to the page's run state |
| RunProtocol.PressesWalk | client/src/components/RunProtocolPage.tsx:45-51 | with n >= 1 widgets, k < n presses reach step k uncompleted, and exactly n presses complete the run at the last step |
| RunProtocol.StepInRange | client/src/components/RunProtocolPage.tsx:37-51 | the step stays within 0..n-1 and the run is completed exactly from the n-th press on |
| RunProtocol.SwipeRule | client/src/components/RunProtocolPage.tsx:25-30 | a swipe of exactly 80 does not exit, nor does a leftward swipe or one with a missing position, and a longer swipe exits whenever a shorter one does |
| RunProtocol.RunPage.HandleTouchStart | client/src/components/RunProtocolPage.tsx:19-21 | records only the start position |
| RunProtocol.RunPage.HandleTouchMove | client/src/components/RunProtocolPage.tsx:22-24 | records only the end position |
| RunProtocol.RunPage.HandleTouchEnd | client/src/components/RunProtocolPage.tsx:25-33 | reports an exit exactly by the swipe rule, and clears both positions in every case |
| RunProtocol.StepLabel | client/src/components/RunProtocolPage.tsx:56 | a step shows the widget's title, or its type when the title is empty, and never nothing |
| RunProtocol.RunLogLines | client/src/components/RunProtocolPage.tsx:53-57 | split at newlines, the log is `Protocol Run: name`, `Steps:`, then one `  i. label` line per widget in order |
| RunProtocol.RunLogExample | client/src/components/RunProtocolPage.tsx:54-56 | a protocol PCR with one untitled timer logs `Protocol Run: PCR\nSteps:\n  1. timer` |
| RunProtocol.RunPage.BuildRunLog | client/src/components/RunProtocolPage.tsx:54-57 | the `forEach` loop builds exactly the run log |
| RunProtocol.ResaveStampsOnly | client/src/components/RunProtocolPage.tsx:59 | re-saving an unmodified protocol of a list with unique ids changes only its `lastModified` |
| RunProtocol.RunPage.HandleSave | client/src/components/RunProtocolPage.tsx:53-60 | the run log is added to today's journal entry and the protocol is re-saved and persisted |
| JournalViewer.SortDates | client/src/components/JournalViewer.tsx:16 | the dates are a permutation of the entry keys |
| JournalViewer.SortDatesNewestFirst | client/src/components/JournalViewer.tsx:16 | the dates are in descending string order, which is newest first for `yyyy-MM-dd` keys |
| JournalViewer.DatesIndependentOfKeyOrder | client/src/components/JournalViewer.tsx:16 | the date list does not depend on the order the keys come in |
| JournalViewer.NewestFirstUnique | client/src/components/JournalViewer.tsx:16 | two descending lists of the same dates are equal |
| JournalViewer.TotalDays | client/src/components/JournalViewer.tsx:41 | the number of days is 0 exactly when the journal is empty |
| JournalViewer.AddLogCountsOne | client/src/components/JournalViewer.tsx:41-68 | after `addLog`, total entries grow by exactly one, and total days grow by one exactly on a new day |
| JournalViewer.TotalLogsAfterAdd | client/src/components/JournalViewer.tsx:68 | the logs summed over a set of days grow by one exactly when today is among them |
| JournalViewer.EntryCount | client/src/components/JournalViewer.tsx:43 | a date without entry counts 0, and a date with one counts its logs |
| JournalViewer.ExportContent | client/src/components/JournalViewer.tsx:30-39 | export is enabled exactly for a date with logs; a date without entry exports `''`; an entry's export starts with its heading |
| JournalViewer.ExportFile | client/src/components/JournalViewer.tsx:30-39 | the file is named `journal-<date>.txt` |
| JournalViewer.ViewerPanel.HandleExport | client/src/components/JournalViewer.tsx:30-39 | returns the name and text of the selected date's export |
| JournalViewer.DateClick | client/src/components/JournalViewer.tsx:18-28 | `month:` sets only the month, `year:` only the year, any other string only the date |
| JournalViewer.ViewerPanel.constructor | client/src/components/JournalViewer.tsx:11-13 | the selection starts at today, this year and this month |
| JournalViewer.ViewerPanel.HandleDateClick | client/src/components/JournalViewer.tsx:18-28 | applies the click to the selection |
| JournalViewer.MonthClick | client/src/components/JournalViewer.tsx:19-21 | `month:n` sets the month to n |
| JournalViewer.YearClick | client/src/components/JournalViewer.tsx:23-25 | `year:n` sets the year to n |
| JournalViewer.DayClick | client/src/components/JournalViewer.tsx:27 | a date key selects that date |
| QuestSystem.ActiveQuests | client/src/components/QuestSystem.tsx:44 | exactly the unlocked, uncompleted quests |
| QuestSystem.CompletedQuests | client/src/components/QuestSystem.tsx:45 | exactly the completed quests |
| QuestSystem.LockedQuests | client/src/components/QuestSystem.tsx:177 | exactly the locked quests |
| QuestSystem.QuestListsPartition | client/src/components/QuestSystem.tsx:44-45 | no quest is both active and completed, and every quest is active, completed or locked |
| QuestSystem.LockedPreview | client/src/components/QuestSystem.tsx:185 | the preview is the first min(3, locked) locked quests, in list order |
| QuestSystem.PreviewKeepsFirst | client/src/components/QuestSystem.tsx:185 | quests after the first three locked ones never enter the preview |
| QuestSystem.ClaimCredits | client/src/components/QuestSystem.tsx:131-140 | claiming a quest whose button shows credits its reward and takes it off the active list |
| QuestSystem.UpdatedQuestNotClaimable | client/src/components/QuestSystem.tsx:97-140 | a quest that a progress update finds never shows a claim button afterwards, because reaching the target completes it at once |
| QuestSystem.LevelProgress | client/src/components/QuestSystem.tsx:72-74 | the points shown, `playerScore % 100`, lie strictly between -100 and 100, take the score's sign, and with the quotient truncated toward zero give the score back |
| QuestSystem.LevelProgressAgrees | client/src/components/QuestSystem.tsx:72-74 | for a score >= 0 the points are in 0..99 and, with the level, give the score back |
| QuestSystem.Mount | client/src/components/QuestSystem.tsx:19-22 | mounting loads from storage and then generates the daily quest |
| QuestSystem.MountRestoresSaved | client/src/components/QuestSystem.tsx:19-22 | reopening the screen on the day a state was saved restores that state |
| Base.JsRem | client/src/components/QuestSystem.tsx:72-74 | JavaScript's `%` by a positive number: the remainder lies strictly between -b and b, takes the sign of the dividend, and with the quotient truncated toward zero gives the dividend back |
| Strings.Utf16Length | client/src/components/ActivityHeatmap.tsx:28 | `.length` counts one unit per character of the Basic Multilingual Plane and two for any other, so it equals the number of characters exactly when all lie in that plane |
| Strings.TrimEmptyIffBlank | client/src/components/ProtocolBuilder.tsx:69 | `trim()` is empty exactly when the text holds only white space |
| Strings.ParseIntOfIntToString | client/src/components/TimerManager.tsx:78 | `parseInt` reads back any printed integer |
| Strings.SplitJoin | client/src/lib/stores/useJournal.tsx:36 | splitting a join of parts without the separator gives the parts back |
| Strings.Join | client/src/lib/stores/useJournal.tsx:36 | joining no parts gives `''`, one part gives that part, and the first part always starts the result |
| Strings.JoinSnoc | client/src/lib/stores/useJournal.tsx:36 | joining one more part appends the separator and that part |
| Strings.LessTotal | client/src/components/JournalViewer.tsx:16 | two different strings are ordered one way or the other |
| Strings.LessTransitive | client/src/components/JournalViewer.tsx:16 | the string order is transitive |

## Left out

- Rendering: JSX, CSS, Three.js, drag-and-drop monitors, audio (`playSuccess`), the DOM `dark` class and the Blob/URL download are not modelled.
- Clocks and randomness: `Date.now`, `Math.random` ids, `new Date()` and the `yyyy-MM-dd` / `toDateString` day strings are parameters. Each action takes one `now`, although the source reads the clock more than once within some actions.
- Dates: the Date↔ISO reconstruction on load is not modelled; a stored timestamp is kept as it was saved.
- date-fns: the month's day keys and the first weekday are inputs of the heatmap model.
- JSON: storage holds typed blobs. The source spreads whatever JSON it finds. The quest and protocol loaders ignore a stored value of the wrong shape. The settings loader gives light and rounded for a truthy value of the wrong shape, as `||` on its missing fields does.
- Timing: the `setInterval` of the tick and the ordering of React effects are not modelled. A tick is one step, and each effect is one call.
- Floating point: heatmap activity, checklist progress, timer progress, and the temperature and pH values are exact reals. The heatmap thresholds are therefore not subject to rounding.
- Number parsing: `parseInt` is modelled for decimal text with optional sign and leading white space. A hex `0x` prefix is not modelled.
- Strings: the default `sort` order compares code points, not UTF-16 code units. The two orders differ only outside the Basic Multilingual Plane.
- Quests.ProgressKeepsWellFormed: requires a non-negative progress. Every caller reports a count or 1. A negative value would make a quest's progress negative, as `Math.min` does.
- TimerManager.TimerPanel.HandleAddTimer: requires the duration field to parse as a number. The source would create a timer of `NaN` seconds otherwise.
- TimerManager.TimerPanel.CompletionEffect: `onComplete` is modelled by the number of times it is called. What it does is left to the caller; the builder's callback marks its widget completed (ProtocolBuilder.tsx:135), and that update is not applied here.
- TimerManager.TimerPanel.CompletionEffect: the logged-id set is updated once after the loop. The loop's guard reads the set as it was when the effect started, as the source's state setter does.
- TimerManager.TimerProgress: a zero duration gives no value. The source produces `NaN` or an infinity there.
- Journal.AddLogTo: `push` into the existing logs array mutates the previous state snapshot in place. That aliasing is not modelled; entries are values.
- Protocols.ProtocolStore.LoadFromStorage: the loaded list replaces the in-memory one. The Date fields' string-to-Date conversion is not modelled.
- Settings.LoadSettings: theme and corner-style values other than light/dark and rounded/sharp are not representable.
- JournalViewer.TotalLogs: `Object.values` order is a parameter `keys`, whose keys must be exactly those of the journal.
- RunProtocol.RunPage.HandleNext: "Protocol not found" is a precondition, because the page renders nothing to act on without one.
- RunProtocol.StepInRange: assumes at least one widget. With none, the source reads `widgets[0]` as undefined and the page fails to render.
- RunProtocol.RunPage.HandleTouchEnd: the `onExit` callback becomes the returned flag.
- ChecklistManager.ChecklistPanel.CompletionEffect: the `onComplete` callback is not modelled.
- ChecklistManager.ChecklistPanel.CompletionEffect: repeated `updateQuestProgress` calls with the same count are folded into one. `Report` shows that a repeat changes nothing.
- QuestSystem.ClaimCredits: the claim button never shows for a quest completed automatically by `updateQuestProgress`, as `UpdatedQuestNotClaimable` shows. Only the remaining path is stated.
- Context files: `CompanionPage.tsx`, `GameUI.tsx`, `SettingsPanel.tsx`, `App.tsx`, `DragDropWidget.tsx`, `CompanionCharacter.tsx` and the `protocol/*Widget.tsx` displays are not part of this model.
