/** The protocol builder screen (client/src/components/ProtocolBuilder.tsx):
    which of its three views shows, the create-protocol dialog, the widget
    palette with its per-type defaults, and the save button that credits
    the protocol quest and returns to the library. */
module ProtocolBuilder {
  import opened Base
  import opened Strings
  import opened Types
  import opened Storage
  import opened Protocols
  import opened Quests

  /** The quest credited by saving a protocol. */
  const QuestProtocolId := "quest-protocol-1"

  datatype BuilderView = EmptyView | LibraryView | EditorView

  datatype ViewMode = Build | Run

  /** `getProtocolBuilderState`: the empty screen exactly when there are no
      protocols; the editor exactly when there are some, one is current and
      the builder is editing; the library otherwise. */
  function View(s: ProtocolState): (v: BuilderView)
    ensures v == EmptyView <==> s.protocols == []
    ensures v == EditorView <==> s.protocols != [] && s.current.Some? && s.isBuilding
    ensures v == LibraryView <==> s.protocols != [] && (s.current.None? || !s.isBuilding)
  {
    if |s.protocols| == 0 then EmptyView
    else if s.current.None? || !s.isBuilding then LibraryView
    else EditorView
  }

  /** Creating a protocol always opens it in the editor. */
  lemma CreateOpensEditor(s: ProtocolState, name: string, description: string, id: Id, now: Time)
    ensures View(CreateState(s, name, description, id, now)) == EditorView
  {
  }

  /** Saving and then leaving the builder never shows the editor. */
  lemma StopLeavesEditor(s: ProtocolState)
    ensures View(s.(isBuilding := false)) != EditorView
    ensures s.protocols != [] ==> View(s.(isBuilding := false)) == LibraryView
  {
  }

  // ------------------------------------------------------ widget defaults

  /** `getDefaultWidgetConfig`. */
  function DefaultConfig(kind: WidgetKind): (c: WidgetConfig)
  {
    match kind
    case TimerKind => TimerConfig(300, false)
    case ChecklistKind => ChecklistConfig([])
    case NoteKind => NoteConfig("Add your notes here...")
    case TemperatureKind => TemperatureConfig("celsius", 25.0)
    case PhKind => PhConfig(7.0, 6.5, 7.5)
    case _ => EmptyConfig
  }

  /** `getDefaultWidgetTitle`. */
  function DefaultTitle(kind: WidgetKind): (t: string)
    ensures t != ""
  {
    match kind
    case TimerKind => "Timer"
    case ChecklistKind => "Checklist"
    case NoteKind => "Notes"
    case TemperatureKind => "Temperature Check"
    case PhKind => "pH Measurement"
    case _ => "Widget"
  }

  /** The configuration shape each widget type is rendered with. */
  predicate ConfigFits(kind: WidgetKind, c: WidgetConfig) {
    match kind
    case TimerKind => c.TimerConfig?
    case ChecklistKind => c.ChecklistConfig?
    case NoteKind => c.NoteConfig?
    case TemperatureKind => c.TemperatureConfig?
    case PhKind => c.PhConfig?
    case _ => c.EmptyConfig?
  }

  /** Every default configuration has the shape of its type; the types that
      get the generic `Widget` title are exactly those with an empty
      configuration; a default timer runs five minutes without starting by
      itself; the default pH target lies inside its range. */
  lemma DefaultsAgree(kind: WidgetKind)
    ensures ConfigFits(kind, DefaultConfig(kind))
    ensures DefaultTitle(kind) == "Widget" <==> DefaultConfig(kind) == EmptyConfig
    ensures kind == TimerKind ==> DefaultConfig(kind).duration == 5 * 60 && !DefaultConfig(kind).autoStart
    ensures kind == PhKind ==> DefaultConfig(kind).rangeMin <= DefaultConfig(kind).target <= DefaultConfig(kind).rangeMax
  {
  }

  /** The widget `handleAddWidget` hands to `addWidget` (its id is filled in
      by the store): default title and configuration, not completed, at the
      given position or at (50, 50). */
  function WidgetDraft(kind: WidgetKind, position: Option<Position>): (w: ProtocolWidget)
    ensures w.kind == kind && w.title == DefaultTitle(kind) && w.config == DefaultConfig(kind)
    ensures w.completed == Some(false)
    ensures w.position == if position.Some? then position.value else Position(50, 50)
  {
    ProtocolWidget("", kind, DefaultTitle(kind), DefaultConfig(kind),
                   if position.Some? then position.value else Position(50, 50), Some(false))
  }

  /** Adding a widget from the palette to the open protocol puts it last,
      with the fresh id and the defaults of its type, and keeps the widgets
      before it. */
  lemma AddedWidgetHasDefaults(s: ProtocolState, kind: WidgetKind, position: Option<Position>, freshId: Id, now: Time)
    requires s.current.Some?
    ensures var ws := s.current.value.widgets;
      var r := AddWidgetState(s, WidgetDraft(kind, position), freshId, now).current.value.widgets;
      && |r| == |ws| + 1 && r[..|ws|] == ws
      && r[|ws|].id == freshId && r[|ws|].kind == kind
      && r[|ws|].title == DefaultTitle(kind) && r[|ws|].config == DefaultConfig(kind)
      && r[|ws|].completed == Some(false)
      && (position.None? ==> r[|ws|].position == Position(50, 50))
  {
  }

  // ---------------------------------------------------------------- screen

  class BuilderPanel {
    var newProtocolName: string
    var newProtocolDescription: string
    var showCreateDialog: bool
    var viewMode: ViewMode
    const protocols: ProtocolStore
    const quests: QuestStore

    /** Both stores persist to the one browser storage. */
    constructor(protocols: ProtocolStore, quests: QuestStore)
      ensures newProtocolName == "" && newProtocolDescription == ""
      ensures !showCreateDialog && viewMode == Build
      ensures this.protocols == protocols && this.quests == quests
    {
      newProtocolName := "";
      newProtocolDescription := "";
      showCreateDialog := false;
      viewMode := Build;
      this.protocols := protocols;
      this.quests := quests;
    }

    /** `handleCreateProtocol`: a name of only white space does nothing;
      otherwise the protocol is created under the name as typed (untrimmed),
      the dialog is cleared and closed, and the editor opens. */
    method HandleCreateProtocol(freshId: Id, now: Time)
      requires !HasProtocol(protocols.protocols, freshId)
      modifies this, protocols, protocols.storage
      ensures IsBlank(old(newProtocolName)) ==>
        && protocols.State() == old(protocols.State()) && protocols.storage.data == old(protocols.storage.data)
        && newProtocolName == old(newProtocolName) && newProtocolDescription == old(newProtocolDescription)
        && showCreateDialog == old(showCreateDialog) && viewMode == old(viewMode)
      ensures !IsBlank(old(newProtocolName)) ==>
        && protocols.State() == CreateState(old(protocols.State()), old(newProtocolName), old(newProtocolDescription), freshId, now)
        && protocols.storage.data == SaveProtocols(old(protocols.storage.data), protocols.State())
        && newProtocolName == "" && newProtocolDescription == ""
        && !showCreateDialog && viewMode == Build
        && View(protocols.State()) == EditorView
    {
      TrimEmptyIffBlank(newProtocolName);
      if Trim(newProtocolName) != "" {
        ghost var before := protocols.State();
        protocols.CreateProtocol(newProtocolName, newProtocolDescription, freshId, now);
        CreateOpensEditor(before, newProtocolName, newProtocolDescription, freshId, now);
        newProtocolName := "";
        newProtocolDescription := "";
        showCreateDialog := false;
        viewMode := Build;
      }
    }

    /** `handleAddWidget`: the default widget of the type goes to the store's
      `addWidget`, which ignores it when no protocol is open. */
    method HandleAddWidget(kind: WidgetKind, position: Option<Position>, freshId: Id, now: Time)
      requires protocols.current.Some? ==> !HasWidget(protocols.current.value.widgets, freshId)
      modifies protocols, protocols.storage
      ensures protocols.State() == AddWidgetState(old(protocols.State()), WidgetDraft(kind, position), freshId, now)
      ensures old(protocols.current).None? ==> protocols.storage.data == old(protocols.storage.data)
      ensures old(protocols.current).Some? ==> protocols.storage.data == SaveProtocols(old(protocols.storage.data), protocols.State())
    {
      protocols.AddWidget(WidgetDraft(kind, position), freshId, now);
    }

    /** `handleSaveProtocol`: with no open protocol nothing happens; otherwise
      the open protocol is saved, the protocol quest's progress is set to 1,
      building stops and the screen switches to run mode, so the editor is
      left. */
    method HandleSaveProtocol(now: Time)
      requires protocols.storage == quests.storage
      modifies this, protocols, quests, quests.storage
      ensures old(protocols.current).None? ==>
        && protocols.State() == old(protocols.State()) && quests.State() == old(quests.State())
        && quests.storage.data == old(quests.storage.data) && viewMode == old(viewMode)
      ensures old(protocols.current).Some? ==>
        && protocols.State() == SaveState(old(protocols.State()), old(protocols.current.value), now).(isBuilding := false)
        && quests.State() == UpdateProgressState(old(quests.State()), QuestProtocolId, 1)
        && quests.storage.data == SaveQuests(SaveProtocols(old(quests.storage.data), protocols.State()), quests.State())
        && viewMode == Run
        && View(protocols.State()) != EditorView
    {
      if protocols.current.Some? {
        protocols.SaveProtocol(protocols.current.value, now);
        quests.UpdateQuestProgress(QuestProtocolId, 1);
        protocols.StopBuilding();
        viewMode := Run;
      }
    }
  }
}
