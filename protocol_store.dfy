/** The protocol store (client/src/lib/stores/useProtocol.tsx): the saved
    protocols, the one open in the builder, and whether the builder is
    editing it. Every widget action rebuilds the current protocol and hands
    it to `saveProtocol`, which writes it into the list and back into
    `currentProtocol`. One clock reading `now` stands for the `new Date()`
    calls of one action. */
module Protocols {
  import opened Base
  import opened Types
  import opened Storage

  datatype ProtocolState = ProtocolState(protocols: seq<Protocol>, current: Option<Protocol>, isBuilding: bool)

  predicate HasProtocol(ps: seq<Protocol>, id: Id) {
    exists i :: 0 <= i < |ps| && ps[i].id == id
  }

  predicate HasWidget(ws: seq<ProtocolWidget>, id: Id) {
    exists i :: 0 <= i < |ws| && ws[i].id == id
  }

  /** `current` and every list entry with its id are the same protocol. */
  predicate Agrees(s: ProtocolState) {
    s.current.Some? ==>
      forall i :: 0 <= i < |s.protocols| && s.protocols[i].id == s.current.value.id ==> s.protocols[i] == s.current.value
  }

  // ------------------------------------------------------------ protocols

  /** The protocol `createProtocol` builds: no widgets, created and modified
      now, a quest reward of 10. */
  function NewProtocol(name: string, description: string, id: Id, now: Time): (p: Protocol)
    ensures p.id == id && p.name == name && p.description == description
    ensures p.widgets == [] && p.created == now && p.lastModified == now && p.questReward == Some(10)
  {
    Protocol(id, name, description, [], now, now, Some(10))
  }

  /** `createProtocol`: the new protocol goes last in the list, becomes
      current, and the builder starts editing. */
  function CreateState(s: ProtocolState, name: string, description: string, id: Id, now: Time): (r: ProtocolState)
    ensures r.protocols == s.protocols + [NewProtocol(name, description, id, now)]
    ensures r.current == Some(NewProtocol(name, description, id, now)) && r.isBuilding
    ensures !HasProtocol(s.protocols, id) ==> Agrees(r)
  {
    var p := NewProtocol(name, description, id, now);
    ProtocolState(s.protocols + [p], Some(p), true)
  }

  /** `loadProtocol`: the first protocol with that id becomes current; an
      unknown id changes nothing; `isBuilding` is never touched. */
  function LoadState(s: ProtocolState, id: Id): (r: ProtocolState)
    ensures r.protocols == s.protocols && r.isBuilding == s.isBuilding
    ensures !HasProtocol(s.protocols, id) ==> r == s
    ensures HasProtocol(s.protocols, id) ==> r.current.Some? && r.current.value.id == id && r.current.value in s.protocols
  {
    var found := Find(s.protocols, (p: Protocol) => p.id == id);
    if found.Some? then s.(current := found) else s
  }

  /** `saveProtocol(p)`: every entry with `p`'s id is replaced by `p` stamped
      with `now`; a protocol not in the list is not added; `current` follows
      only when it has the same id. */
  function SaveState(s: ProtocolState, p: Protocol, now: Time): (r: ProtocolState)
    ensures |r.protocols| == |s.protocols| && r.isBuilding == s.isBuilding
    ensures forall i :: 0 <= i < |s.protocols| ==>
      r.protocols[i] == if s.protocols[i].id == p.id then p.(lastModified := now) else s.protocols[i]
    ensures !HasProtocol(s.protocols, p.id) ==> r.protocols == s.protocols
    ensures r.current == if s.current.Some? && s.current.value.id == p.id then Some(p.(lastModified := now)) else s.current
  {
    var stamped := p.(lastModified := now);
    ProtocolState(
      seq(|s.protocols|, i requires 0 <= i < |s.protocols| => if s.protocols[i].id == p.id then stamped else s.protocols[i]),
      if s.current.Some? && s.current.value.id == p.id then Some(stamped) else s.current,
      s.isBuilding)
  }

  /** `deleteProtocol`: exactly the entries with that id leave the list, and
      `current` is cleared exactly when it had that id. */
  function DeleteState(s: ProtocolState, id: Id): (r: ProtocolState)
    ensures forall p :: p in r.protocols <==> p in s.protocols && p.id != id
    ensures r.current.None? <==> s.current.None? || s.current.value.id == id
    ensures r.current.Some? ==> r.current == s.current
    ensures r.isBuilding == s.isBuilding
  {
    ProtocolState(
      Filter(s.protocols, (p: Protocol) => p.id != id),
      if s.current.Some? && s.current.value.id == id then None else s.current,
      s.isBuilding)
  }

  // --------------------------------------------------------------- widgets

  /** A `Partial<ProtocolWidget>`: each present field overrides the widget's. */
  datatype WidgetPatch = WidgetPatch(
    id: Option<Id>, kind: Option<WidgetKind>, title: Option<string>, config: Option<WidgetConfig>,
    position: Option<Position>, completed: Option<Option<bool>>)

  /** The patch `moveWidget` sends: only a position. */
  function PositionPatch(position: Position): (u: WidgetPatch)
    ensures u.position == Some(position)
    ensures u.id.None? && u.kind.None? && u.title.None? && u.config.None? && u.completed.None?
  {
    WidgetPatch(None, None, None, None, Some(position), None)
  }

  function Override<T>(o: Option<T>, v: T): T {
    if o.Some? then o.value else v
  }

  /** `{ ...widget, ...updates }`. */
  function ApplyPatch(w: ProtocolWidget, u: WidgetPatch): (r: ProtocolWidget)
    ensures r.id == Override(u.id, w.id) && r.kind == Override(u.kind, w.kind) && r.title == Override(u.title, w.title)
    ensures r.config == Override(u.config, w.config) && r.position == Override(u.position, w.position)
    ensures r.completed == Override(u.completed, w.completed)
  {
    ProtocolWidget(Override(u.id, w.id), Override(u.kind, w.kind), Override(u.title, w.title),
                   Override(u.config, w.config), Override(u.position, w.position), Override(u.completed, w.completed))
  }

  /** The widget list after `addWidget`: the draft, carrying the fresh id, goes last. */
  function WidgetsAdded(ws: seq<ProtocolWidget>, draft: ProtocolWidget, freshId: Id): (r: seq<ProtocolWidget>)
    ensures |r| == |ws| + 1 && r[..|ws|] == ws && r[|ws|] == draft.(id := freshId)
  {
    ws + [draft.(id := freshId)]
  }

  /** The widget list after `updateWidget`: the patch is merged into the
      widgets with that id; the others are unchanged. */
  function WidgetsUpdated(ws: seq<ProtocolWidget>, id: Id, u: WidgetPatch): (r: seq<ProtocolWidget>)
    ensures |r| == |ws|
    ensures forall i :: 0 <= i < |ws| ==> r[i] == if ws[i].id == id then ApplyPatch(ws[i], u) else ws[i]
  {
    seq(|ws|, i requires 0 <= i < |ws| => if ws[i].id == id then ApplyPatch(ws[i], u) else ws[i])
  }

  /** The widget list after `removeWidget`: exactly the widgets with that id leave. */
  function WidgetsRemoved(ws: seq<ProtocolWidget>, id: Id): (r: seq<ProtocolWidget>)
    ensures forall w :: w in r <==> w in ws && w.id != id
  {
    Filter(ws, (w: ProtocolWidget) => w.id != id)
  }

  /** `r` is `s` with the current protocol replaced by `p`, both as current
      and at every list position holding its id; the list keeps its length
      and order, and the builder flag is kept. */
  predicate ReplacesCurrent(s: ProtocolState, r: ProtocolState, p: Protocol)
    requires s.current.Some?
  {
    && r.current == Some(p)
    && r.isBuilding == s.isBuilding
    && |r.protocols| == |s.protocols|
    && forall i :: 0 <= i < |s.protocols| ==>
         r.protocols[i] == if s.protocols[i].id == s.current.value.id then p else s.protocols[i]
  }

  /** The common shape of the widget actions: nothing without a current
      protocol; otherwise its widgets are rewritten and it is saved. */
  function WithWidgets(s: ProtocolState, widgets: seq<ProtocolWidget>, now: Time): (r: ProtocolState)
    requires s.current.Some?
    ensures ReplacesCurrent(s, r, s.current.value.(widgets := widgets, lastModified := now))
    ensures Agrees(r)
  {
    SaveState(s, s.current.value.(widgets := widgets, lastModified := now), now)
  }

  /** `addWidget`. */
  function AddWidgetState(s: ProtocolState, draft: ProtocolWidget, freshId: Id, now: Time): (r: ProtocolState)
    ensures s.current.None? ==> r == s
    ensures s.current.Some? ==> ReplacesCurrent(s, r, s.current.value.(widgets := WidgetsAdded(s.current.value.widgets, draft, freshId), lastModified := now))
    ensures Agrees(s) ==> Agrees(r)
  {
    if s.current.None? then s else WithWidgets(s, WidgetsAdded(s.current.value.widgets, draft, freshId), now)
  }

  /** `updateWidget`. */
  function UpdateWidgetState(s: ProtocolState, id: Id, u: WidgetPatch, now: Time): (r: ProtocolState)
    ensures s.current.None? ==> r == s
    ensures s.current.Some? ==> ReplacesCurrent(s, r, s.current.value.(widgets := WidgetsUpdated(s.current.value.widgets, id, u), lastModified := now))
    ensures Agrees(s) ==> Agrees(r)
  {
    if s.current.None? then s else WithWidgets(s, WidgetsUpdated(s.current.value.widgets, id, u), now)
  }

  /** `removeWidget`. */
  function RemoveWidgetState(s: ProtocolState, id: Id, now: Time): (r: ProtocolState)
    ensures s.current.None? ==> r == s
    ensures s.current.Some? ==> ReplacesCurrent(s, r, s.current.value.(widgets := WidgetsRemoved(s.current.value.widgets, id), lastModified := now))
    ensures Agrees(s) ==> Agrees(r)
  {
    if s.current.None? then s else WithWidgets(s, WidgetsRemoved(s.current.value.widgets, id), now)
  }

  /** `moveWidget` is `updateWidget` with only a position: the widgets with
      that id move, and nothing else about them changes. */
  lemma MoveOnlyMoves(s: ProtocolState, id: Id, position: Position, now: Time)
    requires s.current.Some?
    ensures var ws := s.current.value.widgets;
      var moved := UpdateWidgetState(s, id, PositionPatch(position), now).current.value.widgets;
      |moved| == |ws| &&
      forall i :: 0 <= i < |ws| ==> moved[i] == if ws[i].id == id then ws[i].(position := position) else ws[i]
  {
  }

  /** Removing the widget just added restores the widget list, in order. */
  lemma {:induction false} AddThenRemoveWidget(s: ProtocolState, draft: ProtocolWidget, freshId: Id, t1: Time, t2: Time)
    requires s.current.Some? && !HasWidget(s.current.value.widgets, freshId)
    ensures RemoveWidgetState(AddWidgetState(s, draft, freshId, t1), freshId, t2).current.value.widgets
         == s.current.value.widgets
  {
    var ws := s.current.value.widgets;
    var p := (w: ProtocolWidget) => w.id != freshId;
    FilterAppend(ws, [draft.(id := freshId)], p);
    FilterKeepsAll(ws, p);
    assert Filter([draft.(id := freshId)], p) == [];
  }

  /** The store as persisted: `saveToStorage` writes the protocol list. */
  function SaveProtocols(data: map<string, Stored>, s: ProtocolState): (r: map<string, Stored>)
    ensures Get(r, ProtocolsKey) == Some(ProtocolsBlob(s.protocols))
    ensures forall k :: k != ProtocolsKey ==> Get(r, k) == Get(data, k)
  {
    data[ProtocolsKey := ProtocolsBlob(s.protocols)]
  }

  /** `loadFromStorage`: a stored list replaces the protocols; nothing else changes. */
  function LoadFromData(s: ProtocolState, data: map<string, Stored>): (r: ProtocolState)
    ensures r.current == s.current && r.isBuilding == s.isBuilding
    ensures ProtocolsKey !in data ==> r == s
    ensures r.protocols == if ProtocolsKey in data && data[ProtocolsKey].ProtocolsBlob? then data[ProtocolsKey].protocols else s.protocols
  {
    match Get(data, ProtocolsKey)
    case Some(ProtocolsBlob(ps)) => s.(protocols := ps)
    case _ => s
  }

  /** Loading what was saved gives the saved list back. */
  lemma SaveThenLoadProtocols(data: map<string, Stored>, s: ProtocolState, before: ProtocolState)
    ensures LoadFromData(before, SaveProtocols(data, s)).protocols == s.protocols
  {
  }

  // ----------------------------------------------------------------- store

  class ProtocolStore {
    var protocols: seq<Protocol>
    var current: Option<Protocol>
    var isBuilding: bool
    const storage: LocalStorage

    function State(): ProtocolState
      reads this
    {
      ProtocolState(protocols, current, isBuilding)
    }

    constructor(storage: LocalStorage)
      ensures this.storage == storage && State() == ProtocolState([], None, false)
    {
      this.storage := storage;
      protocols := [];
      current := None;
      isBuilding := false;
    }

    method CreateProtocol(name: string, description: string, freshId: Id, now: Time)
      requires !HasProtocol(protocols, freshId)
      modifies this, storage
      ensures State() == CreateState(old(State()), name, description, freshId, now)
      ensures storage.data == SaveProtocols(old(storage.data), State())
    {
      var p := NewProtocol(name, description, freshId, now);
      protocols := protocols + [p];
      current := Some(p);
      isBuilding := true;
      SaveToStorage();
    }

    method LoadProtocol(id: Id)
      modifies this
      ensures State() == LoadState(old(State()), id)
    {
      var found := Find(protocols, (p: Protocol) => p.id == id);
      if found.Some? {
        current := found;
      }
    }

    method SaveProtocol(p: Protocol, now: Time)
      modifies this, storage
      ensures State() == SaveState(old(State()), p, now)
      ensures storage.data == SaveProtocols(old(storage.data), State())
    {
      var s := SaveState(State(), p, now);
      protocols := s.protocols;
      current := s.current;
      SaveToStorage();
    }

    method DeleteProtocol(id: Id)
      modifies this, storage
      ensures State() == DeleteState(old(State()), id)
      ensures storage.data == SaveProtocols(old(storage.data), State())
    {
      protocols := Filter(protocols, (p: Protocol) => p.id != id);
      if current.Some? && current.value.id == id {
        current := None;
      }
      SaveToStorage();
    }

    method AddWidget(draft: ProtocolWidget, freshId: Id, now: Time)
      requires current.Some? ==> !HasWidget(current.value.widgets, freshId)
      modifies this, storage
      ensures State() == AddWidgetState(old(State()), draft, freshId, now)
      ensures old(current).None? ==> storage.data == old(storage.data)
      ensures old(current).Some? ==> storage.data == SaveProtocols(old(storage.data), State())
    {
      if current.None? {
        return;
      }
      var cur := current.value;
      SaveProtocol(cur.(widgets := cur.widgets + [draft.(id := freshId)], lastModified := now), now);
    }

    method UpdateWidget(id: Id, u: WidgetPatch, now: Time)
      modifies this, storage
      ensures State() == UpdateWidgetState(old(State()), id, u, now)
      ensures old(current).None? ==> storage.data == old(storage.data)
      ensures old(current).Some? ==> storage.data == SaveProtocols(old(storage.data), State())
    {
      if current.None? {
        return;
      }
      var cur := current.value;
      SaveProtocol(cur.(widgets := WidgetsUpdated(cur.widgets, id, u), lastModified := now), now);
    }

    method RemoveWidget(id: Id, now: Time)
      modifies this, storage
      ensures State() == RemoveWidgetState(old(State()), id, now)
      ensures old(current).None? ==> storage.data == old(storage.data)
      ensures old(current).Some? ==> storage.data == SaveProtocols(old(storage.data), State())
    {
      if current.None? {
        return;
      }
      var cur := current.value;
      SaveProtocol(cur.(widgets := Filter(cur.widgets, (w: ProtocolWidget) => w.id != id), lastModified := now), now);
    }

    method MoveWidget(id: Id, position: Position, now: Time)
      modifies this, storage
      ensures State() == UpdateWidgetState(old(State()), id, PositionPatch(position), now)
      ensures old(current).None? ==> storage.data == old(storage.data)
      ensures old(current).Some? ==> storage.data == SaveProtocols(old(storage.data), State())
    {
      UpdateWidget(id, PositionPatch(position), now);
    }

    method StartBuilding()
      modifies this
      ensures State() == old(State()).(isBuilding := true)
    {
      isBuilding := true;
    }

    method StopBuilding()
      modifies this
      ensures State() == old(State()).(isBuilding := false)
    {
      isBuilding := false;
    }

    method LoadFromStorage()
      modifies this
      ensures State() == LoadFromData(old(State()), storage.data)
    {
      var stored := Get(storage.data, ProtocolsKey);
      if stored.Some? && stored.value.ProtocolsBlob? {
        protocols := stored.value.protocols;
      }
    }

    method SaveToStorage()
      modifies storage
      ensures storage.data == SaveProtocols(old(storage.data), State())
    {
      storage.Set(ProtocolsKey, ProtocolsBlob(protocols));
    }
  }
}
