/** The checklist panel (client/src/components/ChecklistManager.tsx): when a
    checklist counts as complete, how complete it is, the effect that reports
    the number of complete checklists to the `quest-checklist-1` quest, the
    two input handlers and the one-off creation of a protocol widget's
    checklist. */
module ChecklistManager {
  import opened Base
  import opened Strings
  import opened Types
  import opened Storage
  import opened Research
  import opened Quests

  const QuestChecklistId := "quest-checklist-1"
  const WidgetChecklistTitle := "Protocol Checklist"

  // ------------------------------------------------------------ completeness

  /** `items.filter(item => item.completed).length`. */
  function CompletedItems(items: seq<ChecklistItem>): (n: nat)
    ensures n <= |items|
    decreases |items|
  {
    if items == [] then 0 else (if items[0].completed then 1 else 0) + CompletedItems(items[1..])
  }

  /** Every item is counted exactly when every item is completed. */
  lemma {:induction false} AllCountedIff(items: seq<ChecklistItem>)
    ensures CompletedItems(items) == |items| <==> forall j :: 0 <= j < |items| ==> items[j].completed
    decreases |items|
  {
    if items != [] {
      AllCountedIff(items[1..]);
      assert forall j :: 1 <= j < |items| ==> items[j] == items[1..][j - 1];
    }
  }

  /** No item is counted exactly when no item is completed. */
  lemma {:induction false} NoneCountedIff(items: seq<ChecklistItem>)
    ensures CompletedItems(items) == 0 <==> forall j :: 0 <= j < |items| ==> !items[j].completed
    decreases |items|
  {
    if items != [] {
      NoneCountedIff(items[1..]);
      assert forall j :: 1 <= j < |items| ==> items[j] == items[1..][j - 1];
    }
  }

  /** The test the quest count uses: every item completed, and at least one item. */
  predicate AllDone(c: Checklist) {
    (forall j :: 0 <= j < |c.items| ==> c.items[j].completed) && |c.items| > 0
  }

  /** The test the effect uses for one checklist (some items, all counted as
      completed) is the same as the one the quest count uses. */
  lemma CompleteTestsAgree(c: Checklist)
    ensures |c.items| > 0 && CompletedItems(c.items) == |c.items| <==> AllDone(c)
  {
    AllCountedIff(c.items);
  }

  /** An item added uncompleted makes its checklist incomplete. */
  lemma AddedItemUndone(c: Checklist, item: ChecklistItem)
    requires !item.completed
    ensures !AllDone(c.(items := c.items + [item]))
  {
    assert (c.items + [item])[|c.items|] == item;
  }

  /** `checklists.filter(c => every item completed && c.items.length > 0).length`. */
  function CompleteCount(cs: seq<Checklist>): (n: nat)
    ensures n <= |cs|
  {
    |Filter(cs, AllDone)|
  }

  /** The count is zero exactly when no checklist is complete. */
  lemma CompleteCountZeroIff(cs: seq<Checklist>)
    ensures CompleteCount(cs) == 0 <==> forall i :: 0 <= i < |cs| ==> !AllDone(cs[i])
  {
    var r := Filter(cs, AllDone);
    if CompleteCount(cs) == 0 {
      forall i | 0 <= i < |cs| ensures !AllDone(cs[i]) {
        assert cs[i] !in r;
      }
    } else {
      assert r[0] in r;
    }
  }

  /** `getProgress(checklist)`: the completed share of the items as a
      percentage, 0 for a checklist without items. Computed exactly; the
      source divides in floating point. */
  function Progress(c: Checklist): (r: real)
    ensures |c.items| == 0 ==> r == 0.0
    ensures 0.0 <= r <= 100.0
    ensures r == 100.0 <==> AllDone(c)
    ensures r == 0.0 <==> forall j :: 0 <= j < |c.items| ==> !c.items[j].completed
  {
    AllCountedIff(c.items);
    NoneCountedIff(c.items);
    if |c.items| == 0 then 0.0
    else
      var done := CompletedItems(c.items) as real;
      var total := |c.items| as real;
      ShareBounds(done, total);
      (done / total) * 100.0
  }

  /** `relevantChecklists`: with a (non-empty) widget id, the checklists of
      that widget; without one, all checklists. */
  function RelevantChecklists(cs: seq<Checklist>, widgetId: Option<Id>): (r: seq<Checklist>)
    ensures widgetId.None? || widgetId.value == "" ==> r == cs
    ensures widgetId.Some? && widgetId.value != "" ==> forall c :: c in r <==> c in cs && c.widgetId == widgetId
  {
    if widgetId.Some? && widgetId.value != "" then Filter(cs, (c: Checklist) => c.widgetId == widgetId) else cs
  }

  // ------------------------------------------------------------ widget mode

  /** The widget-mode effect creates a checklist only for a (non-empty)
      widget id with initial items, and only when no checklist carries that
      widget id yet. */
  predicate NeedsWidgetChecklist(cs: seq<Checklist>, widgetId: Option<Id>, initialItems: seq<ChecklistItem>) {
    && widgetId.Some? && widgetId.value != "" && |initialItems| > 0
    && Find(cs, (c: Checklist) => c.widgetId == widgetId).None?
  }

  /** The checklists after the widget-mode effect. */
  function InitWidgetChecklists(cs: seq<Checklist>, widgetId: Option<Id>, initialItems: seq<ChecklistItem>, freshId: Id): (r: seq<Checklist>)
    ensures NeedsWidgetChecklist(cs, widgetId, initialItems) ==>
      r == AppendChecklist(cs, Checklist("", WidgetChecklistTitle, initialItems, widgetId), freshId)
    ensures !NeedsWidgetChecklist(cs, widgetId, initialItems) ==> r == cs
  {
    if NeedsWidgetChecklist(cs, widgetId, initialItems) then
      AppendChecklist(cs, Checklist("", WidgetChecklistTitle, initialItems, widgetId), freshId)
    else cs
  }

  /** After the effect, a widget with initial items has a checklist of its own. */
  lemma InitGivesWidgetChecklist(cs: seq<Checklist>, widgetId: Option<Id>, initialItems: seq<ChecklistItem>, freshId: Id)
    requires widgetId.Some? && widgetId.value != "" && |initialItems| > 0
    ensures exists i :: 0 <= i < |InitWidgetChecklists(cs, widgetId, initialItems, freshId)|
              && InitWidgetChecklists(cs, widgetId, initialItems, freshId)[i].widgetId == widgetId
  {
    var r := InitWidgetChecklists(cs, widgetId, initialItems, freshId);
    if NeedsWidgetChecklist(cs, widgetId, initialItems) {
      assert r[|cs|].widgetId == widgetId;
    } else {
      var c := Find(cs, (c: Checklist) => c.widgetId == widgetId).value;
      var i :| 0 <= i < |cs| && cs[i] == c;
      assert r[i].widgetId == widgetId;
    }
  }

  /** Running the effect again (as React does when its inputs change) adds nothing more. */
  lemma InitOnce(cs: seq<Checklist>, widgetId: Option<Id>, initialItems: seq<ChecklistItem>, id1: Id, id2: Id)
    ensures var once := InitWidgetChecklists(cs, widgetId, initialItems, id1);
      InitWidgetChecklists(once, widgetId, initialItems, id2) == once
  {
    var once := InitWidgetChecklists(cs, widgetId, initialItems, id1);
    if widgetId.Some? && widgetId.value != "" && |initialItems| > 0 {
      InitGivesWidgetChecklist(cs, widgetId, initialItems, id1);
      var i :| 0 <= i < |once| && once[i].widgetId == widgetId;
      assert !NeedsWidgetChecklist(once, widgetId, initialItems);
    }
  }

  // ------------------------------------------------------------ the panel

  /** The panel's own state (the two draft fields) and the stores it talks to. */
  class ChecklistPanel {
    var newChecklistTitle: string
    var newItemTexts: map<Id, string>
    const widgetId: Option<Id>
    const initialItems: seq<ChecklistItem>
    const research: ResearchStore
    const quests: QuestStore

    constructor(widgetId: Option<Id>, initialItems: seq<ChecklistItem>, research: ResearchStore, quests: QuestStore)
      ensures newChecklistTitle == "" && newItemTexts == map[]
      ensures this.widgetId == widgetId && this.initialItems == initialItems
      ensures this.research == research && this.quests == quests
    {
      newChecklistTitle := "";
      newItemTexts := map[];
      this.widgetId := widgetId;
      this.initialItems := initialItems;
      this.research := research;
      this.quests := quests;
    }

    /** The widget-mode effect. */
    method InitWidget(freshId: Id)
      requires !HasChecklist(research.checklists, freshId)
      modifies research
      ensures research.checklists == InitWidgetChecklists(old(research.checklists), widgetId, initialItems, freshId)
      ensures research.timers == old(research.timers)
    {
      if widgetId.Some? && widgetId.value != "" && |initialItems| > 0 {
        var existing := Find(research.checklists, (c: Checklist) => c.widgetId == widgetId);
        if existing.None? {
          research.AddChecklist(Checklist("", WidgetChecklistTitle, initialItems, widgetId), freshId);
        }
      }
    }

    /** `updateQuestProgress('quest-checklist-1', count)` inside the completion
      effect: the first call of a run updates the quests, a repeat leaves the
      same state. */
    method Report(count: nat, ghost s0: QuestState, ghost d0: map<string, Stored>, ghost target: QuestState)
      requires target == UpdateProgressState(s0, QuestChecklistId, count)
      requires || (quests.State() == s0 && quests.storage.data == d0)
               || (quests.State() == target && quests.storage.data == SaveQuests(d0, target))
      modifies quests, quests.storage
      ensures quests.State() == target && quests.storage.data == SaveQuests(d0, target)
    {
      ghost var before := quests.State();
      quests.UpdateQuestProgress(QuestChecklistId, count);
      UpdateProgressIdempotent(s0, QuestChecklistId, count);
      SaveOverwrites(d0, before, target);
    }

    /** The completion effect: for every complete checklist the number of
      complete checklists is reported to `quest-checklist-1`, so the quests
      change exactly when some checklist is complete, and then hold one
      progress update. */
    method CompletionEffect()
      modifies quests, quests.storage
      ensures CompleteCount(research.checklists) == 0 ==>
        quests.State() == old(quests.State()) && quests.storage.data == old(quests.storage.data)
      ensures CompleteCount(research.checklists) > 0 ==>
        && quests.State() == UpdateProgressState(old(quests.State()), QuestChecklistId, CompleteCount(research.checklists))
        && quests.storage.data == SaveQuests(old(quests.storage.data), quests.State())
    {
      var cs := research.checklists;
      var count := CompleteCount(cs);
      ghost var s0 := quests.State();
      ghost var d0 := quests.storage.data;
      ghost var target := UpdateProgressState(s0, QuestChecklistId, count);
      ghost var reported := false;
      var i := 0;
      while i < |cs|
        invariant 0 <= i <= |cs|
        invariant reported <==> exists k :: 0 <= k < i && AllDone(cs[k])
        invariant !reported ==> quests.State() == s0 && quests.storage.data == d0
        invariant reported ==> quests.State() == target && quests.storage.data == SaveQuests(d0, target)
      {
        var c := cs[i];
        CompleteTestsAgree(c);
        if |c.items| > 0 && CompletedItems(c.items) == |c.items| {
          Report(count, s0, d0, target);
          reported := true;
        }
        i := i + 1;
      }
      CompleteCountZeroIff(cs);
    }

    /** `handleAddChecklist`: a title that is blank (`trim()` empty) is
      ignored; otherwise a checklist with the title as typed (untrimmed) and
      no items is added and the field is cleared. */
    method HandleAddChecklist(freshId: Id)
      requires !HasChecklist(research.checklists, freshId)
      modifies this, research
      ensures IsBlank(old(newChecklistTitle)) ==>
        research.checklists == old(research.checklists) && newChecklistTitle == old(newChecklistTitle)
      ensures !IsBlank(old(newChecklistTitle)) ==>
        && research.checklists == AppendChecklist(old(research.checklists), Checklist("", old(newChecklistTitle), [], None), freshId)
        && newChecklistTitle == ""
      ensures research.timers == old(research.timers) && newItemTexts == old(newItemTexts)
    {
      TrimEmptyIffBlank(newChecklistTitle);
      if Trim(newChecklistTitle) != "" {
        research.AddChecklist(Checklist("", newChecklistTitle, [], None), freshId);
        newChecklistTitle := "";
      }
    }

    /** `handleAddItem(checklistId)`: a missing or blank draft is ignored;
      otherwise the trimmed text goes into that checklist as an uncompleted
      item and the checklist's draft is cleared. */
    method HandleAddItem(checklistId: Id, freshId: Id)
      requires forall i, j :: 0 <= i < |research.checklists| && 0 <= j < |research.checklists[i].items| ==>
        research.checklists[i].items[j].id != freshId
      modifies this, research
      ensures checklistId !in old(newItemTexts) || IsBlank(old(newItemTexts)[checklistId]) ==>
        research.checklists == old(research.checklists) && newItemTexts == old(newItemTexts)
      ensures checklistId in old(newItemTexts) && !IsBlank(old(newItemTexts)[checklistId]) ==>
        && research.checklists == AddItem(old(research.checklists), checklistId,
                                          ChecklistItem("", Trim(old(newItemTexts)[checklistId]), false, None), freshId)
        && newItemTexts == old(newItemTexts)[checklistId := ""]
      ensures research.timers == old(research.timers) && newChecklistTitle == old(newChecklistTitle)
    {
      if checklistId in newItemTexts {
        var text := newItemTexts[checklistId];
        TrimEmptyIffBlank(text);
        if text != "" && Trim(text) != "" {
          research.AddChecklistItem(checklistId, ChecklistItem("", Trim(text), false, None), freshId);
          newItemTexts := newItemTexts[checklistId := ""];
        }
      }
    }
  }
}
