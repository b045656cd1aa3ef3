/** The timer and checklist store (client/src/lib/stores/useResearch.tsx).
    Every action replaces `timers` or `checklists` with a mapped, filtered or
    extended copy; the functions below are those copies, and the class methods
    assign them. Ids come from the caller, who guarantees they are fresh. */
module Research {
  import opened Base
  import opened Types

  predicate HasTimer(ts: seq<Timer>, id: Id) {
    exists i :: 0 <= i < |ts| && ts[i].id == id
  }

  predicate HasChecklist(cs: seq<Checklist>, id: Id) {
    exists i :: 0 <= i < |cs| && cs[i].id == id
  }

  // ---------------------------------------------------------------- timers

  /** `addTimer`: the new timer, carrying the fresh id, goes at the end. */
  function AppendTimer(ts: seq<Timer>, timer: Timer, freshId: Id): (r: seq<Timer>)
    ensures |r| == |ts| + 1 && r[..|ts|] == ts
    ensures r[|ts|] == timer.(id := freshId)
  {
    ts + [timer.(id := freshId)]
  }

  /** `startTimer` (running = true) and `pauseTimer` (running = false): only
      `isRunning` of the timers with that id changes; `isCompleted` is not consulted. */
  function SetRunning(ts: seq<Timer>, id: Id, running: bool): (r: seq<Timer>)
    ensures |r| == |ts|
    ensures forall i :: 0 <= i < |ts| ==> r[i].(isRunning := ts[i].isRunning) == ts[i]
    ensures forall i :: 0 <= i < |ts| ==> r[i].isRunning == if ts[i].id == id then running else ts[i].isRunning
    ensures !HasTimer(ts, id) ==> r == ts
  {
    seq(|ts|, i requires 0 <= i < |ts| => if ts[i].id == id then ts[i].(isRunning := running) else ts[i])
  }

  /** `resetTimer`: the timers with that id are back at their full duration,
      stopped and not completed; every other timer is unchanged. */
  function ResetTimers(ts: seq<Timer>, id: Id): (r: seq<Timer>)
    ensures |r| == |ts|
    ensures forall i :: 0 <= i < |ts| && ts[i].id != id ==> r[i] == ts[i]
    ensures forall i :: 0 <= i < |ts| && ts[i].id == id ==>
      r[i].remaining == r[i].duration == ts[i].duration && !r[i].isRunning && !r[i].isCompleted
      && r[i].(remaining := ts[i].remaining, isRunning := ts[i].isRunning, isCompleted := ts[i].isCompleted) == ts[i]
  {
    seq(|ts|, i requires 0 <= i < |ts| =>
      if ts[i].id == id then ts[i].(remaining := ts[i].duration, isRunning := false, isCompleted := false)
      else ts[i])
  }

  /** `removeTimer`: exactly the timers with that id are dropped, the rest keep their order. */
  function WithoutTimer(ts: seq<Timer>, id: Id): (r: seq<Timer>)
    ensures forall t :: t in r <==> t in ts && t.id != id
  {
    Filter(ts, (t: Timer) => t.id != id)
  }

  /** Removing the timer just added gives the list back, in order. */
  lemma AddThenRemoveTimer(ts: seq<Timer>, timer: Timer, freshId: Id)
    requires !HasTimer(ts, freshId)
    ensures WithoutTimer(AppendTimer(ts, timer, freshId), freshId) == ts
  {
    var p := (t: Timer) => t.id != freshId;
    FilterAppend(ts, [timer.(id := freshId)], p);
    FilterKeepsAll(ts, p);
    assert Filter([timer.(id := freshId)], p) == [];
  }

  /** One timer in `updateTimerTick`: a timer that is stopped or already
      completed is returned as it is; a running one loses a second, never going
      below 0, and completes (and stops) exactly when it reaches 0. */
  function TickTimer(t: Timer): (r: Timer)
    ensures !t.isRunning || t.isCompleted ==> r == t
    ensures t.isRunning && !t.isCompleted ==>
      && r.remaining == Max(0, t.remaining - 1)
      && (r.isCompleted <==> r.remaining == 0)
      && r.isRunning == !r.isCompleted
      && r.(remaining := t.remaining, isRunning := t.isRunning, isCompleted := t.isCompleted) == t
    ensures t.remaining >= 0 ==> 0 <= r.remaining <= t.remaining
  {
    if !t.isRunning || t.isCompleted then t
    else
      var newRemaining := Max(0, t.remaining - 1);
      var completed := newRemaining == 0;
      t.(remaining := newRemaining, isCompleted := completed, isRunning := !completed)
  }

  /** `updateTimerTick`: every timer takes one tick, in place. */
  function Tick(ts: seq<Timer>): (r: seq<Timer>)
    ensures |r| == |ts|
    ensures forall i :: 0 <= i < |ts| ==> r[i] == TickTimer(ts[i])
  {
    seq(|ts|, i requires 0 <= i < |ts| => TickTimer(ts[i]))
  }

  /** `n` successive ticks of one timer. */
  function TickTimerTimes(t: Timer, n: nat): Timer
    decreases n
  {
    if n == 0 then t else TickTimerTimes(TickTimer(t), n - 1)
  }

  /** `n` successive calls of `updateTimerTick`. */
  function TickTimes(ts: seq<Timer>, n: nat): (r: seq<Timer>)
    ensures |r| == |ts|
    decreases n
  {
    if n == 0 then ts else TickTimes(Tick(ts), n - 1)
  }

  /** A stopped or completed timer is left alone by any number of ticks. */
  lemma {:induction false} IdleTimerStays(t: Timer, n: nat)
    requires !t.isRunning || t.isCompleted
    ensures TickTimerTimes(t, n) == t
    decreases n
  {
    if n > 0 {
      IdleTimerStays(TickTimer(t), n - 1);
    }
  }

  /** A running timer with `r` seconds left has `max(0, r - n)` left after `n`
      ticks; after at least one tick it is completed exactly when that is 0, and
      it runs exactly when it is not completed. Nothing else about it changes. */
  lemma {:induction false} TicksCountDown(t: Timer, n: nat)
    requires t.isRunning && !t.isCompleted && t.remaining >= 0
    ensures TickTimerTimes(t, n).remaining == Max(0, t.remaining - n)
    ensures n > 0 ==> (TickTimerTimes(t, n).isCompleted <==> TickTimerTimes(t, n).remaining == 0)
    ensures n > 0 ==> TickTimerTimes(t, n).isRunning == !TickTimerTimes(t, n).isCompleted
    ensures TickTimerTimes(t, n).(remaining := t.remaining, isRunning := t.isRunning, isCompleted := t.isCompleted) == t
    decreases n
  {
    if n > 0 {
      var t1 := TickTimer(t);
      if t1.isCompleted {
        IdleTimerStays(t1, n - 1);
      } else {
        TicksCountDown(t1, n - 1);
      }
    }
  }

  /** Ticking the whole list `n` times ticks every timer `n` times on its own:
      timers do not influence each other. */
  lemma {:induction false} TickTimesPointwise(ts: seq<Timer>, n: nat)
    ensures forall i :: 0 <= i < |ts| ==> TickTimes(ts, n)[i] == TickTimerTimes(ts[i], n)
    decreases n
  {
    if n > 0 {
      TickTimesPointwise(Tick(ts), n - 1);
    }
  }

  /** A freshly added, running timer of `d` seconds shows `max(0, d - n)` after
      `n` ticks, and is completed exactly when that reaches 0 (for `n > 0`). */
  lemma FreshTimerAfterTicks(ts: seq<Timer>, i: nat, n: nat)
    requires i < |ts| && ts[i].isRunning && !ts[i].isCompleted
    requires ts[i].remaining == ts[i].duration >= 0
    ensures TickTimes(ts, n)[i].remaining == Max(0, ts[i].duration - n)
    ensures n > 0 ==> (TickTimes(ts, n)[i].isCompleted <==> TickTimes(ts, n)[i].remaining == 0)
  {
    TickTimesPointwise(ts, n);
    TicksCountDown(ts[i], n);
  }

  /** What a timer looks like whenever the store has only been changed through
      its own actions, starting from timers with `0 <= remaining == duration`. */
  predicate TimerInRange(t: Timer) {
    0 <= t.remaining <= t.duration && (t.isCompleted ==> t.remaining == 0)
  }

  predicate AllInRange(ts: seq<Timer>) {
    forall i :: 0 <= i < |ts| ==> TimerInRange(ts[i])
  }

  /** Every timer action keeps each timer's remaining time within `0..duration`,
      and a completed timer at 0. */
  lemma TimerActionsKeepRange(ts: seq<Timer>, id: Id, running: bool)
    requires AllInRange(ts)
    ensures AllInRange(Tick(ts))
    ensures AllInRange(SetRunning(ts, id, running))
    ensures AllInRange(ResetTimers(ts, id))
    ensures AllInRange(WithoutTimer(ts, id))
  {
    var w := WithoutTimer(ts, id);
    forall i | 0 <= i < |w| ensures TimerInRange(w[i]) {
      assert w[i] in ts;
    }
  }

  /** `startTimer` does not look at `isCompleted`: a completed timer can be
      marked running again, and the next tick still leaves it alone. */
  lemma StartCompletedTimer(ts: seq<Timer>, i: nat)
    requires i < |ts| && ts[i].isCompleted
    ensures SetRunning(ts, ts[i].id, true)[i].isRunning
    ensures SetRunning(ts, ts[i].id, true)[i].isCompleted
    ensures Tick(SetRunning(ts, ts[i].id, true))[i] == SetRunning(ts, ts[i].id, true)[i]
  {
  }

  // ------------------------------------------------------------ checklists

  /** `addChecklist`: the new checklist, carrying the fresh id, goes at the end. */
  function AppendChecklist(cs: seq<Checklist>, checklist: Checklist, freshId: Id): (r: seq<Checklist>)
    ensures |r| == |cs| + 1 && r[..|cs|] == cs
    ensures r[|cs|] == checklist.(id := freshId)
  {
    cs + [checklist.(id := freshId)]
  }

  /** `removeChecklist`: exactly the checklists with that id are dropped. */
  function WithoutChecklist(cs: seq<Checklist>, id: Id): (r: seq<Checklist>)
    ensures forall c :: c in r <==> c in cs && c.id != id
  {
    Filter(cs, (c: Checklist) => c.id != id)
  }

  /** Removing the checklist just added gives the list back, in order. */
  lemma AddThenRemoveChecklist(cs: seq<Checklist>, checklist: Checklist, freshId: Id)
    requires !HasChecklist(cs, freshId)
    ensures WithoutChecklist(AppendChecklist(cs, checklist, freshId), freshId) == cs
  {
    var p := (c: Checklist) => c.id != freshId;
    FilterAppend(cs, [checklist.(id := freshId)], p);
    FilterKeepsAll(cs, p);
    assert Filter([checklist.(id := freshId)], p) == [];
  }

  /** `addChecklistItem`: the new item, carrying the fresh id, goes at the end
      of the items of the checklists with that id; other checklists are unchanged. */
  function AddItem(cs: seq<Checklist>, checklistId: Id, item: ChecklistItem, freshId: Id): (r: seq<Checklist>)
    ensures |r| == |cs|
    ensures forall i :: 0 <= i < |cs| && cs[i].id != checklistId ==> r[i] == cs[i]
    ensures forall i :: 0 <= i < |cs| && cs[i].id == checklistId ==>
      r[i] == cs[i].(items := cs[i].items + [item.(id := freshId)])
  {
    seq(|cs|, i requires 0 <= i < |cs| =>
      if cs[i].id == checklistId then cs[i].(items := cs[i].items + [item.(id := freshId)]) else cs[i])
  }

  /** One item in `toggleChecklistItem`: `completed` flips; the timestamp is
      the current time when it becomes completed and is cleared when it becomes
      uncompleted. */
  function ToggleItem(item: ChecklistItem, now: Time): (r: ChecklistItem)
    ensures r.completed == !item.completed
    ensures r.timestamp.Some? <==> r.completed
    ensures r.completed ==> r.timestamp == Some(now)
    ensures r.id == item.id && r.text == item.text
  {
    item.(completed := !item.completed, timestamp := if !item.completed then Some(now) else None)
  }

  /** Toggling twice restores `completed`, with the timestamp of the second toggle. */
  lemma ToggleTwice(item: ChecklistItem, t1: Time, t2: Time)
    ensures ToggleItem(ToggleItem(item, t1), t2) == item.(timestamp := if item.completed then Some(t2) else None)
  {
  }

  /** `toggleChecklistItem`: only the items with `itemId` in the checklists
      with `checklistId` are toggled; everything else is unchanged. */
  function ToggleInChecklists(cs: seq<Checklist>, checklistId: Id, itemId: Id, now: Time): (r: seq<Checklist>)
    ensures |r| == |cs|
    ensures forall i :: 0 <= i < |cs| && cs[i].id != checklistId ==> r[i] == cs[i]
    ensures forall i :: 0 <= i < |cs| && cs[i].id == checklistId ==>
      && r[i].(items := cs[i].items) == cs[i]
      && |r[i].items| == |cs[i].items|
      && (forall j :: 0 <= j < |cs[i].items| ==>
            r[i].items[j] == if cs[i].items[j].id == itemId then ToggleItem(cs[i].items[j], now) else cs[i].items[j])
  {
    seq(|cs|, i requires 0 <= i < |cs| =>
      if cs[i].id == checklistId then
        cs[i].(items := seq(|cs[i].items|, j requires 0 <= j < |cs[i].items| =>
          if cs[i].items[j].id == itemId then ToggleItem(cs[i].items[j], now) else cs[i].items[j]))
      else cs[i])
  }

  /** `removeChecklistItem`: the items with `itemId` leave the checklists with
      `checklistId`; every other checklist is unchanged. */
  function RemoveItem(cs: seq<Checklist>, checklistId: Id, itemId: Id): (r: seq<Checklist>)
    ensures |r| == |cs|
    ensures forall i :: 0 <= i < |cs| && cs[i].id != checklistId ==> r[i] == cs[i]
    ensures forall i :: 0 <= i < |cs| && cs[i].id == checklistId ==>
      && r[i].(items := cs[i].items) == cs[i]
      && (forall it :: it in r[i].items <==> it in cs[i].items && it.id != itemId)
  {
    seq(|cs|, i requires 0 <= i < |cs| =>
      if cs[i].id == checklistId then cs[i].(items := Filter(cs[i].items, (it: ChecklistItem) => it.id != itemId))
      else cs[i])
  }

  // ----------------------------------------------------------------- store

  class ResearchStore {
    var timers: seq<Timer>
    var checklists: seq<Checklist>

    constructor()
      ensures timers == [] && checklists == []
    {
      timers := [];
      checklists := [];
    }

    method AddTimer(timer: Timer, freshId: Id)
      requires !HasTimer(timers, freshId)
      modifies this
      ensures timers == AppendTimer(old(timers), timer, freshId) && checklists == old(checklists)
    {
      timers := AppendTimer(timers, timer, freshId);
    }

    method StartTimer(id: Id)
      modifies this
      ensures timers == SetRunning(old(timers), id, true) && checklists == old(checklists)
    {
      timers := SetRunning(timers, id, true);
    }

    method PauseTimer(id: Id)
      modifies this
      ensures timers == SetRunning(old(timers), id, false) && checklists == old(checklists)
    {
      timers := SetRunning(timers, id, false);
    }

    method ResetTimer(id: Id)
      modifies this
      ensures timers == ResetTimers(old(timers), id) && checklists == old(checklists)
    {
      timers := ResetTimers(timers, id);
    }

    method RemoveTimer(id: Id)
      modifies this
      ensures timers == WithoutTimer(old(timers), id) && checklists == old(checklists)
    {
      timers := WithoutTimer(timers, id);
    }

    method UpdateTimerTick()
      modifies this
      ensures timers == Tick(old(timers)) && checklists == old(checklists)
    {
      timers := Tick(timers);
    }

    method AddChecklist(checklist: Checklist, freshId: Id)
      requires !HasChecklist(checklists, freshId)
      modifies this
      ensures checklists == AppendChecklist(old(checklists), checklist, freshId) && timers == old(timers)
    {
      checklists := AppendChecklist(checklists, checklist, freshId);
    }

    method RemoveChecklist(id: Id)
      modifies this
      ensures checklists == WithoutChecklist(old(checklists), id) && timers == old(timers)
    {
      checklists := WithoutChecklist(checklists, id);
    }

    method AddChecklistItem(checklistId: Id, item: ChecklistItem, freshId: Id)
      requires forall i, j :: 0 <= i < |checklists| && 0 <= j < |checklists[i].items| ==> checklists[i].items[j].id != freshId
      modifies this
      ensures checklists == AddItem(old(checklists), checklistId, item, freshId) && timers == old(timers)
    {
      checklists := AddItem(checklists, checklistId, item, freshId);
    }

    method ToggleChecklistItem(checklistId: Id, itemId: Id, now: Time)
      modifies this
      ensures checklists == ToggleInChecklists(old(checklists), checklistId, itemId, now) && timers == old(timers)
    {
      checklists := ToggleInChecklists(checklists, checklistId, itemId, now);
    }

    method RemoveChecklistItem(checklistId: Id, itemId: Id)
      modifies this
      ensures checklists == RemoveItem(old(checklists), checklistId, itemId) && timers == old(timers)
    {
      checklists := RemoveItem(checklists, checklistId, itemId);
    }
  }
}
