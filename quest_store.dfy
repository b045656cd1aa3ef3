/** The quest, scoring and companion store (client/src/lib/stores/useQuests.tsx).
    The four store fields form a `QuestState`; each action is a function from
    the old state to the new one, and the class methods perform the same
    steps in the same order (set, then `checkLevelUp`, then the mood, then
    `saveToStorage`) on the fields and on the shared local storage. */
module Quests {
  import opened Base
  import opened Strings
  import opened Types
  import opened Storage

  datatype QuestState = QuestState(quests: seq<Quest>, companion: Companion, playerScore: int, level: int)

  /** The three quests every player starts with. */
  const InitialQuests: seq<Quest> := [
    Quest("quest-protocol-1", "Create Your First Protocol", "Build and save your first research protocol",
          ProtocolComplete, 1, 0, 50, false, true),
    Quest("quest-timer-1", "Time Master", "Complete 5 timers successfully",
          TimerComplete, 5, 0, 30, false, true),
    Quest("quest-checklist-1", "List Checker", "Complete 3 checklists",
          ChecklistComplete, 3, 0, 25, false, true)
  ]

  /** The state a fresh store holds; `now` is the creation time. */
  function InitialState(now: Time): (s: QuestState)
    ensures s.playerScore == 0 && s.level == 1
    ensures s.companion == Companion(Happy, 100, now, 0)
    ensures |s.quests| == 3 && AllWellFormed(s.quests)
  {
    QuestState(InitialQuests, Companion(Happy, 100, now, 0), 0, 1)
  }

  /** What every quest looks like when it is changed only by this store:
      progress between 0 and the target, and a completed quest at its target. */
  predicate WellFormed(q: Quest) {
    0 <= q.progress <= q.target && (q.completed ==> q.progress == q.target)
  }

  predicate AllWellFormed(qs: seq<Quest>) {
    forall i :: 0 <= i < |qs| ==> WellFormed(qs[i])
  }

  /** `quests.find(q => q.id === id)`. */
  function FindQuest(qs: seq<Quest>, id: Id): (r: Option<Quest>)
    ensures r.None? <==> forall i :: 0 <= i < |qs| ==> qs[i].id != id
    ensures r.Some? ==> r.value in qs && r.value.id == id
  {
    Find(qs, (q: Quest) => q.id == id)
  }

  /** The level a score earns: `floor(score / 100) + 1`. */
  function LevelFor(score: int): (l: int)
    ensures (l - 1) * 100 <= score < l * 100
  {
    score / 100 + 1
  }

  // ------------------------------------------------------------ quest list

  /** The quest-list step of `completeQuest`: every uncompleted quest with
      that id becomes completed with its progress at the target. */
  function MarkCompleted(qs: seq<Quest>, id: Id): (r: seq<Quest>)
    ensures |r| == |qs|
    ensures forall i :: 0 <= i < |qs| ==>
      r[i] == if qs[i].id == id && !qs[i].completed then qs[i].(completed := true, progress := qs[i].target) else qs[i]
    ensures forall i :: 0 <= i < |qs| && qs[i].id == id ==> r[i].completed
  {
    seq(|qs|, i requires 0 <= i < |qs| =>
      if qs[i].id == id && !qs[i].completed then qs[i].(completed := true, progress := qs[i].target) else qs[i])
  }

  /** The quest-list step of `updateQuestProgress`: the uncompleted quests
      with that id get `min(progress, target)` (set, not added). */
  function SetProgress(qs: seq<Quest>, id: Id, progress: int): (r: seq<Quest>)
    ensures |r| == |qs|
    ensures forall i :: 0 <= i < |qs| ==>
      r[i] == if qs[i].id == id && !qs[i].completed then qs[i].(progress := Min(progress, qs[i].target)) else qs[i]
  {
    seq(|qs|, i requires 0 <= i < |qs| =>
      if qs[i].id == id && !qs[i].completed then qs[i].(progress := Min(progress, qs[i].target)) else qs[i])
  }

  /** The quest `find` returns after `completeQuest` is the one it returned before, now completed. */
  lemma {:induction false} FindAfterMark(qs: seq<Quest>, id: Id)
    ensures FindQuest(MarkCompleted(qs, id), id).Some? == FindQuest(qs, id).Some?
    ensures FindQuest(qs, id).Some? ==>
      var q := FindQuest(qs, id).value;
      FindQuest(MarkCompleted(qs, id), id) == Some(if q.completed then q else q.(completed := true, progress := q.target))
    decreases |qs|
  {
    if qs != [] {
      var m := MarkCompleted(qs, id);
      assert m[1..] == MarkCompleted(qs[1..], id);
      if qs[0].id != id {
        FindAfterMark(qs[1..], id);
      }
    }
  }

  /** The quest `find` returns after `updateQuestProgress` is the one it returned before, updated. */
  lemma {:induction false} FindAfterSetProgress(qs: seq<Quest>, id: Id, progress: int)
    ensures FindQuest(SetProgress(qs, id, progress), id).Some? == FindQuest(qs, id).Some?
    ensures FindQuest(qs, id).Some? ==>
      var q := FindQuest(qs, id).value;
      FindQuest(SetProgress(qs, id, progress), id) == Some(if q.completed then q else q.(progress := Min(progress, q.target)))
    decreases |qs|
  {
    if qs != [] {
      var m := SetProgress(qs, id, progress);
      assert m[1..] == SetProgress(qs[1..], id, progress);
      if qs[0].id != id {
        FindAfterSetProgress(qs[1..], id, progress);
      }
    }
  }

  // --------------------------------------------------------------- actions

  /** `checkLevelUp`: the level rises to what the score earns when that is
      higher, and the companion turns proud; otherwise nothing changes. */
  function CheckLevelUpState(s: QuestState): (r: QuestState)
    ensures r.level == Max(s.level, LevelFor(s.playerScore))
    ensures r.level > s.level ==> r == s.(level := r.level, companion := s.companion.(mood := Proud))
    ensures r.level <= s.level ==> r == s
  {
    var newLevel := LevelFor(s.playerScore);
    if newLevel > s.level then s.(level := newLevel, companion := s.companion.(mood := Proud)) else s
  }

  /** `completeQuest` without the save: the matching uncompleted quests are
      completed; the reward of the first quest with that id is credited
      whether or not it was already completed; the level catches up with the
      score; and the mood ends `excited` even after a level-up. */
  function CompleteQuestState(s: QuestState, id: Id): (r: QuestState)
    ensures r.quests == MarkCompleted(s.quests, id)
    ensures FindQuest(s.quests, id).None? ==> r.playerScore == s.playerScore
    ensures FindQuest(s.quests, id).Some? ==> r.playerScore == s.playerScore + FindQuest(s.quests, id).value.reward
    ensures r.level == Max(s.level, LevelFor(r.playerScore))
    ensures r.companion == s.companion.(mood := Excited)
  {
    var quest := FindQuest(s.quests, id);
    var credited := s.(quests := MarkCompleted(s.quests, id),
                       playerScore := if quest.Some? then s.playerScore + quest.value.reward else s.playerScore);
    var leveled := CheckLevelUpState(credited);
    leveled.(companion := leveled.companion.(mood := Excited))
  }

  /** `updateQuestProgress` without the saves: the progress is set on the
      matching uncompleted quests, and if the first quest with that id is then
      at its target and uncompleted, `completeQuest` runs. */
  function UpdateProgressState(s: QuestState, id: Id, progress: int): (r: QuestState)
    ensures |r.quests| == |s.quests|
    ensures forall i :: 0 <= i < |s.quests| && s.quests[i].id != id ==> r.quests[i] == s.quests[i]
    ensures r.level >= s.level
  {
    var updated := s.(quests := SetProgress(s.quests, id, progress));
    var quest := FindQuest(updated.quests, id);
    if quest.Some? && quest.value.progress >= quest.value.target && !quest.value.completed
    then CompleteQuestState(updated, id)
    else updated
  }

  /** The automatic completion happens exactly when the first quest with that
      id was uncompleted and the new progress reaches its target. */
  lemma AutoCompleteIff(s: QuestState, id: Id, progress: int)
    ensures var q := FindQuest(s.quests, id);
      var updated := s.(quests := SetProgress(s.quests, id, progress));
      if q.Some? && !q.value.completed && progress >= q.value.target
      then UpdateProgressState(s, id, progress) == CompleteQuestState(updated, id)
      else UpdateProgressState(s, id, progress) == updated
  {
    FindAfterSetProgress(s.quests, id, progress);
  }

  /** Progress updates keep quests well formed, and completion does too.
      The panels only ever report a count or 1, so the progress is never
      negative. */
  lemma ProgressKeepsWellFormed(s: QuestState, id: Id, progress: int)
    requires AllWellFormed(s.quests) && progress >= 0
    ensures AllWellFormed(SetProgress(s.quests, id, progress))
    ensures AllWellFormed(CompleteQuestState(s, id).quests)
    ensures AllWellFormed(UpdateProgressState(s, id, progress).quests)
  {
    var updated := s.(quests := SetProgress(s.quests, id, progress));
    assert AllWellFormed(updated.quests);
    assert AllWellFormed(CompleteQuestState(updated, id).quests);
  }

  /** Sending the same progress twice changes nothing the second time. */
  lemma UpdateProgressIdempotent(s: QuestState, id: Id, progress: int)
    ensures UpdateProgressState(UpdateProgressState(s, id, progress), id, progress) == UpdateProgressState(s, id, progress)
  {
    var once := UpdateProgressState(s, id, progress);
    var updated := s.(quests := SetProgress(s.quests, id, progress));
    var quest := FindQuest(updated.quests, id);
    if quest.Some? && quest.value.progress >= quest.value.target && !quest.value.completed {
      assert SetProgress(once.quests, id, progress) == once.quests;
      FindAfterMark(updated.quests, id);
    } else {
      assert SetProgress(once.quests, id, progress) == once.quests;
    }
  }

  /** `completeQuest` on a quest that is already completed still credits its
      reward: two calls credit it twice. */
  lemma CompleteTwiceCreditsTwice(s: QuestState, id: Id)
    requires FindQuest(s.quests, id).Some?
    ensures CompleteQuestState(CompleteQuestState(s, id), id).playerScore
         == s.playerScore + 2 * FindQuest(s.quests, id).value.reward
    ensures CompleteQuestState(CompleteQuestState(s, id), id).quests == CompleteQuestState(s, id).quests
  {
    FindAfterMark(s.quests, id);
    var m := MarkCompleted(s.quests, id);
    assert MarkCompleted(m, id) == m;
  }

  /** `addScore` without the save: the points are added and the level catches up. */
  function AddScoreState(s: QuestState, points: int): (r: QuestState)
    ensures r.playerScore == s.playerScore + points
    ensures r.level == Max(s.level, LevelFor(r.playerScore))
    ensures r.quests == s.quests
    ensures r.level > s.level ==> r.companion == s.companion.(mood := Proud)
    ensures r.level == s.level ==> r.companion == s.companion
  {
    CheckLevelUpState(s.(playerScore := s.playerScore + points))
  }

  /** `interactWithCompanion` without the save: one more interaction, five
      more energy up to 100, the interaction time recorded, the mood kept. */
  function InteractState(s: QuestState, now: Time): (r: QuestState)
    ensures r.companion.totalInteractions == s.companion.totalInteractions + 1
    ensures r.companion.energy == Min(100, s.companion.energy + 5)
    ensures r.companion.lastInteraction == now && r.companion.mood == s.companion.mood
    ensures r == s.(companion := r.companion)
  {
    s.(companion := s.companion.(lastInteraction := now,
                                 totalInteractions := s.companion.totalInteractions + 1,
                                 energy := Min(100, s.companion.energy + 5)))
  }

  /** Energy stays within 0..100 through interactions, and reaches 100 after enough of them. */
  lemma {:induction false} InteractionsFillEnergy(s: QuestState, nows: seq<Time>)
    requires 0 <= s.companion.energy <= 100
    ensures 0 <= Interactions(s, nows).companion.energy <= 100
    ensures Interactions(s, nows).companion.energy == Min(100, s.companion.energy + 5 * |nows|)
    ensures Interactions(s, nows).companion.totalInteractions == s.companion.totalInteractions + |nows|
    decreases |nows|
  {
    if nows != [] {
      InteractionsFillEnergy(InteractState(s, nows[0]), nows[1..]);
    }
  }

  /** Successive interactions at the given times. */
  function Interactions(s: QuestState, nows: seq<Time>): QuestState
    decreases |nows|
  {
    if nows == [] then s else Interactions(InteractState(s, nows[0]), nows[1..])
  }

  /** Whether a quest is one of the generated daily quests. */
  predicate IsDaily(q: Quest) {
    StartsWith(q.id, "daily-")
  }

  /** The quest `generateDailyQuests` creates at time `now`. */
  function DailyQuest(now: Time): (q: Quest)
    ensures IsDaily(q) && q.target == 2 && q.reward == 20 && q.progress == 0
    ensures !q.completed && q.unlocked && q.kind == DailyLogin
  {
    Quest("daily-" + NatToString(now), "Daily Research Goal", "Complete any 2 research tasks today",
          DailyLogin, 2, 0, 20, false, true)
  }

  /** The list step of `generateDailyQuests`: the old daily quests leave, the
      others keep their order, and the new one goes last. */
  function ReplaceDaily(qs: seq<Quest>, daily: Quest): (r: seq<Quest>)
    requires IsDaily(daily)
    ensures |r| >= 1 && r[|r| - 1] == daily
    ensures forall q :: q in r[..|r| - 1] <==> q in qs && !IsDaily(q)
    ensures forall i :: 0 <= i < |r| ==> (IsDaily(r[i]) <==> i == |r| - 1)
  {
    var kept := Filter(qs, (q: Quest) => !IsDaily(q));
    assert (kept + [daily])[..|kept|] == kept;
    assert forall i :: 0 <= i < |kept| ==> kept[i] in kept;
    kept + [daily]
  }

  // --------------------------------------------------------------- storage

  /** What `saveToStorage` writes: the quests, the companion and `{score, level}`. */
  function SaveQuests(data: map<string, Stored>, s: QuestState): (r: map<string, Stored>)
    ensures Get(r, QuestsKey) == Some(QuestsBlob(s.quests))
    ensures Get(r, CompanionKey) == Some(CompanionBlob(s.companion))
    ensures Get(r, ScoreKey) == Some(ScoreBlob(Some(s.playerScore), Some(s.level)))
    ensures forall k :: k != QuestsKey && k != CompanionKey && k != ScoreKey ==> Get(r, k) == Get(data, k)
  {
    data[QuestsKey := QuestsBlob(s.quests)][CompanionKey := CompanionBlob(s.companion)]
        [ScoreKey := ScoreBlob(Some(s.playerScore), Some(s.level))]
  }

  /** A later save overwrites an earlier one completely. */
  lemma SaveOverwrites(data: map<string, Stored>, s1: QuestState, s2: QuestState)
    ensures SaveQuests(SaveQuests(data, s1), s2) == SaveQuests(data, s2)
  {
  }

  /** `value || fallback` on a stored number: a missing value and 0 are both falsy. */
  function OrElse(o: Option<int>, fallback: int): (r: int)
    ensures o.Some? && o.value != 0 ==> r == o.value
    ensures o.None? || o == Some(0) ==> r == fallback
  {
    if o.Some? && o.value != 0 then o.value else fallback
  }

  /** `loadFromStorage`: each stored part replaces its field; a part that was
      never written leaves its field alone; a missing or zero score reads as 0
      and a missing or zero level as 1. */
  function LoadState(s: QuestState, data: map<string, Stored>): (r: QuestState)
    ensures QuestsKey !in data && CompanionKey !in data && ScoreKey !in data ==> r == s
    ensures r.quests == if QuestsKey in data && data[QuestsKey].QuestsBlob? then data[QuestsKey].quests else s.quests
    ensures r.companion == if CompanionKey in data && data[CompanionKey].CompanionBlob? then data[CompanionKey].companion else s.companion
    ensures ScoreKey in data && data[ScoreKey].ScoreBlob? ==>
      r.playerScore == OrElse(data[ScoreKey].score, 0) && r.level == OrElse(data[ScoreKey].level, 1)
    ensures !(ScoreKey in data && data[ScoreKey].ScoreBlob?) ==> r.playerScore == s.playerScore && r.level == s.level
  {
    var quests := match Get(data, QuestsKey) case Some(QuestsBlob(qs)) => qs case _ => s.quests;
    var companion := match Get(data, CompanionKey) case Some(CompanionBlob(c)) => c case _ => s.companion;
    match Get(data, ScoreKey)
    case Some(ScoreBlob(score, level)) => QuestState(quests, companion, OrElse(score, 0), OrElse(level, 1))
    case _ => QuestState(quests, companion, s.playerScore, s.level)
  }

  /** Loading what was saved restores the state, whatever was in memory
      before, as long as the level is not 0 (which would read back as 1). */
  lemma SaveThenLoad(data: map<string, Stored>, s: QuestState, before: QuestState)
    requires s.level != 0
    ensures LoadState(before, SaveQuests(data, s)) == s
  {
  }

  /** A saved level of 0 reads back as 1, through the `|| 1` fallback. */
  lemma SavedLevelZero(data: map<string, Stored>, s: QuestState, before: QuestState)
    requires s.level == 0
    ensures LoadState(before, SaveQuests(data, s)) == s.(level := 1)
  {
  }

  /** The store and its persistence together. */
  datatype World = World(state: QuestState, data: map<string, Stored>)

  /** `generateDailyQuests` on `today`, at time `now`: nothing happens when
      the stored marker is already `today`; otherwise the daily quest is
      replaced, the marker set and the store saved. */
  function GenerateDaily(w: World, today: string, now: Time): (r: World)
    ensures Get(w.data, LastGenerationKey) == Some(DateMarker(today)) ==> r == w
    ensures Get(r.data, LastGenerationKey) == Some(DateMarker(today))
    ensures Get(w.data, LastGenerationKey) != Some(DateMarker(today)) ==>
      r.state == w.state.(quests := ReplaceDaily(w.state.quests, DailyQuest(now)))
    ensures Get(w.data, LastGenerationKey) != Some(DateMarker(today)) ==>
      r.data == SaveQuests(w.data[LastGenerationKey := DateMarker(today)], r.state)
  {
    if Get(w.data, LastGenerationKey) == Some(DateMarker(today)) then w
    else
      var s := w.state.(quests := ReplaceDaily(w.state.quests, DailyQuest(now)));
      World(s, SaveQuests(w.data[LastGenerationKey := DateMarker(today)], s))
  }

  /** A second generation on the same day, at whatever time, is a no-op. */
  lemma GenerateTwiceSameDay(w: World, today: string, now1: Time, now2: Time)
    ensures GenerateDaily(GenerateDaily(w, today, now1), today, now2) == GenerateDaily(w, today, now1)
  {
  }

  // ----------------------------------------------------------------- store

  class QuestStore {
    var quests: seq<Quest>
    var companion: Companion
    var playerScore: int
    var level: int
    const storage: LocalStorage

    function State(): QuestState
      reads this
    {
      QuestState(quests, companion, playerScore, level)
    }

    constructor(storage: LocalStorage, now: Time)
      ensures this.storage == storage && State() == InitialState(now)
    {
      this.storage := storage;
      quests := InitialQuests;
      companion := Companion(Happy, 100, now, 0);
      playerScore := 0;
      level := 1;
    }

    method CompleteQuest(id: Id)
      modifies this, storage
      ensures State() == CompleteQuestState(old(State()), id)
      ensures storage.data == SaveQuests(old(storage.data), State())
    {
      var quest := FindQuest(quests, id);
      quests := MarkCompleted(quests, id);
      if quest.Some? {
        playerScore := playerScore + quest.value.reward;
      }
      CheckLevelUp();
      UpdateCompanionMood(Excited);
      SaveToStorage();
    }

    method UpdateQuestProgress(id: Id, progress: int)
      modifies this, storage
      ensures State() == UpdateProgressState(old(State()), id, progress)
      ensures storage.data == SaveQuests(old(storage.data), State())
    {
      quests := SetProgress(quests, id, progress);
      var quest := FindQuest(quests, id);
      if quest.Some? && quest.value.progress >= quest.value.target && !quest.value.completed {
        CompleteQuest(id);
      }
      SaveToStorage();
    }

    method GenerateDailyQuests(today: string, now: Time)
      modifies this, storage
      ensures World(State(), storage.data) == GenerateDaily(World(old(State()), old(storage.data)), today, now)
    {
      var stored := Get(storage.data, LastGenerationKey);
      if stored != Some(DateMarker(today)) {
        ghost var marked := storage.data[LastGenerationKey := DateMarker(today)];
        quests := ReplaceDaily(quests, DailyQuest(now));
        storage.Set(LastGenerationKey, DateMarker(today));
        SaveToStorage();
        assert storage.data == SaveQuests(marked, State());
      }
    }

    method UpdateCompanionMood(mood: Mood)
      modifies this
      ensures State() == old(State()).(companion := old(companion).(mood := mood))
    {
      companion := companion.(mood := mood);
    }

    method InteractWithCompanion(now: Time)
      modifies this, storage
      ensures State() == InteractState(old(State()), now)
      ensures storage.data == SaveQuests(old(storage.data), State())
    {
      companion := companion.(lastInteraction := now,
                              totalInteractions := companion.totalInteractions + 1,
                              energy := Min(100, companion.energy + 5));
      SaveToStorage();
    }

    method AddScore(points: int)
      modifies this, storage
      ensures State() == AddScoreState(old(State()), points)
      ensures storage.data == SaveQuests(old(storage.data), State())
    {
      playerScore := playerScore + points;
      CheckLevelUp();
      SaveToStorage();
    }

    method CheckLevelUp()
      modifies this
      ensures State() == CheckLevelUpState(old(State()))
    {
      var newLevel := playerScore / 100 + 1;
      if newLevel > level {
        level := newLevel;
        UpdateCompanionMood(Proud);
      }
    }

    method LoadFromStorage()
      modifies this
      ensures State() == LoadState(old(State()), storage.data)
    {
      var questData := Get(storage.data, QuestsKey);
      var companionData := Get(storage.data, CompanionKey);
      var scoreData := Get(storage.data, ScoreKey);
      if questData.Some? && questData.value.QuestsBlob? {
        quests := questData.value.quests;
      }
      if companionData.Some? && companionData.value.CompanionBlob? {
        companion := companionData.value.companion;
      }
      if scoreData.Some? && scoreData.value.ScoreBlob? {
        playerScore := OrElse(scoreData.value.score, 0);
        level := OrElse(scoreData.value.level, 1);
      }
    }

    method SaveToStorage()
      modifies storage
      ensures storage.data == SaveQuests(old(storage.data), State())
    {
      storage.Set(QuestsKey, QuestsBlob(quests));
      storage.Set(CompanionKey, CompanionBlob(companion));
      storage.Set(ScoreKey, ScoreBlob(Some(playerScore), Some(level)));
    }
  }
}
