/** The quest screen (client/src/components/QuestSystem.tsx): the active,
    completed and locked lists it derives from the quest store, the claim
    button, the progress towards the next level, and the mount effect that
    loads the store before generating the daily quest. */
module QuestSystem {
  import opened Base
  import opened Types
  import opened Storage
  import opened Quests

  predicate IsActive(q: Quest) { q.unlocked && !q.completed }

  predicate IsCompleted(q: Quest) { q.completed }

  predicate IsLocked(q: Quest) { !q.unlocked }

  /** `quests.filter(q => q.unlocked && !q.completed)`. */
  function ActiveQuests(qs: seq<Quest>): (r: seq<Quest>)
    ensures forall q :: q in r <==> q in qs && q.unlocked && !q.completed
  {
    Filter(qs, IsActive)
  }

  /** `quests.filter(q => q.completed)`. */
  function CompletedQuests(qs: seq<Quest>): (r: seq<Quest>)
    ensures forall q :: q in r <==> q in qs && q.completed
  {
    Filter(qs, IsCompleted)
  }

  /** `quests.filter(q => !q.unlocked)`. */
  function LockedQuests(qs: seq<Quest>): (r: seq<Quest>)
    ensures forall q :: q in r <==> q in qs && !q.unlocked
  {
    Filter(qs, IsLocked)
  }

  /** `.slice(0, 3)` of the locked quests: the preview. */
  function LockedPreview(qs: seq<Quest>): (r: seq<Quest>)
    ensures |r| == Min(3, |LockedQuests(qs)|)
    ensures r <= LockedQuests(qs)
  {
    var locked := LockedQuests(qs);
    if |locked| <= 3 then locked else locked[..3]
  }

  /** No quest is both active and completed; every quest of the list shows
      as active, as completed, or among the locked ones. */
  lemma QuestListsPartition(qs: seq<Quest>)
    ensures forall q :: !(q in ActiveQuests(qs) && q in CompletedQuests(qs))
    ensures forall q :: q in qs ==> q in ActiveQuests(qs) || q in CompletedQuests(qs) || q in LockedQuests(qs)
    ensures forall q :: q in qs && q.unlocked ==> q in ActiveQuests(qs) || q in CompletedQuests(qs)
  {
  }

  /** The preview keeps list order: quests added after the first three
      locked ones never enter it. */
  lemma PreviewKeepsFirst(qs: seq<Quest>, more: seq<Quest>)
    requires |LockedQuests(qs)| >= 3
    ensures LockedPreview(qs + more) == LockedPreview(qs)
  {
    FilterAppend(qs, more, IsLocked);
  }

  /** The claim button of a quest: shown for an active quest whose progress
      reached its target. */
  predicate ClaimShown(q: Quest) {
    IsActive(q) && q.progress >= q.target
  }

  /** Claiming credits the quest's reward and takes every quest with its id
      off the active list. */
  lemma ClaimCredits(s: QuestState, q: Quest)
    requires FindQuest(s.quests, q.id) == Some(q) && ClaimShown(q)
    ensures CompleteQuestState(s, q.id).playerScore == s.playerScore + q.reward
    ensures forall p :: p in ActiveQuests(CompleteQuestState(s, q.id).quests) ==> p.id != q.id
  {
    var r := CompleteQuestState(s, q.id).quests;
    forall p | p in ActiveQuests(r)
      ensures p.id != q.id
    {
      var i :| 0 <= i < |r| && r[i] == p;
    }
  }

  /** A quest that `updateQuestProgress` brings to its target is completed on
      the spot, so the quest `find` returns for that id never shows a claim
      button afterwards. */
  lemma UpdatedQuestNotClaimable(s: QuestState, id: Id, progress: int)
    ensures var r := UpdateProgressState(s, id, progress);
      FindQuest(r.quests, id).Some? ==> !ClaimShown(FindQuest(r.quests, id).value)
  {
    var updated := s.(quests := SetProgress(s.quests, id, progress));
    FindAfterSetProgress(s.quests, id, progress);
    AutoCompleteIff(s, id, progress);
    var q := FindQuest(updated.quests, id);
    if q.Some? && q.value.progress >= q.value.target && !q.value.completed {
      FindAfterMark(updated.quests, id);
    }
  }

  /** `playerScore % 100`, the points towards the next level. */
  function LevelProgress(score: int): (p: int)
    ensures -100 < p < 100
    ensures score >= 0 ==> p >= 0
    ensures score < 0 ==> p <= 0
    ensures score == JsQuot(score, 100) * 100 + p
  {
    JsRem(score, 100)
  }

  /** For a score that is not negative, the level the score earns and the
      points shown towards the next one together give back the score. */
  lemma LevelProgressAgrees(score: int)
    requires score >= 0
    ensures 0 <= LevelProgress(score) < 100
    ensures (LevelFor(score) - 1) * 100 + LevelProgress(score) == score
  {
  }

  /** The mount effect: `loadFromStorage`, then `generateDailyQuests`. */
  method Mount(store: QuestStore, today: string, now: Time)
    modifies store, store.storage
    ensures World(store.State(), store.storage.data)
         == GenerateDaily(World(LoadState(old(store.State()), old(store.storage.data)), old(store.storage.data)), today, now)
  {
    store.LoadFromStorage();
    store.GenerateDailyQuests(today, now);
  }

  /** Reopening the screen on the day a state was saved restores that state
      exactly, whatever the store held in memory. */
  lemma MountRestoresSaved(before: QuestState, s: QuestState, data: map<string, Stored>, today: string, now: Time)
    requires s.level != 0 && Get(data, LastGenerationKey) == Some(DateMarker(today))
    ensures GenerateDaily(World(LoadState(before, SaveQuests(data, s)), SaveQuests(data, s)), today, now).state == s
  {
    SaveThenLoad(data, s, before);
  }
}
