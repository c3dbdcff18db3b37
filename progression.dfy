// The progression store of the learning app: experience points (XP), the
// level they convert into, and the ordered list of completed lessons.
//
// The first half states the store's behaviour on values (datatype Progress
// with its members AddXP and CompleteLesson, and the list update
// RecordLesson); the second half is the mutable store itself (class
// ProgressStore), whose methods are proved to move its fields exactly as
// those functions say.

module Progression {

  /** XP needed for one level; XP beyond a multiple of this carries over. */
  const XpPerLevel: nat := 100

  /** The award completeLesson makes when its caller omits the amount. */
  const DefaultLessonXp: nat := 10

  /** No lesson name occurs twice in the list. */
  predicate NoDuplicates(s: seq<string>)
  {
    forall i, j :: 0 <= i < j < |s| ==> s[i] != s[j]
  }

  /** The list completeLesson keeps: the lesson is appended only when absent. */
  function RecordLesson(lessons: seq<string>, lesson: string): (r: seq<string>)
    ensures lesson in r
    ensures forall x :: x in r <==> x in lessons || x == lesson
    ensures |lessons| <= |r| <= |lessons| + 1 && r[..|lessons|] == lessons
    ensures lesson in lessons ==> r == lessons
    ensures NoDuplicates(lessons) ==> NoDuplicates(r)
  {
    if lesson in lessons then lessons else lessons + [lesson]
  }

  /** A snapshot of the store: the three pieces of state it holds. */
  datatype Progress = Progress(xp: nat, level: nat, completedLessons: seq<string>)
  {
    /** The store's invariant: XP is a carry-over remainder, levels start at 1,
        and no lesson is listed twice. */
    predicate Valid()
    {
      xp < XpPerLevel && level >= 1 && NoDuplicates(completedLessons)
    }

    /** All XP ever earned, counting each level as XpPerLevel points. */
    function Total(): int
    {
      XpPerLevel * level + xp
    }

    /** addXP: add the amount, turn every full XpPerLevel points into a level
        and keep the remainder as XP; several levels may be gained at once. */
    function AddXP(amount: nat): (r: Progress)
      ensures r.xp < XpPerLevel
      ensures r.Total() == Total() + amount
      ensures r.level >= level
      ensures r.completedLessons == completedLessons
      ensures Valid() ==> r.Valid()
    {
      var total := xp + amount;
      Progress(total % XpPerLevel, level + total / XpPerLevel, completedLessons)
    }

    /** completeLesson: record the lesson, then award the XP, whether or not
        the lesson had been recorded before. */
    function CompleteLesson(lesson: string, xpAmount: nat): (r: Progress)
      ensures r.completedLessons == RecordLesson(completedLessons, lesson)
      ensures r.Total() == Total() + xpAmount && r.xp < XpPerLevel
      ensures r.level >= level
      ensures Valid() ==> r.Valid()
    {
      this.(completedLessons := RecordLesson(completedLessons, lesson)).AddXP(xpAmount)
    }

    /** addXP as it behaves when React does not run the XP update function at
        call time (it does so only when neither the provider's fiber nor its
        alternate has pending work): the update function then runs during the
        next render, the level update it queues runs after it, and by then the
        captured total has already been reduced modulo XpPerLevel. */
    function AddXPLevelDeferred(amount: nat): (r: Progress)
      ensures r.xp == AddXP(amount).xp
      ensures r.level == level && r.completedLessons == completedLessons
    {
      var total := xp + amount;
      var reduced := total % XpPerLevel;
      Progress(reduced, level + reduced / XpPerLevel, completedLessons)
    }

    /** completeLesson as written: appending a new lesson queues a list
        update first, so the XP award that follows always takes the deferred
        path; for a lesson already listed the list update changes nothing, and
        the award is applied at once only if the provider has no other
        pending work. After the provider's first state change that is the
        unusual case: usually AddXPLevelDeferred applies to a listed lesson
        too, so this branch is not the typical result of a repeated
        completion. */
    function CompleteLessonAsScheduled(lesson: string, xpAmount: nat): (r: Progress)
      ensures lesson in completedLessons ==> r == CompleteLesson(lesson, xpAmount)
      ensures r.completedLessons == CompleteLesson(lesson, xpAmount).completedLessons
      ensures r.xp == CompleteLesson(lesson, xpAmount).xp
      ensures lesson !in completedLessons ==> r.level == level
    {
      if lesson in completedLessons then AddXP(xpAmount)
      else this.(completedLessons := completedLessons + [lesson]).AddXPLevelDeferred(xpAmount)
    }
  }

  /** The state a fresh store starts in. */
  function Initial(): (p: Progress)
    ensures p.Valid() && p.Total() == XpPerLevel && p.completedLessons == []
  {
    Progress(0, 1, [])
  }

  /** Two states with the same total and an in-range XP agree on XP and level:
      the carry-over split of a total into levels and XP is unique. */
  lemma {:induction false} SplitUnique(l1: int, x1: int, l2: int, x2: int)
    requires 0 <= x1 < XpPerLevel && 0 <= x2 < XpPerLevel
    requires XpPerLevel * l1 + x1 == XpPerLevel * l2 + x2
    ensures l1 == l2 && x1 == x2
  {
  }

  /** AddXP is the only way to add an amount while keeping XP below
      XpPerLevel and leaving the lessons alone. */
  lemma {:induction false} AddXPCharacterised(p: Progress, amount: nat, q: Progress)
    requires q.xp < XpPerLevel && q.completedLessons == p.completedLessons
    requires q.Total() == p.Total() + amount
    ensures q == p.AddXP(amount)
  {
    var r := p.AddXP(amount);
    SplitUnique(q.level, q.xp, r.level, r.xp);
  }

  /** The carry-over arithmetic spelled out: the level rises by
      floor((xp + amount) / 100) and XP becomes (xp + amount) mod 100. */
  lemma {:induction false} AddXPCarryover(p: Progress, amount: nat)
    ensures p.AddXP(amount).level - p.level == (p.xp + amount) / XpPerLevel
    ensures p.AddXP(amount).xp == (p.xp + amount) % XpPerLevel
  {
    var q := Progress((p.xp + amount) % XpPerLevel, p.level + (p.xp + amount) / XpPerLevel, p.completedLessons);
    AddXPCharacterised(p, amount, q);
  }

  /** Adding nothing changes nothing, once XP is a proper remainder. */
  lemma {:induction false} AddXPZero(p: Progress)
    requires p.xp < XpPerLevel
    ensures p.AddXP(0) == p
  {
    AddXPCharacterised(p, 0, p);
  }

  /** Two awards in a row equal one award of their sum. */
  lemma {:induction false} AddXPCompose(p: Progress, a: nat, b: nat)
    ensures p.AddXP(a).AddXP(b) == p.AddXP(a + b)
  {
    AddXPCharacterised(p, a + b, p.AddXP(a).AddXP(b));
  }

  /** Awards that cross one or several level thresholds at once. */
  lemma MultiLevelJump()
    ensures Progress(80, 1, []).AddXP(250) == Progress(30, 4, [])
    ensures Progress(90, 1, []).AddXP(25) == Progress(15, 2, [])
  {
  }

  /** Completing a lesson a second time leaves the list as it is but awards
      the XP again: completion is not idempotent. */
  lemma {:induction false} CompleteLessonTwice(p: Progress, lesson: string, n: nat)
    ensures p.CompleteLesson(lesson, n).CompleteLesson(lesson, n).completedLessons
         == p.CompleteLesson(lesson, n).completedLessons
    ensures p.CompleteLesson(lesson, n).CompleteLesson(lesson, n)
         == p.CompleteLesson(lesson, n).AddXP(n)
    ensures p.CompleteLesson(lesson, n).CompleteLesson(lesson, n).Total() == p.Total() + 2 * n
    ensures n > 0 ==> p.CompleteLesson(lesson, n).CompleteLesson(lesson, n) != p.CompleteLesson(lesson, n)
  {
    var once := p.CompleteLesson(lesson, n);
    assert once.(completedLessons := RecordLesson(once.completedLessons, lesson)) == once;
  }

  /** Completing a lesson and then awarding more XP is one completion with
      the sum of the awards. */
  lemma {:induction false} CompleteLessonThenAward(p: Progress, lesson: string, n: nat, m: nat)
    ensures p.CompleteLesson(lesson, n).AddXP(m) == p.CompleteLesson(lesson, n + m)
  {
    AddXPCompose(p.(completedLessons := RecordLesson(p.completedLessons, lesson)), n, m);
  }

  /** Completing a new lesson as written loses every level the award should
      have produced: the total falls short of the intended one by XpPerLevel
      for each threshold crossed, and agrees with it when none is crossed. */
  lemma {:induction false} ScheduledCompletionLosesLevels(p: Progress, lesson: string, n: nat)
    requires lesson !in p.completedLessons
    ensures p.CompleteLessonAsScheduled(lesson, n).Total()
         == p.CompleteLesson(lesson, n).Total() - XpPerLevel * ((p.xp + n) / XpPerLevel)
    ensures p.xp + n < XpPerLevel ==> p.CompleteLessonAsScheduled(lesson, n) == p.CompleteLesson(lesson, n)
  {
    var recorded := p.(completedLessons := RecordLesson(p.completedLessons, lesson));
    AddXPCarryover(recorded, n);
  }

  /** Any deferred award loses every level it should have produced: the total
      falls short by XpPerLevel for each threshold crossed. */
  lemma {:induction false} DeferredAwardLosesLevels(p: Progress, amount: nat)
    ensures p.AddXPLevelDeferred(amount).Total()
         == p.AddXP(amount).Total() - XpPerLevel * ((p.xp + amount) / XpPerLevel)
    ensures p.xp + amount < XpPerLevel ==> p.AddXPLevelDeferred(amount) == p.AddXP(amount)
  {
    AddXPCarryover(p, amount);
  }

  /** A plain award on the deferred path: 95 XP at level 1 plus a 10 XP answer
      ends at 5 XP and level 1, where the intended result is 5 XP and level 2. */
  lemma DeferredAwardCounterexample()
    ensures Progress(95, 1, []).AddXPLevelDeferred(10) == Progress(5, 1, [])
    ensures Progress(95, 1, []).AddXP(10) == Progress(5, 2, [])
  {
  }

  /** The input that shows it: 95 XP at level 1 and a new lesson completed with
      the default award ends at 5 XP and level 1 as written, where the intended
      result is 5 XP and level 2. */
  lemma ScheduledCompletionCounterexample()
    ensures Progress(95, 1, []).CompleteLessonAsScheduled("L1", DefaultLessonXp) == Progress(5, 1, ["L1"])
    ensures Progress(95, 1, []).CompleteLesson("L1", DefaultLessonXp) == Progress(5, 2, ["L1"])
  {
  }

  /** The mutable store held by the app's XP context provider. */
  class ProgressStore {
    var xp: nat
    var level: nat
    var completedLessons: seq<string>

    /** The store's current state as a value. */
    function State(): (p: Progress)
      reads this
    {
      Progress(xp, level, completedLessons)
    }

    ghost predicate Valid()
      reads this
    {
      State().Valid()
    }

    /** A fresh store: no XP, level 1, nothing completed. */
    constructor ()
      ensures Valid() && State() == Initial()
      ensures xp == 0 && level == 1 && completedLessons == []
    {
      xp := 0;
      level := 1;
      completedLessons := [];
    }

    /** Whether a lesson of this name has been completed; the learn cards
        ask this with the lesson's title. */
    function IsCompleted(name: string): (b: bool)
      reads this
      ensures b <==> exists i :: 0 <= i < |completedLessons| && completedLessons[i] == name
    {
      name in completedLessons
    }

    method AddXP(amount: nat)
      requires Valid()
      modifies this
      ensures Valid()
      ensures State() == old(State()).AddXP(amount)
      ensures xp == (old(xp) + amount) % XpPerLevel
      ensures level == old(level) + (old(xp) + amount) / XpPerLevel
      ensures completedLessons == old(completedLessons)
      ensures State().Total() == old(State()).Total() + amount
    {
      var totalXP := xp + amount;
      level := level + totalXP / XpPerLevel;
      xp := totalXP % XpPerLevel;
    }

    method CompleteLesson(lesson: string, xpAmount: nat := DefaultLessonXp)
      requires Valid()
      modifies this
      ensures Valid()
      ensures State() == old(State()).CompleteLesson(lesson, xpAmount)
      ensures old(IsCompleted(lesson)) ==> completedLessons == old(completedLessons)
      ensures !old(IsCompleted(lesson)) ==> completedLessons == old(completedLessons) + [lesson]
      ensures State().Total() == old(State()).Total() + xpAmount
      ensures forall name :: old(IsCompleted(name)) ==> IsCompleted(name)
    {
      if lesson !in completedLessons {
        completedLessons := completedLessons + [lesson];
      }
      AddXP(xpAmount);
    }
  }

  /** A lesson completed twice through the store: the list records it once,
      while both calls award their XP. */
  method CompleteTwice(store: ProgressStore, lesson: string, n: nat)
    requires store.Valid()
    modifies store
    ensures store.Valid()
    ensures store.IsCompleted(lesson)
    ensures store.completedLessons == RecordLesson(old(store.completedLessons), lesson)
    ensures store.State().Total() == old(store.State()).Total() + 2 * n
  {
    store.CompleteLesson(lesson, n);
    store.CompleteLesson(lesson, n);
  }

  /** A fresh store after completeLesson with the amount omitted: 10 XP. */
  method DefaultAwardOnFreshStore(lesson: string) returns (xp: nat, level: nat, lessons: seq<string>)
    ensures xp == DefaultLessonXp && level == 1 && lessons == [lesson]
  {
    var store := new ProgressStore();
    store.CompleteLesson(lesson);
    xp, level, lessons := store.xp, store.level, store.completedLessons;
  }
}
