# Progression store and keyword mastery of the coding-lessons app

This project models, in Dafny, the two pieces of state logic in the React Native
learning app:

- **The progression store** (`XPProvider` in `app/context/XPContext.tsx`). It holds
  the learner's `xp`, `level` and the ordered list `completedLessons`, and it
  changes them through `addXP` and `completeLesson`. `addXP` adds an amount and
  is meant to turn every full 100 XP into a level. Several levels can be gained
  in one call, and the remainder carries over as XP. As written, the level part
  survives only when React runs the XP update function at call time. It does
  that only when neither the provider's fiber nor its alternate has pending
  work. Otherwise the levels are lost. That is the usual case after the
  provider's first state change, and it always applies when `completeLesson`
  records a new lesson (see "## Findings"). `completeLesson` appends the lesson
  name if it is not already listed, then awards its XP (10 when the caller
  omits the amount).
- **The syntax practice screen** (`app/Components/screens/syntax.tsx`). It holds
  a table of nine keywords with a mastery percentage each. `practiceKeyword(i)`
  raises entry `i` by 10, capped at 100, and awards 5 XP through the store. A
  keyword whose mastery is at least 100 shows as completed.

`progression.dfy` (module `Progression`) states the store on values first:
datatype `Progress` with the functions `AddXP` and `CompleteLesson`, and the list
update `RecordLesson`. The lemmas prove these properties:

- the carry-over split into levels and XP is unique;
- `100*level + xp` rises by exactly the amount added;
- adding 0 changes nothing;
- two awards compose into one.

The mutable `ProgressStore` class then keeps the three fields, and each of its
methods is proved to move them exactly as the value functions say.
`syntax.dfy` (module `Syntax`) states one practice as the function `Practised`
on the keyword sequence, with lemmas about invariance and about repeated
practice. Class `SyntaxScreen` holds the keyword array and a reference to the
shared store. Its `PracticeKeyword` method updates one array element in place
and calls the store's `AddXP(5)`.

Behaviour of the code that the model keeps as written:

- **Completion is not idempotent.** `completeLesson` records a lesson once, but
  it calls `addXP` on every call (`XPContext.tsx:33-38`). Completing a lesson
  twice therefore awards its XP twice. `CompleteLessonTwice` and `CompleteTwice`
  prove this. The award is not made idempotent.
- **The default award is 10 XP** (`XPContext.tsx:33`).
- **`completedLessons` is an ordered list without duplicates**, not a set.
  New names are appended at the end.
- The learn cards look up completion by lesson **title** (`LearnCard.tsx:14`).
  The exercise screens record the lesson **id** (`exercise/[id].tsx:121`). The
  model's `IsCompleted` takes whatever name it is given. Whether titles and ids
  coincide depends on the lesson data, which is not part of this model.

## Model

| member | source | states |
|---|---|---|
| `Progression.Initial` | BasicImplementation/codeApp/app/context/XPContext.tsx:20-22 | a fresh state has xp 0, level 1 (total 100) and no completed lessons, and satisfies the store invariant |
| `Progression.ProgressStore.constructor` | BasicImplementation/codeApp/app/context/XPContext.tsx:20-22 | a new store has xp 0, level 1, an empty lesson list, and is valid |
| `Progression.Progress.AddXP` | BasicImplementation/codeApp/app/context/XPContext.tsx:24-31 | the new xp is below 100; `100*level + xp` rises by exactly the amount; the level never falls; lessons are untouched; the invariant (0 <= xp < 100, level >= 1, no duplicates) is preserved |
| `Progression.AddXPCharacterised` | BasicImplementation/codeApp/app/context/XPContext.tsx:26-29 | any state with the same lessons, xp below 100 and total raised by the amount is exactly the result of AddXP (the carry-over split is unique) |
| `Progression.AddXPCarryover` | BasicImplementation/codeApp/app/context/XPContext.tsx:26-28 | the level rises by floor((xp + amount) / 100) and xp becomes (xp + amount) mod 100 |
| `Progression.AddXPZero` | BasicImplementation/codeApp/app/context/XPContext.tsx:26-29 | adding 0 XP to a state whose xp is below 100 changes nothing |
| `Progression.AddXPCompose` | BasicImplementation/codeApp/app/context/XPContext.tsx:26-29 | addXP(a) followed by addXP(b) equals addXP(a + b) |
| `Progression.MultiLevelJump` | BasicImplementation/codeApp/app/context/XPContext.tsx:26-28 | 80 xp + 250 gives 3 levels and xp 30; 90 xp + 25 gives 1 level and xp 15 |
| `Progression.RecordLesson` | BasicImplementation/codeApp/app/context/XPContext.tsx:34-37 | the lesson is in the result; the result holds exactly the old names plus the lesson; the old list is kept as a prefix and grows by at most one; an already listed lesson leaves the list unchanged; a duplicate-free list stays duplicate-free |
| `Progression.Progress.CompleteLesson` | BasicImplementation/codeApp/app/context/XPContext.tsx:33-39 | the lessons become RecordLesson of the old list; the total rises by exactly the award whether or not the lesson was listed; the level never falls; the invariant is preserved |
| `Progression.CompleteLessonTwice` | BasicImplementation/codeApp/app/context/XPContext.tsx:33-38 | a second completion of the same lesson leaves the list unchanged but still adds the award: the total rises by 2n, and for n > 0 the state differs from after one call |
| `Progression.CompleteLessonThenAward` | BasicImplementation/codeApp/app/context/XPContext.tsx:33-38 | completing with n and then adding m XP equals completing with n + m |
| `Progression.ProgressStore.IsCompleted` | BasicImplementation/codeApp/app/Components/common/LearnCard.tsx:14 | true exactly when some entry of the completed list equals the name |
| `Progression.ProgressStore.AddXP` | BasicImplementation/codeApp/app/context/XPContext.tsx:24-31 | the new state is Progress.AddXP of the old; xp = (old xp + amount) mod 100; level = old level + floor((old xp + amount) / 100); lessons unchanged; the store stays valid |
| `Progression.ProgressStore.CompleteLesson` | BasicImplementation/codeApp/app/context/XPContext.tsx:33-39 | the new state is Progress.CompleteLesson of the old; an already completed lesson leaves the list unchanged, otherwise it is appended at the end; the total rises by the award in both cases; the default award is 10; no lesson stops being completed |
| `Progression.CompleteTwice` | BasicImplementation/codeApp/app/context/XPContext.tsx:33-38 | two calls with the same lesson record it once and raise the total by 2n |
| `Progression.DefaultAwardOnFreshStore` | BasicImplementation/codeApp/app/context/XPContext.tsx:33 | completing a lesson on a fresh store with the amount omitted leaves xp 10, level 1 and the lesson as the only entry |
| `Syntax.InitialKeywords` | BasicImplementation/codeApp/app/Components/screens/syntax.tsx:9-19 | the initial table has 9 entries with distinct names, every mastery in [0, 100], and none completed |
| `Syntax.Practised` | BasicImplementation/codeApp/app/Components/screens/syntax.tsx:26-27 | same length; entry i keeps its name and its mastery rises by 10 or stops at 100, never falling; it is completed iff old mastery + 10 >= 100; every other entry is unchanged |
| `Syntax.PractisedInvariant` | BasicImplementation/codeApp/app/Components/screens/syntax.tsx:27 | a practice keeps every mastery in [0, 100] and the names distinct; no mastery decreases; completed keywords stay completed; practising a completed keyword changes nothing |
| `Syntax.PractisedTimesMastery` | BasicImplementation/codeApp/app/Components/screens/syntax.tsx:27 | after n practices of entry i, its mastery is min(m + 10n, 100); its name and every other entry are unchanged |
| `Syntax.PractiseToMastery` | BasicImplementation/codeApp/app/Components/screens/syntax.tsx:27 | once 10n >= 100 - m, n practices leave the keyword at mastery 100 and completed |
| `Syntax.SyntaxScreen.constructor` | BasicImplementation/codeApp/app/Components/screens/syntax.tsx:8-19 | a new screen holds a fresh array equal to the initial table and shares the given store |
| `Syntax.SyntaxScreen.IsCompleted` | BasicImplementation/codeApp/app/Components/screens/syntax.tsx:43 | a tile is completed iff its mastery is at least 100 |
| `Syntax.SyntaxScreen.PracticeKeyword` | BasicImplementation/codeApp/app/Components/screens/syntax.tsx:24-31 | the table becomes Practised of the old table: mastery[i] = min(old + 10, 100), with names, length and other entries unchanged and no mastery falling; the tile becomes completed iff old mastery + 10 >= 100, and completed tiles stay completed; the store receives addXP(5) even when the keyword was already at 100; the screen invariant is kept |
| `Progression.Progress.AddXPLevelDeferred` | BasicImplementation/codeApp/app/context/XPContext.tsx:25-29 | as written, when the XP update runs deferred: xp becomes the same remainder as AddXP gives, but the level does not change, because the queued level update reads the already reduced total |
| `Progression.Progress.CompleteLessonAsScheduled` | BasicImplementation/codeApp/app/context/XPContext.tsx:33-38 | as written: for a lesson already listed, the award is taken on the call-time path, which applies only when the provider has no other pending work, and the result is exactly the intended CompleteLesson; for a new lesson, the list and xp match CompleteLesson, but the level stays unchanged |
| `Progression.DeferredAwardLosesLevels` | BasicImplementation/codeApp/app/context/XPContext.tsx:27-28 | an award on the deferred path ends 100 points short of the intended total for each level threshold it crosses, and matches the intended result exactly when no threshold is crossed |
| `Progression.DeferredAwardCounterexample` | BasicImplementation/codeApp/app/context/XPContext.tsx:27-28 | from xp 95, level 1, a deferred addXP(10) ends at xp 5, level 1, where the intended result is xp 5, level 2 |
| `Progression.ScheduledCompletionLosesLevels` | BasicImplementation/codeApp/app/context/XPContext.tsx:27-28 | completing a new lesson as written ends 100 points short of the intended total for each level threshold the award crosses, and matches the intended result exactly when no threshold is crossed |
| `Progression.ScheduledCompletionCounterexample` | BasicImplementation/codeApp/app/context/XPContext.tsx:27-28 | from xp 95, level 1, completing a new lesson with the default 10 XP ends at xp 5, level 1 as written, where the intended result is xp 5, level 2 |
| `Syntax.PracticeOnFreshScreen` | BasicImplementation/codeApp/app/Components/screens/syntax.tsx:9-31 | practising "def" on a fresh screen and store gives mastery 20, xp 5, level 1 |

## Left out

- Negative and fractional XP amounts: amounts are `nat`. The exercise screen (`exercise/[id].tsx:135,161`) passes each exercise's `xp` field from the lesson data, which is typed `number` and is not part of this model. The model takes that field to be a non-negative whole number. The other callers pass the constants 5, 10, 15 or 0, or omit the amount and get the default 10. A negative amount would need JavaScript's `%`, which differs from Dafny's on negatives. A fractional amount would leave a fractional XP remainder, because `Math.floor` and `%` keep fractions.
- Number width: `xp`, `level` and `mastery` are unbounded integers. The app uses JavaScript doubles. Those are exact for whole-number XP and mastery below 2^53, provided the lesson data's `xp` fields are whole numbers, as assumed above.
- React state mechanics: `setLevel` is called inside the `setXP` update function (`XPContext.tsx:27`), and `addXP` is called from inside the `setKeywords` update function (`syntax.tsx:28`). `ProgressStore.AddXP` and `ProgressStore.CompleteLesson` apply each call as one atomic update with the full level gain, as the code evidently intends.
  - That is what happens only when React runs the XP update function at call time, which it does only when neither the provider's fiber nor its alternate has pending work.
  - On every other call the level gain is lost. After the provider's first state change, that is the usual path for the `addXP` calls from the exercise screens and from `syntax.tsx:28`.
  - `Progress.AddXPLevelDeferred` and `Progress.CompleteLessonAsScheduled` model the lossy path as values (see "## Findings").
  - The store class does not record which path a call takes. Batching and strict-mode double invocation of update functions are not modelled either.
- `Syntax.SyntaxScreen.PracticeKeyword`: the source copies the array and assigns one element's field, and that element is an object shared with the previous array. The model updates the array element in place and does not model the sharing.
- `Syntax.SyntaxScreen.PracticeKeyword` requires `index < keywords.Length`. The source does not check the index, which always comes from `keywords.indexOf(item)` for a shown tile.
- Rendering, styling and navigation: the lesson list, the cards, the keyword tiles and both layouts.
- The XP bar width (`XPBar.tsx:11`) and the tile width (`syntax.tsx:22`) are floating-point layout arithmetic.
- The lesson content (`data/lessons.json`) is external data and is not part of this model.
- The exercise screens (`exercise/[id].tsx`, `exercise/[exercise].tsx`) are not part of this model. They hold answer checking, the attempt lock and the walk through a lesson's exercises, and they reach the store only through the `addXP` and `completeLesson` calls modelled here.

## Findings

| source | as written | input that shows it | evidently intended | confidence | as-written member | corrected member |
|---|---|---|---|---|---|---|
| BasicImplementation/codeApp/app/context/XPContext.tsx:24-31 | The level update is queued from inside the XP update function and reads the local `totalXP`, which line 28 reduces to `totalXP % 100`. React runs the XP update function at call time only when neither the provider's fiber nor its alternate has pending work. Otherwise it runs the function during the next render, and the queued level update runs after line 28 and adds `floor((total % 100) / 100) = 0`. After the provider's first state change, this is the usual path for a plain `addXP`. | xp 95, level 1, `addXP(10)` for a correct answer gives xp 5, level 1 | xp 5, level 2: the level rises by `floor((xp + amount) / 100)` and `100*level + xp` rises by exactly the award | medium, not executed; it depends on how React schedules a state update made inside another update function | `Progression.DeferredAwardCounterexample` | `Progression.Progress.AddXP` |
| BasicImplementation/codeApp/app/context/XPContext.tsx:24-38 | The level update is queued from inside the XP update function. It reads the local `totalXP`, and line 28 has already reduced that to `totalXP % 100`. When `completeLesson` records a new lesson, the list update is already waiting, so React runs the XP update during the next render. The queued level update then runs after line 28 and adds `floor((total % 100) / 100) = 0`. | xp 95, level 1, `completeLesson("L1")` with the default 10 XP gives xp 5, level 1 | xp 5, level 2: the level rises by `floor((xp + amount) / 100)` and `100*level + xp` rises by exactly the award | medium, not executed; it depends on how React schedules a state update made inside another update function | `Progression.ScheduledCompletionCounterexample` | `Progression.Progress.CompleteLesson` |
