# Workout tracker state machine in Dafny

A Dafny model of the state and handlers of the `WorkoutTracker` screen of a
React Native workout log. A user starts a workout, adds, edits and deletes
exercises through a form, finishes the workout into a history (most recent
first), and deletes history entries after confirming.

Files:

- `wrappers.dfy`, module `Wrappers`: `Option`, for the application's `null`.
- `keyed_seq.dfy`, module `KeyedSeq`: sequences of records with an integer
  `id`. `RemoveKey` is the `filter(x => x.id !== k)` used by both delete
  handlers. The lemmas cover membership, order, idempotence and unique ids.
- `workout_model.dfy`, module `WorkoutModel`: the `Exercise` and `Workout`
  records, the four-string form buffer, the submit guard, conversion between
  form and exercise, the in-place edit `ReplaceById`, and the constant duration.
- `tracker.dfy`, module `Tracker`: class `WorkoutTracker`. Its fields are the
  component's state (`workouts`, `activeTab`, `currentWorkout`,
  `showAddExercise`, `editingExercise`, `newExercise`). There is one method per
  handler. Every method states the whole new state in terms of the old one.
  `Valid()` is the invariant all of them keep: the current workout is active,
  and every history entry is finished and has at least one exercise.
- `scenarios.dfy`, module `Scenarios`: client methods that run sequences of
  handlers and state the resulting state.

Inputs from outside the component are parameters:

- Ids from `Date.now()` are `id`/`freshId` arguments.
- `toLocaleDateString`/`toLocaleTimeString` results are opaque `string` arguments.
- The delete confirmation dialog is a `confirmed: bool` argument.
- The error alerts are a returned `Outcome.Alerted(message)` with the source's
  message texts. The state is left unchanged.
- `parseInt`, `parseFloat` and `Number.prototype.toString` are the abstract
  total functions of a `Numerics` record. The tracker holds it as a constant.

The model follows the code as written, including where it is lax:

- The submit guard only rejects empty name, sets or reps. Non-numeric text
  such as `"abc"` is accepted and passed to `parseInt` (`NonNumericSetsAccepted`).
- The "Add Exercise" button only shows the form. It neither clears the buffer
  nor the edit target.
- Starting a workout replaces one in progress without any check.
- The duration is always `'45 min'`.
- Editing takes the exercise object. There is no not-found error.
- Adding or deleting an exercise with no current workout would fail in the
  source by dereferencing `null`. This is a precondition here. For
  `AddExercise` it only applies when the guard passes, because the guard
  returns before the dereference.

Editing has one quirk: a weight of `0` is falsy. An exercise with weight 0 is
therefore opened with an empty weight field, and an untouched submit turns it
into a bodyweight exercise (`EditDropsZeroWeight`).

## Model

| member | source | states |
|---|---|---|
| `KeyedSeq.RemoveKeyMembership` | App.tsx:177-182 | an element is in the filtered list exactly when it was in the list and its id differs from the deleted one |
| `KeyedSeq.RemoveKeyRemovesAll` | App.tsx:180 | after the filter no element carries the deleted id |
| `KeyedSeq.RemoveKeyConcat` | App.tsx:216 | filtering distributes over concatenation, so the survivors keep their relative order |
| `KeyedSeq.RemoveKeyAbsent` | App.tsx:180 | deleting an id that no element carries leaves the list unchanged |
| `KeyedSeq.RemoveKeyIdempotent` | App.tsx:207-219 | deleting the same id twice gives the same list as deleting it once |
| `KeyedSeq.RemoveKeyKeepsUnique` | App.tsx:177-182 | deletion keeps ids unique |
| `KeyedSeq.RemoveKeyUniquePresent` | App.tsx:216 | with unique ids, deleting a present id shortens the list by exactly one |
| `KeyedSeq.AppendFreshKeepsUnique` | App.tsx:156-159 | appending an exercise with an id not yet used keeps ids unique |
| `WorkoutModel.WithField` | App.tsx:45-84 | typing into one form field sets that field to the text and leaves the other three fields unchanged |
| `WorkoutModel.EmptyWeightGivesNull` | App.tsx:139-145 | the built exercise has null weight exactly when the weight text is empty, and the parsed weight otherwise |
| `WorkoutModel.EditRoundTrip` | App.tsx:166-175 | loading an exercise into the form passes the submit guard, and rebuilding from the untouched form gives the same exercise, when number printing and parsing invert each other and the weight is absent or non-zero |
| `WorkoutModel.EditDropsZeroWeight` | App.tsx:172 | a zero weight is shown as an empty field, so an untouched submit gives null weight |
| `WorkoutModel.ReplaceById` | App.tsx:147-153 | same length; every exercise with the target id takes the new fields and keeps its id; every other exercise stays in its position |
| `WorkoutModel.ReplaceByIdKeepsIds` | App.tsx:150-152 | editing leaves the sequence of ids unchanged |
| `WorkoutModel.ReplaceByIdAbsent` | App.tsx:150-152 | editing an id that no exercise carries changes nothing |
| `WorkoutModel.ReplaceByIdKeepsUnique` | App.tsx:147-153 | editing keeps ids unique |
| `Tracker.WorkoutTracker.constructor` | App.tsx:108-119 | empty history, today tab, no workout, hidden form, no edit target, empty buffer |
| `Tracker.WorkoutTracker.StartWorkout` | App.tsx:121-131 | the current workout becomes a new active one with no exercises, replacing any previous one; the today tab is shown; nothing else changes |
| `Tracker.WorkoutTracker.OpenExerciseForm` | App.tsx:292-293 | only shows the form; the buffer and the edit target are untouched |
| `Tracker.WorkoutTracker.UpdateFormField` | App.tsx:45-84 | the buffer gets the typed text in one field |
| `Tracker.WorkoutTracker.CloseExerciseForm` | App.tsx:30-35 | hides the form, clears the edit target and empties the buffer; the exercises are untouched |
| `Tracker.WorkoutTracker.AddExercise` | App.tsx:133-164 | with an empty name, sets or reps: alert and no state change. Otherwise: append the built exercise (length +1), or with an edit target replace in place keeping ids; then buffer empty, no edit target, form hidden; unique ids are kept when the new id is fresh |
| `Tracker.WorkoutTracker.EditExercise` | App.tsx:166-175 | the edit target is the exercise, the buffer holds its fields as text, the form is shown |
| `Tracker.WorkoutTracker.DeleteExercise` | App.tsx:177-182 | the current workout's exercises are filtered by id; none with that id remains; a second delete is a no-op; unique ids are kept |
| `Tracker.WorkoutTracker.FinishWorkout` | App.tsx:184-205 | with no workout or no exercises: alert and no state change. Otherwise the history is the finished workout (same id and exercises, inactive, end time set, duration '45 min') followed by the old history; no current workout; history tab shown |
| `Tracker.WorkoutTracker.DeleteWorkout` | App.tsx:207-220 | with confirmation the history is filtered by id, and a second delete is a no-op; without confirmation nothing changes |
| `Scenarios.SquatPlankSession` | App.tsx:121-205 | start, add two exercises and finish: one history entry with both exercises in order, inactive, stamped, and no current workout |
| `Scenarios.FinishEmptySession` | App.tsx:184-188 | finishing an empty workout alerts; history stays empty and the workout stays active |
| `Scenarios.NonNumericSetsAccepted` | App.tsx:134-145 | sets text "abc" passes the guard and is stored as parseInt("abc") |
| `Scenarios.EditKeepsPosition` | App.tsx:147-153 | editing the first of two exercises changes its fields, keeps its id and position, and leaves the second as it was |

## Left out

- Rendering, styles, icons and the `TodayTab`/`HistoryTab` views are presentation. The tab buttons (App.tsx:392-428) are not modelled. `activeTab` is kept only because the start and finish handlers set it.
- The `Alert.alert` dialogs belong to the UI. Errors are the returned `Outcome`; the delete confirmation is a boolean argument.
- `Date.now()` and the locale date and time formatting read the clock. They are parameters. `finishWorkout` reads the time twice; the second reading only feeds `calculateDuration`, which ignores it, so one `endTime` stands for both.
- `parseInt`, `parseFloat` and `toString` are left abstract: JavaScript number parsing, floating point and NaN are not modelled. Weights are `real` and sets and reps are `int`. Weight truthiness is "present and non-zero".
- React's asynchronous batching of state updates is not modelled: each handler is one atomic transition.
- The initial `undefined` current workout and `null` are both `None`.
