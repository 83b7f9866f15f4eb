/**
 The records of the workout tracker (exercises, workouts, the text buffer of
 the exercise form) and the pure computations its handlers apply to them.
 */
module WorkoutModel {
  import opened Wrappers
  import opened KeyedSeq

  /**
   One movement of a workout. `weight` is `None` for a bodyweight exercise
   (`null` in the application). JavaScript numbers are modelled as `int` for
   the values `parseInt` produces and as `real` for weights; NaN is not modelled.
   */
  datatype Exercise = Exercise(id: int, name: string, sets: int, reps: int, weight: Option<real>)

  function ExerciseId(e: Exercise): int { e.id }

  /**
   One workout session. `endTime` and `duration` are absent (`None`) while the
   workout is active and are stamped when it is finished. Dates and times are
   the locale-formatted strings the application displays; their format is opaque here.
   */
  datatype Workout = Workout(
    id: int,
    date: string,
    startTime: string,
    exercises: seq<Exercise>,
    isActive: bool,
    endTime: Option<string>,
    duration: Option<string>)

  function WorkoutId(w: Workout): int { w.id }

  /** An active workout has no end time and no duration yet. */
  predicate IsActiveWorkout(w: Workout)
  {
    w.isActive && w.endTime.None? && w.duration.None?
  }

  /** A finished workout is inactive, stamped, and holds at least one exercise. */
  predicate IsFinishedWorkout(w: Workout)
  {
    !w.isActive && w.endTime.Some? && w.duration.Some? && |w.exercises| > 0
  }

  /**
   The number parsing and printing the handlers call into. They belong to the
   JavaScript runtime and are left abstract: `parseInt` (App.tsx:142-143),
   `parseFloat` (App.tsx:144) and `Number.prototype.toString` (App.tsx:170-172).
   */
  datatype Numerics = Numerics(
    parseInt: string -> int,
    parseFloat: string -> real,
    intToString: int -> string,
    realToString: real -> string)

  /** The four raw text fields of the exercise form. */
  datatype ExerciseForm = ExerciseForm(name: string, sets: string, reps: string, weight: string)

  const EMPTY_FORM := ExerciseForm("", "", "", "")

  datatype Field = NameField | SetsField | RepsField | WeightField

  function FieldOf(f: ExerciseForm, field: Field): string
  {
    match field
    case NameField => f.name
    case SetsField => f.sets
    case RepsField => f.reps
    case WeightField => f.weight
  }

  /** The form after the user types `text` into one field (`{ ...prev, field: text }`). */
  function WithField(f: ExerciseForm, field: Field, text: string): (r: ExerciseForm)
    ensures FieldOf(r, field) == text
    ensures forall other :: other != field ==> FieldOf(r, other) == FieldOf(f, other)
  {
    match field
    case NameField => f.(name := text)
    case SetsField => f.(sets := text)
    case RepsField => f.(reps := text)
    case WeightField => f.(weight := text)
  }

  /**
   The submit guard: name, sets and reps must be non-empty strings (the empty
   string is the only falsy string). Nothing checks that sets and reps are numeric.
   */
  predicate RequiredFilled(f: ExerciseForm)
  {
    f.name != "" && f.sets != "" && f.reps != ""
  }

  /** JavaScript truthiness of a weight (`number | null`); NaN is not modelled. */
  predicate WeightIsTruthy(w: Option<real>)
  {
    w.Some? && w.value != 0.0
  }

  /** The exercise a submit builds from the form, carrying identifier `id`. */
  function ExerciseFromForm(f: ExerciseForm, id: int, nums: Numerics): Exercise
  {
    Exercise(
      id,
      f.name,
      nums.parseInt(f.sets),
      nums.parseInt(f.reps),
      if f.weight != "" then Some(nums.parseFloat(f.weight)) else None)
  }

  /** The form contents loaded when an exercise is opened for editing. */
  function FormFromExercise(e: Exercise, nums: Numerics): ExerciseForm
  {
    ExerciseForm(
      e.name,
      nums.intToString(e.sets),
      nums.intToString(e.reps),
      if WeightIsTruthy(e.weight) then nums.realToString(e.weight.value) else "")
  }

  /** An empty weight field, and only an empty one, gives a bodyweight exercise. */
  lemma EmptyWeightGivesNull(f: ExerciseForm, id: int, nums: Numerics)
    ensures ExerciseFromForm(f, id, nums).weight.None? <==> f.weight == ""
    ensures f.weight != "" ==> ExerciseFromForm(f, id, nums).weight == Some(nums.parseFloat(f.weight))
  {
  }

  /**
   Opening an exercise for editing and submitting the form untouched gives the
   same exercise back, provided the runtime's printing and parsing invert each
   other on its numbers and its weight is absent or non-zero.
   */
  lemma EditRoundTrip(e: Exercise, nums: Numerics)
    requires e.name != ""
    requires nums.intToString(e.sets) != "" && nums.intToString(e.reps) != ""
    requires nums.parseInt(nums.intToString(e.sets)) == e.sets
    requires nums.parseInt(nums.intToString(e.reps)) == e.reps
    requires e.weight.Some? ==> e.weight.value != 0.0
    requires e.weight.Some? ==> nums.realToString(e.weight.value) != ""
    requires e.weight.Some? ==> nums.parseFloat(nums.realToString(e.weight.value)) == e.weight.value
    ensures RequiredFilled(FormFromExercise(e, nums))
    ensures ExerciseFromForm(FormFromExercise(e, nums), e.id, nums) == e
  {
  }

  /**
   A weight of zero is falsy, so editing shows an empty weight field and an
   untouched submit turns the exercise into a bodyweight one.
   */
  lemma EditDropsZeroWeight(e: Exercise, nums: Numerics)
    requires e.weight == Some(0.0)
    ensures FormFromExercise(e, nums).weight == ""
    ensures ExerciseFromForm(FormFromExercise(e, nums), e.id, nums).weight == None
  {
  }

  /**
   The edit-mode update `exercises.map(ex => ex.id === targetId ? { ...replacement, id: targetId } : ex)`:
   every exercise carrying `targetId` takes the replacement's fields and keeps
   its identifier and position; every other exercise stays where it was.
   */
  function ReplaceById(exs: seq<Exercise>, targetId: int, replacement: Exercise): (r: seq<Exercise>)
    ensures |r| == |exs|
    ensures forall i :: 0 <= i < |exs| && exs[i].id == targetId ==> r[i] == replacement.(id := targetId)
    ensures forall i :: 0 <= i < |exs| && exs[i].id != targetId ==> r[i] == exs[i]
  {
    if exs == [] then []
    else
      var head := if exs[0].id == targetId then replacement.(id := targetId) else exs[0];
      [head] + ReplaceById(exs[1..], targetId, replacement)
  }

  /** Editing leaves the sequence of identifiers as it was. */
  lemma ReplaceByIdKeepsIds(exs: seq<Exercise>, targetId: int, replacement: Exercise)
    ensures Keys(ReplaceById(exs, targetId, replacement), ExerciseId) == Keys(exs, ExerciseId)
  {
    var r := ReplaceById(exs, targetId, replacement);
    forall i | 0 <= i < |exs|
      ensures Keys(r, ExerciseId)[i] == Keys(exs, ExerciseId)[i]
    {
      assert ExerciseId(r[i]) == ExerciseId(exs[i]);
    }
  }

  /** Editing an identifier that no exercise carries changes nothing. */
  lemma ReplaceByIdAbsent(exs: seq<Exercise>, targetId: int, replacement: Exercise)
    requires targetId !in Keys(exs, ExerciseId)
    ensures ReplaceById(exs, targetId, replacement) == exs
  {
    var r := ReplaceById(exs, targetId, replacement);
    forall i | 0 <= i < |exs|
      ensures r[i] == exs[i]
    {
      assert Keys(exs, ExerciseId)[i] == ExerciseId(exs[i]);
    }
  }

  /** Editing keeps identifiers unique. */
  lemma ReplaceByIdKeepsUnique(exs: seq<Exercise>, targetId: int, replacement: Exercise)
    requires UniqueKeys(exs, ExerciseId)
    ensures UniqueKeys(ReplaceById(exs, targetId, replacement), ExerciseId)
  {
  }

  /** The placeholder duration computation: every workout lasts '45 min'. */
  function CalculateDuration(start: string, end: string): string
  {
    "45 min"
  }
}
