/**
 Client runs of the tracker: sequences of user actions and what the handlers'
 contracts let a caller conclude about the resulting state.
 */
module Scenarios {
  import opened Wrappers
  import opened WorkoutModel
  import opened Tracker

  /** The user types the four fields of the form, one after another. */
  method TypeForm(t: WorkoutTracker, name: string, sets: string, reps: string, weight: string)
    modifies t`newExercise
    ensures t.newExercise == ExerciseForm(name, sets, reps, weight)
  {
    t.UpdateFormField(NameField, name);
    t.UpdateFormField(SetsField, sets);
    t.UpdateFormField(RepsField, reps);
    t.UpdateFormField(WeightField, weight);
  }

  /**
   Start a workout, add Squat (4 x 10 at 135) and Plank (3 x 1, no weight),
   and finish: one history entry holding both exercises in order, inactive,
   stamped, and no workout in progress.
   */
  method SquatPlankSession(nums: Numerics) returns (history: seq<Workout>, current: Option<Workout>)
    ensures current == None
    ensures |history| == 1
    ensures history[0].id == 1 && !history[0].isActive
    ensures history[0].endTime == Some("10:45") && history[0].duration == Some("45 min")
    ensures history[0].exercises == [
      Exercise(2, "Squat", nums.parseInt("4"), nums.parseInt("10"), Some(nums.parseFloat("135"))),
      Exercise(3, "Plank", nums.parseInt("3"), nums.parseInt("1"), None)]
  {
    var t := new WorkoutTracker(nums);
    t.StartWorkout(1, "10/14/2026", "10:00");

    t.OpenExerciseForm();
    TypeForm(t, "Squat", "4", "10", "135");
    var added := t.AddExercise(2);
    assert added == Done;

    t.OpenExerciseForm();
    TypeForm(t, "Plank", "3", "1", "");
    added := t.AddExercise(3);
    assert added == Done;

    var finished := t.FinishWorkout("10:45");
    assert finished == Done;
    history, current := t.workouts, t.currentWorkout;
  }

  /** Finishing a workout without exercises alerts; the workout stays active and the history empty. */
  method FinishEmptySession(nums: Numerics) returns (outcome: Outcome, history: seq<Workout>, current: Option<Workout>)
    ensures outcome == Alerted(FINISH_EMPTY_MESSAGE)
    ensures history == []
    ensures current == Some(Workout(7, "10/14/2026", "18:00", [], true, None, None))
  {
    var t := new WorkoutTracker(nums);
    t.StartWorkout(7, "10/14/2026", "18:00");
    outcome := t.FinishWorkout("18:05");
    history, current := t.workouts, t.currentWorkout;
  }

  /**
   The submit guard only tests for empty fields: non-numeric sets text is
   accepted and handed to `parseInt` as it is.
   */
  method NonNumericSetsAccepted(nums: Numerics) returns (outcome: Outcome, exercises: seq<Exercise>)
    ensures outcome == Done
    ensures exercises == [Exercise(5, "Push-ups", nums.parseInt("abc"), nums.parseInt("12"), None)]
  {
    var t := new WorkoutTracker(nums);
    t.StartWorkout(4, "10/14/2026", "07:30");
    t.OpenExerciseForm();
    TypeForm(t, "Push-ups", "abc", "12", "");
    outcome := t.AddExercise(5);
    exercises := t.CurrentExercises();
  }

  /** Editing an exercise to new values keeps its identifier and its position. */
  method EditKeepsPosition(nums: Numerics) returns (exercises: seq<Exercise>)
    ensures |exercises| == 2
    ensures exercises[0] == Exercise(10, "Lunge", nums.parseInt("2"), nums.parseInt("8"), None)
    ensures exercises[1] == Exercise(11, "Row", nums.parseInt("5"), nums.parseInt("5"), None)
  {
    var t := new WorkoutTracker(nums);
    t.StartWorkout(9, "10/14/2026", "12:00");
    TypeForm(t, "Squat", "4", "10", "");
    var o := t.AddExercise(10);
    var squat := Exercise(10, "Squat", nums.parseInt("4"), nums.parseInt("10"), None);
    assert t.CurrentExercises() == [squat];

    TypeForm(t, "Row", "5", "5", "");
    o := t.AddExercise(11);
    var row := Exercise(11, "Row", nums.parseInt("5"), nums.parseInt("5"), None);
    assert t.CurrentExercises() == [squat, row];

    t.EditExercise(squat);
    TypeForm(t, "Lunge", "2", "8", "");
    o := t.AddExercise(12);
    exercises := t.CurrentExercises();
  }
}
