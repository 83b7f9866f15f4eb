/**
 The state of the `WorkoutTracker` screen and its handlers. Each handler is
 one atomic transition over the fields that the application keeps in React
 state; the presentation that reads these fields is not modelled.
 */
module Tracker {
  import opened Wrappers
  import opened KeyedSeq
  import opened WorkoutModel

  datatype Tab = Today | History

  /** What a handler reports: nothing, or the error alert it raises. */
  datatype Outcome = Done | Alerted(message: string)

  const FILL_REQUIRED_MESSAGE := "Please fill in all required fields"
  const FINISH_EMPTY_MESSAGE := "Add at least one exercise to finish workout"

  class WorkoutTracker {
    /** The runtime's number parsing and printing. */
    const numerics: Numerics

    /** Finished workouts, most recent first. */
    var workouts: seq<Workout>
    var activeTab: Tab
    /** The workout in progress, if any. */
    var currentWorkout: Option<Workout>
    /** Whether the exercise form is shown. */
    var showAddExercise: bool
    /** The exercise being edited; `None` means the form adds a new one. */
    var editingExercise: Option<Exercise>
    /** The text typed into the exercise form. */
    var newExercise: ExerciseForm

    /**
     The invariant every handler keeps: the current workout is active, and the
     history holds only finished workouts, each with at least one exercise.
     */
    ghost predicate Valid()
      reads this`currentWorkout, this`workouts
    {
      && (currentWorkout.Some? ==> IsActiveWorkout(currentWorkout.value))
      && forall w :: w in workouts ==> IsFinishedWorkout(w)
    }

    /** The exercises of the current workout, or none when there is no workout. */
    function CurrentExercises(): seq<Exercise>
      reads this`currentWorkout
    {
      if currentWorkout.Some? then currentWorkout.value.exercises else []
    }

    constructor (nums: Numerics)
      ensures Valid()
      ensures numerics == nums
      ensures workouts == [] && activeTab == Today && currentWorkout == None
      ensures !showAddExercise && editingExercise == None && newExercise == EMPTY_FORM
    {
      numerics := nums;
      workouts := [];
      activeTab := Today;
      currentWorkout := None;
      showAddExercise := false;
      editingExercise := None;
      newExercise := EMPTY_FORM;
    }

    /**
     Starts a new workout with identifier `id` (the clock reading) and the given
     date and time, replacing any workout in progress.
     */
    method StartWorkout(id: int, date: string, startTime: string)
      requires Valid()
      modifies this
      ensures Valid()
      ensures currentWorkout == Some(Workout(id, date, startTime, [], true, None, None))
      ensures CurrentExercises() == []
      ensures activeTab == Today
      ensures workouts == old(workouts) && showAddExercise == old(showAddExercise)
      ensures editingExercise == old(editingExercise) && newExercise == old(newExercise)
    {
      currentWorkout := Some(Workout(id, date, startTime, [], true, None, None));
      activeTab := Today;
    }

    /** The "Add Exercise" button: shows the form and nothing else. */
    method OpenExerciseForm()
      modifies this`showAddExercise
      ensures showAddExercise
    {
      showAddExercise := true;
    }

    /** The user types `text` into one field of the form. */
    method UpdateFormField(field: Field, text: string)
      modifies this`newExercise
      ensures newExercise == WithField(old(newExercise), field, text)
    {
      newExercise := WithField(newExercise, field, text);
    }

    /** The form's close button: hides the form and discards what was typed. */
    method CloseExerciseForm()
      modifies this`showAddExercise, this`editingExercise, this`newExercise
      ensures !showAddExercise && editingExercise == None && newExercise == EMPTY_FORM
    {
      showAddExercise := false;
      editingExercise := None;
      newExercise := EMPTY_FORM;
    }

    /**
     Submits the form. When name, sets or reps is empty, alerts and changes
     nothing. Otherwise builds an exercise from the form, appends it with
     identifier `freshId` (the clock reading) or, when an exercise is being
     edited, replaces every exercise with the edited identifier in place; then
     empties the form, clears the edit target and hides the form.
     */
    method AddExercise(freshId: int) returns (outcome: Outcome)
      requires Valid()
      requires RequiredFilled(newExercise) ==> currentWorkout.Some?
      modifies this
      ensures Valid()
      ensures outcome == if RequiredFilled(old(newExercise)) then Done else Alerted(FILL_REQUIRED_MESSAGE)
      ensures !RequiredFilled(old(newExercise)) ==> unchanged(this)
      ensures RequiredFilled(old(newExercise)) ==>
        var prev := old(currentWorkout).value;
        var exercise := ExerciseFromForm(old(newExercise), freshId, numerics);
        && currentWorkout == Some(prev.(exercises :=
             if old(editingExercise).Some? then ReplaceById(prev.exercises, old(editingExercise).value.id, exercise)
             else prev.exercises + [exercise]))
        && newExercise == EMPTY_FORM && editingExercise == None && !showAddExercise
        && workouts == old(workouts) && activeTab == old(activeTab)
      ensures RequiredFilled(old(newExercise)) && old(editingExercise).None? ==>
        |CurrentExercises()| == |old(CurrentExercises())| + 1
      ensures RequiredFilled(old(newExercise)) && old(editingExercise).Some? ==>
        Keys(CurrentExercises(), ExerciseId) == Keys(old(CurrentExercises()), ExerciseId)
      ensures RequiredFilled(old(newExercise)) && UniqueKeys(old(CurrentExercises()), ExerciseId)
              && (old(editingExercise).None? ==> freshId !in Keys(old(CurrentExercises()), ExerciseId)) ==>
        UniqueKeys(CurrentExercises(), ExerciseId)
    {
      if !RequiredFilled(newExercise) {
        return Alerted(FILL_REQUIRED_MESSAGE);
      }
      var exercise := ExerciseFromForm(newExercise, freshId, numerics);
      var prev := currentWorkout.value;
      if editingExercise.Some? {
        ReplaceByIdKeepsIds(prev.exercises, editingExercise.value.id, exercise);
        if UniqueKeys(prev.exercises, ExerciseId) {
          ReplaceByIdKeepsUnique(prev.exercises, editingExercise.value.id, exercise);
        }
        currentWorkout := Some(prev.(exercises := ReplaceById(prev.exercises, editingExercise.value.id, exercise)));
        editingExercise := None;
      } else {
        if UniqueKeys(prev.exercises, ExerciseId) && freshId !in Keys(prev.exercises, ExerciseId) {
          AppendFreshKeepsUnique(prev.exercises, ExerciseId, exercise);
        }
        currentWorkout := Some(prev.(exercises := prev.exercises + [exercise]));
      }
      newExercise := EMPTY_FORM;
      showAddExercise := false;
      outcome := Done;
    }

    /** Opens the form on `exercise`: loads its fields as text and makes it the edit target. */
    method EditExercise(exercise: Exercise)
      modifies this`editingExercise, this`newExercise, this`showAddExercise
      ensures editingExercise == Some(exercise)
      ensures newExercise == FormFromExercise(exercise, numerics)
      ensures showAddExercise
    {
      editingExercise := Some(exercise);
      newExercise := FormFromExercise(exercise, numerics);
      showAddExercise := true;
    }

    /** Removes every exercise with identifier `exerciseId` from the current workout. */
    method DeleteExercise(exerciseId: int)
      requires Valid()
      requires currentWorkout.Some?
      modifies this`currentWorkout
      ensures Valid()
      ensures currentWorkout == Some(old(currentWorkout).value.(exercises :=
                RemoveKey(old(currentWorkout).value.exercises, ExerciseId, exerciseId)))
      ensures exerciseId !in Keys(CurrentExercises(), ExerciseId)
      ensures RemoveKey(CurrentExercises(), ExerciseId, exerciseId) == CurrentExercises()
      ensures UniqueKeys(old(CurrentExercises()), ExerciseId) ==> UniqueKeys(CurrentExercises(), ExerciseId)
    {
      var prev := currentWorkout.value;
      RemoveKeyRemovesAll(prev.exercises, ExerciseId, exerciseId);
      RemoveKeyIdempotent(prev.exercises, ExerciseId, exerciseId);
      if UniqueKeys(prev.exercises, ExerciseId) {
        RemoveKeyKeepsUnique(prev.exercises, ExerciseId, exerciseId);
      }
      currentWorkout := Some(prev.(exercises := RemoveKey(prev.exercises, ExerciseId, exerciseId)));
    }

    /**
     Finishes the current workout at `endTime`. With no workout, or one without
     exercises, alerts and changes nothing. Otherwise the workout, made inactive
     and stamped with its end time and duration, goes to the front of the
     history, there is no current workout any more, and the history tab is shown.
     */
    method FinishWorkout(endTime: string) returns (outcome: Outcome)
      requires Valid()
      modifies this`workouts, this`currentWorkout, this`activeTab
      ensures Valid()
      ensures outcome == if old(currentWorkout).None? || |old(currentWorkout).value.exercises| == 0
                         then Alerted(FINISH_EMPTY_MESSAGE) else Done
      ensures outcome.Alerted? ==> unchanged(this)
      ensures outcome.Done? ==>
        var prev := old(currentWorkout).value;
        && workouts == [prev.(isActive := false, endTime := Some(endTime),
                              duration := Some(CalculateDuration(prev.startTime, endTime)))] + old(workouts)
        && currentWorkout == None && activeTab == History
      ensures outcome.Done? ==>
        && |workouts| == |old(workouts)| + 1 && workouts[1..] == old(workouts)
        && workouts[0].id == old(currentWorkout).value.id
        && workouts[0].exercises == old(currentWorkout).value.exercises
        && !workouts[0].isActive && workouts[0].endTime == Some(endTime)
        && workouts[0].duration == Some("45 min")
    {
      if currentWorkout.None? || |currentWorkout.value.exercises| == 0 {
        return Alerted(FINISH_EMPTY_MESSAGE);
      }
      var prev := currentWorkout.value;
      var finished := prev.(isActive := false, endTime := Some(endTime),
                            duration := Some(CalculateDuration(prev.startTime, endTime)));
      workouts := [finished] + workouts;
      currentWorkout := None;
      activeTab := History;
      outcome := Done;
    }

    /**
     Deletes workout `workoutId` from the history once the user has confirmed
     the prompt; every entry with that identifier goes, the rest keep their order.
     */
    method DeleteWorkout(workoutId: int, confirmed: bool)
      requires Valid()
      modifies this`workouts
      ensures Valid()
      ensures workouts == if confirmed then RemoveKey(old(workouts), WorkoutId, workoutId) else old(workouts)
      ensures confirmed ==> workoutId !in Keys(workouts, WorkoutId)
      ensures confirmed ==> RemoveKey(workouts, WorkoutId, workoutId) == workouts
    {
      if confirmed {
        forall w | w in RemoveKey(workouts, WorkoutId, workoutId)
          ensures IsFinishedWorkout(w)
        {
          RemoveKeyMembership(workouts, WorkoutId, workoutId, w);
        }
        RemoveKeyRemovesAll(workouts, WorkoutId, workoutId);
        RemoveKeyIdempotent(workouts, WorkoutId, workoutId);
        workouts := RemoveKey(workouts, WorkoutId, workoutId);
      }
    }
  }
}
