/**
 The two table records of main.py (lines 11-27) and the two creation
 payloads (lines 31-38). Ids are those the store assigned on insert; the
 `Optional` in the source only describes a record before its first commit.
 */
module Models {

  /** `datetime.utcnow()` at insert time, supplied by the caller. */
  datatype Timestamp = Timestamp(ticks: int)

  /**
   A Python float as its IEEE-754 binary64 bits. The handlers copy it; the
   database's own changes to some values (a -0.0 read back as 0.0, a NaN
   refused) are not modelled.
   */
  datatype Weight = Weight(bits: bv64)

  /** A row of the `workout` table. */
  datatype Workout = Workout(id: int, workoutName: string, date: Timestamp)

  /** A row of the `exercise` table; `workoutId` is the foreign key to `workout.id`. */
  datatype Exercise = Exercise(
    exerciseId: int,
    exerciseName: string,
    weight: Weight,
    reps: int,
    sets: int,
    workoutId: int)

  /** Built by the handler from the `workout_name` query parameter (main.py:54). */
  datatype WorkoutCreate = WorkoutCreate(workoutName: string)

  /** Body of the add-exercise request. */
  datatype ExerciseCreate = ExerciseCreate(
    exerciseName: string,
    sets: int,
    reps: int,
    weight: Weight)

  /**
   `Workout(**payload.model_dump())` after the store has filled in the id
   and the default timestamp.
   */
  function NewWorkout(payload: WorkoutCreate, id: int, now: Timestamp): (w: Workout)
    ensures w.id == id && w.date == now
    ensures w.workoutName == payload.workoutName
  {
    Workout(id, payload.workoutName, now)
  }

  /**
   `Exercise(**payload.model_dump())` with the foreign key then set to
   `workoutId` and the id filled in by the store.
   */
  function NewExercise(payload: ExerciseCreate, id: int, workoutId: int): (e: Exercise)
    ensures e.exerciseId == id && e.workoutId == workoutId
    ensures e.exerciseName == payload.exerciseName
    ensures e.sets == payload.sets && e.reps == payload.reps
    ensures e.weight == payload.weight
  {
    Exercise(id, payload.exerciseName, payload.weight, payload.reps, payload.sets, workoutId)
  }
}
