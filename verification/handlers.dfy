/**
 The two request handlers of main.py (lines 52-76) as pure functions from
 a store to the store after the request and the handler's answer. The
 session's commit is the returned store; an exception is a `Failure`
 whose store is the one the request started from, since nothing was
 committed. The id the database assigns on insert is an argument that the
 table does not yet hold (see `Store.FreshId`).
 */
module Handlers {
  import opened Wrappers
  import opened Models
  import opened Store

  /** An `HTTPException`: status code and detail message. */
  datatype HttpError = HttpError(statusCode: int, detail: string)

  /** Raised when the parent workout of a new exercise does not exist. */
  const WorkoutNotFound: HttpError := HttpError(404, "Workout Session doesn't exist!")

  /** The store after a request, and what the request returned or raised. */
  datatype Response<+T> = Response(store: Store, result: Result<T, HttpError>)

  /** `POST /workouts`: insert a workout named `workoutName`, stamped `now`. */
  function CreateWorkout(s: Store, workoutName: string, id: int, now: Timestamp): (r: Response<Workout>)
    requires id !in s.workouts
    ensures r.result.Success?
    ensures r.result.value.id == id
    ensures r.result.value.workoutName == workoutName
    ensures r.result.value.date == now
    ensures r.store.workouts.Keys == s.workouts.Keys + {id}
    ensures r.store.workouts[id] == r.result.value
    ensures forall k :: k in s.workouts ==> r.store.workouts[k] == s.workouts[k]
    ensures r.store.exercises == s.exercises
    ensures Valid(s) ==> Valid(r.store)
  {
    var w := NewWorkout(WorkoutCreate(workoutName), id, now);
    Response(Store(s.workouts[id := w], s.exercises), Success(w))
  }

  /**
   `POST /workouts/{workout_id}/exercises`: attach a new exercise to an
   existing workout, or raise 404 when the workout is missing.
   */
  function AddExerciseToWorkout(s: Store, workoutId: int, payload: ExerciseCreate, id: int): (r: Response<Exercise>)
    requires id !in s.exercises
    ensures r.result.Failure? <==> workoutId !in s.workouts
    ensures r.result.Failure? ==> r.result.error == HttpError(404, "Workout Session doesn't exist!")
    ensures r.result.Failure? ==> r.store == s
    ensures r.result.Success? ==>
              && r.result.value.exerciseId == id
              && r.result.value.workoutId == workoutId
              && r.result.value.exerciseName == payload.exerciseName
              && r.result.value.sets == payload.sets
              && r.result.value.reps == payload.reps
              && r.result.value.weight == payload.weight
    ensures r.result.Success? ==>
              && r.store.exercises.Keys == s.exercises.Keys + {id}
              && r.store.exercises[id] == r.result.value
              && (forall k :: k in s.exercises ==> r.store.exercises[k] == s.exercises[k])
              && r.store.workouts == s.workouts
    ensures Valid(s) ==> Valid(r.store)
  {
    if workoutId !in s.workouts then
      Response(s, Failure(WorkoutNotFound))
    else
      var e := NewExercise(payload, id, workoutId);
      Response(Store(s.workouts, s.exercises[id := e]), Success(e))
  }

  /**
   Attaching an exercise makes it appear exactly once among its workout's
   exercises, and leaves every other workout's exercises as they were.
   */
  lemma AddExerciseListedOnce(s: Store, w: int, payload: ExerciseCreate, id: int, v: int)
    requires id !in s.exercises && w in s.workouts
    ensures id !in ExercisesOf(s, w)
    ensures ExercisesOf(AddExerciseToWorkout(s, w, payload, id).store, w) == ExercisesOf(s, w) + {id}
    ensures |ExercisesOf(AddExerciseToWorkout(s, w, payload, id).store, w)| == |ExercisesOf(s, w)| + 1
    ensures v != w ==> ExercisesOf(AddExerciseToWorkout(s, w, payload, id).store, v) == ExercisesOf(s, v)
  {
  }

  /** An exercise can always be attached to a workout that was just created. */
  lemma AddAfterCreateSucceeds(s: Store, name: string, w: int, now: Timestamp, payload: ExerciseCreate, id: int)
    requires w !in s.workouts && id !in s.exercises
    ensures AddExerciseToWorkout(CreateWorkout(s, name, w, now).store, w, payload, id).result.Success?
  {
  }

  /**
   Deleting a workout with its cascade undoes attaching an exercise to it:
   the exercise goes with its parent, and nothing else differs.
   */
  lemma CascadeUndoesAdd(s: Store, w: int, payload: ExerciseCreate, id: int)
    requires id !in s.exercises
    ensures CascadeDelete(AddExerciseToWorkout(s, w, payload, id).store, w) == CascadeDelete(s, w)
  {
  }

  /**
   In a valid store, deleting a workout that was just created returns the
   store to its state before the creation.
   */
  lemma CascadeUndoesCreate(s: Store, name: string, w: int, now: Timestamp)
    requires Valid(s) && w !in s.workouts
    ensures CascadeDelete(CreateWorkout(s, name, w, now).store, w) == s
  {
    var a := CascadeDelete(CreateWorkout(s, name, w, now).store, w);
    assert a.workouts == s.workouts;
    assert a.exercises == s.exercises by {
      forall k | k in s.exercises ensures k in a.exercises {
        assert s.exercises[k].workoutId in s.workouts;
      }
    }
  }

  /** A request the service can receive. */
  datatype Request =
    | CreateWorkoutRequest(workoutName: string, now: Timestamp)
    | AddExerciseRequest(workoutId: int, payload: ExerciseCreate)

  /** What one request answered. */
  datatype Reply =
    | WorkoutReply(workout: Result<Workout, HttpError>)
    | ExerciseReply(exercise: Result<Exercise, HttpError>)

  /**
   Serve `requests` one after another against the rows `s0` already in the
   database, each insert receiving a fresh id from the store. Every
   reachable store keeps its keys and foreign key intact, and no existing
   row is lost or altered.
   */
  method Serve(s0: Store, requests: seq<Request>) returns (s: Store, replies: seq<Reply>)
    requires Valid(s0)
    ensures Valid(s)
    ensures forall k :: k in s0.workouts ==> k in s.workouts && s.workouts[k] == s0.workouts[k]
    ensures forall k :: k in s0.exercises ==> k in s.exercises && s.exercises[k] == s0.exercises[k]
    ensures |replies| == |requests|
    ensures forall i :: 0 <= i < |requests| ==>
              (requests[i].CreateWorkoutRequest? <==> replies[i].WorkoutReply?)
    ensures forall i :: 0 <= i < |requests| && requests[i].CreateWorkoutRequest? ==>
              replies[i].workout.Success? &&
              replies[i].workout.value.workoutName == requests[i].workoutName
  {
    s := s0;
    replies := [];
    var i := 0;
    while i < |requests|
      invariant 0 <= i <= |requests|
      invariant Valid(s)
      invariant forall k :: k in s0.workouts ==> k in s.workouts && s.workouts[k] == s0.workouts[k]
      invariant forall k :: k in s0.exercises ==> k in s.exercises && s.exercises[k] == s0.exercises[k]
      invariant |replies| == i
      invariant forall j :: 0 <= j < i ==>
                  (requests[j].CreateWorkoutRequest? <==> replies[j].WorkoutReply?)
      invariant forall j :: 0 <= j < i && requests[j].CreateWorkoutRequest? ==>
                  replies[j].workout.Success? &&
                  replies[j].workout.value.workoutName == requests[j].workoutName
    {
      match requests[i] {
        case CreateWorkoutRequest(name, now) =>
          var id := FreshId(s.workouts.Keys);
          var r := CreateWorkout(s, name, id, now);
          s := r.store;
          replies := replies + [WorkoutReply(r.result)];
        case AddExerciseRequest(w, payload) =>
          var id := FreshId(s.exercises.Keys);
          var r := AddExerciseToWorkout(s, w, payload, id);
          s := r.store;
          replies := replies + [ExerciseReply(r.result)];
      }
      i := i + 1;
    }
  }
}
