/**
 The relational store behind main.py, as two maps keyed by primary key,
 with the foreign key from exercises to workouts and the cascade that
 main.py line 27 declares on it.
 */
module Store {
  import opened Models

  datatype Store = Store(workouts: map<int, Workout>, exercises: map<int, Exercise>)

  /** Every row sits under its own primary key. */
  predicate KeysMatch(s: Store) {
    && (forall k :: k in s.workouts ==> s.workouts[k].id == k)
    && (forall k :: k in s.exercises ==> s.exercises[k].exerciseId == k)
  }

  /** Foreign key `exercise.workout_id -> workout.id`: no exercise is orphaned. */
  predicate ReferentialIntegrity(s: Store)
    ensures ReferentialIntegrity(s) <==>
              (set k | k in s.exercises :: s.exercises[k].workoutId) <= s.workouts.Keys
  {
    forall k :: k in s.exercises ==> s.exercises[k].workoutId in s.workouts
  }

  /** The store's integrity: primary keys and the foreign key both hold. */
  predicate Valid(s: Store)
    ensures Valid(s) ==> forall w, k :: w !in s.workouts ==> k !in ExercisesOf(s, w)
  {
    KeysMatch(s) && ReferentialIntegrity(s)
  }

  /** The database as `create_all` leaves it on a first start, before any table exists. */
  function EmptyStore(): (s: Store)
    ensures Valid(s)
    ensures s.workouts.Keys == {} && s.exercises.Keys == {}
  {
    Store(map[], map[])
  }

  /** Ids of the exercises that belong to workout `w` (the `exercises` relationship). */
  function ExercisesOf(s: Store, w: int): (ids: set<int>)
    ensures ids <= s.exercises.Keys
    ensures forall k :: k in s.exercises ==> (k in ids <==> s.exercises[k].workoutId == w)
    ensures ReferentialIntegrity(s) && w !in s.workouts ==> forall k :: k !in ids
  {
    set k | k in s.exercises && s.exercises[k].workoutId == w
  }

  /** Some element of a non-empty set. */
  method Choose<T>(s: set<T>) returns (x: T)
    requires s != {}
    ensures x in s
  {
    x :| x in s;
  }

  /**
   An id the store may assign to the next row of a table whose keys are
   `ids`: one past the largest key, or 1 when no key is positive. A
   sequence-backed database may skip ids instead; any fresh id will do.
   */
  method FreshId(ids: set<int>) returns (r: int)
    ensures r !in ids
    ensures r >= 1
    ensures forall k :: k in ids ==> k < r
  {
    r := 1;
    var rest := ids;
    while rest != {}
      invariant rest <= ids
      invariant r >= 1
      invariant forall k :: k in ids && k !in rest ==> k < r
      decreases |rest|
    {
      var k := Choose(rest);
      if k >= r {
        r := k + 1;
      }
      rest := rest - {k};
    }
  }

  /**
   The declared `cascade="all,delete"`: removing workout `w` removes it and
   every exercise whose foreign key is `w`.
   */
  function CascadeDelete(s: Store, w: int): (s': Store)
    ensures s'.workouts.Keys == s.workouts.Keys - {w}
    ensures forall k :: k in s'.workouts ==> s'.workouts[k] == s.workouts[k]
    ensures forall k :: k in s.exercises ==>
              (k in s'.exercises <==> s.exercises[k].workoutId != w)
    ensures forall k :: k in s'.exercises ==> k in s.exercises && s'.exercises[k] == s.exercises[k]
    ensures Valid(s) ==> Valid(s')
  {
    Store(
      map k | k in s.workouts && k != w :: s.workouts[k],
      map k | k in s.exercises && s.exercises[k].workoutId != w :: s.exercises[k])
  }

  /** After the cascade, the deleted workout has no exercises left. */
  lemma CascadeLeavesNoChildren(s: Store, w: int)
    ensures ExercisesOf(CascadeDelete(s, w), w) == {}
  {
  }

  /**
   Removing a workout row alone, while an exercise still refers to it,
   leaves that exercise's foreign key dangling in this map store. (An ORM
   relationship without the cascade would instead set the children's
   nullable `workout_id` to null; that behaviour is not modelled.)
   */
  lemma DeleteWithoutCascadeOrphans(s: Store, w: int, e: int)
    requires e in s.exercises && s.exercises[e].workoutId == w
    ensures !ReferentialIntegrity(Store(s.workouts - {w}, s.exercises))
  {
  }
}
