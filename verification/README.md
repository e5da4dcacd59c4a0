# Gym progress service: store and connection-string model

A Dafny model of the core of a small FastAPI service that records gym
workouts and the exercises attached to them.

- **Records** (`Models`): the `Workout` and `Exercise` table rows and the
  two creation payloads: `ExerciseCreate`, the add-exercise request body, and
  `WorkoutCreate`, which the create handler builds itself from the
  `workout_name` query parameter. `Exercise.workoutId` is the foreign key to
  `Workout.id`.
- **Store** (`Store`): the database as two maps keyed by primary key. The
  invariant `Valid` says every row sits under its own key and that no
  exercise is orphaned. `CascadeDelete` is the `cascade="all,delete"` rule
  declared on the workout-to-exercises relationship. `FreshId` picks one
  id the database may give the next row: one past the largest key, or 1
  when no key is positive.
- **Handlers** (`Handlers`): `create_workout` and `add_exercise_to_workout`
  as pure functions. Each returns the store after the request together with
  a `Result`: the returned row, or the `HTTPException` raised. A raised
  exception commits nothing, so its store is the input store. `Serve` runs a
  sequence of requests from any valid database, such as the rows already in
  the file or server on a later start. It proves every reachable store valid
  and keeps every existing row.
- **Connection string** (`DatabaseUrl`): the `DATABASE_URL` lookup with its
  `sqlite:///gymprogress.db` default, and the rewrite of a leading
  `postgres://` to `postgresql://`. The rewrite uses Python's
  `str.replace(old, new, 1)`. It is modelled in general as `ReplaceOnce`,
  built on a `str.find`-style search, and then proved to touch only the
  prefix.

Modelling choices:
- The insert id is an argument to the handlers. They require it to be absent
  from the table, which is how the database chooses it. `FreshId` shows such
  an id always exists.
- `datetime.utcnow()` is a `Timestamp` argument.
- The float `weight` is kept as its 64-bit pattern (`Weight(bits: bv64)`).
  The handlers only copy it. The database's own treatment of some values is
  not modelled (see "## Left out"): it refuses a NaN on SQLite, and stores a
  -0.0 as +0 on both SQLite and PostgreSQL, so the refreshed row reads 0.0.
- The environment lookup is an `Option<string>` argument.
- In the code the `Exercise` table has no timestamp column; the model follows the code.
- The code declares `exercise_id`, `id` and `workout_id` as `Optional[int]`.
  Ids are `None` only before the first commit, and the handler always sets
  the foreign key. So every stored row carries plain integers.

## Model

| member | source | states |
|---|---|---|
| `DatabaseUrl.StartsWith` | database.py:9 | `startswith`: the string is at least as long as the prefix and agrees with it position by position |
| `DatabaseUrl.SelectUrl` | database.py:4-6 | With no environment value the URL is `sqlite:///gymprogress.db`; otherwise it is the environment value itself |
| `DatabaseUrl.FindFirst` | database.py:10 | The search `replace` performs: a found index is an occurrence with no earlier one; none is found exactly when the pattern occurs nowhere |
| `DatabaseUrl.ReplaceOnce` | database.py:10 | `replace(old, new, 1)`: with no occurrence the string is unchanged; otherwise the first occurrence, and only it, is replaced by the new text |
| `DatabaseUrl.ReplaceOnceAtStart` | database.py:10 | When the string starts with the old text, replacing its first occurrence yields the new text followed by the rest of the string |
| `DatabaseUrl.Normalize` | database.py:9-10 | A URL starting with `postgres://` becomes `postgresql://` plus its original suffix, so everything after the scheme is preserved, and grows by exactly 2; any other URL is unchanged; the result never starts with `postgres://` |
| `DatabaseUrl.EmptyUrlUnchanged` | database.py:9 | The empty URL (the falsy case of the guard) is left unchanged, since it cannot start with the scheme |
| `DatabaseUrl.NormalizeIdempotent` | database.py:9-10 | Normalising twice equals normalising once |
| `DatabaseUrl.ResolveDatabaseUrl` | database.py:4-10 | The URL given to the engine is the sqlite default when unset, the rewritten value for a `postgres://` value, the value itself otherwise, and never starts with `postgres://` |
| `Models.NewWorkout` | main.py:54-56 | The new workout row carries the requested name, the assigned id and the creation timestamp |
| `Models.NewExercise` | main.py:71-72 | The new exercise row copies name, sets, reps and weight from the payload, and its foreign key is the workout id from the path |
| `Store.ReferentialIntegrity` | main.py:18 | The foreign key holds exactly when the set of `workout_id` values of the exercises is contained in the set of workout ids |
| `Store.Valid` | main.py:12-27 | Primary keys match their rows and the foreign key holds; in such a store no absent workout has any exercise |
| `Store.ExercisesOf` | main.py:27 | A workout's `exercises` relationship: stored exercise ids, containing an exercise exactly when its foreign key is that workout; empty for an absent workout when the foreign key holds |
| `Store.EmptyStore` | main.py:43-45 | The database created on a first start holds no rows and satisfies the key and foreign-key invariant |
| `Store.FreshId` | main.py:12 | The id assigned to a new row is not already a key, is positive, and exceeds every existing key |
| `Store.CascadeDelete` | main.py:27 | Deleting a workout removes it and exactly the exercises whose foreign key is that workout; every other workout and exercise is kept unchanged; the invariant is preserved |
| `Store.CascadeLeavesNoChildren` | main.py:27 | After the cascade the deleted workout has no exercises left |
| `Store.DeleteWithoutCascadeOrphans` | main.py:27 | In the map store, removing only the workout row while an exercise still refers to it breaks referential integrity; this is a bare row removal, not what the ORM would do without the cascade (it would null the child's `workout_id`) |
| `Handlers.CreateWorkout` | main.py:52-60 | Always succeeds. The returned workout has the given name, the new id and the timestamp. The workout map gains exactly that id. Existing workouts and all exercises are unchanged. The invariant is preserved |
| `Handlers.AddExerciseToWorkout` | main.py:63-76 | Fails iff the workout is missing, with 404 "Workout Session doesn't exist!" and the store unchanged. Otherwise it adds exactly one exercise: payload fields copied, `workout_id` set to the path id, existing rows and workouts unchanged, invariant preserved |
| `Handlers.AddExerciseListedOnce` | main.py:71-74 | The attached exercise is new to its workout's exercises and then appears there exactly once (the count grows by one); other workouts' exercises are unchanged |
| `Handlers.AddAfterCreateSucceeds` | main.py:52-76 | Attaching an exercise to a workout that was just created always succeeds |
| `Handlers.CascadeUndoesAdd` | main.py:27 | Attaching an exercise to a workout and then deleting that workout gives the same store as deleting it without the attach |
| `Handlers.CascadeUndoesCreate` | main.py:27 | In a valid store, deleting a workout that was just created restores the store from before the creation |
| `Handlers.Serve` | main.py:52-76 | Serving any request sequence from any valid database with fresh ids keeps the keys and foreign key intact and every existing row unchanged. It answers each request with a reply of that request's kind, and every workout creation succeeds with the requested name |

## Left out

- The health endpoint (main.py:47-49): a constant payload with a float version and no logic.
- `create_all` at startup (database.py:15-16, main.py:43-45): a foreign library call that only creates missing tables. The store is empty only on a first start (`EmptyStore`); on a later start it holds the rows already in the database, which `Serve` takes as any valid store.
- The engine, `Session`, `commit` and `refresh` (database.py:13, main.py:55-59, 66-75): library calls. The model replaces them with the map store, where a commit is the returned store.
- Store-unavailable failures: the model has no connection to fail.
- `Handlers.AddExerciseToWorkout`: the model does not know which values the database refuses when binding or committing, so such a refusal, a server error (500), is not modelled. The handler answers `Success` for a payload the database rejects at the commit (main.py:74): a `sets` or `reps` value beyond a 32-bit INTEGER column on PostgreSQL or beyond 64 bits on SQLite; a NaN `weight` on SQLite, which binds NaN as NULL into the NOT NULL column; an `exercise_name` containing U+0000 on PostgreSQL. It answers the 404 for a path `workout_id` that SQLite cannot bind at the lookup (main.py:67), one outside signed 64 bits, where the program ends in a 500. Values the database stores differently are not modelled either. A -0.0 `weight` is stored as +0: SQLite keeps an integral REAL as an integer, and PostgreSQL parses the literal as a numeric without negative zero. So the exercise returned after the refresh (main.py:75) carries 0.0, while the model returns and stores the -0.0 bit pattern.
- `Handlers.CreateWorkout`: "always succeeds" means unless the database refuses the value. A `workout_name` containing U+0000 on PostgreSQL makes the commit (main.py:58) raise a server error; the model answers `Success`.
- `Handlers.AddAfterCreateSucceeds`: "always succeeds" means unless the database refuses a value, as for `Handlers.CreateWorkout` and `Handlers.AddExerciseToWorkout` above (a NUL in a name on PostgreSQL, a NaN weight on SQLite, an out-of-range `sets` or `reps`).
- `Handlers.Serve`: "every workout creation succeeds" means unless the database refuses the name (a `workout_name` containing U+0000 on PostgreSQL); exercise requests likewise ignore the refusals listed for `Handlers.AddExerciseToWorkout`.
- FastAPI routing, request parsing and field validation, and the mechanics of `HTTPException`: errors are a `Result` value.
- The database's own id assignment: the handlers take a fresh id, and `FreshId` gives one rule, max plus one, that the database may follow.
- A delete-workout handler: the cascade is only the declared relationship rule. The code has no delete handler, so no delete request or 404 on a missing workout is modelled.
- Listing, recent-workout, rename, partial update and delete handlers: they do not appear in the code, so they are not modelled.
- The frontend pages and routing (frontend/src): user interface only.
