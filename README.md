# Workout tracker API — verified model

This project models the decision logic of a small workout-tracking REST service (Go, gin, gorm).
The service stores users, exercises, workouts, workout-exercises and sets.
- A workout-exercise puts one exercise into one workout.
- A set is one numbered unit of reps at a weight under a workout-exercise.

The model covers:
- the request handlers for workouts, exercises, users and sets;
- the workout-detail aggregation;
- the store underneath them.

Modules:

- `Wrappers`: `Option` and `Result`.
- `Decimal`: `strconv.Atoi` (optional sign, decimal digits, 64-bit range) and `%d` formatting (`Itoa`), with the round trip `Atoi(Itoa(n)) == Some(n)` proved for every 64-bit `n`.
- `Models`: the records, the request inputs and the update patches.
  - Create bodies carry no id; the store assigns one.
  - An update is a patch of the record's optional fields.
- `Http`: status codes, messages, response bodies. A handler's outcome is the list of responses it writes, so a handler that forgets to `return` shows up as two responses.
- `Store`: `class Db` holds one map from id to record per table and one next-id counter per table (the database sequences).
  - `Valid()` says that every stored record sits under its own id, between 1 and the counter.
  - Lookups are functions that fail with "record not found".
  - Writes are methods taking a `fault` input: `None` means the database accepts the write, `Some(msg)` means it reports `msg`.
- `WorkoutRepo`: the detail aggregation, a loop over the preloaded workout-exercises of a workout.
- `SetHandler`, `WorkoutHandler`, `ExerciseHandler`, `UserHandler`: one method or function per route handler.
  - Each handler states its full decision table: path parameter parses or not, body binds or not, lookup finds or not, store write fails or not.
  - Create, update and delete are tied to a later `GET` of the same id.
- `Scenarios`: concrete request sequences with their exact responses. These are a "Leg Day" workout with two sets, the exercise integration tests and the quirks of the set and workout handlers.

## Model

| member | source | states |
|---|---|---|
| Decimal.Itoa | backend/handlers/set_handler.go:46 | the decimal text of `n` is non-empty, starts with `-` exactly when `n` is negative, has no leading zero (0 prints as "0"), and reads back to `n` (see `AtoiItoa`) |
| Decimal.ParseDigits | backend/handlers/set_handler.go:34 | a digit string parses exactly when it is non-empty and all digits |
| Decimal.Atoi | backend/handlers/set_handler.go:34 | a parsed value lies in the 64-bit range; text parses only if every character is a digit, except a leading sign followed by at least one digit, so "12abc", "", "+" and "1 " give no integer |
| Decimal.AtoiDigits | backend/handlers/set_handler.go:34 | a digit run, bare or after `+` or `-`, reads as its decimal value (leading zeros allowed, so "007" is 7 and "+5" is 5) exactly when that value fits in 64 bits |
| Decimal.AtoiItoa | backend/handlers/exercise_handler.go:43 | every 64-bit id printed by `%d` parses back to itself, so a created record's id routes back to it |
| Decimal.ItoaInjective | backend/handlers/set_handler.go:46 | distinct numbers print differently |
| SetHandler.AlreadyExistsNamesNumber | backend/handlers/set_handler.go:46 | the message "`<n>` already exists" determines `n` |
| Store.Db.GetUserByID | backend/repo/user.go:21-28 | succeeds exactly when the id is stored, returning the record with that id; otherwise fails with "record not found" |
| Store.Db.GetExerciseByID | backend/repo/exercise.go:21-28 | succeeds exactly when the id is stored, returning the record with that id; otherwise fails with "record not found" |
| Store.Db.GetWorkoutByID | backend/repo/workout.go:21-28 | succeeds exactly when the id is stored, returning the workout with that id; otherwise fails with "record not found" |
| Store.Db.GetWorkoutExerciseByID | backend/repo/workout_exercise.go:17-24 | succeeds exactly when the id is stored, returning the association with that id; otherwise fails with "record not found" |
| Store.Db.GetSetByID | backend/repo/set.go:21-28 | succeeds exactly when the id is stored, returning the set with that id; otherwise fails with "record not found" |
| Store.Db.GetSetsForExercise | backend/repo/set.go:38-45 | the result holds every stored set whose workout-exercise is the given one and no other set, each once, in ascending id order |
| Store.Db.CreateUser | backend/repo/user.go:17-19 | a fault changes nothing; otherwise the user gets the next unused id, is stored under it, and the counter advances |
| Store.Db.CreateExercise | backend/repo/exercise.go:17-19 | a fault changes nothing; otherwise the exercise gets the next unused id, is stored under it, and the counter advances |
| Store.Db.CreateWorkout | backend/repo/workout.go:17-19 | a fault changes nothing; otherwise the workout gets the next unused id, is stored under it, and the counter advances |
| Store.Db.AddExerciseToWorkout | backend/repo/exercise.go:38-40 | a fault changes nothing; otherwise the association gets the next unused id, is stored under it, and the counter advances |
| Store.Db.CreateSet | backend/repo/set.go:17-19 | a fault changes nothing; otherwise the set gets the next unused id, is stored under it, and the counter advances |
| Store.Db.UpdateUser | backend/repo/user.go:30-32 | returns the patched user and stores it under its id when present; a fault changes nothing |
| Store.Db.UpdateExercise | backend/repo/exercise.go:30-32 | returns the patched exercise and stores it under its id when present; a fault changes nothing |
| Store.Db.UpdateWorkout | backend/repo/workout.go:30-32 | returns the patched workout and stores it under its id when present; a fault changes nothing |
| Store.Db.DeleteUser | backend/repo/user.go:34-36 | reports the fault; without one the id is gone and nothing else changes |
| Store.Db.DeleteExercise | backend/repo/exercise.go:34-36 | reports the fault; without one the id is gone and nothing else changes |
| Store.Db.DeleteWorkout | backend/repo/workout.go:34-36 | reports the fault; without one the id is gone and nothing else changes |
| Store.Db.DeleteSet | backend/repo/set.go:34-36 | reports the fault; without one the id is gone and nothing else changes |
| WorkoutRepo.EntryFor | backend/repo/workout.go:51-58 | an entry carries the association's sets unchanged and the referenced exercise's id and name, or zero id and empty name when that exercise is missing |
| WorkoutRepo.GetWorkoutDetails | backend/repo/workout.go:38-64 | fails with "record not found" exactly when the workout is missing. Otherwise the result has the workout's id and name and one entry per preloaded association, in order. Each entry's id is the exercise id, not the association id. Under a faithful preload, every association of the workout appears in exactly one entry, with exactly its stored sets |
| SetHandler.ContainsSetNumber | backend/handlers/set_handler.go:44-49 | the scan finds a match exactly when some listed set has the requested number |
| SetHandler.ParseCheckAndInsert | backend/handlers/set_handler.go:34-64 | the checks run in order: parse 400, list error 400, duplicate 400 "`<n>` already exists", missing workout-exercise 400, store error 500. Only if all pass is the set stored under the next id with the parsed workout-exercise id, whatever the body said, answered by 201, and a `GET` of the printed id returns that set. Unique set numbers per workout-exercise are preserved |
| SetHandler.AddSetToExercise | backend/handlers/set_handler.go:22-65 | a bind error gives one 400 and no change. Otherwise a number below 1 writes "set number must be greater than 0" and processing still goes on with the same outcome as the checks above; a created set is returned by a later `GET` of its id. The workout id is never read |
| SetHandler.AddSetToExerciseChecked | backend/handlers/set_handler.go:30-32 | the corrected handler writes exactly one response. A number below 1 is refused with 400 and changes nothing. A created set is returned by a later `GET` of its id. Positive and unique set numbers are preserved |
| SetHandler.GetSetByID | backend/handlers/set_handler.go:67-81 | bad id 400 "invalid set ID", missing 404 "record not found", otherwise 200 with the stored set |
| SetHandler.DeleteSet | backend/handlers/set_handler.go:83-96 | bad id 400 and no change; store error 500; otherwise 200 "Set deleted", and a later `GET` of that id answers 404 |
| SetHandler.GetSetsForExercise | backend/handlers/set_handler.go:98-111 | bad id 400 "invalid set ID", list error 500, otherwise 200 with exactly the sets of that workout-exercise |
| ExerciseHandler.GetExerciseByID | backend/handlers/exercise_handler.go:42-56 | bad id 400 "invalid exercise ID", missing 404 "record not found", otherwise 200 with the stored exercise |
| ExerciseHandler.CreateExercise | backend/handlers/exercise_handler.go:20-40 | bind error 400 and empty name 400 "Name cannot be empty", both with no change; store error 500. Otherwise 201 with the new exercise (same name, fresh id ≥ 1), and a `GET` of the printed id returns it |
| ExerciseHandler.UpdateExercise | backend/handlers/exercise_handler.go:58-85 | bad id 400; missing 404 with no change, checked before the body is bound; bind error 400; store error 500. Otherwise 200 with the patched exercise, which a later `GET` returns |
| ExerciseHandler.DeleteExercise | backend/handlers/exercise_handler.go:87-99 | no existence check: bad id 400, store error 500, otherwise 200 "Exercise deleted", and a later `GET` answers 404 |
| UserHandler.GetUserByID | backend/handlers/user_handler.go:42-56 | bad id 400 "invalid user ID", missing 404 "record not found", otherwise 200 with the stored user |
| UserHandler.CreateUser | backend/handlers/user_handler.go:20-40 | bind error 400 and empty username 400 "Username cannot be empty", both with no change; store error 500. Otherwise 201 with the new user, and a `GET` of the printed id returns it |
| UserHandler.UpdateUser | backend/handlers/user_handler.go:58-86 | bad id 400; missing 404 with no change, checked before the body is bound; bind error 400; store error 500. Otherwise 200 with the patched user, which a later `GET` returns |
| UserHandler.DeleteUser | backend/handlers/user_handler.go:88-100 | no existence check: bad id 400, store error 500, otherwise 200 "User deleted", and a later `GET` answers 404 |
| WorkoutHandler.GetWorkoutByID | backend/handlers/workout_handler.go:43-57 | bad id 400 "invalid workout ID", missing 404 "record not found", otherwise 200 with the stored workout |
| WorkoutHandler.CreateWorkout | backend/handlers/workout_handler.go:21-41 | bind error 400 and empty name 400 "Name cannot be empty", both with no change; store error 500. Otherwise 201 with the new workout, and a `GET` of the printed id returns it |
| WorkoutHandler.UpdateWorkout | backend/handlers/workout_handler.go:59-86 | bad id 400; missing 404 with no change, checked before the body is bound; bind error 400; store error 500. Otherwise 200 with the patched workout, which a later `GET` returns |
| WorkoutHandler.DeleteWorkout | backend/handlers/workout_handler.go:88-100 | no existence check: bad id 400, store error 500, otherwise 200 "Workout deleted", and a later `GET` answers 404 |
| WorkoutHandler.AddExerciseToWorkout | backend/handlers/workout_handler.go:102-141 | one response. The checks run in order and the first failure wins: id 400, bind 400, workout missing 404, exercise id 0 400 "invalid exercise ID", exercise missing 404, store error 404. Otherwise a new association with the path's workout id is stored (no duplicate check) and 200 "Exercise added to workout" is written |
| WorkoutHandler.GetWorkoutDetails | backend/handlers/workout_handler.go:143-157 | bad id 400 "invalid workout ID", a missing workout 400 (not 404) "record not found", otherwise 200 with the aggregation of the workout |
| Scenarios.LegDayDetails | backend/repo/workout.go:47-61 | the detail view of "Leg Day" nests "Squat" under its exercise id 2, not the id 1 of its association, with both of its sets unchanged |
| Scenarios.DuplicateSetNumber | backend/handlers/set_handler.go:44-49 | posting set number 1 a second time answers 400 "1 already exists" and leaves the stored sets as they were |
| Scenarios.MissingWorkoutDetails | backend/handlers/workout_handler.go:150-154 | `GET /workouts/999` on an empty store answers 400 "record not found" |
| Scenarios.SameExerciseAddedTwice | backend/handlers/workout_handler.go:117-140 | adding the same exercise to a workout twice stores two associations, both with the path's workout id |
| Scenarios.SetsIgnoreWorkoutId | backend/handlers/set_handler.go:34-55 | a set posted under workout 2 lands on an association of workout 1. The same number under another association is accepted. A missing association is refused with 400 |
| Scenarios.ZeroSetNumberIsStored | backend/handlers/set_handler.go:30-32 | set number 0 writes 400 and then 201, and the set is stored |
| Scenarios.ZeroSetNumberRefused | backend/handlers/set_handler.go:30-32 | the corrected handler answers set number 0 with a single 400 and stores nothing |
| Scenarios.ExerciseIntegration | backend/main_test.go:93-250 | the integration tests' requests replayed on an empty store. Create gives 201 with the same name and id 1. An empty name gives 400 "Name cannot be empty". Get of id 1 gives 200 with the same name and id. Get and update of missing id 10 give 404 "record not found". The update of id 1 gives 200 with the new name. Delete gives "Exercise deleted". Id "invalid" gives 400 "invalid exercise ID". The tests check the statuses of create (201), get (200) and update (200), the names, the ids (non-empty on create, equal on get) and the messages; the concrete id 1 and the 404 statuses come from the model |

## Left out

- HTTP routing, CORS, environment loading, database connection and migrations are wiring, not logic. The route table is used only to know which handler serves which path, and `exercise_id` in set routes is a workout-exercise id.
- The responses are status and body values. JSON encoding and the gin context are not modelled. gin sends only the first status, so a double write is observed as a 400 status whose body holds both JSON objects. The model keeps both responses in order.
- JSON binding is an input that either binds to a request value or fails with a message. Create bodies carry no client-supplied id and no nested associations.
- The `gorm.Model` soft-delete flag and the timestamps are not modelled. Delete removes the key.
- Lookups fail only with "record not found"; other database errors on a lookup (connection loss) are not modelled. Every write takes an explicit fault input instead.
- `Updates(map[string]interface{})` is reduced to a patch of the record's own fields (name, username, user id). Updates of other columns are not modelled.
- `Store.Db.GetSetsForExercise`: the query has no `ORDER BY`; the model returns ascending id order, one order the database may use.
- `WorkoutRepo.GetWorkoutDetails`: the eager load `Preload("Exercises.Sets")` is an input sequence. Its order is not visible, so what it must contain is a separate predicate (`IsPreloadOf`). The coverage property is stated under that predicate.
- The check-then-insert race between the duplicate scan and `CreateSet` needs concurrency, which the model does not have. Each handler runs atomically.
- `Set.Weight` is a float64 carried as its 64-bit pattern and never inspected; there is no float arithmetic.
- `UpdateSet` in backend/repo/set.go has no handler and no route, so it is not modelled.
- Ids are unbounded naturals. The `uint`/`int` conversions of the source are identities on every id the store hands out (below 2^63).
- A missing workout-exercise on set creation answers 400, not 404 (set_handler.go:51-55); the model follows the code.

## Findings

| source | as written | input that shows it | evidently intended | confidence | as-written member | corrected member |
|---|---|---|---|---|---|---|
| backend/handlers/set_handler.go:30-32 | the set-number check writes a 400 but has no `return`, so validation and the insert go on | set number 0 for an existing workout-exercise with no set 0: 400 then 201, and the set is stored | refuse with a single 400 and store nothing | not executed | Scenarios.ZeroSetNumberIsStored | SetHandler.AddSetToExerciseChecked |
