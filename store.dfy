/**
 * The persistence the repositories delegate to, as an in-memory store: one
 * table per entity, keyed by id, and one id sequence per table. Every write
 * takes a `fault`: `None` when the database accepts it, `Some(msg)` when it
 * reports the error `msg`, in which case nothing changes.
 */
module Store {
  import opened Wrappers
  import opened Models

  /** The error text of a lookup that matches no live row. */
  const RecordNotFound := "record not found"

  /** Lookup-or-error on one table. */
  function Lookup<T>(table: map<int, T>, id: int): Result<T, string> {
    if id in table then Success(table[id]) else Failure(RecordNotFound)
  }

  /** Every row sits under its own id, and ids come from the sequence: 1 up to `next` - 1. */
  ghost predicate Keyed<T>(table: map<int, T>, next: nat, idOf: T -> nat) {
    && next >= 1
    && forall k :: k in table ==> 1 <= k < next && idOf(table[k]) == k
  }

  /**
   * The sets of `sets` with id below `n` that belong to workout-exercise
   * `weId`, in ascending id order.
   */
  function SetsBelow(sets: map<int, Set>, weId: int, n: nat): (r: seq<Set>)
    requires forall k :: k in sets ==> sets[k].id == k
    ensures forall i :: 0 <= i < |r| ==>
      r[i].id < n && r[i].id in sets && sets[r[i].id] == r[i] && r[i].workoutExerciseId == weId
    ensures forall k :: 0 <= k < n && k in sets && sets[k].workoutExerciseId == weId ==> sets[k] in r
    ensures forall i, j :: 0 <= i < j < |r| ==> r[i].id < r[j].id
  {
    if n == 0 then []
    else
      var prefix := SetsBelow(sets, weId, n - 1);
      if n - 1 in sets && sets[n - 1].workoutExerciseId == weId then prefix + [sets[n - 1]] else prefix
  }

  class Db {
    var users: map<int, User>
    var exercises: map<int, Exercise>
    var workouts: map<int, Workout>
    var workoutExercises: map<int, WorkoutExercise>
    var sets: map<int, Set>
    var nextUserId: nat
    var nextExerciseId: nat
    var nextWorkoutId: nat
    var nextWorkoutExerciseId: nat
    var nextSetId: nat

    ghost predicate Valid()
      reads this
    {
      && Keyed(users, nextUserId, (u: User) => u.id)
      && Keyed(exercises, nextExerciseId, (e: Exercise) => e.id)
      && Keyed(workouts, nextWorkoutId, (w: Workout) => w.id)
      && Keyed(workoutExercises, nextWorkoutExerciseId, (we: WorkoutExercise) => we.id)
      && Keyed(sets, nextSetId, (s: Set) => s.id)
    }

    /** An empty database whose sequences all start at 1. */
    constructor ()
      ensures Valid()
      ensures users == map[] && exercises == map[] && workouts == map[]
      ensures workoutExercises == map[] && sets == map[]
      ensures nextUserId == 1 && nextExerciseId == 1 && nextWorkoutId == 1
      ensures nextWorkoutExerciseId == 1 && nextSetId == 1
    {
      users, exercises, workouts, workoutExercises, sets := map[], map[], map[], map[], map[];
      nextUserId, nextExerciseId, nextWorkoutId, nextWorkoutExerciseId, nextSetId := 1, 1, 1, 1, 1;
    }

    // Lookups: `First(&row, id)`, which fails when no live row has that id.

    function GetUserByID(id: int): (r: Result<User, string>)
      requires Valid()
      reads this
      ensures r.Success? <==> id in users
      ensures r.Success? ==> r.value == users[id] && r.value.id == id
      ensures r.Failure? ==> r.error == RecordNotFound
    {
      Lookup(users, id)
    }

    function GetExerciseByID(id: int): (r: Result<Exercise, string>)
      requires Valid()
      reads this
      ensures r.Success? <==> id in exercises
      ensures r.Success? ==> r.value == exercises[id] && r.value.id == id
      ensures r.Failure? ==> r.error == RecordNotFound
    {
      Lookup(exercises, id)
    }

    function GetWorkoutByID(id: int): (r: Result<Workout, string>)
      requires Valid()
      reads this
      ensures r.Success? <==> id in workouts
      ensures r.Success? ==> r.value == workouts[id] && r.value.id == id
      ensures r.Failure? ==> r.error == RecordNotFound
    {
      Lookup(workouts, id)
    }

    function GetWorkoutExerciseByID(id: int): (r: Result<WorkoutExercise, string>)
      requires Valid()
      reads this
      ensures r.Success? <==> id in workoutExercises
      ensures r.Success? ==> r.value == workoutExercises[id] && r.value.id == id
      ensures r.Failure? ==> r.error == RecordNotFound
    {
      Lookup(workoutExercises, id)
    }

    function GetSetByID(id: int): (r: Result<Set, string>)
      requires Valid()
      reads this
      ensures r.Success? <==> id in sets
      ensures r.Success? ==> r.value == sets[id] && r.value.id == id
      ensures r.Failure? ==> r.error == RecordNotFound
    {
      Lookup(sets, id)
    }

    /**
     * `Where("workout_exercise_id", weId).Find(&sets)`: exactly the live sets
     * of that workout-exercise, each once. The query has no ORDER BY; this
     * model lists them by ascending id.
     */
    function GetSetsForExercise(weId: int): (r: seq<Set>)
      requires Valid()
      reads this
      ensures forall i :: 0 <= i < |r| ==>
        r[i].id in sets && sets[r[i].id] == r[i] && r[i].workoutExerciseId == weId
      ensures forall k :: k in sets && sets[k].workoutExerciseId == weId ==> sets[k] in r
      ensures forall i, j :: 0 <= i < j < |r| ==> r[i].id < r[j].id
    {
      SetsBelow(sets, weId, nextSetId)
    }

    // Creates: `Create(&row)`, which inserts the row under the next id of its sequence.

    method CreateUser(input: UserInput, fault: Option<string>) returns (r: Result<User, string>)
      requires Valid()
      modifies this`users, this`nextUserId
      ensures Valid()
      ensures fault.Some? ==> r == Failure(fault.value) && unchanged(this)
      ensures fault.None? ==>
        && r == Success(User(old(nextUserId), input.username))
        && r.value.id >= 1 && r.value.id !in old(users)
        && users == old(users)[r.value.id := r.value]
        && nextUserId == old(nextUserId) + 1
    {
      if fault.Some? {
        return Failure(fault.value);
      }
      var u := User(nextUserId, input.username);
      users := users[u.id := u];
      nextUserId := nextUserId + 1;
      r := Success(u);
    }

    method CreateExercise(input: ExerciseInput, fault: Option<string>) returns (r: Result<Exercise, string>)
      requires Valid()
      modifies this`exercises, this`nextExerciseId
      ensures Valid()
      ensures fault.Some? ==> r == Failure(fault.value) && unchanged(this)
      ensures fault.None? ==>
        && r == Success(Exercise(old(nextExerciseId), input.name))
        && r.value.id >= 1 && r.value.id !in old(exercises)
        && exercises == old(exercises)[r.value.id := r.value]
        && nextExerciseId == old(nextExerciseId) + 1
    {
      if fault.Some? {
        return Failure(fault.value);
      }
      var e := Exercise(nextExerciseId, input.name);
      exercises := exercises[e.id := e];
      nextExerciseId := nextExerciseId + 1;
      r := Success(e);
    }

    method CreateWorkout(input: WorkoutInput, fault: Option<string>) returns (r: Result<Workout, string>)
      requires Valid()
      modifies this`workouts, this`nextWorkoutId
      ensures Valid()
      ensures fault.Some? ==> r == Failure(fault.value) && unchanged(this)
      ensures fault.None? ==>
        && r == Success(Workout(old(nextWorkoutId), input.name, input.userId))
        && r.value.id >= 1 && r.value.id !in old(workouts)
        && workouts == old(workouts)[r.value.id := r.value]
        && nextWorkoutId == old(nextWorkoutId) + 1
    {
      if fault.Some? {
        return Failure(fault.value);
      }
      var w := Workout(nextWorkoutId, input.name, input.userId);
      workouts := workouts[w.id := w];
      nextWorkoutId := nextWorkoutId + 1;
      r := Success(w);
    }

    /** The exercise repository's `AddExerciseToWorkout`: inserts an association row. */
    method AddExerciseToWorkout(input: WorkoutExerciseInput, fault: Option<string>)
      returns (r: Result<WorkoutExercise, string>)
      requires Valid()
      modifies this`workoutExercises, this`nextWorkoutExerciseId
      ensures Valid()
      ensures fault.Some? ==> r == Failure(fault.value) && unchanged(this)
      ensures fault.None? ==>
        && r == Success(WorkoutExercise(old(nextWorkoutExerciseId), input.workoutId, input.exerciseId))
        && r.value.id >= 1 && r.value.id !in old(workoutExercises)
        && workoutExercises == old(workoutExercises)[r.value.id := r.value]
        && nextWorkoutExerciseId == old(nextWorkoutExerciseId) + 1
    {
      if fault.Some? {
        return Failure(fault.value);
      }
      var we := WorkoutExercise(nextWorkoutExerciseId, input.workoutId, input.exerciseId);
      workoutExercises := workoutExercises[we.id := we];
      nextWorkoutExerciseId := nextWorkoutExerciseId + 1;
      r := Success(we);
    }

    method CreateSet(input: SetInput, fault: Option<string>) returns (r: Result<Set, string>)
      requires Valid()
      modifies this`sets, this`nextSetId
      ensures Valid()
      ensures fault.Some? ==> r == Failure(fault.value) && unchanged(this)
      ensures fault.None? ==>
        && r == Success(Set(old(nextSetId), input.workoutExerciseId, input.setNumber, input.reps, input.weight))
        && r.value.id >= 1 && r.value.id !in old(sets)
        && sets == old(sets)[r.value.id := r.value]
        && nextSetId == old(nextSetId) + 1
    {
      if fault.Some? {
        return Failure(fault.value);
      }
      var s := Set(nextSetId, input.workoutExerciseId, input.setNumber, input.reps, input.weight);
      sets := sets[s.id := s];
      nextSetId := nextSetId + 1;
      r := Success(s);
    }

    // Updates: `Model(&row).Updates(patch)`, which writes the patched fields to
    // the stored row (if it is still there) and to the caller's copy.

    method UpdateUser(u: User, patch: UserPatch, fault: Option<string>) returns (r: Result<User, string>)
      requires Valid()
      modifies this`users
      ensures Valid()
      ensures fault.Some? ==> r == Failure(fault.value) && unchanged(this)
      ensures fault.None? ==> r == Success(PatchUser(u, patch))
      ensures fault.None? && u.id in old(users) ==> users == old(users)[u.id := PatchUser(old(users)[u.id], patch)]
      ensures fault.None? && u.id !in old(users) ==> users == old(users)
    {
      if fault.Some? {
        return Failure(fault.value);
      }
      if u.id in users {
        users := users[u.id := PatchUser(users[u.id], patch)];
      }
      r := Success(PatchUser(u, patch));
    }

    method UpdateExercise(e: Exercise, patch: ExercisePatch, fault: Option<string>) returns (r: Result<Exercise, string>)
      requires Valid()
      modifies this`exercises
      ensures Valid()
      ensures fault.Some? ==> r == Failure(fault.value) && unchanged(this)
      ensures fault.None? ==> r == Success(PatchExercise(e, patch))
      ensures fault.None? && e.id in old(exercises) ==>
        exercises == old(exercises)[e.id := PatchExercise(old(exercises)[e.id], patch)]
      ensures fault.None? && e.id !in old(exercises) ==> exercises == old(exercises)
    {
      if fault.Some? {
        return Failure(fault.value);
      }
      if e.id in exercises {
        exercises := exercises[e.id := PatchExercise(exercises[e.id], patch)];
      }
      r := Success(PatchExercise(e, patch));
    }

    method UpdateWorkout(w: Workout, patch: WorkoutPatch, fault: Option<string>) returns (r: Result<Workout, string>)
      requires Valid()
      modifies this`workouts
      ensures Valid()
      ensures fault.Some? ==> r == Failure(fault.value) && unchanged(this)
      ensures fault.None? ==> r == Success(PatchWorkout(w, patch))
      ensures fault.None? && w.id in old(workouts) ==>
        workouts == old(workouts)[w.id := PatchWorkout(old(workouts)[w.id], patch)]
      ensures fault.None? && w.id !in old(workouts) ==> workouts == old(workouts)
    {
      if fault.Some? {
        return Failure(fault.value);
      }
      if w.id in workouts {
        workouts := workouts[w.id := PatchWorkout(workouts[w.id], patch)];
      }
      r := Success(PatchWorkout(w, patch));
    }

    // Deletes: `Delete(&Row{}, id)`, which succeeds whether or not a row has that id.

    method DeleteUser(id: int, fault: Option<string>) returns (err: Option<string>)
      requires Valid()
      modifies this`users
      ensures Valid()
      ensures err == fault
      ensures fault.Some? ==> unchanged(this)
      ensures fault.None? ==> users == old(users) - {id}
    {
      if fault.None? {
        users := users - {id};
      }
      err := fault;
    }

    method DeleteExercise(id: int, fault: Option<string>) returns (err: Option<string>)
      requires Valid()
      modifies this`exercises
      ensures Valid()
      ensures err == fault
      ensures fault.Some? ==> unchanged(this)
      ensures fault.None? ==> exercises == old(exercises) - {id}
    {
      if fault.None? {
        exercises := exercises - {id};
      }
      err := fault;
    }

    method DeleteWorkout(id: int, fault: Option<string>) returns (err: Option<string>)
      requires Valid()
      modifies this`workouts
      ensures Valid()
      ensures err == fault
      ensures fault.Some? ==> unchanged(this)
      ensures fault.None? ==> workouts == old(workouts) - {id}
    {
      if fault.None? {
        workouts := workouts - {id};
      }
      err := fault;
    }

    method DeleteSet(id: int, fault: Option<string>) returns (err: Option<string>)
      requires Valid()
      modifies this`sets
      ensures Valid()
      ensures err == fault
      ensures fault.Some? ==> unchanged(this)
      ensures fault.None? ==> sets == old(sets) - {id}
    {
      if fault.None? {
        sets := sets - {id};
      }
      err := fault;
    }
  }
}
