/**
 * The workout repository's aggregation: the nested detail view of one workout,
 * built from the workout row, its eagerly loaded workout-exercises (each with
 * its sets), and one exercise lookup per workout-exercise.
 */
module WorkoutRepo {
  import opened Wrappers
  import opened Models
  import opened Store

  /**
   * The detail entry for one loaded workout-exercise: the id and name of the
   * exercise it references, or the zero id and empty name when that lookup
   * fails (its error is ignored), and its sets as loaded.
   */
  function EntryFor(exercises: map<int, Exercise>, we: LoadedWorkoutExercise): (e: ExerciseDetails)
    ensures e.sets == we.sets
    ensures we.row.exerciseId in exercises ==>
      e.id == exercises[we.row.exerciseId].id && e.name == exercises[we.row.exerciseId].name
    ensures we.row.exerciseId !in exercises ==> e.id == 0 && e.name == ""
  {
    var exercise := match Lookup(exercises, we.row.exerciseId)
      case Success(x) => x
      case Failure(_) => Exercise(0, "");
    ExerciseDetails(exercise.id, exercise.name, we.sets)
  }

  /** `d` is the view of workout `w`: its id and name, and one entry per loaded workout-exercise, in order. */
  ghost predicate IsDetailsOf(d: WorkoutDetails, w: Workout, exercises: map<int, Exercise>, loaded: seq<LoadedWorkoutExercise>) {
    && d.id == w.id
    && d.name == w.name
    && |d.exercises| == |loaded|
    && forall k :: 0 <= k < |loaded| ==> d.exercises[k] == EntryFor(exercises, loaded[k])
  }

  /** `ss` holds exactly the sets stored for workout-exercise `weId`. */
  ghost predicate OwnedSets(ss: seq<Set>, sets: map<int, Set>, weId: int) {
    && (forall s :: s in ss ==> s.id in sets && sets[s.id] == s && s.workoutExerciseId == weId)
    && (forall k :: k in sets && sets[k].workoutExerciseId == weId ==> sets[k] in ss)
  }

  /**
   * What the eager load `Preload("Exercises.Sets")` of workout `workoutId`
   * delivers: every stored association of that workout, each once, in some
   * order, each carrying exactly its stored sets.
   */
  ghost predicate IsPreloadOf(db: Db, workoutId: int, loaded: seq<LoadedWorkoutExercise>)
    reads db
  {
    && (forall k :: 0 <= k < |loaded| ==>
         && loaded[k].row.id in db.workoutExercises
         && db.workoutExercises[loaded[k].row.id] == loaded[k].row
         && loaded[k].row.workoutId == workoutId
         && OwnedSets(loaded[k].sets, db.sets, loaded[k].row.id))
    && (forall weId :: weId in db.workoutExercises && db.workoutExercises[weId].workoutId == workoutId ==>
         exists k :: 0 <= k < |loaded| && loaded[k].row.id == weId)
    && (forall i, j :: 0 <= i < j < |loaded| ==> loaded[i].row.id != loaded[j].row.id)
  }

  /**
   * `GetWorkoutDetails(id)`. `loaded` is the workout's `Exercises` as the
   * eager load returned them; the store decides their order.
   */
  method GetWorkoutDetails(db: Db, id: int, loaded: seq<LoadedWorkoutExercise>) returns (r: Result<WorkoutDetails, string>)
    requires db.Valid()
    ensures r.Failure? <==> id !in db.workouts
    ensures r.Failure? ==> r.error == RecordNotFound
    ensures r.Success? ==> r.value.id == id && IsDetailsOf(r.value, db.workouts[id], db.exercises, loaded)
    ensures r.Success? ==> forall k :: 0 <= k < |loaded| && loaded[k].row.exerciseId in db.exercises ==>
      r.value.exercises[k].id == loaded[k].row.exerciseId
    ensures r.Success? && IsPreloadOf(db, id, loaded) ==>
      forall weId :: weId in db.workoutExercises && db.workoutExercises[weId].workoutId == id ==>
        exists k :: 0 <= k < |r.value.exercises| && loaded[k].row.id == weId
          && OwnedSets(r.value.exercises[k].sets, db.sets, weId)
          && forall j :: 0 <= j < |r.value.exercises| && loaded[j].row.id == weId ==> j == k
  {
    var found := db.GetWorkoutByID(id);
    if found.Failure? {
      return Failure(found.error);
    }
    var workout := found.value;
    var details := WorkoutDetails(workout.id, workout.name, []);
    for i := 0 to |loaded|
      invariant details.id == workout.id && details.name == workout.name
      invariant |details.exercises| == i
      invariant forall k :: 0 <= k < i ==> details.exercises[k] == EntryFor(db.exercises, loaded[k])
    {
      var we := loaded[i];
      var exercise := Exercise(0, "");
      var lookup := db.GetExerciseByID(we.row.exerciseId);
      if lookup.Success? {
        exercise := lookup.value;
      }
      var entry := ExerciseDetails(exercise.id, exercise.name, we.sets);
      details := details.(exercises := details.exercises + [entry]);
    }
    r := Success(details);
  }
}
