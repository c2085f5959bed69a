/**
 * Concrete request sequences against an empty database: a "Leg Day" workout
 * with two sets, the assertions of the exercise
 * integration tests, and the quirks of the set and workout handlers.
 */
module Scenarios {
  import opened Wrappers
  import opened Models
  import opened Http
  import opened Decimal
  import opened Store
  import SetHandler
  import ExerciseHandler
  import WorkoutHandler
  import WorkoutRepo

  /** The float64 bit patterns of 100.0 and 110.0. */
  const Weight100: Weight := 0x4059_0000_0000_0000
  const Weight110: Weight := 0x405B_8000_0000_0000

  /**
   * Workout 1 "Leg Day", exercises 1 "Bench Press" and 2 "Squat", association 1
   * putting Squat into Leg Day, and sets 1 and 2 under that association.
   */
  method LegDay() returns (db: Db)
    ensures fresh(db) && db.Valid()
    ensures db.workouts == map[1 := Workout(1, "Leg Day", 0)]
    ensures db.exercises == map[1 := Exercise(1, "Bench Press"), 2 := Exercise(2, "Squat")]
    ensures db.workoutExercises == map[1 := WorkoutExercise(1, 1, 2)]
    ensures db.sets == map[1 := Set(1, 1, 1, 10, Weight100), 2 := Set(2, 1, 2, 8, Weight110)]
  {
    AtoiItoa(1);
    db := new Db();
    var r1 := WorkoutHandler.CreateWorkout(db, Success(WorkoutInput("Leg Day", 0)), None);
    var r2 := ExerciseHandler.CreateExercise(db, Success(ExerciseInput("Bench Press")), None);
    var r3 := ExerciseHandler.CreateExercise(db, Success(ExerciseInput("Squat")), None);
    assert db.exercises == map[1 := Exercise(1, "Bench Press"), 2 := Exercise(2, "Squat")];
    var r4 := WorkoutHandler.AddExerciseToWorkout(db, "1", Success(WorkoutExerciseInput(0, 2)), None);
    assert db.workoutExercises == map[1 := WorkoutExercise(1, 1, 2)] && db.sets == map[];
    var r5 := SetHandler.AddSetToExercise(db, "1", "1", Success(SetInput(0, 1, 10, Weight100)), None, None);
    assert db.sets == map[1 := Set(1, 1, 1, 10, Weight100)];
    assert !SetHandler.HasSetNumber(db.sets, 1, 2);
    var r6 := SetHandler.AddSetToExercise(db, "1", "1", Success(SetInput(0, 2, 8, Weight110)), None, None);
  }

  /**
   * The detail view of "Leg Day" nests Squat under its exercise id 2, not
   * under the id 1 of the association, with both sets unchanged.
   */
  method LegDayDetails() returns (written: seq<Response>)
    ensures written == [Response(StatusOK, DetailsBody(WorkoutDetails(1, "Leg Day", [
      ExerciseDetails(2, "Squat", [Set(1, 1, 1, 10, Weight100), Set(2, 1, 2, 8, Weight110)])])))]
  {
    AtoiItoa(1);
    var db := LegDay();
    var loaded := [Loaded(db.workoutExercises[1], [db.sets[1], db.sets[2]])];
    written := WorkoutHandler.GetWorkoutDetails(db, "1", loaded);
    var d := written[0].body.details;
    assert d.exercises[0] == WorkoutRepo.EntryFor(db.exercises, loaded[0]);
    assert d.exercises == [ExerciseDetails(2, "Squat", loaded[0].sets)];
  }

  /** Posting set number 1 again under the same workout-exercise is refused with "1 already exists". */
  method DuplicateSetNumber() returns (written: seq<Response>, stored: map<int, Set>)
    ensures written == [ErrorResponse(StatusBadRequest, "1 already exists")]
    ensures stored == map[1 := Set(1, 1, 1, 10, Weight100), 2 := Set(2, 1, 2, 8, Weight110)]
  {
    AtoiItoa(1);
    var db := LegDay();
    assert SetHandler.HasSetNumber(db.sets, 1, 1) by {
      assert db.sets[1].setNumber == 1;
    }
    assert SetHandler.AlreadyExists(1) == "1 already exists";
    written := SetHandler.AddSetToExercise(db, "1", "1", Success(SetInput(0, 1, 12, Weight110)), None, None);
    stored := db.sets;
  }

  /** `GET /workouts/999` on an empty database: 400, with the store's not-found message. */
  method MissingWorkoutDetails() returns (written: seq<Response>)
    ensures written == [ErrorResponse(StatusBadRequest, RecordNotFound)]
  {
    AtoiItoa(999);
    assert Itoa(999) == "999";
    var db := new Db();
    written := WorkoutHandler.GetWorkoutDetails(db, "999", []);
  }

  /** Adding the same exercise to the same workout twice stores two associations. */
  method SameExerciseAddedTwice() returns (associations: map<int, WorkoutExercise>)
    ensures associations == map[1 := WorkoutExercise(1, 1, 1), 2 := WorkoutExercise(2, 1, 1)]
  {
    AtoiItoa(1);
    var db := new Db();
    var r1 := WorkoutHandler.CreateWorkout(db, Success(WorkoutInput("Push", 0)), None);
    var r2 := ExerciseHandler.CreateExercise(db, Success(ExerciseInput("Bench Press")), None);
    var r3 := WorkoutHandler.AddExerciseToWorkout(db, "1", Success(WorkoutExerciseInput(7, 1)), None);
    var r4 := WorkoutHandler.AddExerciseToWorkout(db, "1", Success(WorkoutExerciseInput(0, 1)), None);
    associations := db.workoutExercises;
  }

  /** Workouts 1 "A" and 2 "B", exercise 1 "Squat", added to both workouts as associations 1 and 2. */
  method TwoWorkouts() returns (db: Db)
    ensures fresh(db) && db.Valid()
    ensures db.workoutExercises == map[1 := WorkoutExercise(1, 1, 1), 2 := WorkoutExercise(2, 2, 1)]
    ensures db.sets == map[] && db.nextSetId == 1
  {
    AtoiItoa(1);
    AtoiItoa(2);
    assert Itoa(2) == "2";
    db := new Db();
    var r1 := WorkoutHandler.CreateWorkout(db, Success(WorkoutInput("A", 0)), None);
    var r2 := WorkoutHandler.CreateWorkout(db, Success(WorkoutInput("B", 0)), None);
    var r3 := ExerciseHandler.CreateExercise(db, Success(ExerciseInput("Squat")), None);
    assert db.workouts == map[1 := Workout(1, "A", 0), 2 := Workout(2, "B", 0)];
    assert db.exercises == map[1 := Exercise(1, "Squat")];
    var r4 := WorkoutHandler.AddExerciseToWorkout(db, "1", Success(WorkoutExerciseInput(0, 1)), None);
    assert db.workoutExercises == map[1 := WorkoutExercise(1, 1, 1)];
    var r5 := WorkoutHandler.AddExerciseToWorkout(db, "2", Success(WorkoutExerciseInput(0, 1)), None);
  }

  /**
   * A set posted under workout 2 lands on workout-exercise 1 of workout 1:
   * the route's workout id is never read. The same number under another
   * workout-exercise does not conflict, and a set for a workout-exercise that
   * does not exist is refused with 400, not 404.
   */
  method SetsIgnoreWorkoutId() returns (first: seq<Response>, second: seq<Response>, third: seq<Response>)
    ensures first == [Response(StatusCreated, SetBody(Set(1, 1, 1, 5, Weight100)))]
    ensures second == [Response(StatusCreated, SetBody(Set(2, 2, 1, 5, Weight100)))]
    ensures third == [ErrorResponse(StatusBadRequest, RecordNotFound)]
  {
    AtoiItoa(1);
    AtoiItoa(2);
    AtoiItoa(10);
    assert Itoa(10) == "10";
    var db := TwoWorkouts();
    assert db.sets == map[];
    first := SetHandler.AddSetToExercise(db, "2", "1", Success(SetInput(9, 1, 5, Weight100)), None, None);
    assert db.sets == map[1 := Set(1, 1, 1, 5, Weight100)];
    assert !SetHandler.HasSetNumber(db.sets, 2, 1);
    second := SetHandler.AddSetToExercise(db, "1", "2", Success(SetInput(0, 1, 5, Weight100)), None, None);
    assert db.sets == map[1 := Set(1, 1, 1, 5, Weight100), 2 := Set(2, 2, 1, 5, Weight100)];
    assert !SetHandler.HasSetNumber(db.sets, 10, 3);
    third := SetHandler.AddSetToExercise(db, "1", "10", Success(SetInput(0, 3, 5, Weight100)), None, None);
  }

  /**
   * Set number 0 writes "set number must be greater than 0" and then, because
   * processing goes on, 201: the set is stored with number 0.
   */
  method ZeroSetNumberIsStored() returns (written: seq<Response>, stored: map<int, Set>)
    ensures written == [ErrorResponse(StatusBadRequest, SetNumberNotPositive),
                        Response(StatusCreated, SetBody(Set(1, 1, 0, 8, Weight100)))]
    ensures stored == map[1 := Set(1, 1, 0, 8, Weight100)]
  {
    AtoiItoa(1);
    var db := new Db();
    var r1 := WorkoutHandler.CreateWorkout(db, Success(WorkoutInput("A", 0)), None);
    var r2 := ExerciseHandler.CreateExercise(db, Success(ExerciseInput("Squat")), None);
    var r3 := WorkoutHandler.AddExerciseToWorkout(db, "1", Success(WorkoutExerciseInput(0, 1)), None);
    written := SetHandler.AddSetToExercise(db, "1", "1", Success(SetInput(0, 0, 8, Weight100)), None, None);
    stored := db.sets;
  }

  /** The corrected handler refuses the same request and stores nothing. */
  method ZeroSetNumberRefused() returns (written: seq<Response>, stored: map<int, Set>)
    ensures written == [ErrorResponse(StatusBadRequest, SetNumberNotPositive)]
    ensures stored == map[]
  {
    AtoiItoa(1);
    var db := new Db();
    var r1 := WorkoutHandler.CreateWorkout(db, Success(WorkoutInput("A", 0)), None);
    var r2 := ExerciseHandler.CreateExercise(db, Success(ExerciseInput("Squat")), None);
    var r3 := WorkoutHandler.AddExerciseToWorkout(db, "1", Success(WorkoutExerciseInput(0, 1)), None);
    written := SetHandler.AddSetToExerciseChecked(db, "1", "1", Success(SetInput(0, 0, 8, Weight100)), None, None);
    stored := db.sets;
  }

  /**
   * The requests of the exercise integration tests replayed on an empty store:
   * create "Bench Press" (201, same name, id 1), an empty name is refused,
   * fetching id 1 returns it (200, same name and id), fetch and patch of a
   * missing id 10 answer "record not found", deleting an existing exercise
   * answers "Exercise deleted", and an id "invalid" answers "invalid exercise ID".
   */
  method ExerciseIntegration() returns (created: seq<Response>, emptyName: seq<Response>,
                                        fetched: seq<Response>, fetchMissing: seq<Response>,
                                        updated: seq<Response>, updateMissing: seq<Response>,
                                        deleted: seq<Response>, deleteInvalid: seq<Response>)
    ensures created == [Response(StatusCreated, ExerciseBody(Exercise(1, "Bench Press")))]
    ensures emptyName == [ErrorResponse(StatusBadRequest, NameEmpty)]
    ensures fetched == [Response(StatusOK, ExerciseBody(Exercise(1, "Bench Press")))]
    ensures fetchMissing == [ErrorResponse(StatusNotFound, RecordNotFound)]
    ensures updated == [Response(StatusOK, ExerciseBody(Exercise(1, "Squat")))]
    ensures updateMissing == [ErrorResponse(StatusNotFound, RecordNotFound)]
    ensures deleted == [Response(StatusOK, MessageBody(ExerciseDeleted))]
    ensures deleteInvalid == [ErrorResponse(StatusBadRequest, InvalidExerciseId)]
  {
    AtoiItoa(1);
    AtoiItoa(10);
    assert Itoa(10) == "10";
    assert Atoi("invalid") == None by {
      assert !IsDigit("invalid"[0]);
    }
    var db := new Db();
    created := ExerciseHandler.CreateExercise(db, Success(ExerciseInput("Bench Press")), None);
    emptyName := ExerciseHandler.CreateExercise(db, Success(ExerciseInput("")), None);
    fetched := ExerciseHandler.GetExerciseByID(db, "1");
    fetchMissing := ExerciseHandler.GetExerciseByID(db, "10");
    updated := ExerciseHandler.UpdateExercise(db, "1", Success(ExercisePatch(Some("Squat"))), None);
    updateMissing := ExerciseHandler.UpdateExercise(db, "10", Success(ExercisePatch(Some("Squat"))), None);
    deleted := ExerciseHandler.DeleteExercise(db, "1", None);
    deleteInvalid := ExerciseHandler.DeleteExercise(db, "invalid", None);
  }
}
