/**
 * The workout handler: create, fetch, patch and delete workouts, add an
 * exercise to a workout, and serve a workout's detail view.
 */
module WorkoutHandler {
  import opened Wrappers
  import opened Models
  import opened Http
  import opened Decimal
  import opened Store
  import WorkoutRepo

  /** `GetWorkoutByID` (registered on no route): 400 for an unparsable id, 404 for a missing one. */
  function GetWorkoutByID(db: Db, idParam: string): (written: seq<Response>)
    requires db.Valid()
    reads db
    ensures |written| == 1
    ensures Atoi(idParam).None? ==> written[0] == ErrorResponse(StatusBadRequest, InvalidWorkoutId)
    ensures Atoi(idParam).Some? && Atoi(idParam).value !in db.workouts ==>
      written[0] == ErrorResponse(StatusNotFound, RecordNotFound)
    ensures Atoi(idParam).Some? && Atoi(idParam).value in db.workouts ==>
      && written[0] == Response(StatusOK, WorkoutBody(db.workouts[Atoi(idParam).value]))
      && db.workouts[Atoi(idParam).value].id == Atoi(idParam).value
  {
    match Atoi(idParam)
    case None => [ErrorResponse(StatusBadRequest, InvalidWorkoutId)]
    case Some(id) =>
      match db.GetWorkoutByID(id)
      case Failure(err) => [ErrorResponse(StatusNotFound, err)]
      case Success(w) => [Response(StatusOK, WorkoutBody(w))]
  }

  /**
   * `POST /workouts`: a body that does not bind or an empty name is refused
   * with 400 and nothing is stored; a store error gives 500; otherwise the
   * workout is stored under a fresh positive id and returned with 201.
   */
  method CreateWorkout(db: Db, body: Result<WorkoutInput, string>, fault: Option<string>)
    returns (written: seq<Response>)
    requires db.Valid()
    modifies db`workouts, db`nextWorkoutId
    ensures db.Valid()
    ensures body.Failure? ==> written == [ErrorResponse(StatusBadRequest, body.error)] && unchanged(db)
    ensures body.Success? && body.value.name == "" ==>
      written == [ErrorResponse(StatusBadRequest, NameEmpty)] && unchanged(db)
    ensures body.Success? && body.value.name != "" && fault.Some? ==>
      written == [ErrorResponse(StatusInternalServerError, fault.value)] && unchanged(db)
    ensures body.Success? && body.value.name != "" && fault.None? ==>
      var w := Workout(old(db.nextWorkoutId), body.value.name, body.value.userId);
      && w.id >= 1 && w.id !in old(db.workouts)
      && db.workouts == old(db.workouts)[w.id := w]
      && db.nextWorkoutId == old(db.nextWorkoutId) + 1
      && written == [Response(StatusCreated, WorkoutBody(w))]
      && (w.id <= MaxInt ==> GetWorkoutByID(db, Itoa(w.id)) == [Response(StatusOK, WorkoutBody(w))])
  {
    if body.Failure? {
      return [ErrorResponse(StatusBadRequest, body.error)];
    }
    var input := body.value;
    if input.name == "" {
      return [ErrorResponse(StatusBadRequest, NameEmpty)];
    }
    var created := db.CreateWorkout(input, fault);
    if created.Failure? {
      return [ErrorResponse(StatusInternalServerError, created.error)];
    }
    written := [Response(StatusCreated, WorkoutBody(created.value))];
    if created.value.id <= MaxInt {
      AtoiItoa(created.value.id);
    }
  }

  /**
   * `PUT /workouts/:id`: the workout is looked up before the body is bound,
   * so a missing workout gives 404 even when the body is malformed; on
   * success the stored workout carries the patched fields and is returned
   * with 200.
   */
  method UpdateWorkout(db: Db, idParam: string, body: Result<WorkoutPatch, string>, fault: Option<string>)
    returns (written: seq<Response>)
    requires db.Valid()
    modifies db`workouts
    ensures db.Valid()
    ensures Atoi(idParam).None? ==> written == [ErrorResponse(StatusBadRequest, InvalidWorkoutId)] && unchanged(db)
    ensures Atoi(idParam).Some? && Atoi(idParam).value !in old(db.workouts) ==>
      written == [ErrorResponse(StatusNotFound, RecordNotFound)] && unchanged(db)
    ensures Atoi(idParam).Some? && Atoi(idParam).value in old(db.workouts) ==>
      var id := Atoi(idParam).value;
      && (body.Failure? ==> written == [ErrorResponse(StatusBadRequest, body.error)] && unchanged(db))
      && (body.Success? && fault.Some? ==>
            written == [ErrorResponse(StatusInternalServerError, fault.value)] && unchanged(db))
      && (body.Success? && fault.None? ==>
            var w := PatchWorkout(old(db.workouts)[id], body.value);
            && w.id == id
            && db.workouts == old(db.workouts)[id := w]
            && written == [Response(StatusOK, WorkoutBody(w))]
            && GetWorkoutByID(db, idParam) == written)
  {
    var parsed := Atoi(idParam);
    if parsed.None? {
      return [ErrorResponse(StatusBadRequest, InvalidWorkoutId)];
    }
    var found := db.GetWorkoutByID(parsed.value);
    if found.Failure? {
      return [ErrorResponse(StatusNotFound, found.error)];
    }
    if body.Failure? {
      return [ErrorResponse(StatusBadRequest, body.error)];
    }
    var updated := db.UpdateWorkout(found.value, body.value, fault);
    if updated.Failure? {
      return [ErrorResponse(StatusInternalServerError, updated.error)];
    }
    written := [Response(StatusOK, WorkoutBody(updated.value))];
  }

  /** `DELETE /workouts/:id`: no existence check; 200 unless the store reports an error. */
  method DeleteWorkout(db: Db, idParam: string, fault: Option<string>) returns (written: seq<Response>)
    requires db.Valid()
    modifies db`workouts
    ensures db.Valid()
    ensures Atoi(idParam).None? ==> written == [ErrorResponse(StatusBadRequest, InvalidWorkoutId)] && unchanged(db)
    ensures Atoi(idParam).Some? && fault.Some? ==>
      written == [ErrorResponse(StatusInternalServerError, fault.value)] && unchanged(db)
    ensures Atoi(idParam).Some? && fault.None? ==>
      && written == [Response(StatusOK, MessageBody(WorkoutDeleted))]
      && db.workouts == old(db.workouts) - {Atoi(idParam).value}
      && GetWorkoutByID(db, idParam) == [ErrorResponse(StatusNotFound, RecordNotFound)]
  {
    var parsed := Atoi(idParam);
    if parsed.None? {
      return [ErrorResponse(StatusBadRequest, InvalidWorkoutId)];
    }
    var err := db.DeleteWorkout(parsed.value, fault);
    if err.Some? {
      return [ErrorResponse(StatusInternalServerError, err.value)];
    }
    written := [Response(StatusOK, MessageBody(WorkoutDeleted))];
  }

  /**
   * What `POST /workouts/:id/exercises` does, as a relation between the
   * association table before and after and the one response it writes. The
   * checks run in this order and the first failure answers: `:id` parses
   * (400), the body binds (400), the workout exists (404), the body's
   * exercise id is not 0 (400), the exercise exists (404). Then the
   * association is stored with the path's workout id, whatever the body said,
   * and 200 is written; a store error there is answered with 404. There is no
   * check for an existing association of the same pair.
   */
  ghost predicate AddExerciseOutcome(workouts: map<int, Workout>, exercises: map<int, Exercise>,
                                     wes0: map<int, WorkoutExercise>, next0: nat,
                                     idParam: string, body: Result<WorkoutExerciseInput, string>, fault: Option<string>,
                                     wes1: map<int, WorkoutExercise>, next1: nat, written: seq<Response>)
    requires forall k :: k in workouts ==> k >= 1
  {
    var unchangedTable := wes1 == wes0 && next1 == next0;
    match Atoi(idParam)
    case None => written == [ErrorResponse(StatusBadRequest, InvalidWorkoutId)] && unchangedTable
    case Some(id) =>
      match body
      case Failure(msg) => written == [ErrorResponse(StatusBadRequest, msg)] && unchangedTable
      case Success(input) =>
        if id !in workouts then
          written == [ErrorResponse(StatusNotFound, RecordNotFound)] && unchangedTable
        else if input.exerciseId == 0 then
          written == [ErrorResponse(StatusBadRequest, InvalidExerciseId)] && unchangedTable
        else if input.exerciseId !in exercises then
          written == [ErrorResponse(StatusNotFound, RecordNotFound)] && unchangedTable
        else if fault.Some? then
          written == [ErrorResponse(StatusNotFound, fault.value)] && unchangedTable
        else
          var we := WorkoutExercise(next0, id as nat, input.exerciseId);
          && we.id !in wes0
          && wes1 == wes0[we.id := we]
          && next1 == next0 + 1
          && written == [Response(StatusOK, MessageBody(ExerciseAdded))]
  }

  /** `POST /workouts/:id/exercises`: stores one association after the ordered checks of `AddExerciseOutcome`. */
  method AddExerciseToWorkout(db: Db, idParam: string, body: Result<WorkoutExerciseInput, string>, fault: Option<string>)
    returns (written: seq<Response>)
    requires db.Valid()
    modifies db`workoutExercises, db`nextWorkoutExerciseId
    ensures db.Valid()
    ensures |written| == 1
    ensures AddExerciseOutcome(db.workouts, db.exercises, old(db.workoutExercises), old(db.nextWorkoutExerciseId),
                               idParam, body, fault, db.workoutExercises, db.nextWorkoutExerciseId, written)
  {
    var parsed := Atoi(idParam);
    if parsed.None? {
      return [ErrorResponse(StatusBadRequest, InvalidWorkoutId)];
    }
    var id := parsed.value;
    if body.Failure? {
      return [ErrorResponse(StatusBadRequest, body.error)];
    }
    var input := body.value;
    var workout := db.GetWorkoutByID(id);
    if workout.Failure? {
      return [ErrorResponse(StatusNotFound, workout.error)];
    }
    if input.exerciseId == 0 {
      return [ErrorResponse(StatusBadRequest, InvalidExerciseId)];
    }
    var exercise := db.GetExerciseByID(input.exerciseId);
    if exercise.Failure? {
      return [ErrorResponse(StatusNotFound, exercise.error)];
    }
    var association := input.(workoutId := id as nat);
    var created := db.AddExerciseToWorkout(association, fault);
    if created.Failure? {
      return [ErrorResponse(StatusNotFound, created.error)];
    }
    written := [Response(StatusOK, MessageBody(ExerciseAdded))];
  }

  /**
   * `GET /workouts/:id`: 400 for an unparsable id, 400 (not 404) with the
   * store's message when the workout does not exist, otherwise 200 with the
   * detail view built from `loaded`, the workout's eagerly loaded
   * workout-exercises.
   */
  method GetWorkoutDetails(db: Db, idParam: string, loaded: seq<LoadedWorkoutExercise>) returns (written: seq<Response>)
    requires db.Valid()
    ensures |written| == 1
    ensures Atoi(idParam).None? ==> written[0] == ErrorResponse(StatusBadRequest, InvalidWorkoutId)
    ensures Atoi(idParam).Some? && Atoi(idParam).value !in db.workouts ==>
      written[0] == ErrorResponse(StatusBadRequest, RecordNotFound)
    ensures Atoi(idParam).Some? && Atoi(idParam).value in db.workouts ==>
      && written[0].status == StatusOK && written[0].body.DetailsBody?
      && written[0].body.details.id == Atoi(idParam).value
      && WorkoutRepo.IsDetailsOf(written[0].body.details, db.workouts[Atoi(idParam).value], db.exercises, loaded)
  {
    var parsed := Atoi(idParam);
    if parsed.None? {
      return [ErrorResponse(StatusBadRequest, InvalidWorkoutId)];
    }
    var details := WorkoutRepo.GetWorkoutDetails(db, parsed.value, loaded);
    if details.Failure? {
      return [ErrorResponse(StatusBadRequest, details.error)];
    }
    written := [Response(StatusOK, DetailsBody(details.value))];
  }
}
