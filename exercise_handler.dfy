/** The exercise handler: create, fetch, patch and delete exercises by `:id`. */
module ExerciseHandler {
  import opened Wrappers
  import opened Models
  import opened Http
  import opened Decimal
  import opened Store

  /** `GET /exercises/:id`: 400 for an unparsable id, 404 with the store's message for a missing one. */
  function GetExerciseByID(db: Db, idParam: string): (written: seq<Response>)
    requires db.Valid()
    reads db
    ensures |written| == 1
    ensures Atoi(idParam).None? ==> written[0] == ErrorResponse(StatusBadRequest, InvalidExerciseId)
    ensures Atoi(idParam).Some? && Atoi(idParam).value !in db.exercises ==>
      written[0] == ErrorResponse(StatusNotFound, RecordNotFound)
    ensures Atoi(idParam).Some? && Atoi(idParam).value in db.exercises ==>
      && written[0] == Response(StatusOK, ExerciseBody(db.exercises[Atoi(idParam).value]))
      && db.exercises[Atoi(idParam).value].id == Atoi(idParam).value
  {
    match Atoi(idParam)
    case None => [ErrorResponse(StatusBadRequest, InvalidExerciseId)]
    case Some(id) =>
      match db.GetExerciseByID(id)
      case Failure(err) => [ErrorResponse(StatusNotFound, err)]
      case Success(e) => [Response(StatusOK, ExerciseBody(e))]
  }

  /**
   * `POST /exercises`: a body that does not bind or an empty name is refused
   * with 400 and nothing is stored; a store error gives 500; otherwise the
   * exercise is stored under a fresh positive id and returned with 201, and a
   * `GET` of that id returns it.
   */
  method CreateExercise(db: Db, body: Result<ExerciseInput, string>, fault: Option<string>)
    returns (written: seq<Response>)
    requires db.Valid()
    modifies db`exercises, db`nextExerciseId
    ensures db.Valid()
    ensures body.Failure? ==> written == [ErrorResponse(StatusBadRequest, body.error)] && unchanged(db)
    ensures body.Success? && body.value.name == "" ==>
      written == [ErrorResponse(StatusBadRequest, NameEmpty)] && unchanged(db)
    ensures body.Success? && body.value.name != "" && fault.Some? ==>
      written == [ErrorResponse(StatusInternalServerError, fault.value)] && unchanged(db)
    ensures body.Success? && body.value.name != "" && fault.None? ==>
      var e := Exercise(old(db.nextExerciseId), body.value.name);
      && e.id >= 1 && e.id !in old(db.exercises)
      && db.exercises == old(db.exercises)[e.id := e]
      && db.nextExerciseId == old(db.nextExerciseId) + 1
      && written == [Response(StatusCreated, ExerciseBody(e))]
      && (e.id <= MaxInt ==> GetExerciseByID(db, Itoa(e.id)) == [Response(StatusOK, ExerciseBody(e))])
  {
    if body.Failure? {
      return [ErrorResponse(StatusBadRequest, body.error)];
    }
    var input := body.value;
    if input.name == "" {
      return [ErrorResponse(StatusBadRequest, NameEmpty)];
    }
    var created := db.CreateExercise(input, fault);
    if created.Failure? {
      return [ErrorResponse(StatusInternalServerError, created.error)];
    }
    written := [Response(StatusCreated, ExerciseBody(created.value))];
    if created.value.id <= MaxInt {
      AtoiItoa(created.value.id);
    }
  }

  /**
   * `PUT /exercises/:id`: the exercise is looked up before the body is bound,
   * so a missing exercise gives 404 whatever the body; on success the stored
   * exercise carries the patched fields and is returned with 200.
   */
  method UpdateExercise(db: Db, idParam: string, body: Result<ExercisePatch, string>, fault: Option<string>)
    returns (written: seq<Response>)
    requires db.Valid()
    modifies db`exercises
    ensures db.Valid()
    ensures Atoi(idParam).None? ==> written == [ErrorResponse(StatusBadRequest, InvalidExerciseId)] && unchanged(db)
    ensures Atoi(idParam).Some? && Atoi(idParam).value !in old(db.exercises) ==>
      written == [ErrorResponse(StatusNotFound, RecordNotFound)] && unchanged(db)
    ensures Atoi(idParam).Some? && Atoi(idParam).value in old(db.exercises) ==>
      var id := Atoi(idParam).value;
      && (body.Failure? ==> written == [ErrorResponse(StatusBadRequest, body.error)] && unchanged(db))
      && (body.Success? && fault.Some? ==>
            written == [ErrorResponse(StatusInternalServerError, fault.value)] && unchanged(db))
      && (body.Success? && fault.None? ==>
            var e := PatchExercise(old(db.exercises)[id], body.value);
            && e.id == id
            && db.exercises == old(db.exercises)[id := e]
            && written == [Response(StatusOK, ExerciseBody(e))]
            && GetExerciseByID(db, idParam) == written)
  {
    var parsed := Atoi(idParam);
    if parsed.None? {
      return [ErrorResponse(StatusBadRequest, InvalidExerciseId)];
    }
    var found := db.GetExerciseByID(parsed.value);
    if found.Failure? {
      return [ErrorResponse(StatusNotFound, found.error)];
    }
    if body.Failure? {
      return [ErrorResponse(StatusBadRequest, body.error)];
    }
    var updated := db.UpdateExercise(found.value, body.value, fault);
    if updated.Failure? {
      return [ErrorResponse(StatusInternalServerError, updated.error)];
    }
    written := [Response(StatusOK, ExerciseBody(updated.value))];
  }

  /** `DELETE /exercises/:id`: no existence check; 200 unless the store reports an error. */
  method DeleteExercise(db: Db, idParam: string, fault: Option<string>) returns (written: seq<Response>)
    requires db.Valid()
    modifies db`exercises
    ensures db.Valid()
    ensures Atoi(idParam).None? ==> written == [ErrorResponse(StatusBadRequest, InvalidExerciseId)] && unchanged(db)
    ensures Atoi(idParam).Some? && fault.Some? ==>
      written == [ErrorResponse(StatusInternalServerError, fault.value)] && unchanged(db)
    ensures Atoi(idParam).Some? && fault.None? ==>
      && written == [Response(StatusOK, MessageBody(ExerciseDeleted))]
      && db.exercises == old(db.exercises) - {Atoi(idParam).value}
      && GetExerciseByID(db, idParam) == [ErrorResponse(StatusNotFound, RecordNotFound)]
  {
    var parsed := Atoi(idParam);
    if parsed.None? {
      return [ErrorResponse(StatusBadRequest, InvalidExerciseId)];
    }
    var err := db.DeleteExercise(parsed.value, fault);
    if err.Some? {
      return [ErrorResponse(StatusInternalServerError, err.value)];
    }
    written := [Response(StatusOK, MessageBody(ExerciseDeleted))];
  }
}
