/**
 * The set handler: adding a set to a workout-exercise (the route's
 * `:exercise_id` is a workout-exercise id, and its `:id` is never read),
 * fetching and deleting one set, and listing a workout-exercise's sets.
 */
module SetHandler {
  import opened Wrappers
  import opened Models
  import opened Http
  import opened Decimal
  import opened Store

  /** `fmt.Sprintf("%d already exists", n)`. */
  function AlreadyExists(n: int): string {
    Itoa(n) + " already exists"
  }

  /** The duplicate-number error names the number it rejected. */
  lemma {:induction false} AlreadyExistsNamesNumber(a: int, b: int)
    requires AlreadyExists(a) == AlreadyExists(b)
    ensures a == b
  {
    var ta, tb := Itoa(a), Itoa(b);
    assert |ta| == |tb|;
    assert ta == AlreadyExists(a)[..|ta|];
    assert tb == AlreadyExists(b)[..|tb|];
    ItoaInjective(a, b);
  }

  /** Some stored set of workout-exercise `weId` has number `n`. */
  ghost predicate HasSetNumber(sets: map<int, Set>, weId: int, n: int) {
    exists k :: k in sets && sets[k].workoutExerciseId == weId && sets[k].setNumber == n
  }

  /** Within one workout-exercise, no two stored sets share a number. */
  ghost predicate UniqueSetNumbers(sets: map<int, Set>) {
    forall a, b :: a in sets && b in sets && a != b && sets[a].workoutExerciseId == sets[b].workoutExerciseId ==>
      sets[a].setNumber != sets[b].setNumber
  }

  /** Every stored set has a number of at least 1. */
  ghost predicate PositiveSetNumbers(sets: map<int, Set>) {
    forall k :: k in sets ==> sets[k].setNumber >= 1
  }

  /** The responses written before the lookup chain: a warning for a number below 1, which does not stop it. */
  function Warning(n: int): seq<Response> {
    if n < 1 then [ErrorResponse(StatusBadRequest, SetNumberNotPositive)] else []
  }

  /** The scan over the existing sets for one with the same number. */
  method ContainsSetNumber(sets: seq<Set>, n: int) returns (found: bool)
    ensures found <==> exists i :: 0 <= i < |sets| && sets[i].setNumber == n
  {
    for i := 0 to |sets|
      invariant forall j :: 0 <= j < i ==> sets[j].setNumber != n
    {
      if sets[i].setNumber == n {
        return true;
      }
    }
    return false;
  }

  /**
   * What the part of `AddSetToExercise` after the set-number check does, as a
   * relation between the set table before (`sets0`, `next0`) and after
   * (`sets1`, `next1`) and the one response `last` it writes: parse
   * `:exercise_id`; reject a number already used by a set of that
   * workout-exercise; then reject a workout-exercise that does not exist (a
   * 400, and only after the duplicate scan); otherwise stamp its id on the set
   * (whatever the body said) and insert it. Every rejection leaves the table
   * as it was.
   */
  ghost predicate InsertOutcome(sets0: map<int, Set>, next0: nat, workoutExercises: map<int, WorkoutExercise>,
                                exerciseIdParam: string, input: SetInput,
                                listFault: Option<string>, createFault: Option<string>,
                                sets1: map<int, Set>, next1: nat, last: Response)
    requires forall k :: k in workoutExercises ==> k >= 1
  {
    var unchangedTable := sets1 == sets0 && next1 == next0;
    match Atoi(exerciseIdParam)
    case None => last == ErrorResponse(StatusBadRequest, InvalidExerciseId) && unchangedTable
    case Some(weId) =>
      if listFault.Some? then
        last == ErrorResponse(StatusBadRequest, listFault.value) && unchangedTable
      else if HasSetNumber(sets0, weId, input.setNumber) then
        last == ErrorResponse(StatusBadRequest, AlreadyExists(input.setNumber)) && unchangedTable
      else if weId !in workoutExercises then
        last == ErrorResponse(StatusBadRequest, RecordNotFound) && unchangedTable
      else if createFault.Some? then
        last == ErrorResponse(StatusInternalServerError, createFault.value) && unchangedTable
      else
        var s := Set(next0, weId as nat, input.setNumber, input.reps, input.weight);
        && s.id !in sets0
        && sets1 == sets0[s.id := s]
        && next1 == next0 + 1
        && last == Response(StatusCreated, SetBody(s))
  }

  /** The part of `AddSetToExercise` after the set-number check, writing one response. */
  method ParseCheckAndInsert(db: Db, exerciseIdParam: string, input: SetInput,
                             listFault: Option<string>, createFault: Option<string>)
    returns (last: Response)
    requires db.Valid()
    modifies db`sets, db`nextSetId
    ensures db.Valid()
    ensures InsertOutcome(old(db.sets), old(db.nextSetId), db.workoutExercises, exerciseIdParam, input,
                          listFault, createFault, db.sets, db.nextSetId, last)
    ensures UniqueSetNumbers(old(db.sets)) ==> UniqueSetNumbers(db.sets)
    ensures PositiveSetNumbers(old(db.sets)) && input.setNumber >= 1 ==> PositiveSetNumbers(db.sets)
    ensures last.body.SetBody? && last.body.row.id <= MaxInt ==>
      GetSetByID(db, Itoa(last.body.row.id)) == [Response(StatusOK, last.body)]
  {
    var parsed := Atoi(exerciseIdParam);
    if parsed.None? {
      return ErrorResponse(StatusBadRequest, InvalidExerciseId);
    }
    var weId := parsed.value;
    if listFault.Some? {
      return ErrorResponse(StatusBadRequest, listFault.value);
    }
    var existing := db.GetSetsForExercise(weId);
    var duplicate := ContainsSetNumber(existing, input.setNumber);
    if duplicate {
      ghost var i :| 0 <= i < |existing| && existing[i].setNumber == input.setNumber;
      assert db.sets[existing[i].id] == existing[i];
      return ErrorResponse(StatusBadRequest, AlreadyExists(input.setNumber));
    }
    assert !HasSetNumber(db.sets, weId, input.setNumber) by {
      forall k | k in db.sets && db.sets[k].workoutExerciseId == weId
        ensures db.sets[k].setNumber != input.setNumber
      {
        assert db.sets[k] in existing;
      }
    }
    var owner := db.GetWorkoutExerciseByID(weId);
    if owner.Failure? {
      return ErrorResponse(StatusBadRequest, owner.error);
    }
    var stamped := input.(workoutExerciseId := weId as nat);
    var created := db.CreateSet(stamped, createFault);
    if created.Failure? {
      return ErrorResponse(StatusInternalServerError, created.error);
    }
    last := Response(StatusCreated, SetBody(created.value));
    if created.value.id <= MaxInt {
      AtoiItoa(created.value.id);
    }
  }

  /**
   * `POST /workouts/:id/exercises/:exercise_id/sets` as written: a number
   * below 1 writes an error but processing goes on, so a request can write
   * that error and then still create the set and write 201.
   */
  method AddSetToExercise(db: Db, workoutIdParam: string, exerciseIdParam: string, body: Result<SetInput, string>,
                          listFault: Option<string>, createFault: Option<string>)
    returns (written: seq<Response>)
    requires db.Valid()
    modifies db`sets, db`nextSetId
    ensures db.Valid()
    ensures UniqueSetNumbers(old(db.sets)) ==> UniqueSetNumbers(db.sets)
    ensures body.Failure? ==> written == [ErrorResponse(StatusBadRequest, body.error)] && unchanged(db)
    ensures body.Success? ==>
      && |written| == |Warning(body.value.setNumber)| + 1
      && written[..|written| - 1] == Warning(body.value.setNumber)
      && InsertOutcome(old(db.sets), old(db.nextSetId), db.workoutExercises, exerciseIdParam, body.value,
                       listFault, createFault, db.sets, db.nextSetId, written[|written| - 1])
    ensures var last := written[|written| - 1];
      last.body.SetBody? && last.body.row.id <= MaxInt ==>
        GetSetByID(db, Itoa(last.body.row.id)) == [Response(StatusOK, last.body)]
  {
    if body.Failure? {
      return [ErrorResponse(StatusBadRequest, body.error)];
    }
    var input := body.value;
    written := [];
    if input.setNumber < 1 {
      written := written + [ErrorResponse(StatusBadRequest, SetNumberNotPositive)];
    }
    var last := ParseCheckAndInsert(db, exerciseIdParam, input, listFault, createFault);
    written := written + [last];
  }

  /**
   * The same route with the evident intent: a number below 1 is rejected and
   * nothing else happens. Exactly one response is written, and every stored
   * set number stays positive and unique within its workout-exercise.
   */
  method AddSetToExerciseChecked(db: Db, workoutIdParam: string, exerciseIdParam: string, body: Result<SetInput, string>,
                                 listFault: Option<string>, createFault: Option<string>)
    returns (written: seq<Response>)
    requires db.Valid()
    modifies db`sets, db`nextSetId
    ensures db.Valid()
    ensures |written| == 1
    ensures UniqueSetNumbers(old(db.sets)) ==> UniqueSetNumbers(db.sets)
    ensures PositiveSetNumbers(old(db.sets)) ==> PositiveSetNumbers(db.sets)
    ensures body.Failure? ==> written == [ErrorResponse(StatusBadRequest, body.error)] && unchanged(db)
    ensures body.Success? && body.value.setNumber < 1 ==>
      written == [ErrorResponse(StatusBadRequest, SetNumberNotPositive)] && unchanged(db)
    ensures body.Success? && body.value.setNumber >= 1 ==>
      InsertOutcome(old(db.sets), old(db.nextSetId), db.workoutExercises, exerciseIdParam, body.value,
                    listFault, createFault, db.sets, db.nextSetId, written[0])
    ensures written[0].body.SetBody? && written[0].body.row.id <= MaxInt ==>
      GetSetByID(db, Itoa(written[0].body.row.id)) == [Response(StatusOK, written[0].body)]
  {
    if body.Failure? {
      return [ErrorResponse(StatusBadRequest, body.error)];
    }
    var input := body.value;
    if input.setNumber < 1 {
      return [ErrorResponse(StatusBadRequest, SetNumberNotPositive)];
    }
    var last := ParseCheckAndInsert(db, exerciseIdParam, input, listFault, createFault);
    written := [last];
  }

  /** `GET` of one set by `:id`. */
  function GetSetByID(db: Db, idParam: string): (written: seq<Response>)
    requires db.Valid()
    reads db
    ensures |written| == 1
    ensures Atoi(idParam).None? ==> written[0] == ErrorResponse(StatusBadRequest, InvalidSetId)
    ensures Atoi(idParam).Some? && Atoi(idParam).value !in db.sets ==>
      written[0] == ErrorResponse(StatusNotFound, RecordNotFound)
    ensures Atoi(idParam).Some? && Atoi(idParam).value in db.sets ==>
      written[0] == Response(StatusOK, SetBody(db.sets[Atoi(idParam).value]))
      && db.sets[Atoi(idParam).value].id == Atoi(idParam).value
  {
    match Atoi(idParam)
    case None => [ErrorResponse(StatusBadRequest, InvalidSetId)]
    case Some(id) =>
      match db.GetSetByID(id)
      case Failure(err) => [ErrorResponse(StatusNotFound, err)]
      case Success(s) => [Response(StatusOK, SetBody(s))]
  }

  /** `DELETE` of one set by `:id`: no existence check. */
  method DeleteSet(db: Db, idParam: string, fault: Option<string>) returns (written: seq<Response>)
    requires db.Valid()
    modifies db`sets
    ensures db.Valid()
    ensures Atoi(idParam).None? ==> written == [ErrorResponse(StatusBadRequest, InvalidSetId)] && unchanged(db)
    ensures Atoi(idParam).Some? && fault.Some? ==>
      written == [ErrorResponse(StatusInternalServerError, fault.value)] && unchanged(db)
    ensures Atoi(idParam).Some? && fault.None? ==>
      && written == [Response(StatusOK, MessageBody(SetDeleted))]
      && db.sets == old(db.sets) - {Atoi(idParam).value}
      && GetSetByID(db, idParam) == [ErrorResponse(StatusNotFound, RecordNotFound)]
  {
    var parsed := Atoi(idParam);
    if parsed.None? {
      return [ErrorResponse(StatusBadRequest, InvalidSetId)];
    }
    var err := db.DeleteSet(parsed.value, fault);
    if err.Some? {
      return [ErrorResponse(StatusInternalServerError, err.value)];
    }
    written := [Response(StatusOK, MessageBody(SetDeleted))];
  }

  /**
   * `GET /workouts/:id/exercises/:exercise_id/sets`: an unparsable id is
   * reported as an invalid set ID, a failing query as 500, and otherwise the
   * workout-exercise's sets, exactly those and each once, with 200.
   */
  function GetSetsForExercise(db: Db, exerciseIdParam: string, listFault: Option<string>): (written: seq<Response>)
    requires db.Valid()
    reads db
    ensures |written| == 1
    ensures Atoi(exerciseIdParam).None? ==> written[0] == ErrorResponse(StatusBadRequest, InvalidSetId)
    ensures Atoi(exerciseIdParam).Some? && listFault.Some? ==>
      written[0] == ErrorResponse(StatusInternalServerError, listFault.value)
    ensures Atoi(exerciseIdParam).Some? && listFault.None? ==>
      && written[0].status == StatusOK && written[0].body.SetsBody?
      && (forall s :: s in written[0].body.rows ==>
            s.id in db.sets && db.sets[s.id] == s && s.workoutExerciseId == Atoi(exerciseIdParam).value)
      && (forall k :: k in db.sets && db.sets[k].workoutExerciseId == Atoi(exerciseIdParam).value ==>
            db.sets[k] in written[0].body.rows)
      && (forall i, j :: 0 <= i < j < |written[0].body.rows| ==> written[0].body.rows[i] != written[0].body.rows[j])
  {
    match Atoi(exerciseIdParam)
    case None => [ErrorResponse(StatusBadRequest, InvalidSetId)]
    case Some(weId) =>
      if listFault.Some? then [ErrorResponse(StatusInternalServerError, listFault.value)]
      else [Response(StatusOK, SetsBody(db.GetSetsForExercise(weId)))]
  }
}
