/** The user handler: create, fetch, patch and delete users by `:id`. */
module UserHandler {
  import opened Wrappers
  import opened Models
  import opened Http
  import opened Decimal
  import opened Store

  /** `GET /users/:id`: 400 for an unparsable id, 404 with the store's message for a missing one. */
  function GetUserByID(db: Db, idParam: string): (written: seq<Response>)
    requires db.Valid()
    reads db
    ensures |written| == 1
    ensures Atoi(idParam).None? ==> written[0] == ErrorResponse(StatusBadRequest, InvalidUserId)
    ensures Atoi(idParam).Some? && Atoi(idParam).value !in db.users ==>
      written[0] == ErrorResponse(StatusNotFound, RecordNotFound)
    ensures Atoi(idParam).Some? && Atoi(idParam).value in db.users ==>
      && written[0] == Response(StatusOK, UserBody(db.users[Atoi(idParam).value]))
      && db.users[Atoi(idParam).value].id == Atoi(idParam).value
  {
    match Atoi(idParam)
    case None => [ErrorResponse(StatusBadRequest, InvalidUserId)]
    case Some(id) =>
      match db.GetUserByID(id)
      case Failure(err) => [ErrorResponse(StatusNotFound, err)]
      case Success(u) => [Response(StatusOK, UserBody(u))]
  }

  /**
   * `POST /users`: a body that does not bind or an empty username is refused
   * with 400 and nothing is stored; a store error gives 500; otherwise the
   * user is stored under a fresh positive id and returned with 201, and a
   * `GET` of that id returns it.
   */
  method CreateUser(db: Db, body: Result<UserInput, string>, fault: Option<string>)
    returns (written: seq<Response>)
    requires db.Valid()
    modifies db`users, db`nextUserId
    ensures db.Valid()
    ensures body.Failure? ==> written == [ErrorResponse(StatusBadRequest, body.error)] && unchanged(db)
    ensures body.Success? && body.value.username == "" ==>
      written == [ErrorResponse(StatusBadRequest, UsernameEmpty)] && unchanged(db)
    ensures body.Success? && body.value.username != "" && fault.Some? ==>
      written == [ErrorResponse(StatusInternalServerError, fault.value)] && unchanged(db)
    ensures body.Success? && body.value.username != "" && fault.None? ==>
      var u := User(old(db.nextUserId), body.value.username);
      && u.id >= 1 && u.id !in old(db.users)
      && db.users == old(db.users)[u.id := u]
      && db.nextUserId == old(db.nextUserId) + 1
      && written == [Response(StatusCreated, UserBody(u))]
      && (u.id <= MaxInt ==> GetUserByID(db, Itoa(u.id)) == [Response(StatusOK, UserBody(u))])
  {
    if body.Failure? {
      return [ErrorResponse(StatusBadRequest, body.error)];
    }
    var input := body.value;
    if input.username == "" {
      return [ErrorResponse(StatusBadRequest, UsernameEmpty)];
    }
    var created := db.CreateUser(input, fault);
    if created.Failure? {
      return [ErrorResponse(StatusInternalServerError, created.error)];
    }
    written := [Response(StatusCreated, UserBody(created.value))];
    if created.value.id <= MaxInt {
      AtoiItoa(created.value.id);
    }
  }

  /**
   * `PUT /users/:id`: the user is looked up before the body is bound,
   * so a missing user gives 404 whatever the body; on success the stored
   * user carries the patched fields and is returned with 200.
   */
  method UpdateUser(db: Db, idParam: string, body: Result<UserPatch, string>, fault: Option<string>)
    returns (written: seq<Response>)
    requires db.Valid()
    modifies db`users
    ensures db.Valid()
    ensures Atoi(idParam).None? ==> written == [ErrorResponse(StatusBadRequest, InvalidUserId)] && unchanged(db)
    ensures Atoi(idParam).Some? && Atoi(idParam).value !in old(db.users) ==>
      written == [ErrorResponse(StatusNotFound, RecordNotFound)] && unchanged(db)
    ensures Atoi(idParam).Some? && Atoi(idParam).value in old(db.users) ==>
      var id := Atoi(idParam).value;
      && (body.Failure? ==> written == [ErrorResponse(StatusBadRequest, body.error)] && unchanged(db))
      && (body.Success? && fault.Some? ==>
            written == [ErrorResponse(StatusInternalServerError, fault.value)] && unchanged(db))
      && (body.Success? && fault.None? ==>
            var u := PatchUser(old(db.users)[id], body.value);
            && u.id == id
            && db.users == old(db.users)[id := u]
            && written == [Response(StatusOK, UserBody(u))]
            && GetUserByID(db, idParam) == written)
  {
    var parsed := Atoi(idParam);
    if parsed.None? {
      return [ErrorResponse(StatusBadRequest, InvalidUserId)];
    }
    var found := db.GetUserByID(parsed.value);
    if found.Failure? {
      return [ErrorResponse(StatusNotFound, found.error)];
    }
    if body.Failure? {
      return [ErrorResponse(StatusBadRequest, body.error)];
    }
    var updated := db.UpdateUser(found.value, body.value, fault);
    if updated.Failure? {
      return [ErrorResponse(StatusInternalServerError, updated.error)];
    }
    written := [Response(StatusOK, UserBody(updated.value))];
  }

  /** `DELETE /users/:id`: no existence check; 200 unless the store reports an error. */
  method DeleteUser(db: Db, idParam: string, fault: Option<string>) returns (written: seq<Response>)
    requires db.Valid()
    modifies db`users
    ensures db.Valid()
    ensures Atoi(idParam).None? ==> written == [ErrorResponse(StatusBadRequest, InvalidUserId)] && unchanged(db)
    ensures Atoi(idParam).Some? && fault.Some? ==>
      written == [ErrorResponse(StatusInternalServerError, fault.value)] && unchanged(db)
    ensures Atoi(idParam).Some? && fault.None? ==>
      && written == [Response(StatusOK, MessageBody(UserDeleted))]
      && db.users == old(db.users) - {Atoi(idParam).value}
      && GetUserByID(db, idParam) == [ErrorResponse(StatusNotFound, RecordNotFound)]
  {
    var parsed := Atoi(idParam);
    if parsed.None? {
      return [ErrorResponse(StatusBadRequest, InvalidUserId)];
    }
    var err := db.DeleteUser(parsed.value, fault);
    if err.Some? {
      return [ErrorResponse(StatusInternalServerError, err.value)];
    }
    written := [Response(StatusOK, MessageBody(UserDeleted))];
  }
}
