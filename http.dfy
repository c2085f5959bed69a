/** What a handler writes back: a status code and a JSON body. */
module Http {
  import opened Models

  const StatusOK := 200
  const StatusCreated := 201
  const StatusBadRequest := 400
  const StatusNotFound := 404
  const StatusInternalServerError := 500

  // The fixed texts the handlers answer with.
  const InvalidUserId := "invalid user ID"
  const InvalidExerciseId := "invalid exercise ID"
  const InvalidWorkoutId := "invalid workout ID"
  const InvalidSetId := "invalid set ID"
  const NameEmpty := "Name cannot be empty"
  const UsernameEmpty := "Username cannot be empty"
  const SetNumberNotPositive := "set number must be greater than 0"
  const UserDeleted := "User deleted"
  const ExerciseDeleted := "Exercise deleted"
  const WorkoutDeleted := "Workout deleted"
  const SetDeleted := "Set deleted"
  const ExerciseAdded := "Exercise added to workout"

  /** `{"error": ...}`, `{"message": ...}`, or a record serialised as it is. */
  datatype Body =
    | ErrorBody(error: string)
    | MessageBody(message: string)
    | UserBody(user: User)
    | ExerciseBody(exercise: Exercise)
    | WorkoutBody(workout: Workout)
    | SetBody(row: Set)
    | SetsBody(rows: seq<Set>)
    | DetailsBody(details: WorkoutDetails)

  /** One `c.JSON(status, body)` call. */
  datatype Response = Response(status: int, body: Body)

  function ErrorResponse(status: int, msg: string): Response {
    Response(status, ErrorBody(msg))
  }
}
