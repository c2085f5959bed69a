/**
 * The records of the workout tracker: users, exercises, workouts, the
 * workout-exercise association, sets, the read-only workout-detail projection,
 * and what a request body binds to.
 *
 * Go's `uint` identifiers are `nat`; the bookkeeping columns of `gorm.Model`
 * (timestamps, soft-delete marker) are not represented.
 */
module Models {
  import opened Wrappers

  /** The bit pattern of a Go `float64`; the program carries it around and never computes with it. */
  type Weight = bv64

  datatype User = User(id: nat, username: string)

  datatype Exercise = Exercise(id: nat, name: string)

  /** A workout belongs to one user; its exercises live in the association table. */
  datatype Workout = Workout(id: nat, name: string, userId: nat)

  /** One exercise's inclusion in one workout; the owner of that exercise's sets. */
  datatype WorkoutExercise = WorkoutExercise(id: nat, workoutId: nat, exerciseId: nat)

  datatype Set = Set(id: nat, workoutExerciseId: nat, setNumber: int, reps: int, weight: Weight)

  /** A workout-exercise row as the eager load of a workout delivers it: the row with its sets. */
  datatype LoadedWorkoutExercise = Loaded(row: WorkoutExercise, sets: seq<Set>)

  /** One entry of the detail view: the referenced exercise's id and name, and the association's sets. */
  datatype ExerciseDetails = ExerciseDetails(id: nat, name: string, sets: seq<Set>)

  /** The nested read-only view of a workout served by `GET /workouts/:id`. */
  datatype WorkoutDetails = WorkoutDetails(id: nat, name: string, exercises: seq<ExerciseDetails>)

  // What a JSON body binds to for each create request.
  datatype UserInput = UserInput(username: string)
  datatype ExerciseInput = ExerciseInput(name: string)
  datatype WorkoutInput = WorkoutInput(name: string, userId: nat)
  datatype WorkoutExerciseInput = WorkoutExerciseInput(workoutId: nat, exerciseId: nat)
  datatype SetInput = SetInput(workoutExerciseId: nat, setNumber: int, reps: int, weight: Weight)

  // What a JSON body binds to for each update request: the fields it sets, and no others.
  datatype UserPatch = UserPatch(username: Option<string>)
  datatype ExercisePatch = ExercisePatch(name: Option<string>)
  datatype WorkoutPatch = WorkoutPatch(name: Option<string>, userId: Option<nat>)

  function PatchUser(u: User, p: UserPatch): User {
    match p.username
    case Some(v) => u.(username := v)
    case None => u
  }

  function PatchExercise(e: Exercise, p: ExercisePatch): Exercise {
    match p.name
    case Some(v) => e.(name := v)
    case None => e
  }

  function PatchWorkout(w: Workout, p: WorkoutPatch): Workout {
    var named := match p.name case Some(v) => w.(name := v) case None => w;
    match p.userId
    case Some(v) => named.(userId := v)
    case None => named
  }
}
