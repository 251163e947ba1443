/**
 * The records of the workout tracker (src/types.ts). Optional fields are
 * `Option`s; points in time are integer milliseconds since the epoch, which is
 * what the ISO-8601 strings of the source denote.
 */
module Types {
  import opened Common

  datatype WorkoutType =
    | Push | Pull | Legs | Cardio | HIIT | Arms | FullBody | Stretching | Sports

  datatype Equipment =
    | Bodyweight | Barbell | Dumbbells | ResistanceBands | PullupBar | JumpRope

  /** The literal that stands for a workout type in the source. */
  function TypeName(t: WorkoutType): string {
    match t
    case Push => "push"
    case Pull => "pull"
    case Legs => "legs"
    case Cardio => "cardio"
    case HIIT => "HIIT"
    case Arms => "arms"
    case FullBody => "full body"
    case Stretching => "stretching"
    case Sports => "sports"
  }

  /** The literal that stands for a piece of equipment in the source. */
  function EquipmentName(e: Equipment): string {
    match e
    case Bodyweight => "bodyweight"
    case Barbell => "barbell"
    case Dumbbells => "dumbbells"
    case ResistanceBands => "resistance bands"
    case PullupBar => "pullup bar"
    case JumpRope => "jump rope"
  }

  datatype WorkoutRequest = WorkoutRequest(
    context: Option<string>,
    workoutType: WorkoutType,
    equipment: seq<Equipment>,
    sportsDescription: Option<string>)

  datatype Exercise = Exercise(
    id: string,
    name: string,
    sets: Option<string>,
    reps: Option<string>,
    duration: Option<string>,
    notes: Option<string>,
    completed: bool)

  datatype Workout = Workout(
    id: string,
    date: int,
    workoutType: WorkoutType,
    equipment: seq<Equipment>,
    context: Option<string>,
    exercises: seq<Exercise>,
    startedAt: Option<int>,
    completedAt: Option<int>,
    duration: Option<int>,
    quote: Option<string>,
    sportsDescription: Option<string>)
}
