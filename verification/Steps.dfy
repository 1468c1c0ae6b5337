/** The steps of a challenge, and the head movements some of them ask for. */
module Steps {
  import opened Results

  datatype Step = Center | TurnLeft | TurnRight | LookUp | LookDown | Other(name: string)

  datatype Axis = Yaw | Pitch

  datatype Movement = Movement(axis: Axis, sign: real)

  /** A turn to the left raises the yaw, and looking up lowers the pitch. */
  function MovementOf(step: Step): Option<Movement> {
    match step
    case TurnLeft => Some(Movement(Yaw, 1.0))
    case TurnRight => Some(Movement(Yaw, -1.0))
    case LookUp => Some(Movement(Pitch, -1.0))
    case LookDown => Some(Movement(Pitch, 1.0))
    case _ => None
  }

  predicate IsMovement(step: Step) {
    MovementOf(step).Some?
  }

  lemma MovementsAreFour(step: Step)
    ensures IsMovement(step) <==> step.TurnLeft? || step.TurnRight? || step.LookUp? || step.LookDown?
  {
  }
}
