/** Window positions and the fixed step by which a move command displaces the
    window. The program's `iced::Point` and `iced::Vector` hold `f32`
    coordinates; the model uses integer pairs, so it covers windows whose
    reported start position is integral, and exact ±40 steps from there. */
module Geometry {

  datatype Point = Point(x: int, y: int)

  datatype Vector = Vector(dx: int, dy: int)

  datatype MoveDirection = Left | Right | Up | Down

  /** Distance in pixels of one move command. */
  const MoveStep: int := 40

  const Zero: Vector := Vector(0, 0)

  /** `Point + Vector`. */
  function Translate(p: Point, v: Vector): Point {
    Point(p.x + v.dx, p.y + v.dy)
  }

  function Plus(v: Vector, w: Vector): Vector {
    Vector(v.dx + w.dx, v.dy + w.dy)
  }

  /** The vector a move in direction d adds to the window position; screen
      y grows downwards, so Up is negative. */
  function Offset(d: MoveDirection): Vector {
    match d
    case Left => Vector(-MoveStep, 0)
    case Right => Vector(MoveStep, 0)
    case Up => Vector(0, -MoveStep)
    case Down => Vector(0, MoveStep)
  }

  function Opposite(d: MoveDirection): MoveDirection {
    match d
    case Left => Right
    case Right => Left
    case Up => Down
    case Down => Up
  }

  /** Every offset moves along exactly one axis, by exactly one step, and in
      the direction its name says. */
  lemma OffsetIsOneStep(d: MoveDirection)
    ensures (Offset(d).dx == 0) != (Offset(d).dy == 0)
    ensures Offset(d).dx * Offset(d).dx + Offset(d).dy * Offset(d).dy == MoveStep * MoveStep
    ensures d == Left ==> Offset(d).dx < 0
    ensures d == Right ==> Offset(d).dx > 0
    ensures d == Up ==> Offset(d).dy < 0
    ensures d == Down ==> Offset(d).dy > 0
  {
  }

  /** Opposite directions cancel: offset(Left) + offset(Right) = (0, 0), and
      likewise for Up and Down. */
  lemma OppositeOffsetsCancel(d: MoveDirection)
    ensures Plus(Offset(d), Offset(Opposite(d))) == Zero
    ensures Opposite(Opposite(d)) == d
  {
  }

  /** Translating by a sum of vectors is translating by each in turn. */
  lemma TranslatePlus(p: Point, v: Vector, w: Vector)
    ensures Translate(Translate(p, v), w) == Translate(p, Plus(v, w))
  {
  }
}
