/** The framework's layout value types (framework/core/concepts.py): a size whose
    sides are positive and a position whose coordinates are not negative. The
    model validates at construction, as the field constraints do, and reports a
    violation as ValueError, the base of the validation error raised. */
module Concepts {
  import opened Wrappers

  datatype SizeBox = SizeBox(width: int, height: int)

  datatype Position = Position(x: int, y: int)

  /** `SizeBox(width=…, height=…)`: both sides greater than zero. */
  function NewSizeBox(width: int, height: int): (r: Result<SizeBox>)
    ensures r.Ok? <==> width > 0 && height > 0
    ensures r.Ok? ==> r.value.width == width && r.value.height == height
    ensures r.Err? ==> r.error == ValueError
  {
    if width > 0 && height > 0 then Ok(SizeBox(width, height)) else Err(ValueError)
  }

  /** `Position(x=…, y=…)`: both coordinates zero or more. */
  function NewPosition(x: int, y: int): (r: Result<Position>)
    ensures r.Ok? <==> x >= 0 && y >= 0
    ensures r.Ok? ==> r.value.x == x && r.value.y == y
    ensures r.Err? ==> r.error == ValueError
  {
    if x >= 0 && y >= 0 then Ok(Position(x, y)) else Err(ValueError)
  }

  /** A zero side is refused, while a zero coordinate is accepted: the two types
      draw their boundaries on different sides of 0. */
  lemma ZeroBoundaries(n: int)
    ensures NewSizeBox(0, n).Err? && NewSizeBox(n, 0).Err?
    ensures NewPosition(0, 0) == Ok(Position(0, 0))
    ensures n >= 0 ==> NewPosition(n, 0).Ok? && NewPosition(0, n).Ok?
  {
  }
}
