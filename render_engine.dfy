/** The application's render buffer (app/core/render_engine.py): a text grid and a
    style grid. Unlike the framework canvas, `overlay` takes coordinates as they
    are and raises ValueError for any block that does not lie inside. */
module RenderEngine {
  import opened Wrappers
  import opened Grids
  import AppStyles
  import Canvases

  type Style = AppStyles.AppStyle

  /** `RenderLine.Styled`: a run of text with an optional style. */
  datatype Styled = Styled(text: string, style: Option<Style>)

  /** `RenderLine`: one row of characters and the matching row of styles. */
  datatype RenderLine = RenderLine(text: seq<char>, style: seq<Option<Style>>)

  /** `len(styled)`: the number of characters iterating it yields. */
  function StyledLen(s: Styled): nat { |s.text| }

  /** `len(line)`: the length of its text row. */
  function LineLen(line: RenderLine): nat { |line.text| }

  datatype RawRender = Render(text: Grid<char>, style: Grid<Option<Style>>)

  /** Renders whose two grids share a shape, as `empty` and `overlay` build them. */
  type Render = r: RawRender | SameShape(r.text, r.style) witness Render(Grid(0, 0, []), Grid(0, 0, []))

  function Width(r: Render): nat { r.text.width }
  function Height(r: Render): nat { r.text.height }

  /** `Render.empty(width, height)`: all blanks without style; numpy refuses a
      negative dimension. */
  function Empty(width: int, height: int): (r: Result<Render>)
    ensures r.Ok? <==> width >= 0 && height >= 0
    ensures r.Ok? ==> Width(r.value) == width && Height(r.value) == height
    ensures r.Ok? ==> forall i, j :: 0 <= i < height && 0 <= j < width ==>
      r.value.text.rows[i][j] == ' ' && r.value.style.rows[i][j] == None
  {
    var text := Full(width, height, ' ');
    var style := Full(width, height, None);
    if text.Err? then Err(text.error) else Ok(Render(text.value, style.value))
  }

  /** Whether the block of `other` at column `x`, row `y` lies inside `self`. */
  predicate Inside(self: Render, other: Render, x: int, y: int)
  {
    0 <= x && 0 <= y && x + Width(other) <= Width(self) && y + Height(other) <= Height(self)
  }

  /** `self.overlay(other, x, y)`: a new render with the block replaced; ValueError
      when a coordinate is negative or the block passes the far edge. */
  function Overlay(self: Render, other: Render, x: int := 0, y: int := 0): (r: Result<Render>)
    ensures r.Ok? <==> Inside(self, other, x, y)
    ensures r.Err? ==> r.error == ValueError
    ensures r.Ok? ==>
      PastedFrom(r.value.text, self.text, other.text, x, y) && PastedFrom(r.value.style, self.style, other.style, x, y)
  {
    if x < 0 || y < 0 || x + Width(other) > Width(self) || y + Height(other) > Height(self) then Err(ValueError)
    else Ok(Render(Paste(self.text, other.text, x, y), Paste(self.style, other.style, x, y)))
  }

  /** A negative coordinate is refused, even -1, which the framework canvas reads
      as an anchor on the far edge. */
  lemma NoNegativeAnchors(self: Render, other: Render, x: int, y: int)
    requires x < 0 || y < 0
    ensures Overlay(self, other, x, y) == Err(ValueError)
  {
  }

  /** Overlaying an empty render of the target's size at the origin yields the
      blank render, whatever the target held. */
  lemma OverlayBlankWhole(self: Render)
    ensures Empty(Width(self), Height(self)).Ok?
    ensures Overlay(self, Empty(Width(self), Height(self)).value) == Empty(Width(self), Height(self))
  {
    var blank := Empty(Width(self), Height(self)).value;
    PasteWhole(self.text, blank.text);
    PasteWhole(self.style, blank.style);
  }

  /** Overlaying the same render twice at one place is overlaying it once. */
  lemma OverlayIdempotent(self: Render, other: Render, x: int, y: int)
    requires Inside(self, other, x, y)
    ensures Overlay(self, other, x, y).Ok?
    ensures Overlay(Overlay(self, other, x, y).value, other, x, y) == Overlay(self, other, x, y)
  {
    PasteIdempotent(self.text, other.text, x, y);
    PasteIdempotent(self.style, other.style, x, y);
  }

  /** For coordinates that are not negative, the render and the framework canvas
      accept the same placements and paste the same characters. */
  lemma OverlayAgreesWithCanvas(self: Render, other: Render, cself: Canvases.Canvas, cother: Canvases.Canvas, x: nat, y: nat)
    requires cself.text == self.text && cother.text == other.text
    ensures Overlay(self, other, x, y).Ok? <==> Canvases.Overlay(cself, cother, x, y).Ok?
    ensures Overlay(self, other, x, y).Ok? ==>
      Overlay(self, other, x, y).value.text == Canvases.Overlay(cself, cother, x, y).value.text
  {
    if Overlay(self, other, x, y).Ok? {
      PastedFromUnique(Overlay(self, other, x, y).value.text, Canvases.Overlay(cself, cother, x, y).value.text,
                       self.text, other.text, x, y);
    }
  }

  /** `max(len(line) for line in lines)`, the first step of `Render.from_lines`:
      `max` of nothing raises ValueError, so an empty list of lines fails. */
  function MaxLineLen(lines: seq<RenderLine>): (r: Result<nat>)
    ensures r.Ok? <==> |lines| > 0
    ensures r.Ok? ==> forall k :: 0 <= k < |lines| ==> LineLen(lines[k]) <= r.value
    ensures r.Ok? ==> exists k :: 0 <= k < |lines| && LineLen(lines[k]) == r.value
  {
    if |lines| == 0 then Err(ValueError)
    else if |lines| == 1 then Ok(LineLen(lines[0]))
    else
      var rest := MaxLineLen(lines[1..]).value;
      assert forall k :: 1 <= k < |lines| ==> lines[k] == lines[1..][k - 1];
      Ok(if LineLen(lines[0]) >= rest then LineLen(lines[0]) else rest)
  }
}
