/** The padding widget (app/core/widgets/padding.py): it renders its child in the
    area left after the four insets and overlays it on a blank render. The result
    of `overlay` is dropped, so what comes back is the blank render itself; only
    the bounds check of the overlay still has an effect. The child's `_render` is
    a parameter here, and `Render` is the one of app/core/render_engine.py. */
module Padding {
  import opened Wrappers
  import opened RenderEngine

  datatype Padding = Padding(top: int, right: int, bottom: int, left: int)

  /** `Padding(top=…, right=…, bottom=…, left=…, child=…)`: every inset defaults to 0. */
  function NewPadding(top: int := 0, right: int := 0, bottom: int := 0, left: int := 0): Padding
  {
    Padding(top, right, bottom, left)
  }

  /** The size the child is rendered at: the insets taken off each side. */
  function ChildSize(p: Padding, width: int, height: int): (r: (int, int))
    ensures p.left + r.0 + p.right == width && p.top + r.1 + p.bottom == height
  {
    (width - p.left - p.right, height - p.top - p.bottom)
  }

  /** `padding._render(width, height)`. */
  function RenderPadded(p: Padding, width: int, height: int, child: (int, int) -> Result<Render>): (r: Result<Render>)
    ensures r.Ok? ==> Width(r.value) == width && Height(r.value) == height
  {
    var size := ChildSize(p, width, height);
    var childRender :- child(size.0, size.1);
    var blank :- Empty(width, height);
    var _ :- Overlay(blank, childRender, p.left, p.top);
    Ok(blank)
  }

  /** Without insets the child is asked for the full size. */
  lemma DefaultInsets(width: int, height: int)
    ensures NewPadding() == Padding(0, 0, 0, 0)
    ensures ChildSize(NewPadding(), width, height) == (width, height)
  {
  }

  /** The padded render succeeds exactly when the child renders, the size is not
      negative and the child's render fits at (left, top); it is then the blank
      render of the full size, whatever the child drew. */
  lemma RenderIsBlank(p: Padding, width: int, height: int, child: (int, int) -> Result<Render>)
    ensures var size := ChildSize(p, width, height);
            var c := child(size.0, size.1);
            RenderPadded(p, width, height, child).Ok? <==>
              c.Ok? && width >= 0 && height >= 0 && Inside(Empty(width, height).value, c.value, p.left, p.top)
    ensures RenderPadded(p, width, height, child).Ok? ==>
      RenderPadded(p, width, height, child) == Empty(width, height)
      && Width(RenderPadded(p, width, height, child).value) == width
      && Height(RenderPadded(p, width, height, child).value) == height
  {
  }

  /** A negative left or top inset makes the overlay check fail. */
  lemma NegativeInsetFails(p: Padding, width: int, height: int, child: (int, int) -> Result<Render>)
    requires p.left < 0 || p.top < 0
    ensures RenderPadded(p, width, height, child).Err?
  {
  }

  /** A child that renders at exactly the size it is given always fits when the
      insets are not negative. */
  lemma ExactChildFits(p: Padding, width: int, height: int, child: (int, int) -> Result<Render>)
    requires p.top >= 0 && p.right >= 0 && p.bottom >= 0 && p.left >= 0
    requires p.left + p.right <= width && p.top + p.bottom <= height
    requires var size := ChildSize(p, width, height);
             child(size.0, size.1).Ok? &&
             Width(child(size.0, size.1).value) == size.0 && Height(child(size.0, size.1).value) == size.1
    ensures RenderPadded(p, width, height, child) == Empty(width, height)
  {
    RenderIsBlank(p, width, height, child);
  }

  /** The padded render with the overlay's result kept, as `r = r.overlay(…)`
      would keep it: it fails exactly where the written one does, and has the
      full size. */
  function RenderPaddedFixed(p: Padding, width: int, height: int, child: (int, int) -> Result<Render>): (r: Result<Render>)
    ensures r.Ok? <==> RenderPadded(p, width, height, child).Ok?
    ensures r.Ok? ==> Width(r.value) == width && Height(r.value) == height
  {
    var size := ChildSize(p, width, height);
    var childRender :- child(size.0, size.1);
    var blank :- Empty(width, height);
    Overlay(blank, childRender, p.left, p.top)
  }

  /** Corrected, every cell inside the insets is the child's cell, and every cell
      around it is blank. */
  lemma FixedShowsChild(p: Padding, width: int, height: int, child: (int, int) -> Result<Render>, i: nat, j: nat)
    requires RenderPaddedFixed(p, width, height, child).Ok?
    requires i < height && j < width
    ensures var size := ChildSize(p, width, height);
            var c := child(size.0, size.1).value;
            var r := RenderPaddedFixed(p, width, height, child).value;
            r.text.rows[i][j] ==
              if p.top <= i < p.top + Height(c) && p.left <= j < p.left + Width(c)
              then c.text.rows[i - p.top][j - p.left] else ' '
  {
  }

  /** Whenever the child draws something other than a blank inside the insets,
      the render as written, which is blank, differs from the corrected one. */
  lemma PaddingAsWrittenDropsChild(p: Padding, width: int, height: int, child: (int, int) -> Result<Render>, i: nat, j: nat)
    requires RenderPaddedFixed(p, width, height, child).Ok?
    requires var size := ChildSize(p, width, height);
             var c := child(size.0, size.1).value;
             p.top <= i < p.top + Height(c) && p.left <= j < p.left + Width(c) &&
             c.text.rows[i - p.top][j - p.left] != ' '
    ensures RenderPadded(p, width, height, child).Ok?
    ensures RenderPadded(p, width, height, child) != RenderPaddedFixed(p, width, height, child)
  {
    RenderIsBlank(p, width, height, child);
    FixedShowsChild(p, width, height, child, i, j);
    assert RenderPadded(p, width, height, child).value.text.rows[i][j] == ' ';
  }
}
