/** The framework's canvas (framework/core/graphics/canvas.py): a text grid and a
    style grid of one shape. `overlay` pastes one canvas into a copy of another,
    reading a negative coordinate as an anchor on the right or bottom edge. */
module Canvases {
  import opened Wrappers
  import opened Grids
  import GraphicsStyles

  type Style = GraphicsStyles.Style

  /** `StyledText` (framework/core/graphics/styled_line.py): a run of text in one style. */
  datatype StyledText = StyledText(text: string, style: Style)

  datatype RawCanvas = Canvas(text: Grid<char>, style: Grid<Option<Style>>)

  /** The constructor asserts that the two grids have one shape, so every canvas has. */
  type Canvas = c: RawCanvas | SameShape(c.text, c.style) witness Canvas(Grid(0, 0, []), Grid(0, 0, []))

  function Width(c: Canvas): nat { c.text.width }
  function Height(c: Canvas): nat { c.text.height }

  /** `Canvas(text, style)`: an AssertionError unless the shapes agree. */
  function New(text: Grid<char>, style: Grid<Option<Style>>): (r: Result<Canvas>)
    ensures r.Ok? <==> SameShape(text, style)
    ensures r.Ok? ==> r.value.text == text && r.value.style == style
  {
    if SameShape(text, style) then Ok(Canvas(text, style)) else Err(AssertionError)
  }

  /** `Canvas.empty(width, height)`: all blanks without style; numpy refuses a
      negative dimension. */
  function Empty(width: int, height: int): (r: Result<Canvas>)
    ensures r.Ok? <==> width >= 0 && height >= 0
    ensures r.Ok? ==> Width(r.value) == width && Height(r.value) == height
    ensures r.Ok? ==> forall i, j :: 0 <= i < height && 0 <= j < width ==>
      r.value.text.rows[i][j] == ' ' && r.value.style.rows[i][j] == None
  {
    var text := Full(width, height, ' ');
    var style := Full(width, height, None);
    if text.Err? then Err(text.error) else Ok(Canvas(text.value, style.value))
  }

  // ---------------------------------------------------------------------------
  // overlay

  /** A coordinate of `overlay`: a negative one counts from the far edge, so that
      -1 puts the far edge of the pasted canvas on the far edge of this one. */
  function ResolveAnchor(size: int, otherSize: int, p: int): (r: int)
    ensures p >= 0 ==> r == p
    ensures p < 0 ==> r + otherSize == size + p + 1
  {
    if p < 0 then size - otherSize + p + 1 else p
  }

  /** The assertion `overlay` makes on the resolved coordinates, as written: only
      the far edges are checked. */
  predicate PassesAssertAsWritten(self: Canvas, other: Canvas, x: int, y: int)
  {
    var rx := ResolveAnchor(Width(self), Width(other), x);
    var ry := ResolveAnchor(Height(self), Height(other), y);
    rx + Width(other) <= Width(self) && ry + Height(other) <= Height(self)
  }

  /** An anchor further left than the canvas passes the assertion as written: with
      a canvas 3 wide and a piece 1 wide, x = -5 resolves to column -2, off the
      canvas, which numpy then reads as a position counted from the right. */
  lemma AnchorPastEdgePassesAssert(self: Canvas, other: Canvas)
    requires Width(self) == 3 && Width(other) == 1 && Height(other) <= Height(self)
    ensures PassesAssertAsWritten(self, other, -5, 0)
    ensures ResolveAnchor(Width(self), Width(other), -5) == -2
  {
  }

  /** Whether the resolved block lies inside this canvas on all four sides. */
  predicate Fits(self: Canvas, other: Canvas, x: int, y: int)
  {
    var rx := ResolveAnchor(Width(self), Width(other), x);
    var ry := ResolveAnchor(Height(self), Height(other), y);
    0 <= rx && 0 <= ry && rx + Width(other) <= Width(self) && ry + Height(other) <= Height(self)
  }

  /** `self.overlay(other, x, y)`, rejecting a resolved coordinate that lies before
      the near edge as well as one whose block passes the far edge. */
  function Overlay(self: Canvas, other: Canvas, x: int := 0, y: int := 0): (r: Result<Canvas>)
    ensures r.Ok? <==> Fits(self, other, x, y)
    ensures r.Err? ==> r.error.AssertionError?
    ensures r.Ok? ==>
      var rx := ResolveAnchor(Width(self), Width(other), x);
      var ry := ResolveAnchor(Height(self), Height(other), y);
      PastedFrom(r.value.text, self.text, other.text, rx, ry) &&
      PastedFrom(r.value.style, self.style, other.style, rx, ry)
  {
    var rx := ResolveAnchor(Width(self), Width(other), x);
    var ry := ResolveAnchor(Height(self), Height(other), y);
    if Fits(self, other, x, y) then
      Ok(Canvas(Paste(self.text, other.text, rx, ry), Paste(self.style, other.style, rx, ry)))
    else Err(AssertionError)
  }

  /** The corrected check is the assertion as written plus the near edges: the
      two differ exactly on anchors that resolve before the near edge. */
  lemma FitsIsAssertPlusNearEdges(self: Canvas, other: Canvas, x: int, y: int)
    ensures Fits(self, other, x, y) <==>
      PassesAssertAsWritten(self, other, x, y)
      && ResolveAnchor(Width(self), Width(other), x) >= 0
      && ResolveAnchor(Height(self), Height(other), y) >= 0
  {
  }

  /** Corrected, the anchor past the left edge is refused. */
  lemma AnchorPastEdgeRejected(self: Canvas, other: Canvas)
    requires Width(self) == 3 && Width(other) == 1 && Height(other) <= Height(self)
    ensures Overlay(self, other, -5, 0).Err?
  {
  }

  /** A negative coordinate is the same as its resolved position; non-negative
      coordinates are taken as they are. */
  lemma OverlayAtResolvedPosition(self: Canvas, other: Canvas, x: int, y: int)
    requires Fits(self, other, x, y)
    ensures var rx := ResolveAnchor(Width(self), Width(other), x);
            var ry := ResolveAnchor(Height(self), Height(other), y);
            Overlay(self, other, x, y) == Overlay(self, other, rx, ry)
  {
  }

  /** x = -1 and y = -1 put the pasted canvas in the bottom right-hand corner. */
  lemma MinusOneAnchorsCorner(self: Canvas, other: Canvas)
    requires Width(other) <= Width(self) && Height(other) <= Height(self)
    ensures Overlay(self, other, -1, -1) == Overlay(self, other, Width(self) - Width(other), Height(self) - Height(other))
    ensures Overlay(self, other, -1, -1).Ok?
  {
  }

  /** Overlaying a canvas over the whole of one of its shape gives that canvas. */
  lemma OverlayWhole(self: Canvas, other: Canvas)
    requires Width(other) == Width(self) && Height(other) == Height(self)
    ensures Overlay(self, other) == Ok(other)
  {
    PasteWhole(self.text, other.text);
    PasteWhole(self.style, other.style);
  }

  /** Overlaying the same canvas twice at one place is overlaying it once. */
  lemma OverlayIdempotent(self: Canvas, other: Canvas, x: int, y: int)
    requires Fits(self, other, x, y)
    ensures Overlay(self, other, x, y).Ok?
    ensures Overlay(Overlay(self, other, x, y).value, other, x, y) == Overlay(self, other, x, y)
  {
    var rx := ResolveAnchor(Width(self), Width(other), x);
    var ry := ResolveAnchor(Height(self), Height(other), y);
    PasteIdempotent(self.text, other.text, rx, ry);
    PasteIdempotent(self.style, other.style, rx, ry);
  }

  // ---------------------------------------------------------------------------
  // from_lines

  /** The characters of a line: its segments' texts one after the other. */
  function LineText(line: seq<StyledText>): (r: string)
  {
    if |line| == 0 then [] else LineText(line[..|line| - 1]) + line[|line| - 1].text
  }

  /** The style cells of a line: each segment's style once per character. */
  function LineStyles(line: seq<StyledText>): (r: seq<Option<Style>>)
    ensures |r| == |LineText(line)|
  {
    if |line| == 0 then []
    else
      var last := line[|line| - 1];
      LineStyles(line[..|line| - 1]) + seq(|last.text|, _ => Some(last.style))
  }

  /** Character k of segment j sits at the segment's offset in the row, with the
      segment's own style. */
  lemma {:induction false} SegmentCells(line: seq<StyledText>, j: nat, k: nat)
    requires j < |line| && k < |line[j].text|
    ensures |LineText(line[..j])| + k < |LineText(line)|
    ensures LineText(line)[|LineText(line[..j])| + k] == line[j].text[k]
    ensures LineStyles(line)[|LineText(line[..j])| + k] == Some(line[j].style)
    decreases |line|
  {
    var init := line[..|line| - 1];
    if j == |line| - 1 {
      assert init == line[..j];
    } else {
      assert init[..j] == line[..j];
      assert init[j] == line[j];
      SegmentCells(init, j, k);
      assert |LineText(init)| <= |LineText(line)|;
    }
  }

  /** `Canvas.from_lines(lines)`: one row per line, built segment by segment and
      stacked. numpy refuses an empty list and rows of different lengths. */
  method FromLines(lines: seq<seq<StyledText>>) returns (r: Result<Canvas>)
    ensures r.Ok? <==> |lines| > 0 && forall i :: 0 <= i < |lines| ==> |LineText(lines[i])| == |LineText(lines[0])|
    ensures r.Ok? ==> Height(r.value) == |lines|
    ensures r.Ok? ==> forall i :: 0 <= i < |lines| ==>
      r.value.text.rows[i] == LineText(lines[i]) && r.value.style.rows[i] == LineStyles(lines[i])
  {
    var textRows: seq<string> := [];
    var styleRows: seq<seq<Option<Style>>> := [];
    var i := 0;
    while i < |lines|
      invariant 0 <= i <= |lines| && |textRows| == i && |styleRows| == i
      invariant forall k :: 0 <= k < i ==> textRows[k] == LineText(lines[k]) && styleRows[k] == LineStyles(lines[k])
    {
      var line := lines[i];
      var rowText: string := [];
      var rowStyle: seq<Option<Style>> := [];
      var j := 0;
      while j < |line|
        invariant 0 <= j <= |line|
        invariant rowText == LineText(line[..j]) && rowStyle == LineStyles(line[..j])
      {
        var segment := line[j];
        assert line[..j + 1][..j] == line[..j];
        rowText := rowText + segment.text;
        rowStyle := rowStyle + seq(|segment.text|, _ => Some(segment.style));
        j := j + 1;
      }
      assert line[..j] == line;
      textRows := textRows + [rowText];
      styleRows := styleRows + [rowStyle];
      i := i + 1;
    }
    var text := VStack(textRows);
    var style := VStack(styleRows);
    if text.Err? {
      r := Err(text.error);
    } else {
      assert style.Ok?;
      r := New(text.value, style.value);
      assert r.Ok?;
    }
  }
}
