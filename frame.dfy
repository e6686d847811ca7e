/** The rounded box of app/ui/frame.py: `make_frame(width, height)` lists the
    lines of a frame drawn with box-drawing characters. Python repeats a string a
    negative number of times as the empty string and runs a negative range zero
    times, so sizes below 2 still give a top and a bottom line. */
module Frame {
  import opened PyStr

  // The `Border` members used, under their names in the source.
  const BAR_H: char := '─'
  const BAR_V: char := '│'
  const ARC_BR: char := '╭'
  const ARC_BL: char := '╮'
  const ARC_TL: char := '╯'
  const ARC_TR: char := '╰'

  function Max0(n: int): nat { if n < 0 then 0 else n }

  function TopLine(width: int): string { [ARC_BR] + RepeatChar(BAR_H, width - 2) + [ARC_BL] }
  function MiddleLine(width: int): string { [BAR_V] + RepeatChar(' ', width - 2) + [BAR_V] }
  function BottomLine(width: int): string { [ARC_TR] + RepeatChar(BAR_H, width - 2) + [ARC_TL] }

  /** The lines of the frame: the top, `height - 2` middle lines, the bottom. */
  function FrameLines(width: int, height: int): seq<string>
  {
    [TopLine(width)] + seq(Max0(height - 2), _ => MiddleLine(width)) + [BottomLine(width)]
  }

  /** `make_frame(self, width, height)`. The source takes a `self` that it never
      uses, so the model drops it. */
  method MakeFrame(width: int, height: int) returns (frame: seq<string>)
    ensures frame == FrameLines(width, height)
  {
    frame := [TopLine(width)];
    var k := 0;
    while k < height - 2
      invariant 0 <= k <= Max0(height - 2)
      invariant frame == [TopLine(width)] + seq(k, _ => MiddleLine(width))
    {
      frame := frame + [MiddleLine(width)];
      k := k + 1;
    }
    frame := frame + [BottomLine(width)];
  }

  /** The frame has `2 + max(0, height - 2)` lines, all `2 + max(0, width - 2)`
      characters long. */
  lemma FrameShape(width: int, height: int)
    ensures |FrameLines(width, height)| == 2 + Max0(height - 2)
    ensures forall k :: 0 <= k < |FrameLines(width, height)| ==> |FrameLines(width, height)[k]| == 2 + Max0(width - 2)
  {
  }

  /** Character by character: corners at the four corners, horizontal bars along
      the top and the bottom, vertical bars down both sides and blanks inside. */
  lemma FrameCells(width: int, height: int, k: nat, j: nat)
    requires k < 2 + Max0(height - 2) && j < 2 + Max0(width - 2)
    ensures var lines := FrameLines(width, height);
            var last := 1 + Max0(height - 2);
            var right := 1 + Max0(width - 2);
            |lines| == last + 1 && |lines[k]| == right + 1 &&
            lines[k][j] ==
              if k == 0 then (if j == 0 then ARC_BR else if j == right then ARC_BL else BAR_H)
              else if k == last then (if j == 0 then ARC_TR else if j == right then ARC_TL else BAR_H)
              else if j == 0 || j == right then BAR_V
              else ' '
  {
    FrameShape(width, height);
    var lines := FrameLines(width, height);
    if 0 < k < 1 + Max0(height - 2) {
      assert lines[k] == MiddleLine(width);
    }
  }
}
