/** Cursor, erase and scroll control sequences (app/core/control.py). Each is one
    CSI with a single-letter final byte from ECMA-48: CUU, CUD, CUF, CUB, CNL, CPL
    and CHA (sections 8.3.22, 8.3.19, 8.3.20, 8.3.18, 8.3.12, 8.3.13, 8.3.9), CUP
    (section 8.3.21), ED and EL (sections 8.3.39, 8.3.41), SU and SD (sections
    8.3.147, 8.3.113), and the private-use finals 's' and 'u' for saving and
    restoring the cursor. */
module Control {
  import opened Wrappers
  import opened Tools

  function CursorUp(n: int := 1): string { Csi("A", [n]) }
  function CursorDown(n: int := 1): string { Csi("B", [n]) }
  function CursorForward(n: int := 1): string { Csi("C", [n]) }
  function CursorBack(n: int := 1): string { Csi("D", [n]) }
  function CursorNextLine(n: int := 1): string { Csi("E", [n]) }
  function CursorPreviousLine(n: int := 1): string { Csi("F", [n]) }
  function CursorHorizontalAbsolute(n: int := 1): string { Csi("G", [n]) }

  /** CUP: ECMA-48 reads the first parameter as the line and the second as the
      character position, so `x` is sent in the line position. */
  function CursorPosition(x: int, y: int): string { Csi("H", [x, y]) }

  function EraseData(n: int := 0): string { Csi("J", [n]) }
  function EraseLine(n: int := 0): string { Csi("K", [n]) }
  function ScrollUp(n: int := 1): string { Csi("S", [n]) }
  function ScrollDown(n: int := 1): string { Csi("T", [n]) }
  function SaveCursorPosition(): string { Csi("s", []) }
  function RestoreCursorPosition(): string { Csi("u", []) }

  /** The seven cursor movements carry the count as their one parameter, under
      finals A to G in that order. */
  lemma CursorMovesDecode(n: nat)
    ensures ParseCsi(CursorUp(n)) == Some(CsiParts([n], 'A'))
    ensures ParseCsi(CursorDown(n)) == Some(CsiParts([n], 'B'))
    ensures ParseCsi(CursorForward(n)) == Some(CsiParts([n], 'C'))
    ensures ParseCsi(CursorBack(n)) == Some(CsiParts([n], 'D'))
    ensures ParseCsi(CursorNextLine(n)) == Some(CsiParts([n], 'E'))
    ensures ParseCsi(CursorPreviousLine(n)) == Some(CsiParts([n], 'F'))
    ensures ParseCsi(CursorHorizontalAbsolute(n)) == Some(CsiParts([n], 'G'))
  {
    CsiRoundTrip('A', [n]);
    CsiRoundTrip('B', [n]);
    CsiRoundTrip('C', [n]);
    CsiRoundTrip('D', [n]);
    CsiRoundTrip('E', [n]);
    CsiRoundTrip('F', [n]);
    CsiRoundTrip('G', [n]);
  }

  /** Without an argument the cursor movements and scrolls move by one. */
  lemma MovesDefaultToOne()
    ensures ParseCsi(CursorUp()) == Some(CsiParts([1], 'A'))
    ensures ParseCsi(CursorDown()) == Some(CsiParts([1], 'B'))
    ensures ParseCsi(CursorForward()) == Some(CsiParts([1], 'C'))
    ensures ParseCsi(CursorBack()) == Some(CsiParts([1], 'D'))
    ensures ParseCsi(CursorNextLine()) == Some(CsiParts([1], 'E'))
    ensures ParseCsi(CursorPreviousLine()) == Some(CsiParts([1], 'F'))
    ensures ParseCsi(CursorHorizontalAbsolute()) == Some(CsiParts([1], 'G'))
    ensures ParseCsi(ScrollUp()) == Some(CsiParts([1], 'S'))
    ensures ParseCsi(ScrollDown()) == Some(CsiParts([1], 'T'))
  {
    CursorMovesDecode(1);
    ScrollsDecode(1);
  }

  /** CUP carries `x` then `y`. */
  lemma CursorPositionDecodes(x: nat, y: nat)
    ensures ParseCsi(CursorPosition(x, y)) == Some(CsiParts([x, y], 'H'))
  {
    CsiRoundTrip('H', [x, y]);
  }

  /** ED and EL carry their mode, 0 (erase to the end) when none is given. */
  lemma ErasesDecode(n: nat)
    ensures ParseCsi(EraseData(n)) == Some(CsiParts([n], 'J'))
    ensures ParseCsi(EraseLine(n)) == Some(CsiParts([n], 'K'))
    ensures ParseCsi(EraseData()) == Some(CsiParts([0], 'J'))
    ensures ParseCsi(EraseLine()) == Some(CsiParts([0], 'K'))
  {
    CsiRoundTrip('J', [n]);
    CsiRoundTrip('K', [n]);
    CsiRoundTrip('J', [0]);
    CsiRoundTrip('K', [0]);
  }

  lemma ScrollsDecode(n: nat)
    ensures ParseCsi(ScrollUp(n)) == Some(CsiParts([n], 'S'))
    ensures ParseCsi(ScrollDown(n)) == Some(CsiParts([n], 'T'))
  {
    CsiRoundTrip('S', [n]);
    CsiRoundTrip('T', [n]);
  }

  /** Saving and restoring the cursor carry no parameter at all. */
  lemma SaveRestoreDecode()
    ensures ParseCsi(SaveCursorPosition()) == Some(CsiParts([], 's'))
    ensures ParseCsi(RestoreCursorPosition()) == Some(CsiParts([], 'u'))
    ensures SaveCursorPosition() == [ESC, '[', 's'] && RestoreCursorPosition() == [ESC, '[', 'u']
  {
    CsiRoundTrip('s', []);
    CsiRoundTrip('u', []);
  }

  /** A negative count is written as is and the result no longer has the shape of
      a control sequence. */
  lemma NegativeCountIsMalformed(n: int)
    requires n < 0
    ensures !MatchesCsiPattern(CursorUp(n)) && !MatchesCsiPattern(ScrollDown(n))
  {
    NegativeArgumentBreaksPattern("A", [n], 0);
    NegativeArgumentBreaksPattern("T", [n], 0);
  }
}
