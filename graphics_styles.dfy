/** The framework's terminal styles (framework/core/graphics/styles.py): a style is
    the pair of SGR strings that switch an attribute on and off, styles combine by
    concatenating both strings in argument order, and the palette, RGB and
    decoration constructors fill in the codes of section 8.3.117 of ECMA-48. */
module GraphicsStyles {
  import opened Wrappers
  import opened PyStr
  import opened Tools
  import Hex

  /** A frozen (begin, end) pair of escape strings. */
  datatype Style = Style(begin: string, end: string)

  /** `Styles.EMPTY`. */
  const EMPTY: Style := Style("", "")

  function Begins(styles: seq<Style>): (r: seq<string>)
    ensures |r| == |styles| && forall k :: 0 <= k < |styles| ==> r[k] == styles[k].begin
  {
    seq(|styles|, k requires 0 <= k < |styles| => styles[k].begin)
  }

  function Ends(styles: seq<Style>): (r: seq<string>)
    ensures |r| == |styles| && forall k :: 0 <= k < |styles| ==> r[k] == styles[k].end
  {
    seq(|styles|, k requires 0 <= k < |styles| => styles[k].end)
  }

  /** `Style.mix(*styles)`: the begins joined in order, the ends joined in the same order. */
  function Mix(styles: seq<Style>): Style
  {
    Style(Concat(Begins(styles)), Concat(Ends(styles)))
  }

  /** `a.mix_with(b)`. */
  function MixWith(a: Style, b: Style): Style
  {
    Mix([a, b])
  }

  // ---------------------------------------------------------------------------
  // The algebra of mixing

  /** Mixing two styles concatenates the begins and the ends, in the same order:
      the ends are not reversed. */
  lemma MixWithConcatenates(a: Style, b: Style)
    ensures MixWith(a, b) == Style(a.begin + b.begin, a.end + b.end)
  {
    assert Begins([a, b])[1..] == [b.begin];
    assert Ends([a, b])[1..] == [b.end];
    assert Concat([b.begin]) == b.begin + Concat([]);
    assert Concat([b.end]) == b.end + Concat([]);
  }

  /** Mixing a concatenation of lists is mixing the two partial mixes. */
  lemma MixAppend(xs: seq<Style>, ys: seq<Style>)
    ensures Mix(xs + ys) == MixWith(Mix(xs), Mix(ys))
  {
    assert Begins(xs + ys) == Begins(xs) + Begins(ys);
    assert Ends(xs + ys) == Ends(xs) + Ends(ys);
    ConcatAppend(Begins(xs), Begins(ys));
    ConcatAppend(Ends(xs), Ends(ys));
    MixWithConcatenates(Mix(xs), Mix(ys));
  }

  /** EMPTY is the mix of nothing, and a one-element mix is that element. */
  lemma MixOfFew(s: Style)
    ensures Mix([]) == EMPTY
    ensures Mix([s]) == s
  {
    assert Begins([s])[1..] == [] && Ends([s])[1..] == [];
  }

  /** EMPTY is a two-sided identity of mixing. */
  lemma EmptyIsIdentity(s: Style)
    ensures MixWith(EMPTY, s) == s && MixWith(s, EMPTY) == s
  {
    MixWithConcatenates(EMPTY, s);
    MixWithConcatenates(s, EMPTY);
  }

  /** Mixing is associative. */
  lemma MixAssociative(a: Style, b: Style, c: Style)
    ensures MixWith(MixWith(a, b), c) == MixWith(a, MixWith(b, c))
  {
    MixWithConcatenates(a, b);
    MixWithConcatenates(b, c);
    MixWithConcatenates(MixWith(a, b), c);
    MixWithConcatenates(a, MixWith(b, c));
  }

  // ---------------------------------------------------------------------------
  // Palette colours

  /** BLACK … WHITE, in the order of the SGR colour codes. */
  datatype Color = Black | Red | Green | Yellow | Blue | Magenta | Cyan | White

  function ColorIndex(c: Color): (k: nat)
    ensures k < 8
  {
    match c
    case Black => 0
    case Red => 1
    case Green => 2
    case Yellow => 3
    case Blue => 4
    case Magenta => 5
    case Cyan => 6
    case White => 7
  }

  function BoolToInt(b: bool): (n: nat)
    ensures n < 2
  {
    if b then 1 else 0
  }

  /** The SGR code of palette entry `c` in `_meta_colors(bright, bg)`: the base
      `30 + 60*bright + 10*bg` plus the colour's index. */
  function PaletteCode(bright: bool, bg: bool, c: Color): (code: nat)
    ensures code == 30 + 60 * BoolToInt(bright) + 10 * BoolToInt(bg) + ColorIndex(c)
  {
    30 + (if bright then 60 else 0) + (if bg then 10 else 0) + ColorIndex(c)
  }

  /** The SGR code that ends a palette colour: 39 resets the foreground, 49 the background. */
  function PaletteEndCode(bg: bool): (code: nat)
    ensures code == 39 + 10 * BoolToInt(bg)
  {
    if bg then 49 else 39
  }

  /** `_meta_colors(bright, bg)`'s entry for `c`. */
  function MetaColor(bright: bool, bg: bool, c: Color): Style
  {
    Style(Sgr([PaletteCode(bright, bg, c)]), Sgr([PaletteEndCode(bg)]))
  }

  /** `Styles.Foreground.Console`, `.ConsoleBright`, `Styles.Background.Console`, `.ConsoleBright`. */
  function ForegroundConsole(c: Color): Style { MetaColor(false, false, c) }
  function ForegroundConsoleBright(c: Color): Style { MetaColor(true, false, c) }
  function BackgroundConsole(c: Color): Style { MetaColor(false, true, c) }
  function BackgroundConsoleBright(c: Color): Style { MetaColor(true, true, c) }

  /** Each palette entry is one SGR carrying its code, ended by one SGR carrying the
      end code. */
  lemma PaletteDecodes(bright: bool, bg: bool, c: Color)
    ensures ParseCsi(MetaColor(bright, bg, c).begin) == Some(CsiParts([PaletteCode(bright, bg, c)], 'm'))
    ensures ParseCsi(MetaColor(bright, bg, c).end) == Some(CsiParts([PaletteEndCode(bg)], 'm'))
  {
    SgrRoundTrip([PaletteCode(bright, bg, c)]);
    SgrRoundTrip([PaletteEndCode(bg)]);
  }

  /** The foreground tables use the codes 30–37 and 90–97 and end with 39. */
  lemma ForegroundPaletteCodes(c: Color)
    ensures ParseCsi(ForegroundConsole(c).begin) == Some(CsiParts([30 + ColorIndex(c)], 'm'))
    ensures ParseCsi(ForegroundConsoleBright(c).begin) == Some(CsiParts([90 + ColorIndex(c)], 'm'))
    ensures ParseCsi(ForegroundConsole(c).end) == Some(CsiParts([39], 'm'))
    ensures ForegroundConsoleBright(c).end == ForegroundConsole(c).end
  {
    PaletteDecodes(false, false, c);
    PaletteDecodes(true, false, c);
  }

  /** The background tables use the codes 40–47 and 100–107 and end with 49. */
  lemma BackgroundPaletteCodes(c: Color)
    ensures ParseCsi(BackgroundConsole(c).begin) == Some(CsiParts([40 + ColorIndex(c)], 'm'))
    ensures ParseCsi(BackgroundConsoleBright(c).begin) == Some(CsiParts([100 + ColorIndex(c)], 'm'))
    ensures ParseCsi(BackgroundConsole(c).end) == Some(CsiParts([49], 'm'))
    ensures BackgroundConsoleBright(c).end == BackgroundConsole(c).end
  {
    PaletteDecodes(false, true, c);
    PaletteDecodes(true, true, c);
  }

  /** No two palette entries are the same style. */
  lemma PaletteInjective(bright1: bool, bg1: bool, c1: Color, bright2: bool, bg2: bool, c2: Color)
    requires MetaColor(bright1, bg1, c1) == MetaColor(bright2, bg2, c2)
    ensures bright1 == bright2 && bg1 == bg2 && c1 == c2
  {
    PaletteDecodes(bright1, bg1, c1);
    PaletteDecodes(bright2, bg2, c2);
  }

  // ---------------------------------------------------------------------------
  // Direct colours

  /** `_meta_rgb(fg).from_rgb(r, g, b)`: SGR 38;2;r;g;b ended by 39 when `fg`,
      SGR 48;2;r;g;b ended by 49 otherwise. The channels are not range-checked. */
  function MetaRgbFromRgb(fg: bool, r: int, g: int, b: int): Style
  {
    Style(Sgr([if fg then 38 else 48, 2, r, g, b]), Sgr([if fg then 39 else 49]))
  }

  lemma MetaRgbDecodes(fg: bool, r: nat, g: nat, b: nat)
    ensures ParseCsi(MetaRgbFromRgb(fg, r, g, b).begin) == Some(CsiParts([if fg then 38 else 48, 2, r, g, b], 'm'))
    ensures ParseCsi(MetaRgbFromRgb(fg, r, g, b).end) == Some(CsiParts([if fg then 39 else 49], 'm'))
  {
    SgrRoundTrip([if fg then 38 else 48, 2, r, g, b]);
    SgrRoundTrip([if fg then 39 else 49]);
  }

  /** `Styles.Foreground.RGB.from_rgb` as the table is written: `_meta_rgb(False)`. */
  function ForegroundRgbAsWritten(r: int, g: int, b: int): Style { MetaRgbFromRgb(false, r, g, b) }

  /** `Styles.Background.RGB.from_rgb` as the table is written: `_meta_rgb(True)`. */
  function BackgroundRgbAsWritten(r: int, g: int, b: int): Style { MetaRgbFromRgb(true, r, g, b) }

  /** As written, the foreground constructor sets the background colour (SGR 48)
      and the background constructor the foreground colour (SGR 38). */
  lemma RgbTablesSwapped(r: nat, g: nat, b: nat)
    ensures ParseCsi(ForegroundRgbAsWritten(r, g, b).begin) == Some(CsiParts([48, 2, r, g, b], 'm'))
    ensures ParseCsi(BackgroundRgbAsWritten(r, g, b).begin) == Some(CsiParts([38, 2, r, g, b], 'm'))
  {
    MetaRgbDecodes(false, r, g, b);
    MetaRgbDecodes(true, r, g, b);
  }

  /** The foreground constructor with the flag the name calls for. */
  function ForegroundRgb(r: int, g: int, b: int): Style { MetaRgbFromRgb(true, r, g, b) }

  /** The background constructor with the flag the name calls for. */
  function BackgroundRgb(r: int, g: int, b: int): Style { MetaRgbFromRgb(false, r, g, b) }

  /** Corrected, the foreground constructor sets SGR 38 and resets with 39, and the
      background constructor sets SGR 48 and resets with 49, like the palette's
      foreground and background ends. */
  lemma RgbTablesCorrected(r: nat, g: nat, b: nat, c: Color)
    ensures ParseCsi(ForegroundRgb(r, g, b).begin) == Some(CsiParts([38, 2, r, g, b], 'm'))
    ensures ParseCsi(BackgroundRgb(r, g, b).begin) == Some(CsiParts([48, 2, r, g, b], 'm'))
    ensures ForegroundRgb(r, g, b).end == ForegroundConsole(c).end
    ensures BackgroundRgb(r, g, b).end == BackgroundConsole(c).end
  {
    MetaRgbDecodes(true, r, g, b);
    MetaRgbDecodes(false, r, g, b);
  }

  /** `_meta_rgb(fg).from_hex(hex_color)` as written: the channels are read from
      the argument itself, not from its normalised form. */
  function MetaRgbFromHexAsWritten(fg: bool, hex: string): (r: Result<Style>)
    ensures |hex| <= 4 || hex[0] == '#' ==> r.Err?
  {
    var (r, g, b) :- Hex.DecodeChannels(hex);
    Ok(MetaRgbFromRgb(fg, r, g, b))
  }

  /** `from_hex` reading the normalised colour ('#' stripped, short forms expanded). */
  function MetaRgbFromHex(fg: bool, hex: string): (r: Result<Style>)
    ensures var n := |Hex.LstripHash(hex)|; n <= 1 || n == 4 ==> r.Err?
  {
    var (r, g, b) :- Hex.DecodeNormalised(hex);
    Ok(MetaRgbFromRgb(fg, r, g, b))
  }

  /** As written, '#rrggbb' raises; only a bare six-digit prefix is read. */
  lemma FromHexAsWrittenRejectsHash(fg: bool, r: nat, g: nat, b: nat)
    requires r < 256 && g < 256 && b < 256
    ensures MetaRgbFromHexAsWritten(fg, "#" + Hex.HexColour(r, g, b)).Err?
    ensures MetaRgbFromHexAsWritten(fg, Hex.HexColour(r, g, b)) == Ok(MetaRgbFromRgb(fg, r, g, b))
  {
    Hex.ChannelsRoundTrip(r, g, b);
  }

  /** Reading the normalised colour, 'rrggbb' and '#rrggbb' give the colour written. */
  lemma FromHexRoundTrip(fg: bool, r: nat, g: nat, b: nat)
    requires r < 256 && g < 256 && b < 256
    ensures MetaRgbFromHex(fg, Hex.HexColour(r, g, b)) == Ok(MetaRgbFromRgb(fg, r, g, b))
    ensures MetaRgbFromHex(fg, "#" + Hex.HexColour(r, g, b)) == Ok(MetaRgbFromRgb(fg, r, g, b))
  {
    Hex.NormalisedRoundTrip(r, g, b);
  }

  // ---------------------------------------------------------------------------
  // Decorations

  const BOLD: Style := Style(Sgr([1]), Sgr([22]))
  const ITALIC: Style := Style(Sgr([3]), Sgr([23]))
  const UNDERLINE: Style := Style(Sgr([4]), Sgr([24]))
  const BLINK: Style := Style(Sgr([5]), Sgr([25]))
  const INVERSE: Style := Style(Sgr([7]), Sgr([27]))
  const STRIKETHROUGH: Style := Style(Sgr([9]), Sgr([29]))

  /** Each decoration is one SGR on and its SGR off. */
  lemma DecorationsDecode()
    ensures ParseCsi(BOLD.begin) == Some(CsiParts([1], 'm')) && ParseCsi(BOLD.end) == Some(CsiParts([22], 'm'))
    ensures ParseCsi(ITALIC.begin) == Some(CsiParts([3], 'm')) && ParseCsi(ITALIC.end) == Some(CsiParts([23], 'm'))
    ensures ParseCsi(UNDERLINE.begin) == Some(CsiParts([4], 'm')) && ParseCsi(UNDERLINE.end) == Some(CsiParts([24], 'm'))
    ensures ParseCsi(BLINK.begin) == Some(CsiParts([5], 'm')) && ParseCsi(BLINK.end) == Some(CsiParts([25], 'm'))
    ensures ParseCsi(INVERSE.begin) == Some(CsiParts([7], 'm')) && ParseCsi(INVERSE.end) == Some(CsiParts([27], 'm'))
    ensures ParseCsi(STRIKETHROUGH.begin) == Some(CsiParts([9], 'm')) && ParseCsi(STRIKETHROUGH.end) == Some(CsiParts([29], 'm'))
  {
    assert ParseCsi(BOLD.begin) == Some(CsiParts([1], 'm')) by { SgrRoundTrip([1]); }
    assert ParseCsi(BOLD.end) == Some(CsiParts([22], 'm')) by { SgrRoundTrip([22]); }
    assert ParseCsi(ITALIC.begin) == Some(CsiParts([3], 'm')) by { SgrRoundTrip([3]); }
    assert ParseCsi(ITALIC.end) == Some(CsiParts([23], 'm')) by { SgrRoundTrip([23]); }
    assert ParseCsi(UNDERLINE.begin) == Some(CsiParts([4], 'm')) by { SgrRoundTrip([4]); }
    assert ParseCsi(UNDERLINE.end) == Some(CsiParts([24], 'm')) by { SgrRoundTrip([24]); }
    assert ParseCsi(BLINK.begin) == Some(CsiParts([5], 'm')) by { SgrRoundTrip([5]); }
    assert ParseCsi(BLINK.end) == Some(CsiParts([25], 'm')) by { SgrRoundTrip([25]); }
    assert ParseCsi(INVERSE.begin) == Some(CsiParts([7], 'm')) by { SgrRoundTrip([7]); }
    assert ParseCsi(INVERSE.end) == Some(CsiParts([27], 'm')) by { SgrRoundTrip([27]); }
    assert ParseCsi(STRIKETHROUGH.begin) == Some(CsiParts([9], 'm')) by { SgrRoundTrip([9]); }
    assert ParseCsi(STRIKETHROUGH.end) == Some(CsiParts([29], 'm')) by { SgrRoundTrip([29]); }
  }
}
