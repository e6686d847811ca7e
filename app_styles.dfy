/** The application's terminal styles (app/core/styles.py): each style class has a
    begin string and an end string; a StyleMix joins its members' begins and ends in
    argument order. Foreground and Background write whatever colour value they hold
    (a palette entry is itself an SGR string) and end with SGR 39 or 49. */
module AppStyles {
  import opened Wrappers
  import opened PyStr
  import opened Tools
  import Hex
  import GraphicsStyles

  /** An instance of `Foreground.RGB` (`background` false) or of its subclass
      `Background.RGB` (`background` true). */
  datatype Rgb = Rgb(r: int, g: int, b: int, background: bool)

  /** What a Foreground or Background may hold: a string (the palette enums are
      strings) or an RGB object. */
  datatype ColorValue = Text(s: string) | Direct(rgb: Rgb)

  datatype AppStyle =
    | Foreground(color: ColorValue)
    | Background(color: ColorValue)
    | Bold | Italic | Underline | Blink | Inverse | Strikethrough
    | StyleMix(styles: seq<AppStyle>)

  /** `Foreground.Console`, `Foreground.ConsoleBright`, `Background.Console`,
      `Background.ConsoleBright`. */
  function ForegroundConsole(c: GraphicsStyles.Color): string { Sgr([30 + GraphicsStyles.ColorIndex(c)]) }
  function ForegroundConsoleBright(c: GraphicsStyles.Color): string { Sgr([90 + GraphicsStyles.ColorIndex(c)]) }
  function BackgroundConsole(c: GraphicsStyles.Color): string { Sgr([40 + GraphicsStyles.ColorIndex(c)]) }
  function BackgroundConsoleBright(c: GraphicsStyles.Color): string { Sgr([100 + GraphicsStyles.ColorIndex(c)]) }

  /** `str(rgb)`: SGR 38;2;r;g;b for `Foreground.RGB`, 48;2;r;g;b for `Background.RGB`. */
  function RgbStr(rgb: Rgb): string
  {
    Sgr([if rgb.background then 48 else 38, 2, rgb.r, rgb.g, rgb.b])
  }

  /** `str(color)`. */
  function ColorStr(c: ColorValue): string
  {
    match c
    case Text(s) => s
    case Direct(rgb) => RgbStr(rgb)
  }

  /** The SGR code a decoration class switches on with. */
  function OnCode(s: AppStyle): nat
  {
    match s
    case Bold => 1
    case Italic => 3
    case Underline => 4
    case Blink => 5
    case Inverse => 7
    case _ => 9
  }

  /** The SGR code `_end` writes for a style that is not a mix. */
  function OffCode(s: AppStyle): nat
  {
    match s
    case Foreground(_) => 39
    case Background(_) => 49
    case Bold => 22
    case Italic => 23
    case Underline => 24
    case Blink => 25
    case Inverse => 27
    case _ => 29
  }

  /** `style._begin`. */
  function Begin(s: AppStyle): string
  {
    match s
    case Foreground(c) => ColorStr(c)
    case Background(c) => ColorStr(c)
    case StyleMix(styles) => BeginAll(styles)
    case _ => Sgr([OnCode(s)])
  }

  /** `''.join([style._begin for style in styles])`. */
  function BeginAll(styles: seq<AppStyle>): string
  {
    if styles == [] then "" else Begin(styles[0]) + BeginAll(styles[1..])
  }

  /** `style._end`. */
  function End(s: AppStyle): string
  {
    match s
    case StyleMix(styles) => EndAll(styles)
    case _ => Sgr([OffCode(s)])
  }

  /** `''.join([style._end for style in styles])`. */
  function EndAll(styles: seq<AppStyle>): string
  {
    if styles == [] then "" else End(styles[0]) + EndAll(styles[1..])
  }

  /** The pair of strings a style writes, as the framework's Style value. */
  function AsFramework(s: AppStyle): GraphicsStyles.Style
  {
    GraphicsStyles.Style(Begin(s), End(s))
  }

  // ---------------------------------------------------------------------------
  // Mixing

  /** The framework values of a list of styles. */
  function AsFrameworkAll(styles: seq<AppStyle>): (r: seq<GraphicsStyles.Style>)
    ensures |r| == |styles| && forall k :: 0 <= k < |styles| ==> r[k] == AsFramework(styles[k])
  {
    seq(|styles|, k requires 0 <= k < |styles| => AsFramework(styles[k]))
  }

  /** A StyleMix writes exactly what the framework's `Style.mix` writes for the
      same members: begins and ends each joined in argument order. */
  lemma {:induction false} StyleMixAgreesWithFramework(styles: seq<AppStyle>)
    ensures AsFramework(StyleMix(styles)) == GraphicsStyles.Mix(AsFrameworkAll(styles))
    decreases |styles|
  {
    var fs := AsFrameworkAll(styles);
    if styles == [] {
      assert fs == [];
      GraphicsStyles.MixOfFew(GraphicsStyles.EMPTY);
    } else {
      var rest := AsFrameworkAll(styles[1..]);
      StyleMixAgreesWithFramework(styles[1..]);
      assert fs == [fs[0]] + rest;
      GraphicsStyles.MixAppend([fs[0]], rest);
      GraphicsStyles.MixOfFew(fs[0]);
      GraphicsStyles.MixWithConcatenates(fs[0], GraphicsStyles.Mix(rest));
      assert GraphicsStyles.Mix(fs) == GraphicsStyles.Style(Begin(styles[0]) + BeginAll(styles[1..]), End(styles[0]) + EndAll(styles[1..]));
      assert BeginAll(styles) == Begin(styles[0]) + BeginAll(styles[1..]);
      assert EndAll(styles) == End(styles[0]) + EndAll(styles[1..]);
      assert AsFramework(StyleMix(styles)) == GraphicsStyles.Style(BeginAll(styles), EndAll(styles));
    }
  }

  /** Mixing the concatenation of two lists writes the two mixes one after the
      other, for the begins and for the ends alike. */
  lemma {:induction false} StyleMixAppend(xs: seq<AppStyle>, ys: seq<AppStyle>)
    ensures BeginAll(xs + ys) == BeginAll(xs) + BeginAll(ys)
    ensures EndAll(xs + ys) == EndAll(xs) + EndAll(ys)
    decreases |xs|
  {
    if xs == [] {
      assert xs + ys == ys;
    } else {
      var x, rest := xs[0], xs[1..];
      assert (xs + ys)[0] == x;
      assert (xs + ys)[1..] == rest + ys;
      StyleMixAppend(rest, ys);
      assert BeginAll(xs + ys) == Begin(x) + (BeginAll(rest) + BeginAll(ys));
      assert Begin(x) + (BeginAll(rest) + BeginAll(ys)) == (Begin(x) + BeginAll(rest)) + BeginAll(ys);
      assert EndAll(xs + ys) == End(x) + (EndAll(rest) + EndAll(ys));
      assert End(x) + (EndAll(rest) + EndAll(ys)) == (End(x) + EndAll(rest)) + EndAll(ys);
    }
  }

  /** A mix of one style writes what that style writes; a mix of nothing writes nothing. */
  lemma StyleMixOfFew(s: AppStyle)
    ensures Begin(StyleMix([s])) == Begin(s) && End(StyleMix([s])) == End(s)
    ensures Begin(StyleMix([])) == "" && End(StyleMix([])) == ""
  {
    assert [s][1..] == [];
    assert BeginAll([s]) == Begin(s) + BeginAll([]);
    assert Begin(s) + "" == Begin(s);
    assert EndAll([s]) == End(s) + EndAll([]);
    assert End(s) + "" == End(s);
  }

  /** Nesting mixes changes nothing: a mix of two mixes writes the mix of all members. */
  lemma StyleMixFlattens(xs: seq<AppStyle>, ys: seq<AppStyle>)
    ensures BeginAll([StyleMix(xs), StyleMix(ys)]) == BeginAll(xs + ys)
    ensures EndAll([StyleMix(xs), StyleMix(ys)]) == EndAll(xs + ys)
  {
    var pair := [StyleMix(xs), StyleMix(ys)];
    assert pair[1..] == [StyleMix(ys)];
    assert [StyleMix(ys)][1..] == [];
    assert BeginAll(pair) == BeginAll(xs) + BeginAll(ys) by {
      assert BeginAll([StyleMix(ys)]) == BeginAll(ys) + BeginAll([]);
    }
    assert EndAll(pair) == EndAll(xs) + EndAll(ys) by {
      assert EndAll([StyleMix(ys)]) == EndAll(ys) + EndAll([]);
    }
    StyleMixAppend(xs, ys);
  }

  // ---------------------------------------------------------------------------
  // Agreement with the framework's tables

  /** Each palette table, one lemma per table so that each proof stays small. */
  lemma ForegroundConsoleAgrees(c: GraphicsStyles.Color)
    ensures ForegroundConsole(c) == GraphicsStyles.ForegroundConsole(c).begin
  {
  }

  lemma ForegroundConsoleBrightAgrees(c: GraphicsStyles.Color)
    ensures ForegroundConsoleBright(c) == GraphicsStyles.ForegroundConsoleBright(c).begin
  {
  }

  lemma BackgroundConsoleAgrees(c: GraphicsStyles.Color)
    ensures BackgroundConsole(c) == GraphicsStyles.BackgroundConsole(c).begin
  {
  }

  lemma BackgroundConsoleBrightAgrees(c: GraphicsStyles.Color)
    ensures BackgroundConsoleBright(c) == GraphicsStyles.BackgroundConsoleBright(c).begin
  {
  }

  /** The four palette tables hold the same strings as the framework's palette. */
  lemma PaletteAgreesWithFramework(c: GraphicsStyles.Color)
    ensures ForegroundConsole(c) == GraphicsStyles.ForegroundConsole(c).begin
    ensures ForegroundConsoleBright(c) == GraphicsStyles.ForegroundConsoleBright(c).begin
    ensures BackgroundConsole(c) == GraphicsStyles.BackgroundConsole(c).begin
    ensures BackgroundConsoleBright(c) == GraphicsStyles.BackgroundConsoleBright(c).begin
  {
    ForegroundConsoleAgrees(c);
    ForegroundConsoleBrightAgrees(c);
    BackgroundConsoleAgrees(c);
    BackgroundConsoleBrightAgrees(c);
  }

  /** A Foreground holding a foreground palette entry, or a Background holding a
      background one, writes the framework's style for that entry, end included. */
  lemma PaletteStylesAgreeWithFramework(bright: bool, bg: bool, c: GraphicsStyles.Color)
    ensures var entry := GraphicsStyles.MetaColor(bright, bg, c);
            AsFramework(if bg then Background(Text(entry.begin)) else Foreground(Text(entry.begin))) == entry
  {
  }

  /** The framework constant that matches a decoration class. */
  function FrameworkDecoration(s: AppStyle): GraphicsStyles.Style
  {
    match s
    case Bold => GraphicsStyles.BOLD
    case Italic => GraphicsStyles.ITALIC
    case Underline => GraphicsStyles.UNDERLINE
    case Blink => GraphicsStyles.BLINK
    case Inverse => GraphicsStyles.INVERSE
    case _ => GraphicsStyles.STRIKETHROUGH
  }

  predicate IsDecoration(s: AppStyle)
  {
    s.Bold? || s.Italic? || s.Underline? || s.Blink? || s.Inverse? || s.Strikethrough?
  }

  /** The six decoration classes write the framework's decoration constants. */
  lemma DecorationsAgreeWithFramework(s: AppStyle)
    requires IsDecoration(s)
    ensures AsFramework(s) == FrameworkDecoration(s)
  {
    match s
    case Bold => assert [OnCode(s)] == [1] && [OffCode(s)] == [22];
    case Italic => assert [OnCode(s)] == [3] && [OffCode(s)] == [23];
    case Underline => assert [OnCode(s)] == [4] && [OffCode(s)] == [24];
    case Blink => assert [OnCode(s)] == [5] && [OffCode(s)] == [25];
    case Inverse => assert [OnCode(s)] == [7] && [OffCode(s)] == [27];
    case Strikethrough => assert [OnCode(s)] == [9] && [OffCode(s)] == [29];
  }

  /** Whatever colour it holds, a Foreground is reset by SGR 39 and a Background by
      SGR 49; an RGB object is written as SGR 38;2;r;g;b or 48;2;r;g;b. */
  lemma ColoursDecode(c: ColorValue, r: nat, g: nat, b: nat, background: bool)
    ensures ParseCsi(End(Foreground(c))) == Some(CsiParts([39], 'm'))
    ensures ParseCsi(End(Background(c))) == Some(CsiParts([49], 'm'))
    ensures ParseCsi(Begin(Foreground(Direct(Rgb(r, g, b, background)))))
         == Some(CsiParts([if background then 48 else 38, 2, r, g, b], 'm'))
  {
    assert End(Foreground(c)) == Sgr([39]);
    assert End(Background(c)) == Sgr([49]);
    assert Begin(Foreground(Direct(Rgb(r, g, b, background)))) == Sgr([if background then 48 else 38, 2, r, g, b]);
    SgrRoundTrip([39]);
    SgrRoundTrip([49]);
    SgrRoundTrip([if background then 48 else 38, 2, r, g, b]);
  }

  // ---------------------------------------------------------------------------
  // from_hex

  /** `Foreground.RGB.from_hex(hex_color)` and `Background.RGB.from_hex(hex_color)`
      as written: the channels are read from the argument rather than from its
      normalised form, and the result is a `Foreground.RGB` whichever class the
      static method is reached through. */
  function RgbFromHexAsWritten(hex: string): (r: Result<Rgb>)
    ensures r.Ok? ==> !r.value.background
    ensures |hex| <= 4 || hex[0] == '#' ==> r.Err?
  {
    var (r, g, b) :- Hex.DecodeChannels(hex);
    Ok(Rgb(r, g, b, false))
  }

  /** As written, a colour read through `Background.RGB` sets the foreground. */
  lemma BackgroundFromHexSetsForeground(r: nat, g: nat, b: nat)
    requires r < 256 && g < 256 && b < 256
    ensures RgbFromHexAsWritten(Hex.HexColour(r, g, b)) == Ok(Rgb(r, g, b, false))
    ensures ParseCsi(RgbStr(RgbFromHexAsWritten(Hex.HexColour(r, g, b)).value)) == Some(CsiParts([38, 2, r, g, b], 'm'))
  {
    Hex.ChannelsRoundTrip(r, g, b);
    SgrRoundTrip([38, 2, r, g, b]);
  }

  /** As written, the '#' form and the short forms raise. */
  lemma FromHexAsWrittenRejectsForms(r: nat, g: nat, b: nat)
    requires r < 256 && g < 256 && b < 256
    ensures RgbFromHexAsWritten("#" + Hex.HexColour(r, g, b)).Err?
    ensures RgbFromHexAsWritten("fff").Err?
  {
    Hex.ShortWhiteDiscrepancy();
  }

  /** `from_hex` reading the normalised colour and building an instance of the class
      it is called on. */
  function RgbFromHex(hex: string, background: bool): (r: Result<Rgb>)
    ensures r.Ok? ==> r.value.background == background
    ensures var n := |Hex.LstripHash(hex)|; n <= 1 || n == 4 ==> r.Err?
  {
    var (r, g, b) :- Hex.DecodeNormalised(hex);
    Ok(Rgb(r, g, b, background))
  }

  /** Corrected, 'rrggbb' and '#rrggbb' give the colour written, on the side of the
      class used. */
  lemma FromHexRoundTrip(r: nat, g: nat, b: nat, background: bool)
    requires r < 256 && g < 256 && b < 256
    ensures RgbFromHex(Hex.HexColour(r, g, b), background) == Ok(Rgb(r, g, b, background))
    ensures RgbFromHex("#" + Hex.HexColour(r, g, b), background) == Ok(Rgb(r, g, b, background))
    ensures ParseCsi(RgbStr(Rgb(r, g, b, background))) == Some(CsiParts([if background then 48 else 38, 2, r, g, b], 'm'))
  {
    Hex.NormalisedRoundTrip(r, g, b);
    SgrRoundTrip([if background then 48 else 38, 2, r, g, b]);
  }
}
