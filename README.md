# flatter, modelled in Dafny

This project models the sequential core of the flatter terminal-UI code base and proves properties of it:

- the ECMA-48 control sequences the application writes: CSI (section 5.4 of ECMA-48), SGR (section 8.3.117), and cursor, erase and scroll;
- the two style algebras: the framework's frozen `Style` pairs and the application's style classes;
- the character and style grids of the framework `Canvas` and the application `Render`, with their `overlay`;
- the layout value types, the `Padding` widget and the rounded `make_frame` box;
- the variable store (`VariableValue`, `Variables`) and the old layout tree that chains variable tables through parent links;
- the element tree of the framework, with mount, unmount and update;
- the key-driven flashcard application `ai-main.py`: keys, the en↔ru keyboard tables, the phrase database and the menu, add, explore and edit handlers.

Pure code is modelled as datatypes, functions and lemmas. Code that updates objects in place is modelled as classes with `modifies` clauses:

- `VariableValue`, `Variables` and `AbstractLayout`;
- `Element` and `RenderObject`;
- `DB` and `TransDictionary`.

Each class method is proved against a function of the old state: `Variables.Set` against `Stored`, `AbstractLayout.Update` against `UpdateScopes`, and `TransDictionary.HandleEdit` against `EditStep`. The properties are proved about those functions.

Python built-ins the code relies on are written out in the project:

- `str(int)`, slicing with negative and clamped bounds, `in`, `split(sep, 1)`, `lower()` and `s * n` (module `PyStr`);
- `int(s, 16)` (module `Hex`);
- `list.remove` (`ElementTree.RemoveFirst`);
- the dict comprehension over `zip` (`Keyboard.Zip`).

An exception becomes the `Err` case of a `Result`: `ValueError`, `KeyError`, or `AssertionError` for a failed `assert`.

Where the code does something its authors evidently did not intend, the model keeps the code as written, gives the corrected definition beside it, and proves the difference (see "## Findings"). The one exception is the overlay bounds check of `Canvases.Overlay`, where numpy's wrap-around is left out (see "## Left out").

The flashcard handlers are ai-main.py as written. `Flashcards.EditStep` and `Flashcards.TransDictionary.HandleEdit` are `handle_edit` with its two defects. `Flashcards.EditStepFixed` is the corrected edit handler:

- ESC returns to the explore screen with a fresh search;
- typing moves the cursor by the length of the text typed.

## Model

| member | source | states |
|---|---|---|
| PyStr.NatToStr | app/core/tools.py:5 | `str` of a natural number is a non-empty run of decimal digits |
| PyStr.IntToStr | app/core/tools.py:5 | `str` of a negative number starts with '-', and of any other is the digit string |
| PyStr.DigitsValueOfNatToStr | app/core/tools.py:5 | the digits `str` writes read back as the number |
| PyStr.Slice | ai-main.py:461-473 | Python slicing with clamped bounds: within bounds it is the ordinary subsequence, and never longer than the input |
| PyStr.DropLast | ai-main.py:389 | `s[:-1]` drops the last character, and gives '' for '' |
| PyStr.SplitOnce | ai-main.py:380 | `split(' - ', 1)` gives two parts exactly when the separator occurs; the parts joined by the separator are the input, cut at the first occurrence |
| PyStr.SplitOnceOfJoined | ai-main.py:380 | splitting "a - b", where " - " does not start inside a, gives back a and b |
| PyStr.Lower | ai-main.py:430-433 | `lower()` maps each character, keeping the length |
| PyStr.RepeatChar | app/ui/frame.py:25-28 | `c * n` is n copies of c, and '' when n <= 0 |
| Tools.Csi | app/core/tools.py:4-5 | `_csi` starts with ESC '[' and ends with the final; without arguments it is exactly ESC '[' final |
| Tools.Sgr | app/core/tools.py:8-9 | `_sgr` starts with ESC '[' and ends with 'm'; without arguments it is exactly ESC '[' 'm' |
| Tools.DecimalStrs | app/core/tools.py:5 | `map(str, args)`: one decimal string per argument, in order |
| Tools.CsiRoundTrip | app/core/tools.py:4-5 | parsing what `_csi` builds from non-negative arguments and a one-letter final gives back exactly those arguments and that final |
| Tools.CsiMatchesPattern | app/core/tools.py:4-12 | the output of `_csi` has the shape `_csi_regex` accepts |
| Tools.SgrRoundTrip | app/core/tools.py:8-13 | `_sgr` is a CSI with final 'm' carrying its arguments, so it has the shape `_sgr_regex` accepts |
| Tools.NegativeArgumentBreaksPattern | app/core/tools.py:5-13 | a negative argument is written with '-', which neither pattern accepts |
| Tools.ParseParamsOfJoin | app/core/tools.py:5 | the ';'-joined decimal arguments read back as the argument list |
| Tools.ParseCsi | app/core/tools.py:12 | a string the CSI pattern accepts contains no '-' |
| Control.CursorMovesDecode | app/core/control.py:7-13 | the seven cursor movements are CSI n with finals A, B, C, D, E, F and G, in that order |
| Control.MovesDefaultToOne | app/core/control.py:7-18 | without an argument, the cursor movements and the scrolls carry 1 |
| Control.CursorPositionDecodes | app/core/control.py:14 | `cursor_position(x, y)` is CSI x;y H, with `x` first |
| Control.ErasesDecode | app/core/control.py:15-16 | erase_data and erase_line are CSI n J and CSI n K, with n = 0 by default |
| Control.ScrollsDecode | app/core/control.py:17-18 | scroll_up and scroll_down are CSI n S and CSI n T |
| Control.SaveRestoreDecode | app/core/control.py:19-20 | saving and restoring the cursor are parameterless CSI s and CSI u |
| Control.NegativeCountIsMalformed | app/core/control.py:7-18 | a negative count produces a sequence without the CSI shape |
| GraphicsStyles.MixWithConcatenates | framework/core/graphics/styles.py:20-27 | `a.mix_with(b)` concatenates the begins and the ends in argument order; the ends are not reversed |
| GraphicsStyles.MixAppend | framework/core/graphics/styles.py:20-24 | mixing a concatenated list is mixing the two partial mixes |
| GraphicsStyles.MixOfFew | framework/core/graphics/styles.py:20-24 | the mix of nothing is EMPTY, and the mix of one style is that style |
| GraphicsStyles.EmptyIsIdentity | framework/core/graphics/styles.py:26-27 | EMPTY is a two-sided identity of mixing |
| GraphicsStyles.MixAssociative | framework/core/graphics/styles.py:26-27 | mixing is associative |
| GraphicsStyles.Begins | framework/core/graphics/styles.py:22 | the begins of the styles, in order |
| GraphicsStyles.Ends | framework/core/graphics/styles.py:23 | the ends of the styles, in order |
| GraphicsStyles.PaletteDecodes | framework/core/graphics/styles.py:30-47 | each palette entry is one SGR carrying 30 + 60·bright + 10·bg + the colour's offset (0 for BLACK … 7 for WHITE), ended by one SGR carrying 39 + 10·bg |
| GraphicsStyles.ForegroundPaletteCodes | framework/core/graphics/styles.py:71-72 | the foreground tables use codes 30–37 and 90–97 and end with 39 |
| GraphicsStyles.BackgroundPaletteCodes | framework/core/graphics/styles.py:76-77 | the background tables use codes 40–47 and 100–107 and end with 49 |
| GraphicsStyles.PaletteInjective | framework/core/graphics/styles.py:30-77 | no two palette entries of the four tables are the same style |
| GraphicsStyles.MetaRgbDecodes | framework/core/graphics/styles.py:53-54 | `from_rgb` is SGR 38;2;r;g;b ended by 39 when `fg`, and SGR 48;2;r;g;b ended by 49 otherwise |
| GraphicsStyles.MetaRgbFromHexAsWritten | framework/core/graphics/styles.py:57-64 | as written, `from_hex` raises on an argument of four characters or fewer and on one starting with '#' |
| GraphicsStyles.MetaRgbFromHex | framework/core/graphics/styles.py:57-64 | corrected, `from_hex` still raises when zero, one or four characters remain once '#' is stripped |
| GraphicsStyles.RgbTablesSwapped | framework/core/graphics/styles.py:73-78 | as written, `Foreground.RGB` writes SGR 48 and `Background.RGB` writes SGR 38 |
| GraphicsStyles.RgbTablesCorrected | framework/core/graphics/styles.py:50-78 | with the flags swapped back, the foreground writes 38 and resets like the foreground palette; the background writes 48 |
| GraphicsStyles.FromHexAsWrittenRejectsHash | framework/core/graphics/styles.py:57-64 | as written, '#rrggbb' raises and only a bare 'rrggbb' is read |
| GraphicsStyles.FromHexRoundTrip | framework/core/graphics/styles.py:57-64 | decoding the normalised colour, 'rrggbb' and '#rrggbb' both give the colour written |
| GraphicsStyles.DecorationsDecode | framework/core/graphics/styles.py:81-86 | the decorations are BOLD 1/22, ITALIC 3/23, UNDERLINE 4/24, BLINK 5/25, INVERSE 7/27 and STRIKETHROUGH 9/29 |
| AppStyles.AsFrameworkAll | app/core/styles.py:20-32 | the framework style of each member of a mix, in order |
| AppStyles.StyleMixAgreesWithFramework | app/core/styles.py:20-32 | a StyleMix writes exactly what the framework's `Style.mix` writes for its members: the begins in order, then the ends in the same order |
| AppStyles.StyleMixAppend | app/core/styles.py:27-32 | the joins of a concatenated list are the two joins one after the other |
| AppStyles.StyleMixOfFew | app/core/styles.py:20-32 | a mix of one style writes that style; a mix of nothing writes nothing |
| AppStyles.StyleMixFlattens | app/core/styles.py:20-32 | a mix of two mixes writes the mix of all their members |
| AppStyles.PaletteAgreesWithFramework | app/core/styles.py:36-108 | the four palette enums write, colour by colour, the same SGR strings as the framework palette's begins |
| AppStyles.PaletteStylesAgreeWithFramework | app/core/styles.py:75-125 | a Foreground or Background holding a palette entry writes the framework's palette style |
| AppStyles.DecorationsAgreeWithFramework | app/core/styles.py:128-197 | the six decoration classes write 1/22, 3/23, 4/24, 5/25, 7/27 and 9/29, like the framework constants |
| AppStyles.ColoursDecode | app/core/styles.py:72-125 | Foreground ends with SGR 39 and Background with SGR 49; `str(RGB)` is SGR 38;2;r;g;b for the foreground class and 48;2;r;g;b for the background class |
| AppStyles.RgbFromHexAsWritten | app/core/styles.py:63-70 | as written, `from_hex` always builds a foreground colour, and raises on four characters or fewer or on a leading '#' |
| AppStyles.RgbFromHex | app/core/styles.py:63-70 | corrected, the colour is on the side of the class called, and zero, one or four characters left after '#' still raise |
| AppStyles.BackgroundFromHexSetsForeground | app/core/styles.py:62-110 | as written, `Background.RGB.from_hex` builds a `Foreground.RGB`, whose string uses code 38 |
| AppStyles.FromHexAsWrittenRejectsForms | app/core/styles.py:62-70 | as written, '#rrggbb' and 'fff' raise, because the unnormalised argument is sliced |
| AppStyles.FromHexRoundTrip | app/core/styles.py:62-112 | corrected, 'rrggbb' and '#rrggbb' give the colour written, on the side of the class called |
| Hex.PyHexInt | app/core/styles.py:69 | `int('', 16)` raises (its values are stated by `PlainHexValue` and `LeadingHashIsInvalid`) |
| Hex.PlainHexValue | framework/core/graphics/styles.py:63 | a run of hex digits reads as its value |
| Hex.LeadingHashIsInvalid | framework/core/graphics/styles.py:63 | a slice starting with '#' raises |
| Hex.ToHex2 | framework/core/graphics/styles.py:63 | two hex digits whose value is the byte |
| Hex.Hex2Value | framework/core/graphics/styles.py:63 | the two digits of a byte read back as the byte |
| Hex.HexColour | framework/core/graphics/styles.py:57 | 'rrggbb' is six hex digits |
| Hex.LstripHash | framework/core/graphics/styles.py:58 | `lstrip('#')` leaves a suffix that does not start with '#', and everything it removed is '#' |
| Hex.Doubled | framework/core/graphics/styles.py:62 | each character is written twice, in order |
| Hex.Normalise | framework/core/graphics/styles.py:58-62 | after stripping '#', two characters are written three times, three characters are each doubled, and anything else is kept |
| Hex.ChannelAt | framework/core/graphics/styles.py:63 | `int(x[i:i + 2], 16)` of two hex digits is their value |
| Hex.SixDigitsDecode | framework/core/graphics/styles.py:63 | six hex digits at the front decode pairwise, and the rest is ignored |
| Hex.DecodeChannels | framework/core/graphics/styles.py:63 | reading the three channels raises when the argument has four characters or fewer (the third slice is empty) and when it starts with '#' |
| Hex.DecodeNormalised | framework/core/graphics/styles.py:58-63 | decoding the normalised colour raises when zero, one or four characters remain after stripping '#' |
| Hex.ChannelsRoundTrip | framework/core/graphics/styles.py:63 | decoding 'rrggbb' gives (r, g, b) |
| Hex.NormalisedRoundTrip | framework/core/graphics/styles.py:58-63 | the normalised decoding reads 'rrggbb' and '#rrggbb' alike |
| Hex.NormalisedShortForm | framework/core/graphics/styles.py:61-63 | the normalised decoding reads 'rgb' as 'rrggbb' |
| Hex.NormalisedGrey | framework/core/graphics/styles.py:59-63 | the normalised decoding reads two digits 'xy' as 'xyxyxy': three equal channels |
| Hex.HashWhiteDiscrepancy | framework/core/graphics/styles.py:58-63 | '#ffffff' raises as written but is white once normalised |
| Hex.ShortWhiteDiscrepancy | framework/core/graphics/styles.py:58-63 | 'fff' raises as written but is white once normalised |
| Grids.Full | framework/core/graphics/canvas.py:50-51 | `np.full`: refused for a negative dimension; otherwise that shape with every cell the fill value |
| Grids.PasteRow | framework/core/graphics/canvas.py:63 | a row with the piece's cells from column x on, and the rest of the row kept |
| Grids.PastedRow | framework/core/graphics/canvas.py:63-64 | row i of the copy: pasted inside the block rows, and the base row elsewhere |
| Grids.Paste | framework/core/graphics/canvas.py:61-64 | the copy has the base's shape; cells inside the block are the other grid's and every other cell is the base's |
| Grids.PastedFromUnique | framework/core/graphics/canvas.py:61-64 | the pasted copy is determined by its inputs |
| Grids.PasteIdempotent | framework/core/graphics/canvas.py:61-64 | pasting the same block twice is pasting it once |
| Grids.PasteWhole | framework/core/graphics/canvas.py:61-64 | pasting over the whole grid gives the pasted grid |
| Grids.PasteOwnBlock | framework/core/graphics/canvas.py:61-64 | pasting a grid's own block back changes nothing |
| Grids.VStack | framework/core/graphics/canvas.py:35-36 | `np.vstack` refuses no rows and rows of different lengths; otherwise one row per input, in order |
| Canvases.New | framework/core/graphics/canvas.py:17-20 | a canvas is built only from text and style grids of one shape (AssertionError otherwise) |
| Canvases.Empty | framework/core/graphics/canvas.py:48-52 | `empty(w, h)` has width w and height h, all blanks and no style; a negative size is refused |
| Canvases.ResolveAnchor | framework/core/graphics/canvas.py:55-58 | a negative coordinate becomes size − other size + coordinate + 1; a non-negative one is kept |
| Canvases.AnchorPastEdgePassesAssert | framework/core/graphics/canvas.py:55-59 | as written, x = −5 on a 3-wide canvas resolves to −2 and passes the assertion |
| Canvases.Overlay | framework/core/graphics/canvas.py:54-65 | succeeds exactly when the resolved block fits, otherwise AssertionError; the result has self's shape, other's cells inside the block and self's cells outside, for text and style alike |
| Canvases.FitsIsAssertPlusNearEdges | framework/core/graphics/canvas.py:59 | the corrected check is the source's assertion plus the near edges |
| Canvases.AnchorPastEdgeRejected | framework/core/graphics/canvas.py:55-59 | corrected, the anchor past the left edge is refused |
| Canvases.OverlayAtResolvedPosition | framework/core/graphics/canvas.py:55-58 | overlaying at a negative coordinate is overlaying at its resolved position |
| Canvases.MinusOneAnchorsCorner | framework/core/graphics/canvas.py:55-58 | x = y = −1 pastes into the bottom right-hand corner |
| Canvases.OverlayWhole | framework/core/graphics/canvas.py:54-65 | overlaying a canvas of the same shape at (0, 0) gives that canvas |
| Canvases.OverlayIdempotent | framework/core/graphics/canvas.py:54-65 | overlaying twice at one place is overlaying once |
| Canvases.LineStyles | framework/core/graphics/canvas.py:31 | one style cell per character of the line |
| Canvases.SegmentCells | framework/core/graphics/canvas.py:29-31 | character k of segment j sits at the segment's offset in the row and carries the segment's style |
| Canvases.FromLines | framework/core/graphics/canvas.py:22-38 | one row per line, row i being line i's characters with their segments' styles; fails for no lines or lines of different lengths |
| RenderEngine.Empty | app/core/render_engine.py:86-90 | `Render.empty(w, h)` has width w and height h, all blanks and no style |
| RenderEngine.Overlay | app/core/render_engine.py:92-100 | ValueError when x < 0, y < 0 or the block does not fit; otherwise a new render with other's cells inside the block and self's outside |
| RenderEngine.NoNegativeAnchors | app/core/render_engine.py:93-94 | a negative coordinate is refused, with no anchoring |
| RenderEngine.OverlayBlankWhole | app/core/render_engine.py:86-100 | overlaying a blank render of one's own size at the origin gives the blank render |
| RenderEngine.OverlayIdempotent | app/core/render_engine.py:92-100 | overlaying twice at one place is overlaying once |
| RenderEngine.OverlayAgreesWithCanvas | app/core/render_engine.py:92-100 | for non-negative coordinates the render and the framework canvas accept the same overlays and paste the same characters |
| RenderEngine.MaxLineLen | app/core/render_engine.py:67 | `max` over no lines raises; otherwise it is the length of some line, and no line is longer |
| Concepts.NewSizeBox | framework/core/concepts.py:4-6 | a size is accepted exactly when both sides are greater than zero |
| Concepts.NewPosition | framework/core/concepts.py:9-11 | a position is accepted exactly when both coordinates are zero or more |
| Concepts.ZeroBoundaries | framework/core/concepts.py:5-11 | a zero side is refused, while a zero coordinate is accepted |
| Padding.ChildSize | app/core/widgets/padding.py:27-28 | the child size plus the insets on each side is the size given |
| Padding.DefaultInsets | app/core/widgets/padding.py:10-17 | all four insets default to 0, so the child gets the full size |
| Padding.RenderPadded | app/core/widgets/padding.py:26-34 | as written, a successful render has the full width and height given |
| Padding.RenderIsBlank | app/core/widgets/padding.py:26-34 | the child is asked for the inset size; on success the result is the blank `empty(width, height)`, because the overlay result is discarded |
| Padding.NegativeInsetFails | app/core/widgets/padding.py:33 | a negative left or top inset makes the overlay check fail |
| Padding.ExactChildFits | app/core/widgets/padding.py:26-34 | a child that renders at the size given always fits |
| Padding.RenderPaddedFixed | app/core/widgets/padding.py:32-34 | corrected (the overlay's result kept): fails exactly where the code as written fails, and has the full size |
| Padding.FixedShowsChild | app/core/widgets/padding.py:26-34 | corrected, each cell inside the insets is the child's cell and each cell around it is blank |
| Padding.PaddingAsWrittenDropsChild | app/core/widgets/padding.py:32-34 | whenever the child draws a non-blank cell inside the insets, the render as written differs from the corrected one |
| Frame.MakeFrame | app/ui/frame.py:23-29 | the loop appends the top line, `height − 2` middle lines and the bottom line |
| Frame.FrameShape | app/ui/frame.py:24-29 | the frame has 2 + max(0, height − 2) lines, each 2 + max(0, width − 2) long |
| Frame.FrameCells | app/ui/frame.py:25-28 | rounded corners at the corners, '─' along the top and bottom, '│' down the sides and blanks inside |
| Variable.Assigned | app/core/variable.py:13-17 | the setter stores the value; the flag is set exactly when it was set already or the value differs; an equal value changes nothing |
| Variable.Stored | app/core/variable.py:41-45 | `set` on an absent name adds a slot that counts as changed; on a present name it goes through the setter; other names are kept |
| Variable.Cleared | app/core/variable.py:47-49 | `_reset` clears every flag and keeps every name and value |
| Variable.StoreSameIsNoop | app/core/variable.py:41-45 | writing the value a slot already holds leaves the table as it was |
| Variable.StoreIdempotent | app/core/variable.py:41-45 | storing the same value twice is storing it once |
| Variable.ChangedAfterResetMeansDifferent | app/core/variable.py:13-24 | after a reset, a write sets the flag exactly when the value differs |
| Variable.ClearedKeepsValues | app/core/variable.py:47-49 | a reset keeps the values and is idempotent |
| Variable.VariableValue.constructor | app/core/variable.py:5-7 | a new slot holds the value and counts as changed |
| Variable.VariableValue.SetValue | app/core/variable.py:13-17 | the slot's new contents are `Assigned` of its old contents |
| Variable.VariableValue.Reset | app/core/variable.py:23-24 | the flag is cleared and the value kept |
| Variable.VariableValue.Invalidate | app/core/variable.py:26-27 | the flag is set and the value kept |
| Variable.Variables.constructor | app/core/variable.py:31-32 | a new table is empty |
| Variable.Variables.RawGet | app/core/variable.py:34-35 | `_raw_get` is the slot under the name, or None without one |
| Variable.Variables.Get | app/core/variable.py:37-52 | `get` and `[]` give the stored value, or None for an absent name |
| Variable.Variables.Contains | app/core/variable.py:57-58 | `in` holds exactly for the names the table holds |
| Variable.Variables.Set | app/core/variable.py:41-55 | the table's new contents are `Stored` of the old ones; an existing slot is reused and a new name gets a fresh slot |
| Variable.Variables.Reset | app/core/variable.py:47-49 | the loop leaves the table's contents `Cleared` |
| Layout.Defining | app/core/old/old_abstract_layout.py:41-46 | the nearest table of the chain that defines the name, or none |
| Layout.Resolve | app/core/old/old_abstract_layout.py:75-80 | a lookup finds a value exactly when some table of the chain defines the name |
| Layout.ResolveStep | app/core/old/old_abstract_layout.py:75-80 | a lookup answers from the own table if it defines the name, otherwise from the parent's chain |
| Layout.ResolveAgrees | app/core/old/old_abstract_layout.py:75-80 | chains that agree on where and with what value a name is defined resolve it alike |
| Layout.OverrideShadows | app/core/old/old_abstract_layout.py:82-83 | after `override` the layout sees the new value; other names and the ancestors' tables are untouched |
| Layout.OverrideScopes | app/core/old/old_abstract_layout.py:82-83 | `override` writes the layout's own table only, where the name then holds the value |
| Layout.Target | app/core/old/old_abstract_layout.py:85-90 | the table `update` writes is the nearest one defining the name, or the layout's own when none does |
| Layout.UpdateScopes | app/core/old/old_abstract_layout.py:85-90 | `update` puts the value under the name in the `Target` table and leaves every other table as it was |
| Layout.UpdateSeenBelowTarget | app/core/old/old_abstract_layout.py:85-90 | after `update`, every layout from this one to the defining one sees the new value |
| Layout.UpdateAboveTargetUnchanged | app/core/old/old_abstract_layout.py:85-90 | tables above the written one are untouched |
| Layout.UpdateKeepsOtherNames | app/core/old/old_abstract_layout.py:85-90 | `update` changes no other name, seen from any layout of the chain |
| Layout.UpdateReachesAncestor | app/core/old/old_abstract_layout.py:85-90 | where an ancestor defines the name, `update` writes the ancestor's table, and the ancestor sees the new value |
| Layout.UpdateWithoutDefinitionOverrides | app/core/old/old_abstract_layout.py:89-90 | with no definition in the chain, `update` is `override` |
| Layout.ScopesOf | app/core/old/old_abstract_layout.py:41-46 | one table contents per layout of the chain, nearest first |
| Layout.ScopesOfAt | app/core/old/old_abstract_layout.py:41-46 | entry i of the scopes is table i's contents |
| Layout.KeepsContents | app/core/variable.py:41-45 | a table whose slots did not change holds what it held |
| Layout.TableWritten | app/core/variable.py:41-45 | a table whose slot went through the setter holds `Stored` of its old contents |
| Layout.ChainWritten | app/core/old/old_abstract_layout.py:85-88 | writing one table of the chain changes that table's scope only |
| Layout.NewTable | app/core/old/old_abstract_layout.py:27-30 | the constructor's loop makes a fresh table with one changed slot per entry of `variables` |
| Layout.ChildSeesParent | app/core/old/old_abstract_layout.py:70-80 | a child adopted by `add_children` extends its parent's chain, and a name it does not define resolves as in the parent |
| Layout.AssignSlot | app/core/old/old_abstract_layout.py:86-88 | the setter call on the slot of table d changes that table's scope to `Stored` |
| Layout.Listener.constructor | app/core/old/old_abstract_layout.py:32-34 | a listener starts without a widget |
| Layout.AbstractLayout.constructor | app/core/old/old_abstract_layout.py:13-39 | a fresh table with one changed slot per entry of `variables`; the listener's widget is the new layout; the children are adopted in order and keep their own children |
| Layout.AbstractLayout.Lookup | app/core/old/old_abstract_layout.py:75-80 | `lookup` is `Resolve` on the chain's scopes |
| Layout.AbstractLayout.RawLookup | app/core/old/old_abstract_layout.py:41-46 | `_raw_lookup` is the slot of the nearest defining table, or None |
| Layout.AbstractLayout.Width | app/core/old/old_abstract_layout.py:48-61 | the fixed width when set (and `fixed_width` holds exactly then), otherwise the lookup of "width" |
| Layout.AbstractLayout.Height | app/core/old/old_abstract_layout.py:52-68 | the fixed height when set (and `fixed_height` holds exactly then), otherwise the lookup of "height" |
| Layout.AbstractLayout.AddChildren | app/core/old/old_abstract_layout.py:70-73 | each child's parent becomes this layout, the children are appended in order, and each child keeps its own children; the id and the table are constants |
| Layout.AbstractLayout.Override | app/core/old/old_abstract_layout.py:82-83 | the chain's scopes become `OverrideScopes` of the old ones |
| Layout.AbstractLayout.Update | app/core/old/old_abstract_layout.py:85-90 | the chain's scopes become `UpdateScopes` of the old ones |
| ElementTree.RemoveFirst | framework/core/element.py:25-26 | `list.remove` drops one element when `x` is present and keeps the list otherwise |
| ElementTree.FirstIndex | framework/core/element.py:26 | the first position of `x` |
| ElementTree.RemoveFirstAt | framework/core/element.py:26 | removing cuts out the first occurrence and keeps what is before and after it |
| ElementTree.RemoveFirstMultiset | framework/core/element.py:26 | removing drops exactly one copy of `x` |
| ElementTree.RemoveAppended | framework/core/element.py:20-26 | removing what was just appended gives the list back |
| ElementTree.RemoveKeepsOrder | framework/core/element.py:26 | the remaining siblings keep their relative order |
| ElementTree.RenderObject.constructor | framework/core/element.py:21 | a new render object has no element |
| ElementTree.RenderObject.Update | framework/core/element.py:41 | the `update` hook records the widget and keeps the back-link |
| ElementTree.Element.constructor | framework/core/element.py:11-15 | a new element has the widget, no parent, no children and no render object |
| ElementTree.Element.Mount | framework/core/element.py:17-22 | the parent is set, this element is appended to the parent's children, and a fresh render object links back to it; the parent's own parent, widget and render object are unchanged |
| ElementTree.Element.Unmount | framework/core/element.py:24-30 | the element leaves the parent's children (first occurrence only); parent and render object are cleared; the render object's back-link is cleared; its own children are kept; a second unmount changes nothing; the old parent's own parent, widget and render object are unchanged |
| ElementTree.Element.Update | framework/core/element.py:32-42 | a compatible widget replaces the widget, goes to the render object's hook, and `self` is returned; otherwise this element is unmounted and a fresh element, mounted with the cleared parent and therefore parentless, is returned, while this element keeps its own children and the old render object keeps its recorded updates; on both paths the old parent's own parent, widget and render object are unchanged |
| Keyboard.Zip | ai-main.py:31-32 | the dict comprehension over `zip` has exactly the keys of the first layout |
| Keyboard.ZipAt | ai-main.py:31-32 | without repeated keys, the key at each place maps to the value at that place |
| Keyboard.ZipRoundTrip | ai-main.py:31-32 | zipping one way and then back gives the key started from |
| Keyboard.LayoutsDistinct | ai-main.py:29-30 | both layouts are 68 keys long and neither repeats a key |
| Keyboard.En2Ru | ai-main.py:31 | `en2ru` is keyed by the English layout |
| Keyboard.Ru2En | ai-main.py:32 | `ru2en` is keyed by the Russian layout |
| Keyboard.EnRuRoundTrip | ai-main.py:29-32 | `ru2en[en2ru[c]] == c` for every key of the English layout |
| Keyboard.RuEnRoundTrip | ai-main.py:29-32 | `en2ru[ru2en[c]] == c` for every key of the Russian layout |
| Keyboard.SamePlace | ai-main.py:29-32 | each key goes to the key at the same place of the other layout |
| Flashcards.TextKey | ai-main.py:110-113 | `Key(str)` has that text and code PRINTABLE |
| Flashcards.SpecialKey | ai-main.py:114-116 | `Key(int)` has that code and no text |
| Flashcards.KeyEquality | ai-main.py:110-126 | a printable key equals its own text and 0; a special key equals its own code and '' |
| Flashcards.Put | ai-main.py:381 | `data[k] = v` stores the record; a present phrase keeps its place and a new one goes last |
| Flashcards.Del | ai-main.py:416 | `del data[k]` raises KeyError for an absent phrase and otherwise removes only that phrase |
| Flashcards.Items | ai-main.py:433 | `items()` lists the pairs in insertion order |
| Flashcards.Without | ai-main.py:416 | the order without the deleted phrase |
| Flashcards.WithoutKeepsOrder | ai-main.py:416 | deleting from a list without repeats takes the phrase out of its one place: the others keep their order and stay unique, and an absent phrase changes nothing |
| Flashcards.WithoutUnique | ai-main.py:416 | deleting from a list without repeats leaves one without repeats, and deleting an absent phrase changes nothing |
| Flashcards.WithoutAt | ai-main.py:416 | the list is cut exactly where the deleted phrase stood |
| Flashcards.PutWellFormed | ai-main.py:381 | writing keeps the dictionary well formed and changes no other phrase |
| Flashcards.DelWellFormed | ai-main.py:416 | deleting keeps the dictionary well formed and removes that phrase only |
| Flashcards.Hit | ai-main.py:433 | the test of the comprehension; an empty query matches every entry |
| Flashcards.Filtered | ai-main.py:429-436 | `update_filtered`'s list: empty for an empty prompt, at most ten entries, each an item of the dictionary that matches the lower-cased prompt |
| Flashcards.Matching | ai-main.py:432-434 | the comprehension keeps exactly the entries whose phrase or translation, lower-cased, contains the prompt |
| Flashcards.FilteredSpec | ai-main.py:429-436 | an empty prompt gives []; otherwise the result is the first ten matches in dictionary order, each an entry of the dictionary |
| Flashcards.InitialInv | ai-main.py:293-296 | the starting state (menu, no parameter) satisfies the invariant |
| Flashcards.MenuStep | ai-main.py:355-372 | 'a' opens the add screen with '', 'e' the explore screen with a fresh search, and ENTER the training screen; 'q' stops the loop; every other key keeps the screen and its parameter; the database is untouched |
| Flashcards.MenuStepKeepsInv | ai-main.py:355-372 | the menu keeps the invariant |
| Flashcards.AddStep | ai-main.py:374-391 | `handle_add`: only ENTER touches the database or saves; the screen changes only to the menu, with no parameter; otherwise the buffer stays, and a key other than ESC, ENTER and BACKSPACE appends its text |
| Flashcards.AddStepKeepsInv | ai-main.py:374-391 | the add screen keeps the invariant |
| Flashcards.AddEnter | ai-main.py:378-387 | ENTER on "phrase - translation" stores the translation with the default rate, saves and returns to the menu, other phrases unchanged; without " - " it only shows the format hint |
| Flashcards.AddTypeThenErase | ai-main.py:388-391 | a character typed and then erased leaves the add screen as it was |
| Flashcards.Refiltered | ai-main.py:429-437 | the selection is −1 exactly when the list is empty, and 0 otherwise; only the parameter changes |
| Flashcards.RefilteredOk | ai-main.py:429-437 | a refiltered search is consistent with the dictionary |
| Flashcards.ExploreStep | ai-main.py:393-427 | `handle_explore`: on the edit parameter exactly the keys other than ESC and TAB raise; only 'd' on a selection touches the database; only 'e' opens the edit screen, on a listed entry, with the cursor at the end |
| Flashcards.ExploreStepKeepsInv | ai-main.py:393-427 | on a consistent search the explore screen never raises, and the selection stays in [−1, len(filtered) − 1] with every listed phrase in the dictionary |
| Flashcards.ExplorePrompt | ai-main.py:407-412 | the prompt changes only by BACKSPACE, or by typing while nothing is selected |
| Flashcards.EditSave | ai-main.py:442-456 | ENTER raises exactly when the text has no " - " or the phrase changed and its original is gone; otherwise it saves once and returns to a fresh search |
| Flashcards.EditStep | ai-main.py:439-474 | `handle_edit` as written: only ENTER raises, touches the database or saves, and the screen changes only on ESC or ENTER |
| Flashcards.EditStepFixed | ai-main.py:439-474 | corrected `handle_edit`: it leaves for the explore screen only with a fresh search |
| Flashcards.EditEscape | ai-main.py:440-441 | corrected ESC: back to explore with a fresh search |
| Flashcards.Insert | ai-main.py:469-474 | corrected insertion: the text goes in at the cursor and the cursor moves past it, staying within the text |
| Flashcards.EditEnterKeepsInv | ai-main.py:442-456 | ENTER on a text with " - " never raises and keeps the invariant |
| Flashcards.EditKeyKeepsInv | ai-main.py:457-474 | every key but ENTER keeps the invariant; the cursor stays at 0 or more but may pass the end of the text |
| Flashcards.EditStepKeepsInv | ai-main.py:439-474 | as written, the edit screen keeps the invariant and raises only on ENTER without " - " (ValueError); ESC leaves the edit parameter on the explore screen |
| Flashcards.EditEnter | ai-main.py:442-456 | ENTER stores the new translation under the new phrase with the original rate, deletes the original phrase when it changed, saves, and returns to a fresh search; other phrases are unchanged |
| Flashcards.EditCursorClamps | ai-main.py:463-468 | LEFT stops at 0; RIGHT stops at the end of the text and brings back a cursor that had passed it |
| Flashcards.EditTypeThenErase | ai-main.py:457-474 | a character typed and then erased leaves the text and the cursor as they were when the cursor is within the text; past the end, the character stays |
| Flashcards.EditStepFixedKeepsInv | ai-main.py:439-474 | corrected, the edit screen raises exactly on ENTER without " - ", keeps the cursor within the text, and leaves a search parameter on the explore screen |
| Flashcards.EditEscapeAsWritten | ai-main.py:440-441 | as written, ESC switches to explore but keeps the edit parameter |
| Flashcards.EscapeAsWrittenBreaksExplore | ai-main.py:393-441 | in `handle_explore` alone: on the edit parameter left by ESC as written, every key but ESC and TAB raises KeyError; after the corrected ESC none does |
| Flashcards.InsertAsWritten | ai-main.py:469-474 | as written, the text goes in at the cursor (appended past the end) and the cursor moves by one whatever was inserted |
| Flashcards.SpecialKeyAsWrittenPassesEnd | ai-main.py:457-474 | as written, HOME at the end of the text puts the cursor past the end, so the next BACKSPACE erases nothing; corrected, it erases the last character |
| Flashcards.Dispatch | ai-main.py:542-557 | one turn: `update_ui` raises KeyError when the screen holds another screen's parameter; only the explore and edit screens raise; only the add, explore and edit screens touch the database (the training screen is a no-op in the model) |
| Flashcards.EditEscapeEndsRun | ai-main.py:440-441 | as written, ESC on the edit screen is followed by a turn whose `update_ui` raises KeyError whatever the key; after the corrected ESC the next turn does not raise |
| Flashcards.DispatchKeepsInv | ai-main.py:514-557 | every turn keeps the invariant, and raises exactly when the explore screen holds the edit parameter (KeyError in `update_ui`) or on ENTER with an edit text without " - " (ValueError) (the training screen is a no-op in the model) |
| Flashcards.DB.constructor | ai-main.py:61-76 | a loaded database holds the given dictionary and has not been saved |
| Flashcards.DB.Set | ai-main.py:381 | the data becomes `Put` of the old data and stays well formed |
| Flashcards.DB.Delete | ai-main.py:416 | the data becomes `Del` of the old data, without the phrase, and stays well formed |
| Flashcards.DB.Save | ai-main.py:80-90 | a save is counted and the data is kept |
| Flashcards.TransDictionary.Snapshot | ai-main.py:292-296 | the screen, the parameter and the database as one state |
| Flashcards.TransDictionary.constructor | ai-main.py:292-316 | the application starts on the menu with no parameter, running unless loading failed, and satisfies the invariant |
| Flashcards.TransDictionary.HandleMenu | ai-main.py:355-372 | the new state is `MenuStep` of the old state |
| Flashcards.TransDictionary.HandleAdd | ai-main.py:374-391 | the new state is `AddStep` of the old state |
| Flashcards.TransDictionary.UpdateFiltered | ai-main.py:429-437 | the new state is `Refiltered` of the old state with its prompt |
| Flashcards.TransDictionary.HandleExplore | ai-main.py:393-427 | on a search parameter, the new state is `ExploreStep` of the old state, and the invariant holds |
| Flashcards.TransDictionary.DeleteSelected | ai-main.py:413-418 | deletes the selected phrase, saves and refilters, as `ExploreStep` does |
| Flashcards.TransDictionary.SaveEdit | ai-main.py:442-456 | stores the edited entry, saves and returns to a fresh search, as `EditStep` does |
| Flashcards.TransDictionary.HandleEdit | ai-main.py:439-474 | the new state is `EditStep` (as written) of the old state; on ValueError nothing changes |
| Flashcards.TransDictionary.UpdateUi | ai-main.py:514-528 | `update_ui` raises KeyError exactly when the explore screen holds the edit parameter, and changes no state |
| Flashcards.TransDictionary.HandleKey | ai-main.py:542-557 | one turn of the loop: `update_ui`, then the handler of the current screen, as `Dispatch` |

## Left out

- Error messages of exceptions and of `show_message` are not modelled. A footer message is a `Footer` value, and a clear of the screen is an event.
- Hex.PyHexInt: handles white space, a sign and hex digits. It does not model the `0x` prefix or `_` digit separators. On the two-character slices `from_hex` reads, these cannot turn a failure into a value other than the ones modelled. White space and digits are ASCII only; the non-ASCII white space and Unicode digits that `int(s, 16)` also accepts are not modelled.
- Canvases.Overlay: numpy's wrap-around of a negative slice bound is not modelled. The corrected bounds check refuses such coordinates, see "## Findings".
- The bodies of `RenderLine.from_segments` and `Render.from_lines` in app/core/render_engine.py are not modelled, because neither builds a render on the input it is meant for:
  - `RenderLine.from_segments` names `Style` (lines 37-50), which is imported only for type checking, so it raises NameError. Its list branch also discards its concatenations.
  - `Render.from_lines` does not name `Style`. On an empty list `max` raises ValueError (line 67); this failure is modelled (`RenderEngine.MaxLineLen`).
  - On other input, `from_lines` appends the padded text array when `pad_len > 0`, but the `RenderLine` object itself when `pad_len == 0` (line 73).
  - It then stacks the unpadded style rows (line 75), so lines of different lengths raise ValueError in `np.vstack`.
- RenderEngine.StyledLen and RenderEngine.LineLen: `len` of a styled run and of a line is the length of its text. They are plain accessors with no contract of their own.
- Padding.RenderPadded: the child's `_render` is a function parameter. The `Render` name that padding.py imports only for type checking is taken to be app/core/render_engine.py's `Render`.
- Variable.Variables: `[]` reads and writes are `Get` and `Set`; they have no members of their own.
- The `Listener` triggers and the commented-out `Child` class of old_abstract_layout.py are not modelled. A child is its layout. `AbstractLayout.render` is unfinished in the source.
- Layout.AbstractLayout.constructor: `variables` and `depends_on` given as None are modelled as empty. The ghost chain of a new layout is not stated, because it is a root until adopted.
- Layout.AbstractLayout.constructor: old_abstract_layout.py imports `Variables` only for type checking (lines 6-9) and calls it at line 27, so as written the constructor raises NameError. The model takes `Variables` to be app/core/variable.py's class, which the annotations name.
- Layout.AbstractLayout.Lookup: `requires ChainOf(chain)` excludes parent cycles, such as `l.add_children([l])`. On a cycle the source's lookup of an undefined name recurses until Python's RecursionError.
- Layout.AbstractLayout.RawLookup: excludes parent cycles, as `Lookup` does.
- Layout.AbstractLayout.Width: excludes parent cycles, as `Lookup` does.
- Layout.AbstractLayout.Height: excludes parent cycles, as `Lookup` does.
- ElementTree.Element: `create_render_object`, `Widget.can_update` and `create_element` are abstract in the framework. The answer of `can_update` is a parameter. A new render object comes from `RenderObject`'s constructor and a new element from `Element`'s. The layout fields of a render object are not modelled.
- Flashcards: reading and writing files is not modelled. This covers `DB.load`, the backup and JSON writing of `DB.save`, `config.json`, `setup_config` and the prompts of `__init__`. A save is a counted event; a load is a given dictionary and a flag.
- Flashcards: `AppUI` rendering, `get_key` (readchar), the `Live` loop of `run`, `handle_training` and `get_random_phrase` are not modelled. These are terminal I/O, floating point and randomness. The training screen (Scroll) leaves the state unchanged in `Flashcards.Dispatch`.
- Flashcards.Record: `rate` is an opaque real, and its arithmetic is not modelled.
- Flashcards.Dispatch: the Quit screen has no handler in the source, and the state is left as it is.
- Flashcards.Dispatch: the training screen is a no-op, so the model loses two things `handle_training` does.
  - On an empty database, ENTER raises TypeError (ai-main.py:481-485): `get_random_phrase` returns None (ai-main.py:502-503), and the handler then assigns into it.
  - ESC returns to the menu (ai-main.py:477-479).
  - So `Dispatch` and `DispatchKeepsInv` do not list this TypeError among the errors.
- Flashcards.TransDictionary.HandleExplore: requires a search parameter. In a run the edit parameter that ESC leaves on the explore screen never reaches `handle_explore`, because `update_ui` raises first (`UpdateUi`, `Dispatch`). `ExploreStep` still models `handle_explore` on it.
- PyStr.LowerChar: lower-cases Latin and Cyrillic capitals only. The keys and phrases of the application are in these scripts; full Unicode case mapping is not modelled.

## Findings

| source | as written | input that shows it | evidently intended | confidence | as-written member | corrected member |
|---|---|---|---|---|---|---|
| framework/core/graphics/styles.py:73, 78 | `Foreground.RGB = _meta_rgb(False)` and `Background.RGB = _meta_rgb(True)`, while `fg=True` selects code 38 | `Styles.Foreground.RGB.from_rgb(1, 2, 3)` begins with SGR 48;2;1;2;3, a background colour | the foreground table writes 38/39 and the background table 48/49 | high, not executed | GraphicsStyles.RgbTablesSwapped | GraphicsStyles.RgbTablesCorrected |
| framework/core/graphics/styles.py:63 | the channels are sliced from `hex_color`, not from the normalised `color` | `from_hex('#ffffff')` raises ValueError; `from_hex('fff')` raises | '#rrggbb', 'rgb' and 'vv' decode as the normalisation prepares them | high, not executed | GraphicsStyles.FromHexAsWrittenRejectsHash | GraphicsStyles.FromHexRoundTrip |
| app/core/styles.py:69 | the channels are sliced from `hex_color`, not from the normalised `color` | `Foreground.RGB.from_hex('#ffffff')` raises ValueError; `from_hex('fff')` raises | '#rrggbb' and the short forms decode | high, not executed | AppStyles.FromHexAsWrittenRejectsForms | AppStyles.FromHexRoundTrip |
| app/core/styles.py:70, 110 | `from_hex` always returns `Foreground.RGB`, also through `Background.RGB` | `str(Background.RGB.from_hex('102030'))` is SGR 38;2;16;32;48 | an instance of the class called, writing 48 for the background | medium, not executed | AppStyles.BackgroundFromHexSetsForeground | AppStyles.FromHexRoundTrip |
| framework/core/graphics/canvas.py:55-59 | the assertion checks only the far edges of the resolved coordinates | on a 3-wide canvas, `overlay(one_wide, x=-5)` resolves x to −2 and passes; numpy then wraps the slice | a resolved coordinate before the near edge is refused | medium, not executed | Canvases.AnchorPastEdgePassesAssert | Canvases.AnchorPastEdgeRejected |
| app/core/widgets/padding.py:33-34 | `r.overlay(child_render, …)` returns a new render, which is dropped, and the blank `r` is returned | a padding of size 1 × 1 without insets around a child that draws 'x' renders ' ' | the padded render shows the child inside the insets | high, not executed | Padding.PaddingAsWrittenDropsChild | Padding.FixedShowsChild |
| ai-main.py:440-441 | ESC on the edit screen sets the explore screen but keeps the edit parameter | edit an entry and press ESC: on the next turn `update_ui` reads `state_parameter['prompt']` (ai-main.py:525-527), raises KeyError and ends the application | back to explore with a fresh search, as ENTER does | high, not executed | Flashcards.EditEscapeEndsRun | Flashcards.EditStepFixedKeepsInv |
| ai-main.py:469-474 | any other key inserts `str(key)` and moves the cursor by one, also for special keys whose text is '' | with the cursor at the end, HOME moves it past the end, and the next BACKSPACE erases nothing | the cursor moves by the length of what was inserted | medium, not executed | Flashcards.SpecialKeyAsWrittenPassesEnd | Flashcards.EditStepFixedKeepsInv |
