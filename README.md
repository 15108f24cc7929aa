# Terminal renderer core of `mono`, in Dafny

This project models three parts of the `mono` terminal toolkit and proves
properties of them.

- **Image renderer** (`monospace/core/rendering/images.py`). `ansify` samples
  an RGBA pixel buffer and renders it in one of four modes:
  - blocks: one full block per two rows, in the averaged colour;
  - pixels: a lower half block whose foreground and background are the two
    stacked pixels;
  - dithered: a shade glyph between the two palette colours closest to the
    averaged colour;
  - super: a quarter-block glyph splitting a 2x4 pixel window into a darker
    and a lighter group.

  Each line is a list of glyphs and colour tags, handed to a formatter.
  Colours are quantized to a palette (monochrome, the 16 ANSI colours,
  xterm-256, or none) by nearest distance.
- **ANSI encoder** (`monospace/core/formatting/ansi.py`). It builds CSI
  escape sequences, decodes `#rrggbb` colours and maps formatting tags to
  escape codes in `format_tags`.
- **Box-drawing table engine** (`poc/mono/drawing/tables.py`).
  - Per-cell edge codes become cells (`Cell.make`).
  - Cells are linked in place to their four neighbours (`make_cell_grid`).
  - `draw_table` lays out multi-line contents in columns and rows, framed by
    junction glyphs.
  - `linear_formats` derives cell codes from a list of horizontal and
    vertical line styles.

Modules:

| module | file | contents |
|---|---|---|
| `Results` | `results.dfy` | `Option` and `Result` |
| `Formatting` | `formatting.dfy` | tags, line items, and flattening of per-cell item lists |
| `Ansi` | `ansi.dfy` | csi, rgb, tag_color, get_code, format_tags |
| `ImageColors` | `image_colors.dfy` | palettes, distance, n_closest_color, rgb_to_hex, averages, brightness |
| `ImageRender` | `image_render.dfy` | color_tag, blockify, pixelify, ditherify, and the ansify dispatch |
| `ImageSuper` | `image_super.dfy` | superify |
| `TableCells` | `table_cells.dfy` | Node, styles, Cell.make, Cell objects, make_cell_grid |
| `TableFormats` | `table_formats.dfy` | linear_formats |
| `TableDraw` | `table_draw.dfy` | draw_table: a specification of the lines, and the loops as methods |
| `TableShape` | `table_shape.dfy` | the shape of a drawn table |

The image is a value: it is never changed. Each renderer is a method with
the source's loops. It is proved equal to a specification function that
builds every line by flattening per-cell item lists. Separate lemmas then
state what each cell of a line shows. Python exceptions become the `None`
or `Failure` case of `Option` and `Result`, and each is raised where the
source raises it.

The table grid is different because `make_cell_grid` mutates it in place.
`Cell` is a class, `neighbours` is a field that the linking loop assigns,
and the drawing methods read it through those links.

Three observations about the code:
- `ditherify`'s glyph string is `" ░▒▓▓"`. Index 4 is a second `▓`, so a
  dithered cell never shows a full block by that route.
- `superify` closes its two colour tags in the order they were opened,
  not nested. `ImageSuper.ShowsQuarter` states that order.
- Every tag the image renderers emit is a foreground or background colour
  directive. Under the ANSI formatter those kinds have no entry in `codes`,
  so an ANSI-formatted image line holds its glyphs and no escape code
  (`ImageRender.AnsiShowsGlyphsOnly`).

## Model

| member | source | states |
|---|---|---|
| `Ansi.NatToDecimal` | monospace/core/formatting/ansi.py:6 | `str(p)` of a natural number is a non-empty string of decimal digits |
| `Ansi.DecimalRoundTrip` | monospace/core/formatting/ansi.py:6 | the decimal digits of n read back as n |
| `Ansi.IntRoundTrip` | monospace/core/formatting/ansi.py:6 | `str(p)` of every integer, negative ones included, parses back to p |
| `Ansi.SplitJoin` | monospace/core/formatting/ansi.py:6 | joining a non-empty parameter list with `;` and splitting it again recovers the list |
| `Ansi.CsiRoundTrip` | monospace/core/formatting/ansi.py:5-6 | `csi(params, end)` is ESC `[`, a parameter string that parses back to exactly `params`, then `end` |
| `Ansi.SmallCodes` | monospace/core/formatting/ansi.py:16-17 | the fixed codes are `ESC[39m`, `ESC[49m`, `ESC[1m`, `ESC[22m`, `ESC[3m`, `ESC[23m` and `ESC[39;49m` |
| `Ansi.Rgb` | monospace/core/formatting/ansi.py:9-12 | an empty string has no first character, so it yields no colour |
| `Ansi.RgbStripsOneHash` | monospace/core/formatting/ansi.py:10-11 | only one leading `#` is dropped: `##…` fails |
| `ImageColors.HexRoundTrip` | monospace/core/formatting/ansi.py:9-12 | `rgb` decodes every `rgb_to_hex` output back to the same three channels |
| `Ansi.TagColor` | monospace/core/formatting/ansi.py:15-22 | the result exists exactly when every colour key present decodes; a decoded foreground opens it with `ESC[38;2;r;g;bm` and a decoded background closes it with `ESC[48;2;r;g;bm`; with no key it is the two reset codes; a missing key keeps the reset code at its end of the pair |
| `Ansi.GetCodeFixed` | monospace/core/formatting/ansi.py:25-36 | Bold and Italic map to their open or close code; a closed Color tag resets both colours; any other kind yields `""` |
| `Ansi.FormatTags` | monospace/core/formatting/ansi.py:41-49 | the loop's result is the encoding of the whole line; it fails if any tag's code fails |
| `Ansi.EncodeAppend` | monospace/core/formatting/ansi.py:41-49 | encoding a concatenation is the concatenation of the encodings |
| `Ansi.EncodeFailureSticks` | monospace/core/formatting/ansi.py:41-49 | a prefix that fails makes the whole line fail |
| `Ansi.EncodeTextsOnly` | monospace/core/formatting/ansi.py:32-36 | a line whose tags are all outside `codes` encodes as its texts alone |
| `ImageColors.Distance` | monospace/core/rendering/images.py:60 | the distance is zero exactly for equal colours |
| `ImageColors.NClosestKeys` | monospace/core/rendering/images.py:58-61 | min(n, palette size) palette keys in ascending distance (ties in palette order), each ahead of every key left out, as `nsmallest` picks them |
| `ImageColors.NClosestColor` | monospace/core/rendering/images.py:57-62 | min(n, palette size) palette colours in ascending distance; the first is the nearest of all, and no palette colour left out is nearer than any colour returned |
| `ImageColors.ColorsInOrder` | monospace/core/rendering/images.py:62 | looking the sorted keys up in the palette keeps the distance order, the nearest-first property, and that nothing left out is nearer |
| `ImageColors.PalettesNested` | monospace/core/rendering/images.py:14-19 | the monochrome colours are among the ANSI ones, and the ANSI colours among the xterm ones |
| `ImageColors.NClosestIdempotent` | monospace/core/rendering/images.py:57-62 | a colour that is in the palette is its own nearest colour |
| `ImageColors.RgbToHex` | monospace/core/rendering/images.py:86-87 | `#` and then three lower-case hex pairs whose values are r, g and b |
| `ImageColors.OpenedColorDecodes` | monospace/core/rendering/images.py:70-73 | an opened colour directive carries a `color` entry that decodes to its colour |
| `ImageColors.ColourItemsEncodeAsTexts` | monospace/core/formatting/ansi.py:32-36 | items with only foreground or background directives encode as their texts |
| `ImageColors.AverageColor` | monospace/core/rendering/images.py:76-79 | each channel is the floor of the mean of the two stacked pixels, so it lies between them |
| `ImageColors.AverageColor2` | monospace/core/rendering/images.py:90-92 | no colours give the empty (false) result; otherwise each of the four channels is the floor of the mean |
| `ImageColors.AverageOfCopies` | monospace/core/rendering/images.py:90-92 | the average of copies of one colour is that colour |
| `ImageColors.Brightness` | monospace/core/rendering/images.py:95-96 | the brightness of a colour lies in 0..255 |
| `ImageRender.Quantize` | monospace/core/rendering/images.py:67-68 | without a palette the colour is kept; otherwise the result is a palette colour no farther than any other |
| `ImageRender.QuantizeFixed` | monospace/core/rendering/images.py:67-68 | a palette colour is left as it is |
| `ImageRender.QuantizeIdempotent` | monospace/core/rendering/images.py:67-68 | quantizing twice is quantizing once |
| `ImageRender.FinerPaletteCloser` | monospace/core/rendering/images.py:67-68 | quantizing to xterm-256 lands no farther from the colour than quantizing to ANSI, and ANSI no farther than monochrome |
| `ImageRender.ColorTag` | monospace/core/rendering/images.py:65-73 | an open background or foreground tag whose `color` decodes to the quantized pixel |
| `ImageRender.BlockCell` | monospace/core/rendering/images.py:232-237 | three items: open the quantized average colour, a full block, close that tag |
| `ImageRender.BlockRow` | monospace/core/rendering/images.py:230-237 | the loop builds the concatenation of the row's block cells |
| `ImageRender.Blockify` | monospace/core/rendering/images.py:227-239 | one formatted line per pair of rows, the odd last row dropped |
| `ImageRender.BlockLineShape` | monospace/core/rendering/images.py:229-238 | line k has three items per column, and column x shows the quantized average of rows 2k and 2k+1 |
| `ImageRender.BlockLinesColours` | monospace/core/rendering/images.py:236-237 | block lines hold only foreground directives |
| `ImageRender.PixelCell` | monospace/core/rendering/images.py:191-193 | the background takes the upper pixel and the foreground the lower one, under `▄`; the tags close in reverse order |
| `ImageRender.PixelRow` | monospace/core/rendering/images.py:189-193 | the loop builds the concatenation of the row's pixel cells |
| `ImageRender.Pixelify` | monospace/core/rendering/images.py:186-195 | one formatted line per pair of rows |
| `ImageRender.PixelLineShape` | monospace/core/rendering/images.py:188-194 | line k has five items per column, and column x stacks pixel (x, 2k) over pixel (x, 2k+1), each quantized |
| `ImageRender.PixelLinesColours` | monospace/core/rendering/images.py:191-193 | pixel lines hold only colour directives |
| `ImageRender.SqrtExceedsSumMeans` | monospace/core/rendering/images.py:206-210 | the integer test used for `d02 > d01 + d12` agrees with the test on the real square roots |
| `ImageRender.GlyphIndex` | monospace/core/rendering/images.py:214-217 | the glyph index is inside `" ░▒▓▓"` |
| `ImageRender.GlyphIndexMeans` | monospace/core/rendering/images.py:214-217 | the integer glyph index equals `int(5 * factor)`, with `factor` capped at 0.99, on the real square roots |
| `ImageRender.DitherChoice` | monospace/core/rendering/images.py:203-217 | with c1, c2 the two colours `n_closest_color(2)` returns, the glyph is a full block in c1 exactly when the integer form of `d02 > d01 + d12` holds or c1 equals c2; otherwise the background is c1, the foreground c2, and the glyph is `" ░▒▓▓"` at the glyph index of the two distances; the background is the nearest palette colour, and an exact match with a palette whose two nearest colours differ shows a blank |
| `ImageRender.DitherItems` | monospace/core/rendering/images.py:219-222 | open the foreground and then the background colour, the glyph, then close both in reverse order |
| `ImageRender.DitherCell` | monospace/core/rendering/images.py:203-222 | the cell shows the dither choice for the averaged colour of the pixel pair |
| `ImageRender.DitherPixel` | monospace/core/rendering/images.py:203-222 | the method computes the dithered cell of the pixel pair |
| `ImageRender.DitherRow` | monospace/core/rendering/images.py:201-222 | the loop builds the concatenation of the row's dithered cells |
| `ImageRender.Ditherify` | monospace/core/rendering/images.py:198-224 | one formatted line per pair of rows |
| `ImageRender.DitherLineShape` | monospace/core/rendering/images.py:200-223 | line k has five items per column, and column x shows the dither choice of rows 2k and 2k+1 |
| `ImageRender.DitherLinesColours` | monospace/core/rendering/images.py:220-222 | dithered lines hold only colour directives |
| `ImageRender.SelectRenderer` | monospace/core/rendering/images.py:45-52 | Super gives superify and Pixels gives pixelify; Dithered gives ditherify exactly when a palette is set; everything else gives blockify |
| `ImageRender.Ansify` | monospace/core/rendering/images.py:45-54 | the result is the selected renderer's lines, each passed through the formatter |
| `ImageRender.RenderedColours` | monospace/core/rendering/images.py:45-54 | every renderer's lines hold only foreground and background directives |
| `ImageRender.AnsiShowsGlyphsOnly` | monospace/core/rendering/images.py:45-54 | the ANSI encoding of any rendered line is its glyphs, without escape codes |
| `ImageSuper.MappingKeys` | monospace/core/rendering/images.py:152-167 | the mapping's keys are exactly the four-letter a/b words holding both letters |
| `ImageSuper.MappingInks` | monospace/core/rendering/images.py:152-167 | each mapped glyph is one character that inks exactly the quadrants marked `a` |
| `ImageSuper.GroupMembers` | monospace/core/rendering/images.py:125-131 | a group is non-empty exactly when some corner gets its letter |
| `ImageSuper.GroupSelects` | monospace/core/rendering/images.py:122-131 | a group holds exactly the corners whose brightness gives its letter, in corner order |
| `ImageSuper.MeanOfFour` | monospace/core/rendering/images.py:118 | some level reaches the average, and none is below it exactly when all are equal |
| `ImageSuper.LighterGroupNonEmpty` | monospace/core/rendering/images.py:120-137 | group b is never empty |
| `ImageSuper.DarkerGroupEmpty` | monospace/core/rendering/images.py:120-139 | group a is empty exactly when the four corners are equally bright |
| `ImageSuper.PatternTotal` | monospace/core/rendering/images.py:145-168 | with both groups present the pattern is a key of the mapping |
| `ImageSuper.AllLighter` | monospace/core/rendering/images.py:139-141 | with group a empty, group b holds all four corners |
| `ImageSuper.Choice` | monospace/core/rendering/images.py:117-168 | a blank exactly for an even brightness, over black and the mean colour; otherwise the glyph inks exactly the darker corners, both groups are non-empty, colour a is the mean of the darker group and colour b the mean of the lighter one; never a full block |
| `ImageSuper.Cell` | monospace/core/rendering/images.py:170-179 | open the group-a foreground and the group-b background, the glyph, then close the two in the order they were opened |
| `ImageSuper.SuperCell` | monospace/core/rendering/images.py:106-179 | the cell shows the choice for the 2x4 window's four corners |
| `ImageSuper.SplitGroups` | monospace/core/rendering/images.py:122-132 | the loop splits the corners into the darker and the lighter group and records each corner's letter |
| `ImageSuper.SuperBlock` | monospace/core/rendering/images.py:106-179 | the method computes the super cell of the window |
| `ImageSuper.SuperLine` | monospace/core/rendering/images.py:103-179 | the loop builds the concatenation of the cells of one band of four rows |
| `ImageSuper.Superify` | monospace/core/rendering/images.py:99-183 | one formatted line per band of four rows, the palette ignored |
| `ImageSuper.SuperLineShape` | monospace/core/rendering/images.py:102-181 | line k has five items per pair of columns, and pair j shows the choice for window (2j, 4k) |
| `ImageSuper.SuperLinesColours` | monospace/core/rendering/images.py:170-179 | super lines hold only colour directives |
| `TableCells.LongLetter` | poc/mono/drawing/tables.py:55-61 | every style has a letter that `long_format` maps back to it |
| `TableCells.Make` | poc/mono/drawing/tables.py:30-40 | one-letter codes succeed exactly for L, H and D, with all sides alike; four-letter codes succeed exactly for letters in l, h, d and e, with sides in code order; others make no cell |
| `TableCells.MakeLongCode` | poc/mono/drawing/tables.py:38-40 | every styles node is made back from its four-letter code |
| `TableCells.Cell.constructor` | poc/mono/drawing/tables.py:20-23 | a new cell has the given styles, and each neighbour is an empty cell |
| `TableCells.GridStyles` | poc/mono/drawing/tables.py:65-70 | no rows raise IndexError, ragged rows fail the assertion, an unknown code raises KeyError, and a code with no cell raises AttributeError in a grid larger than one cell; otherwise, and only then, it succeeds with the grid of made cells |
| `TableCells.NewCells` | poc/mono/drawing/tables.py:70 | fresh, unlinked cells with the given styles, one per code |
| `TableCells.LinkCell` | poc/mono/drawing/tables.py:74-81 | a cell is linked to the cells above, below, left and right that exist |
| `TableCells.LinkCells` | poc/mono/drawing/tables.py:72-81 | after the loops every cell is linked to its adjacent cells |
| `TableCells.BuildGrid` | poc/mono/drawing/tables.py:70-83 | a grid of fresh, distinct cells carrying the styles, each linked to its neighbours |
| `TableCells.MakeCellGrid` | poc/mono/drawing/tables.py:65-83 | it fails exactly as the code check fails; otherwise the cells carry the codes' styles and are linked |
| `TableCells.LinksSymmetric` | poc/mono/drawing/tables.py:72-81 | B is A's right neighbour exactly when A is B's left one; likewise for bottom and top |
| `TableCells.NeighbourStylesAt` | poc/mono/drawing/tables.py:105-109 | the styles read through the links are those of the adjacent grid positions |
| `TableFormats.LinearGrid` | poc/mono/drawing/tables.py:149-156 | one row per gap between horizontal lines and one code per gap between vertical lines |
| `TableFormats.LinearFormats` | poc/mono/drawing/tables.py:149-156 | the loops build exactly that grid of codes |
| `TableFormats.SharedLines` | poc/mono/drawing/tables.py:154 | neighbouring codes share the line between them |
| `TableFormats.LinearGridStyles` | poc/mono/drawing/tables.py:149-156 | with one long letter per line, `make_cell_grid` accepts the codes, and each cell takes its edges from the lines around it |
| `TableFormats.NoRows` | poc/mono/drawing/tables.py:151 | with fewer than two horizontal lines there are no rows, and `make_cell_grid` fails |
| `TableDraw.SplitLines` | poc/mono/drawing/tables.py:94 | no lines exactly for the empty string, and no line holds a line break |
| `TableDraw.SplitLinesRejoin` | poc/mono/drawing/tables.py:94 | `splitlines` loses only the breaks: putting each line's break back gives the string, and every line but the last ended at a line break |
| `TableDraw.Max` | poc/mono/drawing/tables.py:95-97 | the maximum is an element and bounds every element |
| `TableDraw.Lengths` | poc/mono/drawing/tables.py:95 | each cell's length bounds its lines |
| `TableDraw.LengthsReached` | poc/mono/drawing/tables.py:95 | each cell's length is the length of one of its lines, so it is their maximum |
| `TableDraw.Widths` | poc/mono/drawing/tables.py:96 | a column's width bounds every cell in it and is reached by one of them |
| `TableDraw.Heights` | poc/mono/drawing/tables.py:97 | a row's height bounds the line count of each of its cells and is one of them |
| `TableDraw.LJust` | poc/mono/drawing/tables.py:114 | the string, padded with spaces to the width, never cut |
| `TableDraw.LayoutValid` | poc/mono/drawing/tables.py:89-97 | the widths and heights computed cover the whole grid |
| `TableDraw.DrawTableSpec` | poc/mono/drawing/tables.py:86-90 | ragged codes fail the assertion before anything is drawn |
| `TableDraw.DrawCell` | poc/mono/drawing/tables.py:105-138 | a cell's top piece on its first line, its content piece, and its bottom piece on the table's last line |
| `TableDraw.DrawLine` | poc/mono/drawing/tables.py:101-138 | the three strings are the top border, the content line and the bottom border of one content line |
| `TableDraw.DrawRow` | poc/mono/drawing/tables.py:100-144 | a row's lines, with empty borders not appended |
| `TableDraw.DrawRows` | poc/mono/drawing/tables.py:99-146 | the lines of every row in order |
| `TableDraw.GridDrawable` | poc/mono/drawing/tables.py:87-109 | a linked, made grid can be drawn |
| `TableDraw.DrawTable` | poc/mono/drawing/tables.py:86-146 | the result, or the first error raised, is the one the specification gives |
| `TableDraw.DrawGrid` | poc/mono/drawing/tables.py:89-146 | from a made grid, the loops give the specified lines, or the ValueError, IndexError or AttributeError Python raises for missing or empty contents and unmade cells |
| `TableDraw.DrawChecked` | poc/mono/drawing/tables.py:99-146 | with all checks passed the loops give the table lines |
| `TableShape.ContentTextLength` | poc/mono/drawing/tables.py:113-116 | a content string is exactly the column width |
| `TableShape.PieceLengths` | poc/mono/drawing/tables.py:121-138 | each piece is the width plus three, plus one in the last column |
| `TableShape.LineLengths` | poc/mono/drawing/tables.py:121-138 | top, content and bottom lines of a row all have the table's width |
| `TableShape.TableWidth` | poc/mono/drawing/tables.py:99-146 | every line of the table has the same width |
| `TableShape.RowWidth` | poc/mono/drawing/tables.py:140-144 | every line a row appends has the table's width |
| `TableShape.BorderNonEmpty` | poc/mono/drawing/tables.py:140-144 | a border is appended exactly when the grid has columns |
| `TableShape.RowLineCount` | poc/mono/drawing/tables.py:100-144 | a row gives one line per content line, a top border, and a bottom border in the last row |
| `TableShape.RowsLineCount` | poc/mono/drawing/tables.py:99-144 | the first k rows give their content lines and one border each, plus the bottom border at the end |
| `TableShape.TableLineCount` | poc/mono/drawing/tables.py:99-146 | the table has the sum of the heights plus rows + 1 border lines when it has columns |
| `TableShape.CellText` | poc/mono/drawing/tables.py:113-127 | a content line shows the cell's left edge, a space, its text line padded to the column width, a space |
| `TableShape.PieceText` | poc/mono/drawing/tables.py:113-127 | the same for one cell's content piece |
| `TableShape.TopJunction` | poc/mono/drawing/tables.py:121-122 | each cell's top-left corner is the junction of the left neighbour's top edge, the upper neighbour's left edge, and its own top and left edges |
| `TableShape.BottomJunction` | poc/mono/drawing/tables.py:134-135 | on the table's last line each cell's bottom-left corner is the junction of the left neighbour's bottom edge and its own left and bottom edges, open below |
| `TableShape.ClosingEdge` | poc/mono/drawing/tables.py:129-138 | each line ends with the last column's right edge or its corner junction |
| `TableShape.SingleCellGrid` | poc/mono/drawing/tables.py:65-83 | a one-cell `L` grid is made with light edges |

## Left out

- Reading the image file (`Image.open`), resizing it to a width, and the
  RGBA conversion are I/O. The model takes the converted pixel buffer as a
  value.
- `generate_xterm_256` and cursebox's `distance` are foreign code:
  - the xterm palette is a parameter of 256 colours;
  - the distance is modelled as the squared Euclidean distance of the RGB
    channels (this is an assumption).
- Floating point:
  - brightness and averages are exact reals; `int()` of a non-negative
    mean is integer floor division;
  - the square roots in `ditherify` are compared in integers, and
    `ImageRender.SqrtExceedsSumMeans` and `ImageRender.GlyphIndexMeans`
    prove those comparisons equal to the ones on the real roots.
- ImageSuper.Choice: under exact arithmetic the lighter group is never
  empty (`ImageSuper.LighterGroupNonEmpty`), so `superify`'s full-block
  branch cannot be taken. The rounding by which float brightness could
  reach it is not modelled.
- Ansi.Rgb: Python's `int(s, 16)` also accepts non-ASCII decimal digits
  (Unicode category Nd, such as Arabic-Indic digits). The model's digits
  are the ASCII hexadecimal ones, so it rejects a field made of such
  digits where Python decodes it. Whitespace and a sign around the digits
  are modelled.
- Ansi.Rgb: its contract only states the empty-string failure. What it
  decodes is stated by `ImageColors.HexRoundTrip` for every colour the
  renderers emit, and by `Ansi.RgbStripsOneHash` for a doubled `#`.
- `formatter.py`, which defines `FormatTag` and `Format`, is not part of
  this model. A tag is a kind, a string map and an open flag. Its close tag
  keeps the kind and drops the data.
- The `symbols` module is not part of this model:
  - `Styles` is an enumeration of four styles;
  - the junction table `lines` is a function parameter from four styles to
    a glyph.
- `Cell.__repr__`, `Cell.reverse_long_format` and the `__main__`
  demonstration are debugging output.
- Only the ANSI formatter's `format_tags` is modelled; other formatters are
  parameters (`format_func`).
- The renderers take the formatter as a function value. How the formatter
  is carried through the call (a static method) is not modelled.
