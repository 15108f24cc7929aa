/** The pixel renderers `blockify`, `pixelify` and `ditherify` of
    `monospace/core/rendering/images.py`, the palette quantisation they
    share, and the choice of renderer made by `ansify`. */
module ImageRender {
  import opened Formatting
  import opened ImageColors
  import ImageSuper
  import Ansi

  datatype Mode = Blocks | Dithered | Pixels | Super

  // ---------------------------------------------------------------------
  // Palette quantisation

  /** The colour a palette shows for c: c itself under RGB, otherwise the
      first of `n_closest_color(1, c, palette)`. */
  function Quantize(c: Color, p: Palette, xterm: seq<Color>): (q: Color)
    requires |xterm| == 256
    ensures p == RGB ==> q == c
    ensures p != RGB ==> q in PaletteColors(p, xterm)
    ensures p != RGB ==> forall e :: e in PaletteColors(p, xterm) ==> Distance(c, q) <= Distance(c, e)
  {
    if p == RGB then c else NClosestColor(1, c, PaletteColors(p, xterm))[0]
  }

  /** A colour the palette holds is shown as itself. */
  lemma QuantizeFixed(c: Color, p: Palette, xterm: seq<Color>)
    requires |xterm| == 256 && (p == RGB || c in PaletteColors(p, xterm))
    ensures Quantize(c, p, xterm) == c
  {
    if p != RGB {
      NClosestIdempotent(1, c, PaletteColors(p, xterm));
    }
  }

  /** Quantising twice is quantising once. */
  lemma QuantizeIdempotent(c: Color, p: Palette, xterm: seq<Color>)
    requires |xterm| == 256
    ensures Quantize(Quantize(c, p, xterm), p, xterm) == Quantize(c, p, xterm)
  {
    QuantizeFixed(Quantize(c, p, xterm), p, xterm);
  }

  /** A finer palette never quantizes further away: xterm is at least as
      close as ANSI, which is at least as close as monochrome. */
  lemma FinerPaletteCloser(c: Color, xterm: seq<Color>)
    requires |xterm| == 256
    ensures Distance(c, Quantize(c, Xterm, xterm)) <= Distance(c, Quantize(c, ANSI, xterm))
    ensures Distance(c, Quantize(c, ANSI, xterm)) <= Distance(c, Quantize(c, Monochrome, xterm))
  {
    PalettesNested(xterm);
  }

  /** `color_tag(pixels, x, y, palette, background)`: a colour directive for
      the quantised pixel at (x, y) whose hex payload decodes back to that
      colour. */
  function ColorTag(img: Image, x: nat, y: nat, p: Palette, xterm: seq<Color>, background: bool): (t: Tag)
    requires img.Valid() && x < img.width && y < img.height && |xterm| == 256
    ensures t.open && t.kind == (if background then BackgroundColor else ForegroundColor)
    ensures var q := Quantize(RgbOf(img.At(x, y)), p, xterm);
            "color" in t.data && Ansi.Rgb(t.data["color"]) == Results.Some((q.r, q.g, q.b))
            && OpensColor(Directive(t), if background then BackgroundColor else ForegroundColor, q)
  {
    var q := Quantize(RgbOf(img.At(x, y)), p, xterm);
    HexRoundTrip(q);
    ColorDirective(if background then BackgroundColor else ForegroundColor, RgbToHex(q))
  }

  // ---------------------------------------------------------------------
  // blockify

  /** One column of a `blockify` line: a full block in the quantised mean
      colour of the pixel pair (x, y), (x, y + 1). */
  function BlockCell(img: Image, x: nat, y: nat, p: Palette, xterm: seq<Color>): (cell: seq<Item>)
    requires img.Valid() && x < img.width && y + 1 < img.height && |xterm| == 256
    ensures |cell| == 3 && ShowsBlock(cell, Quantize(AverageColor(img, x, y), p, xterm))
  {
    var c := Quantize(AverageColor(img, x, y), p, xterm);
    var t := ColorDirective(ForegroundColor, RgbToHex(c));
    [Directive(t), Text("█"), Directive(CloseTag(t))]
  }

  function BlockCells(img: Image, y: nat, p: Palette, xterm: seq<Color>): (cs: seq<seq<Item>>)
    requires img.Valid() && y + 1 < img.height && |xterm| == 256
    ensures |cs| == img.width
  {
    seq(img.width, x requires 0 <= x < img.width => BlockCell(img, x, y, p, xterm))
  }

  /** The item lines `blockify` hands to `format_func`: one per pixel row
      pair, a trailing odd row dropped. */
  function BlockLines(img: Image, p: Palette, xterm: seq<Color>): (ls: seq<seq<Item>>)
    requires img.Valid() && |xterm| == 256
    ensures |ls| == img.height / 2
  {
    seq(img.height / 2, k requires 0 <= k < img.height / 2 => Flatten(BlockCells(img, 2 * k, p, xterm)))
  }

  /** The inner loop of `blockify`. */
  method BlockRow(img: Image, y: nat, p: Palette, xterm: seq<Color>) returns (line: seq<Item>)
    requires img.Valid() && y + 1 < img.height && |xterm| == 256
    ensures line == Flatten(BlockCells(img, y, p, xterm))
  {
    ghost var cells := BlockCells(img, y, p, xterm);
    line := [];
    for x := 0 to img.width
      invariant line == Flatten(cells[..x])
    {
      var c := AverageColor(img, x, y);
      if p != RGB {
        c := NClosestColor(1, c, PaletteColors(p, xterm))[0];
      }
      var h := RgbToHex(c);
      var t := ColorDirective(ForegroundColor, h);
      FlattenPrefix(cells, x);
      line := line + [Directive(t), Text("█"), Directive(CloseTag(t))];
    }
    assert cells[..img.width] == cells;
  }

  /** `blockify`. */
  method Blockify(img: Image, p: Palette, xterm: seq<Color>, format: seq<Item> -> string) returns (lines: seq<string>)
    requires img.Valid() && |xterm| == 256
    ensures lines == FormatLines(format, BlockLines(img, p, xterm))
  {
    ghost var all := BlockLines(img, p, xterm);
    lines := [];
    var y := 0;
    ghost var k := 0;
    assert img.height - img.height % 2 == 2 * |all|;
    while y < img.height - img.height % 2
      invariant y == 2 * k && k <= |all|
      invariant lines == FormatLines(format, all[..k])
    {
      var line := BlockRow(img, y, p, xterm);
      FormatLinesPrefix(format, all, k);
      lines := lines + [format(line)];
      y, k := y + 2, k + 1;
    }
    assert all[..k] == all;
  }

  /** Three items showing a full block in colour c: a foreground directive
      in c, the block, and the directive's close. */
  predicate ShowsBlock(piece: seq<Item>, c: Color)
    requires |piece| == 3
  {
    OpensColor(piece[0], ForegroundColor, c) && piece[1] == Text("█")
    && piece[2] == Directive(CloseTag(piece[0].tag))
  }

  /** Column x of a `blockify` line, three items wide. */
  predicate BlockColumn(line: seq<Item>, x: nat, c: Color)
    requires 3 * x + 3 <= |line|
  {
    ShowsBlock(line[3 * x .. 3 * x + 3], c)
  }
  /** A cell of uniform width that is laid out right is laid out right in
      the line. */
  lemma BlockPiece(cells: seq<seq<Item>>, x: nat, c: Color)
    requires forall j :: 0 <= j < |cells| ==> |cells[j]| == 3
    requires x < |cells| && ShowsBlock(cells[x], c)
    ensures 3 * x + 3 <= |Flatten(cells)| && BlockColumn(Flatten(cells), x, c)
  {
    FlattenUniform(cells, 3);
  }


  /** Every `blockify` line has three items per pixel column, and column x
      shows the quantised mean colour of its pixel pair. */
  lemma BlockLineShape(img: Image, p: Palette, xterm: seq<Color>, k: nat)
    requires img.Valid() && |xterm| == 256 && k < img.height / 2
    ensures |BlockLines(img, p, xterm)[k]| == 3 * img.width
    ensures forall x :: 0 <= x < img.width ==>
              BlockColumn(BlockLines(img, p, xterm)[k], x, Quantize(AverageColor(img, x, 2 * k), p, xterm))
  {
    var cells := BlockCells(img, 2 * k, p, xterm);
    FlattenUniform(cells, 3);
    forall x | 0 <= x < img.width
      ensures BlockColumn(BlockLines(img, p, xterm)[k], x, Quantize(AverageColor(img, x, 2 * k), p, xterm))
    {
      assert cells[x] == BlockCell(img, x, 2 * k, p, xterm);
      BlockPiece(cells, x, Quantize(AverageColor(img, x, 2 * k), p, xterm));
    }
  }

  // ---------------------------------------------------------------------
  // pixelify

  /** One column of a `pixelify` line: a lower half block, the upper pixel
      as background and the lower pixel as foreground. */
  function PixelCell(img: Image, x: nat, y: nat, p: Palette, xterm: seq<Color>): (cell: seq<Item>)
    requires img.Valid() && x < img.width && y + 1 < img.height && |xterm| == 256
    ensures |cell| == 5
    ensures ShowsPixels(cell, Quantize(RgbOf(img.At(x, y)), p, xterm), Quantize(RgbOf(img.At(x, y + 1)), p, xterm))
  {
    var t1 := ColorTag(img, x, y, p, xterm, true);
    var t2 := ColorTag(img, x, y + 1, p, xterm, false);
    StackedItems(t1, t2, Quantize(RgbOf(img.At(x, y)), p, xterm), Quantize(RgbOf(img.At(x, y + 1)), p, xterm));
    [Directive(t1), Directive(t2), Text("▄"), Directive(CloseTag(t2)), Directive(CloseTag(t1))]
  }

  lemma StackedItems(t1: Tag, t2: Tag, upper: Color, lower: Color)
    requires OpensColor(Directive(t1), BackgroundColor, upper) && OpensColor(Directive(t2), ForegroundColor, lower)
    ensures ShowsPixels([Directive(t1), Directive(t2), Text("▄"), Directive(CloseTag(t2)), Directive(CloseTag(t1))],
                        upper, lower)
  {
  }

  function PixelCells(img: Image, y: nat, p: Palette, xterm: seq<Color>): (cs: seq<seq<Item>>)
    requires img.Valid() && y + 1 < img.height && |xterm| == 256
    ensures |cs| == img.width
  {
    seq(img.width, x requires 0 <= x < img.width => PixelCell(img, x, y, p, xterm))
  }

  function PixelLines(img: Image, p: Palette, xterm: seq<Color>): (ls: seq<seq<Item>>)
    requires img.Valid() && |xterm| == 256
    ensures |ls| == img.height / 2
  {
    seq(img.height / 2, k requires 0 <= k < img.height / 2 => Flatten(PixelCells(img, 2 * k, p, xterm)))
  }

  /** The inner loop of `pixelify`. */
  method PixelRow(img: Image, y: nat, p: Palette, xterm: seq<Color>) returns (line: seq<Item>)
    requires img.Valid() && y + 1 < img.height && |xterm| == 256
    ensures line == Flatten(PixelCells(img, y, p, xterm))
  {
    ghost var cells := PixelCells(img, y, p, xterm);
    line := [];
    for x := 0 to img.width
      invariant line == Flatten(cells[..x])
    {
      var t1 := ColorTag(img, x, y, p, xterm, true);
      var t2 := ColorTag(img, x, y + 1, p, xterm, false);
      FlattenPrefix(cells, x);
      line := line + [Directive(t1), Directive(t2), Text("▄"), Directive(CloseTag(t2)), Directive(CloseTag(t1))];
    }
    assert cells[..img.width] == cells;
  }

  /** `pixelify`. */
  method Pixelify(img: Image, p: Palette, xterm: seq<Color>, format: seq<Item> -> string) returns (lines: seq<string>)
    requires img.Valid() && |xterm| == 256
    ensures lines == FormatLines(format, PixelLines(img, p, xterm))
  {
    ghost var all := PixelLines(img, p, xterm);
    lines := [];
    var y := 0;
    ghost var k := 0;
    assert img.height - img.height % 2 == 2 * |all|;
    while y < img.height - img.height % 2
      invariant y == 2 * k && k <= |all|
      invariant lines == FormatLines(format, all[..k])
    {
      var line := PixelRow(img, y, p, xterm);
      FormatLinesPrefix(format, all, k);
      lines := lines + [format(line)];
      y, k := y + 2, k + 1;
    }
    assert all[..k] == all;
  }

  /** Five items showing two stacked pixels: the background directive for
      the upper pixel, the foreground directive for the lower one, a lower
      half block, then the closes in reverse order. */
  predicate ShowsPixels(piece: seq<Item>, upper: Color, lower: Color)
    requires |piece| == 5
  {
    OpensColor(piece[0], BackgroundColor, upper) && OpensColor(piece[1], ForegroundColor, lower)
    && piece[2] == Text("▄")
    && piece[3] == Directive(CloseTag(piece[1].tag))
    && piece[4] == Directive(CloseTag(piece[0].tag))
  }

  /** Column x of a `pixelify` line, five items wide. */
  predicate PixelColumn(line: seq<Item>, x: nat, upper: Color, lower: Color)
    requires 5 * x + 5 <= |line|
  {
    ShowsPixels(line[5 * x .. 5 * x + 5], upper, lower)
  }
  /** A cell of uniform width that is laid out right is laid out right in
      the line. */
  lemma PixelPiece(cells: seq<seq<Item>>, x: nat, upper: Color, lower: Color)
    requires forall j :: 0 <= j < |cells| ==> |cells[j]| == 5
    requires x < |cells| && ShowsPixels(cells[x], upper, lower)
    ensures 5 * x + 5 <= |Flatten(cells)| && PixelColumn(Flatten(cells), x, upper, lower)
  {
    FlattenUniform(cells, 5);
  }


  /** Every `pixelify` line has five items per pixel column, and column x
      shows the quantised upper pixel above the quantised lower pixel. */
  lemma PixelLineShape(img: Image, p: Palette, xterm: seq<Color>, k: nat)
    requires img.Valid() && |xterm| == 256 && k < img.height / 2
    ensures |PixelLines(img, p, xterm)[k]| == 5 * img.width
    ensures forall x :: 0 <= x < img.width ==>
              PixelColumn(PixelLines(img, p, xterm)[k], x,
                          Quantize(RgbOf(img.At(x, 2 * k)), p, xterm), Quantize(RgbOf(img.At(x, 2 * k + 1)), p, xterm))
  {
    var cells := PixelCells(img, 2 * k, p, xterm);
    FlattenUniform(cells, 5);
    forall x | 0 <= x < img.width
      ensures PixelColumn(PixelLines(img, p, xterm)[k], x, Quantize(RgbOf(img.At(x, 2 * k)), p, xterm),
                          Quantize(RgbOf(img.At(x, 2 * k + 1)), p, xterm))
    {
      assert cells[x] == PixelCell(img, x, 2 * k, p, xterm);
      PixelPiece(cells, x, Quantize(RgbOf(img.At(x, 2 * k)), p, xterm), Quantize(RgbOf(img.At(x, 2 * k + 1)), p, xterm));
    }
  }

  // ---------------------------------------------------------------------
  // ditherify

  /** The shading glyphs indexed by `int(factor * 5)`; the last two are the
      same dark shade. */
  const DITHER_GLYPHS: string := " ░▒▓▓"

  /** `sqrt(a) > sqrt(b) + sqrt(c)` for squared distances, decided on the
      integers (see SqrtExceedsSumMeans). */
  predicate SqrtExceedsSum(a: nat, b: nat, c: nat)
  {
    a > b + c && (a - b - c) * (a - b - c) > 4 * b * c
  }

  /** `int(factor * 5)` with `factor = sqrt(d01) / sqrt(d12)` clamped to
      0.99, decided on the integers (see GlyphIndexMeans). */
  function GlyphIndex(d01: nat, d12: nat): (i: nat)
    requires d12 > 0
    ensures i < |DITHER_GLYPHS|
  {
    if 16 * d12 <= 25 * d01 then 4
    else if 9 * d12 <= 25 * d01 then 3
    else if 4 * d12 <= 25 * d01 then 2
    else if d12 <= 25 * d01 then 1
    else 0
  }

  /** For non-negative reals, comparing squares compares the values. */
  lemma SquareMonotone(a: real, b: real)
    requires a >= 0.0 && b >= 0.0
    ensures a <= b <==> a * a <= b * b
    ensures a < b <==> a * a < b * b
  {
    if a < b {
      assert b * b - a * a == (b - a) * (b + a);
      MulPositive(b - a, b + a);
    } else if b < a {
      assert a * a - b * b == (a - b) * (a + b);
      MulPositive(a - b, a + b);
    }
  }

  lemma MulPositive(x: real, y: real)
    requires x > 0.0 && y > 0.0
    ensures x * y > 0.0
  {
  }

  /** `sqrt(a) > sqrt(b) + sqrt(c)`, with the square roots given as reals,
      is what SqrtExceedsSum decides on the squared distances. */
  lemma SqrtExceedsSumMeans(a: nat, b: nat, c: nat, ra: real, rb: real, rc: real)
    requires ra >= 0.0 && rb >= 0.0 && rc >= 0.0
    requires ra * ra == a as real && rb * rb == b as real && rc * rc == c as real
    ensures SqrtExceedsSum(a, b, c) <==> ra > rb + rc
  {
    SquareMonotone(rb + rc, ra);
    assert (rb + rc) * (rb + rc) == b as real + c as real + 2.0 * (rb * rc);
    var e := a as real - b as real - c as real;
    var m := 2.0 * (rb * rc);
    assert m >= 0.0;
    assert m * m == 4.0 * (rb * rb) * (rc * rc);
    assert m * m == (4 * b * c) as real;
    assert ra > rb + rc <==> e > m;
    if e > 0.0 {
      SquareMonotone(m, e);
      assert e * e == ((a - b - c) * (a - b - c)) as real;
    }
  }

  /** The threshold k/5 on `sqrt(d01) / sqrt(d12)`, decided on the squared
      distances. */
  lemma GlyphThreshold(d01: nat, d12: nat, r01: real, r12: real, k: nat)
    requires d12 > 0 && r01 >= 0.0 && r12 > 0.0
    requires r01 * r01 == d01 as real && r12 * r12 == d12 as real
    ensures 5.0 * (r01 / r12) >= k as real <==> k * k * d12 <= 25 * d01
  {
    var f := r01 / r12;
    assert r01 == f * r12;
    assert 5.0 * f >= k as real <==> 5.0 * r01 >= k as real * r12;
    SquareMonotone(k as real * r12, 5.0 * r01);
    assert (5.0 * r01) * (5.0 * r01) == 25.0 * (r01 * r01);
    assert (k as real * r12) * (k as real * r12) == (k * k) as real * (r12 * r12);
  }

  /** `int(factor * 5)` with `factor = sqrt(d01) / sqrt(d12)`, set to 0.99
      when it reaches 1, is GlyphIndex of the squared distances: the index
      is the integer part of five times the factor. */
  lemma GlyphIndexMeans(d01: nat, d12: nat, r01: real, r12: real)
    requires d12 > 0 && r01 >= 0.0 && r12 > 0.0
    requires r01 * r01 == d01 as real && r12 * r12 == d12 as real
    ensures var factor := if r01 / r12 >= 1.0 then 0.99 else r01 / r12;
            var i := GlyphIndex(d01, d12) as real;
            i <= 5.0 * factor < i + 1.0
  {
    GlyphThreshold(d01, d12, r01, r12, 1);
    GlyphThreshold(d01, d12, r01, r12, 2);
    GlyphThreshold(d01, d12, r01, r12, 3);
    GlyphThreshold(d01, d12, r01, r12, 4);
  }

  /** What one dithered cell shows. */
  datatype Dither = Dither(fg: Color, bg: Color, glyph: string)

  /** The choice `ditherify` makes for the mean colour c0: the nearest
      palette colour as background, the second nearest as foreground, and a
      shade that grows with the distance from c0 to the nearest; a solid block in the
      nearest colour when the two candidates coincide or the second is
      further than the sum of the two other distances. */
  function DitherChoice(c0: Color, pal: seq<Color>): (d: Dither)
    requires |pal| >= 2
    ensures d.bg in pal && forall e :: e in pal ==> Distance(c0, d.bg) <= Distance(c0, e)
    ensures d.fg in pal && Distance(c0, d.bg) <= Distance(c0, d.fg)
    ensures d.glyph == "█" || (|d.glyph| == 1 && d.glyph[0] in DITHER_GLYPHS)
    ensures d.glyph == "█" <==> d.fg == d.bg
    ensures d.glyph != "█" ==>
              d.bg == NClosestColor(2, c0, pal)[0] && d.fg == NClosestColor(2, c0, pal)[1]
              && d.glyph == [DITHER_GLYPHS[GlyphIndex(Distance(c0, d.bg), Distance(d.bg, d.fg))]]
    ensures Distance(c0, d.bg) == 0 && d.fg != d.bg ==> d.glyph == " "
    ensures var cs := NClosestColor(2, c0, pal);
              d.glyph == "█" <==> SqrtExceedsSum(Distance(c0, cs[1]), Distance(c0, cs[0]), Distance(cs[0], cs[1]))
                                   || cs[0] == cs[1]
    ensures d.glyph == "█" ==> d.bg == d.fg == NClosestColor(2, c0, pal)[0]
    ensures var cs := NClosestColor(2, c0, pal);
              Distance(c0, cs[0]) == 0 && cs[0] != cs[1] ==> d.glyph == " "
  {
    var cs := NClosestColor(2, c0, pal);
    var c1, c2 := cs[0], cs[1];
    var d01, d12, d02 := Distance(c0, c1), Distance(c1, c2), Distance(c0, c2);
    if SqrtExceedsSum(d02, d01, d12) || d12 == 0 then Dither(c1, c1, "█")
    else
      DitherBlank(c0, c1, c2);
      ShadeGlyph(GlyphIndex(d01, d12));
      Dither(c2, c1, [DITHER_GLYPHS[GlyphIndex(d01, d12)]])
  }

  /** A shade glyph is never the full block, and the lightest is a blank. */
  lemma ShadeGlyph(i: nat)
    requires i < |DITHER_GLYPHS|
    ensures [DITHER_GLYPHS[i]] != "█" && DITHER_GLYPHS[i] in DITHER_GLYPHS
    ensures i == 0 ==> [DITHER_GLYPHS[i]] == " "
  {
    assert DITHER_GLYPHS[i] != '█';
  }

  /** When c0 is the nearest colour itself and the second nearest differs,
      the second is exactly as far from c0 as from the first, so no block is
      drawn and the shade index is zero. */
  lemma DitherBlank(c0: Color, c1: Color, c2: Color)
    ensures Distance(c0, c1) == 0 && c1 != c2 ==>
              !SqrtExceedsSum(Distance(c0, c2), Distance(c0, c1), Distance(c1, c2))
              && GlyphIndex(Distance(c0, c1), Distance(c1, c2)) == 0
  {
    if Distance(c0, c1) == 0 && c1 != c2 {
      assert c0 == c1;
    }
  }

  /** The cell for the pixel pair (x, y), (x, y + 1). */
  function DitherCell(img: Image, x: nat, y: nat, p: Palette, xterm: seq<Color>): (cell: seq<Item>)
    requires img.Valid() && x < img.width && y + 1 < img.height && |xterm| == 256 && p != RGB
    ensures |cell| == 5 && ShowsDither(cell, DitherChoice(AverageColor(img, x, y), PaletteColors(p, xterm)))
  {
    DitherItems(DitherChoice(AverageColor(img, x, y), PaletteColors(p, xterm)))
  }

  /** The items that show the choice d: foreground and background opened,
      the glyph, and the two closes in reverse order. */
  function DitherItems(d: Dither): (cell: seq<Item>)
    ensures |cell| == 5 && ShowsDither(cell, d)
  {
    var t1 := ColorDirective(ForegroundColor, RgbToHex(d.fg));
    var t2 := ColorDirective(BackgroundColor, RgbToHex(d.bg));
    [Directive(t1), Directive(t2), Text(d.glyph), Directive(CloseTag(t2)), Directive(CloseTag(t1))]
  }

  function DitherCells(img: Image, y: nat, p: Palette, xterm: seq<Color>): (cs: seq<seq<Item>>)
    requires img.Valid() && y + 1 < img.height && |xterm| == 256 && p != RGB
    ensures |cs| == img.width
  {
    seq(img.width, x requires 0 <= x < img.width => DitherCell(img, x, y, p, xterm))
  }

  function DitherLines(img: Image, p: Palette, xterm: seq<Color>): (ls: seq<seq<Item>>)
    requires img.Valid() && |xterm| == 256 && p != RGB
    ensures |ls| == img.height / 2
  {
    seq(img.height / 2, k requires 0 <= k < img.height / 2 => Flatten(DitherCells(img, 2 * k, p, xterm)))
  }

  /** The inner loop of `ditherify`. */
  method DitherRow(img: Image, y: nat, p: Palette, xterm: seq<Color>) returns (line: seq<Item>)
    requires img.Valid() && y + 1 < img.height && |xterm| == 256 && p != RGB
    ensures line == Flatten(DitherCells(img, y, p, xterm))
  {
    ghost var cells := DitherCells(img, y, p, xterm);
    var pal := PaletteColors(p, xterm);
    line := [];
    for x := 0 to img.width
      invariant line == Flatten(cells[..x])
    {
      var items := DitherPixel(img, x, y, p, xterm, pal);
      FlattenPrefix(cells, x);
      line := line + items;
    }
    assert cells[..img.width] == cells;
  }

  /** The body of the inner loop of `ditherify`: the items of one cell. */
  method DitherPixel(img: Image, x: nat, y: nat, p: Palette, xterm: seq<Color>, pal: seq<Color>) returns (items: seq<Item>)
    requires img.Valid() && x < img.width && y + 1 < img.height && |xterm| == 256 && p != RGB
    requires pal == PaletteColors(p, xterm)
    ensures items == DitherCell(img, x, y, p, xterm)
  {
    var c0 := AverageColor(img, x, y);
    var closest := NClosestColor(2, c0, pal);
    var c1, c2 := closest[0], closest[1];
    var d01, d12, d02 := Distance(c0, c1), Distance(c1, c2), Distance(c0, c2);
    var block;
    if SqrtExceedsSum(d02, d01, d12) || d12 == 0 {
      c2 := c1;
      block := "█";
    } else {
      block := [DITHER_GLYPHS[GlyphIndex(d01, d12)]];
    }
    var t1 := ColorDirective(ForegroundColor, RgbToHex(c2));
    var t2 := ColorDirective(BackgroundColor, RgbToHex(c1));
    items := [Directive(t1), Directive(t2), Text(block), Directive(CloseTag(t2)), Directive(CloseTag(t1))];
  }

  /** `ditherify`; only reached with a palette other than RGB. */
  method Ditherify(img: Image, p: Palette, xterm: seq<Color>, format: seq<Item> -> string) returns (lines: seq<string>)
    requires img.Valid() && |xterm| == 256 && p != RGB
    ensures lines == FormatLines(format, DitherLines(img, p, xterm))
  {
    ghost var all := DitherLines(img, p, xterm);
    lines := [];
    var y := 0;
    ghost var k := 0;
    assert img.height - img.height % 2 == 2 * |all|;
    while y < img.height - img.height % 2
      invariant y == 2 * k && k <= |all|
      invariant lines == FormatLines(format, all[..k])
    {
      var line := DitherRow(img, y, p, xterm);
      FormatLinesPrefix(format, all, k);
      lines := lines + [format(line)];
      y, k := y + 2, k + 1;
    }
    assert all[..k] == all;
  }

  // ---------------------------------------------------------------------
  // ansify

  /** The four render functions. */
  datatype Renderer = SuperRenderer | PixelRenderer | DitherRenderer | BlockRenderer

  /** The dispatch of `ansify`: dithering needs a palette, so dithering
      under RGB falls back to blocks. */
  function SelectRenderer(mode: Mode, p: Palette): (r: Renderer)
    ensures r.SuperRenderer? <==> mode.Super?
    ensures r.PixelRenderer? <==> mode.Pixels?
    ensures r.DitherRenderer? <==> mode.Dithered? && p != RGB
    ensures r.BlockRenderer? <==> mode.Blocks? || (mode.Dithered? && p == RGB)
  {
    match mode
    case Super => SuperRenderer
    case Pixels => PixelRenderer
    case Dithered => if p != RGB then DitherRenderer else BlockRenderer
    case Blocks => BlockRenderer
  }

  /** The item lines of the selected renderer. */
  function RenderedLines(img: Image, mode: Mode, p: Palette, xterm: seq<Color>): seq<seq<Item>>
    requires img.Valid() && |xterm| == 256
  {
    match SelectRenderer(mode, p)
    case SuperRenderer => ImageSuper.SuperLines(img)
    case PixelRenderer => PixelLines(img, p, xterm)
    case DitherRenderer => DitherLines(img, p, xterm)
    case BlockRenderer => BlockLines(img, p, xterm)
  }

  /** `ansify` after the image is loaded (and resized): the selected
      renderer's lines. */
  method Ansify(img: Image, format: seq<Item> -> string, mode: Mode, p: Palette, xterm: seq<Color>)
    returns (lines: seq<string>)
    requires img.Valid() && |xterm| == 256
    ensures lines == FormatLines(format, RenderedLines(img, mode, p, xterm))
  {
    var render := SelectRenderer(mode, p);
    match render
    case SuperRenderer => lines := ImageSuper.Superify(img, p, format);
    case PixelRenderer => lines := Pixelify(img, p, xterm, format);
    case DitherRenderer => lines := Ditherify(img, p, xterm, format);
    case BlockRenderer => lines := Blockify(img, p, xterm, format);
  }

  /** Five items showing the choice d: its foreground opened, then its
      background, the shade glyph, and the two closes in reverse order. */
  predicate ShowsDither(piece: seq<Item>, d: Dither)
    requires |piece| == 5
  {
    OpensColor(piece[0], ForegroundColor, d.fg) && OpensColor(piece[1], BackgroundColor, d.bg)
    && piece[2] == Text(d.glyph)
    && piece[3] == Directive(CloseTag(piece[1].tag))
    && piece[4] == Directive(CloseTag(piece[0].tag))
  }

  /** Column x of a `ditherify` line, five items wide. */
  predicate DitherColumn(line: seq<Item>, x: nat, d: Dither)
    requires 5 * x + 5 <= |line|
  {
    ShowsDither(line[5 * x .. 5 * x + 5], d)
  }
  /** A cell of uniform width that is laid out right is laid out right in
      the line. */
  lemma DitherPiece(cells: seq<seq<Item>>, x: nat, d: Dither)
    requires forall j :: 0 <= j < |cells| ==> |cells[j]| == 5
    requires x < |cells| && ShowsDither(cells[x], d)
    ensures 5 * x + 5 <= |Flatten(cells)| && DitherColumn(Flatten(cells), x, d)
  {
    FlattenUniform(cells, 5);
  }


  /** Every `ditherify` line has five items per pixel column, and column x
      shows the choice made for the mean colour of its pixel pair. */
  lemma DitherLineShape(img: Image, p: Palette, xterm: seq<Color>, k: nat)
    requires img.Valid() && |xterm| == 256 && p != RGB && k < img.height / 2
    ensures |DitherLines(img, p, xterm)[k]| == 5 * img.width
    ensures forall x :: 0 <= x < img.width ==>
              DitherColumn(DitherLines(img, p, xterm)[k], x,
                           DitherChoice(AverageColor(img, x, 2 * k), PaletteColors(p, xterm)))
  {
    var cells := DitherCells(img, 2 * k, p, xterm);
    FlattenUniform(cells, 5);
    forall x | 0 <= x < img.width
      ensures DitherColumn(DitherLines(img, p, xterm)[k], x,
                           DitherChoice(AverageColor(img, x, 2 * k), PaletteColors(p, xterm)))
    {
      assert cells[x] == DitherCell(img, x, 2 * k, p, xterm);
      DitherPiece(cells, x, DitherChoice(AverageColor(img, x, 2 * k), PaletteColors(p, xterm)));
    }
  }

  // ---------------------------------------------------------------------
  // The lines under the ANSI encoder

  lemma BlockColours(piece: seq<Item>, c: Color)
    requires |piece| == 3 && ShowsBlock(piece, c)
    ensures ColourItems(piece)
  {
  }

  lemma PixelColours(piece: seq<Item>, upper: Color, lower: Color)
    requires |piece| == 5 && ShowsPixels(piece, upper, lower)
    ensures ColourItems(piece)
  {
  }

  lemma DitherColours(piece: seq<Item>, d: Dither)
    requires |piece| == 5 && ShowsDither(piece, d)
    ensures ColourItems(piece)
  {
  }

  lemma BlockLinesColours(img: Image, p: Palette, xterm: seq<Color>, k: nat)
    requires img.Valid() && |xterm| == 256 && k < img.height / 2
    ensures ColourItems(BlockLines(img, p, xterm)[k])
  {
    var cells := BlockCells(img, 2 * k, p, xterm);
    forall x | 0 <= x < |cells|
      ensures ColourItems(cells[x])
    {
      assert cells[x] == BlockCell(img, x, 2 * k, p, xterm);
      BlockColours(cells[x], Quantize(AverageColor(img, x, 2 * k), p, xterm));
    }
    FlattenColourItems(cells);
  }

  lemma PixelLinesColours(img: Image, p: Palette, xterm: seq<Color>, k: nat)
    requires img.Valid() && |xterm| == 256 && k < img.height / 2
    ensures ColourItems(PixelLines(img, p, xterm)[k])
  {
    var cells := PixelCells(img, 2 * k, p, xterm);
    forall x | 0 <= x < |cells|
      ensures ColourItems(cells[x])
    {
      assert cells[x] == PixelCell(img, x, 2 * k, p, xterm);
      PixelColours(cells[x], Quantize(RgbOf(img.At(x, 2 * k)), p, xterm), Quantize(RgbOf(img.At(x, 2 * k + 1)), p, xterm));
    }
    FlattenColourItems(cells);
  }

  lemma DitherLinesColours(img: Image, p: Palette, xterm: seq<Color>, k: nat)
    requires img.Valid() && |xterm| == 256 && p != RGB && k < img.height / 2
    ensures ColourItems(DitherLines(img, p, xterm)[k])
  {
    var cells := DitherCells(img, 2 * k, p, xterm);
    forall x | 0 <= x < |cells|
      ensures ColourItems(cells[x])
    {
      assert cells[x] == DitherCell(img, x, 2 * k, p, xterm);
      DitherColours(cells[x], DitherChoice(AverageColor(img, x, 2 * k), PaletteColors(p, xterm)));
    }
    FlattenColourItems(cells);
  }

  /** The renderers emit only foreground and background directives, which
      have no entry in the ANSI code table: under `AnsiFormatter` every
      rendered line encodes as its glyphs alone, without colour codes. */
  lemma AnsiShowsGlyphsOnly(img: Image, mode: Mode, p: Palette, xterm: seq<Color>, k: nat)
    requires img.Valid() && |xterm| == 256 && k < |RenderedLines(img, mode, p, xterm)|
    ensures Ansi.Encode(RenderedLines(img, mode, p, xterm)[k]) == Results.Some(Texts(RenderedLines(img, mode, p, xterm)[k]))
  {
    RenderedColours(img, mode, p, xterm, k);
    ColourItemsEncodeAsTexts(RenderedLines(img, mode, p, xterm)[k]);
  }

  lemma RenderedColours(img: Image, mode: Mode, p: Palette, xterm: seq<Color>, k: nat)
    requires img.Valid() && |xterm| == 256 && k < |RenderedLines(img, mode, p, xterm)|
    ensures ColourItems(RenderedLines(img, mode, p, xterm)[k])
  {
    match SelectRenderer(mode, p)
    case SuperRenderer => ImageSuper.SuperLinesColours(img, k);
    case PixelRenderer => PixelLinesColours(img, p, xterm, k);
    case DitherRenderer => DitherLinesColours(img, p, xterm, k);
    case BlockRenderer => BlockLinesColours(img, p, xterm, k);
  }
}
