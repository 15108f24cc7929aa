/** The colour helpers of `monospace/core/rendering/images.py`: the decoded
    pixel buffer, palettes, nearest-colour search, channel averages,
    brightness and hexadecimal colour strings. */
module ImageColors {
  import opened Results
  import Formatting
  import Ansi

  type Byte = x: int | 0 <= x < 256

  /** An RGBA pixel as `convert("RGBA").load()` delivers it. */
  datatype Pixel = Pixel(r: Byte, g: Byte, b: Byte, a: Byte)

  /** A three-channel colour (the alpha channel dropped). */
  datatype Color = Color(r: Byte, g: Byte, b: Byte)

  /** A decoded image: `rows[y][x]` is the pixel that PIL addresses as
      `pixels[x, y]`. */
  datatype Image = Image(width: nat, height: nat, rows: seq<seq<Pixel>>)
  {
    predicate Valid()
    {
      |rows| == height && forall y :: 0 <= y < height ==> |rows[y]| == width
    }

    function At(x: nat, y: nat): Pixel
      requires Valid() && x < width && y < height
    {
      rows[y][x]
    }
  }

  const BLACK: Color := Color(0, 0, 0)

  function RgbOf(p: Pixel): Color
  {
    Color(p.r, p.g, p.b)
  }

  datatype Palette = Monochrome | ANSI | Xterm | RGB

  /** `palettes[p]` in iteration order, built from the 256-entry reference
      table (whose colours come from a palette utility outside this model):
      entries 0 and 15, the first sixteen, or all of them. */
  function PaletteColors(p: Palette, xterm: seq<Color>): (r: seq<Color>)
    requires |xterm| == 256 && p != RGB
    ensures 2 <= |r| <= 256
    ensures forall i :: 0 <= i < |r| ==> r[i] in xterm
    ensures p == Monochrome ==> r == [xterm[0], xterm[15]]
    ensures p == ANSI ==> r == xterm[..16]
    ensures p == Xterm ==> r == xterm
  {
    match p
    case Monochrome => [xterm[0], xterm[15]]
    case ANSI => xterm[..16]
    case Xterm => xterm
  }

  /** The palettes are nested: the two monochrome colours are ANSI colours
      and the ANSI colours are xterm colours. */
  lemma PalettesNested(xterm: seq<Color>)
    requires |xterm| == 256
    ensures forall q :: q in PaletteColors(Monochrome, xterm) ==> q in PaletteColors(ANSI, xterm)
    ensures forall q :: q in PaletteColors(ANSI, xterm) ==> q in PaletteColors(Xterm, xterm)
  {
    assert xterm[..16][0] == xterm[0] && xterm[..16][15] == xterm[15];
  }

  /** x * x, written as a sum of odd numbers so that the solver does not
      meet products of unknowns wherever a distance is compared. */
  function Square(x: int): (s: nat)
    ensures s == 0 <==> x == 0
    decreases if x < 0 then 1 - x else x
  {
    if x == 0 then 0
    else if x < 0 then Square(-x)
    else Square(x - 1) + 2 * x - 1
  }

  lemma {:induction false} SquareIsProduct(x: int)
    ensures Square(x) == x * x
    decreases if x < 0 then 1 - x else x
  {
    if x < 0 {
      SquareIsProduct(-x);
      assert (-x) * (-x) == x * x;
    } else if x > 0 {
      SquareIsProduct(x - 1);
      assert (x - 1) * (x - 1) == x * x - 2 * x + 1;
    }
  }

  /** Squared Euclidean distance over the three channels. */
  function Distance(c1: Color, c2: Color): (d: nat)
    ensures d == 0 <==> c1 == c2
  {
    Square(c1.r - c2.r) + Square(c1.g - c2.g) + Square(c1.b - c2.b)
  }

  // ---------------------------------------------------------------------
  // n_closest_color: heapq.nsmallest(n, palette, key=distance) is
  // sorted(palette, key=distance)[:n], a stable selection.  Palette entries
  // are identified by their position in iteration order.

  /** Entry i comes before entry j: closer to c, or as close and earlier. */
  predicate Before(c: Color, pal: seq<Color>, i: nat, j: nat)
    requires i < |pal| && j < |pal|
  {
    Distance(c, pal[i]) < Distance(c, pal[j]) || (Distance(c, pal[i]) == Distance(c, pal[j]) && i < j)
  }

  predicate Ascending(c: Color, pal: seq<Color>, ks: seq<nat>)
  {
    (forall i :: 0 <= i < |ks| ==> ks[i] < |pal|)
    && forall i, j :: 0 <= i < j < |ks| ==> Before(c, pal, ks[i], ks[j])
  }

  function Insert(c: Color, pal: seq<Color>, k: nat, ks: seq<nat>): seq<nat>
    requires k < |pal| && forall i :: 0 <= i < |ks| ==> ks[i] < |pal|
  {
    if ks == [] then [k]
    else if Before(c, pal, k, ks[0]) then [k] + ks
    else [ks[0]] + Insert(c, pal, k, ks[1..])
  }

  lemma BeforeTotal(c: Color, pal: seq<Color>, i: nat, j: nat)
    requires i < |pal| && j < |pal| && i != j && !Before(c, pal, i, j)
    ensures Before(c, pal, j, i)
  {
  }

  lemma {:induction false} InsertElements(c: Color, pal: seq<Color>, k: nat, ks: seq<nat>)
    requires k < |pal| && forall i :: 0 <= i < |ks| ==> ks[i] < |pal|
    ensures |Insert(c, pal, k, ks)| == |ks| + 1
    ensures forall x :: x in Insert(c, pal, k, ks) <==> x == k || x in ks
  {
    if ks != [] && !Before(c, pal, k, ks[0]) {
      InsertElements(c, pal, k, ks[1..]);
      assert ks == [ks[0]] + ks[1..];
    }
  }

  /** An entry that precedes every entry of an ascending sequence can be put
      in front of it. */
  lemma ConsAscending(c: Color, pal: seq<Color>, a: nat, r: seq<nat>)
    requires a < |pal| && Ascending(c, pal, r)
    requires forall j :: 0 <= j < |r| ==> Before(c, pal, a, r[j])
    ensures Ascending(c, pal, [a] + r)
  {
    var s := [a] + r;
    forall i, j | 0 <= i < j < |s| ensures Before(c, pal, s[i], s[j]) {
      if i > 0 { assert s[i] == r[i - 1] && s[j] == r[j - 1]; }
      else { assert s[j] == r[j - 1]; }
    }
  }

  lemma {:induction false} InsertAscending(c: Color, pal: seq<Color>, k: nat, ks: seq<nat>)
    requires k < |pal| && Ascending(c, pal, ks) && k !in ks
    ensures Ascending(c, pal, Insert(c, pal, k, ks))
  {
    if ks == [] {
    } else if Before(c, pal, k, ks[0]) {
      forall j | 0 <= j < |ks| ensures Before(c, pal, k, ks[j]) {
        if j > 0 { BeforeTransitive(c, pal, k, ks[0], ks[j]); }
      }
      ConsAscending(c, pal, k, ks);
    } else {
      var t := ks[1..];
      assert Ascending(c, pal, t) by {
        forall i, j | 0 <= i < j < |t| ensures Before(c, pal, t[i], t[j]) {
          assert t[i] == ks[i + 1] && t[j] == ks[j + 1];
        }
      }
      assert k !in ks[1..];
      InsertAscending(c, pal, k, t);
      InsertElements(c, pal, k, t);
      var r := Insert(c, pal, k, t);
      BeforeTotal(c, pal, k, ks[0]);
      forall j | 0 <= j < |r| ensures Before(c, pal, ks[0], r[j]) {
        assert r[j] in r;
        if r[j] != k {
          var m :| 0 <= m < |t| && t[m] == r[j];
          assert ks[m + 1] == r[j];
        }
      }
      ConsAscending(c, pal, ks[0], r);
    }
  }

  lemma BeforeTransitive(c: Color, pal: seq<Color>, i: nat, j: nat, k: nat)
    requires i < |pal| && j < |pal| && k < |pal|
    requires Before(c, pal, i, j) && Before(c, pal, j, k)
    ensures Before(c, pal, i, k)
  {
  }

  /** Positions 0 .. n-1 of the palette, in the order nsmallest ranks them. */
  function SortedKeys(c: Color, pal: seq<Color>, n: nat): (ks: seq<nat>)
    requires n <= |pal|
    ensures |ks| == n && Ascending(c, pal, ks)
    ensures forall k: int :: k in ks <==> 0 <= k < n
  {
    if n == 0 then []
    else
      var prev := SortedKeys(c, pal, n - 1);
      InsertAscending(c, pal, n - 1, prev);
      InsertElements(c, pal, n - 1, prev);
      Insert(c, pal, n - 1, prev)
  }

  function Min(a: nat, b: nat): nat
  {
    if a <= b then a else b
  }

  /** The positions `nsmallest(n, palette, key)` returns: min(n, |pal|)
      distinct positions in ascending distance, ties in iteration order, and
      no position left out comes before one taken. */
  function NClosestKeys(n: nat, c: Color, pal: seq<Color>): (ks: seq<nat>)
    ensures |ks| == Min(n, |pal|)
    ensures Ascending(c, pal, ks)
    ensures forall k, i :: 0 <= k < |pal| && k !in ks && 0 <= i < |ks| ==> Before(c, pal, ks[i], k)
  {
    var all := SortedKeys(c, pal, |pal|);
    var m := Min(n, |pal|);
    var ks := all[..m];
    assert forall k, i :: 0 <= k < |pal| && k !in ks && 0 <= i < m ==> Before(c, pal, ks[i], k) by {
      forall k, i | 0 <= k < |pal| && k !in ks && 0 <= i < m ensures Before(c, pal, ks[i], k) {
        assert k in all;
        var j :| 0 <= j < |all| && all[j] == k;
        assert all[i] == ks[i];
      }
    }
    ks
  }

  /** `n_closest_color(n, color, palette)`: the palette colours at those
      positions. */
  function NClosestColor(n: nat, c: Color, pal: seq<Color>): (r: seq<Color>)
    ensures |r| == Min(n, |pal|)
    ensures forall i :: 0 <= i < |r| ==> r[i] in pal
    ensures forall i, j :: 0 <= i < j < |r| ==> Distance(c, r[i]) <= Distance(c, r[j])
    ensures |r| > 0 ==> forall q :: q in pal ==> Distance(c, r[0]) <= Distance(c, q)
    ensures forall i, q :: 0 <= i < |r| && q in pal && q !in r ==> Distance(c, r[i]) <= Distance(c, q)
  {
    var ks := NClosestKeys(n, c, pal);
    ColorsInOrder(c, pal, ks);
    Colors(pal, ks)
  }

  /** The palette colours at positions ks. */
  function Colors(pal: seq<Color>, ks: seq<nat>): (r: seq<Color>)
    requires forall i :: 0 <= i < |ks| ==> ks[i] < |pal|
    ensures |r| == |ks| && forall i :: 0 <= i < |ks| ==> r[i] == pal[ks[i]]
  {
    seq(|ks|, i requires 0 <= i < |ks| => pal[ks[i]])
  }

  /** Colours taken at ascending positions, none left out coming before one
      taken, are in ascending distance and the first is a closest one. */
  lemma ColorsInOrder(c: Color, pal: seq<Color>, ks: seq<nat>)
    requires Ascending(c, pal, ks)
    requires forall k, i :: 0 <= k < |pal| && k !in ks && 0 <= i < |ks| ==> Before(c, pal, ks[i], k)
    ensures var r := Colors(pal, ks);
            (forall i :: 0 <= i < |r| ==> r[i] in pal)
            && (forall i, j :: 0 <= i < j < |r| ==> Distance(c, r[i]) <= Distance(c, r[j]))
            && (|r| > 0 ==> forall q :: q in pal ==> Distance(c, r[0]) <= Distance(c, q))
            && (forall i, q :: 0 <= i < |r| && q in pal && q !in r ==> Distance(c, r[i]) <= Distance(c, q))
  {
    var r := Colors(pal, ks);
    forall i, q | 0 <= i < |r| && q in pal && q !in r ensures Distance(c, r[i]) <= Distance(c, q) {
      var k :| 0 <= k < |pal| && pal[k] == q;
      assert k !in ks;
      assert Before(c, pal, ks[i], k);
    }
    forall i, j | 0 <= i < j < |r| ensures Distance(c, r[i]) <= Distance(c, r[j]) {
      assert Before(c, pal, ks[i], ks[j]);
    }
    if |r| > 0 {
      forall q | q in pal ensures Distance(c, r[0]) <= Distance(c, q) {
        var k :| 0 <= k < |pal| && pal[k] == q;
        if k in ks {
          var i :| 0 <= i < |ks| && ks[i] == k;
          if i > 0 { assert Before(c, pal, ks[0], ks[i]); }
        } else {
          assert Before(c, pal, ks[0], k);
        }
      }
    }
  }

  /** Quantising a colour the palette holds returns that colour first. */
  lemma NClosestIdempotent(n: nat, c: Color, pal: seq<Color>)
    requires n >= 1 && c in pal
    ensures NClosestColor(n, c, pal) != [] && NClosestColor(n, c, pal)[0] == c
  {
    var r := NClosestColor(n, c, pal);
    assert Distance(c, r[0]) <= Distance(c, c);
  }

  // ---------------------------------------------------------------------
  // rgb_to_hex

  function HexDigit(d: nat): char
    requires d < 16
  {
    if d < 10 then ('0' as int + d) as char else ('a' as int + d - 10) as char
  }

  /** '%02x' of a byte. */
  function Hex2(v: Byte): string
  {
    [HexDigit(v / 16), HexDigit(v % 16)]
  }

  /** `rgb_to_hex(r, g, b)`: '#' then two lower-case hexadecimal digits per
      channel, red first. */
  function RgbToHex(c: Color): (s: string)
    ensures |s| == 7 && s[0] == '#'
    ensures IsLowerHex(s[1..3]) && IsLowerHex(s[3..5]) && IsLowerHex(s[5..7])
    ensures HexPairValue(s[1..3]) == c.r && HexPairValue(s[3..5]) == c.g && HexPairValue(s[5..7]) == c.b
  {
    Hex2Value(c.r); Hex2Value(c.g); Hex2Value(c.b);
    HexFields(Hex2(c.r), Hex2(c.g), Hex2(c.b));
    "#" + Hex2(c.r) + Hex2(c.g) + Hex2(c.b)
  }

  /** Where the three fields of a colour string sit. */
  lemma HexFields(r: string, g: string, b: string)
    requires |r| == 2 && |g| == 2 && |b| == 2
    ensures var s := "#" + r + g + b;
            |s| == 7 && s[0] == '#' && s[1..3] == r && s[3..5] == g && s[5..7] == b
  {
  }

  predicate IsLowerHex(s: string)
  {
    |s| == 2 && IsLowerHexDigit(s[0]) && IsLowerHexDigit(s[1])
  }

  /** One of 0-9 a-f. */
  predicate IsLowerHexDigit(ch: char)
  {
    '0' <= ch <= '9' || 'a' <= ch <= 'f'
  }

  /** The value of two lower-case hexadecimal digits. */
  function HexPairValue(s: string): nat
    requires IsLowerHex(s)
  {
    16 * LowerHexValue(s[0]) + LowerHexValue(s[1])
  }

  function LowerHexValue(ch: char): nat
    requires IsLowerHexDigit(ch)
  {
    if '0' <= ch <= '9' then ch as int - '0' as int else ch as int - 'a' as int + 10
  }

  lemma Hex2Value(v: Byte)
    ensures IsLowerHex(Hex2(v)) && HexPairValue(Hex2(v)) == v
  {
    var hi, lo := v / 16, v % 16;
    assert v == 16 * hi + lo;
    assert LowerHexValue(HexDigit(hi)) == hi;
    assert LowerHexValue(HexDigit(lo)) == lo;
  }

  lemma HexIsNotSpace(ch: char)
    requires IsLowerHexDigit(ch)
    ensures !Ansi.IsSpace(ch) && ch != '+' && ch != '-'
  {
  }

  lemma HexFieldValue(s: string)
    requires IsLowerHex(s)
    ensures Ansi.ParseHexField(s) == Some(HexPairValue(s))
  {
    HexIsNotSpace(s[0]);
    HexIsNotSpace(s[1]);
    assert Ansi.Strip(s) == s;
    HexPairDigits(s);
  }

  lemma HexPairDigits(s: string)
    requires IsLowerHex(s)
    ensures Ansi.HexDigitsValue(s) == Some(HexPairValue(s))
  {
    LowerHexDigit(s[0]);
    LowerHexDigit(s[1]);
    assert s[..1] == [s[0]];
  }

  lemma LowerHexDigit(ch: char)
    requires IsLowerHexDigit(ch)
    ensures Ansi.HexValue(ch) == Some(LowerHexValue(ch))
  {
  }

  /** `rgb` in the ANSI encoder reads back what `rgb_to_hex` writes. */
  lemma HexRoundTrip(c: Color)
    ensures Ansi.Rgb(RgbToHex(c)) == Some((c.r, c.g, c.b))
  {
    var s := RgbToHex(c);
    var h := s[1..];
    assert Ansi.Slice(h, 0, 2) == s[1..3];
    assert Ansi.Slice(h, 2, 4) == s[3..5];
    assert Ansi.Slice(h, 4, 6) == s[5..7];
    HexFieldValue(s[1..3]);
    HexFieldValue(s[3..5]);
    HexFieldValue(s[5..7]);
  }

  /** An item opening a colour directive of the given kind whose payload
      the ANSI encoder reads back as c. */
  predicate OpensColor(item: Formatting.Item, kind: Formatting.Kind, c: Color)
  {
    item == Formatting.Directive(Formatting.ColorDirective(kind, RgbToHex(c)))
  }

  /** A directive opening colour c carries c: its payload decodes back to
      c's channels. */
  lemma OpenedColorDecodes(item: Formatting.Item, kind: Formatting.Kind, c: Color)
    requires OpensColor(item, kind, c)
    ensures item.Directive? && item.tag.open && item.tag.kind == kind
    ensures "color" in item.tag.data && Ansi.Rgb(item.tag.data["color"]) == Some((c.r, c.g, c.b))
  {
    HexRoundTrip(c);
  }

  /** Text, or a directive for a foreground or background colour: the only
      items the image renderers emit. */
  predicate ColourItem(item: Formatting.Item)
  {
    item.Directive? ==> item.tag.kind == Formatting.ForegroundColor || item.tag.kind == Formatting.BackgroundColor
  }

  predicate ColourItems(line: seq<Formatting.Item>)
  {
    forall i :: 0 <= i < |line| ==> ColourItem(line[i])
  }

  /** A line made of colour-only cells is colour-only. */
  lemma {:induction false} FlattenColourItems(cells: seq<seq<Formatting.Item>>)
    requires forall j :: 0 <= j < |cells| ==> ColourItems(cells[j])
    ensures ColourItems(Formatting.Flatten(cells))
  {
    if cells != [] {
      FlattenColourItems(cells[..|cells| - 1]);
    }
  }

  /** The ANSI encoder has no code for colour-only directives: such a line
      encodes as its texts. */
  lemma ColourItemsEncodeAsTexts(line: seq<Formatting.Item>)
    requires ColourItems(line)
    ensures Ansi.Encode(line) == Some(Formatting.Texts(line))
  {
    Ansi.EncodeTextsOnly(line);
  }

  // ---------------------------------------------------------------------
  // Averages and brightness

  /** `average_color(pixels, x, y)`: the channel-wise mean of (x, y) and
      (x, y + 1), truncated, alpha dropped. */
  function AverageColor(img: Image, x: nat, y: nat): (c: Color)
    requires img.Valid() && x < img.width && y + 1 < img.height
    ensures var p, q := img.At(x, y), img.At(x, y + 1);
            2 * c.r <= p.r + q.r < 2 * c.r + 2
            && 2 * c.g <= p.g + q.g < 2 * c.g + 2
            && 2 * c.b <= p.b + q.b < 2 * c.b + 2
    ensures var p, q := img.At(x, y), img.At(x, y + 1);
            Between(c.r, p.r, q.r) && Between(c.g, p.g, q.g) && Between(c.b, p.b, q.b)
  {
    var p, q := img.At(x, y), img.At(x, y + 1);
    Color((p.r + q.r) / 2, (p.g + q.g) / 2, (p.b + q.b) / 2)
  }

  predicate Between(v: int, a: int, b: int)
  {
    (a <= v <= b) || (b <= v <= a)
  }

  function Channel(p: Pixel, ch: nat): Byte
    requires ch < 4
  {
    if ch == 0 then p.r else if ch == 1 then p.g else if ch == 2 then p.b else p.a
  }

  function ChannelSum(ps: seq<Pixel>, ch: nat): (s: nat)
    requires ch < 4
    ensures s <= 255 * |ps|
  {
    if ps == [] then 0 else ChannelSum(ps[..|ps| - 1], ch) + Channel(ps[|ps| - 1], ch)
  }

  /** Truncated mean of one channel; it is a byte because the sum is at most
      255 per pixel. */
  function MeanChannel(ps: seq<Pixel>, ch: nat): (m: Byte)
    requires ps != [] && ch < 4
    ensures |ps| * m <= ChannelSum(ps, ch) < |ps| * m + |ps|
  {
    var s, n := ChannelSum(ps, ch), |ps|;
    FloorDivision(s, n, 255);
    s / n
  }

  lemma FloorDivision(s: nat, n: nat, bound: nat)
    requires n > 0 && s <= bound * n
    ensures n * (s / n) <= s < n * (s / n) + n && s / n <= bound
  {
    var q, m := s / n, s % n;
    assert s == n * q + m && 0 <= m < n;
  }

  lemma MulMonotone(n: nat, a: int, b: int)
    requires a <= b
    ensures n * a <= n * b
  {
    assert n * b - n * a == n * (b - a);
  }

  /** n * a <= n * b < n * a + n forces a == b. */
  lemma MulSqueeze(n: nat, a: int, b: int)
    requires n > 0 && n * a <= n * b < n * a + n
    ensures a == b
  {
    if a < b { MulMonotone(n, a + 1, b); }
    if b < a { MulMonotone(n, b, a); MulMonotone(n, b + 1, a); }
  }

  /** `average_color2(*colors)`: the truncated channel-wise mean of the four
      channels, or the empty tuple (None) when there are no colours. */
  function AverageColor2(ps: seq<Pixel>): (r: Option<Pixel>)
    ensures r.None? <==> ps == []
    ensures r.Some? ==> forall ch :: 0 <= ch < 4 ==>
              |ps| * Channel(r.value, ch) <= ChannelSum(ps, ch) < |ps| * Channel(r.value, ch) + |ps|
  {
    if ps == [] then None
    else Some(Pixel(MeanChannel(ps, 0), MeanChannel(ps, 1), MeanChannel(ps, 2), MeanChannel(ps, 3)))
  }

  lemma {:induction false} ChannelSumConstant(ps: seq<Pixel>, p: Pixel, ch: nat)
    requires ch < 4 && forall i :: 0 <= i < |ps| ==> ps[i] == p
    ensures ChannelSum(ps, ch) == |ps| * Channel(p, ch)
  {
    if ps != [] {
      ChannelSumConstant(ps[..|ps| - 1], p, ch);
    }
  }

  /** The mean of copies of one pixel is that pixel. */
  lemma AverageOfCopies(ps: seq<Pixel>, p: Pixel)
    requires ps != [] && forall i :: 0 <= i < |ps| ==> ps[i] == p
    ensures AverageColor2(ps) == Some(p)
  {
    var r := AverageColor2(ps).value;
    var n := |ps|;
    forall ch | 0 <= ch < 4 ensures Channel(r, ch) == Channel(p, ch) {
      ChannelSumConstant(ps, p, ch);
      MulSqueeze(n, Channel(r, ch), Channel(p, ch));
    }
    assert Channel(r, 0) == p.r && Channel(r, 1) == p.g && Channel(r, 2) == p.b && Channel(r, 3) == p.a;
  }

  function RealSum(vs: seq<real>): real
  {
    if vs == [] then 0.0 else RealSum(vs[..|vs| - 1]) + vs[|vs| - 1]
  }

  /** `average(values)`, over exact reals. */
  function Average(vs: seq<real>): real
    requires vs != []
  {
    RealSum(vs) / (|vs| as real)
  }

  /** `brightness(color)`: the mean of the first three channels, over exact
      reals. */
  function Brightness(p: Pixel): (v: real)
    ensures 0.0 <= v <= 255.0
  {
    (p.r + p.g + p.b) as real / 3.0
  }
}
