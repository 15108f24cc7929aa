/** The quarter-block renderer `superify` of
    `monospace/core/rendering/images.py`: every 2x4 pixel region becomes one
    glyph whose foreground and background colours are the means of the
    darker and of the lighter quadrants. */
module ImageSuper {
  import opened Results
  import opened Formatting
  import opened ImageColors

  /** Quadrant k of the 2x4 region at (x, y), in the order top-left,
      top-right, bottom-left, bottom-right: the mean of a vertical pixel
      pair. */
  function Corner(img: Image, x: nat, y: nat, k: nat): Pixel
    requires img.Valid() && x + 1 < img.width && y + 3 < img.height && k < 4
  {
    var i, j := k / 2, k % 2;
    AverageColor2([img.At(x + j, y + 2 * i), img.At(x + j, y + 2 * i + 1)]).value
  }

  function Corners(img: Image, x: nat, y: nat): (cs: seq<Pixel>)
    requires img.Valid() && x + 1 < img.width && y + 3 < img.height
    ensures |cs| == 4
  {
    seq(4, k requires 0 <= k < 4 => Corner(img, x, y, k))
  }

  function Levels(cs: seq<Pixel>): (ls: seq<real>)
    ensures |ls| == |cs| && forall k :: 0 <= k < |cs| ==> ls[k] == Brightness(cs[k])
  {
    seq(|cs|, k requires 0 <= k < |cs| => Brightness(cs[k]))
  }

  /** Group 'a' holds the quadrants strictly darker than the average. */
  function LetterOf(level: real, avg: real): (c: char)
    ensures c == 'a' || c == 'b'
  {
    if level < avg then 'a' else 'b'
  }

  /** The first n quadrants of one group, in quadrant order. */
  function Group(cs: seq<Pixel>, avg: real, letter: char, n: nat): seq<Pixel>
    requires n <= |cs|
  {
    if n == 0 then []
    else Group(cs, avg, letter, n - 1)
         + (if LetterOf(Brightness(cs[n - 1]), avg) == letter then [cs[n - 1]] else [])
  }

  /** The group letters of the quadrants, in quadrant order. */
  function Pattern(cs: seq<Pixel>, avg: real): (p: string)
    ensures |p| == |cs| && forall k :: 0 <= k < |cs| ==> p[k] == LetterOf(Brightness(cs[k]), avg)
  {
    seq(|cs|, k requires 0 <= k < |cs| => LetterOf(Brightness(cs[k]), avg))
  }

  /** `mapping`: a quarter-block glyph for every two-group pattern. */
  const MAPPING: map<string, string> := map[
    "aaab" := "▛", "aaba" := "▜", "aabb" := "▀", "abaa" := "▙", "abab" := "▌",
    "abba" := "▚", "abbb" := "▘", "baaa" := "▟", "baab" := "▞", "baba" := "▐",
    "babb" := "▝", "bbaa" := "▄", "bbab" := "▖", "bbba" := "▗"]

  predicate IsTwoGroupPattern(s: string)
  {
    |s| == 4 && (forall i :: 0 <= i < 4 ==> s[i] == 'a' || s[i] == 'b') && s != "aaaa" && s != "bbbb"
  }

  /** The 14 keys of the table are exactly the patterns over {a, b} of
      length four that use both letters. */
  lemma MappingKeys(s: string)
    ensures s in MAPPING <==> IsTwoGroupPattern(s)
  {
    if IsTwoGroupPattern(s) {
      assert s == [s[0], s[1], s[2], s[3]];
    }
  }

  /** The quadrants each quarter-block glyph inks, numbered top-left,
      top-right, bottom-left, bottom-right, as the Unicode character names
      give them (QUADRANT UPPER LEFT, UPPER HALF BLOCK, ...). */
  function InkedQuadrants(glyph: string): set<nat>
  {
    if glyph == "▘" then {0}
    else if glyph == "▝" then {1}
    else if glyph == "▖" then {2}
    else if glyph == "▗" then {3}
    else if glyph == "▀" then {0, 1}
    else if glyph == "▄" then {2, 3}
    else if glyph == "▌" then {0, 2}
    else if glyph == "▐" then {1, 3}
    else if glyph == "▚" then {0, 3}
    else if glyph == "▞" then {1, 2}
    else if glyph == "▛" then {0, 1, 2}
    else if glyph == "▜" then {0, 1, 3}
    else if glyph == "▙" then {0, 2, 3}
    else if glyph == "▟" then {1, 2, 3}
    else {}
  }

  /** The table draws group 'a' in ink: the glyph for a pattern inks
      exactly the quadrants marked 'a'. */
  lemma MappingInks(s: string)
    requires s in MAPPING
    ensures |MAPPING[s]| == 1
    ensures forall k :: 0 <= k < 4 ==> (k in InkedQuadrants(MAPPING[s]) <==> s[k] == 'a')
  {
    assert s in MAPPING.Keys;
  }

  lemma {:induction false} GroupMembers(cs: seq<Pixel>, avg: real, letter: char, n: nat)
    requires n <= |cs|
    ensures Group(cs, avg, letter, n) != [] <==> exists k :: 0 <= k < n && LetterOf(Brightness(cs[k]), avg) == letter
  {
    if n > 0 {
      GroupMembers(cs, avg, letter, n - 1);
    }
  }

  /** The quadrants of the first n that get the letter, in ascending order. */
  function GroupPositions(cs: seq<Pixel>, avg: real, letter: char, n: nat): (ix: seq<nat>)
    requires n <= |cs|
    ensures forall i :: 0 <= i < |ix| ==> ix[i] < n
  {
    if n == 0 then []
    else GroupPositions(cs, avg, letter, n - 1)
         + (if LetterOf(Brightness(cs[n - 1]), avg) == letter then [n - 1] else [])
  }

  /** A group is exactly the quadrants that get its letter, each once and in
      quadrant order, so its mean is the mean of those quadrants. */
  lemma {:induction false} GroupSelects(cs: seq<Pixel>, avg: real, letter: char, n: nat)
    requires n <= |cs|
    ensures var g, ix := Group(cs, avg, letter, n), GroupPositions(cs, avg, letter, n);
            |g| == |ix|
            && (forall i :: 0 <= i < |ix| ==> g[i] == cs[ix[i]])
            && (forall i, j :: 0 <= i < j < |ix| ==> ix[i] < ix[j])
            && (forall k :: 0 <= k < n ==> (k in ix <==> LetterOf(Brightness(cs[k]), avg) == letter))
  {
    if n > 0 {
      GroupSelects(cs, avg, letter, n - 1);
      var g0, ix0 := Group(cs, avg, letter, n - 1), GroupPositions(cs, avg, letter, n - 1);
      if LetterOf(Brightness(cs[n - 1]), avg) == letter {
        assert Group(cs, avg, letter, n) == g0 + [cs[n - 1]];
        assert GroupPositions(cs, avg, letter, n) == ix0 + [n - 1];
      } else {
        assert Group(cs, avg, letter, n) == g0;
        assert GroupPositions(cs, avg, letter, n) == ix0;
      }
    }
  }

  lemma RealSum4(ls: seq<real>)
    requires |ls| == 4
    ensures RealSum(ls) == ls[0] + ls[1] + ls[2] + ls[3]
  {
    var l3, l2, l1 := ls[..3], ls[..2], ls[..1];
    assert l3[..2] == l2 && l2[..1] == l1 && l1[..0] == [];
    assert RealSum(l1) == ls[0];
    assert RealSum(l2) == RealSum(l1) + ls[1];
    assert RealSum(l3) == RealSum(l2) + ls[2];
    assert RealSum(ls) == RealSum(l3) + ls[3];
  }

  /** Four levels and their mean: some level is at least the mean, and none
      is below it exactly when all are equal. */
  lemma MeanOfFour(ls: seq<real>)
    requires |ls| == 4
    ensures var avg := Average(ls);
            (exists k :: 0 <= k < 4 && !(ls[k] < avg))
            && ((forall k :: 0 <= k < 4 ==> !(ls[k] < avg)) <==> (forall k :: 0 <= k < 4 ==> ls[k] == ls[0]))
  {
    RealSum4(ls);
    var avg := Average(ls);
    assert 4.0 * avg == ls[0] + ls[1] + ls[2] + ls[3];
    if ls[0] < avg && ls[1] < avg && ls[2] < avg {
      assert !(ls[3] < avg);
    }
  }

  /** Under exact arithmetic the lighter group is never empty: the
      brightest quadrant is at least the average. */
  lemma LighterGroupNonEmpty(cs: seq<Pixel>)
    requires |cs| == 4
    ensures Group(cs, Average(Levels(cs)), 'b', 4) != []
  {
    var ls := Levels(cs);
    MeanOfFour(ls);
    GroupMembers(cs, Average(ls), 'b', 4);
    var j :| 0 <= j < 4 && !(ls[j] < Average(ls));
    assert LetterOf(Brightness(cs[j]), Average(ls)) == 'b';
  }

  /** The darker group is empty exactly when all four brightnesses are
      equal. */
  lemma DarkerGroupEmpty(cs: seq<Pixel>)
    requires |cs| == 4
    ensures Group(cs, Average(Levels(cs)), 'a', 4) == [] <==>
            forall k :: 0 <= k < 4 ==> Brightness(cs[k]) == Brightness(cs[0])
  {
    var ls := Levels(cs);
    MeanOfFour(ls);
    GroupMembers(cs, Average(ls), 'a', 4);
  }

  /** A pattern over {a, b} of length four holding both letters. */
  lemma BothLetters(p: string, i: nat, j: nat)
    requires |p| == 4 && forall k :: 0 <= k < 4 ==> p[k] == 'a' || p[k] == 'b'
    requires i < 4 && j < 4 && p[i] == 'a' && p[j] == 'b'
    ensures IsTwoGroupPattern(p)
  {
    assert p != "aaaa" by { assert "aaaa"[j] == 'a'; }
    assert p != "bbbb" by { assert "bbbb"[i] == 'b'; }
  }

  /** With both groups present the pattern uses both letters, so the table
      lookup is total. */
  lemma PatternTotal(cs: seq<Pixel>)
    requires |cs| == 4
    requires Group(cs, Average(Levels(cs)), 'a', 4) != []
    ensures IsTwoGroupPattern(Pattern(cs, Average(Levels(cs))))
    ensures Pattern(cs, Average(Levels(cs))) in MAPPING
  {
    LighterGroupNonEmpty(cs);
    TwoGroups(cs, Average(Levels(cs)));
  }

  /** Two non-empty groups, whatever the threshold, make a two-group
      pattern. */
  lemma TwoGroups(cs: seq<Pixel>, avg: real)
    requires |cs| == 4
    requires Group(cs, avg, 'a', 4) != [] && Group(cs, avg, 'b', 4) != []
    ensures IsTwoGroupPattern(Pattern(cs, avg)) && Pattern(cs, avg) in MAPPING
  {
    GroupMembers(cs, avg, 'a', 4);
    GroupMembers(cs, avg, 'b', 4);
    var i :| 0 <= i < 4 && LetterOf(Brightness(cs[i]), avg) == 'a';
    var j :| 0 <= j < 4 && LetterOf(Brightness(cs[j]), avg) == 'b';
    var p := Pattern(cs, avg);
    BothLetters(p, i, j);
    MappingKeys(p);
  }

  /** What one region shows: its glyph, the colour of the darker group
      (foreground) and of the lighter group (background); a missing group
      is black. */
  datatype Quarter = Quarter(block: string, colorA: Color, colorB: Color)

  /** The choice `superify` makes for four quadrant colours.  A blank
      (only the background shows) exactly when all four are equally bright,
      and then the background is the mean of all four; otherwise the glyph
      inks exactly the quadrants darker than the mean brightness.  The
      solid-block branch is never taken. */
  function Choice(cs: seq<Pixel>): (q: Quarter)
    requires |cs| == 4
    ensures q.block != "█"
    ensures q.block == " " <==> forall k :: 0 <= k < 4 ==> Brightness(cs[k]) == Brightness(cs[0])
    ensures q.block == " " ==> q.colorA == BLACK && q.colorB == RgbOf(AverageColor2(cs).value)
    ensures q.block != " " ==>
              |q.block| == 1
              && forall k :: 0 <= k < 4 ==> (k in InkedQuadrants(q.block) <==> Brightness(cs[k]) < Average(Levels(cs)))
    ensures q.block != " " ==>
              var avg := Average(Levels(cs));
              var darker, lighter := Group(cs, avg, 'a', 4), Group(cs, avg, 'b', 4);
              darker != [] && lighter != []
              && q.colorA == RgbOf(AverageColor2(darker).value)
              && q.colorB == RgbOf(AverageColor2(lighter).value)
  {
    var avg := Average(Levels(cs));
    var ga, gb := Group(cs, avg, 'a', 4), Group(cs, avg, 'b', 4);
    var colorA := AverageColor2(ga);
    var colorB := AverageColor2(gb);
    DarkerGroupEmpty(cs);
    if colorA.None? then
      AllLighter(cs, avg);
      Quarter(" ", BLACK, RgbOf(colorB.value))
    else if colorB.None? then
      // under exact arithmetic the brightest quadrant is never below the
      // mean, so group b is never empty
      var q := Quarter("█", RgbOf(colorA.value), BLACK);
      LighterGroupNonEmpty(cs);
      assert false;
      q
    else
      PatternTotal(cs);
      MappingInks(Pattern(cs, avg));
      Quarter(MAPPING[Pattern(cs, avg)], RgbOf(colorA.value), RgbOf(colorB.value))
  }

  /** With no quadrant darker than the threshold, group 'b' is all four
      quadrants in order. */
  lemma AllLighter(cs: seq<Pixel>, avg: real)
    requires |cs| == 4 && Group(cs, avg, 'a', 4) == []
    ensures Group(cs, avg, 'b', 4) == cs
  {
    GroupMembers(cs, avg, 'a', 4);
    assert Group(cs, avg, 'b', 1) == [cs[0]];
    assert Group(cs, avg, 'b', 2) == [cs[0], cs[1]];
    assert Group(cs, avg, 'b', 3) == [cs[0], cs[1], cs[2]];
    assert Group(cs, avg, 'b', 4) == [cs[0], cs[1], cs[2], cs[3]];
  }

  /** Five items showing the choice q: group a's colour opened as
      foreground, group b's as background, the glyph, then the two closes in
      the order the tags were opened (not nested). */
  predicate ShowsQuarter(piece: seq<Item>, q: Quarter)
    requires |piece| == 5
  {
    OpensColor(piece[0], ForegroundColor, q.colorA) && OpensColor(piece[1], BackgroundColor, q.colorB)
    && piece[2] == Text(q.block)
    && piece[3] == Directive(CloseTag(piece[0].tag))
    && piece[4] == Directive(CloseTag(piece[1].tag))
  }

  /** Column pair j of a `superify` line, five items wide. */
  predicate SuperColumn(line: seq<Item>, j: nat, q: Quarter)
    requires 5 * j + 5 <= |line|
  {
    ShowsQuarter(line[5 * j .. 5 * j + 5], q)
  }
  /** A cell of uniform width that is laid out right is laid out right in
      the line. */
  lemma SuperPiece(cells: seq<seq<Item>>, j: nat, q: Quarter)
    requires forall i :: 0 <= i < |cells| ==> |cells[i]| == 5
    requires j < |cells| && ShowsQuarter(cells[j], q)
    ensures 5 * j + 5 <= |Flatten(cells)| && SuperColumn(Flatten(cells), j, q)
  {
    FlattenUniform(cells, 5);
  }

  function Cell(q: Quarter): (cell: seq<Item>)
    ensures |cell| == 5 && ShowsQuarter(cell, q)
  {
    var ta := ColorDirective(ForegroundColor, RgbToHex(q.colorA));
    var tb := ColorDirective(BackgroundColor, RgbToHex(q.colorB));
    [Directive(ta), Directive(tb), Text(q.block), Directive(CloseTag(ta)), Directive(CloseTag(tb))]
  }

  function SuperCell(img: Image, x: nat, y: nat): (cell: seq<Item>)
    requires img.Valid() && x + 1 < img.width && y + 3 < img.height
    ensures |cell| == 5 && ShowsQuarter(cell, Choice(Corners(img, x, y)))
  {
    Cell(Choice(Corners(img, x, y)))
  }

  /** The cells of the line for rows y .. y + 3, one per column pair. */
  function SuperCells(img: Image, y: nat): (cs: seq<seq<Item>>)
    requires img.Valid() && y + 3 < img.height
    ensures |cs| == img.width / 2
  {
    seq(img.width / 2, j requires 0 <= j < img.width / 2 => SuperCell(img, 2 * j, y))
  }

  /** The item lines `superify` hands to `format_func`; the palette plays no
      part. */
  function SuperLines(img: Image): (ls: seq<seq<Item>>)
    requires img.Valid()
    ensures |ls| == img.height / 4
  {
    seq(img.height / 4, k requires 0 <= k < img.height / 4 => Flatten(SuperCells(img, 4 * k)))
  }

  /** Every `superify` line has five items per column pair, and column
      pair j shows the choice for the 2x4 region at (2j, 4k). */
  lemma SuperLineShape(img: Image, k: nat)
    requires img.Valid() && k < img.height / 4
    ensures |SuperLines(img)[k]| == 5 * (img.width / 2)
    ensures forall j :: 0 <= j < img.width / 2 ==>
              SuperColumn(SuperLines(img)[k], j, Choice(Corners(img, 2 * j, 4 * k)))
  {
    var cells := SuperCells(img, 4 * k);
    FlattenUniform(cells, 5);
    forall j | 0 <= j < img.width / 2
      ensures SuperColumn(SuperLines(img)[k], j, Choice(Corners(img, 2 * j, 4 * k)))
    {
      assert cells[j] == SuperCell(img, 2 * j, 4 * k);
      SuperPiece(cells, j, Choice(Corners(img, 2 * j, 4 * k)));
    }
  }

  lemma QuarterColours(piece: seq<Item>, q: Quarter)
    requires |piece| == 5 && ShowsQuarter(piece, q)
    ensures ColourItems(piece)
  {
  }

  /** A `superify` line holds only text and colour directives. */
  lemma SuperLinesColours(img: Image, k: nat)
    requires img.Valid() && k < img.height / 4
    ensures ColourItems(SuperLines(img)[k])
  {
    var cells := SuperCells(img, 4 * k);
    forall j | 0 <= j < |cells|
      ensures ColourItems(cells[j])
    {
      assert cells[j] == SuperCell(img, 2 * j, 4 * k);
      QuarterColours(cells[j], Choice(Corners(img, 2 * j, 4 * k)));
    }
    FlattenColourItems(cells);
  }

  /** The loop that sorts the quadrants into group a and group b and records
      each colour's letter in `groups`. */
  method SplitGroups(cs: seq<Pixel>, levels: seq<real>, avg: real)
    returns (groupA: seq<Pixel>, groupB: seq<Pixel>, groups: map<Pixel, char>)
    requires |levels| == |cs| && forall k :: 0 <= k < |cs| ==> levels[k] == Brightness(cs[k])
    ensures groupA == Group(cs, avg, 'a', |cs|) && groupB == Group(cs, avg, 'b', |cs|)
    ensures forall k :: 0 <= k < |cs| ==> cs[k] in groups && groups[cs[k]] == LetterOf(levels[k], avg)
  {
    groupA, groupB, groups := [], [], map[];
    var i := 0;
    while i < |cs|
      invariant 0 <= i <= |cs|
      invariant groupA == Group(cs, avg, 'a', i) && groupB == Group(cs, avg, 'b', i)
      invariant forall k :: 0 <= k < i ==> cs[k] in groups
      // a colour's letter depends on the colour alone, so overwriting an
      // entry for a repeated colour keeps it
      invariant forall c :: c in groups ==> groups[c] == LetterOf(Brightness(c), avg)
    {
      var color := cs[i];
      var letter;
      if levels[i] < avg {
        groupA, letter := groupA + [color], 'a';
      } else {
        groupB, letter := groupB + [color], 'b';
      }
      groups := groups[color := letter];
      i := i + 1;
    }
  }

  /** The body of the inner loop of `superify` for the region at (x, y). */
  method SuperBlock(img: Image, x: nat, y: nat) returns (cell: seq<Item>)
    requires img.Valid() && x + 1 < img.width && y + 3 < img.height
    ensures cell == SuperCell(img, x, y)
  {
    var corners := Corners(img, x, y);
    var levels := Levels(corners);
    var averageLevel := Average(levels);
    var groupA, groupB, groups := SplitGroups(corners, levels, averageLevel);
    var colorA := AverageColor2(groupA);
    var colorB := AverageColor2(groupB);
    var block, a, b;
    if colorA.None? {
      block, a, b := " ", BLACK, RgbOf(colorB.value);
    } else if colorB.None? {
      block, a, b := "█", RgbOf(colorA.value), BLACK;
    } else {
      var pattern := seq(4, i requires 0 <= i < 4 => groups[corners[i]]);
      assert pattern == Pattern(corners, averageLevel);
      PatternTotal(corners);
      block, a, b := MAPPING[pattern], RgbOf(colorA.value), RgbOf(colorB.value);
    }
    var ta := ColorDirective(ForegroundColor, RgbToHex(a));
    var tb := ColorDirective(BackgroundColor, RgbToHex(b));
    cell := [Directive(ta), Directive(tb), Text(block), Directive(CloseTag(ta)), Directive(CloseTag(tb))];
  }

  /** The inner loop of `superify`: the line for pixel rows y .. y + 3. */
  method SuperLine(img: Image, y: nat) returns (line: seq<Item>)
    requires img.Valid() && y + 3 < img.height
    ensures line == Flatten(SuperCells(img, y))
  {
    ghost var cells := SuperCells(img, y);
    line := [];
    var x := 0;
    ghost var j := 0;
    assert img.width - img.width % 2 == 2 * |cells|;
    while x < img.width - img.width % 2
      invariant x == 2 * j && j <= |cells|
      invariant line == Flatten(cells[..j])
    {
      assert j < |cells| && x + 1 < img.width;
      var cell := SuperBlock(img, x, y);
      FlattenPrefix(cells, j);
      line := line + cell;
      x, j := x + 2, j + 1;
    }
    assert cells[..j] == cells;
  }

  /** `superify`: one formatted line per four pixel rows, one glyph per two
      pixel columns; a trailing partial region is dropped.  The palette is
      accepted and ignored. */
  method Superify(img: Image, palette: Palette, format: seq<Item> -> string) returns (lines: seq<string>)
    requires img.Valid()
    ensures lines == FormatLines(format, SuperLines(img))
  {
    ghost var all := SuperLines(img);
    lines := [];
    var y := 0;
    ghost var k := 0;
    assert img.height - img.height % 4 == 4 * |all|;
    while y < img.height - img.height % 4
      invariant y == 4 * k && k <= |all|
      invariant lines == FormatLines(format, all[..k])
    {
      var line := SuperLine(img, y);
      FormatLinesPrefix(format, all, k);
      lines := lines + [format(line)];
      y, k := y + 4, k + 1;
    }
    assert all[..k] == all;
  }
}
