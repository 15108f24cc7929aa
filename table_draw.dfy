/** `draw_table` of `poc/mono/drawing/tables.py`: multi-line cell contents
    laid out in columns and rows, framed by junction glyphs looked up in the
    `lines` table. */
module TableDraw {
  import opened Results
  import opened Formatting
  import opened TableCells

  /** The junction table `lines`: one glyph for the styles of the segments
      that meet at a point, keyed by a 4-tuple of styles.  Its contents are
      not part of this model; every key has a glyph. */
  type Glyphs = ((Style, Style, Style, Style)) -> char

  // ---------------------------------------------------------------------
  // str.splitlines

  /** The characters `str.splitlines` breaks at. */
  predicate IsLineBreak(c: char)
  {
    c in {'\n', '\r', '\U{0B}', '\U{0C}', '\U{1C}', '\U{1D}', '\U{1E}', '\U{85}', '\U{2028}', '\U{2029}'}
  }

  /** The position of the first line break, or |s| when there is none. */
  function FirstBreak(s: string): (i: nat)
    ensures i <= |s| && (i < |s| ==> IsLineBreak(s[i]))
    ensures forall j :: 0 <= j < i ==> !IsLineBreak(s[j])
  {
    if s == "" || IsLineBreak(s[0]) then 0 else 1 + FirstBreak(s[1..])
  }

  /** `s.splitlines()`: the lines of s without their breaks, "\r\n" counting
      as one break; a final break does not start an empty line. */
  function SplitLines(s: string): (ls: seq<string>)
    ensures ls == [] <==> s == ""
    ensures forall k :: 0 <= k < |ls| ==> forall j :: 0 <= j < |ls[k]| ==> !IsLineBreak(ls[k][j])
    decreases |s|
  {
    if s == "" then []
    else
      var i := FirstBreak(s);
      if i == |s| then [s]
      else
        [s[..i]] + SplitLines(s[i + BreakLength(s, i)..])
  }

  /** The length of the break at position i: two for "\r\n", else one. */
  function BreakLength(s: string, i: nat): nat
    requires i < |s|
  {
    if s[i] == '\r' && i + 1 < |s| && s[i + 1] == '\n' then 2 else 1
  }

  /** The break that ends each line of `s.splitlines()`, the part that
      `splitlines(keepends=True)` keeps: a break character, "\r\n", or
      nothing after a last line that has none. */
  function LineEnds(s: string): seq<string>
    decreases |s|
  {
    if s == "" then []
    else
      var i := FirstBreak(s);
      if i == |s| then [""]
      else [s[i..i + BreakLength(s, i)]] + LineEnds(s[i + BreakLength(s, i)..])
  }

  predicate IsBreak(e: string)
  {
    (|e| == 1 && IsLineBreak(e[0])) || e == "\r\n"
  }

  /** Each line followed by the break that ended it. */
  function Rejoin(ls: seq<string>, es: seq<string>): string
    requires |ls| == |es|
  {
    if ls == [] then "" else ls[0] + es[0] + Rejoin(ls[1..], es[1..])
  }

  /** The break at a line-break character is a break. */
  lemma {:induction false} BreakAt(s: string, i: nat)
    requires i < |s| && IsLineBreak(s[i])
    ensures IsBreak(s[i..i + BreakLength(s, i)])
  {
    var e := s[i..i + BreakLength(s, i)];
    if BreakLength(s, i) == 2 {
      assert e[0] == '\r' && e[1] == '\n';
      assert e == "\r\n";
    } else {
      assert e[0] == s[i];
    }
  }

  lemma {:induction false} SplitLinesStep(s: string)
    requires s != "" && FirstBreak(s) < |s|
    ensures SplitLines(s) == [s[..FirstBreak(s)]] + SplitLines(s[FirstBreak(s) + BreakLength(s, FirstBreak(s))..])
  {
  }

  lemma {:induction false} LineEndsStep(s: string)
    requires s != "" && FirstBreak(s) < |s|
    ensures var i := FirstBreak(s);
      LineEnds(s) == [s[i..i + BreakLength(s, i)]] + LineEnds(s[i + BreakLength(s, i)..])
  {
  }

  lemma Cut3(s: string, i: nat, j: nat)
    requires i <= j <= |s|
    ensures s == s[..i] + s[i..j] + s[j..]
  {
    assert s[..i] + s[i..j] == s[..j];
  }

  lemma {:induction false} RejoinCons(l: string, e: string, ls: seq<string>, es: seq<string>)
    requires |ls| == |es|
    ensures Rejoin([l] + ls, [e] + es) == l + e + Rejoin(ls, es)
  {
    assert ([l] + ls)[1..] == ls && ([e] + es)[1..] == es;
  }

  /** Every line but the last ended at a break; the last ended at one or at
      the end of the text. */
  predicate EndsAreBreaks(es: seq<string>)
  {
    (forall k :: 0 <= k < |es| - 1 ==> IsBreak(es[k]))
    && (es != [] ==> IsBreak(es[|es| - 1]) || es[|es| - 1] == "")
  }

  lemma BreaksCons(e: string, es: seq<string>)
    requires IsBreak(e) && EndsAreBreaks(es)
    ensures EndsAreBreaks([e] + es)
  {
    var es' := [e] + es;
    forall k | 1 <= k < |es'| ensures es'[k] == es[k - 1] { }
  }

  lemma {:induction false} LineEndsLength(s: string)
    ensures |LineEnds(s)| == |SplitLines(s)|
    decreases |s|
  {
    if s != "" && FirstBreak(s) < |s| {
      var i := FirstBreak(s);
      SplitLinesStep(s);
      LineEndsStep(s);
      LineEndsLength(s[i + BreakLength(s, i)..]);
    }
  }

  lemma {:induction false} LineEndsBreaks(s: string)
    ensures EndsAreBreaks(LineEnds(s))
    decreases |s|
  {
    if s != "" && FirstBreak(s) < |s| {
      var i := FirstBreak(s);
      LineEndsStep(s);
      BreakAt(s, i);
      LineEndsBreaks(s[i + BreakLength(s, i)..]);
      BreaksCons(s[i..i + BreakLength(s, i)], LineEnds(s[i + BreakLength(s, i)..]));
    }
  }

  /** `s.splitlines()` loses only the breaks: every line but the last ended
      at a break, and the lines with their breaks put back give s. */
  lemma {:induction false} SplitLinesRejoin(s: string)
    ensures |LineEnds(s)| == |SplitLines(s)|
    ensures Rejoin(SplitLines(s), LineEnds(s)) == s
    ensures EndsAreBreaks(LineEnds(s))
    decreases |s|
  {
    LineEndsLength(s);
    LineEndsBreaks(s);
    if s != "" && FirstBreak(s) < |s| {
      var i := FirstBreak(s);
      var n := BreakLength(s, i);
      var rest := s[i + n..];
      SplitLinesStep(s);
      LineEndsStep(s);
      SplitLinesRejoin(rest);
      LineEndsLength(rest);
      RejoinCons(s[..i], s[i..i + n], SplitLines(rest), LineEnds(rest));
      Cut3(s, i, i + n);
    }
  }

  // ---------------------------------------------------------------------
  // Column widths and row heights

  /** Python's max() of a non-empty sequence. */
  function Max(s: seq<nat>): (m: nat)
    requires s != []
    ensures m in s && forall i :: 0 <= i < |s| ==> s[i] <= m
  {
    if |s| == 1 then s[0]
    else
      var m := Max(s[..|s| - 1]);
      assert forall i :: 0 <= i < |s| - 1 ==> s[..|s| - 1][i] == s[i];
      if s[|s| - 1] > m then s[|s| - 1] else m
  }

  /** `[[e.splitlines() for e in l] for l in contents]`. */
  function SplitContents(contents: seq<seq<string>>): (t: seq<seq<seq<string>>>)
    ensures |t| == |contents|
    ensures forall y :: 0 <= y < |t| ==> |t[y]| == |contents[y]|
    ensures forall y, x :: 0 <= y < |t| && 0 <= x < |t[y]| ==> t[y][x] == SplitLines(contents[y][x])
  {
    seq(|contents|, y requires 0 <= y < |contents| =>
      seq(|contents[y]|, x requires 0 <= x < |contents[y]| => SplitLines(contents[y][x])))
  }

  /** Every cell of the contents has a line, so `lengths` can take maxima. */
  predicate EveryCellHasLines(t: seq<seq<seq<string>>>)
  {
    forall y, x :: 0 <= y < |t| && 0 <= x < |t[y]| ==> t[y][x] != []
  }

  /** Every row of the contents has a cell, so `heights` can take maxima. */
  predicate EveryRowHasCells(t: seq<seq<seq<string>>>)
  {
    forall y :: 0 <= y < |t| ==> t[y] != []
  }

  /** `lengths`: the longest line of every cell. */
  function Lengths(t: seq<seq<seq<string>>>): (ls: seq<seq<nat>>)
    requires EveryCellHasLines(t)
    ensures |ls| == |t| && forall y :: 0 <= y < |t| ==> |ls[y]| == |t[y]|
    ensures forall y, x, i :: 0 <= y < |t| && 0 <= x < |t[y]| && 0 <= i < |t[y][x]| ==> |t[y][x][i]| <= ls[y][x]
  {
    var ls := seq(|t|, y requires 0 <= y < |t| =>
                seq(|t[y]|, x requires 0 <= x < |t[y]| => LongestLine(t[y][x])));
    assert forall y, x, i :: 0 <= y < |t| && 0 <= x < |t[y]| && 0 <= i < |t[y][x]| ==> |t[y][x][i]| <= ls[y][x] by {
      forall y, x, i | 0 <= y < |t| && 0 <= x < |t[y]| && 0 <= i < |t[y][x]| ensures |t[y][x][i]| <= ls[y][x] {
        LongestLineBound(t[y][x], i);
      }
    }
    ls
  }

  /** Each cell's length is reached: it is the length of one of its lines,
      so `lengths` holds maxima and not merely bounds. */
  lemma LengthsReached(t: seq<seq<seq<string>>>)
    requires EveryCellHasLines(t)
    ensures forall y, x :: 0 <= y < |t| && 0 <= x < |t[y]| ==> SomeLineHasLength(t[y][x], Lengths(t)[y][x])
  {
    var ls := Lengths(t);
    forall y, x | 0 <= y < |t| && 0 <= x < |t[y]| ensures SomeLineHasLength(t[y][x], ls[y][x]) {
      LongestLineReached(t[y][x]);
    }
  }

  /** `max(len(s) for s in e)`. */
  function LongestLine(e: seq<string>): nat
    requires e != []
  {
    Max(seq(|e|, i requires 0 <= i < |e| => |e[i]|))
  }

  lemma LongestLineBound(e: seq<string>, i: nat)
    requires i < |e|
    ensures |e[i]| <= LongestLine(e)
  {
    var lens := seq(|e|, i requires 0 <= i < |e| => |e[i]|);
    assert lens[i] == |e[i]|;
  }

  predicate SomeLineHasLength(e: seq<string>, n: nat)
  {
    exists i :: 0 <= i < |e| && |e[i]| == n
  }

  lemma LongestLineReached(e: seq<string>)
    requires e != []
    ensures SomeLineHasLength(e, LongestLine(e))
  {
    var lens := seq(|e|, i requires 0 <= i < |e| => |e[i]|);
    var i :| 0 <= i < |lens| && lens[i] == LongestLine(e);
    assert |e[i]| == LongestLine(e);
  }

  /** The length of `zip(*rows)`: that of the shortest row, none without
      rows. */
  function ZipLength<T>(rows: seq<seq<T>>): (n: nat)
    ensures forall y :: 0 <= y < |rows| ==> n <= |rows[y]|
    ensures |rows| > 0 ==> exists y :: 0 <= y < |rows| && n == |rows[y]|
  {
    if rows == [] then 0
    else if |rows| == 1 then |rows[0]|
    else
      var n := ZipLength(rows[1..]);
      assert forall y :: 1 <= y < |rows| ==> rows[1..][y - 1] == rows[y];
      if |rows[0]| < n then |rows[0]| else n
  }

  /** `widths`: per column of `zip(*lengths)`, the longest line in it. */
  function Widths(lengths: seq<seq<nat>>): (ws: seq<nat>)
    ensures |ws| == ZipLength(lengths)
    ensures forall y, x :: 0 <= y < |lengths| && 0 <= x < |ws| ==> lengths[y][x] <= ws[x]
    ensures forall x :: 0 <= x < |ws| ==> exists y :: 0 <= y < |lengths| && lengths[y][x] == ws[x]
  {
    var n := ZipLength(lengths);
    var ws := seq(n, x requires 0 <= x < n => Max(Column(lengths, x)));
    forall y, x | 0 <= y < |lengths| && 0 <= x < n ensures lengths[y][x] <= ws[x] {
      assert Column(lengths, x)[y] == lengths[y][x];
    }
    forall x | 0 <= x < n ensures exists y :: 0 <= y < |lengths| && lengths[y][x] == ws[x] {
      var c := Column(lengths, x);
      assert ws[x] in c;
      var y :| 0 <= y < |c| && c[y] == ws[x];
      assert lengths[y][x] == ws[x];
    }
    ws
  }

  /** Column x of `zip(*rows)`. */
  function Column(rows: seq<seq<nat>>, x: nat): (c: seq<nat>)
    requires rows != [] && x < ZipLength(rows)
    ensures |c| == |rows| && forall y :: 0 <= y < |rows| ==> c[y] == rows[y][x]
  {
    seq(|rows|, y requires 0 <= y < |rows| => rows[y][x])
  }

  /** `heights`: per row of the contents, the line count of its tallest
      cell. */
  function Heights(t: seq<seq<seq<string>>>): (hs: seq<nat>)
    requires EveryRowHasCells(t)
    ensures |hs| == |t|
    ensures forall y, x :: 0 <= y < |t| && 0 <= x < |t[y]| ==> |t[y][x]| <= hs[y]
    ensures forall y :: 0 <= y < |t| ==> hs[y] in LineCounts(t[y])
  {
    var hs := seq(|t|, y requires 0 <= y < |t| => Max(LineCounts(t[y])));
    forall y, x | 0 <= y < |t| && 0 <= x < |t[y]| ensures |t[y][x]| <= hs[y] {
      assert LineCounts(t[y])[x] == |t[y][x]|;
    }
    hs
  }

  /** The line counts of the cells of one row. */
  function LineCounts(row: seq<seq<string>>): (c: seq<nat>)
    ensures |c| == |row| && forall x :: 0 <= x < |row| ==> c[x] == |row[x]|
  {
    seq(|row|, x requires 0 <= x < |row| => |row[x]|)
  }

  // ---------------------------------------------------------------------
  // The layout and the lines it produces

  /** What `draw_table` has computed before its loops: the styles of the
      cells, the split contents, the column widths and the row heights. */
  datatype Layout = Layout(styles: seq<seq<Node<Style>>>, text: seq<seq<seq<string>>>,
                           widths: seq<nat>, heights: seq<nat>)
  {
    /** Every index the loops use exists, every row has a line and no line
        is wider than its column. */
    predicate Valid()
    {
      |styles| > 0 && Rectangular(styles)
      && |text| >= |styles| && |heights| >= |styles| && |widths| >= |styles[0]|
      && (forall y :: 0 <= y < |styles| ==> |text[y]| >= |styles[0]| && heights[y] >= 1)
      && forall y, x, i :: 0 <= y < |styles| && 0 <= x < |styles[0]| && 0 <= i < |text[y][x]| ==>
           |text[y][x][i]| <= widths[x]
    }

    function Height(): nat
    {
      |styles|
    }

    function Width(): nat
      requires |styles| > 0
    {
      |styles[0]|
    }
  }

  function Repeat(n: nat, c: char): (s: string)
    ensures |s| == n && forall i :: 0 <= i < n ==> s[i] == c
  {
    seq(n, _ => c)
  }

  /** `s.ljust(width)`: s padded with spaces to `width` characters. */
  function LJust(s: string, width: nat): (r: string)
    ensures |r| == (if |s| < width then width else |s|)
    ensures r[..|s|] == s && forall i :: |s| <= i < |r| ==> r[i] == ' '
  {
    if |s| < width then s + Repeat(width - |s|, ' ') else s
  }

  /** The text of cell (x, y) on content line cy, padded to the column width;
      blank when the cell has fewer lines. */
  function ContentText(L: Layout, y: nat, cy: nat, x: nat): string
    requires L.Valid() && y < L.Height() && x < L.Width()
  {
    if cy < |L.text[y][x]| then LJust(L.text[y][x][cy], L.widths[x]) else Repeat(L.widths[x], ' ')
  }

  /** What the top border gains at cell (x, y): the junction at its top-left
      corner, its top edge over the content and two margins, and for the last
      column the top-right junction. */
  function TopPiece(L: Layout, lines: Glyphs, y: nat, x: nat): string
    requires L.Valid() && y < L.Height() && x < L.Width()
  {
    var s, n := L.styles[y][x], NeighbourStyles(L.styles, y, x);
    var piece := [lines((n.left.top, n.top.left, s.top, s.left))] + Repeat(2 + L.widths[x], lines((s.top, Empty, s.top, Empty)));
    if x == L.Width() - 1 then piece + [lines((s.top, n.top.right, Empty, s.right))] else piece
  }

  /** What content line cy gains at cell (x, y): the left edge, the text with
      a space either side, and for the last column the right edge. */
  function MiddlePiece(L: Layout, lines: Glyphs, y: nat, cy: nat, x: nat): string
    requires L.Valid() && y < L.Height() && x < L.Width()
  {
    var s := L.styles[y][x];
    var piece := [lines((Empty, s.left, Empty, s.left))] + " " + ContentText(L, y, cy, x) + " ";
    if x == L.Width() - 1 then piece + [lines((Empty, s.right, Empty, s.right))] else piece
  }

  /** What the bottom border gains at cell (x, y) of the last row. */
  function BottomPiece(L: Layout, lines: Glyphs, y: nat, x: nat): string
    requires L.Valid() && y < L.Height() && x < L.Width()
  {
    var s, n := L.styles[y][x], NeighbourStyles(L.styles, y, x);
    var piece := [lines((n.left.bottom, s.left, s.bottom, Empty))] + Repeat(2 + L.widths[x], lines((s.bottom, Empty, s.bottom, Empty)));
    if x == L.Width() - 1 then piece + [lines((s.bottom, s.right, Empty, Empty))] else piece
  }

  function TopPieces(L: Layout, lines: Glyphs, y: nat): (ps: seq<string>)
    requires L.Valid() && y < L.Height()
    ensures |ps| == L.Width()
  {
    seq(L.Width(), x requires 0 <= x < L.Width() => TopPiece(L, lines, y, x))
  }

  function MiddlePieces(L: Layout, lines: Glyphs, y: nat, cy: nat): (ps: seq<string>)
    requires L.Valid() && y < L.Height()
    ensures |ps| == L.Width()
  {
    seq(L.Width(), x requires 0 <= x < L.Width() => MiddlePiece(L, lines, y, cy, x))
  }

  function BottomPieces(L: Layout, lines: Glyphs, y: nat): (ps: seq<string>)
    requires L.Valid() && y < L.Height()
    ensures |ps| == L.Width()
  {
    seq(L.Width(), x requires 0 <= x < L.Width() => BottomPiece(L, lines, y, x))
  }

  function TopLine(L: Layout, lines: Glyphs, y: nat): string
    requires L.Valid() && y < L.Height()
  {
    Flatten(TopPieces(L, lines, y))
  }

  function MiddleLine(L: Layout, lines: Glyphs, y: nat, cy: nat): string
    requires L.Valid() && y < L.Height()
  {
    Flatten(MiddlePieces(L, lines, y, cy))
  }

  function BottomLine(L: Layout, lines: Glyphs, y: nat): string
    requires L.Valid() && y < L.Height()
  {
    Flatten(BottomPieces(L, lines, y))
  }

  /** The top border as written for content line cy of row y: only the
      first content line has one. */
  function TopBorder(L: Layout, lines: Glyphs, y: nat, cy: nat): string
    requires L.Valid() && y < L.Height()
  {
    if cy == 0 then TopLine(L, lines, y) else ""
  }

  /** The bottom border as written for content line cy of row y: only the
      last content line of the last row has one. */
  function BottomBorder(L: Layout, lines: Glyphs, y: nat, cy: nat): string
    requires L.Valid() && y < L.Height()
  {
    if y == L.Height() - 1 && cy == L.heights[y] - 1 then BottomLine(L, lines, y) else ""
  }

  /** The lines one pass appends: an empty border is skipped, the content
      line never is. */
  function Appended(top: string, middle: string, bottom: string): seq<string>
  {
    (if top != "" then [top] else []) + [middle] + (if bottom != "" then [bottom] else [])
  }

  /** The lines appended for content line cy of row y. */
  function Step(L: Layout, lines: Glyphs, y: nat, cy: nat): seq<string>
    requires L.Valid() && y < L.Height()
  {
    Appended(TopBorder(L, lines, y, cy), MiddleLine(L, lines, y, cy), BottomBorder(L, lines, y, cy))
  }

  function Steps(L: Layout, lines: Glyphs, y: nat): (ss: seq<seq<string>>)
    requires L.Valid() && y < L.Height()
    ensures |ss| == L.heights[y]
  {
    seq(L.heights[y], cy requires 0 <= cy < L.heights[y] => Step(L, lines, y, cy))
  }

  /** The lines of grid row y. */
  function RowLines(L: Layout, lines: Glyphs, y: nat): seq<string>
    requires L.Valid() && y < L.Height()
  {
    Flatten(Steps(L, lines, y))
  }

  function Rows(L: Layout, lines: Glyphs): (rs: seq<seq<string>>)
    requires L.Valid()
    ensures |rs| == L.Height()
  {
    seq(L.Height(), y requires 0 <= y < L.Height() => RowLines(L, lines, y))
  }

  /** All lines of the table, row after row. */
  function TableLines(L: Layout, lines: Glyphs): seq<string>
    requires L.Valid()
  {
    Flatten(Rows(L, lines))
  }

  /** The styles of a grid in which Cell.make made every cell. */
  function Unwrapped(g: seq<seq<Option<Node<Style>>>>): (s: seq<seq<Node<Style>>>)
    requires |g| > 0 && Rectangular(g)
    requires forall y, x :: 0 <= y < |g| && 0 <= x < |g[0]| ==> g[y][x].Some?
    ensures |s| == |g| && Rectangular(s) && |s[0]| == |g[0]|
    ensures forall y, x :: 0 <= y < |g| && 0 <= x < |g[0]| ==> s[y][x] == g[y][x].value
  {
    seq(|g|, y requires 0 <= y < |g| => seq(|g[0]|, x requires 0 <= x < |g[0]| => g[y][x].value))
  }

  /** The outcome of `draw_table(formats, contents)`: the failures of
      make_cell_grid, or what the drawing loops make of its grid. */
  function DrawTableSpec(formats: seq<seq<string>>, contents: seq<seq<string>>, lines: Glyphs)
    : (r: Result<seq<string>, Error>)
    ensures |formats| > 0 && !Rectangular(formats) ==> r == Failure(AssertionError)
  {
    match GridStyles(formats)
    case Failure(e) => Failure(e)
    case Success(g) => DrawGridSpec(g, contents, lines)
  }

  /** The drawing loops over a grid with styles g.  The failures, in the
      order Python meets them: ValueError when a cell has no lines or a row
      of the contents has no cells (max() of nothing); IndexError when the
      contents have fewer rows than the grid; AttributeError for a cell
      Cell.make did not make; IndexError when the contents have fewer
      columns than the grid. */
  function DrawGridSpec(g: seq<seq<Option<Node<Style>>>>, contents: seq<seq<string>>, lines: Glyphs)
    : (r: Result<seq<string>, Error>)
    requires |g| > 0 && Rectangular(g)
  {
    var text := SplitContents(contents);
    if !EveryCellHasLines(text) || !EveryRowHasCells(text) then Failure(ValueError)
    else
      var widths, heights := Widths(Lengths(text)), Heights(text);
      var height, width := |g|, |g[0]|;
      if |text| < height then Failure(IndexError)
      else if exists y, x :: 0 <= y < height && 0 <= x < width && g[y][x].None? then Failure(AttributeError)
      else if width > 0 && |widths| < width then Failure(IndexError)
      else
        var L := Layout(Unwrapped(g), text, widths, heights);
        LayoutValid(L);
        Success(TableLines(L, lines))
  }

  /** The layout draw_table computes is one its loops can walk. */
  lemma LayoutValid(L: Layout)
    requires |L.styles| > 0 && Rectangular(L.styles)
    requires EveryCellHasLines(L.text) && EveryRowHasCells(L.text)
    requires L.widths == Widths(Lengths(L.text)) && L.heights == Heights(L.text)
    requires |L.text| >= |L.styles| && (|L.styles[0]| > 0 ==> |L.widths| >= |L.styles[0]|)
    ensures L.Valid()
  {
    var t, w := L.text, |L.styles[0]|;
    forall y | 0 <= y < |L.styles| ensures |t[y]| >= w && L.heights[y] >= 1 {
      assert |t[y][0]| >= 1;
    }
    var lengths := Lengths(t);
    forall y, x, i | 0 <= y < |L.styles| && 0 <= x < w && 0 <= i < |t[y][x]|
      ensures |t[y][x][i]| <= L.widths[x]
    {
      assert |t[y][x][i]| <= lengths[y][x];
    }
  }

  /** The grid make_cell_grid built is the one the layout describes:
      every cell is there, carries the layout's styles and is linked to its
      neighbours. */
  ghost predicate Drawable(cells: seq<seq<Cell?>>, L: Layout)
    reads Objects(cells)
  {
    L.Valid() && NeighboursLinked(cells) && |cells| == L.Height() && |cells[0]| == L.Width()
    && forall j, i :: 0 <= j < |cells| && 0 <= i < |cells[0]| ==>
         cells[j][i] != null && cells[j][i].styles == L.styles[j][i]
  }

  /** The body of the innermost loop of `draw_table` for cell (x, y) on
      content line cy: what it adds to the top border, the content line and
      the bottom border, reading the cell's styles and those of its
      neighbours through the links make_cell_grid set. */
  method DrawCell(cells: seq<seq<Cell?>>, text: seq<seq<seq<string>>>, widths: seq<nat>, heights: seq<nat>,
                  lines: Glyphs, y: nat, cy: nat, x: nat, ghost L: Layout)
    returns (top: string, middle: string, bottom: string)
    requires Drawable(cells, L) && L.text == text && L.widths == widths && L.heights == heights
    requires y < L.Height() && x < L.Width()
    ensures top == (if cy == 0 then TopPiece(L, lines, y, x) else "")
    ensures middle == MiddlePiece(L, lines, y, cy, x)
    ensures bottom == (if y == L.Height() - 1 && cy == heights[y] - 1 then BottomPiece(L, lines, y, x) else "")
  {
    var height, width := |cells|, |cells[0]|;
    var cell := cells[y][x];
    var s := cell.styles;
    var l, t := StylesOf(cell.neighbours.left), StylesOf(cell.neighbours.top);
    NeighbourStylesAt(cells, L.styles, y, x);
    var contentWidth := widths[x];
    var contentString := if cy < |text[y][x]| then LJust(text[y][x][cy], contentWidth) else Repeat(contentWidth, ' ');
    ghost var n := NeighbourStyles(L.styles, y, x);
    assert s == L.styles[y][x] && l == n.left && t == n.top;
    assert contentString == ContentText(L, y, cy, x);
    top, middle, bottom := "", "", "";
    if cy == 0 {
      top := [lines((l.top, t.left, s.top, s.left))] + Repeat(2 + contentWidth, lines((s.top, Empty, s.top, Empty)));
      if x == width - 1 {
        top := top + [lines((s.top, t.right, Empty, s.right))];
      }
    }
    middle := [lines((Empty, s.left, Empty, s.left))] + " " + contentString + " ";
    if x == width - 1 {
      middle := middle + [lines((Empty, s.right, Empty, s.right))];
    }
    if y == height - 1 && cy == heights[y] - 1 {
      bottom := [lines((l.bottom, s.left, s.bottom, Empty))] + Repeat(2 + contentWidth, lines((s.bottom, Empty, s.bottom, Empty)));
      if x == width - 1 {
        bottom := bottom + [lines((s.bottom, s.right, Empty, Empty))];
      }
    }
  }

  /** The innermost loop of `draw_table`, over the cells of row y for
      content line cy. */
  method DrawLine(cells: seq<seq<Cell?>>, text: seq<seq<seq<string>>>, widths: seq<nat>, heights: seq<nat>,
                  lines: Glyphs, y: nat, cy: nat, ghost L: Layout)
    returns (top: string, middle: string, bottom: string)
    requires Drawable(cells, L) && L.text == text && L.widths == widths && L.heights == heights
    requires y < L.Height()
    ensures top == TopBorder(L, lines, y, cy)
    ensures middle == MiddleLine(L, lines, y, cy)
    ensures bottom == BottomBorder(L, lines, y, cy)
  {
    var width := |cells[0]|;
    ghost var tops, middles, bottoms := TopPieces(L, lines, y), MiddlePieces(L, lines, y, cy), BottomPieces(L, lines, y);
    ghost var lastLine := y == L.Height() - 1 && cy == heights[y] - 1;
    top, middle, bottom := "", "", "";
    for x := 0 to width
      invariant top == (if cy == 0 then Flatten(tops[..x]) else "")
      invariant middle == Flatten(middles[..x])
      invariant bottom == (if lastLine then Flatten(bottoms[..x]) else "")
    {
      var t, m, b := DrawCell(cells, text, widths, heights, lines, y, cy, x, L);
      top, middle, bottom := top + t, middle + m, bottom + b;
      FlattenPrefix(tops, x);
      FlattenPrefix(middles, x);
      FlattenPrefix(bottoms, x);
    }
    assert tops[..width] == tops && middles[..width] == middles && bottoms[..width] == bottoms;
  }

  /** The appends of one pass of the middle loop: empty borders are
      skipped, the content line never is. */
  method AppendLines(result: seq<string>, top: string, middle: string, bottom: string)
    returns (appended: seq<string>)
    ensures appended == result + Appended(top, middle, bottom)
  {
    appended := result;
    if top != "" {
      appended := appended + [top];
    }
    appended := appended + [middle];
    if bottom != "" {
      appended := appended + [bottom];
    }
  }

  /** The middle loop of `draw_table`: for every content line of row y,
      the lines it appends (the non-empty top border, the content line and
      the non-empty bottom border). */
  method DrawRow(cells: seq<seq<Cell?>>, text: seq<seq<seq<string>>>, widths: seq<nat>, heights: seq<nat>,
                 lines: Glyphs, y: nat, ghost L: Layout)
    returns (rowLines: seq<string>)
    requires Drawable(cells, L) && L.text == text && L.widths == widths && L.heights == heights
    requires y < L.Height()
    ensures rowLines == RowLines(L, lines, y)
  {
    ghost var steps := Steps(L, lines, y);
    rowLines := [];
    for cy := 0 to heights[y]
      invariant rowLines == Flatten(steps[..cy])
    {
      var top, middle, bottom := DrawLine(cells, text, widths, heights, lines, y, cy, L);
      ghost var before := rowLines;
      rowLines := AppendLines(rowLines, top, middle, bottom);
      assert rowLines == before + steps[cy];
      FlattenPrefix(steps, cy);
    }
    assert steps[..heights[y]] == steps;
  }

  /** The outer loop of `draw_table`, row after row. */
  method DrawRows(cells: seq<seq<Cell?>>, text: seq<seq<seq<string>>>, widths: seq<nat>, heights: seq<nat>,
                  lines: Glyphs, ghost L: Layout)
    returns (result: seq<string>)
    requires Drawable(cells, L) && L.text == text && L.widths == widths && L.heights == heights
    ensures result == TableLines(L, lines)
  {
    ghost var rows := Rows(L, lines);
    result := [];
    for y := 0 to |cells|
      invariant result == Flatten(rows[..y])
    {
      var rowLines := DrawRow(cells, text, widths, heights, lines, y, L);
      result := result + rowLines;
      FlattenPrefix(rows, y);
    }
    assert rows[..|cells|] == rows;
  }

  /** A grid make_cell_grid built without a missing cell is the one the
      layout over its styles describes. */
  lemma GridDrawable(cells: seq<seq<Cell?>>, g: seq<seq<Option<Node<Style>>>>, L: Layout)
    requires |g| > 0 && Rectangular(g) && CellsMatch(cells, g) && NeighboursLinked(cells)
    requires forall y, x :: 0 <= y < |cells| && 0 <= x < |cells[0]| ==> cells[y][x] != null
    requires L.Valid() && L.styles == Unwrapped(g)
    ensures Drawable(cells, L)
  {
  }

  /** `draw_table(formats, contents)`.  Python raises its exceptions inside
      the loops, before anything is returned; the model checks the same
      conditions before the loops, which gives the same outcome. */
  method DrawTable(formats: seq<seq<string>>, contents: seq<seq<string>>, lines: Glyphs)
    returns (r: Result<seq<string>, Error>)
    ensures r == DrawTableSpec(formats, contents, lines)
  {
    var grid := MakeCellGrid(formats);
    if grid.Failure? {
      return Failure(grid.error);
    }
    r := DrawGrid(grid.value, GridStyles(formats).value, contents, lines);
  }

  /** No cell object is missing, so every node of the grid is there. */
  lemma AllPresent(cells: seq<seq<Cell?>>, g: seq<seq<Option<Node<Style>>>>)
    requires |g| > 0 && Rectangular(g) && CellsMatch(cells, g)
    requires !exists y, x :: 0 <= y < |g| && 0 <= x < |g[0]| && cells[y][x] == null
    ensures forall y, x :: 0 <= y < |g| && 0 <= x < |g[0]| ==> g[y][x].Some?
  {
  }

  /** When every check passes, the drawing succeeds with the table's lines. */
  lemma DrawGridSpecSuccess(g: seq<seq<Option<Node<Style>>>>, contents: seq<seq<string>>, lines: Glyphs)
    requires |g| > 0 && Rectangular(g)
    requires EveryCellHasLines(SplitContents(contents)) && EveryRowHasCells(SplitContents(contents))
    requires |SplitContents(contents)| >= |g|
    requires forall y, x :: 0 <= y < |g| && 0 <= x < |g[0]| ==> g[y][x].Some?
    requires |g[0]| > 0 ==> |Widths(Lengths(SplitContents(contents)))| >= |g[0]|
    ensures var text := SplitContents(contents);
      var L := Layout(Unwrapped(g), text, Widths(Lengths(text)), Heights(text));
      L.Valid() && DrawGridSpec(g, contents, lines) == Success(TableLines(L, lines))
  {
    var text := SplitContents(contents);
    LayoutValid(Layout(Unwrapped(g), text, Widths(Lengths(text)), Heights(text)));
  }

  /** A cell object is missing exactly where the grid has no node. */
  lemma NullIffMissing(cells: seq<seq<Cell?>>, g: seq<seq<Option<Node<Style>>>>)
    requires |g| > 0 && Rectangular(g) && CellsMatch(cells, g)
    ensures (exists y, x :: 0 <= y < |g| && 0 <= x < |g[0]| && cells[y][x] == null)
            <==> (exists y, x :: 0 <= y < |g| && 0 <= x < |g[0]| && g[y][x].None?)
  {
  }

  /** `draw_table` after make_cell_grid returned the cells. */
  method DrawGrid(cells: seq<seq<Cell?>>, ghost g: seq<seq<Option<Node<Style>>>>, contents: seq<seq<string>>,
                  lines: Glyphs)
    returns (r: Result<seq<string>, Error>)
    requires |g| > 0 && Rectangular(g) && CellsMatch(cells, g) && NeighboursLinked(cells)
    ensures r == DrawGridSpec(g, contents, lines)
  {
    var height, width := |cells|, |cells[0]|;
    var text := SplitContents(contents);
    if !EveryCellHasLines(text) || !EveryRowHasCells(text) {
      return Failure(ValueError);
    }
    var widths := Widths(Lengths(text));
    var heights := Heights(text);
    if |text| < height {
      // heights[y]
      return Failure(IndexError);
    }
    NullIffMissing(cells, g);
    if exists y, x :: 0 <= y < height && 0 <= x < width && cells[y][x] == null {
      // cell.styles
      return Failure(AttributeError);
    }
    if width > 0 && |widths| < width {
      // widths[x]
      return Failure(IndexError);
    }
    AllPresent(cells, g);
    DrawGridSpecSuccess(g, contents, lines);
    var result := DrawChecked(cells, g, text, widths, heights, lines);
    r := Success(result);
  }

  /** The drawing loops once every check has passed. */
  method DrawChecked(cells: seq<seq<Cell?>>, ghost g: seq<seq<Option<Node<Style>>>>, text: seq<seq<seq<string>>>,
                     widths: seq<nat>, heights: seq<nat>, lines: Glyphs)
    returns (result: seq<string>)
    requires |g| > 0 && Rectangular(g) && CellsMatch(cells, g) && NeighboursLinked(cells)
    requires EveryCellHasLines(text) && EveryRowHasCells(text)
    requires widths == Widths(Lengths(text)) && heights == Heights(text)
    requires |text| >= |g| && (|g[0]| > 0 ==> |widths| >= |g[0]|)
    requires forall y, x :: 0 <= y < |g| && 0 <= x < |g[0]| ==> g[y][x].Some?
    requires Layout(Unwrapped(g), text, widths, heights).Valid()
    ensures result == TableLines(Layout(Unwrapped(g), text, widths, heights), lines)
  {
    ghost var L := Layout(Unwrapped(g), text, widths, heights);
    GridDrawable(cells, g, L);
    result := DrawRows(cells, text, widths, heights, lines, L);
  }
}
