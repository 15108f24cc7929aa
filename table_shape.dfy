/** What the lines `draw_table` produces look like: how many there are, how
    wide they are, where each cell's text and each junction sits. */
module TableShape {
  import opened Results
  import opened Formatting
  import opened TableCells
  import opened TableDraw

  /** The characters the first n columns take on every line: a junction or
      edge, a margin, the text and a margin. */
  function ColumnsWidth(widths: seq<nat>, n: nat): nat
    requires n <= |widths|
  {
    if n == 0 then 0 else ColumnsWidth(widths, n - 1) + widths[n - 1] + 3
  }

  /** The width of every line: all columns and the closing edge; a grid
      without columns draws empty lines. */
  function LineWidth(L: Layout): nat
    requires L.Valid()
  {
    ColumnsWidth(L.widths, L.Width()) + (if L.Width() > 0 then 1 else 0)
  }

  /** The content lines of all rows together. */
  function HeightSum(heights: seq<nat>, n: nat): nat
    requires n <= |heights|
  {
    if n == 0 then 0 else HeightSum(heights, n - 1) + heights[n - 1]
  }

  /** The padded text always fills its column. */
  lemma ContentTextLength(L: Layout, y: nat, cy: nat, x: nat)
    requires L.Valid() && y < L.Height() && x < L.Width()
    ensures |ContentText(L, y, cy, x)| == L.widths[x]
  {
    if cy < |L.text[y][x]| {
      assert |L.text[y][x][cy]| <= L.widths[x];
    }
  }

  /** Every piece of column x is as wide as the column plus its junction and
      margins, and the last column adds the closing edge. */
  lemma PieceLengths(L: Layout, lines: Glyphs, y: nat, cy: nat, x: nat)
    requires L.Valid() && y < L.Height() && x < L.Width()
    ensures var n := L.widths[x] + 3 + (if x == L.Width() - 1 then 1 else 0);
            |TopPiece(L, lines, y, x)| == n && |MiddlePiece(L, lines, y, cy, x)| == n
            && |BottomPiece(L, lines, y, x)| == n
  {
    ContentTextLength(L, y, cy, x);
  }

  /** The lengths the pieces of a line have: column x takes its width, a
      junction and two margins, and the last column the closing edge too. */
  predicate ColumnPieces(cs: seq<string>, widths: seq<nat>)
  {
    |cs| <= |widths| && forall x :: 0 <= x < |cs| ==> |cs[x]| == widths[x] + 3 + (if x == |cs| - 1 then 1 else 0)
  }

  /** The first k pieces of a line take the first k columns. */
  lemma {:induction false} ColumnPiecesPrefix(cs: seq<string>, widths: seq<nat>, k: nat)
    requires ColumnPieces(cs, widths) && k <= |cs|
    ensures |Flatten(cs[..k])| == ColumnsWidth(widths, k) + (if k == |cs| && k > 0 then 1 else 0)
  {
    if k > 0 {
      ColumnPiecesPrefix(cs, widths, k - 1);
      FlattenPrefix(cs, k - 1);
    }
  }

  /** Character i of piece x sits in the line right after the columns
      before it. */
  lemma ColumnAt(cs: seq<string>, widths: seq<nat>, x: nat, i: nat)
    requires ColumnPieces(cs, widths) && x < |cs| && i < |cs[x]|
    ensures ColumnsWidth(widths, x) + i < |Flatten(cs)|
    ensures Flatten(cs)[ColumnsWidth(widths, x) + i] == cs[x][i]
  {
    ColumnPiecesPrefix(cs, widths, x);
    FlattenAt(cs, x, i);
  }

  /** Piece x is the slice of the line right after the columns before it. */
  lemma ColumnSlice(cs: seq<string>, widths: seq<nat>, x: nat)
    requires ColumnPieces(cs, widths) && x < |cs|
    ensures ColumnsWidth(widths, x) + |cs[x]| <= |Flatten(cs)|
    ensures Flatten(cs)[ColumnsWidth(widths, x) .. ColumnsWidth(widths, x) + |cs[x]|] == cs[x]
  {
    ColumnPiecesPrefix(cs, widths, x);
    FlattenSlice(cs, x);
  }

  /** The pieces of the top border of row y have the column lengths. */
  lemma TopPiecesFit(L: Layout, lines: Glyphs, y: nat)
    requires L.Valid() && y < L.Height()
    ensures ColumnPieces(TopPieces(L, lines, y), L.widths)
  {
    forall x | 0 <= x < L.Width()
      ensures |TopPieces(L, lines, y)[x]| == L.widths[x] + 3 + (if x == L.Width() - 1 then 1 else 0)
    {
      PieceLengths(L, lines, y, 0, x);
    }
  }

  /** The pieces of content line cy of row y have the column lengths. */
  lemma MiddlePiecesFit(L: Layout, lines: Glyphs, y: nat, cy: nat)
    requires L.Valid() && y < L.Height()
    ensures ColumnPieces(MiddlePieces(L, lines, y, cy), L.widths)
  {
    forall x | 0 <= x < L.Width()
      ensures |MiddlePieces(L, lines, y, cy)[x]| == L.widths[x] + 3 + (if x == L.Width() - 1 then 1 else 0)
    {
      PieceLengths(L, lines, y, cy, x);
    }
  }

  /** The pieces of the bottom border of row y have the column lengths. */
  lemma BottomPiecesFit(L: Layout, lines: Glyphs, y: nat)
    requires L.Valid() && y < L.Height()
    ensures ColumnPieces(BottomPieces(L, lines, y), L.widths)
  {
    forall x | 0 <= x < L.Width()
      ensures |BottomPieces(L, lines, y)[x]| == L.widths[x] + 3 + (if x == L.Width() - 1 then 1 else 0)
    {
      PieceLengths(L, lines, y, 0, x);
    }
  }

  /** The border and content lines of a row are all `LineWidth` wide. */
  lemma LineLengths(L: Layout, lines: Glyphs, y: nat, cy: nat)
    requires L.Valid() && y < L.Height()
    ensures |TopLine(L, lines, y)| == LineWidth(L)
    ensures |MiddleLine(L, lines, y, cy)| == LineWidth(L)
    ensures |BottomLine(L, lines, y)| == LineWidth(L)
  {
    var w := L.Width();
    TopPiecesFit(L, lines, y);
    MiddlePiecesFit(L, lines, y, cy);
    BottomPiecesFit(L, lines, y);
    ColumnPiecesPrefix(TopPieces(L, lines, y), L.widths, w);
    ColumnPiecesPrefix(MiddlePieces(L, lines, y, cy), L.widths, w);
    ColumnPiecesPrefix(BottomPieces(L, lines, y), L.widths, w);
    assert TopPieces(L, lines, y)[..w] == TopPieces(L, lines, y);
    assert MiddlePieces(L, lines, y, cy)[..w] == MiddlePieces(L, lines, y, cy);
    assert BottomPieces(L, lines, y)[..w] == BottomPieces(L, lines, y);
  }

  /** The table is a rectangle of characters: every line it draws is
      `LineWidth` wide. */
  lemma TableWidth(L: Layout, lines: Glyphs)
    requires L.Valid()
    ensures forall line :: line in TableLines(L, lines) ==> |line| == LineWidth(L)
  {
    var rows := Rows(L, lines);
    forall line | line in TableLines(L, lines)
      ensures |line| == LineWidth(L)
    {
      FlattenMember(rows, line);
      var y, j :| 0 <= y < |rows| && 0 <= j < |rows[y]| && rows[y][j] == line;
      RowWidth(L, lines, y, line);
    }
  }

  /** Every line of row y is `LineWidth` wide. */
  lemma RowWidth(L: Layout, lines: Glyphs, y: nat, line: string)
    requires L.Valid() && y < L.Height() && line in RowLines(L, lines, y)
    ensures |line| == LineWidth(L)
  {
    var steps := Steps(L, lines, y);
    FlattenMember(steps, line);
    var cy, j :| 0 <= cy < |steps| && 0 <= j < |steps[cy]| && steps[cy][j] == line;
    LineLengths(L, lines, y, cy);
    assert steps[cy] == Appended(TopBorder(L, lines, y, cy), MiddleLine(L, lines, y, cy), BottomBorder(L, lines, y, cy));
    AppendedMember(TopBorder(L, lines, y, cy), MiddleLine(L, lines, y, cy), BottomBorder(L, lines, y, cy), line);
  }

  /** A line one pass appends is one of the three it wrote, and not an
      empty border. */
  lemma AppendedMember(top: string, middle: string, bottom: string, line: string)
    requires line in Appended(top, middle, bottom)
    ensures (line == top && top != "") || line == middle || (line == bottom && bottom != "")
  {
  }

  /** A border line exists exactly when the grid has columns. */
  lemma BorderNonEmpty(L: Layout, lines: Glyphs, y: nat, cy: nat)
    requires L.Valid() && y < L.Height()
    ensures TopLine(L, lines, y) != "" <==> L.Width() > 0
    ensures BottomLine(L, lines, y) != "" <==> L.Width() > 0
  {
    LineLengths(L, lines, y, cy);
  }

  /** The lines of one row: its content lines, the top border first when
      there are columns, and after the last row the bottom border. */
  lemma {:induction false} RowLineCount(L: Layout, lines: Glyphs, y: nat, k: nat)
    requires L.Valid() && y < L.Height() && k <= L.heights[y]
    ensures var cols := L.Width() > 0;
            LengthSum(Steps(L, lines, y)[..k])
            == k + (if cols && k > 0 then 1 else 0)
                 + (if cols && y == L.Height() - 1 && k == L.heights[y] then 1 else 0)
  {
    if k > 0 {
      RowLineCount(L, lines, y, k - 1);
      LengthSumPrefix(Steps(L, lines, y), k - 1);
      BorderNonEmpty(L, lines, y, k - 1);
    }
  }

  /** The number of lines of the first k rows. */
  lemma {:induction false} RowsLineCount(L: Layout, lines: Glyphs, k: nat)
    requires L.Valid() && k <= L.Height()
    ensures var cols := L.Width() > 0;
            LengthSum(Rows(L, lines)[..k])
            == HeightSum(L.heights, k) + (if cols then k else 0) + (if cols && k == L.Height() then 1 else 0)
  {
    if k > 0 {
      var y := k - 1;
      RowsLineCount(L, lines, y);
      LengthSumPrefix(Rows(L, lines), y);
      var steps := Steps(L, lines, y);
      RowLineCount(L, lines, y, L.heights[y]);
      assert steps[..L.heights[y]] == steps;
      FlattenLength(steps);
    }
  }

  /** The table has one line per content line of every row, and with
      columns one border line between rows and one above and one below. */
  lemma TableLineCount(L: Layout, lines: Glyphs)
    requires L.Valid()
    ensures |TableLines(L, lines)|
            == HeightSum(L.heights, L.Height()) + (if L.Width() > 0 then L.Height() + 1 else 0)
  {
    var rows := Rows(L, lines);
    RowsLineCount(L, lines, L.Height());
    assert rows[..L.Height()] == rows;
    FlattenLength(rows);
  }

  /** Line cy of the text of cell (x, y), or nothing when the cell has
      fewer lines. */
  function Shown(L: Layout, y: nat, cy: nat, x: nat): string
    requires L.Valid() && y < L.Height() && x < L.Width()
  {
    if cy < |L.text[y][x]| then L.text[y][x][cy] else ""
  }

  /** From offset off on, m shows the edge, a margin, the text padded with
      spaces to width w, and a margin. */
  predicate ShowsText(m: string, off: nat, w: nat, shown: string, edge: char)
  {
    |shown| <= w && off + w + 3 <= |m|
    && m[off] == edge && m[off + 1] == ' ' && m[off + w + 2] == ' '
    && m[off + 2 .. off + 2 + |shown|] == shown
    && forall i :: off + 2 + |shown| <= i < off + 2 + w ==> m[i] == ' '
  }

  /** Content line cy of row y shows, from the left edge of column x on:
      the vertical edge of the cell's left style, a margin, line cy of the
      cell's text padded with spaces to the column width (all spaces when the
      cell has fewer lines), and a margin. */
  lemma CellText(L: Layout, lines: Glyphs, y: nat, cy: nat, x: nat)
    requires L.Valid() && y < L.Height() && x < L.Width()
    ensures ShowsText(MiddleLine(L, lines, y, cy), ColumnsWidth(L.widths, x), L.widths[x], Shown(L, y, cy, x),
                      lines((Empty, L.styles[y][x].left, Empty, L.styles[y][x].left)))
  {
    var pieces, edge := MiddlePieces(L, lines, y, cy), lines((Empty, L.styles[y][x].left, Empty, L.styles[y][x].left));
    MiddlePiecesFit(L, lines, y, cy);
    PieceText(L, lines, y, cy, x);
    ColumnShows(pieces, L.widths, x, L.widths[x], Shown(L, y, cy, x), edge);
  }

  /** What piece x shows, the line shows right after the columns before it. */
  lemma ColumnShows(cs: seq<string>, widths: seq<nat>, x: nat, w: nat, shown: string, edge: char)
    requires ColumnPieces(cs, widths) && x < |cs| && |cs[x]| >= w + 3
    requires ShowsText(cs[x], 0, w, shown, edge)
    ensures ShowsText(Flatten(cs), ColumnsWidth(widths, x), w, shown, edge)
  {
    ColumnSlice(cs, widths, x);
    SliceShows(Flatten(cs), cs[x], ColumnsWidth(widths, x), w, shown, edge);
  }

  /** What a piece shows, the line shows where the piece sits. */
  lemma SliceShows(m: string, p: string, off: nat, w: nat, shown: string, edge: char)
    requires off + |p| <= |m| && m[off .. off + |p|] == p && |p| >= w + 3
    requires ShowsText(p, 0, w, shown, edge)
    ensures ShowsText(m, off, w, shown, edge)
  {
    forall i | 0 <= i < |p|
      ensures m[off + i] == p[i]
    {
      assert m[off + i] == m[off .. off + |p|][i];
    }
    forall i | 0 <= i < |shown|
      ensures m[off + 2 .. off + 2 + |shown|][i] == shown[i]
    {
      assert m[off + 2 + i] == p[2 + i] == p[2 .. 2 + |shown|][i];
    }
  }

  /** The piece of column x on content line cy: edge, margin, padded text,
      margin. */
  lemma PieceText(L: Layout, lines: Glyphs, y: nat, cy: nat, x: nat)
    requires L.Valid() && y < L.Height() && x < L.Width()
    ensures |MiddlePiece(L, lines, y, cy, x)| >= L.widths[x] + 3
    ensures ShowsText(MiddlePiece(L, lines, y, cy, x), 0, L.widths[x], Shown(L, y, cy, x),
                      lines((Empty, L.styles[y][x].left, Empty, L.styles[y][x].left)))
  {
    ContentTextLength(L, y, cy, x);
    var c := ContentText(L, y, cy, x);
    var shown := Shown(L, y, cy, x);
    assert |shown| <= L.widths[x];
    var p := MiddlePiece(L, lines, y, cy, x);
    assert p[2 .. 2 + L.widths[x]] == c;
    assert c[..|shown|] == shown;
  }

  /** The top border of row y has, at the left edge of column x, the
      junction of the four segments that meet there: the top edge of the
      left neighbour, the left edge of the neighbour above, and the cell's
      own top and left edges. */
  lemma TopJunction(L: Layout, lines: Glyphs, y: nat, x: nat)
    requires L.Valid() && y < L.Height() && x < L.Width()
    ensures ColumnsWidth(L.widths, x) < |TopLine(L, lines, y)|
    ensures TopLine(L, lines, y)[ColumnsWidth(L.widths, x)]
            == lines((NeighbourStyles(L.styles, y, x).left.top, NeighbourStyles(L.styles, y, x).top.left,
                      L.styles[y][x].top, L.styles[y][x].left))
  {
    var pieces := TopPieces(L, lines, y);
    var s, n := L.styles[y][x], NeighbourStyles(L.styles, y, x);
    var corner := lines((n.left.top, n.top.left, s.top, s.left));
    assert |TopPiece(L, lines, y, x)| > 0 && TopPiece(L, lines, y, x)[0] == corner by {
      var piece := [corner] + Repeat(2 + L.widths[x], lines((s.top, Empty, s.top, Empty)));
      assert piece[0] == corner;
    }
    TopPiecesFit(L, lines, y);
    ColumnAt(pieces, L.widths, x, 0);
  }

  /** On the bottom border, under the last row, each cell starts with the
      junction of the left neighbour's bottom edge and the cell's own left
      and bottom edges, with nothing below it. */
  lemma BottomJunction(L: Layout, lines: Glyphs, y: nat, x: nat)
    requires L.Valid() && y < L.Height() && x < L.Width()
    ensures ColumnsWidth(L.widths, x) < |BottomLine(L, lines, y)|
    ensures BottomLine(L, lines, y)[ColumnsWidth(L.widths, x)]
            == lines((NeighbourStyles(L.styles, y, x).left.bottom, L.styles[y][x].left, L.styles[y][x].bottom, Empty))
  {
    var pieces := BottomPieces(L, lines, y);
    var s, n := L.styles[y][x], NeighbourStyles(L.styles, y, x);
    var corner := lines((n.left.bottom, s.left, s.bottom, Empty));
    assert |BottomPiece(L, lines, y, x)| > 0 && BottomPiece(L, lines, y, x)[0] == corner by {
      var piece := [corner] + Repeat(2 + L.widths[x], lines((s.bottom, Empty, s.bottom, Empty)));
      assert piece[0] == corner;
    }
    BottomPiecesFit(L, lines, y);
    ColumnAt(pieces, L.widths, x, 0);
  }

  /** The last character of every line is the closing edge of the last
      column: the junction of its top and right edges on a top border, its
      right edge on a content line, the junction of its bottom and right
      edges on the bottom border. */
  lemma ClosingEdge(L: Layout, lines: Glyphs, y: nat, cy: nat)
    requires L.Valid() && y < L.Height() && L.Width() > 0
    ensures var w, s, n := LineWidth(L), L.styles[y][L.Width() - 1], NeighbourStyles(L.styles, y, L.Width() - 1);
            |TopLine(L, lines, y)| == w && |MiddleLine(L, lines, y, cy)| == w && |BottomLine(L, lines, y)| == w
            && TopLine(L, lines, y)[w - 1] == lines((s.top, n.top.right, Empty, s.right))
            && MiddleLine(L, lines, y, cy)[w - 1] == lines((Empty, s.right, Empty, s.right))
            && BottomLine(L, lines, y)[w - 1] == lines((s.bottom, s.right, Empty, Empty))
  {
    var x := L.Width() - 1;
    LineLengths(L, lines, y, cy);
    TopPiecesFit(L, lines, y);
    MiddlePiecesFit(L, lines, y, cy);
    BottomPiecesFit(L, lines, y);
    var last := L.widths[x] + 3;
    ColumnAt(TopPieces(L, lines, y), L.widths, x, last);
    ColumnAt(MiddlePieces(L, lines, y, cy), L.widths, x, last);
    ColumnAt(BottomPieces(L, lines, y), L.widths, x, last);
  }

  /** The code "L" makes one cell, light on every side. */
  lemma SingleCellGrid()
    ensures GridStyles([["L"]]) == Success([[Some(AllSides(Light))]])
  {
    assert Make("L") == Success(Some(AllSides(Light)));
    assert AllCodesKnown([["L"]]);
    assert Rectangular([["L"]]);
    var r := GridStyles([["L"]]);
    assert r.Success?;
    assert r.value[0][0] == Some(AllSides(Light));
    assert r.value[0] == [Some(AllSides(Light))];
    assert r.value == [[Some(AllSides(Light))]];
  }
}
