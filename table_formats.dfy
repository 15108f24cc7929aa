/** `linear_formats` of `poc/mono/drawing/tables.py`: the cell codes of a
    grid given by its horizontal and its vertical lines.  Cell (y, x) takes
    vertical line x as its left edge, horizontal line y as its top edge,
    vertical line x + 1 as its right edge and horizontal line y + 1 as its
    bottom edge, so adjacent cells share the line between them. */
module TableFormats {
  import opened Results
  import opened TableCells

  /** The number of gaps between n lines: `range(n - 1)` is empty for n <= 1. */
  function Gaps(n: nat): nat
  {
    if n > 0 then n - 1 else 0
  }

  /** The code grid `linear_formats(horizontal, vertical)` returns: one row
      per gap between horizontal lines, one code per gap between vertical
      lines. */
  function LinearGrid(horizontal: seq<string>, vertical: seq<string>): (f: seq<seq<string>>)
    ensures |f| == Gaps(|horizontal|) && Rectangular(f)
    ensures forall y :: 0 <= y < |f| ==> |f[y]| == Gaps(|vertical|)
  {
    seq(Gaps(|horizontal|), y requires 0 <= y < Gaps(|horizontal|) =>
      seq(Gaps(|vertical|), x requires 0 <= x < Gaps(|vertical|) =>
        vertical[x] + horizontal[y] + vertical[x + 1] + horizontal[y + 1]))
  }

  /** `linear_formats(horizontal, vertical)`, building the rows and codes
      one append at a time. */
  method LinearFormats(horizontal: seq<string>, vertical: seq<string>) returns (formats: seq<seq<string>>)
    ensures formats == LinearGrid(horizontal, vertical)
  {
    ghost var grid := LinearGrid(horizontal, vertical);
    formats := [];
    for y := 0 to Gaps(|horizontal|)
      invariant formats == grid[..y]
    {
      var line: seq<string> := [];
      for x := 0 to Gaps(|vertical|)
        invariant line == grid[y][..x]
      {
        line := line + [vertical[x] + horizontal[y] + vertical[x + 1] + horizontal[y + 1]];
      }
      assert line == grid[y];
      formats := formats + [line];
    }
    assert formats == grid;
  }

  /** Every line is drawn with one letter of `Cell.long_format`. */
  predicate LongLines(lines: seq<string>)
  {
    forall i :: 0 <= i < |lines| ==> |lines[i]| == 1 && lines[i][0] in "lhde"
  }

  /** The style a one-letter line stands for. */
  function LineStyle(line: string): Style
    requires |line| == 1 && line[0] in "lhde"
  {
    LongFormat(line[0]).value
  }

  /** Neighbouring codes agree on the line they share: a code's right
      letter is the left letter of the code beside it, its bottom letter the
      top letter of the code below it. */
  lemma {:induction false} SharedLines(horizontal: seq<string>, vertical: seq<string>, y: nat, x: nat)
    requires (forall i :: 0 <= i < |horizontal| ==> |horizontal[i]| == 1)
    requires (forall i :: 0 <= i < |vertical| ==> |vertical[i]| == 1)
    requires y < Gaps(|horizontal|) && x < Gaps(|vertical|)
    ensures var f := LinearGrid(horizontal, vertical);
            |f[y][x]| == 4
            && (x + 1 < Gaps(|vertical|) ==> |f[y][x + 1]| == 4 && f[y][x][2] == f[y][x + 1][0])
            && (y + 1 < Gaps(|horizontal|) ==> |f[y + 1][x]| == 4 && f[y][x][3] == f[y + 1][x][1])
  {
    var f := LinearGrid(horizontal, vertical);
    assert f[y][x] == vertical[x] + horizontal[y] + vertical[x + 1] + horizontal[y + 1];
    assert f[y][x][2] == vertical[x + 1][0];
    assert f[y][x][3] == horizontal[y + 1][0];
    if x + 1 < Gaps(|vertical|) {
      assert f[y][x + 1] == vertical[x + 1] + horizontal[y] + vertical[x + 2] + horizontal[y + 1];
      assert f[y][x + 1][0] == vertical[x + 1][0];
    }
    if y + 1 < Gaps(|horizontal|) {
      assert f[y + 1][x] == vertical[x] + horizontal[y + 1] + vertical[x + 1] + horizontal[y + 2];
      assert f[y + 1][x][1] == horizontal[y + 1][0];
    }
  }

  /** With one long-format letter per line and at least two horizontal lines,
      `make_cell_grid` accepts the codes, and every cell takes its four
      edges from the lines around it; so neighbouring cells agree on every
      edge they share. */
  lemma LinearGridStyles(horizontal: seq<string>, vertical: seq<string>)
    requires LongLines(horizontal) && LongLines(vertical) && |horizontal| >= 2
    ensures var r := GridStyles(LinearGrid(horizontal, vertical));
            r.Success?
            && forall y, x :: 0 <= y < |horizontal| - 1 && 0 <= x < Gaps(|vertical|) ==>
                 r.value[y][x] == Some(Node(LineStyle(vertical[x]), LineStyle(horizontal[y]),
                                            LineStyle(vertical[x + 1]), LineStyle(horizontal[y + 1])))
  {
    var f := LinearGrid(horizontal, vertical);
    forall y, x | 0 <= y < |f| && 0 <= x < |f[y]|
      ensures Make(f[y][x]) == Success(Some(Node(LineStyle(vertical[x]), LineStyle(horizontal[y]),
                                                 LineStyle(vertical[x + 1]), LineStyle(horizontal[y + 1]))))
    {
      var code := f[y][x];
      assert code == vertical[x] + horizontal[y] + vertical[x + 1] + horizontal[y + 1];
      assert code == [vertical[x][0], horizontal[y][0], vertical[x + 1][0], horizontal[y + 1][0]];
    }
    assert AllCodesKnown(f);
  }

  /** With fewer than two horizontal lines there is no row, and
      `make_cell_grid` fails on `formats[0]`. */
  lemma NoRows(horizontal: seq<string>, vertical: seq<string>)
    requires |horizontal| < 2
    ensures LinearGrid(horizontal, vertical) == []
    ensures GridStyles(LinearGrid(horizontal, vertical)) == Failure(IndexError)
  {
  }
}
