/** The cell grid of `poc/mono/drawing/tables.py`: edge styles, the two
    forms of per-cell edge codes (`Cell.make`), and the grid whose cells are
    linked to their neighbours in place (`make_cell_grid`).  The `symbols`
    module that defines `Styles` and the junction table `lines` is not part
    of this model: `Styles` is the enumeration below and `lines` is a
    parameter of the drawing functions. */
module TableCells {
  import opened Results

  /** `Styles`: the weight of one edge. */
  datatype Style = Empty | Light | Heavy | Double

  /** `Node`: one value per side, in the order left, top, right, bottom. */
  datatype Node<T> = Node(left: T, top: T, right: T, bottom: T)
  {
    /** `Node.all`. */
    function All(): (s: seq<T>)
      ensures |s| == 4 && s[0] == left && s[1] == top && s[2] == right && s[3] == bottom
    {
      [left, top, right, bottom]
    }
  }

  /** The styles of an `EmptyCell`: every side empty. */
  const EMPTY_STYLES: Node<Style> := Node(Empty, Empty, Empty, Empty)

  /** The Python exceptions the table code can raise. */
  datatype Error = IndexError | AssertionError | KeyError | AttributeError | ValueError

  /** `Cell.all_sides(weight)`. */
  function AllSides(w: Style): Node<Style>
  {
    Node(w, w, w, w)
  }

  /** The dictionary of one-letter codes in `Cell.make`. */
  function ShortFormat(c: char): Option<Style>
  {
    match c
    case 'L' => Some(Light)
    case 'H' => Some(Heavy)
    case 'D' => Some(Double)
    case _ => None
  }

  /** `Cell.long_format`. */
  function LongFormat(c: char): Option<Style>
  {
    match c
    case 'l' => Some(Light)
    case 'h' => Some(Heavy)
    case 'd' => Some(Double)
    case 'e' => Some(Empty)
    case _ => None
  }

  /** The letter `Cell.long_format` maps to a style. */
  function LongLetter(s: Style): (c: char)
    ensures LongFormat(c) == Some(s)
  {
    match s
    case Light => 'l'
    case Heavy => 'h'
    case Double => 'd'
    case Empty => 'e'
  }

  /** The four-letter code of a cell's styles, left, top, right, bottom. */
  function LongCode(n: Node<Style>): (code: string)
    ensures |code| == 4
  {
    [LongLetter(n.left), LongLetter(n.top), LongLetter(n.right), LongLetter(n.bottom)]
  }

  /** `Cell.make(format_string)`: the styles of the new cell.  A one-letter
      code outside L, H, D or a four-letter code with a letter outside
      l, h, d, e raises KeyError; a code of any other length makes no cell
      (`None`). */
  function Make(code: string): (r: Result<Option<Node<Style>>, Error>)
    ensures |code| == 1 ==> (r.Success? <==> code[0] in "LHD")
    ensures |code| == 1 && r.Success? ==>
              r.value.Some? && r.value.value.All() == [ShortFormat(code[0]).value, ShortFormat(code[0]).value,
                                                       ShortFormat(code[0]).value, ShortFormat(code[0]).value]
    ensures |code| == 4 ==> (r.Success? <==> forall i :: 0 <= i < 4 ==> code[i] in "lhde")
    ensures |code| == 4 && r.Success? ==> r.value.Some? && LongCode(r.value.value) == code
    ensures |code| != 1 && |code| != 4 ==> r == Success(None)
  {
    if |code| == 1 then
      match ShortFormat(code[0])
      case Some(w) => Success(Some(AllSides(w)))
      case None => Failure(KeyError)
    else if |code| == 4 then
      match (LongFormat(code[0]), LongFormat(code[1]), LongFormat(code[2]), LongFormat(code[3]))
      case (Some(l), Some(t), Some(r), Some(b)) =>
        assert LongCode(Node(l, t, r, b)) == code by { LongLetterInverse(code); }
        Success(Some(Node(l, t, r, b)))
      case _ => Failure(KeyError)
    else Success(None)
  }

  lemma LongLetterInverse(code: string)
    requires |code| == 4 && forall i :: 0 <= i < 4 ==> LongFormat(code[i]).Some?
    ensures forall i :: 0 <= i < 4 ==> LongLetter(LongFormat(code[i]).value) == code[i]
  {
  }

  /** The long code of a cell reads back as that cell. */
  lemma MakeLongCode(n: Node<Style>)
    ensures Make(LongCode(n)) == Success(Some(n))
  {
  }

  // ---------------------------------------------------------------------
  // Cells linked to their neighbours

  /** What a neighbour slot holds: the shared `EmptyCell` sentinel or a
      cell of the grid. */
  datatype Neighbour = EmptyCell | Linked(cell: Cell)

  /** `neighbour.styles`. */
  function StylesOf(n: Neighbour): Node<Style>
  {
    match n
    case EmptyCell => EMPTY_STYLES
    case Linked(c) => c.styles
  }

  const NO_NEIGHBOURS: Node<Neighbour> := Node(EmptyCell, EmptyCell, EmptyCell, EmptyCell)

  /** `Cell`: fixed styles and four neighbour slots that start out empty and
      that `make_cell_grid` fills in. */
  class Cell {
    const styles: Node<Style>
    var neighbours: Node<Neighbour>

    constructor (styles: Node<Style>)
      ensures this.styles == styles && neighbours == NO_NEIGHBOURS
    {
      this.styles := styles;
      neighbours := NO_NEIGHBOURS;
    }
  }

  predicate Rectangular<T>(g: seq<seq<T>>)
  {
    forall y :: 0 <= y < |g| ==> |g[y]| == |g[0]|
  }

  /** Every code of the grid is one `Cell.make` accepts. */
  predicate AllCodesKnown(formats: seq<seq<string>>)
  {
    forall y, x :: 0 <= y < |formats| && 0 <= x < |formats[y]| ==> Make(formats[y][x]).Success?
  }

  /** The linking loop dereferences every cell of a grid larger than one
      cell, so it fails on a code that made no cell. */
  predicate DereferencesNone(formats: seq<seq<string>>)
    requires |formats| > 0 && Rectangular(formats) && AllCodesKnown(formats)
  {
    (|formats| > 1 || |formats[0]| > 1)
    && exists y, x :: 0 <= y < |formats| && 0 <= x < |formats[0]| && Make(formats[y][x]).value.None?
  }

  /** The outcome of `make_cell_grid(formats)`, by cell styles (None for a
      code that made no cell): IndexError for no rows, AssertionError for
      rows of different lengths, KeyError for an unknown code, and
      AttributeError when a grid of more than one cell holds a None, which
      the linking loop dereferences. */
  function GridStyles(formats: seq<seq<string>>): (r: Result<seq<seq<Option<Node<Style>>>>, Error>)
    ensures r.Success? ==> |formats| > 0 && Rectangular(formats) && AllCodesKnown(formats)
    ensures r.Success? ==> |r.value| == |formats| && Rectangular(r.value) && |r.value[0]| == |formats[0]|
    ensures r.Success? ==> forall y, x :: 0 <= y < |formats| && 0 <= x < |formats[y]| ==>
              r.value[y][x] == Make(formats[y][x]).value
    ensures |formats| == 0 ==> r == Failure(IndexError)
    ensures |formats| > 0 && !Rectangular(formats) ==> r == Failure(AssertionError)
    ensures |formats| > 0 && Rectangular(formats) && !AllCodesKnown(formats) ==> r == Failure(KeyError)
    ensures |formats| > 0 && Rectangular(formats) && AllCodesKnown(formats) ==>
              (r.Success? <==> !DereferencesNone(formats)) && (r.Failure? ==> r.error == AttributeError)
  {
    if |formats| == 0 then Failure(IndexError)
    else if !Rectangular(formats) then Failure(AssertionError)
    else if !AllCodesKnown(formats) then Failure(KeyError)
    else
      var h, w := |formats|, |formats[0]|;
      var g := seq(h, y requires 0 <= y < h => seq(w, x requires 0 <= x < w => Make(formats[y][x]).value));
      if (h > 1 || w > 1) && exists y, x :: 0 <= y < h && 0 <= x < w && g[y][x].None? then Failure(AttributeError)
      else Success(g)
  }

  /** The grid holds a cell wherever Cell.make made one. */
  predicate CellsMatch(cells: seq<seq<Cell?>>, g: seq<seq<Option<Node<Style>>>>)
  {
    |cells| == |g| && (forall y :: 0 <= y < |g| ==> |cells[y]| == |g[y]|)
    && forall y, x :: 0 <= y < |g| && 0 <= x < |g[y]| ==>
         (cells[y][x] == null <==> g[y][x].None?) && (cells[y][x] != null ==> cells[y][x].styles == g[y][x].value)
  }

  function Link(c: Cell?): Neighbour
  {
    if c == null then EmptyCell else Linked(c)
  }

  /** The neighbours of the cell at (x, y) once it is linked: the adjacent
      cells of the grid, and the empty sentinel on the grid's boundary. */
  function Adjacent(cells: seq<seq<Cell?>>, y: nat, x: nat): Node<Neighbour>
    requires y < |cells| && Rectangular(cells) && x < |cells[0]|
  {
    var h, w := |cells|, |cells[0]|;
    Node(if x > 0 then Link(cells[y][x - 1]) else EmptyCell,
         if y > 0 then Link(cells[y - 1][x]) else EmptyCell,
         if x < w - 1 then Link(cells[y][x + 1]) else EmptyCell,
         if y < h - 1 then Link(cells[y + 1][x]) else EmptyCell)
  }

  /** The styles each side of the cell at (x, y) sees on its neighbour, by
      position: the lookup the table renderer relies on. */
  function NeighbourStyles(g: seq<seq<Node<Style>>>, y: nat, x: nat): Node<Node<Style>>
    requires y < |g| && Rectangular(g) && x < |g[0]|
  {
    var h, w := |g|, |g[0]|;
    Node(if x > 0 then g[y][x - 1] else EMPTY_STYLES,
         if y > 0 then g[y - 1][x] else EMPTY_STYLES,
         if x < w - 1 then g[y][x + 1] else EMPTY_STYLES,
         if y < h - 1 then g[y + 1][x] else EMPTY_STYLES)
  }

  /** Creates the cells row by row, as the list comprehension does. */
  method NewCells(g: seq<seq<Node<Style>>>) returns (cells: seq<seq<Cell>>, ghost pos: map<Cell, (int, int)>)
    requires Rectangular(g)
    ensures |cells| == |g| && forall y :: 0 <= y < |g| ==> |cells[y]| == |g[y]|
    ensures forall y, x :: 0 <= y < |g| && 0 <= x < |g[y]| ==>
              fresh(cells[y][x]) && cells[y][x].styles == g[y][x] && cells[y][x].neighbours == NO_NEIGHBOURS
    ensures forall y, x :: 0 <= y < |g| && 0 <= x < |g[y]| ==> cells[y][x] in pos && pos[cells[y][x]] == (y, x)
  {
    cells, pos := [], map[];
    for y := 0 to |g|
      invariant |cells| == y && forall j :: 0 <= j < y ==> |cells[j]| == |g[j]|
      invariant forall j, x :: 0 <= j < y && 0 <= x < |g[j]| ==>
                  fresh(cells[j][x]) && cells[j][x].styles == g[j][x] && cells[j][x].neighbours == NO_NEIGHBOURS
      invariant forall j, x :: 0 <= j < y && 0 <= x < |g[j]| ==> cells[j][x] in pos && pos[cells[j][x]] == (j, x)
      invariant forall c :: c in pos ==> fresh(c)
    {
      var row: seq<Cell> := [];
      for x := 0 to |g[y]|
        invariant |row| == x
        invariant forall i :: 0 <= i < x ==>
                    fresh(row[i]) && row[i].styles == g[y][i] && row[i].neighbours == NO_NEIGHBOURS
        invariant forall i :: 0 <= i < x ==> row[i] in pos && pos[row[i]] == (y, i)
        invariant forall j, i :: 0 <= j < y && 0 <= i < |g[j]| ==> cells[j][i] in pos && pos[cells[j][i]] == (j, i)
        invariant forall j, i :: 0 <= j < y && 0 <= i < |g[j]| ==>
                    fresh(cells[j][i]) && cells[j][i].styles == g[j][i] && cells[j][i].neighbours == NO_NEIGHBOURS
        invariant forall c :: c in pos ==> fresh(c)
      {
        var c := new Cell(g[y][x]);
        pos := pos[c := (y, x)];
        row := row + [c];
      }
      cells := cells + [row];
    }
  }

  /** One pass of the linking loop's body: the cell at (x, y) gets its
      neighbours; no other cell changes. */
  method LinkCell(cells: seq<seq<Cell>>, y: nat, x: nat)
    requires y < |cells| && Rectangular(cells) && x < |cells[0]|
    requires cells[y][x].neighbours == NO_NEIGHBOURS
    modifies cells[y][x]
    ensures cells[y][x].neighbours == Adjacent(cells, y, x)
  {
    var height, width := |cells|, |cells[0]|;
    var c := cells[y][x];
    if y > 0 {
      c.neighbours := c.neighbours.(top := Linked(cells[y - 1][x]));
    }
    if y < height - 1 {
      c.neighbours := c.neighbours.(bottom := Linked(cells[y + 1][x]));
    }
    if x > 0 {
      c.neighbours := c.neighbours.(left := Linked(cells[y][x - 1]));
    }
    if x < width - 1 {
      c.neighbours := c.neighbours.(right := Linked(cells[y][x + 1]));
    }
  }

  /** The linking loop of `make_cell_grid`: every cell gets its left, top,
      right and bottom neighbour, boundary sides keep the sentinel. */
  method LinkCells(cells: seq<seq<Cell>>, ghost repr: set<Cell>, ghost pos: map<Cell, (int, int)>)
    requires |cells| > 0 && Rectangular(cells)
    requires forall y, x :: 0 <= y < |cells| && 0 <= x < |cells[0]| ==>
               cells[y][x] in repr && cells[y][x] in pos && pos[cells[y][x]] == (y, x)
    requires forall y, x :: 0 <= y < |cells| && 0 <= x < |cells[0]| ==> cells[y][x].neighbours == NO_NEIGHBOURS
    modifies repr
    ensures forall y, x :: 0 <= y < |cells| && 0 <= x < |cells[0]| ==> cells[y][x].neighbours == Adjacent(cells, y, x)
  {
    var height, width := |cells|, |cells[0]|;
    for y := 0 to height
      invariant forall j, i :: 0 <= j < height && 0 <= i < width ==>
                  cells[j][i].neighbours == if j < y then Adjacent(cells, j, i) else NO_NEIGHBOURS
    {
      for x := 0 to width
        invariant forall j, i :: 0 <= j < height && 0 <= i < width ==>
                    cells[j][i].neighbours == if j < y || (j == y && i < x) then Adjacent(cells, j, i) else NO_NEIGHBOURS
      {
        assert forall j, i :: 0 <= j < height && 0 <= i < width && cells[j][i] == cells[y][x] ==> j == y && i == x;
        LinkCell(cells, y, x);
      }
    }
  }

  /** The cells of a grid. */
  function Objects(cells: seq<seq<Cell?>>): set<Cell>
  {
    set y, x | 0 <= y < |cells| && 0 <= x < |cells[y]| && cells[y][x] != null :: cells[y][x]
  }

  /** Every cell of the grid holds its adjacent cells as neighbours. */
  ghost predicate NeighboursLinked(cells: seq<seq<Cell?>>)
    reads Objects(cells)
  {
    |cells| > 0 && Rectangular(cells)
    && forall y, x :: 0 <= y < |cells| && 0 <= x < |cells[0]| && cells[y][x] != null ==>
         cells[y][x].neighbours == Adjacent(cells, y, x)
  }

  /** No cell sits at two positions. */
  predicate Distinct(cells: seq<seq<Cell?>>)
  {
    forall y1, x1, y2, x2 ::
      0 <= y1 < |cells| && 0 <= x1 < |cells[y1]| && 0 <= y2 < |cells| && 0 <= x2 < |cells[y2]|
      && cells[y1][x1] != null && cells[y1][x1] == cells[y2][x2]
      ==> y1 == y2 && x1 == x2
  }

  /** New cells with the given styles, each linked to its adjacent cells. */
  method BuildGrid(styles: seq<seq<Node<Style>>>) returns (cells: seq<seq<Cell>>)
    requires |styles| > 0 && Rectangular(styles)
    ensures |cells| == |styles| && forall y :: 0 <= y < |styles| ==> |cells[y]| == |styles[y]|
    ensures forall y, x :: 0 <= y < |styles| && 0 <= x < |styles[y]| ==> cells[y][x].styles == styles[y][x]
    ensures NeighboursLinked(cells) && Distinct(cells)
    ensures forall c :: c in Objects(cells) ==> fresh(c)
  {
    var height, width := |styles|, |styles[0]|;
    ghost var pos;
    cells, pos := NewCells(styles);
    ghost var repr := set y, x | 0 <= y < height && 0 <= x < width :: cells[y][x];
    LinkCells(cells, repr, pos);
    assert Distinct(cells) by {
      forall y1, x1, y2, x2 | 0 <= y1 < height && 0 <= x1 < width && 0 <= y2 < height && 0 <= x2 < width
                              && cells[y1][x1] == cells[y2][x2]
        ensures y1 == y2 && x1 == x2
      {
        assert pos[cells[y1][x1]] == (y1, x1) && pos[cells[y2][x2]] == (y2, x2);
      }
    }
  }

  /** `make_cell_grid(formats)`: the grid of new cells Cell.make builds,
      each linked to its adjacent cells; the failures are those of
      GridStyles. */
  method MakeCellGrid(formats: seq<seq<string>>) returns (r: Result<seq<seq<Cell?>>, Error>)
    ensures r.Failure? <==> GridStyles(formats).Failure?
    ensures r.Failure? ==> r.error == GridStyles(formats).error
    ensures r.Success? ==> CellsMatch(r.value, GridStyles(formats).value)
    ensures r.Success? ==> NeighboursLinked(r.value) && Distinct(r.value)
    ensures r.Success? ==> forall c :: c in Objects(r.value) ==> fresh(c)
  {
    if |formats| == 0 {
      return Failure(IndexError);
    }
    var height, width := |formats|, |formats[0]|;
    if !Rectangular(formats) {
      return Failure(AssertionError);
    }
    if !AllCodesKnown(formats) {
      return Failure(KeyError);
    }
    var made: seq<seq<Option<Node<Style>>>> := seq(height, y requires 0 <= y < height =>
                  seq(width, x requires 0 <= x < width => Make(formats[y][x]).value));
    assert GridStyles(formats).Success? ==> GridStyles(formats).value == made;
    if exists y, x :: 0 <= y < height && 0 <= x < width && made[y][x].None? {
      if height > 1 || width > 1 {
        // the linking loop reads `neighbours` of the None
        return Failure(AttributeError);
      }
      r := Success([[null]]);
      assert Objects(r.value) == {};
      return;
    }
    var styles := seq(height, y requires 0 <= y < height =>
                    seq(width, x requires 0 <= x < width => made[y][x].value));
    var cells := BuildGrid(styles);
    r := Success(cells);
  }

  /** Links are symmetric: B is A's right neighbour exactly when A is B's
      left neighbour, and B is A's bottom neighbour exactly when A is B's
      top neighbour. */
  lemma LinksSymmetric(cells: seq<seq<Cell?>>, y1: nat, x1: nat, y2: nat, x2: nat)
    requires NeighboursLinked(cells) && Distinct(cells)
    requires y1 < |cells| && x1 < |cells[0]| && y2 < |cells| && x2 < |cells[0]|
    requires cells[y1][x1] != null && cells[y2][x2] != null
    ensures cells[y1][x1].neighbours.right == Linked(cells[y2][x2]) <==> cells[y2][x2].neighbours.left == Linked(cells[y1][x1])
    ensures cells[y1][x1].neighbours.bottom == Linked(cells[y2][x2]) <==> cells[y2][x2].neighbours.top == Linked(cells[y1][x1])
  {
    var a, b := cells[y1][x1], cells[y2][x2];
    var w := |cells[0]|;
    if a.neighbours.right == Linked(b) {
      assert x1 < w - 1 && cells[y1][x1 + 1] == b;
    }
    if b.neighbours.left == Linked(a) {
      assert x2 > 0 && cells[y2][x2 - 1] == a;
    }
    if a.neighbours.bottom == Linked(b) {
      assert y1 < |cells| - 1 && cells[y1 + 1][x1] == b;
    }
    if b.neighbours.top == Linked(a) {
      assert y2 > 0 && cells[y2 - 1][x2] == a;
    }
  }

  /** The styles a cell sees through its neighbour slots are those of the
      adjacent positions of the styles grid. */
  lemma NeighbourStylesAt(cells: seq<seq<Cell?>>, g: seq<seq<Node<Style>>>, y: nat, x: nat)
    requires NeighboursLinked(cells) && |g| == |cells| && Rectangular(g) && |g[0]| == |cells[0]|
    requires forall j, i :: 0 <= j < |g| && 0 <= i < |g[0]| ==> cells[j][i] != null && cells[j][i].styles == g[j][i]
    requires y < |g| && x < |g[0]|
    ensures var n := cells[y][x].neighbours;
            Node(StylesOf(n.left), StylesOf(n.top), StylesOf(n.right), StylesOf(n.bottom)) == NeighbourStyles(g, y, x)
  {
  }
}
