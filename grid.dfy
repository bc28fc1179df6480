/**
 * GridGenerator.Generate, integer part. A board of `w` by `h` cells has
 * (w + 1)(h + 1) dots and w·h cells, each numbered row by row from the top
 * left, and one line piece between every two neighbouring dots. Positions
 * are kept in half units (twice the world coordinate), where they are
 * integers: the board is centred on the origin, x grows to the right and y
 * grows upwards.
 */
module Grid {

  /** An instantiated dot or cell: the number in its name, its id, and its position in half units. */
  datatype Spawn = Spawn(name: int, id: int, x2: int, y2: int)

  /** A grid line piece: its centre in half units, and whether it is turned upright. */
  datatype Line = Line(x2: int, y2: int, vertical: bool)

  /** A loop bound as a count: a loop to a negative bound runs no times. */
  function Clamp(n: int): nat
  {
    if n < 0 then 0 else n
  }

  /** `b` rows of `a`, counted row by row. */
  function Rows(a: nat, b: nat): nat
  {
    if b == 0 then 0 else Rows(a, b - 1) + a
  }

  lemma {:induction false} RowsProduct(a: nat, b: nat)
    ensures Rows(a, b) == a * b
  {
    if b > 0 {
      RowsProduct(a, b - 1);
      assert a * b == a * (b - 1) + a;
    }
  }

  /** An even count of half units, that is, a whole number of units. */
  predicate Even(n: int)
    decreases if n < 0 then 0 else n
  {
    n == 0 || (n >= 2 && Even(n - 2))
  }

  lemma {:induction false} EvenDouble(m: nat)
    ensures Even(2 * m)
  {
    if m > 0 {
      EvenDouble(m - 1);
    }
  }

  /** A point of the dot lattice of a `w` by `h` board, in half units. */
  predicate OnLattice(w: int, h: int, x2: int, y2: int)
  {
    -w <= x2 <= w && -h <= y2 <= h && Even(x2 + w) && Even(h - y2)
  }

  /** Instantiated in order: entry k is named with k and has id k + 1. */
  predicate Numbered(s: seq<Spawn>)
  {
    forall k :: 0 <= k < |s| ==> s[k].name == k && s[k].id == k + 1
  }

  /**
   * Row-major order of the dots: `b` is one column right of `a`, or, when
   * `a` ends its row, at the left end of the row below.
   */
  predicate DotFollows(w: int, a: Spawn, b: Spawn)
  {
    if a.x2 < w then b.x2 == a.x2 + 2 && b.y2 == a.y2 else b.x2 == -w && b.y2 == a.y2 - 2
  }

  /** Row-major order of the cells, whose centres run from -w + 1 to w - 1. */
  predicate CellFollows(w: int, a: Spawn, b: Spawn)
  {
    if a.x2 < w - 1 then b.x2 == a.x2 + 2 && b.y2 == a.y2 else b.x2 == -w + 1 && b.y2 == a.y2 - 2
  }

  /** A cell sits at the centre of a lattice square: its four corners are lattice points. */
  predicate Centred(w: int, h: int, c: Spawn)
  {
    && OnLattice(w, h, c.x2 - 1, c.y2 + 1) && OnLattice(w, h, c.x2 + 1, c.y2 + 1)
    && OnLattice(w, h, c.x2 - 1, c.y2 - 1) && OnLattice(w, h, c.x2 + 1, c.y2 - 1)
  }

  /** A line piece lies halfway between two neighbouring lattice points. */
  predicate Joins(w: int, h: int, l: Line)
  {
    if l.vertical then OnLattice(w, h, l.x2, l.y2 + 1) && OnLattice(w, h, l.x2, l.y2 - 1)
    else OnLattice(w, h, l.x2 - 1, l.y2) && OnLattice(w, h, l.x2 + 1, l.y2)
  }

  /** How many line pieces lie flat. */
  function Horizontal(lines: seq<Line>): nat
  {
    if lines == [] then 0
    else Horizontal(lines[..|lines| - 1]) + (if lines[|lines| - 1].vertical then 0 else 1)
  }

  /** How many line pieces stand upright. */
  function Vertical(lines: seq<Line>): nat
  {
    if lines == [] then 0
    else Vertical(lines[..|lines| - 1]) + (if lines[|lines| - 1].vertical then 1 else 0)
  }

  /** Appending a piece adds one to its own count. */
  lemma CountsGrow(lines: seq<Line>, l: Line)
    ensures Horizontal(lines + [l]) == Horizontal(lines) + (if l.vertical then 0 else 1)
    ensures Vertical(lines + [l]) == Vertical(lines) + (if l.vertical then 1 else 0)
  {
    assert (lines + [l])[..|lines|] == lines;
  }

  /** The dots so far: numbered in order, each on the lattice, each after the previous in row-major order. */
  predicate DotsInOrder(w: int, h: int, dots: seq<Spawn>)
  {
    && Numbered(dots)
    && (forall k :: 0 <= k < |dots| - 1 ==> DotFollows(w, dots[k], dots[k + 1]))
    && (forall k :: 0 <= k < |dots| ==> OnLattice(w, h, dots[k].x2, dots[k].y2))
  }

  /** The cells so far: numbered in order, each centred in a lattice square, each after the previous in row-major order. */
  predicate CellsInOrder(w: int, h: int, cells: seq<Spawn>)
  {
    && Numbered(cells)
    && (forall k :: 0 <= k < |cells| - 1 ==> CellFollows(w, cells[k], cells[k + 1]))
    && (forall k :: 0 <= k < |cells| ==> Centred(w, h, cells[k]))
  }

  lemma CellsGrow(w: int, h: int, cells: seq<Spawn>, c: Spawn)
    requires CellsInOrder(w, h, cells) && c.name == |cells| && c.id == |cells| + 1 && Centred(w, h, c)
    requires cells != [] ==> CellFollows(w, cells[|cells| - 1], c)
    ensures CellsInOrder(w, h, cells + [c])
  {
  }

  /** Every line piece so far joins two neighbouring lattice points. */
  predicate AllJoin(w: int, h: int, lines: seq<Line>)
  {
    forall k :: 0 <= k < |lines| ==> Joins(w, h, lines[k])
  }

  lemma DotsGrow(w: int, h: int, dots: seq<Spawn>, d: Spawn)
    requires DotsInOrder(w, h, dots) && d.name == |dots| && d.id == |dots| + 1 && OnLattice(w, h, d.x2, d.y2)
    requires dots != [] ==> DotFollows(w, dots[|dots| - 1], d)
    ensures DotsInOrder(w, h, dots + [d])
  {
  }

  lemma JoinsGrow(w: int, h: int, lines: seq<Line>, l: Line)
    requires AllJoin(w, h, lines) && Joins(w, h, l)
    ensures AllJoin(w, h, lines + [l])
  {
  }

  /** Row-major precedence: `a` is in a higher row, or in the same row further left. */
  predicate Before(a: Spawn, b: Spawn)
  {
    a.y2 > b.y2 || (a.y2 == b.y2 && a.x2 < b.x2)
  }

  /** Dots in order come strictly one after another, so no two of them share a position. */
  lemma {:induction false} DotsApart(w: int, h: int, dots: seq<Spawn>, k: int, l: int)
    requires DotsInOrder(w, h, dots) && 0 <= k < l < |dots|
    ensures Before(dots[k], dots[l])
    ensures dots[k].x2 != dots[l].x2 || dots[k].y2 != dots[l].y2
    decreases l - k
  {
    assert DotFollows(w, dots[l - 1], dots[l]) && OnLattice(w, h, dots[l - 1].x2, dots[l - 1].y2);
    if k < l - 1 {
      DotsApart(w, h, dots, k, l - 1);
    }
  }

  /** Cells in order come strictly one after another, so no two of them share a position. */
  lemma {:induction false} CellsApart(w: int, h: int, cells: seq<Spawn>, k: int, l: int)
    requires CellsInOrder(w, h, cells) && 0 <= k < l < |cells|
    ensures Before(cells[k], cells[l])
    ensures cells[k].x2 != cells[l].x2 || cells[k].y2 != cells[l].y2
    decreases l - k
  {
    assert CellFollows(w, cells[l - 1], cells[l]) && Centred(w, h, cells[l - 1]);
    if k < l - 1 {
      CellsApart(w, h, cells, k, l - 1);
    }
  }

  /**
   * The dot in row `i`, column `j` is entry i·(w + 1) + j, with id
   * i·(w + 1) + j + 1, at (2j - w, h - 2i) in half units.
   */
  lemma {:induction false} DotAt(w: int, h: int, dots: seq<Spawn>, i: nat, j: int)
    requires w >= 0 && DotsInOrder(w, h, dots) && dots != [] && dots[0].x2 == -w && dots[0].y2 == h
    requires 0 <= j <= w && Rows(w + 1, i) + j < |dots|
    ensures dots[Rows(w + 1, i) + j].id == Rows(w + 1, i) + j + 1
    ensures dots[Rows(w + 1, i) + j].x2 == 2 * j - w && dots[Rows(w + 1, i) + j].y2 == h - 2 * i
    decreases i, j
  {
    var k := Rows(w + 1, i) + j;
    if j > 0 {
      DotAt(w, h, dots, i, j - 1);
      assert DotFollows(w, dots[k - 1], dots[k]);
    } else if i > 0 {
      DotAt(w, h, dots, i - 1, w);
      assert DotFollows(w, dots[k - 1], dots[k]);
    }
  }

  /**
   * The cell in row `i`, column `j` is entry i·w + j, with id i·w + j + 1,
   * at (2j - w + 1, h - 2i - 1) in half units.
   */
  lemma {:induction false} CellAt(w: int, h: int, cells: seq<Spawn>, i: nat, j: int)
    requires CellsInOrder(w, h, cells) && cells != [] && cells[0].x2 == -w + 1 && cells[0].y2 == h - 1
    requires 0 <= j < w && Rows(w, i) + j < |cells|
    ensures cells[Rows(w, i) + j].id == Rows(w, i) + j + 1
    ensures cells[Rows(w, i) + j].x2 == 2 * j - w + 1 && cells[Rows(w, i) + j].y2 == h - 2 * i - 1
    decreases i, j
  {
    var k := Rows(w, i) + j;
    if j > 0 {
      CellAt(w, h, cells, i, j - 1);
      assert CellFollows(w, cells[k - 1], cells[k]);
    } else if i > 0 {
      CellAt(w, h, cells, i - 1, w - 1);
      assert CellFollows(w, cells[k - 1], cells[k]);
    }
  }

  /** The dot in row `i`, column `j` sits on the lattice. */
  lemma LatticePoint(w: int, h: int, i: int, j: int)
    requires 0 <= i <= h && 0 <= j <= w
    ensures OnLattice(w, h, 2 * j - w, h - 2 * i)
  {
    EvenDouble(j);
    EvenDouble(i);
    assert 2 * j - w + w == 2 * j && h - (h - 2 * i) == 2 * i;
  }

  /** The piece right of the dot in row `i`, column `j < w` joins it to its right neighbour. */
  lemma FlatJoins(w: int, h: int, i: int, j: int)
    requires 0 <= i <= h && 0 <= j < w
    ensures Joins(w, h, Line(2 * j - w + 1, h - 2 * i, false))
  {
    LatticePoint(w, h, i, j);
    LatticePoint(w, h, i, j + 1);
  }

  /** The piece below the dot in row `i < h`, column `j` joins it to the dot below. */
  lemma UprightJoins(w: int, h: int, i: int, j: int)
    requires 0 <= i < h && 0 <= j <= w
    ensures Joins(w, h, Line(2 * j - w, h - 2 * i - 1, true))
  {
    LatticePoint(w, h, i, j);
    LatticePoint(w, h, i + 1, j);
  }

  /** The cell in row `i < h`, column `j < w` is centred in its lattice square. */
  lemma CellCentred(w: int, h: int, i: int, j: int, c: Spawn)
    requires 0 <= i < h && 0 <= j < w && c.x2 == 2 * j - w + 1 && c.y2 == h - 2 * i - 1
    ensures Centred(w, h, c)
  {
    LatticePoint(w, h, i, j);
    LatticePoint(w, h, i, j + 1);
    LatticePoint(w, h, i + 1, j);
    LatticePoint(w, h, i + 1, j + 1);
  }

  /**
   * The line pieces instantiated with the dot in row `i`, column `j`: one to
   * its right unless it ends its row, one below it unless it is in the last
   * row.
   */
  method PlaceLines(w: int, h: int, i: int, j: int, lines0: seq<Line>) returns (lines: seq<Line>)
    requires 0 <= i <= h && 0 <= j <= w && AllJoin(w, h, lines0)
    ensures AllJoin(w, h, lines)
    ensures Horizontal(lines) == Horizontal(lines0) + (if j < w then 1 else 0)
    ensures Vertical(lines) == Vertical(lines0) + (if i < h then 1 else 0)
  {
    var dotCountX, dotCountY := w + 1, h + 1;
    var x2, y2 := 2 * j - w, h - 2 * i;
    lines := lines0;
    if j < dotCountX - 1 {
      var line := Line(x2 + 1, y2, false);
      FlatJoins(w, h, i, j);
      CountsGrow(lines, line);
      JoinsGrow(w, h, lines, line);
      lines := lines + [line];
    }
    if i < dotCountY - 1 {
      var line := Line(x2, y2 - 1, true);
      UprightJoins(w, h, i, j);
      CountsGrow(lines, line);
      JoinsGrow(w, h, lines, line);
      lines := lines + [line];
    }
  }

  /**
   * Row `i` of the dots (the inner loop over the dots): each dot gets the
   * next number and id, and is followed by the line piece to its right
   * (except in the last column) and the one below it (except in the last
   * row).
   */
  method PlaceRow(w: int, h: int, i: int, index0: int, dots0: seq<Spawn>, lines0: seq<Line>)
    returns (index: int, dots: seq<Spawn>, lines: seq<Line>)
    requires 0 <= i <= h && index0 == |dots0|
    requires dots0 == [] ==> i == 0 || w < 0
    requires dots0 != [] ==> dots0[|dots0| - 1].x2 == w && dots0[|dots0| - 1].y2 == h - 2 * i + 2
    requires DotsInOrder(w, h, dots0) && AllJoin(w, h, lines0)
    ensures index == |dots| == |dots0| + Clamp(w + 1)
    ensures dots == [] ==> i == 0 || w < 0
    ensures dots != [] ==> dots[|dots| - 1].x2 == w && dots[|dots| - 1].y2 == h - 2 * i
    ensures dots != [] ==> dots[0].x2 == (if dots0 == [] then -w else dots0[0].x2) && dots[0].y2 == (if dots0 == [] then h else dots0[0].y2)
    ensures DotsInOrder(w, h, dots) && AllJoin(w, h, lines)
    ensures Horizontal(lines) == Horizontal(lines0) + Clamp(w)
    ensures Vertical(lines) == Vertical(lines0) + (if i < h then Clamp(w + 1) else 0)
  {
    var dotCountX, dotCountY := w + 1, h + 1;
    index, dots, lines := index0, dots0, lines0;
    var j := 0;
    while j < dotCountX
      invariant 0 <= j <= Clamp(dotCountX)
      invariant index == |dots| == |dots0| + j && dots[..|dots0|] == dots0
      invariant dots == [] ==> i == 0 || w < 0
      invariant dots != [] && j > 0 ==> dots[|dots| - 1].x2 == 2 * j - 2 - w && dots[|dots| - 1].y2 == h - 2 * i
      invariant dots != [] && j == 0 ==> dots[|dots| - 1].x2 == w && dots[|dots| - 1].y2 == h - 2 * i + 2
      invariant dots != [] ==> dots[0].x2 == (if dots0 == [] then -w else dots0[0].x2) && dots[0].y2 == (if dots0 == [] then h else dots0[0].y2)
      invariant DotsInOrder(w, h, dots) && AllJoin(w, h, lines)
      invariant Horizontal(lines) == Horizontal(lines0) + (if j < w then j else Clamp(w))
      invariant Vertical(lines) == Vertical(lines0) + (if i < h then j else 0)
    {
      var name := index;
      index := index + 1;
      var d := Spawn(name, index, 2 * j - w, h - 2 * i);
      LatticePoint(w, h, i, j);
      DotsGrow(w, h, dots, d);
      dots := dots + [d];
      lines := PlaceLines(w, h, i, j, lines);
      j := j + 1;
    }
  }

  /**
   * The dots and line pieces of Generate: rows of w + 1 dots from the top
   * left, dot number k named `Dot(k)` with id k + 1.
   */
  method PlaceDots(w: int, h: int) returns (dots: seq<Spawn>, lines: seq<Line>)
    ensures |dots| == Clamp(w + 1) * Clamp(h + 1)
    ensures Numbered(dots)
    ensures dots != [] ==> dots[0].x2 == -w && dots[0].y2 == h
    ensures forall k :: 0 <= k < |dots| - 1 ==> DotFollows(w, dots[k], dots[k + 1])
    ensures forall k :: 0 <= k < |dots| ==> OnLattice(w, h, dots[k].x2, dots[k].y2)
    ensures Horizontal(lines) == Clamp(w) * Clamp(h + 1) && Vertical(lines) == Clamp(w + 1) * Clamp(h)
    ensures forall k :: 0 <= k < |lines| ==> Joins(w, h, lines[k])
  {
    var dotCountY := h + 1;
    ghost var n := Clamp(w + 1);
    var index := 0;
    dots, lines := [], [];
    ghost var upright := 0;
    var i := 0;
    while i < dotCountY
      invariant 0 <= i <= Clamp(dotCountY)
      invariant index == |dots| == Rows(n, i)
      invariant dots == [] ==> i == 0 || w < 0
      invariant dots != [] ==> dots[|dots| - 1].x2 == w && dots[|dots| - 1].y2 == h - 2 * i + 2
      invariant dots != [] ==> dots[0].x2 == -w && dots[0].y2 == h
      invariant DotsInOrder(w, h, dots)
      invariant upright == (if i <= h then i else Clamp(h))
      invariant Horizontal(lines) == Rows(Clamp(w), i) && Vertical(lines) == Rows(n, upright)
      invariant AllJoin(w, h, lines)
    {
      index, dots, lines := PlaceRow(w, h, i, index, dots, lines);
      if i < h {
        upright := upright + 1;
      }
      i := i + 1;
    }
    assert i == Clamp(h + 1) && upright == Clamp(h);
    RowsProduct(n, i);
    RowsProduct(Clamp(w), i);
    RowsProduct(n, upright);
  }

  /**
   * The cells of Generate: the running number starts afresh; rows of w
   * cells from the top left, cell number k named `Cell(k)` with id k + 1,
   * each centred in its lattice square.
   */
  method PlaceCells(w: int, h: int) returns (cells: seq<Spawn>)
    ensures |cells| == Clamp(w) * Clamp(h)
    ensures Numbered(cells)
    ensures cells != [] ==> cells[0].x2 == -w + 1 && cells[0].y2 == h - 1
    ensures forall k :: 0 <= k < |cells| - 1 ==> CellFollows(w, cells[k], cells[k + 1])
    ensures forall k :: 0 <= k < |cells| ==> Centred(w, h, cells[k])
  {
    ghost var n := Clamp(w);
    var index := 0;
    cells := [];
    var i := 0;
    while i < h
      invariant 0 <= i <= Clamp(h)
      invariant index == |cells| == Rows(n, i)
      invariant cells == [] ==> i == 0 || w <= 0
      invariant cells != [] ==> cells[|cells| - 1].x2 == w - 1 && cells[|cells| - 1].y2 == h - 2 * i + 1
      invariant cells != [] ==> cells[0].x2 == -w + 1 && cells[0].y2 == h - 1
      invariant CellsInOrder(w, h, cells)
    {
      ghost var rowStart := |cells|;
      var j := 0;
      while j < w
        invariant 0 <= j <= n
        invariant index == |cells| == rowStart + j
        invariant cells == [] ==> i == 0 || w <= 0
        invariant cells != [] && j > 0 ==> cells[|cells| - 1].x2 == 2 * j - w - 1 && cells[|cells| - 1].y2 == h - 2 * i - 1
        invariant cells != [] && j == 0 ==> cells[|cells| - 1].x2 == w - 1 && cells[|cells| - 1].y2 == h - 2 * i + 1
        invariant cells != [] ==> cells[0].x2 == -w + 1 && cells[0].y2 == h - 1
        invariant CellsInOrder(w, h, cells)
      {
        var name := index;
        index := index + 1;
        var c := Spawn(name, index, 2 * j - w + 1, h - 2 * i - 1);
        CellCentred(w, h, i, j, c);
        CellsGrow(w, h, cells, c);
        cells := cells + [c];
        j := j + 1;
      }
      i := i + 1;
    }
    assert i == Clamp(h);
    RowsProduct(n, i);
  }

  /** Generate: first the dots with their line pieces, then the cells. */
  method Generate(w: int, h: int) returns (dots: seq<Spawn>, lines: seq<Line>, cells: seq<Spawn>)
    ensures |dots| == Clamp(w + 1) * Clamp(h + 1) && |cells| == Clamp(w) * Clamp(h)
    ensures Numbered(dots) && Numbered(cells)
    ensures dots != [] ==> dots[0].x2 == -w && dots[0].y2 == h
    ensures forall k :: 0 <= k < |dots| - 1 ==> DotFollows(w, dots[k], dots[k + 1])
    ensures forall k :: 0 <= k < |dots| ==> OnLattice(w, h, dots[k].x2, dots[k].y2)
    ensures cells != [] ==> cells[0].x2 == -w + 1 && cells[0].y2 == h - 1
    ensures forall k :: 0 <= k < |cells| - 1 ==> CellFollows(w, cells[k], cells[k + 1])
    ensures forall k :: 0 <= k < |cells| ==> Centred(w, h, cells[k])
    ensures Horizontal(lines) == Clamp(w) * Clamp(h + 1) && Vertical(lines) == Clamp(w + 1) * Clamp(h)
    ensures forall k :: 0 <= k < |lines| ==> Joins(w, h, lines[k])
  {
    dots, lines := PlaceDots(w, h);
    cells := PlaceCells(w, h);
  }
}
