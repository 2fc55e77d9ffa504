/**
 * The panel test: for every panel of a chained LED matrix, fill its
 * rectangle red, then green, then blue, clear the canvas, draw the panel's
 * "(col,row)" label and clear again. The canvas is a log of the calls made
 * on it; the pauses between the calls are not modelled.
 */
module PanelTest {
  import opened Wrappers
  import opened Graphics
  import Delimited
  import opened Sequences

  const Black: Color := Color(0, 0, 0)
  const Blue: Color := Color(0, 0, 255)
  const Green: Color := Color(0, 255, 0)
  const Red: Color := Color(255, 0, 0)
  const White: Color := Color(255, 255, 255)

  /** The colours each panel is filled with, in this order. */
  const Colors: seq<Color> := [Red, Green, Blue]

  /** The matrix options the test reads; a null pixel-mapper string is None. */
  datatype Options = Options(chainLength: int, parallel: int, rows: int, cols: int, pixelMapperConfig: Option<string>)

  /** One call on the canvas. */
  datatype Op =
    | PixelSet(x: int, y: int, color: Color)
    | Cleared
    | TextDrawn(x: int, y: int, color: Color, background: Color, text: string)

  /** The canvas, as the calls made on it so far. */
  class Canvas {
    var ops: seq<Op>

    constructor ()
      ensures ops == []
    {
      ops := [];
    }

    method SetPixel(x: int, y: int, c: Color)
      modifies this
      ensures ops == old(ops) + [PixelSet(x, y, c)]
    {
      ops := ops + [PixelSet(x, y, c)];
    }

    method Clear()
      modifies this
      ensures ops == old(ops) + [Cleared]
    {
      ops := ops + [Cleared];
    }

    /** `DrawText(canvas, font, x, y, color, background, text)`; the font is not modelled. */
    method DrawText(x: int, y: int, color: Color, background: Color, text: string)
      modifies this
      ensures ops == old(ops) + [TextDrawn(x, y, color, background, text)]
    {
      ops := ops + [TextDrawn(x, y, color, background, text)];
    }
  }

  // ---------------------------------------------------------------------
  // The rotation rule

  predicate OccursAt(s: string, p: string, i: nat)
  {
    i + |p| <= |s| && s[i..i + |p|] == p
  }

  /** `s.find(p, from)`: the first position at or after `from` where `p` occurs; None is `npos`. */
  function FindFrom(s: string, p: string, from: nat): (r: Option<nat>)
    ensures r.Some? ==> from <= r.value && OccursAt(s, p, r.value)
    ensures r.Some? ==> forall i :: from <= i < r.value ==> !OccursAt(s, p, i)
    ensures r.None? ==> forall i :: from <= i ==> !OccursAt(s, p, i)
    decreases |s| - from
  {
    if from + |p| > |s| then None
    else if s[from..from + |p|] == p then Some(from)
    else FindFrom(s, p, from + 1)
  }

  function Find(s: string, p: string): Option<nat>
  {
    FindFrom(s, p, 0)
  }

  /** The pixel-mapper string, or "" when there is none. */
  function Mapping(o: Options): string
  {
    if o.pixelMapperConfig.Some? then o.pixelMapperConfig.value else ""
  }

  /** `!mapping.find("Rotate:90") || !mapping.find("Rotate:270")`: `!` holds only of position 0. */
  predicate Rotated(o: Options)
  {
    Find(Mapping(o), "Rotate:90") == Some(0) || Find(Mapping(o), "Rotate:270") == Some(0)
  }

  /** The number of panel columns and panel rows, swapped for a quarter-turn rotation. */
  function PanelGrid(o: Options): (int, int)
  {
    if Rotated(o) then (o.parallel, o.chainLength) else (o.chainLength, o.parallel)
  }

  /**
   * The grid is swapped exactly when the pixel-mapper string begins with
   * "Rotate:90" or "Rotate:270"; an occurrence later in the string, or no
   * string at all, leaves it as chained.
   */
  lemma RotationRule(o: Options)
    ensures Rotated(o) <==>
      (o.pixelMapperConfig.Some? && ("Rotate:90" <= o.pixelMapperConfig.value || "Rotate:270" <= o.pixelMapperConfig.value))
    ensures PanelGrid(o) == if Rotated(o) then (o.parallel, o.chainLength) else (o.chainLength, o.parallel)
  {
    FindAtStart(Mapping(o), "Rotate:90");
    FindAtStart(Mapping(o), "Rotate:270");
  }

  /** `find` answers 0 exactly when the string begins with the pattern. */
  lemma FindAtStart(s: string, p: string)
    requires p != []
    ensures Find(s, p) == Some(0) <==> p <= s
  {
    if p <= s {
      assert OccursAt(s, p, 0);
    }
  }

  // ---------------------------------------------------------------------
  // Column-major traversal

  /** How often `for (i = 0; i < n; i++)` runs its body. */
  function Count(n: int): nat
  {
    if n > 0 then n else 0
  }

  /** Cells (i, 0), ..., (i, n - 1): the inner loop of one outer iteration. */
  function ColumnCells(i: int, n: nat): seq<(int, int)>
  {
    if n == 0 then [] else ColumnCells(i, n - 1) + [(i, n - 1)]
  }

  /** The cells of a w × h grid as an outer loop over i and an inner loop over j visit them. */
  function Cells(w: nat, h: nat): seq<(int, int)>
  {
    if w == 0 then [] else Cells(w - 1, h) + ColumnCells(w - 1, h)
  }

  lemma {:induction false} ColumnCellsAt(i: int, n: nat)
    ensures |ColumnCells(i, n)| == n
    ensures forall j :: 0 <= j < n ==> ColumnCells(i, n)[j] == (i, j)
  {
    if n > 0 {
      ColumnCellsAt(i, n - 1);
    }
  }

  /** Euclidean division recovers quotient and remainder. */
  lemma DivMod(q: int, r: int, h: int)
    requires h > 0 && 0 <= r < h
    ensures (q * h + r) / h == q && (q * h + r) % h == r
  {
    var k := q * h + r;
    var d := k / h - q;
    assert h * d == r - k % h;
  }

  lemma {:induction false} CellsLength(w: nat, h: nat)
    ensures |Cells(w, h)| == w * h
  {
    if w > 0 {
      CellsLength(w - 1, h);
      ColumnCellsAt(w - 1, h);
      assert (w - 1) * h + h == w * h;
    }
  }

  /** Visit k of the grid is (k / h, k % h): i changes slowest, each cell once. */
  lemma CellsOrder(w: nat, h: nat)
    ensures |Cells(w, h)| == w * h
    ensures forall k :: 0 <= k < |Cells(w, h)| ==> Cells(w, h)[k] == (k / h, k % h)
  {
    CellsLength(w, h);
    forall k | 0 <= k < |Cells(w, h)|
      ensures Cells(w, h)[k] == (k / h, k % h)
    {
      assert h > 0;
      CellAt(w, h, k);
    }
  }

  /** Visit k of the grid, one visit at a time. */
  lemma {:induction false} CellAt(w: nat, h: nat, k: nat)
    requires h > 0 && k < |Cells(w, h)|
    ensures Cells(w, h)[k] == (k / h, k % h)
  {
    var prev, column := Cells(w - 1, h), ColumnCells(w - 1, h);
    assert Cells(w, h) == prev + column;
    ColumnCellsAt(w - 1, h);
    if k < |prev| {
      assert Cells(w, h)[k] == prev[k];
      CellAt(w - 1, h, k);
    } else {
      var r := k - |prev|;
      assert Cells(w, h)[k] == column[r] == (w - 1, r);
      CellsLength(w - 1, h);
      Shifted(|prev|, w - 1, r, h);
    }
  }

  /** DivMod with the multiple q·h already named n. */
  lemma Shifted(n: int, q: int, r: int, h: int)
    requires h > 0 && 0 <= r < h && n == q * h
    ensures (n + r) / h == q && (n + r) % h == r
  {
    DivMod(q, r, h);
  }

  /** Every visit is to a cell of the grid. */
  lemma {:induction false} CellInGrid(w: nat, h: nat, k: nat)
    requires k < |Cells(w, h)|
    ensures 0 <= Cells(w, h)[k].0 < w && 0 <= Cells(w, h)[k].1 < h
  {
    var prev, column := Cells(w - 1, h), ColumnCells(w - 1, h);
    assert Cells(w, h) == prev + column;
    ColumnCellsAt(w - 1, h);
    if k < |prev| {
      assert Cells(w, h)[k] == prev[k];
      CellInGrid(w - 1, h, k);
    } else {
      assert Cells(w, h)[k] == column[k - |prev|];
    }
  }

  /** Every cell of the grid has a visit. */
  lemma {:induction false} CellIndex(w: nat, h: nat, i: int, j: int) returns (k: nat)
    requires 0 <= i < w && 0 <= j < h
    ensures k < |Cells(w, h)| && Cells(w, h)[k] == (i, j)
  {
    var prev, column := Cells(w - 1, h), ColumnCells(w - 1, h);
    assert Cells(w, h) == prev + column;
    ColumnCellsAt(w - 1, h);
    if i == w - 1 {
      k := |prev| + j;
      assert Cells(w, h)[k] == column[j];
    } else {
      k := CellIndex(w - 1, h, i, j);
      assert Cells(w, h)[k] == prev[k];
    }
  }

  /** The grid visits exactly the cells with 0 <= i < w and 0 <= j < h. */
  lemma CellsContain(w: nat, h: nat, i: int, j: int)
    ensures (i, j) in Cells(w, h) <==> 0 <= i < w && 0 <= j < h
  {
    if (i, j) in Cells(w, h) {
      var k :| 0 <= k < |Cells(w, h)| && Cells(w, h)[k] == (i, j);
      CellInGrid(w, h, k);
    }
    if 0 <= i < w && 0 <= j < h {
      var k := CellIndex(w, h, i, j);
    }
  }

  /** No cell is visited twice. */
  lemma CellsDistinct(w: nat, h: nat)
    ensures forall a, b :: 0 <= a < b < |Cells(w, h)| ==> Cells(w, h)[a] != Cells(w, h)[b]
  {
    CellsOrder(w, h);
    forall a, b | 0 <= a < b < w * h
      ensures Cells(w, h)[a] != Cells(w, h)[b]
    {
      assert a == h * (a / h) + a % h;
      assert b == h * (b / h) + b % h;
    }
  }

  // ---------------------------------------------------------------------
  // Panel rectangles

  /** One `SetPixel` of colour `c` per cell, offset by (x0, y0). */
  function Paint(cells: seq<(int, int)>, x0: int, y0: int, c: Color): seq<Op>
  {
    if cells == [] then []
    else Paint(cells[..|cells| - 1], x0, y0, c) + [PixelSet(x0 + cells[|cells| - 1].0, y0 + cells[|cells| - 1].1, c)]
  }

  /** The pixels (x, y0), ..., (x, y0 + n − 1) in colour c. */
  function Strip(x: int, y0: int, n: nat, c: Color): seq<Op>
  {
    if n == 0 then [] else Strip(x, y0, n - 1, c) + [PixelSet(x, y0 + n - 1, c)]
  }

  /** Strips x0, ..., x0 + w − 1 of height h, one after the other. */
  function Block(x0: int, y0: int, w: nat, h: nat, c: Color): seq<Op>
  {
    if w == 0 then [] else Block(x0, y0, w - 1, h, c) + Strip(x0 + w - 1, y0, h, c)
  }

  /** Call k of a paint is the `SetPixel` of cell k. */
  lemma {:induction false} PaintAt(cells: seq<(int, int)>, x0: int, y0: int, c: Color)
    ensures |Paint(cells, x0, y0, c)| == |cells|
    ensures forall k :: 0 <= k < |cells| ==> Paint(cells, x0, y0, c)[k] == PixelSet(x0 + cells[k].0, y0 + cells[k].1, c)
  {
    if cells != [] {
      PaintAt(cells[..|cells| - 1], x0, y0, c);
    }
  }

  /** Panel (col, row) filled with `c`: x from x0 to x1, and for each x, y from y0 to y1. */
  function Rect(o: Options, col: int, row: int, c: Color): seq<Op>
  {
    Block(o.cols * col, o.rows * row, Count(o.cols), Count(o.rows), c)
  }

  /** Painting one more cell appends its `SetPixel`. */
  lemma PaintSnoc(cells: seq<(int, int)>, cell: (int, int), x0: int, y0: int, c: Color)
    ensures Paint(cells + [cell], x0, y0, c) == Paint(cells, x0, y0, c) + [PixelSet(x0 + cell.0, y0 + cell.1, c)]
  {
    assert (cells + [cell])[..|cells|] == cells;
  }

  lemma {:induction false} PaintAppend(a: seq<(int, int)>, b: seq<(int, int)>, x0: int, y0: int, c: Color)
    ensures Paint(a + b, x0, y0, c) == Paint(a, x0, y0, c) + Paint(b, x0, y0, c)
    decreases |b|
  {
    if b == [] {
      assert a + b == a;
    } else {
      var n := |b| - 1;
      assert (a + b)[..|a + b| - 1] == a + b[..n];
      PaintAppend(a, b[..n], x0, y0, c);
    }
  }

  lemma {:induction false} StripPaint(i: int, n: nat, x0: int, y0: int, c: Color)
    ensures Strip(x0 + i, y0, n, c) == Paint(ColumnCells(i, n), x0, y0, c)
  {
    if n > 0 {
      StripPaint(i, n - 1, x0, y0, c);
      PaintSnoc(ColumnCells(i, n - 1), (i, n - 1), x0, y0, c);
    }
  }

  /** The nested x and y loops paint the cells of the grid in the order Cells visits them. */
  lemma {:induction false} BlockPaint(x0: int, y0: int, w: nat, h: nat, c: Color)
    ensures Block(x0, y0, w, h, c) == Paint(Cells(w, h), x0, y0, c)
  {
    if w > 0 {
      var i := w - 1;
      assert Block(x0, y0, w, h, c) == Block(x0, y0, i, h, c) + Strip(x0 + i, y0, h, c);
      assert Cells(w, h) == Cells(i, h) + ColumnCells(i, h);
      BlockPaint(x0, y0, i, h, c);
      StripPaint(i, h, x0, y0, c);
      PaintAppend(Cells(i, h), ColumnCells(i, h), x0, y0, c);
    }
  }

  /** Call k of a block is the `SetPixel` of the k-th cell visited. */
  lemma BlockAt(x0: int, y0: int, w: nat, h: nat, c: Color)
    ensures |Block(x0, y0, w, h, c)| == |Cells(w, h)|
    ensures forall k :: 0 <= k < |Cells(w, h)| ==>
      Block(x0, y0, w, h, c)[k] == PixelSet(x0 + Cells(w, h)[k].0, y0 + Cells(w, h)[k].1, c)
  {
    BlockPaint(x0, y0, w, h, c);
    PaintAt(Cells(w, h), x0, y0, c);
  }

  /** A block writes pixel (x, y) in colour c' exactly when c' is its colour and (x, y) lies inside it. */
  lemma BlockContains(x0: int, y0: int, w: nat, h: nat, c: Color, x: int, y: int, c': Color)
    ensures PixelSet(x, y, c') in Block(x0, y0, w, h, c) <==>
      c' == c && x0 <= x < x0 + w && y0 <= y < y0 + h
  {
    if PixelSet(x, y, c') in Block(x0, y0, w, h, c) {
      BlockInside(x0, y0, w, h, c, x, y, c');
    }
    if c' == c && x0 <= x < x0 + w && y0 <= y < y0 + h {
      BlockCovers(x0, y0, w, h, c, x, y);
    }
  }

  lemma BlockInside(x0: int, y0: int, w: nat, h: nat, c: Color, x: int, y: int, c': Color)
    requires PixelSet(x, y, c') in Block(x0, y0, w, h, c)
    ensures c' == c && x0 <= x < x0 + w && y0 <= y < y0 + h
  {
    var ops := Block(x0, y0, w, h, c);
    BlockAt(x0, y0, w, h, c);
    var k :| 0 <= k < |ops| && ops[k] == PixelSet(x, y, c');
    CellInGrid(w, h, k);
  }

  lemma BlockCovers(x0: int, y0: int, w: nat, h: nat, c: Color, x: int, y: int)
    requires x0 <= x < x0 + w && y0 <= y < y0 + h
    ensures PixelSet(x, y, c) in Block(x0, y0, w, h, c)
  {
    BlockAt(x0, y0, w, h, c);
    var k := CellIndex(w, h, x - x0, y - y0);
    assert Block(x0, y0, w, h, c)[k] == PixelSet(x, y, c);
  }

  /** A block is w × h `SetPixel` calls in its colour, no pixel twice. */
  lemma BlockArea(x0: int, y0: int, w: nat, h: nat, c: Color)
    ensures |Block(x0, y0, w, h, c)| == w * h
    ensures forall op :: op in Block(x0, y0, w, h, c) ==> op.PixelSet? && op.color == c
    ensures forall a, b :: 0 <= a < b < |Block(x0, y0, w, h, c)| ==> Block(x0, y0, w, h, c)[a] != Block(x0, y0, w, h, c)[b]
  {
    var cells := Cells(w, h);
    var ops := Block(x0, y0, w, h, c);
    CellsLength(w, h);
    BlockAt(x0, y0, w, h, c);
    CellsDistinct(w, h);
    forall a, b | 0 <= a < b < |cells|
      ensures ops[a] != ops[b]
    {
      assert cells[a] != cells[b];
    }
  }

  /**
   * Filling panel (col, row) writes pixel (x, y) in colour c exactly when
   * x0 = cols·col <= x <= x1 = cols·col + cols − 1 and
   * y0 = rows·row <= y <= y1 = rows·row + rows − 1, and nothing else.
   */
  lemma PanelRectangle(o: Options, col: int, row: int, c: Color, x: int, y: int, c': Color)
    ensures PixelSet(x, y, c') in Rect(o, col, row, c) <==>
      c' == c
      && o.cols * col <= x <= o.cols * col + o.cols - 1
      && o.rows * row <= y <= o.rows * row + o.rows - 1
  {
    BlockContains(o.cols * col, o.rows * row, Count(o.cols), Count(o.rows), c, x, y, c');
  }

  /** A panel fill is cols × rows `SetPixel` calls in colour c, no pixel twice. */
  lemma PanelArea(o: Options, col: int, row: int, c: Color)
    ensures |Rect(o, col, row, c)| == Count(o.cols) * Count(o.rows)
    ensures forall op :: op in Rect(o, col, row, c) ==> op.PixelSet? && op.color == c
    ensures forall a, b :: 0 <= a < b < |Rect(o, col, row, c)| ==> Rect(o, col, row, c)[a] != Rect(o, col, row, c)[b]
  {
    BlockArea(o.cols * col, o.rows * row, Count(o.cols), Count(o.rows), c);
  }

  /** Panel (col, row) is the one holding (x, y) exactly when col = x / cols and row = y / rows. */
  predicate InPanel(o: Options, x: int, y: int, col: int, row: int)
  {
    o.cols * col <= x <= o.cols * col + o.cols - 1 && o.rows * row <= y <= o.rows * row + o.rows - 1
  }

  lemma Owner(n: int, size: int, k: int)
    requires size > 0
    ensures size * k <= n <= size * k + size - 1 <==> k == n / size
  {
    assert n == size * (n / size) + n % size;
    if size * k <= n <= size * k + size - 1 {
      DivMod(k, n - size * k, size);
      assert k * size == size * k;
    }
  }

  /** Rectangles of distinct panels are disjoint: each pixel lies in exactly one panel. */
  lemma PanelOwner(o: Options, x: int, y: int, col: int, row: int)
    requires o.cols > 0 && o.rows > 0
    ensures InPanel(o, x, y, col, row) <==> col == x / o.cols && row == y / o.rows
  {
    Owner(x, o.cols, col);
    Owner(y, o.rows, row);
  }

  /**
   * Together the panels of a pc × pr grid tile [0, cols·pc) × [0, rows·pr):
   * a pixel is inside that area exactly when the panel holding it is in the grid.
   */
  lemma PanelsTile(o: Options, pc: nat, pr: nat, x: int, y: int)
    requires o.cols > 0 && o.rows > 0
    ensures 0 <= x < o.cols * pc && 0 <= y < o.rows * pr <==> 0 <= x / o.cols < pc && 0 <= y / o.rows < pr
  {
    Bounded(x, o.cols, pc);
    Bounded(y, o.rows, pr);
  }

  lemma Bounded(n: int, size: int, count: nat)
    requires size > 0
    ensures 0 <= n < size * count <==> 0 <= n / size < count
  {
    var q, r := n / size, n % size;
    assert n == size * q + r && 0 <= r < size;
    if q < 0 {
      MulMonotone(size, q, -1);
    }
    if q >= count {
      MulMonotone(size, count, q);
    }
    if 0 <= q < count {
      MulMonotone(size, q, count - 1);
      assert size * (count - 1) == size * count - size;
    }
  }

  lemma MulMonotone(a: int, b: int, c: int)
    requires a >= 0 && b <= c
    ensures a * b <= a * c
  {
    assert a * c - a * b == a * (c - b);
  }

  // ---------------------------------------------------------------------
  // The label

  /** The size of the `char text[24]` buffer `snprintf` writes into. */
  const LabelBuffer: nat := 24

  function Digit(d: int): (c: char)
    requires 0 <= d < 10
    ensures '0' <= c <= '9'
  {
    (48 + d) as char
  }

  /** The decimal digits of `n`, without leading zeros. */
  function Natural(n: nat): string
  {
    if n < 10 then [Digit(n)] else Natural(n / 10) + [Digit(n % 10)]
  }

  /** The digits of a number are a nonempty run of '0' to '9'. */
  lemma {:induction false} NaturalDigits(n: nat)
    ensures IsDigits(Natural(n))
  {
    if n >= 10 {
      NaturalDigits(n / 10);
    }
  }

  /** `%d`: a minus sign before the digits of a negative number. */
  function Decimal(n: int): string
  {
    if n < 0 then "-" + Natural(-n) else Natural(n)
  }

  /** The text `"(%d,%d)"` formats to. */
  function Format(col: int, row: int): string
  {
    "(" + Decimal(col) + "," + Decimal(row) + ")"
  }

  /** `snprintf(text, sizeof(text), "(%d,%d)", col, row)`: at most 23 characters and the terminator fit. */
  function Label(col: int, row: int): string
  {
    var f := Format(col, row);
    if |f| < LabelBuffer then f else f[..LabelBuffer - 1]
  }

  /**
   * The label is the formatted text cut to what fits before the terminator:
   * a prefix of it, shorter than the buffer, and all of it when it fits.
   */
  lemma LabelFits(col: int, row: int)
    ensures |Label(col, row)| < LabelBuffer && Label(col, row) <= Format(col, row)
    ensures |Format(col, row)| < LabelBuffer <==> Label(col, row) == Format(col, row)
  {
  }

  /** The value of a string of decimal digits. */
  function ParseNatural(s: string): nat
  {
    if s == [] then 0
    else
      var d := s[|s| - 1] as int - 48;
      ParseNatural(s[..|s| - 1]) * 10 + (if 0 <= d then d else 0)
  }

  lemma {:induction false} NaturalRoundTrip(n: nat)
    ensures ParseNatural(Natural(n)) == n
  {
    if n >= 10 {
      var s := Natural(n);
      assert s[..|s| - 1] == Natural(n / 10);
      NaturalRoundTrip(n / 10);
    }
  }

  function Pow10(k: nat): nat
  {
    if k == 0 then 1 else 10 * Pow10(k - 1)
  }

  lemma {:induction false} NaturalLength(n: nat, k: nat)
    requires 1 <= k && n < Pow10(k)
    ensures |Natural(n)| <= k
  {
    if n >= 10 {
      NaturalLength(n / 10, k - 1);
    }
  }

  /**
   * For row and column numbers a 32-bit `int` can hold, the label is never
   * cut short: two ten-digit numbers and the three punctuation marks make
   * exactly 23 characters.
   */
  lemma LabelUntruncated(col: int, row: int)
    requires 0 <= col < 0x8000_0000 && 0 <= row < 0x8000_0000
    ensures Label(col, row) == "(" + Natural(col) + "," + Natural(row) + ")"
  {
    assert Pow10(10) == 10_000_000_000;
    NaturalLength(col, 10);
    NaturalLength(row, 10);
  }

  predicate IsDigits(s: string)
  {
    |s| >= 1 && forall i :: 0 <= i < |s| ==> '0' <= s[i] <= '9'
  }

  /** Reads a "(col,row)" label back. */
  function ParseLabel(s: string): Option<(nat, nat)>
  {
    if |s| >= 2 && s[0] == '(' && s[|s| - 1] == ')' then
      var parts := Delimited.Split(s[1..|s| - 1], ',');
      if |parts| == 2 && IsDigits(parts[0]) && IsDigits(parts[1]) then
        Some((ParseNatural(parts[0]), ParseNatural(parts[1])))
      else None
    else None
  }

  /** The label names its panel: reading it back gives (col, row). */
  lemma LabelRoundTrip(col: int, row: int)
    requires 0 <= col < 0x8000_0000 && 0 <= row < 0x8000_0000
    ensures ParseLabel(Label(col, row)) == Some((col, row))
  {
    LabelUntruncated(col, row);
    NaturalDigits(col);
    NaturalDigits(row);
    ParsePair(Natural(col), Natural(row));
    NaturalRoundTrip(col);
    NaturalRoundTrip(row);
  }

  /** Any two runs of digits written as "(a,b)" are read back as a and b. */
  lemma ParsePair(a: string, b: string)
    requires IsDigits(a) && IsDigits(b)
    ensures ParseLabel("(" + a + "," + b + ")") == Some((ParseNatural(a), ParseNatural(b)))
  {
    var inner := a + [','] + b;
    assert "(" + a + "," + b + ")" == "(" + inner + ")";
    Bracketed(inner);
    PairSplit(a, b);
  }

  lemma Bracketed(inner: string)
    ensures var s := "(" + inner + ")";
      |s| >= 2 && s[0] == '(' && s[|s| - 1] == ')' && s[1..|s| - 1] == inner
  {
    var s := "(" + inner + ")";
    assert s[1..|s| - 1] == inner;
  }

  /** Two digit runs joined by a comma split back into the two runs. */
  lemma PairSplit(a: string, b: string)
    requires IsDigits(a) && IsDigits(b)
    ensures Delimited.Split(a + [','] + b, ',') == [a, b]
  {
    assert [a, b][1..] == [b];
    assert Delimited.Join([a, b], ',') == a + [','] + b;
    assert ',' !in a && ',' !in b;
    Delimited.SplitJoin([a, b], ',');
  }

  // ---------------------------------------------------------------------
  // The whole test

  /** Fills of panel (col, row) in the first n colours. */
  function Fill(o: Options, col: int, row: int, n: nat): seq<Op>
    requires n <= |Colors|
  {
    if n == 0 then [] else Fill(o, col, row, n - 1) + Rect(o, col, row, Colors[n - 1])
  }

  /** Everything done for one panel: three fills, a clear, the label at (x0, y1), a clear. */
  function PanelOps(o: Options, col: int, row: int): seq<Op>
  {
    Fill(o, col, row, |Colors|)
      + [Cleared, TextDrawn(o.cols * col, o.rows * row + o.rows - 1, White, Black, Label(col, row)), Cleared]
  }

  /** A panel is filled red, then green, then blue, before its label is shown between two clears. */
  lemma PanelSequence(o: Options, col: int, row: int)
    ensures PanelOps(o, col, row) ==
      Rect(o, col, row, Red) + Rect(o, col, row, Green) + Rect(o, col, row, Blue)
      + [Cleared, TextDrawn(o.cols * col, o.rows * row + o.rows - 1, White, Black, Label(col, row)), Cleared]
  {
    assert Colors[0] == Red && Colors[1] == Green && Colors[2] == Blue;
    assert Fill(o, col, row, 1) == Rect(o, col, row, Red);
    assert Fill(o, col, row, 2) == Rect(o, col, row, Red) + Rect(o, col, row, Green);
  }

  /** The panels of column `col` with rows 0, ..., n − 1: the inner loop. */
  function PanelColumn(o: Options, col: int, n: nat): seq<Op>
  {
    if n == 0 then [] else PanelColumn(o, col, n - 1) + PanelOps(o, col, n - 1)
  }

  /** The panel columns 0, ..., w − 1 with h rows each: the outer loop. */
  function Grid(o: Options, w: nat, h: nat): seq<Op>
  {
    if w == 0 then [] else Grid(o, w - 1, h) + PanelColumn(o, w - 1, h)
  }

  /** Everything the test does in one cycle over the panels. */
  function Cycle(o: Options): seq<Op>
  {
    var g := PanelGrid(o);
    Grid(o, Count(g.0), Count(g.1))
  }

  /** The panels at the given cells, one after the other. */
  function Panels(o: Options, cells: seq<(int, int)>): seq<Op>
  {
    if cells == [] then []
    else Panels(o, cells[..|cells| - 1]) + PanelOps(o, cells[|cells| - 1].0, cells[|cells| - 1].1)
  }

  /** Showing one more panel appends what is done for it. */
  lemma PanelsSnoc(o: Options, cells: seq<(int, int)>, cell: (int, int))
    ensures Panels(o, cells + [cell]) == Panels(o, cells) + PanelOps(o, cell.0, cell.1)
  {
    assert (cells + [cell])[..|cells|] == cells;
  }

  lemma {:induction false} PanelsAppend(o: Options, a: seq<(int, int)>, b: seq<(int, int)>)
    ensures Panels(o, a + b) == Panels(o, a) + Panels(o, b)
    decreases |b|
  {
    if b == [] {
      assert a + b == a;
    } else {
      var init, cell := b[..|b| - 1], b[|b| - 1];
      assert b == init + [cell];
      assert a + b == (a + init) + [cell];
      PanelsSnoc(o, a + init, cell);
      PanelsSnoc(o, init, cell);
      PanelsAppend(o, a, init);
      Associative(Panels(o, a), Panels(o, init), PanelOps(o, cell.0, cell.1));
    }
  }

  lemma {:induction false} ColumnPanels(o: Options, col: int, n: nat)
    ensures PanelColumn(o, col, n) == Panels(o, ColumnCells(col, n))
  {
    if n > 0 {
      ColumnPanels(o, col, n - 1);
      PanelsSnoc(o, ColumnCells(col, n - 1), (col, n - 1));
    }
  }

  /** The nested col and row loops show the panels in the order Cells visits them. */
  lemma {:induction false} GridPanels(o: Options, w: nat, h: nat)
    ensures Grid(o, w, h) == Panels(o, Cells(w, h))
  {
    if w > 0 {
      var i := w - 1;
      assert Grid(o, w, h) == Grid(o, i, h) + PanelColumn(o, i, h);
      assert Cells(w, h) == Cells(i, h) + ColumnCells(i, h);
      GridPanels(o, i, h);
      ColumnPanels(o, i, h);
      PanelsAppend(o, Cells(i, h), ColumnCells(i, h));
    }
  }

  /** What is done for visit k comes after everything done for the visits before it. */
  lemma PanelsSplit(o: Options, cells: seq<(int, int)>, k: nat)
    requires k < |cells|
    ensures Panels(o, cells) == Panels(o, cells[..k]) + PanelOps(o, cells[k].0, cells[k].1) + Panels(o, cells[k + 1..])
  {
    assert cells == cells[..k + 1] + cells[k + 1..];
    PanelsAppend(o, cells[..k + 1], cells[k + 1..]);
    assert cells[..k + 1][..k] == cells[..k];
  }

  /**
   * Panels are visited column by column: with pc × pr panels in the grid,
   * visit k shows panel (k / pr, k % pr), so (0,0), (0,1), ... come first,
   * and every panel of the grid is shown exactly once.
   */
  lemma CycleOrder(o: Options, k: nat)
    requires k < Count(PanelGrid(o).0) * Count(PanelGrid(o).1)
    ensures |Cells(Count(PanelGrid(o).0), Count(PanelGrid(o).1))| == Count(PanelGrid(o).0) * Count(PanelGrid(o).1)
    ensures var cells := Cells(Count(PanelGrid(o).0), Count(PanelGrid(o).1));
      Cycle(o) == Panels(o, cells[..k]) + PanelOps(o, k / Count(PanelGrid(o).1), k % Count(PanelGrid(o).1)) + Panels(o, cells[k + 1..])
  {
    var w, h := Count(PanelGrid(o).0), Count(PanelGrid(o).1);
    CellsOrder(w, h);
    GridPanels(o, w, h);
    PanelsSplit(o, Cells(w, h), k);
  }

  /** The x and y loops of one colour: `for (x = x0; x <= x1; x++) for (y = y0; y <= y1; y++)`. */
  method FillPanel(canvas: Canvas, x0: int, x1: int, y0: int, y1: int, c: Color)
    modifies canvas
    ensures canvas.ops == old(canvas.ops) + Block(x0, y0, Count(x1 - x0 + 1), Count(y1 - y0 + 1), c)
  {
    ghost var h := Count(y1 - y0 + 1);
    var x := x0;
    while x <= x1
      invariant x0 <= x && x - x0 <= Count(x1 - x0 + 1)
      invariant canvas.ops == old(canvas.ops) + Block(x0, y0, x - x0, h, c)
    {
      ghost var before := canvas.ops;
      var y := y0;
      while y <= y1
        invariant y0 <= y && y - y0 <= h
        invariant canvas.ops == before + Strip(x, y0, y - y0, c)
      {
        canvas.SetPixel(x, y, c);
        y := y + 1;
      }
      x := x + 1;
    }
  }

  /** One panel: the colour loop with its fills, a clear, the label, a clear. */
  method ShowPanel(canvas: Canvas, o: Options, col: int, row: int, colors: seq<Color>)
    requires colors == Colors
    modifies canvas
    ensures canvas.ops == old(canvas.ops) + PanelOps(o, col, row)
  {
    var x0 := o.cols * col;
    var y0 := o.rows * row;
    var x1 := o.cols * col + o.cols - 1;
    var y1 := o.rows * row + o.rows - 1;
    FillColors(canvas, o, col, row, x0, x1, y0, y1, colors);
    ShowLabel(canvas, x0, y1, col, row);
    PanelOpsAfter(o, col, row, old(canvas.ops), x0, y1);
  }

  /** The fills followed by the label steps are everything done for the panel. */
  lemma PanelOpsAfter(o: Options, col: int, row: int, before: seq<Op>, x0: int, y1: int)
    requires x0 == o.cols * col && y1 == o.rows * row + o.rows - 1
    ensures before + Fill(o, col, row, |Colors|) + [Cleared, TextDrawn(x0, y1, White, Black, Label(col, row)), Cleared]
      == before + PanelOps(o, col, row)
  {
    Associative(before, Fill(o, col, row, |Colors|), [Cleared, TextDrawn(x0, y1, White, Black, Label(col, row)), Cleared]);
  }

  /** The colour loop of one panel: a fill of the rectangle per colour, in order. */
  method FillColors(canvas: Canvas, o: Options, col: int, row: int, x0: int, x1: int, y0: int, y1: int, colors: seq<Color>)
    requires colors == Colors
    requires x0 == o.cols * col && x1 == o.cols * col + o.cols - 1
    requires y0 == o.rows * row && y1 == o.rows * row + o.rows - 1
    modifies canvas
    ensures canvas.ops == old(canvas.ops) + Fill(o, col, row, |Colors|)
  {
    var i := 0;
    while i < |colors|
      invariant 0 <= i <= |colors|
      invariant canvas.ops == old(canvas.ops) + Fill(o, col, row, i)
    {
      assert Fill(o, col, row, i + 1) == Fill(o, col, row, i) + Rect(o, col, row, colors[i]);
      Associative(old(canvas.ops), Fill(o, col, row, i), Rect(o, col, row, colors[i]));
      FillPanel(canvas, x0, x1, y0, y1, colors[i]);
      i := i + 1;
    }
  }

  /** After the fills: a clear, the "(col,row)" label at (x0, y1) in white on black, a clear. */
  method ShowLabel(canvas: Canvas, x0: int, y1: int, col: int, row: int)
    modifies canvas
    ensures canvas.ops == old(canvas.ops) + [Cleared, TextDrawn(x0, y1, White, Black, Label(col, row)), Cleared]
  {
    canvas.Clear();
    var text := Label(col, row);
    canvas.DrawText(x0, y1, White, Black, text);
    canvas.Clear();
  }

  /**
   * The start of `CyclePanels`: panel columns and rows from the chain length
   * and the parallel chains, swapped when `find` puts a quarter-turn rotation
   * at position 0 of the pixel-mapper string.
   */
  method PanelCounts(o: Options) returns (panelCols: int, panelRows: int)
    ensures (panelCols, panelRows) == PanelGrid(o)
  {
    panelCols := o.chainLength;
    panelRows := o.parallel;
    var mapping := if o.pixelMapperConfig.Some? then o.pixelMapperConfig.value else "";
    if Find(mapping, "Rotate:90") == Some(0) || Find(mapping, "Rotate:270") == Some(0) {
      panelCols, panelRows := panelRows, panelCols;
    }
  }

  /** The inner loop of `CyclePanels`: the panels of column `col`, row by row. */
  method ShowColumn(canvas: Canvas, o: Options, col: int, panelRows: int, colors: seq<Color>)
    requires colors == Colors
    modifies canvas
    ensures canvas.ops == old(canvas.ops) + PanelColumn(o, col, Count(panelRows))
  {
    var row := 0;
    while row < panelRows
      invariant 0 <= row <= Count(panelRows)
      invariant canvas.ops == old(canvas.ops) + PanelColumn(o, col, row)
    {
      assert PanelColumn(o, col, row + 1) == PanelColumn(o, col, row) + PanelOps(o, col, row);
      Associative(old(canvas.ops), PanelColumn(o, col, row), PanelOps(o, col, row));
      ShowPanel(canvas, o, col, row, colors);
      row := row + 1;
    }
  }

  /** `CyclePanels`: the grid, swapped for a quarter-turn rotation, then the panels column by column. */
  method CyclePanels(canvas: Canvas, o: Options)
    modifies canvas
    ensures canvas.ops == old(canvas.ops) + Cycle(o)
  {
    var colors := Colors;
    var panelCols, panelRows := PanelCounts(o);
    ghost var h := Count(panelRows);
    assert Cycle(o) == Grid(o, Count(panelCols), h);
    var col := 0;
    while col < panelCols
      invariant 0 <= col <= Count(panelCols)
      invariant canvas.ops == old(canvas.ops) + Grid(o, col, h)
    {
      assert Grid(o, col + 1, h) == Grid(o, col, h) + PanelColumn(o, col, h);
      Associative(old(canvas.ops), Grid(o, col, h), PanelColumn(o, col, h));
      ShowColumn(canvas, o, col, panelRows, colors);
      col := col + 1;
    }
  }
}
