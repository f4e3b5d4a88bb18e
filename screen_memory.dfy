/**
 * The 64 x 32 monochrome display, indexed [x][y]. Reads and writes wrap
 * their coordinates around the edges.
 */
module ScreenMemory {
  const ScreenWidth: nat := 64
  const ScreenHeight: nat := 32

  /** A column-major picture: Width columns of Height pixels each. */
  ghost predicate IsScreen(g: seq<seq<bool>>)
  {
    |g| == ScreenWidth && forall x :: 0 <= x < ScreenWidth ==> |g[x]| == ScreenHeight
  }

  function BlankScreen(): (g: seq<seq<bool>>)
    ensures IsScreen(g)
    ensures forall x, y :: 0 <= x < ScreenWidth && 0 <= y < ScreenHeight ==> !g[x][y]
  {
    seq(ScreenWidth, _ => seq(ScreenHeight, _ => false))
  }

  /** The picture with the pixel at (x, y), coordinates taken modulo the size, set to b. */
  function SetPixel(g: seq<seq<bool>>, x: nat, y: nat, b: bool): (h: seq<seq<bool>>)
    requires IsScreen(g)
    ensures IsScreen(h)
    ensures forall i, j :: 0 <= i < ScreenWidth && 0 <= j < ScreenHeight ==>
      h[i][j] == if i == x % ScreenWidth && j == y % ScreenHeight then b else g[i][j]
  {
    g[x % ScreenWidth := g[x % ScreenWidth][y % ScreenHeight := b]]
  }

  /** Two pictures with the same pixels are the same picture. */
  lemma SameScreen(g: seq<seq<bool>>, h: seq<seq<bool>>)
    requires IsScreen(g) && IsScreen(h)
    requires forall x, y :: 0 <= x < ScreenWidth && 0 <= y < ScreenHeight ==> g[x][y] == h[x][y]
    ensures g == h
  {
    forall x | 0 <= x < ScreenWidth ensures g[x] == h[x] {
      assert forall y :: 0 <= y < ScreenHeight ==> g[x][y] == h[x][y];
    }
  }

  // ---------------------------------------------------------------- toString

  function CellText(on: bool): string
  {
    if on then " 1 " else " 0 "
  }

  /** The first n cells of row y. */
  function RowCells(g: seq<seq<bool>>, y: nat, n: nat): (s: string)
    requires IsScreen(g) && y < ScreenHeight && n <= ScreenWidth
    ensures |s| == 3 * n
  {
    if n == 0 then "" else RowCells(g, y, n - 1) + CellText(g[n - 1][y])
  }

  /** The length of one text row: 64 cells of three characters, then a newline. */
  const RowLength: nat := 193

  /** The first n rows, each ending in a newline. */
  function Rows(g: seq<seq<bool>>, n: nat): (s: string)
    requires IsScreen(g) && n <= ScreenHeight
    ensures |s| == 193 * n
  {
    if n == 0 then "" else Rows(g, n - 1) + RowCells(g, n - 1, ScreenWidth) + "\n"
  }

  /** toString: one text row per screen row, " 1 " for a lit pixel and " 0 " for a dark one. */
  function ScreenText(g: seq<seq<bool>>): string
    requires IsScreen(g)
  {
    Rows(g, ScreenHeight)
  }

  lemma {:induction false} RowCellsAt(g: seq<seq<bool>>, y: nat, n: nat, x: nat)
    requires IsScreen(g) && y < ScreenHeight && x < n <= ScreenWidth
    ensures RowCells(g, y, n)[3 * x + 1] == if g[x][y] then '1' else '0'
    ensures RowCells(g, y, n)[3 * x] == ' ' && RowCells(g, y, n)[3 * x + 2] == ' '
  {
    if x < n - 1 {
      RowCellsAt(g, y, n - 1, x);
    }
  }

  lemma {:induction false} RowsAt(g: seq<seq<bool>>, n: nat, y: nat, x: nat)
    requires IsScreen(g) && y < n <= ScreenHeight && x < ScreenWidth
    ensures Rows(g, n)[193 * y + 3 * x + 1] == if g[x][y] then '1' else '0'
    ensures Rows(g, n)[193 * y + 192] == '\n'
  {
    var before, row := Rows(g, n - 1), RowCells(g, n - 1, ScreenWidth);
    assert Rows(g, n) == before + row + "\n";
    if y < n - 1 {
      RowsAt(g, n - 1, y, x);
      assert Rows(g, n)[193 * y + 3 * x + 1] == before[193 * y + 3 * x + 1];
      assert Rows(g, n)[193 * y + 192] == before[193 * y + 192];
    } else {
      RowCellsAt(g, y, ScreenWidth, x);
      assert Rows(g, n)[193 * y + 3 * x + 1] == row[3 * x + 1];
    }
  }

  /**
   * The text shows every pixel: RowLength characters per row, and the middle
   * character of cell (x, y) is '1' exactly when the pixel is lit.
   */
  lemma ScreenTextShowsPixels(g: seq<seq<bool>>, x: nat, y: nat)
    requires IsScreen(g) && x < ScreenWidth && y < ScreenHeight
    ensures |ScreenText(g)| == RowLength * ScreenHeight
    ensures ScreenText(g)[RowLength * y + 3 * x + 1] == if g[x][y] then '1' else '0'
    ensures ScreenText(g)[RowLength * y + RowLength - 1] == '\n'
  {
    RowsAt(g, ScreenHeight, y, x);
  }

  class ScreenMemory {
    const pixels: array2<bool>

    ghost predicate Valid()
      reads this
    {
      pixels.Length0 == ScreenWidth && pixels.Length1 == ScreenHeight
    }

    /** The picture, column by column. */
    function Grid(): (g: seq<seq<bool>>)
      requires Valid()
      reads this, pixels
      ensures IsScreen(g)
      ensures forall x, y :: 0 <= x < ScreenWidth && 0 <= y < ScreenHeight ==> g[x][y] == pixels[x, y]
    {
      seq(ScreenWidth, x requires 0 <= x < ScreenWidth reads pixels =>
        seq(ScreenHeight, y requires 0 <= y < ScreenHeight reads pixels => pixels[x, y]))
    }

    /** A dark screen (the constructor calls reset). */
    constructor ()
      ensures Valid() && fresh(pixels) && Grid() == BlankScreen()
    {
      pixels := new bool[ScreenWidth, ScreenHeight];
      new;
      Reset();
    }

    /** read(x, y): the pixel at (x mod 64, y mod 32). */
    function Read(x: nat, y: nat): (on: bool)
      requires Valid()
      reads this, pixels
      ensures on == Grid()[x % ScreenWidth][y % ScreenHeight]
    {
      pixels[x % ScreenWidth, y % ScreenHeight]
    }

    /** write(x, y, b): the pixel at (x mod 64, y mod 32) becomes b, every other pixel stays. */
    method Write(x: nat, y: nat, b: bool)
      requires Valid()
      modifies pixels
      ensures Grid() == SetPixel(old(Grid()), x, y, b)
    {
      ghost var before := old(Grid());
      pixels[x % ScreenWidth, y % ScreenHeight] := b;
      SameScreen(Grid(), SetPixel(before, x, y, b));
    }

    /** reset: every pixel dark. */
    method Reset()
      requires Valid()
      modifies pixels
      ensures Grid() == BlankScreen()
    {
      var x := 0;
      while x < ScreenWidth
        invariant 0 <= x <= ScreenWidth
        invariant forall i, j :: 0 <= i < x && 0 <= j < ScreenHeight ==> !pixels[i, j]
      {
        var y := 0;
        while y < ScreenHeight
          invariant 0 <= y <= ScreenHeight
          invariant forall i, j :: 0 <= i < x && 0 <= j < ScreenHeight ==> !pixels[i, j]
          invariant forall j :: 0 <= j < y ==> !pixels[x, j]
        {
          pixels[x, y] := false;
          y := y + 1;
        }
        x := x + 1;
      }
      SameScreen(Grid(), BlankScreen());
    }

    /** toString: 64 cells per row, " 1 " for a lit pixel and " 0 " for a dark one, each row ended by a newline. */
    function ToString(): (s: string)
      requires Valid()
      reads this, pixels
      ensures |s| == RowLength * ScreenHeight
      ensures forall x, y :: 0 <= x < ScreenWidth && 0 <= y < ScreenHeight ==>
        s[RowLength * y + 3 * x + 1] == if pixels[x, y] then '1' else '0'
      ensures forall y :: 0 <= y < ScreenHeight ==> s[RowLength * y + RowLength - 1] == '\n'
    {
      var g := Grid();
      assert |ScreenText(g)| == RowLength * ScreenHeight by {
        ScreenTextShowsPixels(g, 0, 0);
      }
      assert forall x, y :: 0 <= x < ScreenWidth && 0 <= y < ScreenHeight ==>
        ScreenText(g)[RowLength * y + 3 * x + 1] == if g[x][y] then '1' else '0'
      by {
        forall x, y | 0 <= x < ScreenWidth && 0 <= y < ScreenHeight
          ensures ScreenText(g)[RowLength * y + 3 * x + 1] == if g[x][y] then '1' else '0'
        {
          ScreenTextShowsPixels(g, x, y);
        }
      }
      assert forall y :: 0 <= y < ScreenHeight ==> ScreenText(g)[RowLength * y + RowLength - 1] == '\n' by {
        forall y | 0 <= y < ScreenHeight ensures ScreenText(g)[RowLength * y + RowLength - 1] == '\n' {
          ScreenTextShowsPixels(g, 0, y);
        }
      }
      ScreenText(g)
    }
  }
}
