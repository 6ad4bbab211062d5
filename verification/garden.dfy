/** The garden board: a fixed 6 by 6 grid of tiles and the score, the state
    the page starts from, and the single tap transition. */
module Garden {
  import opened Cells

  /** Rows of tiles, indexed `g[row][col]`. */
  type Grid = seq<seq<CellState>>

  /** Number of rows and of columns of the board. */
  const Size: nat := 6

  /** The board has `Size` rows of `Size` tiles each. */
  predicate WellFormed(g: Grid)
  {
    |g| == Size && forall i :: 0 <= i < |g| ==> |g[i]| == Size
  }

  /** Whether `(r, c)` names a tile of `g`. */
  predicate InGrid(g: Grid, r: int, c: int)
  {
    0 <= r < |g| && 0 <= c < |g[r]|
  }

  /** The board the page starts with: every tile bare soil. */
  function InitialGrid(): (g: Grid)
    ensures WellFormed(g)
    ensures forall i, j :: InGrid(g, i, j) ==> g[i][j] == Empty
  {
    seq(Size, _ => seq(Size, _ => Empty))
  }

  /** The score the page starts with. */
  const InitialScore: int := 0

  /** One tap on the tile at row `r`, column `c`. The tapped tile moves one
      step around its cycle; a tap on a Ready tile harvests it and scores one
      point. A column outside the row selects no tile, and the tap then
      changes nothing; a row outside the board is a fault, so it is excluded. */
  function Click(g: Grid, score: int, r: int, c: int): (res: (Grid, int))
    requires 0 <= r < |g|
    ensures |res.0| == |g|
    ensures forall i :: 0 <= i < |g| ==> |res.0[i]| == |g[i]|
    ensures WellFormed(g) ==> WellFormed(res.0)
    ensures InGrid(g, r, c) ==> res.0[r][c] == Next(g[r][c])
    ensures forall i, j :: InGrid(g, i, j) && (i, j) != (r, c) ==> res.0[i][j] == g[i][j]
    ensures !InGrid(g, r, c) ==> res == (g, score)
    ensures res.1 - score == (if InGrid(g, r, c) && g[r][c] == Ready then 1 else 0)
  {
    if 0 <= c < |g[r]| then
      var cell := g[r][c];
      (g[r := g[r][c := Next(cell)]], if cell == Ready then score + 1 else score)
    else
      (g, score)
  }
}
