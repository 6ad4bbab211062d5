/** Sequences of taps on the board: what repeated taps on one tile do, and
    the counters the game keeps across any session. */
module Runs {
  import opened Cells
  import opened Garden

  /** A tap, as the (row, column) the page hands to its click handler. */
  type Tap = (int, int)

  /** Every tap names a row of the board (the page only produces such taps;
      any other row would fault). */
  predicate RowsInBoard(taps: seq<Tap>)
  {
    forall k :: 0 <= k < |taps| ==> 0 <= taps[k].0 < Size
  }

  /** The board and score after the taps, one atomic transition each. */
  function Run(g: Grid, score: int, taps: seq<Tap>): (res: (Grid, int))
    requires WellFormed(g) && RowsInBoard(taps)
    ensures WellFormed(res.0)
    ensures score <= res.1 <= score + |taps|
    decreases |taps|
  {
    if taps == [] then (g, score)
    else
      var next := Click(g, score, taps[0].0, taps[0].1);
      Run(next.0, next.1, taps[1..])
  }

  /** Running two sessions back to back is running their concatenation. */
  lemma {:induction false} RunAppend(g: Grid, score: int, a: seq<Tap>, b: seq<Tap>)
    requires WellFormed(g) && RowsInBoard(a) && RowsInBoard(b)
    ensures RowsInBoard(a + b)
    ensures Run(g, score, a + b) == Run(Run(g, score, a).0, Run(g, score, a).1, b)
    decreases |a|
  {
    assert RowsInBoard(a + b) by {
      forall k | 0 <= k < |a + b|
        ensures 0 <= (a + b)[k].0 < Size
      {
        if k < |a| { assert (a + b)[k] == a[k]; } else { assert (a + b)[k] == b[k - |a|]; }
      }
    }
    if a != [] {
      var next := Click(g, score, a[0].0, a[0].1);
      assert (a + b)[0] == a[0];
      assert (a + b)[1..] == a[1..] + b;
      RunAppend(next.0, next.1, a[1..], b);
    } else {
      assert a + b == b;
    }
  }

  /** The score never decreases: after any later point of a session it is at
      least what it was at any earlier point. */
  lemma ScoreNeverDecreases(g: Grid, score: int, taps: seq<Tap>, i: nat, j: nat)
    requires WellFormed(g) && RowsInBoard(taps)
    requires i <= j <= |taps|
    ensures RowsInBoard(taps[..i]) && RowsInBoard(taps[..j])
    ensures Run(g, score, taps[..i]).1 <= Run(g, score, taps[..j]).1
  {
    assert taps[..j] == taps[..i] + taps[i..j];
    RunAppend(g, score, taps[..i], taps[i..j]);
  }

  /** `k` taps on the same tile. */
  function Repeat(t: Tap, k: nat): (taps: seq<Tap>)
    ensures |taps| == k
    ensures forall n :: 0 <= n < k ==> taps[n] == t
  {
    seq(k, _ => t)
  }

  /** `k` taps on one tile advance that tile `k` steps, leave every other tile
      alone, and score one point per harvest among them. */
  lemma {:induction false} RepeatedTaps(g: Grid, score: int, r: int, c: int, k: nat)
    requires WellFormed(g) && InGrid(g, r, c)
    ensures RowsInBoard(Repeat((r, c), k))
    ensures Run(g, score, Repeat((r, c), k))
         == (g[r := g[r][c := Advance(g[r][c], k)]], score + Harvests(g[r][c], k))
    decreases k
  {
    var taps := Repeat((r, c), k);
    if k == 0 {
      assert taps == [];
      assert Advance(g[r][c], k) == g[r][c];
      assert g[r][c := g[r][c]] == g[r];
      assert g[r := g[r]] == g;
    } else {
      var next := Click(g, score, r, c);
      var g1 := g[r := g[r][c := Next(g[r][c])]];
      assert taps[0] == (r, c);
      assert taps[1..] == Repeat((r, c), k - 1);
      RepeatedTaps(g1, next.1, r, c, k - 1);
      var last := Advance(Next(g[r][c]), k - 1);
      assert last == Advance(g[r][c], k);
      assert g1[r][c := last] == g[r][c := last];
      assert g1[r := g1[r][c := last]] == g[r := g[r][c := last]];
    }
  }

  /** Five taps on the same tile bring it back to where it started and add
      exactly one point. */
  lemma FiveTapsRestore(g: Grid, score: int, r: int, c: int)
    requires WellFormed(g) && InGrid(g, r, c)
    ensures RowsInBoard(Repeat((r, c), Period))
    ensures Run(g, score, Repeat((r, c), Period)) == (g, score + 1)
  {
    RepeatedTaps(g, score, r, c, Period);
    CyclePeriod(g[r][c]);
    assert Advance(g[r][c], Period) == g[r][c];
    assert g[r][c := g[r][c]] == g[r];
    assert g[r := g[r]] == g;
  }

  /** Total growth on a row: the sum of its tiles' positions in the cycle. */
  function RowSum(row: seq<CellState>): nat
  {
    if row == [] then 0 else Stage(row[0]) + RowSum(row[1..])
  }

  /** Total growth on the board. */
  function GridSum(g: Grid): nat
  {
    if g == [] then 0 else RowSum(g[0]) + GridSum(g[1..])
  }

  /** Replacing one tile changes a row's growth by the difference of the two
      tiles' positions. */
  lemma {:induction false} RowSumUpdate(row: seq<CellState>, c: nat, x: CellState)
    requires c < |row|
    ensures RowSum(row[c := x]) == RowSum(row) - Stage(row[c]) + Stage(x)
    decreases c
  {
    if c > 0 {
      assert row[c := x][1..] == row[1..][c - 1 := x];
      RowSumUpdate(row[1..], c - 1, x);
    } else {
      assert row[c := x][1..] == row[1..];
    }
  }

  /** Replacing one row changes the board's growth by the difference of the
      two rows' growth. */
  lemma {:induction false} GridSumUpdate(g: Grid, r: nat, row: seq<CellState>)
    requires r < |g|
    ensures GridSum(g[r := row]) == GridSum(g) - RowSum(g[r]) + RowSum(row)
    decreases r
  {
    if r > 0 {
      assert g[r := row][1..] == g[1..][r - 1 := row];
      GridSumUpdate(g[1..], r - 1, row);
    } else {
      assert g[r := row][1..] == g[1..];
    }
  }

  /** A board of bare soil has no growth. */
  lemma {:induction false} BareGridSum(g: Grid)
    requires forall i, j :: InGrid(g, i, j) ==> g[i][j] == Empty
    ensures GridSum(g) == 0
    decreases |g|
  {
    if g != [] {
      BareRowSum(g[0]);
      assert forall i, j :: InGrid(g[1..], i, j) ==> InGrid(g, i + 1, j);
      BareGridSum(g[1..]);
    }
  }

  /** A row of bare soil has no growth. */
  lemma {:induction false} BareRowSum(row: seq<CellState>)
    requires forall j :: 0 <= j < |row| ==> row[j] == Empty
    ensures RowSum(row) == 0
    decreases |row|
  {
    if row != [] {
      BareRowSum(row[1..]);
    }
  }

  /** Progress of a game: five points per harvest plus the board's growth.
      Every tap that lands on a tile raises it by exactly one. */
  function Progress(g: Grid, score: int): int
  {
    Period * score + GridSum(g)
  }

  /** One tap on a tile raises the progress by one: either the tile grows a
      step, or a Ready tile (position 4) returns to soil (position 0) and the
      score gains a point worth five. A tap off the board changes nothing. */
  lemma ClickProgress(g: Grid, score: int, r: int, c: int)
    requires 0 <= r < |g|
    ensures Progress(Click(g, score, r, c).0, Click(g, score, r, c).1)
         == Progress(g, score) + (if InGrid(g, r, c) then 1 else 0)
  {
    if InGrid(g, r, c) {
      var cell := g[r][c];
      RowSumUpdate(g[r], c, Next(cell));
      GridSumUpdate(g, r, g[r][c := Next(cell)]);
    }
  }

  /** The number of taps that land on a tile of a 6 by 6 board. */
  function TapsOnBoard(taps: seq<Tap>): (n: nat)
    ensures n <= |taps|
  {
    if taps == [] then 0
    else (if 0 <= taps[0].1 < Size then 1 else 0) + TapsOnBoard(taps[1..])
  }

  /** Over a session, progress rises by exactly the number of taps that land
      on a tile. */
  lemma {:induction false} RunProgress(g: Grid, score: int, taps: seq<Tap>)
    requires WellFormed(g) && RowsInBoard(taps)
    ensures Progress(Run(g, score, taps).0, Run(g, score, taps).1)
         == Progress(g, score) + TapsOnBoard(taps)
    decreases |taps|
  {
    if taps != [] {
      var next := Click(g, score, taps[0].0, taps[0].1);
      ClickProgress(g, score, taps[0].0, taps[0].1);
      RunProgress(next.0, next.1, taps[1..]);
    }
  }

  /** Every state the page can reach from its start is a 6 by 6 board with a
      score that is never negative and that counts at most one point per five
      taps; five times the score plus the board's growth is exactly the
      number of taps that landed on a tile. */
  lemma ReachableStates(taps: seq<Tap>)
    requires RowsInBoard(taps)
    ensures WellFormed(Run(InitialGrid(), InitialScore, taps).0)
    ensures 0 <= Run(InitialGrid(), InitialScore, taps).1
    ensures Period * Run(InitialGrid(), InitialScore, taps).1 <= TapsOnBoard(taps)
    ensures Progress(Run(InitialGrid(), InitialScore, taps).0, Run(InitialGrid(), InitialScore, taps).1)
         == TapsOnBoard(taps)
  {
    BareGridSum(InitialGrid());
    RunProgress(InitialGrid(), InitialScore, taps);
  }
}
