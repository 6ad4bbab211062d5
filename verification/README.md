# Little Garden: the tile state machine

A model of the rule logic of the "Little Garden" clicker page (`app/page.tsx`).
The page shows a 6 by 6 board of tiles and a score. Each tile is in one of five
states: `empty`, `seeded`, `watered`, `growing` or `ready`. A tap on a tile moves
only that tile one step around the fixed cycle
empty → seeded → watered → growing → ready → empty.
Tapping a `ready` tile harvests it, and the score goes up by one. Each state also
has a glyph drawn on the tile and a tooltip with a short label for its stage.

The model has three modules:

- `Cells` (`cells.dfy`): the `CellState` datatype and `Next`, the one-tap step.
  `Stage`, the state's position in the cycle, is the reference the step is
  checked against. `Advance` and `Harvests` describe `k` taps on one tile.
  `Emoji` and `StageName` are the two display lookups, each with an inverse
  reading that proves the lookup injective.
- `Garden` (`garden.dfy`): the board `Grid = seq<seq<CellState>>`, the 6 by 6
  shape predicate `WellFormed`, the starting board and score, and `Click`.
  `Click` is the page's click handler written as a pure step on `(grid, score)`.
- `Runs` (`runs.dfy`): sequences of taps. This module proves that five taps on
  one tile restore it and score exactly one point, that the score never
  decreases, and the counter invariant of every reachable state. That invariant
  says five times the score plus the board's total growth equals the number of
  taps that landed on a tile.

Each click is one atomic transition. The page builds a deep copy of the board,
writes the one tapped entry, and hands the copy to React. This is the same as
the functional update `g[r := g[r][c := Next(g[r][c])]]`.

Two edge cases follow the code:

- A row outside the board makes `grid[row][col]` fault. `Click` therefore
  requires a valid row.
- A column outside the row reads `undefined`. That value matches no case of the
  `switch`, so the page stores an unchanged copy of the board and the score
  stays the same. `Click` models this as a no-op, not as a precondition.

`Click` works on a board of any shape, so long as the row index is valid. It
keeps every row's length, and it keeps a 6 by 6 board 6 by 6.

## Model

| member | source | states |
|---|---|---|
| Cells.Next | app/page.tsx:19-36 | one tap moves a tile exactly one position forward in the five-state cycle (position taken modulo 5), never leaves it where it was, and returns it to `empty` exactly when it was `ready` |
| Cells.NextDeterminedByStage | app/page.tsx:19-33 | the step is the only one that moves a tile exactly one position forward in the cycle: any state one position past the tapped state is the state the tap writes |
| Cells.AdvanceStage | app/page.tsx:19-36 | `k` taps on a tile move it `k` positions around the cycle, modulo 5 |
| Cells.HarvestCount | app/page.tsx:29-35 | of `k` taps on a tile starting at position `p`, exactly `(p + k) / 5` are harvests of a `ready` tile |
| Cells.CyclePeriod | app/page.tsx:19-35 | the cycle has period exactly five: five taps restore any tile, one to four taps never do, and five taps contain exactly one harvest |
| Cells.Emoji | app/page.tsx:41-50 | every state has a glyph of one code point (U+1F7EB, U+1F331, U+1F4A7, U+1F33F, U+1F338), and reading the glyph back gives the state it was drawn for |
| Cells.StageName | app/page.tsx:52-61 | every state has a non-empty tooltip, and reading the tooltip back gives the state it labels |
| Cells.LookupsInjective | app/page.tsx:41-61 | distinct states get distinct glyphs and distinct tooltips |
| Garden.InitialGrid | app/page.tsx:10-12 | the starting board has 6 rows of 6 tiles, all `empty` |
| Garden.Click | app/page.tsx:15-39 | a tap on an existing tile advances that tile by `Next` and leaves every other tile unchanged; it keeps every row's length and a 6 by 6 board 6 by 6; the score goes up by exactly one when the tapped tile was `ready` and otherwise stays the same; a column outside the row changes nothing |
| Runs.Run | app/page.tsx:15-39 | any session of taps on valid rows keeps the board 6 by 6, and the score ends between its starting value and that value plus the number of taps |
| Runs.RunAppend | app/page.tsx:15-39 | running two sessions one after the other gives the same result as running their concatenation |
| Runs.ScoreNeverDecreases | app/page.tsx:32-35 | across any session, the score at a later point is at least the score at any earlier point |
| Runs.RepeatedTaps | app/page.tsx:15-39 | `k` taps on one tile advance it `k` steps, leave every other tile as it was, and add one point per harvest among them |
| Runs.FiveTapsRestore | app/page.tsx:19-35 | five taps on the same tile return the board to exactly its previous contents and add exactly one point |
| Runs.ClickProgress | app/page.tsx:15-39 | one tap on a tile raises five times the score plus the board's total growth by exactly one; a tap off the row changes neither |
| Runs.RunProgress | app/page.tsx:15-39 | over a session, five times the score plus the board's total growth rises by exactly the number of taps that landed on a tile |
| Runs.ReachableStates | app/page.tsx:10-36 | every state reachable from the start (all `empty`, score 0) is a 6 by 6 board whose score is never negative and at most one fifth of the taps, and five times the score plus the board's growth equals the number of taps that landed |

## Left out

- Rendering: the JSX, the Tailwind classes, the button layout and the help text (app/page.tsx:63-97). These are presentation only.
- React state mechanics. `useState`, `setGrid`, the functional `setScore` update, and any batching or stale-closure effects are not modelled. Each click is one atomic step on `(grid, score)`.
- The `default` branches of the glyph and tooltip lookups (app/page.tsx:48, 59). No value of `CellState` reaches them, and the datatype has exactly five values.
- Cells.Emoji: strings are modelled as sequences of Unicode code points, so each glyph has length 1; JavaScript stores each of these glyphs (all above U+FFFF) as a surrogate pair, so the page's strings have length 2.
- Garden.Click: does not model JavaScript's non-integer or string indices. Rows and columns are integers; a row outside the board is excluded as a fault, and a column outside the row is a no-op.
- Runs.Run: the score is an unbounded integer. JavaScript numbers lose precision above 2^53, which no session can reach one tap at a time.
- `screenshot.js`: a browser-automation script with file and network I/O, and no game logic.
- Tool selection, seed counters, random harvest yield and context menus. This code has none of them.
