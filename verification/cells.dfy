/** The state of one garden tile, its growth cycle, and the glyph and label
    the page shows for it. */
module Cells {

  /** A tile's lifecycle state; the five values of the page's `CellState`. */
  datatype CellState = Empty | Seeded | Watered | Growing | Ready

  /** The conventional optional value, used for the inverse lookups. */
  datatype Option<T> = None | Some(value: T)

  /** Number of states in the growth cycle. */
  const Period: nat := 5

  /** Position of a state along the cycle, counting from Empty in the order
      the type lists its values. This is the reference the step is judged by. */
  function Stage(c: CellState): (k: nat)
    ensures k < Period
    ensures k == 0 <==> c == Empty
  {
    match c
    case Empty => 0
    case Seeded => 1
    case Watered => 2
    case Growing => 3
    case Ready => 4
  }

  /** What one tap does to a tile: advance exactly one position around the
      cycle Empty, Seeded, Watered, Growing, Ready and back to Empty. */
  function Next(c: CellState): (n: CellState)
    ensures Stage(n) == (Stage(c) + 1) % Period
    ensures n != c
    ensures n == Empty <==> c == Ready
  {
    match c
    case Empty => Seeded
    case Seeded => Watered
    case Watered => Growing
    case Growing => Ready
    case Ready => Empty
  }

  /** A step is pinned down by where it lands: any state one position past
      `c` in the cycle is the state a tap on `c` produces. */
  lemma NextDeterminedByStage(c: CellState, n: CellState)
    requires Stage(n) == (Stage(c) + 1) % Period
    ensures n == Next(c)
  {
  }

  /** The tile after `k` taps. */
  function Advance(c: CellState, k: nat): CellState
    decreases k
  {
    if k == 0 then c else Advance(Next(c), k - 1)
  }

  /** How many of `k` taps on a tile starting at `c` are harvests, that is,
      taps on a Ready tile. */
  function Harvests(c: CellState, k: nat): nat
    decreases k
  {
    if k == 0 then 0
    else (if c == Ready then 1 else 0) + Harvests(Next(c), k - 1)
  }

  /** `k` taps move a tile `k` positions around the cycle. */
  lemma {:induction false} AdvanceStage(c: CellState, k: nat)
    ensures Stage(Advance(c, k)) == (Stage(c) + k) % Period
    decreases k
  {
    if k > 0 {
      AdvanceStage(Next(c), k - 1);
    }
  }

  /** Every pass of the cycle's last position is a harvest: `k` taps harvest
      once for each time the tile wraps from Ready to Empty. */
  lemma {:induction false} HarvestCount(c: CellState, k: nat)
    ensures Harvests(c, k) == (Stage(c) + k) / Period
    decreases k
  {
    if k > 0 {
      HarvestCount(Next(c), k - 1);
      if c == Ready {
        assert Stage(Next(c)) == 0;
      } else {
        assert Stage(Next(c)) == Stage(c) + 1;
      }
    }
  }

  /** The cycle has period exactly five: five taps restore any tile, fewer
      taps never do, and five taps harvest exactly once. */
  lemma CyclePeriod(c: CellState)
    ensures Advance(c, Period) == c
    ensures forall k: nat :: 0 < k < Period ==> Advance(c, k) != c
    ensures Harvests(c, Period) == 1
  {
  }

  /** The glyph drawn on a tile (U+1F7EB, U+1F331, U+1F4A7, U+1F33F, U+1F338). */
  function Emoji(c: CellState): (s: string)
    ensures |s| == 1
    ensures CellOfEmoji(s) == Some(c)
  {
    match c
    case Empty => "\U{1F7EB}"
    case Seeded => "\U{1F331}"
    case Watered => "\U{1F4A7}"
    case Growing => "\U{1F33F}"
    case Ready => "\U{1F338}"
  }

  /** Reads a glyph back to the state it depicts; None for any other text. */
  function CellOfEmoji(s: string): Option<CellState>
  {
    if s == "\U{1F7EB}" then Some(Empty)
    else if s == "\U{1F331}" then Some(Seeded)
    else if s == "\U{1F4A7}" then Some(Watered)
    else if s == "\U{1F33F}" then Some(Growing)
    else if s == "\U{1F338}" then Some(Ready)
    else None
  }

  /** The tooltip of a tile: a short label for its stage. */
  function StageName(c: CellState): (s: string)
    ensures |s| > 0
    ensures CellOfStageName(s) == Some(c)
  {
    match c
    case Empty => "Plant seed"
    case Seeded => "Water"
    case Watered => "Growing"
    case Growing => "Almost ready"
    case Ready => "Harvest!"
  }

  /** Reads a tooltip back to the state it labels; None for any other text. */
  function CellOfStageName(s: string): Option<CellState>
  {
    if s == "Plant seed" then Some(Empty)
    else if s == "Water" then Some(Seeded)
    else if s == "Growing" then Some(Watered)
    else if s == "Almost ready" then Some(Growing)
    else if s == "Harvest!" then Some(Ready)
    else None
  }

  /** Distinct states get distinct glyphs and distinct tooltips. */
  lemma LookupsInjective(a: CellState, b: CellState)
    requires a != b
    ensures Emoji(a) != Emoji(b)
    ensures StageName(a) != StageName(b)
  {
  }
}
