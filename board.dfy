/**
  The 3x3 board of the game, flattened row by row into nine cells, and the
  winner test the server runs after every accepted move.
 */
module Board {
  import opened Wrappers

  datatype Symbol = X | O

  /** A cell is empty (`null` on the wire) or holds the symbol of one player. */
  datatype Cell = Empty | Mark(symbol: Symbol)

  /** A position on the flattened board. */
  type Index = i: int | 0 <= i < 9

  /** The eight lines that win: three rows, three columns, two diagonals, in scan order. */
  const Lines: seq<(Index, Index, Index)> :=
    [(0, 1, 2), (3, 4, 5), (6, 7, 8),
     (0, 3, 6), (1, 4, 7), (2, 5, 8),
     (0, 4, 8), (2, 4, 6)]

  /** The board of a new or restarted game. */
  const EmptyBoard: seq<Cell> := [Empty, Empty, Empty, Empty, Empty, Empty, Empty, Empty, Empty]

  /** Line `k` holds three copies of one symbol. */
  predicate Uniform(b: seq<Cell>, k: nat)
    requires |b| == 9 && k < |Lines|
  {
    var (i, j, l) := Lines[k];
    b[i] != Empty && b[i] == b[j] && b[i] == b[l]
  }

  /** Line `k` holds three copies of `s`. */
  predicate WonBy(b: seq<Cell>, k: nat, s: Symbol)
    requires |b| == 9 && k < |Lines|
  {
    var (i, j, l) := Lines[k];
    b[i] == Mark(s) && b[j] == Mark(s) && b[l] == Mark(s)
  }

  /** No line with an index in `lo..hi` is uniform. */
  predicate NoUniformLine(b: seq<Cell>, lo: nat, hi: nat)
    requires |b| == 9 && lo <= hi <= |Lines|
  {
    forall k :: lo <= k < hi ==> !Uniform(b, k)
  }

  /**
    The scan of the lines from position `from` on: the symbol of the first
    uniform line, or nothing when none of the remaining lines is uniform.
   */
  function ScanLines(b: seq<Cell>, from: nat): (w: Option<Symbol>)
    requires |b| == 9 && from <= |Lines|
    ensures w.Some? ==>
      exists k :: from <= k < |Lines| && WonBy(b, k, w.value) && NoUniformLine(b, from, k)
    ensures w.None? <==> NoUniformLine(b, from, |Lines|)
    decreases |Lines| - from
  {
    if from == |Lines| then None
    else
      var (i, j, l) := Lines[from];
      if b[i] != Empty && b[i] == b[j] && b[i] == b[l] then
        assert WonBy(b, from, b[i].symbol) && Uniform(b, from);
        Some(b[i].symbol)
      else
        assert !Uniform(b, from);
        ScanLines(b, from + 1)
  }

  /**
    The winner of a board: `s` only if some line holds three `s`, and every
    line scanned before that one is not uniform; nothing exactly when no line
    is uniform.
   */
  function CheckWinner(b: seq<Cell>): (w: Option<Symbol>)
    requires |b| == 9
    ensures w.Some? ==>
      exists k :: 0 <= k < |Lines| && WonBy(b, k, w.value) && NoUniformLine(b, 0, k)
    ensures w.None? <==> NoUniformLine(b, 0, |Lines|)
  {
    ScanLines(b, 0)
  }

  /** The winner is determined by the first uniform line: whatever `s` it holds is reported. */
  lemma {:induction false} FirstUniformLineWins(b: seq<Cell>, k: nat, s: Symbol)
    requires |b| == 9 && k < |Lines|
    requires WonBy(b, k, s) && NoUniformLine(b, 0, k)
    ensures CheckWinner(b) == Some(s)
  {
    ScanReachesLine(b, 0, k, s);
  }

  lemma {:induction false} ScanReachesLine(b: seq<Cell>, from: nat, k: nat, s: Symbol)
    requires |b| == 9 && from <= k < |Lines|
    requires WonBy(b, k, s) && NoUniformLine(b, from, k)
    ensures ScanLines(b, from) == Some(s)
    decreases k - from
  {
    if from < k {
      assert !Uniform(b, from);
      ScanReachesLine(b, from + 1, k, s);
    }
  }

  /** A board with a single mark has no winner and still has an empty cell: one move never ends a game. */
  lemma OneMarkNoWinner(i: Index, s: Symbol)
    ensures var b := EmptyBoard[i := Mark(s)];
      CheckWinner(b) == None && Empty in b
  {
  }

  /** A full row of X wins for X. */
  lemma TopRowWins()
    ensures CheckWinner([Mark(X), Mark(X), Mark(X), Empty, Empty, Empty, Empty, Empty, Empty]) == Some(X)
  {
  }

  /** A full board without a uniform line has no winner: the draw case. */
  lemma FullBoardDraw()
    ensures var b := [Mark(X), Mark(O), Mark(X), Mark(X), Mark(O), Mark(O), Mark(O), Mark(X), Mark(X)];
      CheckWinner(b) == None && Empty !in b
  {
  }
}
