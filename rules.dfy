/** Board geometry, the emoji category table and the win detector of Blink Tac Toe. */
module Rules {

  datatype Option<T> = None | Some(value: T)

  /** Number of cells of the 3x3 board. */
  const Size: nat := 9

  /** How many pieces one player may have on the board at once (the vanishing rule). */
  const Capacity: nat := 3

  /** A cell index, row by row from the top-left corner. */
  type Pos = i: int | 0 <= i < Size

  /** The `slot`-th emoji of the category `category`. The emoji text itself is left abstract;
      every symbol stands for a non-empty, hence truthy, string. */
  datatype Symbol = Emoji(category: string, slot: nat)

  /** A board cell: a symbol, or empty (`null`). */
  type Cell = Option<Symbol>

  /** Three cells that win when one player holds all of them. */
  datatype Line = Line(a: Pos, b: Pos, c: Pos)

  /** The eight lines in the fixed order in which they are checked. */
  const Lines: seq<Line> := [
    Line(0, 1, 2), Line(3, 4, 5), Line(6, 7, 8),  // rows
    Line(0, 3, 6), Line(1, 4, 7), Line(2, 5, 8),  // columns
    Line(0, 4, 8), Line(2, 4, 6)                  // diagonals
  ]

  /** The six emoji of one category, in table order. */
  function CategorySymbols(name: string): seq<Symbol> {
    [Emoji(name, 0), Emoji(name, 1), Emoji(name, 2), Emoji(name, 3), Emoji(name, 4), Emoji(name, 5)]
  }

  /** The read-only category table: category name to its candidate symbols. */
  const EmojiCategories: map<string, seq<Symbol>> := map[
    "Animals" := CategorySymbols("Animals"),
    "Food" := CategorySymbols("Food"),
    "Sports" := CategorySymbols("Sports"),
    "Plants" := CategorySymbols("Plants"),
    "Weather" := CategorySymbols("Weather"),
    "Vehicles" := CategorySymbols("Vehicles")
  ]

  /** Every category offers six symbols, all of its own, and every category name is non-empty
      (so a selected category is truthy). */
  lemma CategoryTableShape(c: string)
    requires c in EmojiCategories
    ensures |EmojiCategories[c]| == 6 && c != ""
    ensures forall k :: 0 <= k < 6 ==> EmojiCategories[c][k] == Emoji(c, k)
  {
  }

  /** The test applied to one line: its first cell is occupied and all three of its cells are
      in the mover's queue. Only the mover's queue is consulted. */
  predicate Completes(board: seq<Cell>, queue: seq<Pos>, l: Line)
    requires |board| == Size
  {
    board[l.a].Some? && l.a in queue && l.b in queue && l.c in queue
  }

  /** The first line, from position `k` of `Lines` on, that the mover completes. */
  function FirstWinFrom(board: seq<Cell>, queue: seq<Pos>, k: nat): Option<Line>
    requires |board| == Size
    decreases |Lines| - k
  {
    if k >= |Lines| then None
    else if Completes(board, queue, Lines[k]) then Some(Lines[k])
    else FirstWinFrom(board, queue, k + 1)
  }

  /** The winning line reported for the mover, if any. */
  function FirstWin(board: seq<Cell>, queue: seq<Pos>): Option<Line>
    requires |board| == Size
  {
    FirstWinFrom(board, queue, 0)
  }

  lemma {:induction false} FirstWinFromIsFirst(board: seq<Cell>, queue: seq<Pos>, k: nat)
    requires |board| == Size && k <= |Lines|
    ensures FirstWinFrom(board, queue, k).None? <==>
            forall i :: k <= i < |Lines| ==> !Completes(board, queue, Lines[i])
    ensures FirstWinFrom(board, queue, k).Some? ==>
            exists j :: k <= j < |Lines| && Lines[j] == FirstWinFrom(board, queue, k).value &&
              Completes(board, queue, Lines[j]) &&
              forall i :: k <= i < j ==> !Completes(board, queue, Lines[i])
    decreases |Lines| - k
  {
    if k < |Lines| && !Completes(board, queue, Lines[k]) {
      FirstWinFromIsFirst(board, queue, k + 1);
    }
  }

  /** The reported line is one of the eight lines, the mover completes it, and no line before it
      in the fixed order is complete; no line is reported exactly when none is complete. */
  lemma FirstWinIsFirst(board: seq<Cell>, queue: seq<Pos>)
    requires |board| == Size
    ensures FirstWin(board, queue).None? <==>
            forall i :: 0 <= i < |Lines| ==> !Completes(board, queue, Lines[i])
    ensures FirstWin(board, queue).Some? ==>
            exists j :: 0 <= j < |Lines| && Lines[j] == FirstWin(board, queue).value &&
              Completes(board, queue, Lines[j]) &&
              forall i :: 0 <= i < j ==> !Completes(board, queue, Lines[i])
  {
    FirstWinFromIsFirst(board, queue, 0);
  }

  /** A reported line is complete for the mover: its three cells are in the mover's queue. */
  lemma FirstWinInQueue(board: seq<Cell>, queue: seq<Pos>)
    requires |board| == Size && FirstWin(board, queue).Some?
    ensures FirstWin(board, queue).value in Lines
    ensures Completes(board, queue, FirstWin(board, queue).value)
    ensures var l := FirstWin(board, queue).value; l.a in queue && l.b in queue && l.c in queue
  {
    FirstWinIsFirst(board, queue);
  }

  /** The loop over the eight lines with an early exit at the first complete one. */
  method FindWinningLine(board: array<Cell>, queue: seq<Pos>) returns (line: Option<Line>)
    requires board.Length == Size
    ensures line == FirstWin(board[..], queue)
  {
    for k := 0 to |Lines|
      invariant FirstWinFrom(board[..], queue, k) == FirstWin(board[..], queue)
    {
      var l := Lines[k];
      if board[l.a].Some? && l.a in queue && l.b in queue && l.c in queue {
        return Some(l);
      }
    }
    return None;
  }
}
