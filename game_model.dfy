/** The state of one Blink Tac Toe session as a value, and each transition of the rules engine
    as a function of it. The class in GameEngine is proved to follow these functions. */
module GameModel {
  import opened Rules

  /** A player index: 0 is the first player, 1 the second. */
  type Player = p: int | 0 <= p < 2

  /** The session state: setup (names, name inputs, categories), the board, the per-player FIFO
      queues of occupied cells with the parallel record of their symbols, the turn counter, the
      winner with the winning line, and the cumulative scores. */
  datatype GameState = GameState(
    names: seq<string>,
    nameInputs: seq<string>,
    categories: seq<Option<string>>,
    chosen: seq<seq<Symbol>>,
    board: seq<Cell>,
    turn: nat,
    positions: seq<seq<Pos>>,
    scores: seq<nat>,
    winner: Option<string>,
    winningLine: Option<Line>)

  /** What a click did, which also fixes the notification it raises. */
  datatype Outcome =
    | Ignored                               // the guard rejected the click
    | Conflict                              // the target is the cell the mover's oldest piece leaves
    | Placed(vanished: bool)                // committed, no win; `vanished`: the oldest piece left
    | Won(line: Line, vanished: bool)       // committed and `line` won

  datatype Severity = Info | Warning | Error | Success

  /** The severity of the last notification a click raises, if it raises one. */
  function Notice(o: Outcome): Option<Severity> {
    match o
    case Ignored => None
    case Conflict => Some(Warning)
    case Placed(vanished) => if vanished then Some(Info) else None
    case Won(_, _) => Some(Success)
  }

  /** The shape every state has: two of everything per player, nine cells, selected categories
      taken from the table, and each symbol record as long as its queue. */
  predicate WellFormed(g: GameState) {
    && |g.names| == 2 && |g.nameInputs| == 2 && |g.categories| == 2
    && |g.chosen| == 2 && |g.positions| == 2 && |g.scores| == 2
    && |g.board| == Size
    && (g.categories[0].Some? ==> g.categories[0].value in EmojiCategories)
    && (g.categories[1].Some? ==> g.categories[1].value in EmojiCategories)
    && |g.chosen[0]| == |g.positions[0]|
    && |g.chosen[1]| == |g.positions[1]|
  }

  function EmptyBoard(): (b: seq<Cell>)
    ensures |b| == Size && forall i :: 0 <= i < Size ==> b[i].None?
  {
    seq(Size, _ => None)
  }

  /** The state a session starts in. */
  function Initial(): GameState {
    GameState(["Player 1", "Player 2"], ["", ""], [None, None], [[], []], EmptyBoard(), 0,
              [[], []], [0, 0], None, None)
  }

  /** The acting player. */
  function Mover(g: GameState): Player {
    g.turn % 2
  }

  /** Both categories are selected (category names are non-empty, so selected means truthy). */
  predicate BothChosen(categories: seq<Option<string>>)
    requires |categories| == 2
  {
    categories[0].Some? && categories[1].Some?
  }

  /** Both strings are non-empty (truthy). */
  predicate AllFilled(inputs: seq<string>)
    requires |inputs| == 2
  {
    inputs[0] != "" && inputs[1] != ""
  }

  /** The guard of a click: the target is empty, nobody has won and both categories are set.
      (Every winner is a non-empty name, so "a winner is set" is the truthiness test.) */
  predicate Accepts(g: GameState, index: Pos)
    requires WellFormed(g)
  {
    g.board[index].None? && g.winner.None? && BothChosen(g.categories)
  }

  /** The symbols the mover draws from. */
  function Pool(g: GameState): seq<Symbol>
    requires WellFormed(g) && g.categories[Mover(g)].Some?
  {
    EmojiCategories[g.categories[Mover(g)].value]
  }

  /** The injected draw `pick` stands for a uniformly drawn index into the mover's pool; it only
      has to be in range when the click gets past the guard. */
  predicate DrawInRange(g: GameState, index: Pos, pick: nat)
    requires WellFormed(g)
  {
    Accepts(g, index) ==> pick < |Pool(g)|
  }

  /** True when the mover already holds three pieces, so placing one more evicts the oldest. */
  predicate MoverFull(g: GameState)
    requires WellFormed(g)
  {
    |g.positions[Mover(g)]| == Capacity
  }

  /** The commit of a move: when the mover is full, its oldest cell is cleared and the oldest
      entries leave its queue and its symbol record; then `sym` is written into `index` and
      appended to both. */
  function Place(g: GameState, index: Pos, sym: Symbol): (r: GameState)
    requires WellFormed(g)
    ensures WellFormed(r)
  {
    var p := Mover(g);
    var q := g.positions[p];
    var cs := g.chosen[p];
    var full := MoverFull(g);
    var board := if full then g.board[q[0] := None] else g.board;
    var q' := if full then q[1..] else q;
    var cs' := if full then cs[1..] else cs;
    g.(board := board[index := Some(sym)],
       positions := g.positions[p := q' + [index]],
       chosen := g.chosen[p := cs' + [sym]])
  }

  /** A click on cell `index` with the injected draw `pick`: the guard, the conflict with the
      cell about to vanish, the commit, the win check over the mover's queue, and then either
      the win (score, winner, line; the turn stays) or the turn advance. */
  function Click(g: GameState, index: Pos, pick: nat): (GameState, Outcome)
    requires WellFormed(g) && DrawInRange(g, index, pick)
  {
    if !Accepts(g, index) then (g, Ignored)
    else if MoverFull(g) && g.positions[Mover(g)][0] == index then (g, Conflict)
    else
      var p := Mover(g);
      var placed := Place(g, index, Pool(g)[pick]);
      match FirstWin(placed.board, placed.positions[p])
      case Some(l) =>
        (placed.(scores := g.scores[p := g.scores[p] + 1], winner := Some(g.names[p]),
                 winningLine := Some(l)),
         Won(l, MoverFull(g)))
      case None =>
        (placed.(turn := g.turn + 1), Placed(MoverFull(g)))
  }

  /** Player `p` selects category `c`. */
  function SelectCategory(g: GameState, p: Player, c: string): GameState
    requires WellFormed(g) && c in EmojiCategories
  {
    g.(categories := g.categories[p := Some(c)])
  }

  /** Player `p`'s name input field now reads `s`. */
  function EditNameInput(g: GameState, p: Player, s: string): GameState
    requires WellFormed(g)
  {
    g.(nameInputs := g.nameInputs[p := s])
  }

  /** Start Game: the name inputs become the names when both categories and both inputs are
      set; the flag says whether they did (otherwise an error notification is raised). */
  function SaveNames(g: GameState): (GameState, bool)
    requires WellFormed(g)
  {
    if BothChosen(g.categories) && AllFilled(g.nameInputs) then (g.(names := g.nameInputs), true)
    else (g, false)
  }

  /** Play Again: a fresh board and queues, no winner, turn 0. */
  function ResetGame(g: GameState): GameState {
    g.(board := EmptyBoard(), positions := [[], []], chosen := [[], []],
       winner := None, winningLine := None, turn := 0)
  }

  /** The gate between the setup view and the active game view. */
  predicate ShowsActiveView(g: GameState)
    requires WellFormed(g)
  {
    BothChosen(g.categories) && AllFilled(g.nameInputs) && g.names[0] != "Player 1"
  }

  // ---- The reachable-state invariant ----

  /** The entries of a queue are pairwise distinct. */
  predicate Distinct(q: seq<Pos>) {
    forall i, j :: 0 <= i < j < |q| ==> q[i] != q[j]
  }

  /** No cell is in both queues. */
  predicate Disjoint(q: seq<Pos>, o: seq<Pos>) {
    forall i, j :: 0 <= i < |q| && 0 <= j < |o| ==> q[i] != o[j]
  }

  /** A queue of at most three distinct cells, each holding the symbol its record lists. */
  predicate QueueOk(board: seq<Cell>, q: seq<Pos>, cs: seq<Symbol>)
    requires |board| == Size
  {
    && |q| <= Capacity && |cs| == |q| && Distinct(q)
    && forall k :: 0 <= k < |q| ==> board[q[k]] == Some(cs[k])
  }

  /** Every occupied cell is in one of the queues. */
  predicate Covered(board: seq<Cell>, q: seq<Pos>, o: seq<Pos>)
    requires |board| == Size
  {
    forall i :: 0 <= i < Size && board[i].Some? ==> i in q || i in o
  }

  /** What holds in every state the engine reaches. */
  predicate Inv(g: GameState) {
    && WellFormed(g)
    && QueueOk(g.board, g.positions[0], g.chosen[0])
    && QueueOk(g.board, g.positions[1], g.chosen[1])
    && Disjoint(g.positions[0], g.positions[1])
    && Covered(g.board, g.positions[0], g.positions[1])
    && AllFilled(g.names)
    && (g.winner.Some? <==> g.winningLine.Some?)
    && (g.winner.Some? ==> g.winner.value != "")
    && (g.winningLine.Some? ==>
          g.winningLine.value in Lines &&
          Completes(g.board, g.positions[Mover(g)], g.winningLine.value))
  }
}
