/** The Game component's rules engine as an object whose methods update its fields in place. */
module GameEngine {
  import opened Rules
  import opened GameModel
  import GameLemmas

  class Game {
    var names: seq<string>
    var nameInputs: seq<string>
    var categories: seq<Option<string>>
    var chosenEmojis: seq<seq<Symbol>>
    var board: array<Cell>
    var turn: nat
    var positions: seq<seq<Pos>>
    var scores: seq<nat>
    var winner: Option<string>
    var winningLine: Option<Line>

    /** The fields read as a value. */
    ghost function State(): GameState
      reads this, board
    {
      GameState(names, nameInputs, categories, chosenEmojis, board[..], turn, positions, scores,
                winner, winningLine)
    }

    /** The object invariant: nine cells and the reachable-state invariant of the model. */
    ghost predicate Valid()
      reads this, board
    {
      board.Length == Size && Inv(State())
    }

    /** The initial values of the component's state. */
    constructor ()
      ensures Valid() && State() == Initial()
    {
      names := ["Player 1", "Player 2"];
      nameInputs := ["", ""];
      categories := [None, None];
      chosenEmojis := [[], []];
      board := new Cell[Size](_ => None);
      turn := 0;
      positions := [[], []];
      scores := [0, 0];
      winner := None;
      winningLine := None;
      new;
      assert board[..] == EmptyBoard();
      GameLemmas.InitialInv();
    }

    /** Player `playerIndex` selects `category`. */
    method SelectCategory(playerIndex: Player, category: string)
      requires Valid() && category in EmojiCategories
      modifies this
      ensures Valid() && board == old(board)
      ensures State() == GameModel.SelectCategory(old(State()), playerIndex, category)
    {
      categories := categories[playerIndex := Some(category)];
      GameLemmas.SelectCategoryEffect(old(State()), playerIndex, category);
    }

    /** Player `playerIndex` types `text` into their name input. */
    method EditNameInput(playerIndex: Player, text: string)
      requires Valid()
      modifies this
      ensures Valid() && board == old(board)
      ensures State() == GameModel.EditNameInput(old(State()), playerIndex, text)
    {
      nameInputs := nameInputs[playerIndex := text];
      GameLemmas.EditNameInputEffect(old(State()), playerIndex, text);
    }

    /** Start Game; `saved` is false when the error notification is raised instead. */
    method SaveNames() returns (saved: bool)
      requires Valid()
      modifies this
      ensures Valid() && board == old(board)
      ensures (State(), saved) == GameModel.SaveNames(old(State()))
    {
      GameLemmas.SaveNamesEffect(State());
      if categories[0].Some? && categories[1].Some? && nameInputs[0] != "" && nameInputs[1] != "" {
        names := nameInputs;
        saved := true;
      } else {
        saved := false;
      }
    }

    /** Which of the two views is rendered. */
    method ActiveView() returns (active: bool)
      requires Valid()
      ensures active == ShowsActiveView(State())
    {
      active := !(categories[0].None? || categories[1].None? || nameInputs[0] == ""
                  || nameInputs[1] == "" || names[0] == "Player 1");
    }

    /** A click on cell `index`; `pick` stands for the random draw from the mover's category. */
    method CellClick(index: Pos, pick: nat) returns (outcome: Outcome)
      requires Valid() && DrawInRange(State(), index, pick)
      modifies this
      ensures Valid()
      ensures (State(), outcome) == Click(old(State()), index, pick)
    {
      ghost var g := State();
      if board[index].Some? || winner.Some? || categories[0].None? || categories[1].None? {
        return Ignored;
      }
      var playerIndex := turn % 2;
      var currentCategory := EmojiCategories[categories[playerIndex].value];
      var randomEmoji := currentCategory[pick];
      assert randomEmoji == Pool(g)[pick];

      var vanished, conflict := Commit(index, playerIndex, randomEmoji);
      if conflict {
        return Conflict;
      }
      var won := CheckWinner(playerIndex);
      GameLemmas.ClickCommitted(g, index, pick, State(), won);
      outcome := if won then Won(winningLine.value, vanished) else Placed(vanished);
      assert Inv(State()) by {
        GameLemmas.ClickKeepsInv(g, index, pick);
      }
    }

    /** Lines 101-132 of a click: the loop over the lines, and then either the win (mover's
        score, winner, winning line) or the turn advance. */
    method CheckWinner(playerIndex: Player) returns (won: bool)
      requires board.Length == Size && WellFormed(State()) && playerIndex == Mover(State())
      modifies this
      ensures board == old(board) && board.Length == Size
      ensures var g := old(State());
        match FirstWin(g.board, g.positions[playerIndex])
        case Some(l) =>
          && won && State() == g.(scores := g.scores[playerIndex := g.scores[playerIndex] + 1],
                                  winner := Some(g.names[playerIndex]), winningLine := Some(l))
        case None => !won && State() == g.(turn := g.turn + 1)
    {
      var line := FindWinningLine(board, positions[playerIndex]);
      if line.Some? {
        scores := scores[playerIndex := scores[playerIndex] + 1];
        winner := Some(names[playerIndex]);
        winningLine := line;
        return true;
      }
      turn := turn + 1;
      return false;
    }

    /** Lines 65-99 of a click past the guard: work on a copy of the board and of the queues,
        apply the vanishing rule, place the symbol and write the copies back; nothing is written
        back when the target is the cell that just vanished (`conflict`). */
    method Commit(index: Pos, playerIndex: Player, randomEmoji: Symbol)
      returns (vanished: bool, conflict: bool)
      requires board.Length == Size && WellFormed(State()) && playerIndex == Mover(State())
      modifies this
      ensures vanished == MoverFull(old(State()))
      ensures conflict == (vanished && old(positions[playerIndex][0]) == index)
      ensures conflict ==> State() == old(State()) && board == old(board)
      ensures !conflict ==> State() == Place(old(State()), index, randomEmoji)
      ensures board.Length == Size
    {
      var current := board;
      var newBoard := new Cell[Size](i requires 0 <= i < current.Length reads current => current[i]);
      var newPositions := positions;
      var newChosen := chosenEmojis;
      vanished, conflict := false, false;

      // The vanishing rule.
      if |newPositions[playerIndex]| == Capacity {
        var removedIndex := newPositions[playerIndex][0];
        newBoard[removedIndex] := None;
        newPositions := newPositions[playerIndex := newPositions[playerIndex][1..]];
        newChosen := newChosen[playerIndex := newChosen[playerIndex][1..]];
        vanished := true;
        if removedIndex == index {
          conflict := true;
          return;
        }
      }

      newBoard[index] := Some(randomEmoji);
      newPositions := newPositions[playerIndex := newPositions[playerIndex] + [index]];
      newChosen := newChosen[playerIndex := newChosen[playerIndex] + [randomEmoji]];

      board, positions, chosenEmojis := newBoard, newPositions, newChosen;
      assert board[..] == Place(old(State()), index, randomEmoji).board;
    }

    /** Play Again. */
    method Reset()
      requires Valid()
      modifies this
      ensures Valid() && fresh(board)
      ensures State() == ResetGame(old(State()))
    {
      GameLemmas.ResetEffect(State());
      board := new Cell[Size](_ => None);
      positions := [[], []];
      chosenEmojis := [[], []];
      winner := None;
      winningLine := None;
      turn := 0;
      assert board[..] == EmptyBoard();
    }
  }
}
