# Blink Tac Toe rules engine, in Dafny

Blink Tac Toe is tic-tac-toe on a 3x3 board with a vanishing rule. Each player picks an emoji
category, and every piece they place is an emoji drawn at random from that category. A player
may have at most three pieces on the board. Placing a fourth first removes that player's oldest
piece (first in, first out). A player wins by holding the three cells of a row, column or
diagonal.

All the game logic lives in the `Game` component (`src/Game.jsx`). This project models that
component's state and its handlers:

- a click on a cell (`handleCellClick`): the guard, the vanishing rule, placement, the win check
  over the eight lines, scoring and the turn advance;
- Play Again (`resetGame`);
- setup: selecting a category (`handleCategorySelect`), typing a name (the name inputs'
  `onChange`) and Start Game (`saveNames`);
- the condition that chooses between the setup view and the game view.

Files:

- `rules.dfy`, module `Rules`: cell indices, symbols, the eight lines in their fixed order, the
  category table, the single-line test, and the win check, both as a function (`FirstWin`) and
  as the loop with an early exit (`FindWinningLine`).
- `game_model.dfy`, module `GameModel`: the whole component state as a value (`GameState`),
  each handler as a function of it (`Click`, `Place`, `SelectCategory`, `EditNameInput`,
  `SaveNames`, `ResetGame`, `ShowsActiveView`), and the invariant of reachable states (`Inv`).
  The invariant says:
  - each queue holds at most three distinct cells;
  - the two queues are disjoint;
  - each queued cell holds exactly the symbol recorded for it, so the symbol record moves in
    lock-step with the queue;
  - every occupied cell is queued;
  - names are non-empty;
  - a winner is set exactly when a winning line is set, and that line is complete for the
    player whose turn it is.
- `game_lemmas.dfy`, module `GameLemmas`: what the handlers do and what they preserve.
- `game.dfy`, module `GameEngine`: the component as a class `Game`. Its fields are the
  component's state variables, and the board is an array. Each public method that changes
  state (the constructor, `SelectCategory`, `EditNameInput`, `SaveNames`, `CellClick`, `Reset`)
  is proved to update the fields exactly as the matching `GameModel` function does, and to keep
  `Valid()`, which is `Inv` of the fields. `ActiveView` changes nothing; its result is proved
  equal to `ShowsActiveView`. The two helper methods of `CellClick` are the exception.
  `Commit` is stated against `Place`, `CheckWinner` against `FirstWin`, and both require only
  `WellFormed`. `CellClick` re-establishes `Valid()` after them.

The random draw at `src/Game.jsx:63` becomes an injected index `pick` into the mover's category.
It only has to be in range when the click gets past the guard. Emoji are abstract symbols
`Emoji(category, slot)`. The table has the six categories and six symbols per category of
`src/Game.jsx:10-17`.

The model follows what `src/Game.jsx` does:

- `src/Game.jsx` has no undo/redo history and no draw detection, so the model has neither. What is
  proved instead is `GameLemmas.BoardNeverFull`: at most six cells are ever occupied, so a
  full-board draw cannot happen.
- A click on the cell the mover's own oldest piece occupies is rejected by the
  occupied-cell guard (`src/Game.jsx:59`). That click is outcome `Ignored`, with no
  notification. It is not the separate "cannot place where one just vanished" rejection
  (`src/Game.jsx:82-90`), which would raise a warning. `GameLemmas.ConflictUnreachable` proves
  that this second branch never runs in a reachable state. `GameLemmas.ConflictNeedsBrokenInv`
  shows a state that breaks the invariant, in which the branch would run.
- Categories are only ever set: the code never clears one.

One consequence of the setup/game gate (`src/Game.jsx:148`) is recorded as a property of the
code as written. The gate treats `names[0] === 'Player 1'` as "names not saved yet". So if the
first player types the name "Player 1", Start Game succeeds but the setup view stays
(`GameLemmas.SaveNamesOpensGame`).

## Model

| member | source | states |
|---|---|---|
| `Rules.CategoryTableShape` | src/Game.jsx:10-17 | every category of the table has six symbols, all its own, and a non-empty (truthy) name |
| `Rules.FirstWinFromIsFirst` | src/Game.jsx:108-130 | the line check from position k on: it reports nothing exactly when no later line is complete, and otherwise the first complete line at or after k |
| `Rules.FirstWinIsFirst` | src/Game.jsx:102-130 | the reported line is one of the eight lines, is complete for the mover, and no earlier line in the order rows, columns, diagonals is complete; nothing is reported exactly when no line is complete |
| `Rules.FirstWinInQueue` | src/Game.jsx:110-115 | all three cells of a reported line are in the mover's queue |
| `Rules.FindWinningLine` | src/Game.jsx:108-130 | the loop with early exit returns the same line as the first-complete-line definition |
| `GameModel.EmptyBoard` | src/Game.jsx:24 | nine cells, all empty |
| `GameModel.Place` | src/Game.jsx:65-99 | the commit (eviction of the oldest piece when full, then placement) keeps the state's shape: two queues, nine cells, each symbol record as long as its queue |
| `GameLemmas.CommitKeepsQueues` | src/Game.jsx:70-95 | evicting the oldest cell when the queue is full and appending the empty target keeps both queues at most three long, duplicate-free, disjoint, in lock-step with the board, and covering every occupied cell |
| `GameLemmas.PlaceKeepsInv` | src/Game.jsx:65-99 | a commit past the guard keeps the reachable-state invariant |
| `GameLemmas.ClickKeepsInv` | src/Game.jsx:58-133 | every click, whatever its outcome, keeps the reachable-state invariant |
| `GameLemmas.InitialInv` | src/Game.jsx:20-31 | the initial state satisfies the invariant and shows the setup view |
| `GameLemmas.SelectCategoryEffect` | src/Game.jsx:33-36 | selecting changes only that player's category and keeps the invariant |
| `GameLemmas.EditNameInputEffect` | src/components/PlayerSetup.jsx:19-23 | typing changes only that player's name input and keeps the invariant |
| `GameLemmas.SaveNamesEffect` | src/Game.jsx:45-56 | Start Game copies the inputs into the names exactly when both categories and both inputs are set, and otherwise changes nothing; the invariant is kept |
| `GameLemmas.SaveNamesOpensGame` | src/Game.jsx:148 | after Start Game the game view shows exactly when the names were saved and the first saved name is not "Player 1" |
| `GameLemmas.ActiveViewStable` | src/Game.jsx:148 | once the game view shows, clicks, Play Again and category selection keep it |
| `GameLemmas.ResetEffect` | src/Game.jsx:135-142 | Play Again gives an empty board, empty queues and symbol records, no winner or line, turn 0; it keeps names, inputs, categories and scores, keeps the invariant, and is idempotent |
| `GameLemmas.OccupiedIffQueued` | src/Game.jsx:65-99 | in a reachable state a cell is occupied exactly when it is in one of the queues, and it is never in both |
| `GameLemmas.OccupiedCount` | src/Game.jsx:70-95 | the number of occupied cells equals the sum of the queue lengths, at most six |
| `GameLemmas.BoardNeverFull` | src/Game.jsx:70-95 | in a reachable state some cell is empty, so a full-board draw is impossible |
| `GameLemmas.IgnoredIff` | src/Game.jsx:59 | a click is ignored exactly when the cell is occupied, a winner is set or a category is missing, and then nothing changes |
| `GameLemmas.ConflictIff` | src/Game.jsx:70-90 | the vanish conflict is reported exactly when the click passes the guard, the mover holds three pieces and the target is the oldest; then nothing changes |
| `GameLemmas.ConflictUnreachable` | src/Game.jsx:59-90 | in a reachable state the vanish conflict never happens |
| `GameLemmas.ConflictNeedsBrokenInv` | src/Game.jsx:82-90 | a state that breaks the invariant (a full queue whose oldest cell is empty) does reach the conflict branch |
| `GameLemmas.CommitEffect` | src/Game.jsx:61-99 | the mover is `turn % 2`; its oldest cell is cleared and dropped when it holds three; the symbol goes into the target and onto the end of its queue and record; the other player's queue and record, every other cell and the setup are unchanged |
| `GameLemmas.VanishThenPlace` | src/Game.jsx:70-95 | with queue `[a, b, c]` and empty target `d`: cell `a` empties, `d` holds the drawn symbol, the queue becomes `[b, c, d]`, and the notification is info unless the move wins |
| `GameLemmas.NoVanishBelowCapacity` | src/Game.jsx:93-95 | below three pieces the target is appended and no other cell changes |
| `GameLemmas.CompletesIsMembership` | src/Game.jsx:110-114 | in a reachable state the line test reduces to membership of the three cells in the mover's queue |
| `GameLemmas.WinEffect` | src/Game.jsx:108-128 | on a win the line's cells are in the mover's new queue, it is the first complete line in order, the mover's score rises by one, the other stays, winner and line are set, the turn stays |
| `GameLemmas.PlacedEffect` | src/Game.jsx:130-132 | on a committed move without a win the turn rises by one, the other player moves next, scores and winner stay, and no line is complete for the mover |
| `GameLemmas.FrozenAfterWin` | src/Game.jsx:59 | after a win every further click is ignored and changes nothing |
| `GameLemmas.SetUp` | src/Game.jsx:33-56 | choosing two categories, typing two names and saving reaches a state that satisfies the invariant and shows the game view |
| `GameLemmas.ScenarioMove1` | src/Game.jsx:93-132 | the first move of a played game places the first player's symbol in cell 0 and passes the turn |
| `GameLemmas.ScenarioMove2` | src/Game.jsx:93-132 | the second player's move to cell 1 is committed and passes the turn |
| `GameLemmas.ScenarioMove3` | src/Game.jsx:93-132 | the first player's move to cell 3 is committed and passes the turn |
| `GameLemmas.ScenarioMove4` | src/Game.jsx:93-132 | the second player's move to cell 4 is committed and passes the turn |
| `GameLemmas.ScenarioMove5` | src/Game.jsx:102-128 | the first player's move to cell 6 wins the left column `[0, 3, 6]`; the first player scores 1 and the turn stays |
| `GameEngine.Game.constructor` | src/Game.jsx:20-31 | the fields start at the initial state, which satisfies the invariant |
| `GameEngine.Game.SelectCategory` | src/Game.jsx:33-43 | the fields change as `SelectCategory` says, and the invariant is kept |
| `GameEngine.Game.EditNameInput` | src/components/PlayerSetup.jsx:19-23 | the fields change as `EditNameInput` says, and the invariant is kept |
| `GameEngine.Game.SaveNames` | src/Game.jsx:45-56 | the fields and the flag are as `SaveNames` says, and the invariant is kept |
| `GameEngine.Game.ActiveView` | src/Game.jsx:148 | the view test on the fields agrees with `ShowsActiveView` |
| `GameEngine.Game.CellClick` | src/Game.jsx:58-133 | the fields and the outcome are as `Click` says, and the invariant is kept |
| `GameEngine.Game.Commit` | src/Game.jsx:65-99 | working on copies of the board, queues and records, it writes back exactly the commit when the target is not the vanishing cell, and nothing when it is |
| `GameEngine.Game.CheckWinner` | src/Game.jsx:101-132 | after the loop over the lines, a win updates the mover's score, the winner and the line; no win advances the turn by one |
| `GameEngine.Game.Reset` | src/Game.jsx:135-142 | the fields change as `ResetGame` says (a fresh empty board), and the invariant is kept |

## Left out

- Rendering: the JSX, the MUI snackbar and alert, motion, the theme, the help modal and the
  `showHelp` flag. These are presentation only.
- Notification texts and `handleCloseNotification`. A click's notification appears only as
  its `Outcome`, whose severity `GameModel.Notice` gives. The success notification that
  selecting a category always raises (`src/Game.jsx:38-42`) is left out. The only setup
  notification the model keeps is Start Game's error, as `saved == false`. A successful Start
  Game raises no notification: it opens the help modal instead (`src/Game.jsx:48`), and that is
  left out with `showHelp`.
- The floating-point draw `Math.floor(Math.random() * len)`: it is replaced by the injected
  index `pick`.
- The concrete emoji strings: symbols are abstract, and each stands for a non-empty, truthy
  string.
- React's batching of state setters. Also the aliasing of `push` on the previous state's inner
  array when nothing vanished: it has no effect on the rules, because only the new state is
  used.
- Number width: turn and scores are unbounded naturals. JavaScript numbers lose precision only
  beyond 2^53 moves.
- Calls with a cell index outside 0..8, or with a category that is not in the table: the nine
  board buttons and the category buttons never make them, so the methods do not accept them.
- Calls that the views make impossible: Start Game or typing a name while the game view shows.
  The model allows them and keeps the invariant. `GameLemmas.ActiveViewStable` covers only what
  the game view offers.
- `GameEngine.Game.CellClick` is proved through two helper methods, `Commit` (lines 65-99) and
  `CheckWinner` (lines 101-132). The helpers keep the proofs small; the steps run in the
  source's order.
- Undo/redo history and draw detection: `src/Game.jsx` has neither, so the model has neither.
- The turn label in `ScoreBoard` (`names[turn % 2]`): it only displays the `turn % 2` rule.
