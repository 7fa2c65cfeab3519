/** Properties of the rules engine: the reachable-state invariant and what each transition does. */
module GameLemmas {
  import opened Rules
  import opened GameModel

  // ---- Queues and the board under a committed move ----

  /** A committed move on one player's queue `q` keeps both queues well formed, disjoint and
      covering the board, given that the target is empty and is not the cell about to vanish. */
  lemma CommitKeepsQueues(board: seq<Cell>, q: seq<Pos>, cs: seq<Symbol>,
                          o: seq<Pos>, ocs: seq<Symbol>, index: Pos, sym: Symbol,
                          board': seq<Cell>, nq: seq<Pos>, ncs: seq<Symbol>)
    requires |board| == Size
    requires QueueOk(board, q, cs) && QueueOk(board, o, ocs)
    requires Disjoint(q, o) && Covered(board, q, o)
    requires board[index].None?
    requires !(|q| == Capacity && q[0] == index)
    requires board' == (if |q| == Capacity then board[q[0] := None] else board)[index := Some(sym)]
    requires nq == (if |q| == Capacity then q[1..] else q) + [index]
    requires ncs == (if |q| == Capacity then cs[1..] else cs) + [sym]
    ensures |board'| == Size
    ensures QueueOk(board', nq, ncs) && QueueOk(board', o, ocs)
    ensures Disjoint(nq, o) && Disjoint(o, nq)
    ensures Covered(board', nq, o) && Covered(board', o, nq)
  {
    // The target is in neither queue (both queues only name occupied cells), and every
    // surviving entry keeps its cell and symbol, shifted by one when the oldest left.
  }

  /** Committing a move from a reachable state, past the guard and not onto the vanishing cell,
      reaches a state that again satisfies the invariant. */
  lemma PlaceKeepsInv(g: GameState, index: Pos, sym: Symbol)
    requires Inv(g) && Accepts(g, index)
    requires !(MoverFull(g) && g.positions[Mover(g)][0] == index)
    ensures Inv(Place(g, index, sym))
  {
    var p := Mover(g);
    var r := Place(g, index, sym);
    CommitKeepsQueues(g.board, g.positions[p], g.chosen[p], g.positions[1 - p], g.chosen[1 - p],
                      index, sym, r.board, r.positions[p], r.chosen[p]);
    assert r.positions[1 - p] == g.positions[1 - p] && r.chosen[1 - p] == g.chosen[1 - p];
  }

  /** Every click from a reachable state reaches a state satisfying the invariant. */
  lemma ClickKeepsInv(g: GameState, index: Pos, pick: nat)
    requires Inv(g) && DrawInRange(g, index, pick)
    ensures Inv(Click(g, index, pick).0)
  {
    if Accepts(g, index) && !(MoverFull(g) && g.positions[Mover(g)][0] == index) {
      var p := Mover(g);
      var placed := Place(g, index, Pool(g)[pick]);
      PlaceKeepsInv(g, index, Pool(g)[pick]);
      if FirstWin(placed.board, placed.positions[p]).Some? {
        FirstWinInQueue(placed.board, placed.positions[p]);
      }
    }
  }

  /** How the result of a committed click is put together from the commit and the win check:
      the step the class takes in two parts. */
  lemma ClickCommitted(g: GameState, index: Pos, pick: nat, r: GameState, won: bool)
    requires WellFormed(g) && Accepts(g, index) && pick < |Pool(g)|
    requires !(MoverFull(g) && g.positions[Mover(g)][0] == index)
    requires var p := Mover(g);
      var placed := Place(g, index, Pool(g)[pick]);
      match FirstWin(placed.board, placed.positions[p])
      case Some(l) =>
        && won && r == placed.(scores := g.scores[p := g.scores[p] + 1],
                               winner := Some(g.names[p]), winningLine := Some(l))
      case None => !won && r == placed.(turn := g.turn + 1)
    ensures won ==> r.winningLine.Some?
    ensures Click(g, index, pick) ==
            (r, if won then Won(r.winningLine.value, MoverFull(g)) else Placed(MoverFull(g)))
  {
  }

  // ---- Setup, reset and the start state ----

  /** The start state satisfies the invariant and shows the setup view. */
  lemma InitialInv()
    ensures Inv(Initial()) && !ShowsActiveView(Initial())
  {
  }

  /** Selecting a category changes only that player's category and keeps the invariant. */
  lemma SelectCategoryEffect(g: GameState, p: Player, c: string)
    requires Inv(g) && c in EmojiCategories
    ensures var r := SelectCategory(g, p, c);
      && r.categories[p] == Some(c) && r.categories[1 - p] == g.categories[1 - p]
      && r == g.(categories := r.categories)
      && Inv(r)
  {
  }

  /** Editing a name input changes only that input and keeps the invariant. */
  lemma EditNameInputEffect(g: GameState, p: Player, s: string)
    requires Inv(g)
    ensures var r := EditNameInput(g, p, s);
      && r.nameInputs[p] == s && r.nameInputs[1 - p] == g.nameInputs[1 - p]
      && r == g.(nameInputs := r.nameInputs)
      && Inv(r)
  {
  }

  /** Start Game copies the name inputs into the names exactly when both categories and both
      inputs are set; otherwise nothing changes. The invariant is kept either way. */
  lemma SaveNamesEffect(g: GameState)
    requires Inv(g)
    ensures SaveNames(g).1 <==> BothChosen(g.categories) && AllFilled(g.nameInputs)
    ensures SaveNames(g).1 ==> SaveNames(g).0 == g.(names := g.nameInputs)
    ensures !SaveNames(g).1 ==> SaveNames(g).0 == g
    ensures Inv(SaveNames(g).0)
  {
  }

  /** A successful Start Game opens the game view unless the first name saved is the initial
      placeholder "Player 1", in which case the setup view stays. */
  lemma SaveNamesOpensGame(g: GameState)
    requires Inv(g)
    ensures ShowsActiveView(SaveNames(g).0) <==>
            SaveNames(g).1 && g.nameInputs[0] != "Player 1"
  {
  }

  /** The active view is never left again by what that view offers: clicking, Play Again, and
      (for completeness) selecting a category. */
  lemma ActiveViewStable(g: GameState, index: Pos, pick: nat, p: Player, c: string)
    requires Inv(g) && ShowsActiveView(g) && DrawInRange(g, index, pick) && c in EmojiCategories
    ensures ShowsActiveView(Click(g, index, pick).0)
    ensures ShowsActiveView(ResetGame(g))
    ensures ShowsActiveView(SelectCategory(g, p, c))
  {
  }

  /** Play Again empties the board, both queues and both symbol records, clears the winner and
      the line and sets the turn to 0, keeps names, inputs, categories and scores, keeps the
      invariant, and doing it twice is doing it once. */
  lemma ResetEffect(g: GameState)
    requires Inv(g)
    ensures var r := ResetGame(g);
      && (forall i :: 0 <= i < Size ==> r.board[i].None?) && |r.board| == Size
      && r.positions == [[], []] && r.chosen == [[], []]
      && r.winner.None? && r.winningLine.None? && r.turn == 0
      && r.scores == g.scores && r.names == g.names && r.nameInputs == g.nameInputs
      && r.categories == g.categories
      && Inv(r)
      && ResetGame(r) == r
  {
  }

  // ---- Occupancy ----

  /** The set of occupied cells. */
  function Occupied(board: seq<Cell>): set<Pos>
    requires |board| == Size
  {
    set i: Pos | board[i].Some?
  }

  function Elems(q: seq<Pos>): set<Pos> {
    set x | x in q
  }

  lemma {:induction false} DistinctCard(q: seq<Pos>)
    requires Distinct(q)
    ensures |Elems(q)| == |q|
  {
    if q != [] {
      DistinctCard(q[1..]);
      assert Elems(q) == {q[0]} + Elems(q[1..]);
      assert q[0] !in Elems(q[1..]);
    }
  }

  /** All nine cells, in order. */
  const AllCells: seq<Pos> := [0, 1, 2, 3, 4, 5, 6, 7, 8]

  /** A cell is occupied exactly when it is in exactly one queue. */
  lemma OccupiedIffQueued(g: GameState, i: Pos)
    requires Inv(g)
    ensures g.board[i].Some? <==> (i in g.positions[0] || i in g.positions[1])
    ensures !(i in g.positions[0] && i in g.positions[1])
  {
    // A queued cell holds its recorded symbol, and the queues cover every occupied cell.
  }

  /** The number of occupied cells is the sum of the two queue lengths, at most six. */
  lemma OccupiedCount(g: GameState)
    requires Inv(g)
    ensures |Occupied(g.board)| == |g.positions[0]| + |g.positions[1]| <= 2 * Capacity
  {
    var q0, q1 := g.positions[0], g.positions[1];
    forall i: Pos ensures i in Occupied(g.board) <==> i in Elems(q0) + Elems(q1) {
      OccupiedIffQueued(g, i);
    }
    assert Occupied(g.board) == Elems(q0) + Elems(q1);
    assert Elems(q0) * Elems(q1) == {};
    DistinctCard(q0);
    DistinctCard(q1);
  }

  /** The board of a reachable state is never full, so a full-board draw cannot happen. */
  lemma BoardNeverFull(g: GameState)
    requires Inv(g)
    ensures exists i :: 0 <= i < Size && g.board[i].None?
  {
    OccupiedCount(g);
    if forall i :: 0 <= i < Size ==> g.board[i].Some? {
      forall i: Pos ensures i in Occupied(g.board) <==> i in Elems(AllCells) {
        assert AllCells[i] == i;
      }
      assert Occupied(g.board) == Elems(AllCells);
      DistinctCard(AllCells);
      assert false;
    }
  }

  // ---- Clicks ----

  /** A click is ignored exactly when the target is occupied, a winner is set or a category is
      missing, and an ignored click changes nothing at all. */
  lemma IgnoredIff(g: GameState, index: Pos, pick: nat)
    requires WellFormed(g) && DrawInRange(g, index, pick)
    ensures Click(g, index, pick).1 == Ignored <==>
            g.board[index].Some? || g.winner.Some? || !BothChosen(g.categories)
    ensures Click(g, index, pick).1 == Ignored ==> Click(g, index, pick).0 == g
  {
  }

  /** The conflict is reported exactly when the click passes the guard, the mover is full and
      the target is the mover's oldest cell; nothing at all changes then. */
  lemma ConflictIff(g: GameState, index: Pos, pick: nat)
    requires WellFormed(g) && DrawInRange(g, index, pick)
    ensures Click(g, index, pick).1 == Conflict <==>
            Accepts(g, index) && MoverFull(g) && g.positions[Mover(g)][0] == index
    ensures Click(g, index, pick).1 == Conflict ==> Click(g, index, pick).0 == g
  {
  }

  /** In a reachable state the conflict branch is dead: the mover's oldest cell is occupied,
      so the guard has already rejected a click on it. */
  lemma ConflictUnreachable(g: GameState, index: Pos, pick: nat)
    requires Inv(g) && DrawInRange(g, index, pick)
    ensures Click(g, index, pick).1 != Conflict
  {
    // The mover's oldest cell holds its symbol, so the guard already rejects a click on it.
  }

  /** The conflict branch is not dead in states that break the invariant: a full queue whose
      oldest cell is empty on the board. */
  lemma ConflictNeedsBrokenInv()
    ensures var g := Initial().(categories := [Some("Food"), Some("Animals")],
                                positions := [[4, 5, 6], []],
                                chosen := [[Emoji("Food", 0), Emoji("Food", 1), Emoji("Food", 2)], []]);
      WellFormed(g) && !Inv(g) && Click(g, 4, 0).1 == Conflict
  {
    var g := Initial().(categories := [Some("Food"), Some("Animals")],
                        positions := [[4, 5, 6], []],
                        chosen := [[Emoji("Food", 0), Emoji("Food", 1), Emoji("Food", 2)], []]);
    assert g.board[g.positions[0][0]] != Some(g.chosen[0][0]);
  }

  /** The effect of a committed click on the board and the queues: the mover, `turn % 2`, drops
      its oldest entry (clearing that cell) when it holds three, then the drawn symbol goes into
      the target and onto the end of its queue and record; the other player's queue and record
      and every other cell stay as they were, and so does the setup. */
  lemma CommitEffect(g: GameState, index: Pos, pick: nat)
    requires Inv(g) && DrawInRange(g, index, pick)
    requires Click(g, index, pick).1 != Ignored
    ensures var p := Mover(g);
      var q := g.positions[p];
      var r := Click(g, index, pick).0;
      var full := |q| == Capacity;
      var sym := Pool(g)[pick];
      && p == g.turn % 2
      && r.board[index] == Some(sym)
      && (full ==> r.board[q[0]].None? && r.positions[p] == q[1..] + [index]
                   && r.chosen[p] == g.chosen[p][1..] + [sym])
      && (!full ==> r.positions[p] == q + [index] && r.chosen[p] == g.chosen[p] + [sym])
      && r.positions[1 - p] == g.positions[1 - p] && r.chosen[1 - p] == g.chosen[1 - p]
      && (forall i :: 0 <= i < Size && i != index && !(full && i == q[0]) ==> r.board[i] == g.board[i])
      && r.names == g.names && r.nameInputs == g.nameInputs && r.categories == g.categories
  {
    // The conflict branch is dead under the invariant, so the click commits `Place`.
  }

  /** The vanishing rule on a full queue `[a, b, c]` and an empty target `d`: afterwards cell
      `a` is empty, `d` holds the drawn symbol and the queue is `[b, c, d]`. */
  lemma VanishThenPlace(g: GameState, d: Pos, pick: nat, a: Pos, b: Pos, c: Pos)
    requires Inv(g) && g.positions[Mover(g)] == [a, b, c]
    requires g.board[d].None? && g.winner.None? && BothChosen(g.categories)
    requires pick < |Pool(g)|
    ensures var r := Click(g, d, pick);
      && r.0.board[a].None? && r.0.board[d] == Some(Pool(g)[pick])
      && r.0.positions[Mover(g)] == [b, c, d]
      && r.1.vanished
      && Notice(r.1) == Some(if r.1.Won? then Success else Info)
  {
    // A full queue evicts its first entry; `d` is not `a`, since `d` is empty and `a` is not.
  }

  /** Below capacity nothing vanishes: the target is simply appended to the mover's queue. */
  lemma NoVanishBelowCapacity(g: GameState, index: Pos, pick: nat)
    requires Inv(g) && Accepts(g, index) && pick < |Pool(g)|
    requires |g.positions[Mover(g)]| < Capacity
    ensures var r := Click(g, index, pick);
      && r.0.positions[Mover(g)] == g.positions[Mover(g)] + [index]
      && !r.1.vanished
      && (forall i :: 0 <= i < Size && i != index ==> r.0.board[i] == g.board[i])
  {
    // Below capacity `Place` neither clears a cell nor drops an entry.
  }

  /** Under the invariant the board test in a line check is implied by queue membership: only
      the mover's queue decides a win. */
  lemma CompletesIsMembership(g: GameState, p: Player, l: Line)
    requires Inv(g)
    ensures Completes(g.board, g.positions[p], l) <==>
            l.a in g.positions[p] && l.b in g.positions[p] && l.c in g.positions[p]
  {
    // A cell in a queue is occupied, which is the board test of `Completes`.
  }

  /** A committed click wins exactly when the win check finds a line in the mover's new queue.
      On a win the reported line is the first complete line in the fixed order, all three of its
      cells are in the mover's queue, the mover's score rises by one, the other score stays, the
      winner is the mover's name, the line is recorded and the turn stays. */
  lemma WinEffect(g: GameState, index: Pos, pick: nat)
    requires WellFormed(g) && DrawInRange(g, index, pick)
    requires Click(g, index, pick).1.Won?
    ensures var p := Mover(g);
      var r := Click(g, index, pick).0;
      var l := Click(g, index, pick).1.line;
      && l.a in r.positions[p] && l.b in r.positions[p] && l.c in r.positions[p]
      && (exists j :: 0 <= j < |Lines| && Lines[j] == l &&
            forall i :: 0 <= i < j ==> !Completes(r.board, r.positions[p], Lines[i]))
      && r.scores[p] == g.scores[p] + 1 && r.scores[1 - p] == g.scores[1 - p]
      && r.winner == Some(g.names[p]) && r.winningLine == Some(l)
      && r.turn == g.turn
  {
    // By `FirstWinIsFirst` and `FirstWinInQueue` on the placed state.
  }

  /** A committed click without a win advances the turn by exactly one, hands the move to the
      other player, leaves the scores and the winner alone, and means no line is complete for
      the mover. */
  lemma PlacedEffect(g: GameState, index: Pos, pick: nat)
    requires WellFormed(g) && DrawInRange(g, index, pick)
    requires Click(g, index, pick).1.Placed?
    ensures var r := Click(g, index, pick).0;
      && r.turn == g.turn + 1 && Mover(r) == 1 - Mover(g)
      && r.scores == g.scores && r.winner == g.winner && r.winningLine == g.winningLine
      && forall i :: 0 <= i < |Lines| ==> !Completes(r.board, r.positions[Mover(g)], Lines[i])
  {
    // By `FirstWinIsFirst`: no line is reported exactly when none is complete.
  }

  /** After a win every further click is ignored until the game is reset. */
  lemma FrozenAfterWin(g: GameState, index: Pos, pick: nat, index': Pos, pick': nat)
    requires Inv(g) && DrawInRange(g, index, pick)
    requires Click(g, index, pick).1.Won?
    ensures var r := Click(g, index, pick).0;
      Click(r, index', pick') == (r, Ignored)
  {
  }

  // ---- A played game ----

  /** The state after setup: categories Animals and Food, names "Ann" and "Bob", saved. */
  function SetUp(): (g: GameState)
    ensures Inv(g) && ShowsActiveView(g)
    ensures g == Initial().(names := ["Ann", "Bob"], nameInputs := ["Ann", "Bob"],
                            categories := [Some("Animals"), Some("Food")])
  {
    var g := EditNameInput(EditNameInput(
               SelectCategory(SelectCategory(Initial(), 0, "Animals"), 1, "Food"), 0, "Ann"), 1, "Bob");
    SaveNames(g).0
  }

  // A played game: the first player ("Ann") takes 0, 3 and 6 while the second ("Bob") takes 1
  // and 4, each drawing the first symbol of their category. Moves 1 to 4 commit and pass the
  // turn; move 5 completes the left column, the first player scores and the turn stays at 4.
  const Ann: Symbol := Emoji("Animals", 0)
  const Bob: Symbol := Emoji("Food", 0)
  const Move1: GameState := SetUp().(board := EmptyBoard()[0 := Some(Ann)], positions := [[0], []],
                                     chosen := [[Ann], []], turn := 1)
  const Move2: GameState := Move1.(board := Move1.board[1 := Some(Bob)], positions := [[0], [1]],
                                   chosen := [[Ann], [Bob]], turn := 2)
  const Move3: GameState := Move2.(board := Move2.board[3 := Some(Ann)], positions := [[0, 3], [1]],
                                   chosen := [[Ann, Ann], [Bob]], turn := 3)
  const Move4: GameState := Move3.(board := Move3.board[4 := Some(Bob)], positions := [[0, 3], [1, 4]],
                                   chosen := [[Ann, Ann], [Bob, Bob]], turn := 4)
  const Move5: GameState := Move4.(board := Move4.board[6 := Some(Ann)], positions := [[0, 3, 6], [1, 4]],
                                   chosen := [[Ann, Ann, Ann], [Bob, Bob]], scores := [1, 0],
                                   winner := Some("Ann"), winningLine := Some(Line(0, 3, 6)))

  lemma ScenarioMove1() ensures Click(SetUp(), 0, 0) == (Move1, Placed(false)) {
    var placed := Place(SetUp(), 0, Ann);
    assert Mover(SetUp()) == 0 && !MoverFull(SetUp());
    assert placed.positions[0] == [0] && placed.positions[1] == [] && |placed.positions| == 2;
    assert placed.positions == [[0], []];
    assert placed.chosen[0] == [Ann] && placed.chosen[1] == [] && |placed.chosen| == 2;
    assert placed.chosen == [[Ann], []];
    assert placed.board == Move1.board;
    assert placed.(turn := 1) == Move1;
    assert forall i :: 0 <= i < |Lines| ==> !Completes(placed.board, placed.positions[0], Lines[i]);
    FirstWinIsFirst(placed.board, placed.positions[0]);
    assert FirstWin(placed.board, placed.positions[0]) == None;
  }

  lemma ScenarioMove2() ensures Click(Move1, 1, 0) == (Move2, Placed(false)) {
    var placed := Place(Move1, 1, Bob);
    assert Mover(Move1) == 1 && !MoverFull(Move1);
    assert placed.positions[1] == [1] && placed.positions[0] == [0] && |placed.positions| == 2;
    assert placed.positions == [[0], [1]];
    assert placed.chosen[1] == [Bob] && placed.chosen[0] == [Ann] && |placed.chosen| == 2;
    assert placed.chosen == [[Ann], [Bob]];
    assert placed.board == Move2.board;
    assert placed.(turn := 2) == Move2;
    assert forall i :: 0 <= i < |Lines| ==> !Completes(placed.board, placed.positions[1], Lines[i]);
    FirstWinIsFirst(placed.board, placed.positions[1]);
  }

  lemma ScenarioMove3() ensures Click(Move2, 3, 0) == (Move3, Placed(false)) {
    var placed := Place(Move2, 3, Ann);
    assert Mover(Move2) == 0 && !MoverFull(Move2);
    assert placed.positions[0] == [0, 3] && placed.positions[1] == [1] && |placed.positions| == 2;
    assert placed.positions == [[0, 3], [1]];
    assert placed.chosen[0] == [Ann, Ann] && placed.chosen[1] == [Bob] && |placed.chosen| == 2;
    assert placed.chosen == [[Ann, Ann], [Bob]];
    assert placed.board == Move3.board;
    assert placed.(turn := 3) == Move3;
    assert forall i :: 0 <= i < |Lines| ==> !Completes(placed.board, placed.positions[0], Lines[i]);
    FirstWinIsFirst(placed.board, placed.positions[0]);
  }

  lemma ScenarioMove4() ensures Click(Move3, 4, 0) == (Move4, Placed(false)) {
    var placed := Place(Move3, 4, Bob);
    assert Mover(Move3) == 1 && !MoverFull(Move3);
    assert placed.positions[1] == [1, 4] && placed.positions[0] == [0, 3] && |placed.positions| == 2;
    assert placed.positions == [[0, 3], [1, 4]];
    assert placed.chosen[1] == [Bob, Bob] && placed.chosen[0] == [Ann, Ann] && |placed.chosen| == 2;
    assert placed.chosen == [[Ann, Ann], [Bob, Bob]];
    assert placed.board == Move4.board;
    assert placed.(turn := 4) == Move4;
    assert forall i :: 0 <= i < |Lines| ==> !Completes(placed.board, placed.positions[1], Lines[i]);
    FirstWinIsFirst(placed.board, placed.positions[1]);
  }

  lemma ScenarioMove5() ensures Click(Move4, 6, 0) == (Move5, Won(Line(0, 3, 6), false)) {
    var placed := Place(Move4, 6, Ann);
    assert Mover(Move4) == 0 && !MoverFull(Move4);
    assert placed.positions[0] == [0, 3, 6] && placed.positions[1] == [1, 4] && |placed.positions| == 2;
    assert placed.positions == [[0, 3, 6], [1, 4]];
    assert placed.chosen[0] == [Ann, Ann, Ann] && placed.chosen[1] == [Bob, Bob] && |placed.chosen| == 2;
    assert placed.chosen == [[Ann, Ann, Ann], [Bob, Bob]];
    assert placed.board == Move5.board;
    assert !Completes(placed.board, placed.positions[0], Lines[0]);
    assert !Completes(placed.board, placed.positions[0], Lines[1]);
    assert !Completes(placed.board, placed.positions[0], Lines[2]);
    assert Completes(placed.board, placed.positions[0], Lines[3]);
    assert FirstWin(placed.board, placed.positions[0]) == Some(Line(0, 3, 6));
    assert Move4.scores[0 := Move4.scores[0] + 1] == [1, 0] && Move4.names[0] == "Ann";
    assert placed.(scores := [1, 0], winner := Some("Ann"), winningLine := Some(Line(0, 3, 6))) == Move5;
  }
}
