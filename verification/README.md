# Stonehenge and its game-tree strategies, in Dafny

This project models the algorithmic core of the "SubtractSquare-and-Stonehenge"
repository: the two-player board game Stonehenge and the move-selection
strategies that search its game tree.

- **Positions** (`StonehengeState`) are a value, `Stonehenge.State`. It holds:
  - whose turn it is;
  - the side length (1 to 5);
  - the board rows, each a string of cell labels `A`..`Y` or owner marks `1`/`2`;
  - one ley-line marker per ley-line, each `@`, `1` or `2`. There are
    `3 * (side + 1)` of them: the rows first, then the right diagonals, then
    the left diagonals.
- **Moves** (`make_move`) build a new position:
  - the chosen cell takes the mover's mark and the turn passes;
  - each ley-line marker is recomputed by the capture rule;
  - a captured ley-line stays captured;
  - an uncaptured one goes to player 1 when that player owns at least half of
    its cells, else to player 2 under the same test.

  The game is over once either player holds at least half of the markers, or
  no cell is left.
- **Looping code.** The methods of the source that work with loops and
  counters are Dafny methods in module `StateMethods` and class
  `Game.StonehengeGame`:
  - `get_possible_moves`, `make_move`, `help_complete_ley_mark`,
    `help_add_ley_mark` and `state_over`;
  - `is_over` and `is_winner`.

  Each is proved to compute a function of module `Stonehenge` or `Game`.
- **The game object.** `StonehengeGame` is a class with one mutable field,
  the current position. The recursive strategy overwrites and restores that
  field around its winner queries.
- **Strategies** (module `Strategy`):
  - `Strategy.Value` is the negamax value of a position.
  - `Strategy.BestMove` is the first move that attains it.
  - The recursive minimax (`help_recu_min`, `recursive_minimax_strategy`) and
    the iterative one are both proved to return `BestMove`. The iterative one
    works over an explicit stack of `Equip` nodes whose `score` and `children`
    fields it updates in place. So the two always pick the same move.
  - For the iterative search, the loop invariant says two things. Every node
    off the stack holds the negamax value of its position. Every expanded node
    lies below its children on the stack.
  - A stack weight (`Strategy.Weight`) counts the pops still to come and
    proves that the loop terminates.
  - `rough_outcome_strategy` is proved to return the first move whose negated
    two-ply estimate is largest.
- **The two-ply estimate.** `rough_outcome` returns DRAW when some move
  leaves the opponent no move that reaches the threshold, and LOSE when every
  move does (stonehenge.py:406-416). The note at strategy.py:33-34 gives the
  same LOSE rule (`StonehengeProps.RoughOutcomeDraw`,
  `StonehengeProps.RoughOutcomeLose`).

## Model

| member | source | states |
|---|---|---|
| Lists.CountIsMultiplicity | stonehenge.py:382-388 | the running `p1`/`p2` counters equal the number of occurrences of the mark, are at most the length, and are zero exactly when the mark is absent |
| Lists.Max | strategy.py:68 | Python's `max` returns an element of the list that no element exceeds |
| Lists.IndexOf | strategy.py:69 | `list.index(v)` returns a position holding `v` with no earlier position holding it |
| Lists.FirstMaxIndex | strategy.py:68-69 | `index(max(xs))` is a position of a largest element, and every earlier element is strictly smaller |
| Lists.FirstMaxUnique | strategy.py:53-55 | a position whose element is largest and strictly beats every earlier one is exactly `index(max(xs))`, which is what keeping only strict improvements yields |
| Lists.FirstMaxStep | strategy.py:53-55 | replacing the best on a strict improvement, and keeping it otherwise, keeps the best as the first largest element of the prefix seen so far |
| Lists.AnyIff | stonehenge.py:404-414 | Python's `any` over a list of booleans holds exactly when some element is true |
| Stonehenge.MarkOf | stonehenge.py:280-285 | the mark written by a move is an owner mark, and it is `1` exactly on player 1's turn |
| Stonehenge.Layout | stonehenge.py:106-116 | the fixed cell tables for sides 1 to 5 have rows of 2, 3, 4, ... cells, with a last row of `side` cells |
| StonehengeProps.LayoutLabels | stonehenge.py:106-116 | every cell of a fresh board is labelled by a letter from `A` to `Y` |
| Stonehenge.Init | stonehenge.py:93-117 | a new position is well-formed, keeps the given turn and side, and has `3 * (side + 1)` markers, all `@` |
| Stonehenge.CurrentPlayer | stonehenge.py:251-262 | the current player's name is `p1` exactly on player 1's turn, else `p2` |
| Stonehenge.ThresholdReached | stonehenge.py:382-390 | `state_over` holds when either player owns at least half of the markers; `StonehengeProps.ThresholdByMultiplicity` states it by the number of `1` and `2` markers and shows that a reached threshold needs an owned marker |
| StonehengeProps.ThresholdByMultiplicity | stonehenge.py:382-390 | the threshold is reached exactly when twice the number of `1` markers, or of `2` markers, is at least the number of markers; on a non-empty vector this needs at least one owned marker |
| Stonehenge.Moves | stonehenge.py:242-249 | `get_possible_moves` gives nothing once the threshold is reached, else the unclaimed cells; `StonehengeProps.MovesIff` states exactly which characters it contains |
| Stonehenge.IsValidMove | stonehenge.py:354-362 | a move is valid exactly when it is among the possible moves; `StonehengeProps.MovesIff` characterises those |
| Stonehenge.Capture | stonehenge.py:342-351 | the capture rule of one ley-line; `StonehengeProps.CaptureRule` states its cases |
| StonehengeProps.CaptureRule | stonehenge.py:342-351 | an owned marker is kept; the result is always `@`, `1` or `2`; an unowned line goes to player 1 exactly when it owns at least half of the stripped cells, and to player 2 exactly when player 1 does not and player 2 does |
| Stonehenge.LeftPaddedIsSquare | stonehenge.py:311-319 | after left-padding, every row has `side + 1` characters, so each column index read by the loop is in range |
| StonehengeProps.FamilyMarksKeepsCaptures | stonehenge.py:324-352 | in every family, a marker already owned by a player is kept as it was, and every new marker is `@`, `1` or `2` |
| Stonehenge.LeyMarks | stonehenge.py:290-322 | `help_complete_ley_mark` yields `3 * (side + 1)` markers |
| Stonehenge.LeyMarksCapture | stonehenge.py:290-352 | new marker `i` is the capture rule applied to old marker `i` and ley-line `i`, where the ley-lines are the rows, then the stripped right columns, then the stripped left columns |
| Stonehenge.LeyMarksAreMarkers | stonehenge.py:342-351 | every recomputed marker is `@`, `1` or `2` |
| StonehengeProps.DiagonalsNonEmpty | stonehenge.py:301-320 | on a board of cell labels, every right and every left diagonal keeps at least one cell after stripping |
| StonehengeProps.LeyLinesHaveCells | stonehenge.py:290-322 | a position has one ley-line per marker, and no ley-line is empty after stripping, so the capture threshold `2 * p >= len` is never met by an empty line |
| StonehengeProps.CaptureNeedsCell | stonehenge.py:342-351 | a marker that a move newly captures belongs to a line holding the owner's mark, so a line is never captured without a cell in it |
| Stonehenge.Next | stonehenge.py:264-288 | a move on a well-formed position gives a well-formed position with strictly fewer unclaimed cells |
| Stonehenge.RoughOutcome | stonehenge.py:392-416 | the estimate is always one of LOSE, DRAW, WIN |
| StonehengeProps.FreeInIff | stonehenge.py:246-248 | a row offers `c` exactly when `c` occurs in it and is not an owner mark |
| StonehengeProps.FreeCellsIff | stonehenge.py:245-248 | a board offers `c` exactly when some row shows `c` and `c` is not an owner mark |
| StonehengeProps.MovesIff | stonehenge.py:234-249 | `c` is a possible move exactly when the threshold is not reached and `c` labels an unclaimed cell of some row |
| StonehengeProps.NextClaims | stonehenge.py:264-288 | `make_move` flips the turn, changes the current player, and keeps the side, the number of rows and every row length. Each cell equal to the move takes the mover's mark, every other cell is unchanged, and the move is no longer possible |
| StonehengeProps.NextKeepsOtherMoves | stonehenge.py:242-249 | a move removes no other possible move unless it makes the threshold reached |
| StonehengeProps.CapturePermanent | stonehenge.py:342-345 | a ley-line marker that is `1` or `2` is copied unchanged into the next position |
| StonehengeProps.AnyChildOverIff | stonehenge.py:403-404 | some position one move away has reached the threshold exactly when some possible move reaches it |
| StonehengeProps.RoughOutcomeWin | stonehenge.py:401-405 | the estimate is WIN exactly when the threshold is not reached and some move reaches it |
| StonehengeProps.RoughOutcomeDraw | stonehenge.py:406-415 | the estimate is DRAW exactly when the threshold is not reached, no move reaches it, and some move leaves the opponent no move that reaches it |
| StonehengeProps.RoughOutcomeLose | stonehenge.py:401-416 | the estimate is LOSE exactly when the threshold is reached, or no move reaches it and every move lets the opponent reach it |
| StonehengeProps.SideOneStart | stonehenge.py:98-103 | the side-1 position has rows `AB`, `C` and six `@` markers, and is not over |
| StonehengeProps.SideOneMoves | stonehenge.py:238-240 | the side-1 position offers the moves `A`, `B`, `C` |
| StonehengeProps.SideOneBoardAfterA | stonehenge.py:269-272 | claiming `A` for player 1 on the side-1 board gives rows `1B`, `C` |
| StonehengeProps.SideOneRightAfterA | stonehenge.py:301-309 | the right ley-lines of rows `1B`, `C` are `1` and `BC` |
| StonehengeProps.SideOneLeftAfterA | stonehenge.py:311-320 | the left ley-lines of rows `1B`, `C` are `1C` and `B` |
| StonehengeProps.SideOneCapturesAfterA | stonehenge.py:346-351 | on those six ley-lines, an uncaptured marker becomes `1` on `1B`, `1`, `1C` and stays `@` on `C`, `BC`, `B` |
| StonehengeProps.SideOneFamiliesAfterA | stonehenge.py:328-331 | each family's new markers after claiming `A` are `1@` |
| StonehengeProps.SideOneMarksAfterA | stonehenge.py:294-297 | the full new marker vector after claiming `A` is `1@1@1@` |
| StonehengeProps.SideOneClaimA | stonehenge.py:377-380 | `A` is a valid first move, and after it the rows are `1B`, `C`, the markers `1@1@1@`, and the game is over by the threshold |
| StonehengeProps.SideOneRoughOutcome | stonehenge.py:397-399 | the estimate for the first side-1 position is WIN |
| StateMethods.StateOver | stonehenge.py:373-390 | the counting loop decides exactly whether either player holds at least half of the markers |
| StateMethods.GetPossibleMoves | stonehenge.py:234-249 | the nested loop returns nothing once the threshold is reached, else the unclaimed cells in row-then-position order |
| StateMethods.HelpAddLeyMark | stonehenge.py:324-352 | the per-line counting loop yields the family's markers by the capture rule |
| StateMethods.HelpCompleteLeyMark | stonehenge.py:290-322 | rows, right diagonals and left diagonals marked in turn give the full new marker vector |
| StateMethods.RightLeyLines | stonehenge.py:301-309 | padding a copy of the last row with one space, reading columns 0 .. side and stripping them gives the right family; the caller's board is untouched |
| StateMethods.PadLeft | stonehenge.py:311-314 | row `b` of the copy is indented by `side - 1 - b` spaces and the last row gets a trailing space |
| StateMethods.LeftLeyLines | stonehenge.py:315-320 | the stripped columns 0 .. side of the left-padded copy are the left family |
| StateMethods.ClaimBoard | stonehenge.py:277-286 | the character loop replaces every occurrence of the move by the mover's mark and copies the rest |
| StateMethods.MakeMove | stonehenge.py:264-288 | `make_move` returns exactly the next position, and `self` is a value that is left unchanged |
| Game.OverIffNoMoves | stonehenge.py:34-47 | the game is over exactly when there is no possible move |
| Game.GameOver | stonehenge.py:45-47 | `is_over` holds when the threshold is reached or no move is left; `Game.OverIffNoMoves` shows this is the same as having no possible move |
| Game.Wins | stonehenge.py:62-64 | `is_winner(p)`: player 1 when it holds half of the markers, else player 2, and only in a finished game; `Game.ExactlyOneWinner` shows a finished game has exactly one winner |
| Game.ExactlyOneWinner | stonehenge.py:49-64 | in a finished game exactly one of the two players is the winner; in an unfinished one neither is |
| Game.StonehengeGame.constructor | stonehenge.py:14-23 | a new game holds the initial position of the accepted side length |
| Game.StonehengeGame.IsOver | stonehenge.py:34-47 | the counting loop plus the move query decide exactly whether the game is over |
| Game.StonehengeGame.IsWinner | stonehenge.py:49-64 | the counting loop decides exactly whether the player is the winner of the current position |
| Strategy.TerminalValue | strategy.py:78-87 | on a finished game the score is WIN exactly when the player to move is the winner, and LOSE exactly when it is not, so DRAW never occurs |
| Strategy.Value | strategy.py:73-90 | the negamax value is always WIN or LOSE |
| Strategy.Scores | strategy.py:89-90 | there is one negated child value per possible move, each WIN or LOSE |
| Strategy.BestMove | strategy.py:66-70 | the first move whose negated child value is largest; `Strategy.BestMoveIsOptimal` shows it is possible, attains the value, and that every earlier move scores less |
| Strategy.BestMoveIsOptimal | strategy.py:61-70 | the chosen move is possible and attains the value, no move scores above the value, and every earlier move scores strictly below it |
| Strategy.WinIffWinningMove | strategy.py:88-90 | the player to move wins exactly when some move leaves the opponent a lost position |
| Strategy.RoughScores | strategy.py:47-52 | there is one negated estimate per possible move, each between LOSE and WIN |
| Strategy.RoughChoice | strategy.py:43-58 | the greedy choice is None exactly when there is no possible move, and otherwise one of the possible moves |
| Strategy.RoughChoiceIsBest | strategy.py:43-58 | the greedy choice leaves the opponent an estimate no higher than any other move does. When some move reaches the threshold, a move is chosen and it leaves the opponent the estimate LOSE |
| Strategy.GuessScore | strategy.py:48-52 | making move `i` and negating the estimate gives score `i` of the greedy choice |
| Strategy.RoughOutcomeStrategy | strategy.py:42-58 | the loop keeping only strict improvements over -2 returns the greedy choice: None without moves, else the first move of largest negated estimate |
| Strategy.HelpRecuMin | strategy.py:73-90 | `help_recu_min` returns the negamax value, and the game's current position is restored on every path |
| Strategy.FinishedValue | strategy.py:78-87 | on a finished position the winner queries give the negamax value, and the game's current position is restored |
| Strategy.NegatedValues | strategy.py:89-90 | the comprehension `[help_recu_min(game, s) * -1 for s in ...]` gives one negated value per position, in order, and leaves the current position as it was |
| Strategy.ScoresOfChildren | strategy.py:89-90 | the negated values of the positions one move away, in move order, are the position's move scores |
| Strategy.Children | strategy.py:89 | there is one next position per possible move, in move order, each well-formed with fewer unclaimed cells |
| Strategy.RecursiveMinimaxStrategy | strategy.py:61-70 | the strategy returns the first move of largest negated child value, and leaves the current position as it was |
| Strategy.Equip.constructor | strategy.py:101-108 | a node holds the given position, score and its own copy of the children |
| Strategy.PopDistinct | strategy.py:119 | the popped node occurs nowhere else on a stack of distinct nodes |
| Strategy.ChildrenScored | strategy.py:120-121 | a popped node with children has one child per move, and each child is already scored with its value |
| Strategy.PopScored | strategy.py:119-132 | popping a finished or expanded node and giving it its value keeps the search invariant |
| Strategy.ExpandKeepsInv | strategy.py:133-139 | pushing a node back under its fresh children keeps the search invariant |
| Strategy.NegatedScores | strategy.py:121 | the list `[s.score * -1 for s in children]` has one entry per child, the negated stored score of that child |
| Strategy.ScoresOfChildNodes | strategy.py:140-141 | the negated scores of the children of an expanded node, once each holds its value, are the node's move scores |
| Strategy.ScoreExpanded | strategy.py:120-121 | a node whose children hold their values takes the value of its own position, and the field mirror follows the update |
| Strategy.ScoreFromChildren | strategy.py:120-121 | a node with scored children takes the value of its position and keeps its children |
| Strategy.ScoreFinished | strategy.py:122-132 | a finished node takes the value of its position, and the game's current position is restored |
| Strategy.Expand | strategy.py:133-139 | expansion pushes the node back, then one fresh unscored node per move both into its children and onto the stack |
| Strategy.Attach | strategy.py:136-139 | the node goes back on the stack followed by its new children, which become its children list; its score and the new nodes are untouched |
| Strategy.NewNodes | strategy.py:134-135 | the comprehension makes distinct fresh nodes, one per position, without score or children |
| Strategy.PopExpanded | strategy.py:119-121 | popping and scoring an expanded node keeps the invariant and the field mirror |
| Strategy.PopFinished | strategy.py:119-132 | popping and scoring a finished node keeps the invariant and the field mirror, and restores the current position |
| Strategy.ExpandStep | strategy.py:133-139 | expanding keeps the invariant, only adds fresh nodes, and lowers the stack weight |
| Strategy.ExpandKidsOk | strategy.py:133-139 | after expansion every expanded node, including the new one, has one child node per move |
| Strategy.KidsWeight | strategy.py:134-139 | the fresh children of an expanded node weigh exactly the pops still needed below it, so expansion lowers the stack weight |
| Strategy.LeafStep | strategy.py:122-139 | handling a node without children, by scoring a finished one or expanding an unfinished one, keeps the invariant, only adds fresh nodes, lowers the stack weight and keeps the current position |
| Strategy.SearchStep | strategy.py:119-139 | one turn of the loop keeps the invariant, only adds fresh nodes, lowers the stack weight and keeps the current position |
| Strategy.Search | strategy.py:115-139 | the loop ends with every node scored with its value and the current position as on entry |
| Strategy.RootChildren | strategy.py:140-141 | after the loop the root is expanded, and its children, one per move, hold their values |
| Strategy.IterativeMinimaxStrategy | strategy.py:111-142 | the iterative strategy returns the same move as the recursive one, the first move of largest negated child value, and leaves the current position as it was |

## Left out

- Reading the side length with `input()` in `StonehengeGame.__init__`: the
  constructor takes it as a parameter, with the loop's guard `0 < side < 6`
  as its precondition.
- Board rendering (`__str__`, `__repr__`), `get_instructions`,
  `str_to_move` and `interactive_strategy`: presentation and console input,
  with no bearing on the rules or the search.
- The lint entry points (`python_ta.check_all`) at the end of both files.
- The `Game` and `GameState` base classes: game.py and game_state.py are not
  part of this model. The search is stated for Stonehenge directly rather
  than for any finite game with a decreasing measure.
- `make_move` does not check its argument. The model requires the move to be
  a possible move; an invalid move is not modelled.
- `recursive_minimax_strategy` and `iterative_minimax_strategy` fail on a
  finished position, where `max` meets an empty list. They require an
  unfinished position instead of modelling the exception.
- Player names `'p1'`/`'p2'` are the datatype `Player`. An argument other
  than those two names is not modelled.
- `str.strip` is modelled for the space, tab, newline and carriage return
  characters, the only whitespace that can reach it here.
- Strategy.Equip.constructor: the node keeps its own children because a Dafny
  sequence is a value. The source's `children.copy()` and the aliasing it
  prevents are not modelled as shared lists.
- The ghost node set and maps of `Strategy.Search` mirror the `children` and
  `score` fields. They are proof state and are not part of the source.
- The annotated `float` return type of `rough_outcome`: it only returns the
  integers -1, 0 and 1.
- Running the search on real boards: exhaustive search is stated and proved,
  never executed.
