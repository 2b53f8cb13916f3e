/**
 * The strategies: exhaustive negamax, recursive (`help_recu_min`,
 * `recursive_minimax_strategy`) and iterative over an explicit stack of
 * `Equip` nodes (`iterative_minimax_strategy`), and the greedy choice by the
 * two-ply estimate (`rough_outcome_strategy`).
 *
 * Value is the score the player to move can guarantee; both minimax
 * strategies are proved to return BestMove, the first move that attains it.
 */
module Strategy {
  import opened Lists
  import opened Stonehenge
  import opened StateMethods
  import opened Game

  datatype Option<T> = None | Some(value: T)

  // ---------------------------------------------------------------------------
  // Specification of the search

  /**
   * The score of a finished game for the player to move: WIN when that player
   * is the winner, LOSE when the other one is, DRAW when neither is.
   */
  function TerminalValue(s: State): (r: int)
    requires GameOver(s)
    ensures r == WIN <==> Wins(s, CurrentPlayer(s))
    ensures r == LOSE <==> !Wins(s, CurrentPlayer(s))
  {
    ExactlyOneWinner(s);
    if Wins(s, CurrentPlayer(s)) then WIN
    else if Wins(s, P1) || Wins(s, P2) then LOSE
    else DRAW
  }

  /**
   * The negamax value of a position: the terminal score of a finished game,
   * else the best over all moves of the negated value of the resulting
   * position.  A game always ends with a winner, so the value is never DRAW.
   */
  function Value(s: State): (r: int)
    requires WellFormed(s)
    ensures r == WIN || r == LOSE
    decreases NumFree(s), 1
  {
    if GameOver(s) then TerminalValue(s) else Max(Scores(s))
  }

  /** The negated values of the positions the possible moves lead to, in move order. */
  function Scores(s: State): (r: seq<int>)
    requires WellFormed(s)
    ensures |r| == |Moves(s)|
    ensures forall i :: 0 <= i < |r| ==> r[i] == WIN || r[i] == LOSE
    decreases NumFree(s), 0
  {
    seq(|Moves(s)|, i requires 0 <= i < |Moves(s)| => -Value(Next(s, Moves(s)[i])))
  }

  /** Score `i` belongs to move `i`. */
  lemma ScoreOfMove(s: State, i: int)
    requires WellFormed(s) && 0 <= i < |Moves(s)|
    ensures Scores(s)[i] == -Value(Next(s, Moves(s)[i]))
  {
  }

  /** The move both minimax strategies pick: the first one whose negated child value is largest. */
  function BestMove(s: State): char
    requires WellFormed(s) && !GameOver(s)
  {
    Moves(s)[FirstMaxIndex(Scores(s))]
  }

  /**
   * Negamax optimality: no move scores more than the value, BestMove is a
   * possible move that attains it, and every move before BestMove scores less.
   */
  lemma {:induction false} BestMoveIsOptimal(s: State)
    requires WellFormed(s) && !GameOver(s)
    ensures BestMove(s) in Moves(s)
    ensures Value(s) == -Value(Next(s, BestMove(s)))
    ensures forall m :: m in Moves(s) ==> -Value(Next(s, m)) <= Value(s)
    ensures forall j :: 0 <= j < FirstMaxIndex(Scores(s)) ==> -Value(Next(s, Moves(s)[j])) < Value(s)
  {
    var sc := Scores(s);
    var i := FirstMaxIndex(sc);
    assert Value(s) == Max(sc) == sc[i];
    ScoreOfMove(s, i);
    forall m | m in Moves(s) ensures -Value(Next(s, m)) <= Value(s) {
      var j :| 0 <= j < |Moves(s)| && Moves(s)[j] == m;
      ScoreOfMove(s, j);
    }
    forall j | 0 <= j < i ensures -Value(Next(s, Moves(s)[j])) < Value(s) {
      ScoreOfMove(s, j);
    }
  }

  /** The player to move wins exactly when some move leaves the opponent a lost position. */
  lemma {:induction false} WinIffWinningMove(s: State)
    requires WellFormed(s) && !GameOver(s)
    ensures Value(s) == WIN <==> exists m :: m in Moves(s) && Value(Next(s, m)) == LOSE
  {
    var sc := Scores(s);
    if Value(s) == WIN {
      var i := FirstMaxIndex(sc);
      assert sc[i] == -Value(Next(s, Moves(s)[i]));
      assert Moves(s)[i] in Moves(s);
    } else {
      forall m | m in Moves(s) ensures Value(Next(s, m)) != LOSE {
        var j :| 0 <= j < |Moves(s)| && Moves(s)[j] == m;
        assert sc[j] == -Value(Next(s, m));
      }
    }
  }

  // ---------------------------------------------------------------------------
  // Greedy choice by the two-ply estimate

  /** The negated estimates of the positions that `moves` lead to, in order. */
  function RoughScoresOf(s: State, moves: seq<char>): (r: seq<int>)
    requires WellFormed(s) && forall m :: m in moves ==> m in Moves(s)
    ensures |r| == |moves|
    ensures forall i :: 0 <= i < |r| ==> LOSE <= r[i] <= WIN
    decreases |moves|
  {
    if moves == [] then []
    else RoughScoresOf(s, moves[..|moves| - 1]) + [-RoughOutcome(Next(s, moves[|moves| - 1]))]
  }

  /** Entry i of RoughScoresOf is the negated estimate after move i. */
  lemma {:induction false} RoughScoresOfAt(s: State, moves: seq<char>, i: nat)
    requires WellFormed(s) && forall m :: m in moves ==> m in Moves(s)
    requires i < |moves|
    ensures RoughScoresOf(s, moves)[i] == -RoughOutcome(Next(s, moves[i]))
    decreases |moves|
  {
    if i < |moves| - 1 {
      var init := moves[..|moves| - 1];
      RoughScoresOfAt(s, init, i);
      assert init[i] == moves[i];
    }
  }

  /** The negated estimates of the positions the possible moves lead to, in move order. */
  function RoughScores(s: State): (r: seq<int>)
    requires WellFormed(s)
    ensures |r| == |Moves(s)|
    ensures forall i :: 0 <= i < |r| ==> LOSE <= r[i] <= WIN
  {
    RoughScoresOf(s, Moves(s))
  }

  /**
   * The move `rough_outcome_strategy` picks: none when there is no possible
   * move, else the first move whose negated estimate is largest.
   */
  function RoughChoice(s: State): (r: Option<char>)
    requires WellFormed(s)
    ensures r == None <==> Moves(s) == []
    ensures r.Some? ==> r.value in Moves(s)
  {
    if Moves(s) == [] then None else Some(Moves(s)[FirstMaxIndex(RoughScores(s))])
  }

  /**
   * No move leaves the opponent a lower estimate than the greedy choice, and
   * when some move ends the game by the threshold the chosen move leaves the
   * opponent the estimate LOSE.
   */
  lemma RoughChoiceIsBest(s: State)
    requires WellFormed(s)
    ensures RoughChoice(s).Some? ==>
      forall m :: m in Moves(s) ==> RoughOutcome(Next(s, RoughChoice(s).value)) <= RoughOutcome(Next(s, m))
    ensures CanReachThreshold(s) ==> RoughChoice(s).Some? && RoughOutcome(Next(s, RoughChoice(s).value)) == LOSE
  {
    if Moves(s) != [] {
      var sc := RoughScores(s);
      var i := FirstMaxIndex(sc);
      var best := Moves(s)[i];
      RoughScoresOfAt(s, Moves(s), i);
      forall m | m in Moves(s) ensures RoughOutcome(Next(s, best)) <= RoughOutcome(Next(s, m)) {
        var j :| 0 <= j < |Moves(s)| && Moves(s)[j] == m;
        RoughScoresOfAt(s, Moves(s), j);
      }
      if CanReachThreshold(s) {
        var m :| m in Moves(s) && ThresholdReached(Next(s, m));
        var j :| 0 <= j < |Moves(s)| && Moves(s)[j] == m;
        RoughScoresOfAt(s, Moves(s), j);
        assert RoughOutcome(Next(s, m)) == LOSE;
      }
    }
  }

  /**
   * One step of `rough_outcome_strategy`: make move `i` and negate the
   * estimate of the result.
   */
  method GuessScore(s: State, moves: seq<char>, i: nat) returns (guessedScore: int)
    requires WellFormed(s) && moves == Moves(s) && i < |moves|
    ensures guessedScore == RoughScores(s)[i]
  {
    var newState := MakeMove(s, moves[i]);
    guessedScore := RoughOutcome(newState) * -1;
    RoughScoresOfAt(s, moves, i);
  }

  /**
   * `rough_outcome_strategy`: try every possible move and keep the first one
   * whose negated estimate beats the best so far, starting below every
   * estimate; no move at all gives None.
   */
  method RoughOutcomeStrategy(game: StonehengeGame) returns (bestMove: Option<char>)
    requires WellFormed(game.current)
    ensures bestMove == RoughChoice(game.current)
  {
    var currentState := game.current;
    bestMove := None;
    var bestOutcome := -2;
    ghost var bi := 0;
    ghost var sc := RoughScores(currentState);
    var moves := GetPossibleMoves(currentState);
    for i := 0 to |moves|
      invariant i == 0 ==> bestMove == None && bestOutcome == -2
      invariant |moves| == |sc|
      invariant 0 < i ==> FirstMaxOfPrefix(sc, i, bi, bestOutcome) && bestMove == Some(moves[bi])
    {
      var guessedScore := GuessScore(currentState, moves, i);
      if 0 < i {
        FirstMaxStep(sc, i, bi, bestOutcome);
      }
      if guessedScore > bestOutcome {
        bestOutcome := guessedScore;
        bestMove := Some(moves[i]);
        bi := i;
      }
    }
    if moves != [] {
      FirstMaxUnique(sc, bi);
    }
  }

  // ---------------------------------------------------------------------------
  // Recursive minimax

  /**
   * `help_recu_min`: on a finished game, install `state` as the current
   * position to ask who won, then put the old one back; otherwise build the
   * children, score each recursively and take the best negated score.
   */
  method HelpRecuMin(game: StonehengeGame, state: State) returns (v: int)
    requires WellFormed(state)
    modifies game
    ensures v == Value(state)
    ensures game.current == old(game.current)
    decreases NumFree(state), 1
  {
    var over := game.IsOver(state);
    if over {
      v := FinishedValue(game, state);
      return;
    }
    var moves := GetPossibleMoves(state);
    var newState := Children(state, moves);
    var scores := NegatedValues(game, newState, NumFree(state));
    ScoresOfChildren(state, newState, scores);
    v := Max(scores);
  }

  /**
   * The finished branch of `help_recu_min`: install `state` as the current
   * position, ask who won, and put the old position back.
   */
  method FinishedValue(game: StonehengeGame, state: State) returns (v: int)
    requires WellFormed(state) && GameOver(state)
    modifies game
    ensures v == Value(state)
    ensures game.current == old(game.current)
  {
    var oldState := game.current;
    game.current := state;
    var w := game.IsWinner(CurrentPlayer(state));
    if w {
      game.current := oldState;
      return WIN;
    }
    var w1 := game.IsWinner(P1);
    var w2 := false;
    if !w1 {
      w2 := game.IsWinner(P2);
    }
    if w1 || w2 {
      game.current := oldState;
      return LOSE;
    }
    game.current := oldState;
    return DRAW;
  }

  /**
   * The list comprehension `[help_recu_min(game, s) * -1 for s in ...]`: the
   * negated values of the positions, in order.  Every position has fewer free
   * cells than `bound`, which bounds the recursion.
   */
  method NegatedValues(game: StonehengeGame, kids: seq<State>, ghost bound: nat) returns (scores: seq<int>)
    requires forall i :: 0 <= i < |kids| ==> WellFormed(kids[i]) && NumFree(kids[i]) < bound
    modifies game
    ensures |scores| == |kids|
    ensures forall i :: 0 <= i < |kids| ==> scores[i] == -Value(kids[i])
    ensures game.current == old(game.current)
    decreases bound, 0
  {
    scores := [];
    for i := 0 to |kids|
      invariant |scores| == i
      invariant forall j :: 0 <= j < i ==> scores[j] == -Value(kids[j])
      invariant game.current == old(game.current)
    {
      var r := HelpRecuMin(game, kids[i]);
      scores := scores + [-r];
    }
  }

  /** The negated values of the children of `state`, in move order, are its scores. */
  lemma ScoresOfChildren(state: State, kids: seq<State>, scores: seq<int>)
    requires WellFormed(state) && |kids| == |Moves(state)| && |scores| == |kids|
    requires forall i :: 0 <= i < |kids| ==> kids[i] == Next(state, Moves(state)[i])
    requires forall i :: 0 <= i < |kids| ==> WellFormed(kids[i]) && scores[i] == -Value(kids[i])
    ensures scores == Scores(state)
  {
    forall i | 0 <= i < |kids| ensures scores[i] == Scores(state)[i] {
      ScoreOfMove(state, i);
    }
  }

  /** The list comprehension of positions one move away, in move order. */
  method Children(state: State, moves: seq<char>) returns (kids: seq<State>)
    requires WellFormed(state) && moves == Moves(state)
    ensures |kids| == |moves|
    ensures forall i :: 0 <= i < |kids| ==> kids[i] == Next(state, moves[i])
    ensures forall i :: 0 <= i < |kids| ==> WellFormed(kids[i]) && NumFree(kids[i]) < NumFree(state)
  {
    kids := [];
    for i := 0 to |moves|
      invariant |kids| == i
      invariant forall j :: 0 <= j < i ==> kids[j] == Next(state, moves[j])
    {
      var k := MakeMove(state, moves[i]);
      kids := kids + [k];
    }
  }

  /**
   * `recursive_minimax_strategy`: score every child with HelpRecuMin and
   * return the move at the first index of the best score.  Python's `max`
   * fails on an empty list, so the position must not be finished.
   */
  method RecursiveMinimaxStrategy(game: StonehengeGame) returns (move: char)
    requires WellFormed(game.current) && !GameOver(game.current)
    modifies game
    ensures game.current == old(game.current)
    ensures move == BestMove(game.current)
  {
    var state := game.current;
    var moves := GetPossibleMoves(state);
    var kids := Children(state, moves);
    var listScore := NegatedValues(game, kids, NumFree(state));
    ScoresOfChildren(state, kids, listScore);
    var highestScore := Max(listScore);
    var index := IndexOf(listScore, highestScore);
    assert index == FirstMaxIndex(Scores(state));
    var again := GetPossibleMoves(game.current);
    move := again[index];
  }

  // ---------------------------------------------------------------------------
  // Iterative minimax

  /**
   * `Equip`: a search node with a position, its score once known (None until
   * then), and its children.
   */
  class Equip {
    const state: State
    var score: Option<int>
    var children: seq<Equip>

    /**
     * A node for `state`.  The node holds its own copy of `children`: a
     * sequence is a value, so later appends never reach the caller's list.
     */
    constructor(state: State, score: Option<int> := None, children: seq<Equip> := [])
      ensures this.state == state && this.score == score && this.children == children
    {
      this.state := state;
      this.score := score;
      this.children := children;
    }
  }

  /**
   * How often the iterative search pops the node of a position it has not
   * expanded yet: once when the game is over there, else twice (before and
   * after its children) plus the pops of its children.
   */
  function Pops(s: State): nat
    requires WellFormed(s)
    decreases NumFree(s), 1
  {
    if GameOver(s) then 1 else 2 + Sum(ChildPops(s))
  }

  /** The pops of the children of `s`, in move order. */
  function ChildPops(s: State): seq<nat>
    requires WellFormed(s)
    decreases NumFree(s), 0
  {
    seq(|Moves(s)|, j requires 0 <= j < |Moves(s)| => Pops(Next(s, Moves(s)[j])))
  }

  /**
   * The pops still ahead for a stack: one for an expanded node, Pops for any
   * other (the search only holds nodes of well-formed positions).
   */
  function Weight(ps: seq<Equip>, expanded: set<Equip>): nat
  {
    if ps == [] then 0
    else
      var n := ps[|ps| - 1];
      Weight(ps[..|ps| - 1], expanded)
        + (if n in expanded then 1 else if WellFormed(n.state) then Pops(n.state) else 0)
  }

  lemma {:induction false} WeightAppend(a: seq<Equip>, b: seq<Equip>, expanded: set<Equip>)
    ensures Weight(a + b, expanded) == Weight(a, expanded) + Weight(b, expanded)
    decreases |b|
  {
    if b == [] {
      assert a + b == a;
    } else {
      assert (a + b)[..|a + b| - 1] == a + b[..|b| - 1];
      WeightAppend(a, b[..|b| - 1], expanded);
    }
  }

  /** Popping a node lowers the weight of the stack. */
  lemma WeightPop(process: seq<Equip>, deal: Equip, expanded: set<Equip>)
    requires WellFormed(deal.state)
    ensures Weight(process, expanded) < Weight(process + [deal], expanded)
  {
    assert (process + [deal])[..|process|] == process;
  }

  /** Expanding a node that is not on the stack does not change the stack's weight. */
  lemma {:induction false} WeightIgnores(ps: seq<Equip>, expanded: set<Equip>, x: Equip)
    requires x !in ps
    ensures Weight(ps, expanded + {x}) == Weight(ps, expanded)
    decreases |ps|
  {
    if ps != [] {
      WeightIgnores(ps[..|ps| - 1], expanded, x);
    }
  }

  /** The children of a well-formed position are well-formed. */
  lemma KidsWellFormed(kids: seq<Equip>, s: State)
    requires WellFormed(s) && |kids| == |Moves(s)|
    requires forall j :: 0 <= j < |kids| ==> kids[j].state == Next(s, Moves(s)[j])
    ensures forall j :: 0 <= j < |kids| ==> WellFormed(kids[j].state)
  {
    forall j | 0 <= j < |kids| ensures WellFormed(kids[j].state) {
      assert IsValidMove(s, Moves(s)[j]);
    }
  }

  /** Unexpanded nodes of well-formed positions weigh as much as their pops. */
  lemma {:induction false} WeightOfFresh(ps: seq<Equip>, expanded: set<Equip>, pops: seq<nat>)
    requires |pops| == |ps|
    requires forall j :: 0 <= j < |ps| ==> ps[j] !in expanded && WellFormed(ps[j].state) && pops[j] == Pops(ps[j].state)
    ensures Weight(ps, expanded) == Sum(pops)
    decreases |ps|
  {
    if ps != [] {
      var k := |ps| - 1;
      WeightOfFresh(ps[..k], expanded, pops[..k]);
      assert ps[k] !in expanded && WellFormed(ps[k].state) && pops[k] == Pops(ps[k].state);
    }
  }

  /** Fresh children of `s`, one per move, weigh as much as all of their pops. */
  lemma KidsWeight(kids: seq<Equip>, expanded: set<Equip>, s: State)
    requires WellFormed(s) && !GameOver(s) && |kids| == |Moves(s)|
    requires forall j :: 0 <= j < |kids| ==> kids[j] !in expanded && kids[j].state == Next(s, Moves(s)[j])
    requires forall j :: 0 <= j < |kids| ==> WellFormed(kids[j].state)
    ensures Weight(kids, expanded) == Sum(ChildPops(s))
  {
    var pops := ChildPops(s);
    forall j | 0 <= j < |kids| ensures pops[j] == Pops(kids[j].state) {
      assert IsValidMove(s, Moves(s)[j]);
    }
    WeightOfFresh(kids, expanded, pops);
  }

  /** The weight of the stack drops by one when its top node is expanded. */
  lemma ExpandWeight(process: seq<Equip>, deal: Equip, kids: seq<Equip>, expanded: set<Equip>)
    requires WellFormed(deal.state) && !GameOver(deal.state)
    requires deal !in process && deal !in expanded
    requires |kids| == |Moves(deal.state)|
    requires forall j :: 0 <= j < |kids| ==>
      kids[j] !in expanded && kids[j] != deal && kids[j].state == Next(deal.state, Moves(deal.state)[j])
    ensures forall i :: 0 <= i < |kids| ==> WellFormed(kids[i].state)
    ensures Weight(process + [deal] + kids, expanded + {deal}) + 1 == Weight(process + [deal], expanded)
  {
    var e2 := expanded + {deal};
    var ps := process + [deal];
    KidsWellFormed(kids, deal.state);
    KidsWeight(kids, e2, deal.state);
    WeightAppend(ps, kids, e2);
    WeightIgnores(process, expanded, deal);
    assert ps[..|ps| - 1] == process;
    assert Weight(ps, e2) == Weight(process, expanded) + 1;
    assert Weight(ps, expanded) == Weight(process, expanded) + Pops(deal.state);
    assert Pops(deal.state) == 2 + Sum(ChildPops(deal.state));
  }

  // The invariant of the search loop, stated over the nodes made so far and
  // ghost maps standing for their `children` and `score` fields.

  /** `kids` are the children an expanded node of position `s` has: one per move, in move order. */
  ghost predicate IsExpansion(s: State, kids: seq<Equip>, nodes: set<Equip>)
  {
    && WellFormed(s) && !GameOver(s)
    && |kids| == |Moves(s)|
    && forall j :: 0 <= j < |kids| ==> kids[j] in nodes && kids[j].state == Next(s, Moves(s)[j])
  }

  /** Every node has an entry in both maps and a well-formed position. */
  ghost predicate NodesOk(nodes: set<Equip>, kidsOf: map<Equip, seq<Equip>>, scoreOf: map<Equip, Option<int>>)
  {
    forall n :: n in nodes ==> n in kidsOf && n in scoreOf && WellFormed(n.state)
  }

  /** The nodes with children are exactly the expanded ones, and those have one child per move. */
  ghost predicate ExpandedOk(nodes: set<Equip>, expanded: set<Equip>, kidsOf: map<Equip, seq<Equip>>)
  {
    && expanded <= nodes
    && (forall n :: n in nodes && n in kidsOf ==> (n in expanded <==> kidsOf[n] != []))
    && (forall n :: n in expanded && n in kidsOf ==> IsExpansion(n.state, kidsOf[n], nodes))
  }

  /** The stack holds distinct nodes. */
  ghost predicate StackOk(process: seq<Equip>, nodes: set<Equip>)
  {
    && (forall i :: 0 <= i < |process| ==> process[i] in nodes)
    && (forall i, k :: 0 <= i < k < |process| ==> process[i] != process[k])
  }

  /** A node off the stack is scored with the value of its position, and is finished or expanded. */
  ghost predicate DoneOk(process: seq<Equip>, nodes: set<Equip>, expanded: set<Equip>, scoreOf: map<Equip, Option<int>>)
  {
    forall n :: n in nodes && n !in process && n in scoreOf && WellFormed(n.state) ==>
      scoreOf[n] == Some(Value(n.state)) && (GameOver(n.state) || n in expanded)
  }

  /** A node lies below each of its children that is still on the stack. */
  ghost predicate OrderOk(process: seq<Equip>, kidsOf: map<Equip, seq<Equip>>)
  {
    forall i, k :: 0 <= i < |process| && 0 <= k < |process| && process[i] in kidsOf && process[k] in kidsOf[process[i]] ==> i < k
  }

  ghost predicate SearchInv(process: seq<Equip>, nodes: set<Equip>, expanded: set<Equip>,
                            kidsOf: map<Equip, seq<Equip>>, scoreOf: map<Equip, Option<int>>)
  {
    && NodesOk(nodes, kidsOf, scoreOf)
    && ExpandedOk(nodes, expanded, kidsOf)
    && StackOk(process, nodes)
    && DoneOk(process, nodes, expanded, scoreOf)
    && OrderOk(process, kidsOf)
  }

  /** The ghost maps hold the nodes' actual `children` and `score` fields. */
  ghost predicate Mirror(nodes: set<Equip>, kidsOf: map<Equip, seq<Equip>>, scoreOf: map<Equip, Option<int>>)
    reads nodes
  {
    forall n :: n in nodes ==> n in kidsOf && n in scoreOf && n.children == kidsOf[n] && n.score == scoreOf[n]
  }

  /** A node whose score is the negamax value of its position. */
  ghost predicate Scored(n: Equip)
    reads n
  {
    WellFormed(n.state) && n.score == Some(Value(n.state))
  }

  lemma SplitLast(ps: seq<Equip>)
    requires |ps| > 0
    ensures ps[..|ps| - 1] + [ps[|ps| - 1]] == ps
  {
  }

  /** The top of a stack of distinct nodes occurs nowhere below it, and the rest is again such a stack. */
  lemma PopDistinct(process: seq<Equip>, deal: Equip, nodes: set<Equip>)
    requires StackOk(process + [deal], nodes)
    ensures deal in nodes && deal !in process && StackOk(process, nodes)
  {
    var ps := process + [deal];
    assert ps[|ps| - 1] == deal;
    forall i | 0 <= i < |process| ensures process[i] != deal && process[i] in nodes {
      assert process[i] == ps[i] && ps[i] != ps[|ps| - 1];
    }
    forall i, k | 0 <= i < k < |process| ensures process[i] != process[k] {
      assert process[i] == ps[i] && process[k] == ps[k];
    }
  }

  /**
   * When an expanded node is on top of the stack its children all lie above
   * it, so none of them is on the stack and each is scored.
   */
  lemma ChildrenScored(process: seq<Equip>, deal: Equip, nodes: set<Equip>, expanded: set<Equip>,
                       kidsOf: map<Equip, seq<Equip>>, scoreOf: map<Equip, Option<int>>)
    requires SearchInv(process + [deal], nodes, expanded, kidsOf, scoreOf)
    requires deal in expanded
    ensures deal in kidsOf && IsExpansion(deal.state, kidsOf[deal], nodes)
    ensures forall j :: 0 <= j < |kidsOf[deal]| ==>
      kidsOf[deal][j] in scoreOf && WellFormed(kidsOf[deal][j].state)
      && scoreOf[kidsOf[deal][j]] == Some(Value(kidsOf[deal][j].state))
  {
    var ps := process + [deal];
    var top := |ps| - 1;
    assert ps[top] == deal && deal in nodes;
    forall k | 0 <= k < |ps| ensures ps[k] !in kidsOf[deal] {
      assert ps[k] !in kidsOf[ps[top]];
    }
    forall j | 0 <= j < |kidsOf[deal]|
      ensures kidsOf[deal][j] in scoreOf && WellFormed(kidsOf[deal][j].state)
      ensures scoreOf[kidsOf[deal][j]] == Some(Value(kidsOf[deal][j].state))
    {
      var c := kidsOf[deal][j];
      assert c in nodes && c !in ps;
    }
  }

  /** Popping the top node and giving it its value keeps the invariant, when it is finished or expanded. */
  lemma PopScored(process: seq<Equip>, deal: Equip, nodes: set<Equip>, expanded: set<Equip>,
                  kidsOf: map<Equip, seq<Equip>>, scoreOf: map<Equip, Option<int>>, scoreOf2: map<Equip, Option<int>>)
    requires SearchInv(process + [deal], nodes, expanded, kidsOf, scoreOf)
    requires WellFormed(deal.state) && (GameOver(deal.state) || deal in expanded)
    requires scoreOf2 == scoreOf[deal := Some(Value(deal.state))]
    ensures SearchInv(process, nodes, expanded, kidsOf, scoreOf2)
  {
    var ps := process + [deal];
    PopDistinct(process, deal, nodes);
    forall n | n in nodes && n !in process && n in scoreOf2 && WellFormed(n.state)
      ensures scoreOf2[n] == Some(Value(n.state)) && (GameOver(n.state) || n in expanded)
    {
      if n != deal {
        assert n !in ps;
      }
    }
    forall i, k | 0 <= i < |process| && 0 <= k < |process| && process[i] in kidsOf && process[k] in kidsOf[process[i]]
      ensures i < k
    {
      assert ps[i] == process[i] && ps[k] == process[k];
    }
  }

  /**
   * The fresh children of an expansion: distinct, new to the search, and
   * together with the old nodes exactly the new node set.
   */
  ghost predicate FreshKids(kids: seq<Equip>, nodes: set<Equip>, nodes2: set<Equip>)
  {
    && (forall a, b :: 0 <= a < b < |kids| ==> kids[a] != kids[b])
    && (forall j :: 0 <= j < |kids| ==> kids[j] !in nodes && kids[j] in nodes2)
    && nodes <= nodes2 && (forall n :: n in nodes2 ==> n in nodes || n in kids)
  }

  /**
   * The ghost maps after an expansion of `deal`: the children get no children
   * and no score, `deal` gets `kids` as its children, nothing else changes.
   */
  ghost predicate MapsGrow(deal: Equip, kids: seq<Equip>, nodes: set<Equip>, nodes2: set<Equip>,
                           kidsOf: map<Equip, seq<Equip>>, scoreOf: map<Equip, Option<int>>,
                           kidsOf2: map<Equip, seq<Equip>>, scoreOf2: map<Equip, Option<int>>)
  {
    && (forall n :: n in nodes2 ==> n in kidsOf2 && n in scoreOf2)
    && (forall n :: n in kids ==> n in kidsOf2 && kidsOf2[n] == [] && n in scoreOf2 && scoreOf2[n] == None)
    && deal in kidsOf2 && kidsOf2[deal] == kids
    && (forall n :: n in nodes && n != deal && n in kidsOf ==> n in kidsOf2 && kidsOf2[n] == kidsOf[n])
    && (forall n :: n in nodes && n in scoreOf ==> n in scoreOf2 && scoreOf2[n] == scoreOf[n])
  }

  /** The node set and ghost maps after an expansion of `deal` with the fresh `kids`. */
  lemma GrowMaps(deal: Equip, kids: seq<Equip>, nodes: set<Equip>,
                 kidsOf: map<Equip, seq<Equip>>, scoreOf: map<Equip, Option<int>>)
    returns (nodes2: set<Equip>, kidsOf2: map<Equip, seq<Equip>>, scoreOf2: map<Equip, Option<int>>)
    requires deal in nodes && forall n :: n in nodes ==> n in kidsOf && n in scoreOf
    requires forall a, b :: 0 <= a < b < |kids| ==> kids[a] != kids[b]
    requires forall j :: 0 <= j < |kids| ==> kids[j] !in nodes
    ensures FreshKids(kids, nodes, nodes2)
    ensures MapsGrow(deal, kids, nodes, nodes2, kidsOf, scoreOf, kidsOf2, scoreOf2)
  {
    nodes2 := nodes + (set k | k in kids);
    kidsOf2 := kidsOf[deal := kids] + (map k | k in kids :: []);
    scoreOf2 := scoreOf + (map k | k in kids :: None);
    assert forall n :: n in nodes ==> n !in kids;
  }

  /** A child of a node is itself a node. */
  lemma KidsAreNodes(nodes: set<Equip>, expanded: set<Equip>, kidsOf: map<Equip, seq<Equip>>)
    requires ExpandedOk(nodes, expanded, kidsOf)
    ensures forall n, j :: n in nodes && n in kidsOf && 0 <= j < |kidsOf[n]| ==> kidsOf[n][j] in nodes
  {
    forall n, j | n in nodes && n in kidsOf && 0 <= j < |kidsOf[n]| ensures kidsOf[n][j] in nodes {
      assert n in expanded && IsExpansion(n.state, kidsOf[n], nodes);
    }
  }

  lemma ExpandNodesOk(deal: Equip, kids: seq<Equip>, nodes: set<Equip>, expanded: set<Equip>,
                      kidsOf: map<Equip, seq<Equip>>, scoreOf: map<Equip, Option<int>>,
                      nodes2: set<Equip>, expanded2: set<Equip>,
                      kidsOf2: map<Equip, seq<Equip>>, scoreOf2: map<Equip, Option<int>>)
    requires NodesOk(nodes, kidsOf, scoreOf) && ExpandedOk(nodes, expanded, kidsOf)
    requires deal in nodes && deal !in expanded && !GameOver(deal.state)
    requires |kids| == |Moves(deal.state)|
    requires forall j :: 0 <= j < |kids| ==> kids[j].state == Next(deal.state, Moves(deal.state)[j])
    requires FreshKids(kids, nodes, nodes2) && expanded2 == expanded + {deal}
    requires MapsGrow(deal, kids, nodes, nodes2, kidsOf, scoreOf, kidsOf2, scoreOf2)
    ensures NodesOk(nodes2, kidsOf2, scoreOf2) && ExpandedOk(nodes2, expanded2, kidsOf2)
  {
    KidsWellFormed(kids, deal.state);
    forall n | n in nodes2 ensures WellFormed(n.state) {
      if n in kids {
        var j :| 0 <= j < |kids| && kids[j] == n;
      }
    }
    ExpandKidsOk(deal, kids, nodes, expanded, kidsOf, scoreOf, nodes2, expanded2, kidsOf2, scoreOf2);
  }

  /** After an expansion of `deal`, the nodes with children are still exactly the expanded ones. */
  lemma ExpandKidsOk(deal: Equip, kids: seq<Equip>, nodes: set<Equip>, expanded: set<Equip>,
                     kidsOf: map<Equip, seq<Equip>>, scoreOf: map<Equip, Option<int>>,
                     nodes2: set<Equip>, expanded2: set<Equip>,
                     kidsOf2: map<Equip, seq<Equip>>, scoreOf2: map<Equip, Option<int>>)
    requires NodesOk(nodes, kidsOf, scoreOf) && ExpandedOk(nodes, expanded, kidsOf)
    requires deal in nodes && deal !in expanded && !GameOver(deal.state)
    requires |kids| == |Moves(deal.state)|
    requires forall j :: 0 <= j < |kids| ==> kids[j].state == Next(deal.state, Moves(deal.state)[j])
    requires FreshKids(kids, nodes, nodes2) && expanded2 == expanded + {deal}
    requires MapsGrow(deal, kids, nodes, nodes2, kidsOf, scoreOf, kidsOf2, scoreOf2)
    ensures ExpandedOk(nodes2, expanded2, kidsOf2)
  {
    assert Moves(deal.state) != [];
    forall n | n in nodes2 && n in kidsOf2 ensures (n in expanded2 <==> kidsOf2[n] != []) {
      if n in kids {
        var j :| 0 <= j < |kids| && kids[j] == n;
        assert n !in nodes;
      }
    }
    forall n | n in expanded2 && n in kidsOf2 ensures IsExpansion(n.state, kidsOf2[n], nodes2) {
      if n != deal {
        assert IsExpansion(n.state, kidsOf[n], nodes);
      }
    }
  }

  lemma ExpandStackOk(ps: seq<Equip>, kids: seq<Equip>, nodes: set<Equip>, nodes2: set<Equip>)
    requires StackOk(ps, nodes) && FreshKids(kids, nodes, nodes2)
    ensures StackOk(ps + kids, nodes2)
  {
    var np := ps + kids;
    forall i | 0 <= i < |np| ensures np[i] in nodes2 {
      if i >= |ps| {
        assert np[i] == kids[i - |ps|];
      } else {
        assert np[i] == ps[i];
      }
    }
    forall i, k | 0 <= i < k < |np| ensures np[i] != np[k] {
      if k >= |ps| {
        assert np[k] == kids[k - |ps|];
        if i < |ps| {
          assert np[i] == ps[i] && ps[i] in nodes;
        } else {
          assert np[i] == kids[i - |ps|];
        }
      } else {
        assert np[i] == ps[i] && np[k] == ps[k];
      }
    }
  }

  lemma ExpandDoneOk(ps: seq<Equip>, kids: seq<Equip>, nodes: set<Equip>, nodes2: set<Equip>,
                     expanded: set<Equip>, expanded2: set<Equip>,
                     scoreOf: map<Equip, Option<int>>, scoreOf2: map<Equip, Option<int>>)
    requires DoneOk(ps, nodes, expanded, scoreOf) && FreshKids(kids, nodes, nodes2)
    requires forall n :: n in nodes ==> n in scoreOf
    requires forall n :: n in nodes && n in scoreOf ==> n in scoreOf2 && scoreOf2[n] == scoreOf[n]
    requires expanded <= expanded2
    ensures DoneOk(ps + kids, nodes2, expanded2, scoreOf2)
  {
    forall n | n in nodes2 && n !in ps + kids && n in scoreOf2 && WellFormed(n.state)
      ensures scoreOf2[n] == Some(Value(n.state)) && (GameOver(n.state) || n in expanded2)
    {
      assert n !in kids;
      assert n in nodes && n !in ps;
    }
  }

  lemma ExpandOrderOk(process: seq<Equip>, deal: Equip, kids: seq<Equip>, nodes: set<Equip>, nodes2: set<Equip>,
                      kidsOf: map<Equip, seq<Equip>>, scoreOf: map<Equip, Option<int>>,
                      kidsOf2: map<Equip, seq<Equip>>, scoreOf2: map<Equip, Option<int>>)
    requires OrderOk(process + [deal], kidsOf) && StackOk(process + [deal], nodes)
    requires forall n :: n in nodes ==> n in kidsOf
    requires forall n, j :: n in nodes && n in kidsOf && 0 <= j < |kidsOf[n]| ==> kidsOf[n][j] in nodes
    requires FreshKids(kids, nodes, nodes2)
    requires MapsGrow(deal, kids, nodes, nodes2, kidsOf, scoreOf, kidsOf2, scoreOf2)
    ensures OrderOk(process + [deal] + kids, kidsOf2)
  {
    var ps := process + [deal];
    var np := ps + kids;
    PopDistinct(process, deal, nodes);
    assert forall t :: |ps| <= t < |np| ==> np[t] == kids[t - |ps|] && kidsOf2[np[t]] == [];
    forall i, k | 0 <= i < |np| && 0 <= k < |np| && np[i] in kidsOf2 && np[k] in kidsOf2[np[i]] ensures i < k {
      assert i < |ps|;
      if i == |ps| - 1 {
        assert np[i] == deal && np[k] in kids;
        var j :| 0 <= j < |kids| && kids[j] == np[k];
        assert forall t :: 0 <= t < |ps| ==> np[t] == ps[t] && ps[t] in nodes;
      } else {
        assert np[i] == process[i] && process[i] in nodes && process[i] != deal;
        assert kidsOf2[np[i]] == kidsOf[process[i]];
        var j :| 0 <= j < |kidsOf[process[i]]| && kidsOf[process[i]][j] == np[k];
        assert np[k] in nodes;
        assert forall t :: |ps| <= t < |np| ==> np[t] == kids[t - |ps|] && np[t] !in nodes;
        assert np[k] == ps[k] && ps[i] == process[i];
      }
    }
  }

  /** Expanding the top node of the stack keeps the invariant. */
  lemma ExpandKeepsInv(process: seq<Equip>, deal: Equip, kids: seq<Equip>, nodes: set<Equip>, expanded: set<Equip>,
                       kidsOf: map<Equip, seq<Equip>>, scoreOf: map<Equip, Option<int>>,
                       nodes2: set<Equip>, expanded2: set<Equip>,
                       kidsOf2: map<Equip, seq<Equip>>, scoreOf2: map<Equip, Option<int>>)
    requires SearchInv(process + [deal], nodes, expanded, kidsOf, scoreOf)
    requires deal in nodes && kidsOf[deal] == [] && !GameOver(deal.state)
    requires |kids| == |Moves(deal.state)|
    requires forall j :: 0 <= j < |kids| ==> kids[j].state == Next(deal.state, Moves(deal.state)[j])
    requires FreshKids(kids, nodes, nodes2) && expanded2 == expanded + {deal}
    requires MapsGrow(deal, kids, nodes, nodes2, kidsOf, scoreOf, kidsOf2, scoreOf2)
    ensures SearchInv(process + [deal] + kids, nodes2, expanded2, kidsOf2, scoreOf2)
  {
    ExpandNodesOk(deal, kids, nodes, expanded, kidsOf, scoreOf, nodes2, expanded2, kidsOf2, scoreOf2);
    ExpandStackOk(process + [deal], kids, nodes, nodes2);
    ExpandDoneOk(process + [deal], kids, nodes, nodes2, expanded, expanded2, scoreOf, scoreOf2);
    KidsAreNodes(nodes, expanded, kidsOf);
    ExpandOrderOk(process, deal, kids, nodes, nodes2, kidsOf, scoreOf, kidsOf2, scoreOf2);
  }

  /** The list of negated child scores, `[s.score * -1 for s in children]`, for children already scored. */
  method NegatedScores(kids: seq<Equip>) returns (scores: seq<int>)
    requires forall j :: 0 <= j < |kids| ==> kids[j].score.Some?
    ensures |scores| == |kids|
    ensures forall i :: 0 <= i < |kids| ==> scores[i] == -kids[i].score.value
  {
    scores := [];
    for j := 0 to |kids|
      invariant |scores| == j
      invariant forall i :: 0 <= i < j ==> scores[i] == -kids[i].score.value
    {
      var child := kids[j];
      scores := scores + [child.score.value * -1];
    }
  }

  /** Once the children of `s` are scored, their negated scores, in move order, are the scores of `s`. */
  lemma ScoresOfChildNodes(s: State, kids: seq<Equip>, scores: seq<int>)
    requires WellFormed(s) && |kids| == |Moves(s)| && |scores| == |kids|
    requires forall i :: 0 <= i < |kids| ==> kids[i].state == Next(s, Moves(s)[i])
    requires forall i :: 0 <= i < |kids| ==> Scored(kids[i]) && scores[i] == -kids[i].score.value
    ensures scores == Scores(s)
  {
    forall i | 0 <= i < |kids| ensures scores[i] == Scores(s)[i] {
      ScoreOfMove(s, i);
    }
  }

  /**
   * The first branch of the loop: the popped node has children, all scored,
   * and takes the best of their negated scores.
   */
  method ScoreFromChildren(deal: Equip, ghost nodes: set<Equip>)
    requires IsExpansion(deal.state, deal.children, nodes)
    requires forall j :: 0 <= j < |deal.children| ==> Scored(deal.children[j])
    modifies deal
    ensures deal.score == Some(Value(deal.state))
    ensures deal.children == old(deal.children)
  {
    var scores := NegatedScores(deal.children);
    ScoresOfChildNodes(deal.state, deal.children, scores);
    assert Value(deal.state) == Max(scores);
    deal.score := Some(Max(scores));
  }

  /**
   * The second branch: a finished position is installed as the game's
   * current one to ask who won, and the old one is put back each time.
   */
  method ScoreFinished(game: StonehengeGame, deal: Equip, oldState: State)
    requires WellFormed(deal.state) && GameOver(deal.state)
    modifies game, deal
    ensures deal.score == Some(Value(deal.state))
    ensures deal.children == old(deal.children)
    ensures game.current == oldState
  {
    game.current := deal.state;
    var w := game.IsWinner(CurrentPlayer(deal.state));
    if w {
      game.current := oldState;
      deal.score := Some(WIN);
      return;
    }
    var w1 := game.IsWinner(P1);
    var w2 := false;
    if !w1 {
      w2 := game.IsWinner(P2);
    }
    if !w1 && !w2 {
      game.current := oldState;
      deal.score := Some(DRAW);
    } else {
      game.current := oldState;
      deal.score := Some(LOSE);
    }
  }

  /**
   * The third branch: one fresh unscored node per possible move is made, the
   * popped node goes back on the stack and each new node is appended both to
   * its children and to the stack.
   */
  method Expand(deal: Equip, process: seq<Equip>) returns (newProcess: seq<Equip>, kids: seq<Equip>)
    requires WellFormed(deal.state) && !GameOver(deal.state) && deal.children == []
    modifies deal
    ensures newProcess == process + [deal] + kids
    ensures deal.children == kids && deal.score == old(deal.score)
    ensures |kids| == |Moves(deal.state)|
    ensures forall j :: 0 <= j < |kids| ==>
      fresh(kids[j]) && kids[j].state == Next(deal.state, Moves(deal.state)[j])
      && kids[j].children == [] && kids[j].score == None
    ensures forall i, j :: 0 <= i < j < |kids| ==> kids[i] != kids[j]
  {
    var moves := GetPossibleMoves(deal.state);
    var states := Children(deal.state, moves);
    var newState := NewNodes(states);
    newProcess := Attach(deal, process, newState);
    kids := newState;
  }

  /**
   * The loop of the last branch: append each new node to the children of
   * `deal` and push it on the stack.
   */
  method Attach(deal: Equip, process: seq<Equip>, newState: seq<Equip>) returns (newProcess: seq<Equip>)
    requires deal.children == []
    requires forall j :: 0 <= j < |newState| ==>
      newState[j] != deal && newState[j].children == [] && newState[j].score == None
    modifies deal
    ensures newProcess == process + [deal] + newState
    ensures deal.children == newState && deal.score == old(deal.score)
    ensures forall j :: 0 <= j < |newState| ==> newState[j].children == [] && newState[j].score == None
  {
    newProcess := process + [deal];
    for i := 0 to |newState|
      invariant deal.children == newState[..i]
      invariant newProcess == process + [deal] + newState[..i]
      invariant deal.score == old(deal.score)
      invariant forall j :: 0 <= j < |newState| ==> newState[j].children == [] && newState[j].score == None
    {
      deal.children := deal.children + [newState[i]];
      newProcess := newProcess + [newState[i]];
    }
  }

  /** Fresh, unscored nodes without children, one per position of `states`. */
  method NewNodes(states: seq<State>) returns (newState: seq<Equip>)
    ensures |newState| == |states|
    ensures forall j :: 0 <= j < |newState| ==>
      fresh(newState[j]) && newState[j].state == states[j]
      && newState[j].children == [] && newState[j].score == None
    ensures forall a, b :: 0 <= a < b < |newState| ==> newState[a] != newState[b]
  {
    newState := [];
    for i := 0 to |states|
      invariant |newState| == i
      invariant forall j :: 0 <= j < i ==>
        fresh(newState[j]) && newState[j].state == states[j]
        && newState[j].children == [] && newState[j].score == None
      invariant forall a, b :: 0 <= a < b < i ==> newState[a] != newState[b]
    {
      var e := new Equip(states[i]);
      newState := newState + [e];
    }
  }

  /** The first branch with its effect on the search: the top node is popped and scored from its children. */
  method PopExpanded(deal: Equip, ghost process: seq<Equip>, ghost nodes: set<Equip>, ghost expanded: set<Equip>,
                     ghost kidsOf: map<Equip, seq<Equip>>, ghost scoreOf: map<Equip, Option<int>>)
    returns (ghost scoreOf2: map<Equip, Option<int>>)
    requires Mirror(nodes, kidsOf, scoreOf) && SearchInv(process + [deal], nodes, expanded, kidsOf, scoreOf)
    requires deal in nodes && deal.children != []
    modifies deal
    ensures Mirror(nodes, kidsOf, scoreOf2) && SearchInv(process, nodes, expanded, kidsOf, scoreOf2)
  {
    assert deal in expanded;
    ChildrenScored(process, deal, nodes, expanded, kidsOf, scoreOf);
    ScoreExpanded(deal, nodes, kidsOf, scoreOf);
    scoreOf2 := scoreOf[deal := deal.score];
    PopScored(process, deal, nodes, expanded, kidsOf, scoreOf, scoreOf2);
  }

  /** The first branch on the node itself: its children are scored, so it takes their best negated score. */
  method ScoreExpanded(deal: Equip, ghost nodes: set<Equip>,
                       ghost kidsOf: map<Equip, seq<Equip>>, ghost scoreOf: map<Equip, Option<int>>)
    requires Mirror(nodes, kidsOf, scoreOf) && deal in nodes
    requires deal in kidsOf && IsExpansion(deal.state, kidsOf[deal], nodes)
    requires forall j :: 0 <= j < |kidsOf[deal]| ==>
      kidsOf[deal][j] in scoreOf && WellFormed(kidsOf[deal][j].state)
      && scoreOf[kidsOf[deal][j]] == Some(Value(kidsOf[deal][j].state))
    modifies deal
    ensures deal.score == Some(Value(deal.state))
    ensures Mirror(nodes, kidsOf, scoreOf[deal := deal.score])
  {
    forall j | 0 <= j < |deal.children| ensures Scored(deal.children[j]) {
      assert deal.children[j] == kidsOf[deal][j] && kidsOf[deal][j] in nodes;
    }
    ScoreFromChildren(deal, nodes);
    ghost var scoreOf2 := scoreOf[deal := deal.score];
    forall n | n in nodes ensures n in kidsOf && n in scoreOf2 && n.children == kidsOf[n] && n.score == scoreOf2[n] {
      if n != deal {
        assert n.score == old(n.score) == scoreOf[n];
        assert n.children == old(n.children) == kidsOf[n];
      }
    }
  }

  /** The second branch with its effect on the search: the finished top node is popped and scored. */
  method PopFinished(game: StonehengeGame, deal: Equip, oldState: State,
                     ghost process: seq<Equip>, ghost nodes: set<Equip>, ghost expanded: set<Equip>,
                     ghost kidsOf: map<Equip, seq<Equip>>, ghost scoreOf: map<Equip, Option<int>>)
    returns (ghost scoreOf2: map<Equip, Option<int>>)
    requires Mirror(nodes, kidsOf, scoreOf) && SearchInv(process + [deal], nodes, expanded, kidsOf, scoreOf)
    requires deal in nodes && GameOver(deal.state)
    modifies game, deal
    ensures game.current == oldState
    ensures Mirror(nodes, kidsOf, scoreOf2) && SearchInv(process, nodes, expanded, kidsOf, scoreOf2)
  {
    ScoreFinished(game, deal, oldState);
    scoreOf2 := scoreOf[deal := deal.score];
    PopScored(process, deal, nodes, expanded, kidsOf, scoreOf, scoreOf2);
  }

  /**
   * The third branch with its effect on the search: the expanded node goes
   * back on the stack under its fresh children, and the stack's weight drops.
   */
  method ExpandStep(deal: Equip, process: seq<Equip>, ghost nodes: set<Equip>, ghost expanded: set<Equip>,
                    ghost kidsOf: map<Equip, seq<Equip>>, ghost scoreOf: map<Equip, Option<int>>)
    returns (newProcess: seq<Equip>, ghost nodes2: set<Equip>, ghost expanded2: set<Equip>,
             ghost kidsOf2: map<Equip, seq<Equip>>, ghost scoreOf2: map<Equip, Option<int>>)
    requires Mirror(nodes, kidsOf, scoreOf) && SearchInv(process + [deal], nodes, expanded, kidsOf, scoreOf)
    requires deal in nodes && deal.children == [] && !GameOver(deal.state)
    modifies deal
    ensures Mirror(nodes2, kidsOf2, scoreOf2) && SearchInv(newProcess, nodes2, expanded2, kidsOf2, scoreOf2)
    ensures nodes <= nodes2 && fresh(nodes2 - nodes)
    ensures Weight(newProcess, expanded2) < Weight(process + [deal], expanded)
  {
    PopDistinct(process, deal, nodes);
    var kids;
    newProcess, kids := Expand(deal, process);
    expanded2 := expanded + {deal};
    nodes2, kidsOf2, scoreOf2 := GrowMaps(deal, kids, nodes, kidsOf, scoreOf);
    ExpandKeepsInv(process, deal, kids, nodes, expanded, kidsOf, scoreOf, nodes2, expanded2, kidsOf2, scoreOf2);
    ExpandWeight(process, deal, kids, expanded);
    forall n | n in nodes2 ensures n in kidsOf2 && n in scoreOf2 && n.children == kidsOf2[n] && n.score == scoreOf2[n] {
      if n in kids {
        var j :| 0 <= j < |kids| && kids[j] == n;
        assert n.children == [] && n.score == None;
      } else if n == deal {
        assert n.children == kids && n.score == old(n.score) == scoreOf[n];
      } else {
        assert n in nodes && n.children == old(n.children) && n.score == old(n.score);
      }
    }
  }

  /**
   * `iterative_minimax_strategy`: a stack of nodes replaces the recursion.  A
   * popped node without children is either finished, and scored at once, or
   * pushed back with its children on top of it; when it is popped again its
   * children are all scored and it takes the best of their negated scores.
   * The move is chosen from the root's children as in the recursive version.
   */
  method IterativeMinimaxStrategy(game: StonehengeGame) returns (move: char)
    requires WellFormed(game.current) && !GameOver(game.current)
    modifies game
    ensures game.current == old(game.current)
    ensures move == BestMove(game.current)
  {
    var oldState := game.current;
    var start := new Equip(game.current);
    ghost var nodes, expanded, kidsOf, scoreOf := Search(game, start);
    RootChildren(start, nodes, expanded, kidsOf, scoreOf);
    forall j | 0 <= j < |start.children| ensures Scored(start.children[j]) {
      assert start.children[j] == kidsOf[start][j] && kidsOf[start][j] in nodes;
    }
    var choies := NegatedScores(start.children);
    ScoresOfChildNodes(start.state, start.children, choies);
    var index := IndexOf(choies, Max(choies));
    var moves := GetPossibleMoves(game.current);
    move := moves[index];
  }

  /**
   * The loop of `iterative_minimax_strategy`, run from a root without children
   * until the stack is empty.  It ends with every node scored (the invariant
   * with an empty stack) and the game's current position as it was.
   */
  method Search(game: StonehengeGame, start: Equip)
    returns (ghost nodes: set<Equip>, ghost expanded: set<Equip>,
             ghost kidsOf: map<Equip, seq<Equip>>, ghost scoreOf: map<Equip, Option<int>>)
    requires WellFormed(start.state) && start.children == [] && start.score == None
    modifies game, start
    ensures game.current == old(game.current)
    ensures start in nodes && Mirror(nodes, kidsOf, scoreOf) && SearchInv([], nodes, expanded, kidsOf, scoreOf)
  {
    var oldState := game.current;
    var process := [start];
    nodes := {start};
    expanded := {};
    kidsOf := map[start := []];
    scoreOf := map[start := None];
    while process != []
      invariant start in nodes && fresh(nodes - {start})
      invariant game.current == oldState
      invariant Mirror(nodes, kidsOf, scoreOf)
      invariant SearchInv(process, nodes, expanded, kidsOf, scoreOf)
      decreases Weight(process, expanded)
    {
      process, nodes, expanded, kidsOf, scoreOf := SearchStep(game, oldState, process, nodes, expanded, kidsOf, scoreOf);
    }
  }

  /** One turn of the search loop: pop a node and score it, or expand it. */
  method SearchStep(game: StonehengeGame, oldState: State, process: seq<Equip>,
                    ghost nodes: set<Equip>, ghost expanded: set<Equip>,
                    ghost kidsOf: map<Equip, seq<Equip>>, ghost scoreOf: map<Equip, Option<int>>)
    returns (process2: seq<Equip>, ghost nodes2: set<Equip>, ghost expanded2: set<Equip>,
             ghost kidsOf2: map<Equip, seq<Equip>>, ghost scoreOf2: map<Equip, Option<int>>)
    requires process != [] && game.current == oldState
    requires Mirror(nodes, kidsOf, scoreOf) && SearchInv(process, nodes, expanded, kidsOf, scoreOf)
    modifies game, nodes
    ensures game.current == oldState
    ensures Mirror(nodes2, kidsOf2, scoreOf2) && SearchInv(process2, nodes2, expanded2, kidsOf2, scoreOf2)
    ensures nodes <= nodes2 && fresh(nodes2 - nodes)
    ensures Weight(process2, expanded2) < Weight(process, expanded)
  {
    var deal := process[|process| - 1];
    SplitLast(process);
    process2 := process[..|process| - 1];
    PopDistinct(process2, deal, nodes);
    if deal.children != [] {
      WeightPop(process2, deal, expanded);
      nodes2, expanded2, kidsOf2 := nodes, expanded, kidsOf;
      scoreOf2 := PopExpanded(deal, process2, nodes, expanded, kidsOf, scoreOf);
    } else {
      process2, nodes2, expanded2, kidsOf2, scoreOf2 := LeafStep(game, oldState, deal, process2, nodes, expanded, kidsOf, scoreOf);
    }
  }

  /** The turn of the search loop for a popped node without children: score it if finished, else expand it. */
  method LeafStep(game: StonehengeGame, oldState: State, deal: Equip, process: seq<Equip>,
                  ghost nodes: set<Equip>, ghost expanded: set<Equip>,
                  ghost kidsOf: map<Equip, seq<Equip>>, ghost scoreOf: map<Equip, Option<int>>)
    returns (process2: seq<Equip>, ghost nodes2: set<Equip>, ghost expanded2: set<Equip>,
             ghost kidsOf2: map<Equip, seq<Equip>>, ghost scoreOf2: map<Equip, Option<int>>)
    requires game.current == oldState && deal in nodes && deal.children == []
    requires Mirror(nodes, kidsOf, scoreOf) && SearchInv(process + [deal], nodes, expanded, kidsOf, scoreOf)
    modifies game, nodes
    ensures game.current == oldState
    ensures Mirror(nodes2, kidsOf2, scoreOf2) && SearchInv(process2, nodes2, expanded2, kidsOf2, scoreOf2)
    ensures nodes <= nodes2 && fresh(nodes2 - nodes)
    ensures Weight(process2, expanded2) < Weight(process + [deal], expanded)
  {
    var over := game.IsOver(deal.state);
    if over {
      WeightPop(process, deal, expanded);
      process2, nodes2, expanded2, kidsOf2 := process, nodes, expanded, kidsOf;
      scoreOf2 := PopFinished(game, deal, oldState, process, nodes, expanded, kidsOf, scoreOf);
    } else {
      process2, nodes2, expanded2, kidsOf2, scoreOf2 := ExpandStep(deal, process, nodes, expanded, kidsOf, scoreOf);
    }
  }

  /** Once the stack is empty, the root is expanded and all its children are scored. */
  lemma RootChildren(start: Equip, nodes: set<Equip>, expanded: set<Equip>,
                     kidsOf: map<Equip, seq<Equip>>, scoreOf: map<Equip, Option<int>>)
    requires SearchInv([], nodes, expanded, kidsOf, scoreOf)
    requires start in nodes && !GameOver(start.state)
    ensures start in expanded && start in kidsOf && IsExpansion(start.state, kidsOf[start], nodes)
    ensures forall j :: 0 <= j < |kidsOf[start]| ==>
      kidsOf[start][j] in scoreOf && WellFormed(kidsOf[start][j].state)
      && scoreOf[kidsOf[start][j]] == Some(Value(kidsOf[start][j].state))
  {
    forall j | 0 <= j < |kidsOf[start]|
      ensures kidsOf[start][j] in scoreOf && WellFormed(kidsOf[start][j].state)
      ensures scoreOf[kidsOf[start][j]] == Some(Value(kidsOf[start][j].state))
    {
      assert kidsOf[start][j] in nodes;
    }
  }
}
