/**
 * `StonehengeGame`: the game object that holds the current position, decides
 * whether a position is over and who has won.  The strategies overwrite and
 * restore its current position, so it is a class with one mutable field.
 */
module Game {
  import opened Lists
  import opened Stonehenge
  import opened StateMethods

  /** `is_over`: the ley-line threshold is reached, or no cell is left to claim. */
  predicate GameOver(s: State)
  {
    ThresholdReached(s) || Moves(s) == []
  }

  /**
   * `is_winner(p)`: player 1 wins a finished game in which it holds at least
   * half of the markers; in every other finished game player 2 is the winner.
   */
  predicate Wins(s: State, p: Player)
  {
    if 2 * Count(s.leyLine, '1') >= |s.leyLine| then p == P1 && GameOver(s)
    else p == P2 && GameOver(s)
  }

  /** The game is over exactly when there is no move left to make. */
  lemma OverIffNoMoves(s: State)
    ensures GameOver(s) <==> Moves(s) == []
  {
  }

  /** A finished game has exactly one winner; an unfinished one has none. */
  lemma ExactlyOneWinner(s: State)
    ensures GameOver(s) ==> (Wins(s, P1) <==> !Wins(s, P2))
    ensures !GameOver(s) ==> !Wins(s, P1) && !Wins(s, P2)
  {
  }

  class StonehengeGame {
    /** `current_state`. */
    var current: State

    /**
     * A new game on the board of side `side`, with `p1Starts` deciding who
     * moves first.  The side length is a parameter; it is the value the
     * source's input loop accepts.
     */
    constructor(p1Starts: bool, side: int)
      requires 0 < side < 6
      ensures current == Init(p1Starts, side)
    {
      current := Init(p1Starts, side);
    }

    /** `is_over`: count both players' markers, then ask for the possible moves. */
    method IsOver(state: State) returns (over: bool)
      ensures over == GameOver(state)
    {
      var p1, p2 := 0, 0;
      for k := 0 to |state.leyLine|
        invariant p1 == Count(state.leyLine[..k], '1') && p2 == Count(state.leyLine[..k], '2')
      {
        assert state.leyLine[..k + 1][..k] == state.leyLine[..k];
        var i := state.leyLine[k];
        if i == '1' {
          p1 := p1 + 1;
        } else if i == '2' {
          p2 := p2 + 1;
        }
      }
      assert state.leyLine[..|state.leyLine|] == state.leyLine;
      if 2 * p1 >= |state.leyLine| || 2 * p2 >= |state.leyLine| {
        return true;
      }
      var moves := GetPossibleMoves(state);
      over := moves == [];
    }

    /** `is_winner`: count player 1's markers in the current position and decide. */
    method IsWinner(player: Player) returns (w: bool)
      ensures w == Wins(current, player)
    {
      var p1, p2 := 0, 0;
      var ley := current.leyLine;
      for k := 0 to |ley|
        invariant p1 == Count(ley[..k], '1') && p2 == Count(ley[..k], '2')
      {
        assert ley[..k + 1][..k] == ley[..k];
        if ley[k] == '1' {
          p1 := p1 + 1;
        } else if ley[k] == '2' {
          p2 := p2 + 1;
        }
      }
      assert ley[..|ley|] == ley;
      var over := IsOver(current);
      if p1 * 2 >= |ley| {
        return player == P1 && over;
      }
      w := player == P2 && over;
    }
  }
}
