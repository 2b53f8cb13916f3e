/**
 * The loop-based methods of `StonehengeState`, each proved to compute the
 * function of module Stonehenge that specifies it.
 */
module StateMethods {
  import opened Lists
  import opened Stonehenge

  /** `state_over`: count both players' ley-line markers in one pass. */
  method StateOver(s: State) returns (over: bool)
    ensures over == ThresholdReached(s)
  {
    var p1, p2 := 0, 0;
    for k := 0 to |s.leyLine|
      invariant p1 == Count(s.leyLine[..k], '1') && p2 == Count(s.leyLine[..k], '2')
    {
      assert s.leyLine[..k + 1][..k] == s.leyLine[..k];
      var i := s.leyLine[k];
      if i == '1' {
        p1 := p1 + 1;
      } else if i == '2' {
        p2 := p2 + 1;
      }
    }
    assert s.leyLine[..|s.leyLine|] == s.leyLine;
    over := 2 * p1 >= |s.leyLine| || 2 * p2 >= |s.leyLine|;
  }

  /** `get_possible_moves`: collect the unclaimed cells row by row, unless the game is over. */
  method GetPossibleMoves(s: State) returns (result: seq<char>)
    ensures result == Moves(s)
  {
    var over := StateOver(s);
    if over {
      return [];
    }
    result := [];
    for b := 0 to |s.lines|
      invariant result == FreeCells(s.lines[..b])
    {
      var line := s.lines[b];
      assert s.lines[..b + 1][..b] == s.lines[..b];
      for k := 0 to |line|
        invariant result == FreeCells(s.lines[..b]) + FreeIn(line[..k])
      {
        assert line[..k + 1][..k] == line[..k];
        var point := line[k];
        if point != '1' && point != '2' {
          result := result + [point];
        }
      }
      assert line[..|line|] == line;
    }
    assert s.lines[..|s.lines|] == s.lines;
  }

  /**
   * `help_add_ley_mark`: the new markers of family `num` given that family's
   * lines in `situation`, counting each line's marks in a loop.
   */
  method HelpAddLeyMark(s: State, situation: seq<Row>, num: int) returns (newLeyMark: seq<char>)
    requires 0 <= s.side && 0 <= num < 3 && |s.leyLine| == 3 * (s.side + 1) && |situation| > s.side
    ensures newLeyMark == FamilyMarks(s.leyLine, situation, num, s.side)
  {
    ghost var spec := FamilyMarks(s.leyLine, situation, num, s.side);
    var base := FamilyStart(num, s.side);
    newLeyMark := [];
    for line := 0 to s.side + 1
      invariant newLeyMark == spec[..line]
    {
      var p1, p2 := 0, 0;
      var cells := situation[line];
      for k := 0 to |cells|
        invariant p1 == Count(cells[..k], '1') && p2 == Count(cells[..k], '2')
      {
        assert cells[..k + 1][..k] == cells[..k];
        if cells[k] == '1' {
          p1 := p1 + 1;
        } else if cells[k] == '2' {
          p2 := p2 + 1;
        }
      }
      assert cells[..|cells|] == cells;
      var prev := s.leyLine[line + base];
      var mark;
      if prev == '1' {
        mark := '1';
      } else if prev == '2' {
        mark := '2';
      } else if p1 * 2 >= |Strip(cells)| {
        mark := '1';
      } else if p2 * 2 >= |Strip(cells)| {
        mark := '2';
      } else {
        mark := '@';
      }
      assert mark == Capture(prev, cells) == spec[line];
      assert spec[..line + 1] == spec[..line] + [mark];
      newLeyMark := newLeyMark + [mark];
    }
    assert spec[..s.side + 1] == spec;
  }

  /**
   * `help_complete_ley_mark`: mark the rows, then the right diagonals, then the
   * left diagonals, each family through HelpAddLeyMark.  The two diagonal
   * families are built by RightLeyLines and LeftLeyLines, which hold the
   * source's padding and column loops.
   */
  method HelpCompleteLeyMark(s: State, lines: seq<Row>) returns (complete: seq<char>)
    requires 0 < s.side && |s.leyLine| == 3 * (s.side + 1) && Shaped(lines, s.side)
    ensures complete == LeyMarks(s.leyLine, s.side, lines)
  {
    complete := HelpAddLeyMark(s, lines, 0);
    var leyRights := RightLeyLines(lines, s.side);
    var rights := HelpAddLeyMark(s, leyRights, 1);
    complete := complete + rights;
    var leyLefts := LeftLeyLines(lines, s.side);
    var lefts := HelpAddLeyMark(s, leyLefts, 2);
    complete := complete + lefts;
  }

  /**
   * The right ley-lines of `help_complete_ley_mark`: copy the board, shift its
   * last row right by one space, read off columns 0 .. side and strip them.
   * `lines` is a value, so padding the copy leaves the caller's board untouched.
   */
  method RightLeyLines(lines: seq<Row>, side: nat) returns (leyRights: seq<Row>)
    requires |lines| > 0
    ensures leyRights == RightFamily(lines, side)
  {
    var leyRight := lines;
    leyRight := leyRight[|leyRight| - 1 := [' '] + leyRight[|leyRight| - 1]];
    assert leyRight == RightPadded(lines);
    leyRights := [];
    for a := 0 to side + 1
      invariant |leyRights| == a
      invariant forall j :: 0 <= j < a ==> leyRights[j] == Strip(Column(leyRight, j))
    {
      var rn: Row := [];
      for j := 0 to |leyRight|
        invariant rn == Column(leyRight[..j], a)
      {
        assert leyRight[..j + 1][..j] == leyRight[..j];
        var l := leyRight[j];
        if a <= |l| - 1 {
          rn := rn + [l[a]];
        }
      }
      assert leyRight[..|leyRight|] == leyRight;
      leyRights := leyRights + [Strip(rn)];
    }
  }

  /**
   * The left padding of `help_complete_ley_mark`: copy the board, indent row
   * b by side - 1 - b spaces and add a space after the last row, so that every
   * row has side + 1 characters.
   */
  method PadLeft(lines: seq<Row>, side: nat) returns (leyLeft: seq<Row>)
    requires |lines| == side + 1
    ensures leyLeft == LeftPadded(lines, side)
  {
    leyLeft := lines;
    for b := 0 to side + 1
      invariant |leyLeft| == |lines|
      invariant forall i :: 0 <= i < b ==> leyLeft[i] == Spaces(side - 1 - i) + lines[i]
      invariant forall i :: b <= i < |lines| ==> leyLeft[i] == lines[i]
    {
      leyLeft := leyLeft[b := Spaces(side - 1 - b) + leyLeft[b]];
    }
    leyLeft := leyLeft[|leyLeft| - 1 := leyLeft[|leyLeft| - 1] + [' ']];
    forall i | 0 <= i <= side
      ensures leyLeft[i] == Spaces(side - 1 - i) + lines[i] + (if i == side then [' '] else [])
    {
      if i < side {
        assert Spaces(side - 1 - i) + lines[i] + [] == Spaces(side - 1 - i) + lines[i];
      }
    }
  }

  /**
   * The left ley-lines of `help_complete_ley_mark`: read off columns
   * 0 .. side of the left-padded board and strip them.
   */
  method LeftLeyLines(lines: seq<Row>, side: nat) returns (leyLefts: seq<Row>)
    requires Shaped(lines, side)
    ensures leyLefts == LeftFamily(lines, side)
  {
    var leyLeft := PadLeft(lines, side);
    LeftPaddedIsSquare(lines, side);
    leyLefts := [];
    for c := 0 to side + 1
      invariant |leyLefts| == c
      invariant forall j :: 0 <= j < c ==> leyLefts[j] == Strip(Column(leyLeft, j))
    {
      var ln: Row := [];
      for j := 0 to |leyLeft|
        invariant ln == Column(leyLeft[..j], c)
      {
        assert leyLeft[..j + 1][..j] == leyLeft[..j];
        ln := ln + [leyLeft[j][c]];
      }
      assert leyLeft[..|leyLeft|] == leyLeft;
      leyLefts := leyLefts + [Strip(ln)];
    }
  }

  /**
   * The board rebuild of `make_move`: every row is copied character by
   * character, with `move` replaced by the mark of the player to move.
   */
  method ClaimBoard(board: seq<Row>, move: char, p1Turn: bool) returns (lines: seq<Row>)
    ensures lines == ClaimAll(board, move, MarkOf(p1Turn))
  {
    ghost var mark := MarkOf(p1Turn);
    lines := [];
    for b := 0 to |board|
      invariant |lines| == b
      invariant forall i :: 0 <= i < b ==> lines[i] == Claim(board[i], move, mark)
    {
      var line := board[b];
      var nline: Row := [];
      for k := 0 to |line|
        invariant |nline| == k
        invariant forall j :: 0 <= j < k ==> nline[j] == if line[j] == move then mark else line[j]
      {
        var point := line[k];
        if point != move {
          nline := nline + [point];
        } else if p1Turn {
          nline := nline + ['1'];
        } else {
          nline := nline + ['2'];
        }
      }
      assert nline == Claim(line, move, mark);
      lines := lines + [nline];
    }
  }

  /**
   * `make_move`: a fresh position with the turn flipped, whose rows are the
   * rebuilt board and whose markers are recomputed from this position's
   * markers and the new board.
   */
  method MakeMove(s: State, move: char) returns (newState: State)
    requires WellFormed(s) && IsValidMove(s, move)
    ensures newState == Next(s, move)
  {
    newState := Init(!s.p1Turn, s.side);
    newState := newState.(lines := [], leyLine := []);
    var lines := ClaimBoard(s.lines, move, s.p1Turn);
    newState := newState.(lines := lines);
    assert Shaped(lines, s.side) by {
      forall b | 0 <= b < |lines| ensures |lines[b]| == RowLength(s.side, b) {
        assert lines[b] == Claim(s.lines[b], move, MarkOf(s.p1Turn));
      }
    }
    var ley := HelpCompleteLeyMark(s, lines);
    newState := newState.(leyLine := ley);
  }
}
