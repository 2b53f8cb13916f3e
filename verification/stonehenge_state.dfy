/**
 * The Stonehenge position (`StonehengeState`) as an immutable value, and the
 * functions that specify its operations: the board tables, the possible moves,
 * the move transition, the ley-line capture rule and the two-ply estimate.
 *
 * A board is a list of rows; every character of a row is either the label of
 * an unclaimed cell ('A' .. 'Y') or the mark of its owner ('1' or '2').  The
 * ley-line vector holds one marker per ley-line: '@' while uncaptured, then
 * the owner's mark for good.
 */
module Stonehenge {
  import opened Lists

  /** Scores of a position for the player about to move in it. */
  const WIN := 1
  const LOSE := -1
  const DRAW := 0

  type Row = seq<char>

  datatype Player = P1 | P2

  /**
   * p1Turn: whether player 1 moves next; side: the side length (1 .. 5);
   * lines: the board rows; leyLine: the 3 * (side + 1) ley-line markers
   * (rows first, then the right diagonals, then the left diagonals).
   */
  datatype State = State(p1Turn: bool, side: int, lines: seq<Row>, leyLine: seq<char>)

  predicate IsMark(c: char) { c == '1' || c == '2' }

  /** The mark a move writes: '1' on player 1's turn, '2' otherwise. */
  function MarkOf(p1Turn: bool): (c: char)
    ensures IsMark(c)
    ensures (c == '1') == p1Turn
  {
    if p1Turn then '1' else '2'
  }

  /** Length of row `b` on a board of side `side`: rows grow from 2 cells, the last row has `side`. */
  function RowLength(side: int, b: int): int
  {
    if b < side then b + 2 else side
  }

  /** Rows with exactly the lengths of the board of side `side`. */
  predicate Shaped(lines: seq<Row>, side: int)
  {
    && |lines| == side + 1
    && forall b :: 0 <= b < |lines| ==> |lines[b]| == RowLength(side, b)
  }

  /** The fixed cell tables for side lengths 1 to 5. */
  function Layout(side: int): (rows: seq<Row>)
    requires 0 < side < 6
    ensures Shaped(rows, side)
  {
    if side == 1 then ["AB", "C"]
    else if side == 2 then ["AB", "CDE", "FG"]
    else if side == 3 then ["AB", "CDE", "FGHI", "JKL"]
    else if side == 4 then ["AB", "CDE", "FGHI", "JKLMN", "OPQR"]
    else ["AB", "CDE", "FGHI", "JKLMN", "OPQRST", "UVWXY"]
  }

  /**
   * The invariant every position of a game keeps: a side length in range,
   * the board of that side in which each cell shows its own label or an
   * owner mark, and one marker in "@12" for each of the 3 * (side + 1) ley-lines.
   */
  predicate WellFormed(s: State)
  {
    && 0 < s.side < 6
    && Shaped(s.lines, s.side)
    && (forall b, k :: 0 <= b < |s.lines| && 0 <= k < |s.lines[b]| ==>
          IsMark(s.lines[b][k]) || s.lines[b][k] == Layout(s.side)[b][k])
    && |s.leyLine| == 3 * (s.side + 1)
    && (forall i :: 0 <= i < |s.leyLine| ==> s.leyLine[i] in "@12")
  }

  /** A new game: the board of side `side`, every cell unclaimed, every ley-line uncaptured. */
  function Init(isP1Turn: bool, side: int): (s: State)
    requires 0 < side < 6
    ensures WellFormed(s)
    ensures s.p1Turn == isP1Turn && s.side == side
    ensures |s.leyLine| == 3 * (side + 1) && forall i :: 0 <= i < |s.leyLine| ==> s.leyLine[i] == '@'
  {
    State(isP1Turn, side, Layout(side), seq(3 * (side + 1), _ => '@'))
  }

  /** `get_current_player_name`: player 1 exactly on player 1's turn. */
  function CurrentPlayer(s: State): (p: Player)
    ensures p == P1 <==> s.p1Turn
  {
    if s.p1Turn then P1 else P2
  }

  // ---------------------------------------------------------------------------
  // Game over by ley-lines (`state_over`)

  /** `state_over`: either player holds at least half of the ley-line markers. */
  predicate ThresholdReached(s: State)
  {
    2 * Count(s.leyLine, '1') >= |s.leyLine| || 2 * Count(s.leyLine, '2') >= |s.leyLine|
  }

  // ---------------------------------------------------------------------------
  // Possible moves

  /** The unclaimed cells of one row, left to right. */
  function FreeIn(row: Row): (r: seq<char>)
  {
    if row == [] then []
    else FreeIn(row[..|row| - 1]) + (if IsMark(row[|row| - 1]) then [] else [row[|row| - 1]])
  }

  /** The unclaimed cells of a board, row by row, left to right. */
  function FreeCells(lines: seq<Row>): (r: seq<char>)
  {
    if lines == [] then [] else FreeCells(lines[..|lines| - 1]) + FreeIn(lines[|lines| - 1])
  }

  /** How many unclaimed cells the board has: the measure every move decreases. */
  function NumFree(s: State): nat
  {
    |FreeCells(s.lines)|
  }

  /** `get_possible_moves`: nothing once the threshold is reached, else every unclaimed cell in board order. */
  function Moves(s: State): (r: seq<char>)
  {
    if ThresholdReached(s) then [] else FreeCells(s.lines)
  }

  /** `is_valid_move`: the move is one of the possible moves. */
  predicate IsValidMove(s: State, move: char)
  {
    move in Moves(s)
  }

  // ---------------------------------------------------------------------------
  // Claiming a cell

  /** One row with every occurrence of `move` replaced by `mark`. */
  function Claim(row: Row, move: char, mark: char): (r: Row)
  {
    seq(|row|, k requires 0 <= k < |row| => if row[k] == move then mark else row[k])
  }

  function ClaimAll(lines: seq<Row>, move: char, mark: char): (r: seq<Row>)
  {
    seq(|lines|, b requires 0 <= b < |lines| => Claim(lines[b], move, mark))
  }

  // ---------------------------------------------------------------------------
  // Ley-lines

  /** The whitespace Python's `str.strip` removes that can occur here. */
  predicate IsSpace(c: char)
  {
    c == ' ' || c == '\t' || c == '\n' || c == '\r'
  }

  function StripLeft(s: seq<char>): seq<char>
  {
    if s != [] && IsSpace(s[0]) then StripLeft(s[1..]) else s
  }

  function StripRight(s: seq<char>): seq<char>
  {
    if s != [] && IsSpace(s[|s| - 1]) then StripRight(s[..|s| - 1]) else s
  }

  /** Python's `str.strip()`. */
  function Strip(s: seq<char>): seq<char>
  {
    StripRight(StripLeft(s))
  }

  /** Python's `' ' * n`: empty when `n` is not positive. */
  function Spaces(n: int): (r: Row)
    ensures |r| == if n <= 0 then 0 else n
    ensures forall k :: 0 <= k < |r| ==> r[k] == ' '
  {
    if n <= 0 then [] else seq(n, _ => ' ')
  }

  /** The characters at index `a` of the rows long enough to have one, top to bottom. */
  function Column(rows: seq<Row>, a: int): Row
  {
    if rows == [] then []
    else
      var last := rows[|rows| - 1];
      Column(rows[..|rows| - 1], a) + (if 0 <= a < |last| then [last[a]] else [])
  }

  /** The copy of the board whose last row is shifted right by one space. */
  function RightPadded(lines: seq<Row>): seq<Row>
    requires |lines| > 0
  {
    lines[|lines| - 1 := [' '] + lines[|lines| - 1]]
  }

  /** The `side + 1` right ley-lines: the stripped columns of the right-padded board. */
  function RightFamily(lines: seq<Row>, side: nat): seq<Row>
    requires |lines| > 0
  {
    seq(side + 1, a => Strip(Column(RightPadded(lines), a)))
  }

  /** The copy of the board with row `b` indented by `side - 1 - b` spaces and a space after the last row. */
  function LeftPadded(lines: seq<Row>, side: nat): seq<Row>
    requires |lines| == side + 1
  {
    seq(side + 1, b requires 0 <= b <= side =>
      Spaces(side - 1 - b) + lines[b] + (if b == side then [' '] else []))
  }

  /** Every row of the left-padded board has `side + 1` characters. */
  lemma LeftPaddedIsSquare(lines: seq<Row>, side: nat)
    requires Shaped(lines, side)
    ensures forall b :: 0 <= b <= side ==> |LeftPadded(lines, side)[b]| == side + 1
  {
    forall b | 0 <= b <= side ensures |LeftPadded(lines, side)[b]| == side + 1 {
      assert LeftPadded(lines, side)[b] == Spaces(side - 1 - b) + lines[b] + (if b == side then [' '] else []);
      assert |lines[b]| == RowLength(side, b);
    }
  }

  /** The `side + 1` left ley-lines: the stripped columns of the left-padded board. */
  function LeftFamily(lines: seq<Row>, side: nat): seq<Row>
    requires |lines| == side + 1
  {
    seq(side + 1, c => Strip(Column(LeftPadded(lines, side), c)))
  }

  /** All ley-lines in marker order: the rows, the right family, the left family. */
  function LeyLines(lines: seq<Row>, side: nat): (r: seq<Row>)
    requires |lines| == side + 1
  {
    lines + RightFamily(lines, side) + LeftFamily(lines, side)
  }

  /**
   * The capture rule for one ley-line: a captured marker stays; otherwise the
   * line goes to player 1 if it owns at least half of the line's cells, else to
   * player 2 under the same test, else it stays uncaptured.
   */
  function Capture(prev: char, line: Row): char
  {
    if prev == '1' then '1'
    else if prev == '2' then '2'
    else if 2 * Count(line, '1') >= |Strip(line)| then '1'
    else if 2 * Count(line, '2') >= |Strip(line)| then '2'
    else '@'
  }

  /** Index of the first marker of family `num` in the marker vector. */
  function FamilyStart(num: int, side: nat): (r: nat)
    requires 0 <= num < 3
    ensures r == if num == 0 then 0 else if num == 1 then side + 1 else 2 * (side + 1)
  {
    num * (side + 1)
  }

  /** The new markers of family `num` (`help_add_ley_mark`), from the old vector and the family's lines. */
  function FamilyMarks(prevs: seq<char>, situation: seq<Row>, num: int, side: nat): (r: seq<char>)
    requires 0 <= num < 3 && |prevs| == 3 * (side + 1) && |situation| > side
    ensures |r| == side + 1
    ensures forall line :: 0 <= line <= side ==>
      r[line] == Capture(prevs[line + FamilyStart(num, side)], situation[line])
  {
    seq(side + 1, line requires 0 <= line <= side =>
      Capture(prevs[line + FamilyStart(num, side)], situation[line]))
  }

  /** The whole new marker vector for board `lines` (`help_complete_ley_mark`). */
  function LeyMarks(prevs: seq<char>, side: nat, lines: seq<Row>): (r: seq<char>)
    requires |prevs| == 3 * (side + 1) && |lines| == side + 1
    ensures |r| == 3 * (side + 1)
  {
    FamilyMarks(prevs, lines, 0, side)
      + FamilyMarks(prevs, RightFamily(lines, side), 1, side)
      + FamilyMarks(prevs, LeftFamily(lines, side), 2, side)
  }

  /**
   * Marker i of the new vector is the capture rule applied to old marker i and
   * ley-line i, rows first, then right diagonals, then left diagonals.
   */
  lemma LeyMarksCapture(prevs: seq<char>, side: nat, lines: seq<Row>)
    requires |prevs| == 3 * (side + 1) && |lines| == side + 1
    ensures |LeyLines(lines, side)| == |LeyMarks(prevs, side, lines)|
    ensures forall i :: 0 <= i < |LeyMarks(prevs, side, lines)| ==>
      LeyMarks(prevs, side, lines)[i] == Capture(prevs[i], LeyLines(lines, side)[i])
  {
    var n := side + 1;
    var rows := FamilyMarks(prevs, lines, 0, side);
    var right := FamilyMarks(prevs, RightFamily(lines, side), 1, side);
    var left := FamilyMarks(prevs, LeftFamily(lines, side), 2, side);
    var r := LeyMarks(prevs, side, lines);
    var all := LeyLines(lines, side);
    assert r == rows + right + left;
    forall i | 0 <= i < |r| ensures r[i] == Capture(prevs[i], all[i]) {
      if i < n {
        assert r[i] == rows[i] && all[i] == lines[i];
      } else if i < 2 * n {
        assert r[i] == right[i - n] && all[i] == RightFamily(lines, side)[i - n];
      } else {
        assert r[i] == left[i - 2 * n] && all[i] == LeftFamily(lines, side)[i - 2 * n];
      }
    }
  }

  // ---------------------------------------------------------------------------
  // The move transition (`make_move`)

  /**
   * The position after the player to move claims `move`: the turn passes, every
   * cell labelled `move` takes the mover's mark, and the ley-line markers are
   * recomputed from the old markers and the new board.  The result is again a
   * well-formed position with strictly fewer unclaimed cells.
   */
  function Next(s: State, move: char): (r: State)
    requires WellFormed(s) && IsValidMove(s, move)
    ensures WellFormed(r)
    ensures NumFree(r) < NumFree(s)
  {
    var lines := ClaimAll(s.lines, move, MarkOf(s.p1Turn));
    var r := State(!s.p1Turn, s.side, lines, LeyMarks(s.leyLine, s.side, lines));
    ClaimKeepsWellFormed(s, move);
    ClaimReducesFree(s.lines, move, MarkOf(s.p1Turn));
    r
  }

  lemma ClaimKeepsWellFormed(s: State, move: char)
    requires WellFormed(s)
    ensures var lines := ClaimAll(s.lines, move, MarkOf(s.p1Turn));
      WellFormed(State(!s.p1Turn, s.side, lines, LeyMarks(s.leyLine, s.side, lines)))
  {
    var mark := MarkOf(s.p1Turn);
    var lines := ClaimAll(s.lines, move, mark);
    forall b | 0 <= b < |lines| ensures |lines[b]| == RowLength(s.side, b) {
      assert lines[b] == Claim(s.lines[b], move, mark);
    }
    assert Shaped(lines, s.side);
    forall b, k | 0 <= b < |lines| && 0 <= k < |lines[b]|
      ensures IsMark(lines[b][k]) || lines[b][k] == Layout(s.side)[b][k]
    {
      assert lines[b][k] == if s.lines[b][k] == move then mark else s.lines[b][k];
    }
    LeyMarksAreMarkers(s.leyLine, s.side, lines);
  }

  lemma LeyMarksAreMarkers(prevs: seq<char>, side: nat, lines: seq<Row>)
    requires |prevs| == 3 * (side + 1) && |lines| == side + 1
    ensures forall i :: 0 <= i < |LeyMarks(prevs, side, lines)| ==> LeyMarks(prevs, side, lines)[i] in "@12"
  {
    var ley := LeyMarks(prevs, side, lines);
    LeyMarksCapture(prevs, side, lines);
    forall i | 0 <= i < |ley| ensures ley[i] in "@12" {
      var c := Capture(prevs[i], LeyLines(lines, side)[i]);
      assert ley[i] == c;
      assert c == '1' || c == '2' || c == '@';
    }
  }

  /** Claiming a cell of a row never adds unclaimed cells, and removes one where the row offers `move`. */
  lemma {:induction false} ClaimRowReducesFree(row: Row, move: char, mark: char)
    requires IsMark(mark)
    ensures |FreeIn(Claim(row, move, mark))| + (if move in FreeIn(row) then 1 else 0) <= |FreeIn(row)|
    decreases |row|
  {
    if row != [] {
      var init := row[..|row| - 1];
      var c := Claim(row, move, mark);
      assert c[..|c| - 1] == Claim(init, move, mark);
      ClaimRowReducesFree(init, move, mark);
    }
  }

  lemma {:induction false} ClaimReducesFree(lines: seq<Row>, move: char, mark: char)
    requires IsMark(mark)
    ensures |FreeCells(ClaimAll(lines, move, mark))| + (if move in FreeCells(lines) then 1 else 0)
      <= |FreeCells(lines)|
    decreases |lines|
  {
    if lines != [] {
      var init := lines[..|lines| - 1];
      var c := ClaimAll(lines, move, mark);
      assert c[..|c| - 1] == ClaimAll(init, move, mark);
      ClaimReducesFree(init, move, mark);
      ClaimRowReducesFree(lines[|lines| - 1], move, mark);
    }
  }

  // ---------------------------------------------------------------------------
  // The two-ply estimate (`rough_outcome`)

  /** The player to move can reach the ley-line threshold with one move. */
  predicate CanReachThreshold(s: State)
    requires WellFormed(s)
  {
    exists m :: m in Moves(s) && ThresholdReached(Next(s, m))
  }

  /** `[s.make_move(c) for c in s.get_possible_moves()]`: the positions one move away, in move order. */
  function NextAll(s: State): (r: seq<State>)
    requires WellFormed(s)
    ensures |r| == |Moves(s)|
    ensures forall i :: 0 <= i < |r| ==> WellFormed(r[i])
  {
    seq(|Moves(s)|, i requires 0 <= i < |Moves(s)| => Next(s, Moves(s)[i]))
  }

  /** `[d.state_over() for d in states]`. */
  function OverFlags(states: seq<State>): (r: seq<bool>)
    ensures |r| == |states|
  {
    seq(|states|, i requires 0 <= i < |states| => ThresholdReached(states[i]))
  }

  /**
   * The list `result` of `rough_outcome`: for each position one move away,
   * whether none of the moves from it reaches the threshold.
   */
  function SafeFlags(states: seq<State>): (r: seq<bool>)
    requires forall i :: 0 <= i < |states| ==> WellFormed(states[i])
    ensures |r| == |states|
  {
    seq(|states|, i requires 0 <= i < |states| => !Any(OverFlags(NextAll(states[i]))))
  }

  /**
   * `rough_outcome`: LOSE if the threshold is already reached; WIN if one of
   * the positions one move away has reached it; DRAW if from one of them no
   * move reaches it; LOSE otherwise.
   */
  function RoughOutcome(s: State): (r: int)
    requires WellFormed(s)
    ensures r == WIN || r == DRAW || r == LOSE
  {
    if ThresholdReached(s) then LOSE
    else
      var next := NextAll(s);
      if Any(OverFlags(next)) then WIN
      else if Any(SafeFlags(next)) then DRAW
      else LOSE
  }
}
