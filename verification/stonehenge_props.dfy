/**
 * Properties of the Stonehenge position functions: which cells are possible
 * moves, what a move changes, the permanence of captured ley-lines, and the
 * smallest board worked through by hand.
 */
module StonehengeProps {
  import opened Lists
  import opened Stonehenge

  /** A row offers `c` exactly when `c` occurs in it and is not an owner mark. */
  lemma {:induction false} FreeInIff(row: Row, c: char)
    ensures c in FreeIn(row) <==> c in row && !IsMark(c)
    decreases |row|
  {
    if row != [] {
      var init := row[..|row| - 1];
      FreeInIff(init, c);
      assert row == init + [row[|row| - 1]];
    }
  }

  /** A board offers `c` exactly when some row shows `c` and `c` is not an owner mark. */
  lemma {:induction false} FreeCellsIff(lines: seq<Row>, c: char)
    ensures c in FreeCells(lines) <==> !IsMark(c) && exists b :: 0 <= b < |lines| && c in lines[b]
    decreases |lines|
  {
    if lines != [] {
      var init := lines[..|lines| - 1];
      var last := lines[|lines| - 1];
      FreeCellsIff(init, c);
      FreeInIff(last, c);
      if c in FreeCells(lines) {
        if c in FreeCells(init) {
          var b :| 0 <= b < |init| && c in init[b];
          assert lines[b] == init[b];
        } else {
          assert c in FreeIn(last);
        }
      }
      if !IsMark(c) && exists b :: 0 <= b < |lines| && c in lines[b] {
        var b :| 0 <= b < |lines| && c in lines[b];
        if b < |init| {
          assert init[b] == lines[b];
        }
      }
    }
  }

  /**
   * `get_possible_moves`: `c` is a possible move exactly when nobody has reached
   * the ley-line threshold and `c` labels an unclaimed cell of the board.
   */
  lemma MovesIff(s: State, c: char)
    ensures c in Moves(s) <==> !ThresholdReached(s) && !IsMark(c) && exists b :: 0 <= b < |s.lines| && c in s.lines[b]
  {
    FreeCellsIff(s.lines, c);
  }

  /**
   * `make_move`: the turn passes to the other player, the side is kept, the
   * claimed cell shows the mover's mark, every other cell is unchanged, and the
   * claimed cell is no longer a possible move.
   */
  lemma NextClaims(s: State, m: char)
    requires WellFormed(s) && IsValidMove(s, m)
    ensures Next(s, m).p1Turn == !s.p1Turn && Next(s, m).side == s.side
    ensures CurrentPlayer(Next(s, m)) != CurrentPlayer(s)
    ensures |Next(s, m).lines| == |s.lines|
    ensures forall b :: 0 <= b < |s.lines| ==> |Next(s, m).lines[b]| == |s.lines[b]|
    ensures forall b, k :: 0 <= b < |s.lines| && 0 <= k < |s.lines[b]| ==>
      Next(s, m).lines[b][k] == (if s.lines[b][k] == m then MarkOf(s.p1Turn) else s.lines[b][k])
    ensures m !in Moves(Next(s, m))
  {
    var r := Next(s, m);
    forall b | 0 <= b < |s.lines| ensures |r.lines[b]| == |s.lines[b]| && m !in r.lines[b] {
      assert r.lines[b] == Claim(s.lines[b], m, MarkOf(s.p1Turn));
      MovesIff(s, m);
    }
    MovesIff(r, m);
  }

  /** A move removes no other possible move, unless it ends the game by the threshold. */
  lemma NextKeepsOtherMoves(s: State, m: char, c: char)
    requires WellFormed(s) && IsValidMove(s, m)
    requires c in Moves(s) && c != m && !ThresholdReached(Next(s, m))
    ensures c in Moves(Next(s, m))
  {
    var r := Next(s, m);
    MovesIff(s, c);
    var b :| 0 <= b < |s.lines| && c in s.lines[b];
    var k :| 0 <= k < |s.lines[b]| && s.lines[b][k] == c;
    NextClaims(s, m);
    assert r.lines[b][k] == c;
    MovesIff(r, c);
  }

  /** `make_move` never gives back a captured ley-line: a marker '1' or '2' is kept by the next position. */
  lemma CapturePermanent(s: State, m: char)
    requires WellFormed(s) && IsValidMove(s, m)
    ensures forall i :: 0 <= i < |s.leyLine| && IsMark(s.leyLine[i]) ==> Next(s, m).leyLine[i] == s.leyLine[i]
  {
    var lines := ClaimAll(s.lines, m, MarkOf(s.p1Turn));
    LeyMarksCapture(s.leyLine, s.side, lines);
  }

  /**
   * `state_over` counted by multiplicity: either player's markers make up at
   * least half of the vector.  With any markers at all, the threshold needs a
   * captured ley-line.
   */
  lemma ThresholdByMultiplicity(s: State)
    ensures ThresholdReached(s) <==>
      2 * multiset(s.leyLine)['1'] >= |s.leyLine| || 2 * multiset(s.leyLine)['2'] >= |s.leyLine|
    ensures ThresholdReached(s) && s.leyLine != [] ==> '1' in s.leyLine || '2' in s.leyLine
  {
    CountIsMultiplicity(s.leyLine, '1');
    CountIsMultiplicity(s.leyLine, '2');
  }

  /**
   * The capture rule: a captured marker is kept and the result is always a
   * marker.  An uncaptured line goes to player 1 exactly when player 1 owns at
   * least half of its non-blank cells, and to player 2 exactly when player 1
   * does not and player 2 does.
   */
  lemma CaptureRule(prev: char, line: Row)
    ensures IsMark(prev) ==> Capture(prev, line) == prev
    ensures Capture(prev, line) in "@12"
    ensures !IsMark(prev) ==> (Capture(prev, line) == '1' <==> 2 * multiset(line)['1'] >= |Strip(line)|)
    ensures !IsMark(prev) ==>
      (Capture(prev, line) == '2' <==> 2 * multiset(line)['1'] < |Strip(line)| <= 2 * multiset(line)['2'])
  {
    CountIsMultiplicity(line, '1');
    CountIsMultiplicity(line, '2');
  }

  /** Within one family, the new markers keep every captured marker and are all markers. */
  lemma FamilyMarksKeepsCaptures(prevs: seq<char>, situation: seq<Row>, num: int, side: nat)
    requires 0 <= num < 3 && |prevs| == 3 * (side + 1) && |situation| > side
    ensures forall line :: 0 <= line <= side && IsMark(prevs[line + FamilyStart(num, side)]) ==>
      FamilyMarks(prevs, situation, num, side)[line] == prevs[line + FamilyStart(num, side)]
    ensures forall line :: 0 <= line <= side ==> FamilyMarks(prevs, situation, num, side)[line] in "@12"
  {
    forall line | 0 <= line <= side
      ensures FamilyMarks(prevs, situation, num, side)[line] in "@12"
    {
      CaptureRule(prevs[line + FamilyStart(num, side)], situation[line]);
    }
  }

  /** `str.strip` keeps every non-blank character. */
  lemma {:induction false} StripLeftKeeps(s: seq<char>, c: char)
    requires c in s && !IsSpace(c)
    ensures c in StripLeft(s)
    decreases |s|
  {
    if s != [] && IsSpace(s[0]) {
      assert s == [s[0]] + s[1..];
      StripLeftKeeps(s[1..], c);
    }
  }

  lemma {:induction false} StripRightKeeps(s: seq<char>, c: char)
    requires c in s && !IsSpace(c)
    ensures c in StripRight(s)
    decreases |s|
  {
    if s != [] && IsSpace(s[|s| - 1]) {
      assert s == s[..|s| - 1] + [s[|s| - 1]];
      StripRightKeeps(s[..|s| - 1], c);
    }
  }

  lemma StripKeeps(s: seq<char>, c: char)
    requires c in s && !IsSpace(c)
    ensures c in Strip(s)
  {
    StripLeftKeeps(s, c);
    StripRightKeeps(StripLeft(s), c);
  }

  /** Column `a` holds the character at index `a` of every row long enough to have one. */
  lemma {:induction false} ColumnHolds(rows: seq<Row>, a: int, b: int)
    requires 0 <= b < |rows| && 0 <= a < |rows[b]|
    ensures rows[b][a] in Column(rows, a)
    decreases |rows|
  {
    if b < |rows| - 1 {
      ColumnHolds(rows[..|rows| - 1], a, b);
    }
  }

  /** The line holds a cell, that is a character that is not blank. */
  predicate HasCell(line: seq<char>)
  {
    exists ch :: ch in line && !IsSpace(ch)
  }

  /**
   * On a board of non-blank cells, every right and left diagonal keeps a cell
   * after stripping: right column `a` meets row 0 (for `a` <= 1) or row `a - 1`, left
   * column `c` meets the last row (for `c` < side) or the row before it.
   */
  lemma DiagonalsNonEmpty(lines: seq<Row>, side: nat)
    requires 0 < side && Shaped(lines, side)
    requires forall b, k :: 0 <= b < |lines| && 0 <= k < |lines[b]| ==> !IsSpace(lines[b][k])
    ensures forall a :: 0 <= a <= side ==> HasCell(RightFamily(lines, side)[a])
    ensures forall c :: 0 <= c <= side ==> HasCell(LeftFamily(lines, side)[c])
  {
    var rp := RightPadded(lines);
    forall a | 0 <= a <= side ensures HasCell(RightFamily(lines, side)[a]) {
      var b := if a <= 1 then 0 else a - 1;
      assert rp[b] == lines[b];
      ColumnHolds(rp, a, b);
      StripKeeps(Column(rp, a), lines[b][a]);
      assert lines[b][a] in RightFamily(lines, side)[a];
    }
    var lp := LeftPadded(lines, side);
    forall c | 0 <= c <= side ensures HasCell(LeftFamily(lines, side)[c]) {
      if c < side {
        assert lp[side] == Spaces(-1) + lines[side] + [' '];
        assert Spaces(-1) + lines[side] + [' '] == lines[side] + [' '];
        ColumnHolds(lp, c, side);
        StripKeeps(Column(lp, c), lines[side][c]);
        assert lines[side][c] in LeftFamily(lines, side)[c];
      } else {
        assert lp[side - 1] == Spaces(0) + lines[side - 1] + [];
        assert Spaces(0) + lines[side - 1] + [] == lines[side - 1];
        ColumnHolds(lp, c, side - 1);
        StripKeeps(Column(lp, c), lines[side - 1][c]);
        assert lines[side - 1][c] in LeftFamily(lines, side)[c];
      }
    }
  }

  /** The cell tables hold only the labels `A` to `Y`. */
  lemma LayoutLabels(side: int)
    requires 0 < side < 6
    ensures forall b, k :: 0 <= b < |Layout(side)| && 0 <= k < |Layout(side)[b]| ==> 'A' <= Layout(side)[b][k] <= 'Y'
  {
  }

  /** Every ley-line of a position keeps a cell after stripping. */
  lemma LeyLinesHaveCells(s: State)
    requires WellFormed(s)
    ensures |LeyLines(s.lines, s.side)| == |s.leyLine|
    ensures forall i :: 0 <= i < |s.leyLine| ==> Strip(LeyLines(s.lines, s.side)[i]) != []
  {
    LayoutLabels(s.side);
    var lines := s.lines;
    var side := s.side;
    DiagonalsNonEmpty(lines, side);
    var all := LeyLines(lines, side);
    var n := side + 1;
    forall i | 0 <= i < |s.leyLine| ensures Strip(all[i]) != [] {
      var ch: char;
      if i < n {
        assert all[i] == lines[i];
        ch := lines[i][0];
      } else if i < 2 * n {
        assert all[i] == RightFamily(lines, side)[i - n];
        ch :| ch in RightFamily(lines, side)[i - n] && !IsSpace(ch);
      } else {
        assert all[i] == LeftFamily(lines, side)[i - 2 * n];
        ch :| ch in LeftFamily(lines, side)[i - 2 * n] && !IsSpace(ch);
      }
      StripKeeps(all[i], ch);
    }
  }

  /**
   * A ley-line that a move newly captures holds a cell of the capturing
   * player: an empty or unowned line is never captured.
   */
  lemma CaptureNeedsCell(s: State, m: char)
    requires WellFormed(s) && IsValidMove(s, m)
    ensures forall i :: 0 <= i < |s.leyLine| && !IsMark(s.leyLine[i]) && IsMark(Next(s, m).leyLine[i]) ==>
      Next(s, m).leyLine[i] in LeyLines(Next(s, m).lines, s.side)[i]
  {
    var t := Next(s, m);
    var lines := t.lines;
    LeyMarksCapture(s.leyLine, s.side, lines);
    LeyLinesHaveCells(t);
    forall i | 0 <= i < |s.leyLine| && !IsMark(s.leyLine[i]) && IsMark(t.leyLine[i])
      ensures t.leyLine[i] in LeyLines(lines, s.side)[i]
    {
      var line := LeyLines(lines, s.side)[i];
      CaptureRule(s.leyLine[i], line);
      CountIsMultiplicity(line, t.leyLine[i]);
    }
  }

  /** Some position one move away has reached the threshold exactly when a move reaches it. */
  lemma AnyChildOverIff(s: State)
    requires WellFormed(s)
    ensures Any(OverFlags(NextAll(s))) <==> CanReachThreshold(s)
  {
    var next := NextAll(s);
    var flags := OverFlags(next);
    AnyIff(flags);
    if CanReachThreshold(s) {
      var m :| m in Moves(s) && ThresholdReached(Next(s, m));
      var i :| 0 <= i < |Moves(s)| && Moves(s)[i] == m;
      assert next[i] == Next(s, m);
      assert flags[i];
    }
    if Any(flags) {
      var i :| 0 <= i < |flags| && flags[i];
      assert next[i] == Next(s, Moves(s)[i]);
    }
  }

  /**
   * `rough_outcome` is WIN exactly when the threshold is not yet reached and
   * the player to move can reach it with one move.
   */
  lemma RoughOutcomeWin(s: State)
    requires WellFormed(s)
    ensures RoughOutcome(s) == WIN <==> !ThresholdReached(s) && CanReachThreshold(s)
  {
    AnyChildOverIff(s);
  }

  /**
   * `rough_outcome` is DRAW exactly when the threshold is not reached, no move
   * reaches it, and some move leaves the opponent unable to reach it at once.
   */
  lemma RoughOutcomeDraw(s: State)
    requires WellFormed(s)
    ensures RoughOutcome(s) == DRAW <==>
      && !ThresholdReached(s) && !CanReachThreshold(s)
      && exists m :: m in Moves(s) && !CanReachThreshold(Next(s, m))
  {
    var next := NextAll(s);
    var safe := SafeFlags(next);
    AnyChildOverIff(s);
    AnyIff(safe);
    if exists m :: m in Moves(s) && !CanReachThreshold(Next(s, m)) {
      var m :| m in Moves(s) && !CanReachThreshold(Next(s, m));
      var i :| 0 <= i < |Moves(s)| && Moves(s)[i] == m;
      assert next[i] == Next(s, m);
      AnyChildOverIff(next[i]);
      assert safe[i];
    }
    if Any(safe) {
      var i :| 0 <= i < |safe| && safe[i];
      assert next[i] == Next(s, Moves(s)[i]);
      AnyChildOverIff(next[i]);
    }
  }

  /**
   * `rough_outcome` is LOSE exactly when the threshold is already reached, or
   * no move reaches it and every move lets the opponent reach it at once.
   */
  lemma RoughOutcomeLose(s: State)
    requires WellFormed(s)
    ensures RoughOutcome(s) == LOSE <==>
      ThresholdReached(s)
      || (!CanReachThreshold(s) && forall m :: m in Moves(s) ==> CanReachThreshold(Next(s, m)))
  {
    RoughOutcomeWin(s);
    RoughOutcomeDraw(s);
  }

  /** The board of side 1: cells A, B, C, all ley-lines uncaptured, three possible moves. */
  lemma SideOneStart()
    ensures Init(true, 1).lines == ["AB", "C"]
    ensures Init(true, 1).leyLine == "@@@@@@"
    ensures !ThresholdReached(Init(true, 1))
  {
    var s := Init(true, 1);
    assert s.leyLine == "@@@@@@";
    CountIsMultiplicity(s.leyLine, '1');
    CountIsMultiplicity(s.leyLine, '2');
  }

  lemma SideOneFreeCells()
    ensures FreeCells(["AB", "C"]) == "ABC"
  {
    assert "AB"[..1] == "A" && "A"[..0] == [];
    assert FreeIn("AB") == "AB";
    assert FreeIn("C") == "C" by {
      assert "C"[..0] == [];
    }
    assert ["AB", "C"][..1] == ["AB"] && ["AB"][..0] == [];
  }

  lemma SideOneMoves()
    ensures Moves(Init(true, 1)) == "ABC"
  {
    SideOneStart();
    SideOneFreeCells();
  }

  lemma SideOneBoardAfterA()
    ensures ClaimAll(["AB", "C"], 'A', '1') == ["1B", "C"]
  {
    assert Claim("AB", 'A', '1') == "1B";
    assert Claim("C", 'A', '1') == "C";
  }

  lemma SideOneRightAfterA()
    ensures RightFamily(["1B", "C"], 1) == ["1", "BC"]
  {
    var padded := RightPadded(["1B", "C"]);
    assert [' '] + "C" == " C";
    assert |padded| == 2 && padded[0] == "1B" && padded[1] == " C";
    assert Column(padded, 0) == "1 " by {
      assert padded[..1] == ["1B"];
    }
    assert Column(padded, 1) == "BC" by {
      assert padded[..1] == ["1B"];
    }
    assert StripLeft("1 ") == "1 ";
    assert StripRight("1 ") == "1";
    assert StripLeft("BC") == "BC" && StripRight("BC") == "BC";
  }

  lemma SideOneLeftAfterA()
    ensures LeftFamily(["1B", "C"], 1) == ["1C", "B"]
  {
    var padded := LeftPadded(["1B", "C"], 1);
    assert padded[0] == Spaces(0) + "1B" + [];
    assert padded[1] == Spaces(-1) + "C" + [' '];
    assert Spaces(0) + "1B" + [] == "1B";
    assert Spaces(-1) + "C" + [' '] == "C ";
    assert |padded| == 2 && padded[0] == "1B" && padded[1] == "C ";
    assert Column(padded, 0) == "1C" by {
      assert padded[..1] == ["1B"];
    }
    assert Column(padded, 1) == "B " by {
      assert padded[..1] == ["1B"];
    }
    assert StripLeft("1C") == "1C" && StripRight("1C") == "1C";
    assert StripLeft("B ") == "B ";
    assert StripRight("B ") == "B";
  }

  lemma SideOneCapturesAfterA()
    ensures Capture('@', "1B") == '1' && Capture('@', "C") == '@'
    ensures Capture('@', "1") == '1' && Capture('@', "BC") == '@'
    ensures Capture('@', "1C") == '1' && Capture('@', "B") == '@'
  {
    assert Strip("1B") == "1B" && Strip("C") == "C" && Strip("1") == "1";
    assert Strip("BC") == "BC" && Strip("1C") == "1C" && Strip("B") == "B";
  }

  lemma SideOneFamiliesAfterA()
    ensures FamilyMarks("@@@@@@", ["1B", "C"], 0, 1) == "1@"
    ensures FamilyMarks("@@@@@@", ["1", "BC"], 1, 1) == "1@"
    ensures FamilyMarks("@@@@@@", ["1C", "B"], 2, 1) == "1@"
  {
    SideOneCapturesAfterA();
  }

  lemma SideOneMarksAfterA()
    ensures LeyMarks("@@@@@@", 1, ["1B", "C"]) == "1@1@1@"
  {
    SideOneRightAfterA();
    SideOneLeftAfterA();
    SideOneFamiliesAfterA();
  }

  /**
   * Player 1 claiming A on the board of side 1 captures the first row, the first
   * right diagonal and the first left diagonal: three of the six ley-lines, so
   * the threshold is reached at once.
   */
  lemma SideOneClaimA()
    ensures IsValidMove(Init(true, 1), 'A')
    ensures Next(Init(true, 1), 'A').lines == ["1B", "C"]
    ensures Next(Init(true, 1), 'A').leyLine == "1@1@1@"
    ensures ThresholdReached(Next(Init(true, 1), 'A'))
  {
    SideOneStart();
    SideOneMoves();
    SideOneBoardAfterA();
    SideOneMarksAfterA();
    assert multiset("1@1@1@")['1'] == 3;
    CountIsMultiplicity("1@1@1@", '1');
  }

  /** The estimate for the first position of the side-1 game is a win: claiming A reaches the threshold. */
  lemma SideOneRoughOutcome()
    ensures RoughOutcome(Init(true, 1)) == WIN
  {
    SideOneStart();
    SideOneMoves();
    SideOneClaimA();
    assert CanReachThreshold(Init(true, 1));
    RoughOutcomeWin(Init(true, 1));
  }
}
