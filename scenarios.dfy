/** Small worked puzzles, with two arbitrary distinct colours `x` and `y`. */
module Scenarios {
  import opened Tubes
  import opened Moves
  import opened Checks
  import opened Search

  /** Two tubes of two balls each, already sorted, and two spare tubes. */
  lemma AlreadySolved(x: Colour, y: Colour)
    ensures Solved([[x, x], [y, y], [], []], 2)
  {
    var g: Grid := [[x, x], [y, y], [], []];
    assert Count(g[0], x) == 2 by {
      assert multiset(g[0]) == multiset{x, x};
    }
    assert Count(g[1], y) == 2 by {
      assert multiset(g[1]) == multiset{y, y};
    }
  }

  /** The start of the two-colour puzzle. */
  function Start(x: Colour, y: Colour): Grid
  {
    [[x, y], [y, x], [], []]
  }

  /** A solution of it: the one reached by trying pairs of tubes in ascending order. */
  const TwoColourMoves: seq<Move> := [Move(0, 2), Move(1, 0), Move(1, 2)]

  lemma FirstMove(x: Colour, y: Colour)
    requires x != y
    ensures Legal(Start(x, y), 2, Move(0, 2))
    ensures Apply(Start(x, y), 2, Move(0, 2)) == [[x], [y, x], [y], []]
  {
    var s: Tube := [x, y];
    assert multiset(s) == multiset{x} + multiset{y};
    assert Count(s, x) == 1;
    assert s[..1] == [x];
    var e: Tube := [];
    assert e + [y] == [y];
  }

  lemma SecondMove(x: Colour, y: Colour)
    requires x != y
    ensures Legal([[x], [y, x], [y], []], 2, Move(1, 0))
    ensures Apply([[x], [y, x], [y], []], 2, Move(1, 0)) == [[x, x], [y], [y], []]
  {
    var s: Tube := [y, x];
    assert multiset(s) == multiset{y} + multiset{x};
    assert Count(s, y) == 1;
    assert s[..1] == [y];
    assert [x] + [x] == [x, x];
  }

  lemma ThirdMove(x: Colour, y: Colour)
    ensures Legal([[x, x], [y], [y], []], 2, Move(1, 2))
    ensures Apply([[x, x], [y], [y], []], 2, Move(1, 2)) == [[x, x], [], [y, y], []]
  {
    var s: Tube := [y];
    assert Count(s, y) == 1;
    assert s[..0] == [];
    assert [y] + [y] == [y, y];
  }

  /** A solution of the two-colour puzzle (the one the ascending pair order reaches):
      legal, passing through two unsolved grids, and ending with tube 1 empty and tube 2
      holding both balls of `y`. */
  lemma TwoColourLine(x: Colour, y: Colour)
    requires x != y
    ensures LegalRun(Start(x, y), 2, TwoColourMoves)
    ensures States(Start(x, y), 2, TwoColourMoves) ==
              [[[x], [y, x], [y], []], [[x, x], [y], [y], []], [[x, x], [], [y, y], []]]
    ensures IsSolution(Start(x, y), 2, TwoColourMoves)
  {
    var g0, g1, g2, g3 := Start(x, y), [[x], [y, x], [y], []], [[x, x], [y], [y], []], [[x, x], [], [y, y], []];
    FirstMove(x, y);
    SecondMove(x, y);
    ThirdMove(x, y);
    var ms := TwoColourMoves;
    assert ms[1..] == [Move(1, 0), Move(1, 2)] && ms[1..][1..] == [Move(1, 2)] && ms[1..][1..][1..] == [];
    assert LegalRun(g2, 2, ms[1..][1..]);
    assert LegalRun(g1, 2, ms[1..]);
    assert States(g2, 2, ms[1..][1..]) == [g3];
    assert States(g1, 2, ms[1..]) == [g2, g3];
    assert States(g0, 2, ms) == [g1, g2, g3];
    AlreadySolved(x, y);
    assert Count([x, x], x) == 2 && Count([y, y], y) == 2 by {
      assert multiset([x, x]) == multiset{x, x} && multiset([y, y]) == multiset{y, y};
    }
    assert Solved(g3, 2);
    assert !TubeDone(g1[0], 2) && !TubeDone(g2[1], 2);
  }

  /** Three balls of one colour and two of another in four tubes of height 3: the
      ball-count rule already fails (five balls where (4 - 2) * 3 = 6 are needed), before
      any colour is tallied. */
  lemma CountMismatch(x: Colour, y: Colour)
    ensures var g: Grid := [[x, x, x], [y, y], [], []];
            MaxLen(g) == 3 && TotalBalls(g) == 5 && (|g| - 2) * MaxLen(g) == 6 && !ValidGrid(g)
  {
    var g: Grid := [[x, x, x], [y, y], [], []];
    assert MaxLen(g) == 3;
    assert g[..|g| - 1] == [[x, x, x], [y, y], []];
    assert TotalBalls([[x, x, x]]) == 3 by {
      assert [[x, x, x]][..0] == [];
    }
    assert TotalBalls([[x, x, x], [y, y]]) == 5 by {
      assert [[x, x, x], [y, y]][..1] == [[x, x, x]];
    }
    assert TotalBalls([[x, x, x], [y, y], []]) == 5 by {
      assert [[x, x, x], [y, y], []][..2] == [[x, x, x], [y, y]];
    }
    assert TotalBalls(g) == 5;
  }
}
