/** The two whole-grid tests: is the puzzle solved, and is a loaded puzzle well formed. */
module Checks {
  import opened Seqs
  import opened Tubes
  import opened Moves

  /** The height the checks use: the one given, or else the tallest tube of the grid. */
  function ResolveHeight(g: Grid, tubeHeight: Option<nat>): (h: nat)
    requires tubeHeight.Some? || |g| > 0
    ensures tubeHeight.Some? ==> h == tubeHeight.value
    ensures tubeHeight.None? ==> forall k :: 0 <= k < |g| ==> |g[k]| <= h
    ensures tubeHeight.None? ==> exists k :: 0 <= k < |g| && |g[k]| == h
  {
    match tubeHeight
    case Some(h) => h
    case None => MaxLen(g)
  }

  /** The per-tube test of the solved check: the tube is empty, or it is at least `h` tall
      and holds exactly `h` balls of its bottom colour. */
  predicate TubeDone(t: Tube, h: nat)
  {
    |t| == 0 || (|t| >= h && Count(t, t[0]) == h)
  }

  /** Every tube passes the per-tube test. */
  predicate Solved(g: Grid, h: nat)
  {
    forall k :: 0 <= k < |g| ==> TubeDone(g[k], h)
  }

  /** Scans the tubes in order and stops at the first one that is neither empty nor
      `h` balls of its bottom colour. */
  method IsSolved(grid: Grid, tubeHeight: Option<nat>) returns (solved: bool)
    requires tubeHeight.Some? || |grid| > 0
    ensures solved == Solved(grid, ResolveHeight(grid, tubeHeight))
  {
    var h := ResolveHeight(grid, tubeHeight);
    var k := 0;
    while k < |grid|
      invariant 0 <= k <= |grid|
      invariant forall m :: 0 <= m < k ==> TubeDone(grid[m], h)
    {
      var tube := grid[k];
      if |tube| == 0 {
      } else if |tube| < h {
        return false;
      } else if Count(tube, tube[0]) != h {
        return false;
      }
      k := k + 1;
    }
    return true;
  }

  /** For tubes no taller than `h`, solved means that every tube is empty or is `h`
      balls of one colour. */
  lemma SolvedMeaning(g: Grid, h: nat)
    requires forall k :: 0 <= k < |g| ==> |g[k]| <= h
    ensures Solved(g, h) <==> forall k :: 0 <= k < |g| ==> g[k] == [] || (|g[k]| == h && Monochrome(g[k]))
  {
    forall k | 0 <= k < |g| && |g[k]| > 0
      ensures TubeDone(g[k], h) <==> |g[k]| == h && Monochrome(g[k])
    {
      SettledTest(h, g[k]);
    }
  }

  /** With the height left out, a grid is solved when every tube is empty or filled to
      the tallest tube's length with one colour. */
  lemma SolvedAtDefaultHeight(g: Grid)
    requires |g| > 0
    ensures Solved(g, ResolveHeight(g, None)) <==>
              forall k :: 0 <= k < |g| ==> g[k] == [] || (|g[k]| == MaxLen(g) && Monochrome(g[k]))
  {
    SolvedMeaning(g, MaxLen(g));
  }

  /** The well-formedness rule for height `h`: `h` balls for each of all tubes but two,
      and exactly `h` balls of every colour that occurs. */
  predicate ValidFor(g: Grid, h: nat)
  {
    |Balls(g)| == (|g| - 2) * h && forall c :: c in Balls(g) ==> Balls(g)[c] == h
  }

  /** The well-formedness rule at the height of the tallest tube. */
  predicate ValidGrid(g: Grid)
    requires |g| > 0
  {
    ValidFor(g, MaxLen(g))
  }

  /** `freqs` has an entry for exactly the colours of `m`, holding each one's count. */
  ghost predicate Tallies(freqs: map<Colour, nat>, m: multiset<Colour>)
  {
    && (forall c :: c in freqs <==> c in m)
    && (forall c :: c in freqs ==> freqs[c] == m[c])
  }

  /** Counting one more ball: a new colour gets an entry of one, a known one goes up by one. */
  lemma TallyBall(freqs: map<Colour, nat>, freqs': map<Colour, nat>, m: multiset<Colour>, ball: Colour)
    requires Tallies(freqs, m)
    requires freqs' == if ball !in freqs then freqs[ball := 1] else freqs[ball := freqs[ball] + 1]
    ensures Tallies(freqs', m + multiset{ball})
  {
  }

  /** Tallies every ball of the grid, tube by tube, in a map from colour to count. */
  method CountColours(grid: Grid) returns (freqs: map<Colour, nat>)
    ensures Tallies(freqs, Balls(grid))
  {
    freqs := map[];
    ghost var seen: multiset<Colour> := multiset{};
    var i := 0;
    while i < |grid|
      invariant 0 <= i <= |grid|
      invariant seen == Balls(grid[..i])
      invariant Tallies(freqs, seen)
    {
      var tube := grid[i];
      var k := 0;
      ghost var earlier := seen;
      assert tube[..0] == [];
      while k < |tube|
        invariant 0 <= k <= |tube|
        invariant seen == earlier + multiset(tube[..k])
        invariant Tallies(freqs, seen)
      {
        var ball := tube[k];
        assert tube[..k + 1] == tube[..k] + [ball];
        MultisetSnoc(tube[..k], ball);
        MultisetAssoc(earlier, multiset(tube[..k]), multiset{ball});
        ghost var before := freqs;
        if ball !in freqs {
          freqs := freqs[ball := 1];
        } else {
          freqs := freqs[ball := freqs[ball] + 1];
        }
        TallyBall(before, freqs, seen, ball);
        seen := seen + multiset{ball};
        k := k + 1;
      }
      assert tube[..k] == tube;
      BallsOfPrefix(grid, i);
      i := i + 1;
    }
    assert grid[..i] == grid;
  }

  /** Checks the total ball count, then tallies every colour and checks each tally
      against the height. */
  method IsValidGrid(grid: Grid) returns (valid: bool)
    requires |grid| > 0
    ensures valid == ValidGrid(grid)
  {
    var numTubes := |grid|;
    var tubeHeight := MaxLen(grid);
    var numBalls := TotalBalls(grid);
    var numBallsRequired := (numTubes - 2) * tubeHeight;
    if numBalls != numBallsRequired {
      return false;
    }
    var freqs := CountColours(grid);
    var unchecked := freqs.Keys;
    while unchecked != {}
      invariant unchecked <= freqs.Keys
      invariant forall c :: c in freqs && c !in unchecked ==> freqs[c] == tubeHeight
      decreases unchecked
    {
      var colour :| colour in unchecked;
      if freqs[colour] != tubeHeight {
        return false;
      }
      unchecked := unchecked - {colour};
    }
    return true;
  }

  /** A legal move keeps a grid well formed for a fixed height: it changes no colour's
      count and not the number of tubes. */
  lemma MovePreservesValidity(g: Grid, h: nat, m: Move)
    requires Legal(g, h, m)
    requires ValidFor(g, h)
    ensures ValidFor(Apply(g, h, m), h)
  {
    var g' := Apply(g, h, m);
    assert Balls(g') == Balls(g);
  }

  /** A well-formed grid of height 2 that one legal move takes to tubes of one ball each. */
  const Flattenable: Grid := [["a"], ["b", "a"], ["b"], []]

  lemma FlattenableIsValid()
    ensures ValidGrid(Flattenable)
  {
    TwoColoursValid("a", "b");
  }

  /** The grid of `Flattenable`'s shape is well formed for any two distinct colours. */
  lemma TwoColoursValid(x: Colour, y: Colour)
    requires x != y
    ensures ValidGrid([[x], [y, x], [y], []])
  {
    var g: Grid := [[x], [y, x], [y], []];
    assert MaxLen(g) == 2;
    var X, Y := multiset{x}, multiset{y};
    assert multiset([y, x]) == Y + X by {
      assert [y, x] == [y] + [x];
    }
    var e: Tube := [];
    assert multiset([x]) == X && multiset([y]) == Y && multiset(e) == multiset{};
    BallsOfFour([x], [y, x], [y], e);
    var B := X + (Y + X) + Y + multiset{};
    assert Balls(g) == B;
    assert X[x] == 1 && X[y] == 0 && Y[y] == 1 && Y[x] == 0;
    assert B[x] == 2 && B[y] == 2 && |B| == 4;
    assert forall c :: c in B ==> c == x || c == y;
  }

  /** The balls of a grid of four tubes. */
  lemma BallsOfFour(a: Tube, b: Tube, c: Tube, d: Tube)
    ensures Balls([a, b, c, d]) == multiset(a) + multiset(b) + multiset(c) + multiset(d)
  {
    var g: Grid := [a, b, c, d];
    assert g[..0] == [] && g[..4] == g;
    BallsOfPrefix(g, 0);
    BallsOfPrefix(g, 1);
    BallsOfPrefix(g, 2);
    BallsOfPrefix(g, 3);
  }

  lemma FlattenableMove()
    ensures Legal(Flattenable, 2, Move(1, 3))
    ensures Apply(Flattenable, 2, Move(1, 3)) == [["a"], ["b"], ["b"], ["a"]]
  {
    var g := Flattenable;
    assert Count(g[1], g[1][0]) == 1 by {
      assert g[1] == ["b"] + ["a"];
    }
    assert g[1][..|g[1]| - 1] == ["b"];
    assert g[3] + [Top(g[1])] == ["a"];
  }

  /** The check that re-reads the height from the current grid is not kept by moves: a
      well-formed grid of height 2 can, in one legal move, reach a grid whose tubes each
      hold one ball, which fails the ball-count rule at height 1. */
  lemma ValidGridNotKeptByMoves()
    ensures var g := Flattenable;
            && ValidGrid(g)
            && Legal(g, MaxLen(g), Move(1, 3))
            && !ValidGrid(Apply(g, MaxLen(g), Move(1, 3)))
  {
    FlattenableIsValid();
    FlattenableMove();
    var g' := Apply(Flattenable, 2, Move(1, 3));
    assert MaxLen(g') == 1;
    assert TotalBalls(g') == 4;
  }
}
