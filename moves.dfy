/** Which pours the solver is allowed to make, and runs of such pours. */
module Moves {
  import opened Tubes

  /** Whether pouring the top ball of `fromTube` onto `candidateTube` is a move the solver
      makes, for tubes of height `tubeHeight`. Besides the basic rule (a ball to move, room
      to put it, matching top colours) it prunes two kinds of pointless move: touching a
      tube that already holds `tubeHeight` balls of its bottom colour, and pouring a
      one-colour tube into an empty one. */
  function IsMoveValid(tubeHeight: nat, fromTube: Tube, candidateTube: Tube): bool
  {
    if |fromTube| == 0 || |candidateTube| == tubeHeight then false
    else
      var numFirstColour := Count(fromTube, fromTube[0]);
      if numFirstColour == tubeHeight then false
      else if |candidateTube| == 0 then numFirstColour != |fromTube|
      else Top(fromTube) == Top(candidateTube)
  }

  /** The rule in words: the source has a ball, the destination is not at the height,
      the source does not already hold `h` balls of its bottom colour, and then either
      the destination is empty and the source is not of one colour, or the destination
      is not empty and the two top balls match. */
  lemma MoveValidRule(h: nat, s: Tube, d: Tube)
    ensures IsMoveValid(h, s, d) <==>
              && |s| > 0
              && |d| != h
              && Count(s, s[0]) != h
              && (|d| == 0 ==> !Monochrome(s))
              && (|d| > 0 ==> Top(s) == Top(d))
  {
    if |s| > 0 {
      CountFirstIsLength(s);
    }
  }

  /** The three guards that reject a move whatever the destination holds. */
  lemma MoveRejected(h: nat, s: Tube, d: Tube)
    requires |s| == 0 || |d| == h || (|s| > 0 && Count(s, s[0]) == h)
    ensures !IsMoveValid(h, s, d)
  {
  }

  /** For a tube no taller than `h`, the settled test on the bottom colour means "full and
      of one colour", and gives the same answer as counting the top colour. */
  lemma SettledTest(h: nat, s: Tube)
    requires 0 < |s| <= h
    ensures Count(s, s[0]) == h <==> |s| == h && Monochrome(s)
    ensures Count(s, s[0]) == h <==> Count(s, Top(s)) == h
  {
    CountAll(s, s[0]);
    CountAll(s, Top(s));
    if Count(s, Top(s)) == h {
      assert s[0] == Top(s);
    }
    if Count(s, s[0]) == h {
      assert Top(s) == s[0];
    }
  }

  /** In a tube taller than `h` the two readings differ: three balls `a b b` hold two of
      the top colour but only one of the bottom colour, so the solver still pours from it. */
  lemma SettledTestReadingsDiffer()
    ensures var s: Tube := ["a", "b", "b"];
            Count(s, s[0]) != 2 && Count(s, Top(s)) == 2 && IsMoveValid(2, s, ["b"])
  {
    var s: Tube := ["a", "b", "b"];
    assert multiset(s) == multiset{"a"} + multiset{"b", "b"};
  }

  /** A move as the solver names it: the source tube index and the destination tube index. */
  datatype Move = Move(src: nat, dst: nat)

  /** Move `m` is made by the solver in grid `g`: two distinct tubes of `g` and a move
      that `IsMoveValid` allows. */
  predicate Legal(g: Grid, h: nat, m: Move)
  {
    m.src < |g| && m.dst < |g| && m.src != m.dst && IsMoveValid(h, g[m.src], g[m.dst])
  }

  /** The grid after a legal move. */
  function Apply(g: Grid, h: nat, m: Move): (r: Grid)
    requires Legal(g, h, m)
    ensures Balls(r) == Balls(g) && |r| == |g|
  {
    PourPreservesBalls(g, m.src, m.dst);
    Pour(g, m.src, m.dst)
  }

  /** A legal move into a grid whose tubes are no taller than `h` keeps them so. */
  lemma ApplyWithinHeight(g: Grid, h: nat, m: Move)
    requires Legal(g, h, m)
    requires forall k :: 0 <= k < |g| ==> |g[k]| <= h
    ensures forall k :: 0 <= k < |g| ==> |Apply(g, h, m)[k]| <= h
  {
  }

  /** Every move in `moves` is legal in the grid that the moves before it produce. */
  predicate LegalRun(g: Grid, h: nat, moves: seq<Move>)
    decreases |moves|
  {
    moves == [] || (Legal(g, h, moves[0]) && LegalRun(Apply(g, h, moves[0]), h, moves[1..]))
  }

  /** The grids after each move of a legal run, in order. */
  function States(g: Grid, h: nat, moves: seq<Move>): (r: seq<Grid>)
    requires LegalRun(g, h, moves)
    ensures |r| == |moves|
    decreases |moves|
  {
    if moves == [] then [] else [Apply(g, h, moves[0])] + States(Apply(g, h, moves[0]), h, moves[1..])
  }

  /** The grids in which each move of a legal run is made: the start, then every state but the last. */
  function Before(g: Grid, h: nat, moves: seq<Move>): (r: seq<Grid>)
    requires LegalRun(g, h, moves)
    ensures |r| == |moves|
    decreases |moves|
  {
    if moves == [] then [] else [g] + Before(Apply(g, h, moves[0]), h, moves[1..])
  }

  /** The grid a legal run ends in. */
  function Final(g: Grid, h: nat, moves: seq<Move>): Grid
    requires LegalRun(g, h, moves)
  {
    if moves == [] then g else States(g, h, moves)[|moves| - 1]
  }

  /** Along a legal run the number of tubes and every colour's count stay those of the
      start. */
  lemma {:induction false} RunPreserves(g: Grid, h: nat, moves: seq<Move>)
    requires LegalRun(g, h, moves)
    ensures forall k :: 0 <= k < |moves| ==>
              |States(g, h, moves)[k]| == |g| && Balls(States(g, h, moves)[k]) == Balls(g)
    decreases |moves|
  {
    if moves != [] {
      var g' := Apply(g, h, moves[0]);
      RunPreserves(g', h, moves[1..]);
      var S, S' := States(g, h, moves), States(g', h, moves[1..]);
      assert S == [g'] + S';
      forall k | 1 <= k < |moves| ensures |S[k]| == |g| && Balls(S[k]) == Balls(g) {
        assert S[k] == S'[k - 1];
      }
    }
  }

  /** Along a legal run that starts with no tube taller than `h`, no tube grows taller. */
  lemma {:induction false} RunWithinHeight(g: Grid, h: nat, moves: seq<Move>)
    requires LegalRun(g, h, moves)
    requires forall t :: 0 <= t < |g| ==> |g[t]| <= h
    ensures forall k, t :: 0 <= k < |moves| && 0 <= t < |States(g, h, moves)[k]| ==>
              |States(g, h, moves)[k][t]| <= h
    decreases |moves|
  {
    if moves != [] {
      var g' := Apply(g, h, moves[0]);
      ApplyWithinHeight(g, h, moves[0]);
      RunWithinHeight(g', h, moves[1..]);
      var S, S' := States(g, h, moves), States(g', h, moves[1..]);
      assert S == [g'] + S';
      forall k, t | 1 <= k < |moves| && 0 <= t < |S[k]| ensures |S[k][t]| <= h {
        assert S[k] == S'[k - 1];
      }
    }
  }

  /** The move at position `k` of a run is legal in the grid it is made in, and yields
      the state at position `k`. */
  lemma {:induction false} RunStep(g: Grid, h: nat, moves: seq<Move>, k: nat)
    requires LegalRun(g, h, moves) && k < |moves|
    ensures Legal(Before(g, h, moves)[k], h, moves[k])
    ensures States(g, h, moves)[k] == Apply(Before(g, h, moves)[k], h, moves[k])
    decreases k
  {
    if k > 0 {
      var g', rest := Apply(g, h, moves[0]), moves[1..];
      RunStep(g', h, rest, k - 1);
      var b, s := Before(g', h, rest)[k - 1], States(g', h, rest)[k - 1];
      assert Before(g, h, moves)[k] == b;
      assert States(g, h, moves)[k] == s;
      assert moves[k] == rest[k - 1];
    }
  }

  /** Each state of a run is one legal move from the grid that move was made in. */
  lemma RunSteps(g: Grid, h: nat, moves: seq<Move>)
    requires LegalRun(g, h, moves)
    ensures forall k :: 0 <= k < |moves| ==>
              Legal(Before(g, h, moves)[k], h, moves[k]) &&
              States(g, h, moves)[k] == Apply(Before(g, h, moves)[k], h, moves[k])
  {
    forall k | 0 <= k < |moves|
      ensures Legal(Before(g, h, moves)[k], h, moves[k])
      ensures States(g, h, moves)[k] == Apply(Before(g, h, moves)[k], h, moves[k])
    {
      RunStep(g, h, moves, k);
    }
  }

  /** A run starts in its first grid, and each grid a move is made in after the first is
      the state the move before produced. */
  lemma {:induction false} RunLinks(g: Grid, h: nat, moves: seq<Move>)
    requires LegalRun(g, h, moves)
    ensures |moves| > 0 ==> Before(g, h, moves)[0] == g
    ensures forall k :: 0 < k < |moves| ==> Before(g, h, moves)[k] == States(g, h, moves)[k - 1]
    decreases |moves|
  {
    if moves != [] {
      var g' := Apply(g, h, moves[0]);
      RunLinks(g', h, moves[1..]);
      var B, S := Before(g, h, moves), States(g, h, moves);
      var B', S' := Before(g', h, moves[1..]), States(g', h, moves[1..]);
      assert B == [g] + B' && S == [g'] + S';
      forall k | 1 < k < |moves| ensures B[k] == S[k - 1] {
        assert B[k] == B'[k - 1] && S[k - 1] == S'[k - 2];
      }
    }
  }
}
