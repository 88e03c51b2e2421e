/** The depth-first backtracking search: try every legal pour in order, stop at the first
    one that solves the grid, and otherwise go into each successor whose key has not been
    seen, recording the rendered grids of the winning line as the recursion unwinds. */
module Search {
  import opened Seqs
  import opened Tubes
  import opened Moves
  import opened Checks
  import opened Canonical

  // ---------------------------------------------------------------------------------
  // What a successful search returns.

  /** `moves` is a line of play the search can report: legal from `g`, ending in a solved
      grid, and passing through no solved grid before the end. */
  ghost predicate IsSolution(g: Grid, h: nat, moves: seq<Move>)
  {
    && |moves| > 0
    && LegalRun(g, h, moves)
    && Solved(Final(g, h, moves), h)
    && forall k :: 0 <= k < |moves| - 1 ==> !Solved(States(g, h, moves)[k], h)
  }

  /** What the search appends to its answer list for a line of play: the rendered grids
      after each move, last one first. */
  ghost function Trace(g: Grid, h: nat, moves: seq<Move>): seq<string>
    requires LegalRun(g, h, moves)
  {
    Reverse(Map(Render, States(g, h, moves)))
  }

  /** The keys of the grids the moves of a line are made in. */
  ghost function Keys(g: Grid, h: nat, moves: seq<Move>): (r: seq<string>)
    requires LegalRun(g, h, moves)
    ensures |r| == |moves|
  {
    Map(Key, Before(g, h, moves))
  }

  /** A solved grid one legal move away is a line of a single move. */
  lemma OneMove(g: Grid, h: nat, m: Move)
    requires Legal(g, h, m) && Solved(Apply(g, h, m), h)
    ensures IsSolution(g, h, [m])
    ensures Trace(g, h, [m]) == [Render(Apply(g, h, m))]
    ensures Keys(g, h, [m]) == [Key(g)]
  {
    var g' := Apply(g, h, m);
    assert [m][1..] == [];
    assert States(g, h, [m]) == [g'];
    assert Before(g, h, [m]) == [g];
    MapSingle(Render, g');
    MapSingle(Key, g);
    ReverseSingle(Render(g'));
  }

  /** A legal move to an unsolved grid, followed by a line from there, is a line. */
  lemma {:induction false} SolutionExtends(g: Grid, h: nat, m: Move, rest: seq<Move>)
    requires Legal(g, h, m)
    requires !Solved(Apply(g, h, m), h)
    requires IsSolution(Apply(g, h, m), h, rest)
    ensures IsSolution(g, h, [m] + rest)
    ensures Trace(g, h, [m] + rest) == Trace(Apply(g, h, m), h, rest) + [Render(Apply(g, h, m))]
  {
    var g' := Apply(g, h, m);
    var moves := [m] + rest;
    assert moves[0] == m && moves[1..] == rest;
    assert LegalRun(g, h, moves);
    var S, S' := States(g, h, moves), States(g', h, rest);
    assert S == [g'] + S';
    assert Final(g, h, moves) == Final(g', h, rest);
    forall k | 0 <= k < |moves| - 1 ensures !Solved(S[k], h) {
      if k > 0 {
        assert S[k] == S'[k - 1];
      }
    }
    MapCons(Render, g', S');
    ReverseCons(Render(g'), Map(Render, S'));
  }

  /** The keys of a line one move longer: the start's key in front of the rest. */
  lemma KeysExtend(g: Grid, h: nat, m: Move, rest: seq<Move>)
    requires Legal(g, h, m)
    requires LegalRun(Apply(g, h, m), h, rest)
    ensures LegalRun(g, h, [m] + rest)
    ensures Keys(g, h, [m] + rest) == [Key(g)] + Keys(Apply(g, h, m), h, rest)
  {
    var moves := [m] + rest;
    assert moves[0] == m && moves[1..] == rest;
    MapCons(Key, g, Before(Apply(g, h, m), h, rest));
  }

  /** The bookkeeping about keys carries over from the successor's search to this one:
      every key of the line is remembered, no key after the first was remembered before
      the search began, and no key occurs twice. */
  lemma KeysFresh(k0: string, keys: seq<string>, seen: set<string>, before: set<string>, after: set<string>)
    requires |keys| > 0
    requires seen <= before && k0 in seen && keys[0] !in before
    requires before + {keys[0]} <= after
    requires forall k :: 0 <= k < |keys| ==> keys[k] in after
    requires forall k :: 0 < k < |keys| ==> keys[k] !in before + {keys[0]}
    requires NoRepeats(keys)
    ensures forall k :: 0 <= k < |keys| + 1 ==> ([k0] + keys)[k] in after
    ensures forall k :: 0 < k < |keys| + 1 ==> ([k0] + keys)[k] !in seen
    ensures NoRepeats([k0] + keys)
  {
    var all := [k0] + keys;
    forall p, q | 0 <= p < q < |all| ensures all[p] != all[q] {
      if p > 0 {
        assert all[p] == keys[p - 1] && all[q] == keys[q - 1];
      } else {
        assert all[q] == keys[q - 1];
      }
    }
  }

  /** The promises about keys of a search from `g` that started with the keys `visited`
      and ended with `visitedOut` and found `moves`: every position the moves are made in
      is remembered, none after the first had been seen before, and none is entered twice. */
  ghost predicate KeysKept(g: Grid, h: nat, visited: set<string>, visitedOut: set<string>, moves: seq<Move>)
    requires LegalRun(g, h, moves)
  {
    && (forall k :: 0 <= k < |moves| ==> Keys(g, h, moves)[k] in visitedOut)
    && (forall k :: 0 < k < |moves| ==> Keys(g, h, moves)[k] !in visited + {Key(g)})
    && NoRepeats(Keys(g, h, moves))
  }

  /** What such a search promises when it succeeds with `moves`: the moves are a solution,
      the answer list grew by exactly their trace, and the keys were kept. */
  ghost predicate Found(g: Grid, h: nat, visited: set<string>, visitedOut: set<string>,
                        answer: seq<string>, answerOut: seq<string>, moves: seq<Move>)
  {
    && IsSolution(g, h, moves)
    && answerOut == answer + Trace(g, h, moves)
    && KeysKept(g, h, visited, visitedOut, moves)
  }

  /** Success on the first move: the successor is solved. */
  lemma FoundAtOnce(g: Grid, h: nat, m: Move, visited: set<string>, visitedOut: set<string>, answer: seq<string>)
    requires Legal(g, h, m) && Solved(Apply(g, h, m), h)
    requires Key(g) in visitedOut
    ensures Found(g, h, visited, visitedOut, answer, answer + [Render(Apply(g, h, m))], [m])
  {
    OneMove(g, h, m);
  }

  /** The keys are kept through a move to a grid whose key was new. */
  lemma KeysKeptThrough(g: Grid, h: nat, m: Move, rest: seq<Move>, visited: set<string>,
                        before: set<string>, visitedOut: set<string>)
    requires Legal(g, h, m) && |rest| > 0 && LegalRun(Apply(g, h, m), h, rest)
    requires visited + {Key(g)} <= before && Key(Apply(g, h, m)) !in before
    requires before + {Key(Apply(g, h, m))} <= visitedOut
    requires KeysKept(Apply(g, h, m), h, before, visitedOut, rest)
    ensures LegalRun(g, h, [m] + rest)
    ensures KeysKept(g, h, visited, visitedOut, [m] + rest)
  {
    var g' := Apply(g, h, m);
    KeysExtend(g, h, m, rest);
    var keys, all := Keys(g', h, rest), Keys(g, h, [m] + rest);
    assert Before(g', h, rest)[0] == g';
    assert keys[0] == Key(g');
    KeysFresh(Key(g), keys, visited + {Key(g)}, before, visitedOut);
    assert all == [Key(g)] + keys;
  }

  /** Success through a successor: a legal move to an unsolved grid whose key was new,
      and a successful search from there. */
  lemma FoundThrough(g: Grid, h: nat, m: Move, rest: seq<Move>, visited: set<string>,
                     before: set<string>, visitedOut: set<string>, answer: seq<string>, answerMid: seq<string>)
    requires Legal(g, h, m) && !Solved(Apply(g, h, m), h)
    requires visited + {Key(g)} <= before && Key(Apply(g, h, m)) !in before
    requires before + {Key(Apply(g, h, m))} <= visitedOut
    requires Found(Apply(g, h, m), h, before, visitedOut, answer, answerMid, rest)
    ensures Found(g, h, visited, visitedOut, answer, answerMid + [Render(Apply(g, h, m))], [m] + rest)
  {
    var g' := Apply(g, h, m);
    SolutionExtends(g, h, m, rest);
    KeysKeptThrough(g, h, m, rest, visited, before, visitedOut);
    var tail, line := Trace(g', h, rest), Render(g');
    assert answerMid == answer + tail;
    assert Trace(g, h, [m] + rest) == tail + [line];
    AppendAssoc(answer, tail, [line]);
  }

  // ---------------------------------------------------------------------------------
  // Why the search ends: it only enters positions it has not seen, and there are
  // finitely many positions with a given set of balls.

  /** All tubes of at most `L` balls with colours from `A`. */
  ghost function AllTubes(A: set<Colour>, L: nat): set<Tube>
  {
    if L == 0 then {[]}
    else AllTubes(A, L - 1) + set t, c | t in AllTubes(A, L - 1) && c in A :: t + [c]
  }

  /** All grids of `n` tubes from `AllTubes(A, L)`. */
  ghost function AllGrids(A: set<Colour>, L: nat, n: nat): set<Grid>
  {
    if n == 0 then {[]}
    else set g, t | g in AllGrids(A, L, n - 1) && t in AllTubes(A, L) :: g + [t]
  }

  lemma {:induction false} TubeInAllTubes(A: set<Colour>, L: nat, t: Tube)
    requires |t| <= L
    requires forall k :: 0 <= k < |t| ==> t[k] in A
    ensures t in AllTubes(A, L)
  {
    if L > 0 {
      if |t| < L {
        TubeInAllTubes(A, L - 1, t);
      } else {
        var init := t[..|t| - 1];
        assert forall k :: 0 <= k < |init| ==> init[k] == t[k];
        TubeInAllTubes(A, L - 1, init);
        assert t == init + [t[|t| - 1]];
      }
    }
  }

  lemma {:induction false} GridInAllGrids(A: set<Colour>, L: nat, g: Grid)
    requires forall k :: 0 <= k < |g| ==> g[k] in AllTubes(A, L)
    ensures g in AllGrids(A, L, |g|)
    decreases |g|
  {
    if g != [] {
      var init := g[..|g| - 1];
      assert forall k :: 0 <= k < |init| ==> init[k] == g[k];
      GridInAllGrids(A, L, init);
      assert g == init + [g[|g| - 1]];
    }
  }

  /** The colours that occur in `M`. */
  ghost function Colours(M: multiset<Colour>): set<Colour>
  {
    set c | c in M
  }

  /** Every tube of a grid is among the tubes of at most as many balls as the grid holds,
      with the grid's colours. */
  lemma TubeInUniverse(g: Grid, k: int)
    requires 0 <= k < |g|
    ensures g[k] in AllTubes(Colours(Balls(g)), |Balls(g)|)
  {
    var M, t := Balls(g), g[k];
    TubeInBalls(g, k);
    forall q | 0 <= q < |t| ensures t[q] in Colours(M) {
      assert t[q] in multiset(t);
    }
    TubeInAllTubes(Colours(M), |M|, t);
  }

  /** The keys of every grid of `n` tubes whose tubes hold at most `|M|` balls with the
      colours of `M`. */
  ghost function Universe(n: nat, M: multiset<Colour>): set<string>
  {
    set g | g in AllGrids(Colours(M), |M|, n) :: Key(g)
  }

  /** Every grid's key is in the universe of its own tube count and balls. */
  lemma KeyInUniverse(g: Grid)
    ensures Key(g) in Universe(|g|, Balls(g))
  {
    var M := Balls(g);
    forall k | 0 <= k < |g| ensures g[k] in AllTubes(Colours(M), |M|) {
      TubeInUniverse(g, k);
    }
    GridInAllGrids(Colours(M), |M|, g);
  }

  /** Entering a new position of the universe leaves fewer positions to enter. */
  lemma Shrinks(U: set<string>, before: set<string>, now: set<string>, k: string)
    requires before <= now && k !in now && k in U
    ensures U - (now + {k}) < U - before
  {
    assert k in U - before && k !in U - (now + {k});
  }

  // ---------------------------------------------------------------------------------
  // The search.

  /** Searches from `grid`, treating the keys in `visited` as already explored, and adds
      the rendered grids of the line it finds, last one first, to `answer`. The ghost
      `moves` is that line. */
  method SolveGrid(grid: Grid, tubeHeight: Option<nat>, visited: set<string>, answer: seq<string>)
    returns (solved: bool, visitedOut: set<string>, answerOut: seq<string>, ghost moves: seq<Move>)
    requires tubeHeight.Some? || |grid| > 0
    ensures visited + {Key(grid)} <= visitedOut
    ensures !solved ==> answerOut == answer
    ensures solved ==> Found(grid, ResolveHeight(grid, tubeHeight), visited, visitedOut, answer, answerOut, moves)
    decreases Universe(|grid|, Balls(grid)) - (visited + {Key(grid)})
  {
    var h := ResolveHeight(grid, tubeHeight);
    visitedOut := visited + {Key(grid)};
    answerOut := answer;
    solved := false;
    moves := [];
    var i := 0;
    while i < |grid|
      invariant 0 <= i <= |grid|
      invariant visited + {Key(grid)} <= visitedOut
      invariant answerOut == answer && !solved
    {
      var tube := grid[i];
      var j := 0;
      while j < |grid|
        invariant 0 <= j <= |grid|
        invariant visited + {Key(grid)} <= visitedOut
        invariant answerOut == answer && !solved
      {
        if i != j && IsMoveValid(h, tube, grid[j]) {
          var grid2 := grid;
          var ball := Top(grid2[i]);
          grid2 := grid2[i := grid2[i][..|grid2[i]| - 1]];
          grid2 := grid2[j := grid2[j] + [ball]];
          ghost var m := Move(i, j);
          assert grid2 == Apply(grid, h, m);
          var done := IsSolved(grid2, Some(h));
          if done {
            FoundAtOnce(grid, h, m, visited, visitedOut, answerOut);
            answerOut := answerOut + [Render(grid2)];
            return true, visitedOut, answerOut, [m];
          }
          if Key(grid2) !in visitedOut {
            ghost var before := visitedOut;
            KeyInUniverse(grid2);
            Shrinks(Universe(|grid|, Balls(grid)), visited + {Key(grid)}, visitedOut, Key(grid2));
            var found;
            ghost var rest;
            found, visitedOut, answerOut, rest := SolveGrid(grid2, Some(h), visitedOut, answerOut);
            if found {
              FoundThrough(grid, h, m, rest, visited, before, visitedOut, answer, answerOut);
              answerOut := answerOut + [Render(grid2)];
              return true, visitedOut, answerOut, [m] + rest;
            }
          }
        }
        j := j + 1;
      }
      i := i + 1;
    }
  }

  /** The search as the command line runs it: the height of the tallest tube, nothing
      visited yet, an empty answer list, and the answer put into playing order. */
  method Solve(grid: Grid) returns (solved: bool, steps: seq<string>, ghost moves: seq<Move>)
    requires |grid| > 0
    ensures solved ==> IsSolution(grid, MaxLen(grid), moves)
    ensures solved ==> steps == Map(Render, States(grid, MaxLen(grid), moves))
    ensures !solved ==> steps == []
  {
    assert ResolveHeight(grid, None) == MaxLen(grid);
    var visited, answer;
    solved, visited, answer, moves := SolveGrid(grid, None, {}, []);
    steps := Reverse(answer);
    if solved {
      assert answer == Trace(grid, MaxLen(grid), moves);
      ReverseReverse(Map(Render, States(grid, MaxLen(grid), moves)));
    }
  }

  /** What a reported line achieves: when no tube starts taller than `h`, its last grid
      has the start's tubes' number and balls, and every tube of it is empty or `h` balls
      of one colour. */
  lemma SolutionSorts(g: Grid, h: nat, moves: seq<Move>)
    requires IsSolution(g, h, moves)
    requires forall k :: 0 <= k < |g| ==> |g[k]| <= h
    ensures var f := Final(g, h, moves);
            && |f| == |g| && Balls(f) == Balls(g)
            && forall k :: 0 <= k < |f| ==> f[k] == [] || (|f[k]| == h && Monochrome(f[k]))
  {
    RunPreserves(g, h, moves);
    RunWithinHeight(g, h, moves);
    var f := Final(g, h, moves);
    assert f == States(g, h, moves)[|moves| - 1];
    SolvedMeaning(f, h);
  }

  /** Each grid of a reported line is one legal move from the one before, the first from
      the start. */
  lemma SolutionIsChain(g: Grid, h: nat, moves: seq<Move>)
    requires IsSolution(g, h, moves)
    ensures Legal(g, h, moves[0]) && States(g, h, moves)[0] == Apply(g, h, moves[0])
    ensures forall k :: 0 < k < |moves| ==>
              Legal(States(g, h, moves)[k - 1], h, moves[k]) &&
              States(g, h, moves)[k] == Apply(States(g, h, moves)[k - 1], h, moves[k])
  {
    RunSteps(g, h, moves);
    RunLinks(g, h, moves);
  }
}
