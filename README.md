# Ball-sort solver, modelled and verified in Dafny

`ballsolver.py` solves the ball-sort puzzle. A grid is a list of tubes, and each tube lists
its coloured balls from the bottom up. A move pours the top ball of one tube onto another.
The puzzle is solved when every tube is empty or full of a single colour. The program
checks that a loaded grid is well formed. It then runs a depth-first backtracking search
over moves. The search remembers each position it has entered by a key that ignores the
order of the tubes. On success it records the rendered grids of the winning line, last one
first.

This project models that core in Dafny and proves what it promises:

- `tubes.dfy` (`Tubes`): colours, tubes and grids as values. It defines ball counts, the
  tallest tube, the multiset of all balls, and the pour of line 96. A grid is a value, so
  the deep copy of line 95 is plain assignment and the input grid is never changed.
- `moves.dfy` (`Moves`): `isMoveValid` exactly as written, legal moves, and runs of moves
  with the grids they pass through.
- `checks.dfy` (`Checks`): `isSolved` as a loop with early returns. `isValidGrid` with its
  colour tally kept in a map updated inside nested loops.
- `canonical.dfy` (`Canonical`): `gridToCanonicalString` (a comma-joined piece per tube,
  the pieces sorted by code point and joined with `;`) and `printGridToString`.
- `search.dfy` (`Search`): `solveGrid` as a recursive method. It has the nested `i`/`j`
  loops and threads the visited set and the answer list through as values; a ghost
  out-parameter names the line of moves found. `Solve` is the call the command line makes:
  fresh set and list, then the answer reversed into playing order.
- `scenarios.dfy` (`Scenarios`): worked puzzles with two arbitrary distinct colours.
- `seqs.dfy` (`Seqs`): generic facts about sequences and multisets used by the above.

Colours are strings, compared character by character as Unicode code points, as Python's
`sorted` does. The optional `tubeHeight=None` argument is an `Option<nat>`. When it is left
out, the height is the length of the tallest tube. Python's `max` raises on an empty grid,
so that case is a precondition.

In the model, whose recursion has no depth bound, the search is proved to terminate
(CPython's recursion limit is listed under "Left out"). It only recurses into a position
whose key is not yet in the visited set. Every key lies in the finite set of keys of grids
that have the input's tube count and colours, and tubes no longer than its total ball
count. Search.Universe spans that set, and the recursion decreases the number of keys in
it not yet visited.

On the two-colour puzzle `[[a,b],[b,a],[],[]]` with height 2, the moves (0→2), (1→0), (1→2)
are a solution. The grid after the last move is `[[a,a],[],[b,b],[]]`, so tube 1 is empty
and tube 2 holds both `b` balls, because the third move pours tube 1 onto tube 2. For
`[[a,a,a],[b,b],[],[]]` the well-formedness check rejects the grid on the total ball count
(5 balls, (4 − 2) · 3 = 6 required) before it tallies any colour.

`isValidGrid` re-derives the height from the grid it is given (line 10), so its verdict is
not kept by a legal move. `[[a],[b,a],[b],[]]` is well formed at height 2. One legal move makes it
`[[a],[b],[b],[a]]`, whose tallest tube has one ball, and that fails the ball count. For a
fixed height the rule is kept (`Checks.MovePreservesValidity`).

## Model

| member | source | states |
|---|---|---|
| Tubes.CountAll | ballsolver.py:37 | a colour's count in a tube is at most the tube's length, and equals it exactly when every ball has that colour |
| Tubes.CountFirstIsLength | ballsolver.py:66 | a non-empty tube holds as many balls of its bottom colour as it has balls iff it is of one colour |
| Tubes.MaxLen | ballsolver.py:10 | the result bounds every tube's length and is the length of some tube |
| Tubes.TotalBalls | ballsolver.py:11 | the sum of the tube lengths is the number of balls in the grid |
| Tubes.TubeInBalls | ballsolver.py:17-18 | every tube's balls are among the grid's balls, so no tube holds more than the grid |
| Tubes.Pour | ballsolver.py:95-96 | the copy has as many tubes, tube i loses its top ball, tube j gains it on top, and every other tube is unchanged |
| Tubes.PourPreservesBalls | ballsolver.py:95-96 | a pour keeps every colour's count |
| Moves.MoveValidRule | ballsolver.py:54-69 | a move is allowed iff the source is non-empty, the destination is not at the height, the source does not hold `h` balls of its bottom colour, an empty destination only takes from a source of more than one colour, and a non-empty destination's top matches the source's top |
| Moves.MoveRejected | ballsolver.py:60-64 | an empty source, a destination at the height, or a source holding `h` of its bottom colour is rejected whatever the rest |
| Moves.SettledTest | ballsolver.py:62-63 | for a tube no taller than `h`, holding `h` of its bottom colour means full and of one colour, and agrees with counting the top colour |
| Moves.SettledTestReadingsDiffer | ballsolver.py:62-63 | in the tube `a b b` with height 2, the bottom-colour count is not 2 while the top-colour count is, and the solver still pours from it |
| Moves.Apply | ballsolver.py:94-96 | a legal move keeps every colour's count and the number of tubes |
| Moves.ApplyWithinHeight | ballsolver.py:60 | a legal move into tubes no taller than `h` keeps them so |
| Moves.RunPreserves | ballsolver.py:88-105 | every grid along a legal run has the start's tube count and balls |
| Moves.RunWithinHeight | ballsolver.py:60 | along a legal run that starts within height `h`, no tube grows taller than `h` |
| Moves.RunSteps | ballsolver.py:94-96 | each move of a run is legal in the grid it is made in, and the next grid is that move applied |
| Moves.RunLinks | ballsolver.py:102 | a run starts in its first grid, and each later move is made in the grid the move before produced |
| Checks.ResolveHeight | ballsolver.py:30-31 | a given height is used as is; a missing one is the length of the tallest tube |
| Checks.IsSolved | ballsolver.py:29-39 | returns true exactly when every tube is empty or at least the height and holds height balls of its bottom colour |
| Checks.SolvedMeaning | ballsolver.py:32-39 | for tubes no taller than `h`, solved iff every tube is empty or `h` balls of one colour |
| Checks.SolvedAtDefaultHeight | ballsolver.py:29-39 | with the height left out, solved iff every tube is empty or filled to the tallest length with one colour |
| Checks.TallyBall | ballsolver.py:19-22 | a new colour gets a count of one, a known colour's count goes up by one, and the map still tallies the balls seen |
| Checks.CountColours | ballsolver.py:16-22 | the map has an entry for exactly the colours of the grid, each holding that colour's count |
| Checks.IsValidGrid | ballsolver.py:8-27 | returns true exactly when the ball count is (tubes − 2) · tallest length and every colour that occurs does so that many times |
| Checks.MovePreservesValidity | ballsolver.py:95-96 | for a fixed height, a legal move keeps a grid well formed |
| Checks.FlattenableIsValid | ballsolver.py:8-27 | `[[a],[b,a],[b],[]]` is well formed |
| Checks.TwoColoursValid | ballsolver.py:8-27 | the grid `[[x],[y,x],[y],[]]` is well formed for any distinct colours |
| Checks.FlattenableMove | ballsolver.py:94-96 | pouring tube 1 onto tube 3 of that grid is legal and gives `[[a],[b],[b],[a]]` |
| Checks.ValidGridNotKeptByMoves | ballsolver.py:9-15 | a well-formed grid reaches, in one legal move, a grid that the re-derived height makes ill formed |
| Canonical.LexTotal | ballsolver.py:75 | any two strings are ordered one way or the other |
| Canonical.LexAntisymmetric | ballsolver.py:75 | strings ordered both ways are equal |
| Canonical.LexTransitive | ballsolver.py:75 | the string order is transitive |
| Canonical.Insert | ballsolver.py:75 | inserting into a sorted sequence gives a sorted sequence with one more occurrence of the string |
| Canonical.Sort | ballsolver.py:75 | the result is sorted and a permutation of the input |
| Canonical.SortedUnique | ballsolver.py:75 | two sorted sequences with the same elements are equal |
| Canonical.SplitJoin | ballsolver.py:74-76 | splitting a join undoes it when no piece holds the separator |
| Canonical.JoinAvoids | ballsolver.py:74-76 | a join holds a character only if a piece or the separator does |
| Canonical.KeyIgnoresTubeOrder | ballsolver.py:71-76 | grids that differ only in the order of their tubes have the same key |
| Canonical.ReadToken | ballsolver.py:74 | with plain colours a tube can be read back from its piece |
| Canonical.TokenInjective | ballsolver.py:74 | with plain colours, different tubes have different pieces |
| Canonical.TokensDetermineTubes | ballsolver.py:72-75 | with plain colours, the same pieces come only from the same tubes up to order |
| Canonical.PiecesAvoidSemicolon | ballsolver.py:74-75 | with plain colours, no sorted piece holds a semicolon |
| Canonical.KeyIdentifiesPosition | ballsolver.py:71-76 | for plain colours and equal tube counts, two grids have the same key iff one is the other reordered |
| Canonical.KeyCollision | ballsolver.py:74 | a colour holding a comma lets two different positions share a key |
| Canonical.RenderLines | ballsolver.py:47-52 | when no colour holds a newline, the rendering splits back into one line per tube, line k being tube k's colours |
| Search.OneMove | ballsolver.py:97-99 | a legal move to a solved grid is a one-move solution whose trace is that grid rendered |
| Search.SolutionExtends | ballsolver.py:100-105 | a legal move to an unsolved grid followed by a solution from it is a solution, and its trace is the successor's trace with the successor's rendering appended |
| Search.KeysExtend | ballsolver.py:86 | the keys of a longer line are the start's key in front of the rest's |
| Search.KeysFresh | ballsolver.py:100-102 | putting the start's key in front keeps every key remembered, none after the first seen before, and none repeated |
| Search.FoundAtOnce | ballsolver.py:97-99 | success on the first move meets every promise of a successful search |
| Search.KeysKeptThrough | ballsolver.py:100-102 | the key promises carry over through a move to a grid whose key was new |
| Search.FoundThrough | ballsolver.py:100-105 | success through a successor meets every promise of a successful search |
| Search.KeyInUniverse | ballsolver.py:100-102 | every grid's key lies in the finite universe of its tube count and balls |
| Search.Shrinks | ballsolver.py:100-102 | entering a position not yet seen leaves fewer positions of the universe to enter |
| Search.SolveGrid | ballsolver.py:78-107 | the visited set only grows and holds the input's key; failure leaves the answer unchanged; success means a solution legal from the input, ending solved, unsolved at every earlier grid, whose rendered grids, last first, were appended to the answer, whose positions are all remembered, none after the first entered before the call, and none twice; and the search terminates |
| Search.Solve | ballsolver.py:123-125 | with the height of the tallest tube and a fresh set and list, success means a solution whose rendered grids, after the reversal of line 133, come in playing order; failure leaves no steps |
| Search.SolutionSorts | ballsolver.py:97-99 | the last grid of a solution from tubes no taller than `h` has the start's tubes and balls, and every tube is empty or `h` balls of one colour |
| Search.SolutionIsChain | ballsolver.py:94-105 | each grid of a solution is one legal move from the one before, the first from the start |
| Scenarios.AlreadySolved | ballsolver.py:29-39 | `[[x,x],[y,y],[],[]]` is solved at height 2 |
| Scenarios.FirstMove | ballsolver.py:94-96 | from `[[x,y],[y,x],[],[]]` the pour 0→2 is legal and gives `[[x],[y,x],[y],[]]` |
| Scenarios.SecondMove | ballsolver.py:94-96 | then 1→0 is legal and gives `[[x,x],[y],[y],[]]` |
| Scenarios.ThirdMove | ballsolver.py:94-96 | then 1→2 is legal and gives `[[x,x],[],[y,y],[]]` |
| Scenarios.TwoColourLine | ballsolver.py:88-105 | the three moves are a solution of the two-colour puzzle with the states above |
| Scenarios.CountMismatch | ballsolver.py:9-15 | `[[x,x,x],[y,y],[],[]]` has 5 balls where 6 are needed and is not well formed |

## Left out

- `loadGrid` (lines 41-45): opening and parsing a JSON file is input, not logic.
- The `__main__` block (lines 109-136): argument parsing, timing, printing, `exit` and the
  count of visited positions. `Search.Solve` models only the fresh set and list it passes
  (lines 123-125) and the reversal of the answer (line 133).
- The messages `isValidGrid` prints (lines 14, 25): only its boolean result is modelled.
- `isValidGrid` walks its map in insertion order. The model picks the colours in any order,
  which does not change the result.
- The mutable default arguments of line 78: sharing them between separate top-level calls
  is not modelled. The set and the list are explicit inputs and outputs.
- `solveGrid` fails in two ways, `False` (line 107) and `None` (falling off the end). Both
  are `false` in the model. The `validMoves` flag (lines 87, 101) only chooses between the
  two, so it is dropped.
- Search.SolveGrid: proves termination and what success guarantees, but not completeness.
  It does not state that failure means no solution exists, nor which solution the ascending
  pair order picks among several.
- Search.SolveGrid: recursion depth is unbounded in the model. `solveGrid` makes one nested
  call per move of the line it explores (line 102), and CPython stops a line deeper than its
  recursion limit (about 1000 frames by default) with `RecursionError`. The model returns
  `true` or `false` there instead.
- Checks.IsValidGrid and Checks.SolvedAtDefaultHeight require a non-empty grid, and
  Search.SolveGrid one when the height is left out. This is where Python's `max` raises
  `ValueError`.
- Canonical.KeyIdentifiesPosition: exact only for colours that are non-empty and hold no
  `,` or `;`, and for grids with the same tube count. Canonical.KeyCollision shows a colour
  holding a comma breaks it.
- Canonical.RenderLines: holds only when no colour holds a newline.
- Moves.SettledTest: the two readings of the settled test agree only for tubes no taller
  than the height. Moves.SettledTestReadingsDiffer shows a taller tube where they differ.
- `randomballs.py`: a script of random shuffling and file writing, with no reusable logic.
