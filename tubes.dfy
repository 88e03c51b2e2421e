/** The state of a ball-sort puzzle: tubes of coloured balls, listed bottom to top,
    and the primitive queries and the single pour that the solver is built from. */
module Tubes {

  /** A colour is an opaque token; the puzzle files write each one as a short string. */
  type Colour = string

  /** A tube lists its balls from the bottom up: the last element is the top ball. */
  type Tube = seq<Colour>

  /** A grid is the ordered list of all tubes. */
  type Grid = seq<Tube>

  /** Stands for an optional argument that the caller may leave out. */
  datatype Option<T> = None | Some(value: T)

  /** The number of balls of colour `c` in `t` (a list's `count`). */
  function Count(t: Tube, c: Colour): nat
  {
    multiset(t)[c]
  }

  /** The top ball of a non-empty tube. */
  function Top(t: Tube): Colour
    requires |t| > 0
  {
    t[|t| - 1]
  }

  /** Every ball in `t` has the colour of its bottom ball. */
  predicate Monochrome(t: Tube)
  {
    forall k :: 0 <= k < |t| ==> t[k] == t[0]
  }

  /** No colour occurs more often than there are balls, and it occurs exactly that often
      precisely when every ball has that colour. */
  lemma {:induction false} CountAll(t: Tube, c: Colour)
    ensures Count(t, c) <= |t|
    ensures Count(t, c) == |t| <==> forall k :: 0 <= k < |t| ==> t[k] == c
  {
    if |t| > 0 {
      var init := t[..|t| - 1];
      assert t == init + [Top(t)];
      assert multiset(t) == multiset(init) + multiset{Top(t)};
      CountAll(init, c);
      if Count(t, c) == |t| {
        assert Top(t) == c;
        assert forall k :: 0 <= k < |init| ==> init[k] == t[k];
      }
      if forall k :: 0 <= k < |t| ==> t[k] == c {
        assert forall k :: 0 <= k < |init| ==> init[k] == t[k];
      }
    }
  }

  /** A non-empty tube holds as many balls of its bottom colour as it has balls
      exactly when it is monochrome. */
  lemma CountFirstIsLength(t: Tube)
    requires |t| > 0
    ensures Count(t, t[0]) == |t| <==> Monochrome(t)
  {
    CountAll(t, t[0]);
  }

  /** The largest tube length of a non-empty grid (`max(len(t) for t in grid)`). */
  function MaxLen(g: Grid): (r: nat)
    requires |g| > 0
    ensures forall k :: 0 <= k < |g| ==> |g[k]| <= r
    ensures exists k :: 0 <= k < |g| && |g[k]| == r
  {
    if |g| == 1 then |g[0]|
    else
      var m := MaxLen(g[1..]);
      assert forall k :: 1 <= k < |g| ==> g[k] == g[1..][k - 1];
      if |g[0]| >= m then |g[0]| else m
  }

  /** All balls of the grid, whatever tube they are in. */
  function Balls(g: Grid): multiset<Colour>
  {
    if g == [] then multiset{} else Balls(g[..|g| - 1]) + multiset(g[|g| - 1])
  }

  /** The balls of the first `i + 1` tubes are those of the first `i` and of tube `i`. */
  lemma BallsOfPrefix(g: Grid, i: int)
    requires 0 <= i < |g|
    ensures Balls(g[..i + 1]) == Balls(g[..i]) + multiset(g[i])
  {
    assert g[..i + 1][..i] == g[..i];
  }

  /** The total number of balls (`sum(len(t) for t in grid)`). */
  function TotalBalls(g: Grid): (r: nat)
    ensures r == |Balls(g)|
  {
    if g == [] then 0 else TotalBalls(g[..|g| - 1]) + |g[|g| - 1]|
  }

  /** Every tube's balls are among the grid's balls, so no tube holds more balls than
      the grid. */
  lemma {:induction false} TubeInBalls(g: Grid, k: int)
    requires 0 <= k < |g|
    ensures multiset(g[k]) <= Balls(g)
    ensures |g[k]| <= |Balls(g)|
  {
    var init := g[..|g| - 1];
    assert Balls(g) == Balls(init) + multiset(g[|g| - 1]);
    if k < |g| - 1 {
      assert init[k] == g[k];
      TubeInBalls(init, k);
    }
  }

  /** Replacing one tube trades that tube's balls for the new tube's balls. */
  lemma {:induction false} BallsUpdate(g: Grid, k: int, t: Tube)
    requires 0 <= k < |g|
    ensures Balls(g[k := t]) + multiset(g[k]) == Balls(g) + multiset(t)
  {
    var g' := g[k := t];
    var n := |g|;
    if k == n - 1 {
      assert g'[..n - 1] == g[..n - 1];
    } else {
      assert g'[..n - 1] == g[..n - 1][k := t];
      assert g'[n - 1] == g[n - 1] && g[..n - 1][k] == g[k];
      BallsUpdate(g[..n - 1], k, t);
      assert Balls(g') == Balls(g'[..n - 1]) + multiset(g[n - 1]);
      assert Balls(g) == Balls(g[..n - 1]) + multiset(g[n - 1]);
      var A, B := Balls(g'[..n - 1]), Balls(g[..n - 1]);
      assert A + multiset(g[k]) == B + multiset(t);
      forall c ensures (Balls(g') + multiset(g[k]))[c] == (Balls(g) + multiset(t))[c] {
        assert (A + multiset(g[k]))[c] == (B + multiset(t))[c];
      }
    }
  }

  /** A pour needs two distinct tubes of the grid and a ball in the source. */
  predicate CanPour(g: Grid, i: int, j: int)
  {
    0 <= i < |g| && 0 <= j < |g| && i != j && |g[i]| > 0
  }

  /** Takes the top ball off tube `i` and puts it on tube `j`, in a new grid;
      every other tube is left as it was. */
  function Pour(g: Grid, i: int, j: int): (r: Grid)
    requires CanPour(g, i, j)
    ensures |r| == |g|
    ensures r[i] == g[i][..|g[i]| - 1] && r[j] == g[j] + [Top(g[i])]
    ensures forall k :: 0 <= k < |g| && k != i && k != j ==> r[k] == g[k]
  {
    g[i := g[i][..|g[i]| - 1]][j := g[j] + [Top(g[i])]]
  }

  /** A pour moves a ball and creates or destroys none: every colour keeps its count. */
  lemma PourPreservesBalls(g: Grid, i: int, j: int)
    requires CanPour(g, i, j)
    ensures Balls(Pour(g, i, j)) == Balls(g)
  {
    var x := Top(g[i]);
    var src := g[i][..|g[i]| - 1];
    assert g[i] == src + [x];
    var g1 := g[i := src];
    BallsUpdate(g, i, src);
    assert multiset(g[i]) == multiset(src) + multiset{x};
    assert Balls(g1) + multiset(g[i]) == Balls(g) + multiset(src);
    forall c ensures (Balls(g1) + multiset{x})[c] == Balls(g)[c] {
      assert (Balls(g1) + multiset(g[i]))[c] == (Balls(g) + multiset(src))[c];
    }
    assert Balls(g1) + multiset{x} == Balls(g);
    assert g1[j] == g[j];
    BallsUpdate(g1, j, g[j] + [x]);
    assert multiset(g[j] + [x]) == multiset(g[j]) + multiset{x};
    var g2 := g1[j := g[j] + [x]];
    assert g2 == Pour(g, i, j);
    assert Balls(g2) + multiset(g[j]) == Balls(g1) + multiset(g[j] + [x]);
    forall c ensures Balls(g2)[c] == Balls(g)[c] {
      assert (Balls(g2) + multiset(g[j]))[c] == (Balls(g1) + multiset(g[j] + [x]))[c];
      assert (Balls(g1) + multiset{x})[c] == Balls(g)[c];
    }
  }
}
