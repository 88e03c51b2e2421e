/** Text forms of a grid: the order-independent key the solver remembers positions by,
    and the one-line-per-tube rendering stored in the solution trace. */
module Canonical {
  import opened Tubes
  import opened Seqs

  // ---------------------------------------------------------------------------------
  // Ordering strings as the sort does: by character code, a proper prefix first.

  predicate LexLe(a: string, b: string)
  {
    if |a| == 0 then true
    else if |b| == 0 then false
    else if a[0] < b[0] then true
    else if a[0] > b[0] then false
    else LexLe(a[1..], b[1..])
  }

  lemma {:induction false} LexTotal(a: string, b: string)
    ensures LexLe(a, b) || LexLe(b, a)
  {
    if |a| > 0 && |b| > 0 && a[0] == b[0] {
      LexTotal(a[1..], b[1..]);
    }
  }

  lemma {:induction false} LexAntisymmetric(a: string, b: string)
    requires LexLe(a, b) && LexLe(b, a)
    ensures a == b
  {
    if |a| > 0 && |b| > 0 {
      LexAntisymmetric(a[1..], b[1..]);
      assert a == [a[0]] + a[1..] && b == [b[0]] + b[1..];
    }
  }

  lemma {:induction false} LexTransitive(a: string, b: string, c: string)
    requires LexLe(a, b) && LexLe(b, c)
    ensures LexLe(a, c)
  {
    if |a| > 0 && |b| > 0 && |c| > 0 && a[0] == b[0] && b[0] == c[0] {
      LexTransitive(a[1..], b[1..], c[1..]);
    }
  }

  predicate Sorted(s: seq<string>)
  {
    forall p, q :: 0 <= p < q < |s| ==> LexLe(s[p], s[q])
  }

  /** Puts `x` into its place in a sorted sequence. */
  function Insert(x: string, s: seq<string>): (r: seq<string>)
    requires Sorted(s)
    ensures Sorted(r)
    ensures multiset(r) == multiset(s) + multiset{x}
    decreases |s|
  {
    if s == [] then [x]
    else if LexLe(x, s[0]) then
      assert forall q :: 0 < q < |s| ==> LexLe(s[0], s[q]);
      LexOrderBelow(x, s);
      [x] + s
    else
      var rest := Insert(x, s[1..]);
      LexTotal(x, s[0]);
      assert s == [s[0]] + s[1..];
      forall k | 0 <= k < |rest| ensures LexLe(s[0], rest[k]) {
        assert rest[k] in multiset(rest);
        if rest[k] != x {
          assert rest[k] in multiset(s[1..]);
          var q :| 0 <= q < |s[1..]| && s[1..][q] == rest[k];
          assert s[q + 1] == rest[k];
        }
      }
      [s[0]] + rest
  }

  /** An element no greater than the head of a sorted sequence is no greater than any element of it. */
  lemma LexOrderBelow(x: string, s: seq<string>)
    requires Sorted(s) && |s| > 0 && LexLe(x, s[0])
    ensures forall q :: 0 <= q < |s| ==> LexLe(x, s[q])
  {
    forall q | 0 < q < |s| ensures LexLe(x, s[q]) {
      LexTransitive(x, s[0], s[q]);
    }
  }

  /** Sorts a sequence of strings (the `sorted` call). */
  function Sort(s: seq<string>): (r: seq<string>)
    ensures Sorted(r)
    ensures multiset(r) == multiset(s)
    decreases |s|
  {
    if s == [] then []
    else
      assert s == [s[0]] + s[1..];
      Insert(s[0], Sort(s[1..]))
  }

  /** The head of a sorted sequence is no greater than any of its elements. */
  lemma SortedHeadLeast(a: seq<string>, x: string)
    requires Sorted(a) && x in multiset(a)
    ensures LexLe(a[0], x)
  {
    var k :| 0 <= k < |a| && a[k] == x;
    if k == 0 {
      LexTotal(x, x);
    }
  }

  /** A sorted sequence stays sorted without its head. */
  lemma SortedTail(a: seq<string>)
    requires Sorted(a) && |a| > 0
    ensures Sorted(a[1..])
  {
    forall p, q | 0 <= p < q < |a| - 1 ensures LexLe(a[1..][p], a[1..][q]) {
      assert a[1..][p] == a[p + 1] && a[1..][q] == a[q + 1];
    }
  }

  /** Two sorted sequences holding the same strings are the same sequence: the result
      of the sort does not depend on the order its input came in. */
  lemma {:induction false} SortedUnique(a: seq<string>, b: seq<string>)
    requires Sorted(a) && Sorted(b) && multiset(a) == multiset(b)
    ensures a == b
    decreases |a|
  {
    if a == [] {
      NoElements(a, b);
    } else {
      assert |b| == |multiset(b)| == |multiset(a)| == |a|;
      assert a[0] in multiset(a) && b[0] in multiset(b);
      SortedHeadLeast(b, a[0]);
      SortedHeadLeast(a, b[0]);
      LexAntisymmetric(a[0], b[0]);
      SameTail(a, b);
      SortedTail(a);
      SortedTail(b);
      SortedUnique(a[1..], b[1..]);
      Cons(a, b);
    }
  }

  // ---------------------------------------------------------------------------------
  // Joining and splitting strings at a separator.

  /** The strings of `ss` with `sep` between each two (a string's `join`). */
  function Join(sep: string, ss: seq<string>): string
    decreases |ss|
  {
    if |ss| == 0 then ""
    else if |ss| == 1 then ss[0]
    else ss[0] + sep + Join(sep, ss[1..])
  }

  /** Cuts `s` at every occurrence of `c`; there is always at least one piece. */
  function Split(s: string, c: char): (r: seq<string>)
    ensures |r| > 0
    decreases |s|
  {
    if |s| == 0 then [""]
    else
      var rest := Split(s[1..], c);
      if s[0] == c then [""] + rest else [[s[0]] + rest[0]] + rest[1..]
  }

  lemma {:induction false} SplitWithoutSeparator(x: string, c: char)
    requires c !in x
    ensures Split(x, c) == [x]
    decreases |x|
  {
    if |x| > 0 {
      SplitWithoutSeparator(x[1..], c);
      assert x == [x[0]] + x[1..];
    }
  }

  lemma {:induction false} SplitAtFirstSeparator(x: string, c: char, rest: string)
    requires c !in x
    ensures Split(x + [c] + rest, c) == [x] + Split(rest, c)
    decreases |x|
  {
    var s := x + [c] + rest;
    if |x| == 0 {
      assert s[1..] == rest;
    } else {
      assert s[1..] == x[1..] + [c] + rest;
      SplitAtFirstSeparator(x[1..], c, rest);
      assert x == [x[0]] + x[1..];
    }
  }

  /** Splitting undoes joining when no piece holds the separator (and there is a piece). */
  lemma {:induction false} SplitJoin(c: char, ss: seq<string>)
    requires |ss| > 0
    requires forall k :: 0 <= k < |ss| ==> c !in ss[k]
    ensures Split(Join([c], ss), c) == ss
    decreases |ss|
  {
    if |ss| == 1 {
      SplitWithoutSeparator(ss[0], c);
    } else {
      SplitJoin(c, ss[1..]);
      SplitAtFirstSeparator(ss[0], c, Join([c], ss[1..]));
      assert ss == [ss[0]] + ss[1..];
    }
  }

  /** A joined string holds a character only if a piece or the separator does. */
  lemma {:induction false} JoinAvoids(sep: string, ss: seq<string>, c: char)
    requires c !in sep
    requires forall k :: 0 <= k < |ss| ==> c !in ss[k]
    ensures c !in Join(sep, ss)
    decreases |ss|
  {
    if |ss| > 1 {
      JoinAvoids(sep, ss[1..], c);
    }
  }

  // ---------------------------------------------------------------------------------
  // The canonical key.

  /** One tube as a key piece: its colours, bottom first, separated by commas. */
  function Token(t: Tube): string
  {
    Join(",", t)
  }

  /** The key pieces of all tubes, in tube order. */
  function Tokens(g: Grid): (r: seq<string>)
    ensures |r| == |g|
    ensures forall k :: 0 <= k < |g| ==> r[k] == Token(g[k])
  {
    Map(Token, g)
  }

  /** The key of a grid: its tubes' pieces, sorted, separated by semicolons. */
  function Key(g: Grid): string
  {
    Join(";", Sort(Tokens(g)))
  }

  /** The key does not depend on the order of the tubes. */
  lemma KeyIgnoresTubeOrder(g1: Grid, g2: Grid)
    requires multiset(g1) == multiset(g2)
    ensures Key(g1) == Key(g2)
  {
    MapPermutation(Token, g1, g2);
    SortedUnique(Sort(Tokens(g1)), Sort(Tokens(g2)));
  }

  /** A colour that cannot be confused with the key's punctuation. */
  predicate PlainColour(c: Colour)
  {
    |c| > 0 && ',' !in c && ';' !in c
  }

  predicate PlainTube(t: Tube)
  {
    forall k :: 0 <= k < |t| ==> PlainColour(t[k])
  }

  predicate PlainGrid(g: Grid)
  {
    forall k :: 0 <= k < |g| ==> PlainTube(g[k])
  }

  /** Reads a tube back from its key piece. */
  function ReadTube(s: string): Tube
  {
    if s == "" then [] else Split(s, ',')
  }

  /** A join of pieces is as long as its first piece at least. */
  lemma JoinIsLong(sep: string, ss: seq<string>)
    requires |ss| > 0
    ensures |Join(sep, ss)| >= |ss[0]|
  {
  }

  /** With plain colours, a tube can be read back from its piece. */
  lemma ReadToken(t: Tube)
    requires PlainTube(t)
    ensures ReadTube(Token(t)) == t
  {
    if t != [] {
      JoinIsLong(",", t);
      SplitJoin(',', t);
    }
  }

  /** With plain colours, different tubes have different pieces. */
  lemma TokenInjective(t1: Tube, t2: Tube)
    requires PlainTube(t1) && PlainTube(t2) && Token(t1) == Token(t2)
    ensures t1 == t2
  {
    ReadToken(t1);
    ReadToken(t2);
  }

  /** With plain colours, the same pieces come only from the same tubes. */
  lemma TokensDetermineTubes(s: Grid, t: Grid)
    requires PlainGrid(s) && PlainGrid(t)
    requires multiset(Tokens(s)) == multiset(Tokens(t))
    ensures multiset(s) == multiset(t)
  {
    forall x | PlainTube(x) ensures ReadTube(Token(x)) == x {
      ReadToken(x);
    }
    MapReflectsPermutation(Token, ReadTube, PlainTube, s, t);
  }

  /** With plain colours, no piece holds a semicolon. */
  lemma PiecesAvoidSemicolon(g: Grid)
    requires PlainGrid(g)
    ensures forall k :: 0 <= k < |Sort(Tokens(g))| ==> ';' !in Sort(Tokens(g))[k]
  {
    var sorted := Sort(Tokens(g));
    forall k | 0 <= k < |sorted| ensures ';' !in sorted[k] {
      assert sorted[k] in multiset(Tokens(g));
      var q :| 0 <= q < |Tokens(g)| && Tokens(g)[q] == sorted[k];
      JoinAvoids(",", g[q], ';');
    }
  }

  /** For grids with the same number of tubes and plain colours the key is exact: two
      grids have the same key if and only if one is the other with its tubes reordered. */
  lemma KeyIdentifiesPosition(g1: Grid, g2: Grid)
    requires |g1| == |g2| && PlainGrid(g1) && PlainGrid(g2)
    ensures Key(g1) == Key(g2) <==> multiset(g1) == multiset(g2)
  {
    if multiset(g1) == multiset(g2) {
      KeyIgnoresTubeOrder(g1, g2);
    }
    if Key(g1) == Key(g2) && |g1| > 0 {
      var s1, s2 := Sort(Tokens(g1)), Sort(Tokens(g2));
      assert |s1| == |multiset(s1)| == |Tokens(g1)| == |g1|;
      assert |s2| == |multiset(s2)| == |Tokens(g2)| == |g2|;
      PiecesAvoidSemicolon(g1);
      PiecesAvoidSemicolon(g2);
      SplitJoin(';', s1);
      SplitJoin(';', s2);
      assert s1 == s2;
      TokensDetermineTubes(g1, g2);
    }
    if |g1| == 0 {
      assert g1 == g2 == [];
    }
  }

  /** A colour that holds a comma makes two different positions share a key. */
  lemma KeyCollision()
    ensures var g1: Grid := [["a,b"], []];
            var g2: Grid := [["a", "b"], []];
            Key(g1) == Key(g2) && multiset(g1) != multiset(g2)
  {
    var g1: Grid := [["a,b"], []];
    var g2: Grid := [["a", "b"], []];
    assert Token(["a", "b"]) == "a" + "," + "b" == "a,b";
    assert Tokens(g1) == Tokens(g2);
    assert ["a,b"] !in multiset(g2) by {
      assert forall k :: 0 <= k < |g2| ==> g2[k] != ["a,b"];
    }
  }

  // ---------------------------------------------------------------------------------
  // The rendering kept in the solution trace.

  /** One tube as a line: its colours, bottom first, run together. */
  function Line(t: Tube): string
  {
    Join("", t)
  }

  /** The lines of all tubes, in tube order. */
  function Lines(g: Grid): (r: seq<string>)
    ensures |r| == |g|
    ensures forall k :: 0 <= k < |g| ==> r[k] == Line(g[k])
  {
    Map(Line, g)
  }

  /** A grid as text: one line per tube, separated by newlines. */
  function Render(g: Grid): string
  {
    Join("\n", Lines(g))
  }

  /** When no colour holds a newline, the rendering has one line per tube and the
      line of tube `k` is its colours run together. */
  lemma RenderLines(g: Grid)
    requires |g| > 0
    requires forall k, q :: 0 <= k < |g| && 0 <= q < |g[k]| ==> '\n' !in g[k][q]
    ensures |Split(Render(g), '\n')| == |g|
    ensures forall k :: 0 <= k < |g| ==> Split(Render(g), '\n')[k] == Line(g[k])
  {
    forall k | 0 <= k < |g| ensures '\n' !in Lines(g)[k] {
      JoinAvoids("", g[k], '\n');
    }
    SplitJoin('\n', Lines(g));
  }
}
