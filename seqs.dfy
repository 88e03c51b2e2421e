/** Facts about sequences and multisets that the grid model needs, stated for any
    element type. */
module Seqs {

  /** Adding the same element to two multisets keeps them equal or unequal. */
  lemma MultisetCancel<T>(a: multiset<T>, b: multiset<T>, x: T)
    requires a + multiset{x} == b + multiset{x}
    ensures a == b
  {
    forall c ensures a[c] == b[c] {
      assert (a + multiset{x})[c] == (b + multiset{x})[c];
    }
  }

  /** Two sequences with the same elements and the same head have the same elements
      after the head. */
  lemma SameTail<T>(a: seq<T>, b: seq<T>)
    requires |a| > 0 && |b| > 0 && a[0] == b[0] && multiset(a) == multiset(b)
    ensures multiset(a[1..]) == multiset(b[1..])
  {
    assert a == [a[0]] + a[1..] && b == [b[0]] + b[1..];
    assert multiset(a) == multiset(a[1..]) + multiset{a[0]};
    assert multiset(b) == multiset(b[1..]) + multiset{a[0]};
    MultisetCancel(multiset(a[1..]), multiset(b[1..]), a[0]);
  }

  /** Sequences agreeing on the head and on the rest are equal. */
  lemma Cons<T>(a: seq<T>, b: seq<T>)
    requires |a| > 0 && |b| > 0 && a[0] == b[0] && a[1..] == b[1..]
    ensures a == b
  {
    assert a == [a[0]] + a[1..] && b == [b[0]] + b[1..];
  }

  /** A sequence with the elements of the empty sequence is empty. */
  lemma NoElements<T>(a: seq<T>, b: seq<T>)
    requires a == [] && multiset(a) == multiset(b)
    ensures b == []
  {
    assert |b| == |multiset(b)| == 0;
  }

  /** Concatenation is associative. */
  lemma AppendAssoc<T>(a: seq<T>, b: seq<T>, c: seq<T>)
    ensures (a + b) + c == a + (b + c)
  {
  }

  /** Multiset union is associative. */
  lemma MultisetAssoc<T>(a: multiset<T>, b: multiset<T>, c: multiset<T>)
    ensures (a + b) + c == a + (b + c)
  {
  }

  /** The multiset of a sequence with one element added at the end. */
  lemma MultisetSnoc<T>(s: seq<T>, x: T)
    ensures multiset(s + [x]) == multiset(s) + multiset{x}
  {
  }

  /** `f` applied to every element, in order. */
  function Map<A, B>(f: A -> B, s: seq<A>): (r: seq<B>)
    ensures |r| == |s|
    ensures forall k :: 0 <= k < |s| ==> r[k] == f(s[k])
  {
    seq(|s|, k requires 0 <= k < |s| => f(s[k]))
  }

  lemma MapAppend<A, B>(f: A -> B, a: seq<A>, b: seq<A>)
    ensures Map(f, a + b) == Map(f, a) + Map(f, b)
  {
    assert forall k :: 0 <= k < |a + b| ==> (a + b)[k] == if k < |a| then a[k] else b[k - |a|];
  }

  /** Taking element `k` out of a sequence takes its image out of the mapped sequence. */
  lemma MapWithout<A, B>(f: A -> B, t: seq<A>, k: int)
    requires 0 <= k < |t|
    ensures multiset(Map(f, t)) == multiset(Map(f, t[..k] + t[k + 1..])) + multiset{f(t[k])}
  {
    var u, x, v := t[..k], t[k], t[k + 1..];
    assert t == u + ([x] + v);
    MapAppend(f, u, [x] + v);
    MapAppend(f, [x], v);
    MapAppend(f, u, v);
    var U, V := Map(f, u), Map(f, v);
    assert Map(f, [x]) == [f(x)];
    calc {
      multiset(Map(f, t));
      multiset(U + Map(f, [x] + v));
      multiset(U + ([f(x)] + V));
      multiset(U) + multiset([f(x)] + V);
      multiset(U) + (multiset{f(x)} + multiset(V));
      (multiset(U) + multiset(V)) + multiset{f(x)};
      multiset(U + V) + multiset{f(x)};
    }
  }

  /** Taking element `k` out of a sequence takes it out of the sequence's multiset. */
  lemma Without<A>(t: seq<A>, k: int)
    requires 0 <= k < |t|
    ensures multiset(t) == multiset(t[..k] + t[k + 1..]) + multiset{t[k]}
  {
    assert t == t[..k] + [t[k]] + t[k + 1..];
  }

  /** Reordering a sequence reorders its image. */
  lemma {:induction false} MapPermutation<A, B>(f: A -> B, s: seq<A>, t: seq<A>)
    requires multiset(s) == multiset(t)
    ensures multiset(Map(f, s)) == multiset(Map(f, t))
    decreases |s|
  {
    if s == [] {
      assert |t| == |multiset(t)| == 0;
    } else {
      var x := s[0];
      assert x in multiset(t);
      var k :| 0 <= k < |t| && t[k] == x;
      var t' := t[..k] + t[k + 1..];
      Without(t, k);
      Without(s, 0);
      assert s[..0] + s[1..] == s[1..];
      MultisetCancel(multiset(s[1..]), multiset(t'), x);
      MapPermutation(f, s[1..], t');
      MapWithout(f, t, k);
      MapWithout(f, s, 0);
      calc {
        multiset(Map(f, s));
        multiset(Map(f, s[1..])) + multiset{f(x)};
        multiset(Map(f, t')) + multiset{f(x)};
        multiset(Map(f, t));
      }
    }
  }

  /** When `back` undoes `f` on the elements that satisfy `p`, the images are reordered
      only if the sequences are. */
  lemma MapReflectsPermutation<A, B>(f: A -> B, back: B -> A, p: A -> bool, s: seq<A>, t: seq<A>)
    requires forall x :: p(x) ==> back(f(x)) == x
    requires forall k :: 0 <= k < |s| ==> p(s[k])
    requires forall k :: 0 <= k < |t| ==> p(t[k])
    requires multiset(Map(f, s)) == multiset(Map(f, t))
    ensures multiset(s) == multiset(t)
  {
    MapPermutation(back, Map(f, s), Map(f, t));
    assert Map(back, Map(f, s)) == s;
    assert Map(back, Map(f, t)) == t;
  }

  lemma MapSingle<A, B>(f: A -> B, x: A)
    ensures Map(f, [x]) == [f(x)]
  {
  }

  /** Mapping over a sequence with one element in front. */
  lemma MapCons<A, B>(f: A -> B, x: A, s: seq<A>)
    ensures Map(f, [x] + s) == [f(x)] + Map(f, s)
  {
    MapAppend(f, [x], s);
    assert Map(f, [x]) == [f(x)];
  }

  /** The elements of `s` in the opposite order. */
  function Reverse<T>(s: seq<T>): (r: seq<T>)
    ensures |r| == |s|
    decreases |s|
  {
    if s == [] then [] else Reverse(s[1..]) + [s[0]]
  }

  lemma ReverseSingle<T>(x: T)
    ensures Reverse([x]) == [x]
  {
    assert [x][1..] == [];
  }

  lemma ReverseCons<T>(x: T, s: seq<T>)
    ensures Reverse([x] + s) == Reverse(s) + [x]
  {
    assert ([x] + s)[1..] == s;
  }

  /** Reversing a concatenation reverses the parts and swaps them. */
  lemma {:induction false} ReverseAppend<T>(a: seq<T>, b: seq<T>)
    ensures Reverse(a + b) == Reverse(b) + Reverse(a)
    decreases |a|
  {
    if a == [] {
      assert a + b == b;
    } else {
      assert (a + b)[1..] == a[1..] + b;
      assert (a + b)[0] == a[0];
      ReverseAppend(a[1..], b);
    }
  }

  /** Reversing twice gives the sequence back. */
  lemma {:induction false} ReverseReverse<T>(s: seq<T>)
    ensures Reverse(Reverse(s)) == s
    decreases |s|
  {
    if s != [] {
      ReverseAppend(Reverse(s[1..]), [s[0]]);
      assert Reverse([s[0]]) == [s[0]];
      ReverseReverse(s[1..]);
      assert s == [s[0]] + s[1..];
    }
  }

  /** No element occurs twice. */
  predicate NoRepeats<T(==)>(s: seq<T>)
  {
    forall p, q :: 0 <= p < q < |s| ==> s[p] != s[q]
  }
}
